/** The purger's methods, each proved to do to its fields what `CachePurger` says. */
module CachePurgerCalls {

  import opened Common
  import opened CachePurger
  import Walk = CacheWalker

  /** How the steps of one `writeTombstone` go: the first look, the temporary file with its text,
      the rename, the look after a failed rename, and the final sync; and whether another process
      writes the tombstone in between. */
  datatype WriteFaults = WriteFaults(
    look: bool, temp: bool, renamed: bool, lookAgain: bool, synced: bool, writtenByOther: bool)

  /** The tombstone is acknowledged: it was there, or the rename is on the disk, or the rename
      failed and somebody else's tombstone is found in its place. */
  predicate Writes(d: Directory, v: VideoId, f: WriteFaults) {
    f.look &&
    (v in d.regular ||
     (v !in d.strange && f.temp && if f.renamed then f.synced else f.writtenByOther && f.lookAgain))
  }

  /** A directory with tombstones: the volume shared by all purger processes, or the directory of
      one container that is at the root in its place. */
  class TombstoneDirectory {
    var regular: set<VideoId>
    var strange: set<VideoId>

    constructor ()
      ensures regular == {} && strange == {}
    {
      regular, strange := {}, {};
    }

    function View(): Directory
      reads this
    {
      Directory(regular, strange)
    }

    /** `writeTombstone`: success means that the tombstone is there; failure loses nothing. */
    method WriteTombstone(v: VideoId, faults: WriteFaults) returns (ok: bool)
      modifies `regular
      ensures ok ==> v in regular
      ensures ok <==> Writes(old(View()), v, faults)
      // An unacknowledged tombstone may be there all the same, and only then.
      ensures v in regular <==>
                || v in old(regular)
                || (faults.look && v !in old(strange) && faults.temp && (faults.renamed || faults.writtenByOther))
      ensures regular == old(regular) || regular == old(regular) + {v}
    {
      if !faults.look {
        return false;
      }
      if v in regular {
        return true;
      }
      if v in strange || !faults.temp {
        return false;
      }
      if faults.writtenByOther {
        regular := regular + {v};
      }
      if !faults.renamed {
        return faults.lookAgain && v in regular;
      }
      regular := regular + {v};
      ok := faults.synced;
    }
  }

  /** One entry of the tombstone root: a file whose name is a canonical video id, and what is
      found to be wrong with it, or a name that is none. */
  datatype Listed = Tombstone(video: VideoId, sound: bool) | Unrelated

  /** What `loadTombstones` registers: everything up to the first unsound tombstone. */
  function Loaded(s: Replica, listing: seq<Listed>): (t: Replica)
    ensures t.sweep == s.sweep && s.deleted <= t.deleted
    decreases |listing|
  {
    if listing == [] || (listing[0].Tombstone? && !listing[0].sound) then s
    else Loaded(if listing[0].Tombstone? then Register(s, listing[0].video) else s, listing[1..])
  }

  predicate AllSound(listing: seq<Listed>) {
    forall i :: 0 <= i < |listing| && listing[i].Tombstone? ==> listing[i].sound
  }

  function Arrived(s: Replica, arrivals: seq<VideoId>): (t: Replica)
    ensures t.sweep == s.sweep && t.sweepActive == s.sweepActive && s.deleted <= t.deleted
    decreases |arrivals|
  {
    if arrivals == [] then s else Arrived(Register(s, arrivals[0]), arrivals[1..])
  }

  /** A load that succeeds has registered every tombstone there is. */
  lemma {:induction false} LoadRegistersAll(s: Replica, listing: seq<Listed>)
    requires Inv(s)
    ensures var t := Loaded(s, listing);
            && Inv(t)
            && (AllSound(listing) ==>
                  forall i :: 0 <= i < |listing| && listing[i].Tombstone? ==> listing[i].video in t.deleted)
    decreases |listing|
  {
    if listing == [] || (listing[0].Tombstone? && !listing[0].sound) {
    } else {
      if listing[0].Tombstone? {
        StepKeepsInv(s, DoRegister(listing[0].video));
      }
      LoadRegistersAll(if listing[0].Tombstone? then Register(s, listing[0].video) else s, listing[1..]);
      assert forall i :: 0 < i < |listing| ==> listing[1..][i - 1] == listing[i];
    }
  }

  /** The cache root: what opening and listing it gives. */
  datatype CacheRoot = CannotOpen | Opened(path: Walk.Path, entries: seq<Walk.Entry>, broken: bool)

  predicate SweptClean(root: CacheRoot, snapshot: set<VideoId>, removed: seq<Walk.Path>) {
    && root.Opened?
    && var visits := Walk.Listing(root.path, root.entries, root.broken);
       Walk.Failures(visits, snapshot) == 0 && removed == Walk.Removals(visits, snapshot)
  }

  /** However far the sweep got, it has removed files of the snapshot only, in their order. */
  predicate OnlySwept(root: CacheRoot, snapshot: set<VideoId>, removed: seq<Walk.Path>) {
    if root.Opened? then removed <= Walk.Removals(Walk.Listing(root.path, root.entries, root.broken), snapshot)
    else removed == []
  }

  /** The loops of `finishSweepSuccess` and `finishSweepFailure` over the snapshot. */
  method MarkSwept(before: map<VideoId, Record>, generation: nat, snapshot: set<VideoId>)
    returns (records: map<VideoId, Record>)
    ensures records == SweptAll(before, snapshot, generation)
  {
    records := before;
    var left := snapshot;
    while left != {}
      invariant left <= snapshot && records == SweptAll(before, snapshot - left, generation)
    {
      var v :| v in left;
      left := left - {v};
      if v in records {
        records := records[v := Swept(records[v], generation)];
      }
    }
    assert snapshot - left == snapshot;
  }

  method MarkMissed(before: map<VideoId, Record>, generation: nat, snapshot: set<VideoId>)
    returns (records: map<VideoId, Record>)
    ensures records == MissedAll(before, snapshot, generation)
  {
    records := before;
    var left := snapshot;
    while left != {}
      invariant left <= snapshot && records == MissedAll(before, snapshot - left, generation)
    {
      var v :| v in left;
      left := left - {v};
      if v in records && records[v].required <= generation {
        records := records[v := records[v].(state := Retrying)];
      }
    }
    assert snapshot - left == snapshot;
  }

  /** The sweep has time for the whole tree, and nothing in the tree is in its way. */
  predicate CanSweep(root: CacheRoot, snapshot: set<VideoId>, schedule: seq<nat>) {
    && root.Opened? && Walk.Looks(schedule) > 2 + Walk.SizeAll(root.entries)
    && Walk.Failures(Walk.Listing(root.path, root.entries, root.broken), snapshot) == 0
  }

  class Purger {
    var deleted: set<VideoId>
    var records: map<VideoId, Record>
    var completedGeneration: nat
    var activeGeneration: nat
    var sweepActive: bool
    var lastError: bool
    ghost var sweep: Option<Running>
    ghost var clean: map<VideoId, nat>

    ghost function View(): Replica
      reads this
    {
      Replica(deleted, records, completedGeneration, activeGeneration, sweepActive, lastError, sweep, clean)
    }

    constructor ()
      ensures View() == STARTED && Inv(View())
    {
      deleted, records, completedGeneration, activeGeneration := {}, map[], 0, 0;
      sweepActive, lastError, sweep, clean := false, false, None, map[];
    }

    method RegisterRevoked(v: VideoId) returns (record: Record)
      requires Inv(View())
      modifies this
      ensures View() == Register(old(View()), v) && Inv(View())
      ensures v in records && record == records[v]
    {
      StepKeepsInv(View(), DoRegister(v));
      deleted := deleted + {v};
      if v !in records {
        var required := completedGeneration + 1;
        if sweepActive {
          required := activeGeneration + 1;
        }
        records := records[v := Record(Pending, required, 0)];
        clean := clean[v := 0];
      }
      record := records[v];
    }

    /** `revoke`: the tombstone first, at whatever is at the root, then this process's memory. */
    method Revoke(
      root: Root, shared: TombstoneDirectory, other: TombstoneDirectory, v: VideoId, cancelled: bool,
      faults: WriteFaults)
      returns (ok: bool)
      requires Inv(View()) && shared != other
      modifies this, shared`regular, other`regular
      ensures Inv(View()) && old(shared.regular) <= shared.regular && old(other.regular) <= other.regular
      ensures ok ==> View() == Register(old(View()), v)
      ensures ok ==> (root.SharedVolume? && v in shared.regular) || (root.OtherDirectory? && v in other.regular)
      ensures !ok ==> View() == old(View())
      ensures ok <==> !cancelled && root.IsDirectory() &&
                      Writes(old((if root.SharedVolume? then shared else other).View()), v, faults)
      ensures !root.SharedVolume? ==> shared.regular == old(shared.regular)
    {
      if cancelled || !root.IsDirectory() {
        return false;
      }
      if root.SharedVolume? {
        ok := shared.WriteTombstone(v, faults);
      } else {
        ok := other.WriteTombstone(v, faults);
      }
      if ok {
        var _ := RegisterRevoked(v);
      }
    }

    /** `lookupRevoked`, given what is at the root at its two looks. */
    method LookupRevoked(
      shared: TombstoneDirectory, other: TombstoneDirectory, atLstat: Root, atStat: Root, v: VideoId)
      returns (answer: Answer)
      requires Inv(View())
      modifies this
      ensures answer == Lookup(old(View()), shared.View(), other.View(), atLstat, atStat, v)
      ensures View() == (if answer == Revoked then Register(old(View()), v) else old(View())) && Inv(View())
    {
      if v in deleted {
        assert deleted + {v} == deleted;
        return Revoked;
      }
      var info := LstatTombstone(atLstat, shared.View(), other.View(), v);
      match info {
        case RegularFile =>
          var _ := RegisterRevoked(v);
          answer := Revoked;
        case OtherFile => answer := Unavailable;
        case Failed => answer := Unavailable;
        case NotExist =>
          if atStat.IsDirectory() {
            answer := NotRevoked;
          } else {
            answer := Unavailable;
          }
      }
    }

    /** `loadTombstones` */
    method LoadTombstones(listing: seq<Listed>) returns (ok: bool)
      requires Inv(View())
      modifies this
      ensures View() == Loaded(old(View()), listing) && Inv(View())
      ensures ok <==> AllSound(listing)
    {
      var i := 0;
      while i < |listing|
        invariant 0 <= i <= |listing| && Inv(View())
        invariant Loaded(View(), listing[i..]) == Loaded(old(View()), listing)
        invariant AllSound(listing[..i])
      {
        assert listing[i..][0] == listing[i] && listing[i..][1..] == listing[i + 1..];
        if listing[i].Tombstone? {
          if !listing[i].sound {
            return false;
          }
          var _ := RegisterRevoked(listing[i].video);
        }
        i := i + 1;
      }
      assert listing[..i] == listing;
      ok := true;
    }

    method FinishSweepSuccess(generation: nat, snapshot: set<VideoId>)
      requires Inv(View()) && sweepActive && sweep == Some(Running(generation, snapshot))
      modifies this
      ensures View() == Succeed(old(View())) && Inv(View())
    {
      StepKeepsInv(View(), DoSucceed);
      completedGeneration, activeGeneration, sweepActive, lastError := generation, 0, false, false;
      records := MarkSwept(records, generation, snapshot);
      sweep := None;
      clean := map v | v in clean :: if v in snapshot then clean[v] + 1 else clean[v];
    }

    method FinishSweepFailure(generation: nat, snapshot: set<VideoId>)
      requires Inv(View()) && sweep == Some(Running(generation, snapshot))
      modifies this
      ensures View() == Fail(old(View())) && Inv(View())
    {
      StepKeepsInv(View(), DoFail);
      activeGeneration, sweepActive, lastError := 0, false, true;
      records := MarkMissed(records, generation, snapshot);
      sweep := None;
    }

    /** Requests that arrive while the gate is held take the mutex between two sections. */
    method Interleave(arrivals: seq<VideoId>)
      requires Inv(View())
      modifies this
      ensures View() == Arrived(old(View()), arrivals) && Inv(View())
    {
      var i := 0;
      while i < |arrivals|
        invariant 0 <= i <= |arrivals| && Inv(View())
        invariant Arrived(View(), arrivals[i..]) == Arrived(old(View()), arrivals)
      {
        assert arrivals[i..][0] == arrivals[i] && arrivals[i..][1..] == arrivals[i + 1..];
        var _ := RegisterRevoked(arrivals[i]);
        i := i + 1;
      }
    }

    /** The sweep of `reconcileOnce`, between the sections that begin and finish it. */
    method SweepCache(snapshot: set<VideoId>, root: CacheRoot, schedule: seq<nat>)
      returns (ok: bool, removed: seq<Walk.Path>)
      ensures ok ==> SweptClean(root, snapshot, removed)
      ensures CanSweep(root, snapshot, schedule) ==> ok
      ensures OnlySwept(root, snapshot, removed)
    {
      if root.CannotOpen? {
        return false, [];
      }
      var walker := new Walk.Walker(root.path, root.entries, root.broken);
      var r := Walk.Sweep(walker, snapshot, schedule);
      ok, removed := r.completed && r.errors == 0, r.removed;
    }

    /** `reconcileOnce` after the tombstones could not be loaded. */
    method ReportLoadFailure(arrivals: seq<VideoId>)
      requires Inv(View()) && sweep.None?
      modifies this
      ensures Inv(View()) && View() == Fail(Arrived(BeginFailed(old(View())), arrivals))
    {
      var generation, snapshot := completedGeneration + 1, deleted;
      StepKeepsInv(View(), DoBeginFailed);
      sweep := Some(Running(generation, snapshot));
      assert View() == BeginFailed(old(View()));
      Interleave(arrivals);
      assert View().sweep == Some(Running(generation, snapshot));
      FinishSweepFailure(generation, snapshot);
    }

    /** `reconcileOnce` from the start of the sweep to its end. */
    method SweepOnce(root: CacheRoot, schedule: seq<nat>, arrivals: seq<VideoId>)
      returns (ok: bool, removed: seq<Walk.Path>)
      requires Inv(View()) && sweep.None? && deleted != {}
      modifies this
      ensures Inv(View())
      ensures ok ==> SweptClean(root, old(deleted), removed)
      ensures OnlySwept(root, old(deleted), removed)
      ensures CanSweep(root, old(deleted), schedule) ==> ok
      ensures var t := Arrived(Begin(old(View())), arrivals);
              View() == if ok then Succeed(t) else Fail(t)
    {
      StepKeepsInv(View(), DoBegin);
      var generation, snapshot := completedGeneration + 1, deleted;
      activeGeneration, sweepActive, sweep := generation, true, Some(Running(generation, snapshot));
      assert View() == Begin(old(View()));
      ok, removed := SweepCache(snapshot, root, schedule);
      Interleave(arrivals);
      assert View().sweep == Some(Running(generation, snapshot)) && View().sweepActive;
      if ok {
        FinishSweepSuccess(generation, snapshot);
      } else {
        FinishSweepFailure(generation, snapshot);
      }
    }

    /** `reconcileOnce`, under the sweep gate. A listing of None is a tombstone root that cannot
        be read; `arrivals` are the videos registered while the sweep runs. */
    method ReconcileOnce(
      listing: Option<seq<Listed>>, root: CacheRoot, schedule: seq<nat>, arrivals: seq<VideoId>)
      returns (ok: bool, removed: seq<Walk.Path>)
      requires Inv(View()) && sweep.None?
      modifies this
      ensures Inv(View()) && sweep.None?
      ensures var s := if listing.Some? then Loaded(old(View()), listing.value) else old(View());
              if listing.None? || !AllSound(listing.value) then
                !ok && removed == [] && View() == Fail(Arrived(BeginFailed(s), arrivals))
              else if s.deleted == {} then
                ok && removed == [] && View() == Begin(s)
              else
                && (ok ==> SweptClean(root, s.deleted, removed)) && (CanSweep(root, s.deleted, schedule) ==> ok)
                && OnlySwept(root, s.deleted, removed)
                && var t := Arrived(Begin(s), arrivals);
                   View() == if ok then Succeed(t) else Fail(t)
    {
      var loaded := false;
      if listing.Some? {
        loaded := LoadTombstones(listing.value);
      }
      if !loaded {
        ReportLoadFailure(arrivals);
        return false, [];
      }
      StepKeepsInv(View(), DoBegin);
      if deleted == {} {
        lastError := false;
        return true, [];
      }
      ok, removed := SweepOnce(root, schedule, arrivals);
    }
  }

  /** A run of `reconcileOnce` that succeeds has removed every cached file of every video that
      was revoked when it began, wherever it lies behind no symlink, and no file of another video. */
  lemma SweptCleanMeansGone(
    root: CacheRoot, snapshot: set<VideoId>, removed: seq<Walk.Path>,
    path: Walk.Path, content: Walk.Content, removable: bool)
    requires SweptClean(root, snapshot, removed)
    requires Walk.WellNamed(root.entries) && Walk.Lies(root.entries, path, content, removable)
    ensures root.path + path in removed <==> content.Names? && content.video in snapshot
  {
    Walk.CleanSweepGetsAll(root.path, root.entries, root.broken, snapshot, path, content, removable);
  }
}
