/** A deletion and the admission of an upload as the sequential programs one handler runs, with
    every other handler and worker free to take any steps of the saga between two calls. */
module DeletionCalls {

  import opened DeletionSaga

  datatype Admission = Admitted | LeaseBusy | NotWritable

  datatype DeleteResult =
    | Deleted
    | InProgress
    // No such video, or one with unfinished jobs; nothing was changed.
    | Refused
    // The tombstone stands and the client is to try again.
    | Retryable
    // The row lock was not free while it was watched.
    | StillWaiting

  lemma OthersLeaveMe(s: State, p: nat, m: Move)
    requires Inv(s) && p < |s.procs| && m.p != p && Can(s, m.p, m.action)
    ensures var t := Do(s, m.p, m.action);
            Inv(t) && |t.procs| == |s.procs| && t.procs[p] == s.procs[p]
  {
    StepKeepsInv(s, m.p, m.action);
    LocksAreTakenFree(s, m.p, m.action);
  }

  /** For as long as an admitted handler has not answered, no deletion of its video begins,
      whatever all others do. */
  lemma {:induction false} AdmittedWritesAreSafe(s: State, p: nat, run: seq<Move>)
    requires Inv(s) && Legal(s, run) && p < |s.procs| && s.procs[p].Writing?
    requires forall m :: m in run ==> m.p != p
    ensures var t := After(s, run); |t.procs| == |s.procs| && t.procs[p] == s.procs[p] && t.row.Live?
    decreases |run|
  {
    assert PhaseSound(s, s.procs[p]);
    if run != [] {
      OthersLeaveMe(s, p, run[0]);
      AdmittedWritesAreSafe(Do(s, run[0].p, run[0].action), p, run[1..]);
    }
  }

  /** Nothing stands in the way of a deletion: no lease, no row lock, no unfinished job. */
  predicate CanDelete(s: State) {
    LeaseFree(s, false) && RowFree(s) && (s.row.Live? || s.row.Deleting?) && s.active == {}
  }

  predicate OthersStill(before: State, now: State, p: nat) {
    |now.procs| == |before.procs| && forall q :: 0 <= q < |now.procs| && q != p ==> now.procs[q] == before.procs[q]
  }

  lemma ThreeClear(progress: seq<Progress>, x: nat, y: nat, z: nat)
    requires |progress| == BUCKETS && x < BUCKETS && y < BUCKETS && z < BUCKETS && x != y && y != z && z != x
    ensures progress == [Clear, Clear, Clear] <==> progress[x] == progress[y] == progress[z] == Clear
  {
    assert progress == [progress[0], progress[1], progress[2]];
  }

  /** In the cleaning handler, only this bucket's progress has changed. */
  predicate OnlyAt(before: Phase, now: Phase, b: nat) {
    && before.Cleaning? && now.Cleaning? && |before.progress| == |now.progress| && b < |now.progress|
    && now.progress == before.progress[b := now.progress[b]]
  }

  /** Nobody but this handler has moved, and it has touched this bucket only. */
  predicate OnlyThere(before: State, now: State, p: nat, b: nat) {
    OthersStill(before, now, p) && b < |before.stores| == |now.stores| && now.stores == before.stores[b := now.stores[b]]
  }

  function Without(st: Store, gone: set<nat>, uploads: bool): Store {
    if uploads then st.(uploads := st.uploads - gone) else st.(objects := st.objects - gone)
  }

  function Ids(st: Store, uploads: bool): set<nat> {
    if uploads then st.uploads.Keys else st.objects.Keys
  }

  lemma NoIds(st: Store)
    requires Ids(st, true) == {} == Ids(st, false)
    ensures Empty(st)
  {
    assert st.uploads == map[] && st.objects == map[];
  }

  function RemovedFrom(s: State, b: nat, gone: set<nat>, uploads: bool): State
    requires b < |s.stores|
  {
    WithStore(s, b, Without(s.stores[b], gone, uploads))
  }

  /** With all ids removed but the missed ones, the missed ones are what is left. */
  lemma OnlyMissedAreLeft(s: State, p: nat, b: nat, missed: set<nat>, uploads: bool)
    requires b < |s.stores| && missed <= Ids(s.stores[b], uploads)
    ensures var now := RemovedFrom(s, b, Ids(s.stores[b], uploads) - missed, uploads);
            && OnlyThere(s, now, p, b)
            && Ids(now.stores[b], uploads) == missed && Ids(now.stores[b], !uploads) == Ids(s.stores[b], !uploads)
  {
    var st := s.stores[b];
    assert Ids(Without(st, Ids(st, uploads) - missed, uploads), uploads) == missed;
  }

  lemma NothingRemoved(s: State, b: nat, listed: set<nat>, uploads: bool)
    requires b < |s.stores|
    ensures RemovedFrom(s, b, listed - listed - {}, uploads) == s
  {
    assert listed - listed - {} == {};
    assert Without(s.stores[b], {}, uploads) == s.stores[b];
    assert s.stores[b := s.stores[b]] == s.stores;
  }

  /** The next of the listed ids, removed or missed. */
  lemma OneMoreRemoved(s: State, b: nat, listed: set<nat>, left: set<nat>, missed: set<nat>, id: nat, uploads: bool)
    requires b < |s.stores| && left <= listed && missed <= listed - left && id in left
    ensures RemovedFrom(RemovedFrom(s, b, listed - left - missed, uploads), b, {id}, uploads) ==
            RemovedFrom(s, b, listed - (left - {id}) - missed, uploads)
    ensures listed - left - missed == listed - (left - {id}) - (missed + {id})
  {
    var gone := listed - left - missed;
    var st := s.stores[b];
    assert gone + {id} == listed - (left - {id}) - missed;
    assert st.uploads - gone - {id} == st.uploads - (gone + {id});
    assert st.objects - gone - {id} == st.objects - (gone + {id});
  }

  // ---- Answers of external calls --------------------------------------------------------

  /** The next so many calls succeed; when the list is used up they all do. */
  predicate Fine(answers: seq<bool>, calls: nat) {
    forall i :: 0 <= i < calls && i < |answers| ==> answers[i]
  }

  function Rest(answers: seq<bool>, calls: nat): seq<bool> {
    if calls <= |answers| then answers[calls..] else []
  }

  function FailedOf(answers: seq<bool>, calls: nat): nat {
    if calls == 0 then 0 else FailedOf(answers, calls - 1) + if Fine(Rest(answers, calls - 1), 1) then 0 else 1
  }

  lemma CallsInARow(answers: seq<bool>, first: nat, second: nat)
    ensures Fine(answers, first + second) <==> Fine(answers, first) && Fine(Rest(answers, first), second)
    ensures Rest(answers, first + second) == Rest(Rest(answers, first), second)
  {
    if Fine(answers, first) && Fine(Rest(answers, first), second) {
      forall i | 0 <= i < first + second && i < |answers|
        ensures answers[i]
      {
        if first <= i {
          assert Rest(answers, first)[i - first] == answers[i];
        }
      }
    }
    if Fine(answers, first + second) && first <= |answers| {
      assert forall i :: 0 <= i < second && i < |answers| - first ==> answers[first..][i] == answers[i + first];
    }
  }

  /** What is left of the answers after listing ids and removing each of them; nothing is
      removed if the listing fails. */
  function AfterStage(answers: seq<bool>, ids: nat): seq<bool> {
    if Fine(answers, 1) then Rest(answers, 1 + ids) else Rest(answers, 1)
  }

  /** The same after the removals of `DeletePrefix` where nobody else writes: uploads first,
      and objects only if no call about uploads failed. */
  function AfterListed(answers: seq<bool>, st: Store): seq<bool> {
    var uploads, objects := |st.uploads.Keys|, |st.objects.Keys|;
    if Fine(answers, 1 + uploads) then AfterStage(Rest(answers, 1 + uploads), objects) else AfterStage(answers, uploads)
  }

  /** None of these calls fails. */
  predicate Removes(answers: seq<bool>, st: Store) {
    Fine(answers, 2 + |st.uploads.Keys| + |st.objects.Keys|)
  }

  /** The same after the two listings that verify. */
  function AfterPrefix(answers: seq<bool>, st: Store): seq<bool> {
    var verifying := AfterListed(answers, st);
    if !Removes(answers, st) then verifying
    else if !Fine(verifying, 1) then Rest(verifying, 1)
    else Rest(verifying, 2)
  }

  predicate Cleans(answers: seq<bool>, st: Store) {
    Fine(answers, 4 + |st.uploads.Keys| + |st.objects.Keys|)
  }

  lemma StageByStage(answers: seq<bool>, st: Store)
    ensures var uploads, objects := |st.uploads.Keys|, |st.objects.Keys|;
            Removes(answers, st) <==> Fine(answers, 1 + uploads) && Fine(Rest(answers, 1 + uploads), 1 + objects)
  {
    CallsInARow(answers, 1 + |st.uploads.Keys|, 1 + |st.objects.Keys|);
  }

  lemma FineSooner(answers: seq<bool>, fewer: nat, calls: nat)
    requires fewer <= calls && Fine(answers, calls)
    ensures Fine(answers, fewer)
  {
  }

  lemma AllStages(answers: seq<bool>, st: Store)
    requires Removes(answers, st)
    ensures AfterListed(answers, st) == Rest(answers, 2 + |st.uploads.Keys| + |st.objects.Keys|)
  {
    var uploads, objects := |st.uploads.Keys|, |st.objects.Keys|;
    StageByStage(answers, st);
    FineSooner(Rest(answers, 1 + uploads), 1, 1 + objects);
    CallsInARow(answers, 1 + uploads, 1 + objects);
  }

  lemma ThenTheListings(answers: seq<bool>, st: Store)
    ensures Cleans(answers, st) <==> Removes(answers, st) && Fine(AfterListed(answers, st), 2)
  {
    var calls := 2 + |st.uploads.Keys| + |st.objects.Keys|;
    CallsInARow(answers, calls, 2);
    if Removes(answers, st) {
      AllStages(answers, st);
    }
  }

  /** Letting go of anything but a row lock leaves the row as free as it was. */
  lemma SameLocks(before: State, now: State, p: nat)
    requires p < |before.procs| == |now.procs| && now.procs == before.procs[p := now.procs[p]]
    requires !RowLock(before.procs[p]) && !RowLock(now.procs[p])
    ensures RowFree(before) <==> RowFree(now)
  {
    assert forall q :: 0 <= q < |now.procs| && q != p ==> now.procs[q] == before.procs[q];
  }

  /** Each prefix, tried whatever became of the ones before it, is cleaned if its own calls
      succeed. */
  predicate EachCleaned(answers: seq<bool>, stores: seq<Store>, now: seq<Store>, x: nat, y: nat, z: nat) {
    && |stores| == |now| == BUCKETS && x < BUCKETS && y < BUCKETS && z < BUCKETS
    && (Cleans(answers, stores[x]) ==> Empty(now[x]))
    && var second := AfterPrefix(answers, stores[x]);
       && (Cleans(second, stores[y]) ==> Empty(now[y]))
       && (Cleans(AfterPrefix(second, stores[y]), stores[z]) ==> Empty(now[z]))
  }

  predicate AllClean(answers: seq<bool>, stores: seq<Store>, x: nat, y: nat, z: nat)
    requires |stores| == BUCKETS && x < BUCKETS && y < BUCKETS && z < BUCKETS
  {
    Cleans(answers, stores[x]) &&
    var second := AfterPrefix(answers, stores[x]);
    Cleans(second, stores[y]) && Cleans(AfterPrefix(second, stores[y]), stores[z])
  }

  /** The revocation is acknowledged, and every prefix cleaned. */
  predicate AllCleaned(answers: seq<bool>, stores: seq<Store>, x: nat, y: nat, z: nat)
    requires |stores| == BUCKETS && x < BUCKETS && y < BUCKETS && z < BUCKETS
  {
    Fine(answers, 1) && AllClean(Rest(answers, 1), stores, x, y, z)
  }

  lemma SmoothStaysSmooth(answers: seq<bool>, calls: nat)
    requires Fine(answers, |answers|)
    ensures Fine(answers, calls) && Fine(Rest(answers, calls), |Rest(answers, calls)|)
  {
  }

  lemma SmoothPrefix(answers: seq<bool>, st: Store)
    requires Fine(answers, |answers|)
    ensures Cleans(answers, st) && Fine(AfterPrefix(answers, st), |AfterPrefix(answers, st)|)
  {
    var calls := 2 + |st.uploads.Keys| + |st.objects.Keys|;
    SmoothStaysSmooth(answers, calls);
    SmoothStaysSmooth(answers, calls + 2);
    AllStages(answers, st);
    SmoothStaysSmooth(Rest(answers, calls), 2);
  }

  /** If no call fails then everything is cleaned. */
  lemma SmoothCleans(answers: seq<bool>, stores: seq<Store>, x: nat, y: nat, z: nat)
    requires |stores| == BUCKETS && x < BUCKETS && y < BUCKETS && z < BUCKETS
    requires Fine(answers, |answers|)
    ensures AllCleaned(answers, stores, x, y, z)
  {
    SmoothStaysSmooth(answers, 1);
    var first := Rest(answers, 1);
    SmoothPrefix(first, stores[x]);
    var second := AfterPrefix(first, stores[x]);
    SmoothPrefix(second, stores[y]);
    SmoothPrefix(AfterPrefix(second, stores[y]), stores[z]);
  }

  /** How a deletion begins that nobody disturbs. */
  function Begun(s: State, patience: nat): DeleteResult {
    if !LeaseFree(s, false) then InProgress
    else if patience == 0 || !RowFree(s) then StillWaiting
    else if (s.row.Live? || s.row.Deleting?) && s.active == {} then Retryable
    else Refused
  }

  /** What becomes of a state when others try these moves, and the impossible ones fail. */
  function Tried(s: State, p: nat, moves: seq<Move>): State
    decreases |moves|
  {
    if moves == [] then s
    else Tried(if moves[0].p != p && Can(s, moves[0].p, moves[0].action) then Do(s, moves[0].p, moves[0].action) else s,
               p, moves[1..])
  }

  /** The others have had this many chances to act. */
  predicate Patient(before: seq<seq<Move>>, now: seq<seq<Move>>, looks: int) {
    now == [] || |now| + looks <= |before|
  }

  class Deployment {
    var s: State
    /** What the others try between two calls of the program under study. */
    var others: seq<seq<Move>>
    /** Whether the external calls succeed, one after the other. */
    var answers: seq<bool>

    constructor (s: State, others: seq<seq<Move>>, answers: seq<bool>)
      ensures this.s == s && this.others == others && this.answers == answers
    {
      this.s, this.others, this.answers := s, others, answers;
    }

    /** Nobody else acts. */
    predicate Alone()
      reads this
    {
      others == []
    }

    /** Nobody else acts and no external call fails. */
    predicate Quiet()
      reads this
    {
      Alone() && Fine(answers, |answers|)
    }

    method Answer() returns (ok: bool)
      modifies this`answers
      ensures ok <==> Fine(old(answers), 1)
      ensures answers == Rest(old(answers), 1)
    {
      ok := answers == [] || answers[0];
      answers := if answers == [] then [] else answers[1..];
    }

    /** Others run; whatever they do, this handler is where it was, with the leases and locks it
        had, and the invariant says what that is worth. */
    method Interfere(p: nat)
      requires Inv(s) && p < |s.procs|
      modifies this`s, this`others
      ensures Inv(s) && |s.procs| == |old(s).procs| && s.procs[p] == old(s).procs[p]
      ensures s == if old(Alone()) then old(s) else Tried(old(s), p, old(others)[0])
      ensures others == if old(Alone()) then [] else old(others)[1..]
    {
      if others == [] {
        return;
      }
      var moves := others[0];
      others := others[1..];
      for i := 0 to |moves|
        invariant Inv(s) && |s.procs| == |old(s).procs| && s.procs[p] == old(s).procs[p]
        invariant others == old(others)[1..]
        invariant Tried(s, p, moves[i..]) == Tried(old(s), p, moves)
      {
        var m := moves[i];
        assert moves[i..][1..] == moves[i + 1..];
        if m.p != p && Can(s, m.p, m.action) {
          OthersLeaveMe(s, p, m);
          s := Do(s, m.p, m.action);
        }
      }
    }

    /** One step of this handler, after others have run. */
    method Call(p: nat, a: Action)
      requires Inv(s) && Can(s, p, a)
      modifies this`s
      ensures s == Do(old(s), p, a) && Inv(s) && |s.procs| == |old(s).procs|
      ensures s.procs == old(s).procs[p := s.procs[p]]
    {
      StepKeepsInv(s, p, a);
      LocksAreTakenFree(s, p, a);
      s := Do(s, p, a);
    }

    /** `acquireVideoWrite`: a handler is admitted only under a shared lease taken before it found
        the video there and not deleting; and then the video stays so until it lets go. */
    method AcquireVideoWrite(p: nat, request: Request) returns (r: Admission)
      requires Inv(s) && p < |s.procs| && s.procs[p] == Loaded(request)
      modifies this
      ensures Inv(s) && |s.procs| == |old(s).procs|
      ensures r.Admitted? ==> s.procs[p] == Writing(request) && s.row.Live?
      ensures !r.Admitted? ==> s.procs[p] == Idle
      ensures r.LeaseBusy? ==> !LeaseFree(s, true)
      ensures r.NotWritable? ==> !s.row.Live?
      ensures old(Alone()) ==>
                r == if !LeaseFree(old(s), true) then LeaseBusy else if old(s).row.Live? then Admitted else NotWritable
    {
      Interfere(p);
      ghost var before := s;
      Call(p, Lease);
      if s.procs[p] == Idle {
        assert forall q :: 0 <= q < |s.procs| && q != p ==> s.procs[q] == before.procs[q];
        return LeaseBusy;
      }
      Interfere(p);
      Call(p, ReadStatus);
      r := if s.procs[p] == Idle then NotWritable else Admitted;
    }

    /** Waiting for the row lock, looked at `patience` times. */
    method WaitForRow(p: nat, patience: nat) returns (ok: bool)
      requires Inv(s) && p < |s.procs|
      modifies this`s, this`others
      ensures Inv(s) && |s.procs| == |old(s).procs| && s.procs[p] == old(s).procs[p]
      ensures if ok then RowFree(s) else patience == 0 || !RowFree(s)
      ensures !ok ==> Patient(old(others), others, patience)
      ensures old(Alone()) ==> Alone() && s == old(s) && (ok <==> patience > 0 && RowFree(s))
    {
      var looked := 0;
      ok := false;
      while looked < patience && !ok
        invariant Inv(s) && |s.procs| == |old(s).procs| && s.procs[p] == old(s).procs[p]
        invariant if ok then RowFree(s) else looked == 0 || !RowFree(s)
        invariant Patient(old(others), others, looked)
        invariant old(Alone()) ==> Alone() && s == old(s)
        invariant ok ==> patience > 0
      {
        Interfere(p);
        ok := RowFree(s);
        looked := looked + 1;
      }
    }

    /** Giving the lease back, holding no row lock. */
    method LetGo(p: nat)
      requires Inv(s) && p < |s.procs| && (s.procs[p] == DeleteLeased || s.procs[p] == Cleaned)
      modifies this`s
      ensures Inv(s) && s == To(old(s), p, Idle) && (RowFree(s) <==> RowFree(old(s)))
    {
      Call(p, GiveUp);
      SameLocks(old(s), s, p);
    }

    /** The transaction that writes the tombstone. */
    method WriteTombstone(p: nat) returns (ok: bool)
      requires Inv(s) && p < |s.procs| && s.procs[p] == DeleteLeased && RowFree(s)
      modifies this`s
      ensures Inv(s) && |s.procs| == |old(s).procs|
      ensures ok <==> (old(s).row.Live? || old(s).row.Deleting?) && old(s).active == {}
      ensures if ok then s.procs[p] == Purging && s.row.Deleting? && s.active == {} && s.stores == old(s).stores
              else s == To(old(s), p, Idle)
      ensures OthersStill(old(s), s, p)
    {
      Call(p, LockForDelete);
      Call(p, CommitTombstone);
      ok := s.procs[p] == Purging;
      assert !ok ==> s.procs == old(s).procs[p := Idle];
    }

    /** The exclusive lease, asked for without waiting. */
    method TryLease(p: nat) returns (ok: bool)
      requires Inv(s) && p < |s.procs| && s.procs[p] == Idle
      modifies this`s, this`others
      ensures Inv(s) && |s.procs| == |old(s).procs|
      ensures s.procs[p] == if ok then DeleteLeased else Idle
      ensures !ok ==> !LeaseFree(s, false)
      ensures |others| <= |old(others)|
      ensures old(Alone()) ==> Alone() && (ok <==> LeaseFree(old(s), false))
      ensures old(Alone()) ==> s == if ok then To(old(s), p, DeleteLeased) else old(s)
    {
      Interfere(p);
      ghost var before := s;
      Call(p, BeginDelete);
      ok := s.procs[p] != Idle;
      assert !ok ==> s.procs == before.procs;
    }

    /** `BeginVideoDeletion`: the exclusive lease, then the tombstone in one transaction. Each
        way out but the last has its reason, and leaves the handler without lease and lock. */
    method BeginVideoDeletion(p: nat, patience: nat) returns (r: DeleteResult)
      requires Inv(s) && p < |s.procs| && s.procs[p] == Idle
      modifies this`s, this`others
      ensures Inv(s) && |s.procs| == |old(s).procs|
      ensures if r == Retryable then s.procs[p] == Purging && s.row.Deleting? && s.active == {} else s.procs[p] == Idle
      ensures r != Deleted
      ensures r == InProgress ==> !LeaseFree(s, false)
      ensures r == StillWaiting ==> (patience == 0 || !RowFree(s)) && Patient(old(others), others, patience)
      ensures r == Refused ==> !((s.row.Live? || s.row.Deleting?) && s.active == {})
      ensures old(Alone()) ==> Alone() && r == Begun(old(s), patience) && OthersStill(old(s), s, p)
      ensures old(Alone()) ==> if r == Retryable then s.stores == old(s).stores else s == old(s)
    {
      var leased := TryLease(p);
      if !leased {
        return InProgress;
      }
      if s == To(old(s), p, DeleteLeased) {
        SameLocks(old(s), s, p);
        assert To(s, p, Idle).procs == old(s).procs;
      }
      r := MarkDeleting(p, patience);
    }

    /** The rest of it, with the lease held. */
    method MarkDeleting(p: nat, patience: nat) returns (r: DeleteResult)
      requires Inv(s) && p < |s.procs| && s.procs[p] == DeleteLeased
      modifies this`s, this`others
      ensures Inv(s) && |s.procs| == |old(s).procs|
      ensures if r == Retryable then s.procs[p] == Purging && s.row.Deleting? && s.active == {} else s.procs[p] == Idle
      ensures r == StillWaiting ==> (patience == 0 || !RowFree(s)) && Patient(old(others), others, patience)
      ensures r == Refused ==> !((s.row.Live? || s.row.Deleting?) && s.active == {})
      ensures r == StillWaiting || r == Refused || r == Retryable
      ensures old(Alone()) ==>
                && Alone() && OthersStill(old(s), s, p)
                && if r == Retryable then s.stores == old(s).stores else s == To(old(s), p, Idle)
      ensures old(Alone()) ==>
                r == if patience == 0 || !RowFree(old(s)) then StillWaiting
                     else if (old(s).row.Live? || old(s).row.Deleting?) && old(s).active == {} then Retryable
                     else Refused
    {
      var free := WaitForRow(p, patience);
      if !free {
        LetGo(p);
        return StillWaiting;
      }
      var ok := WriteTombstone(p);
      r := if ok then Retryable else Refused;
    }

    /** The removals of one kind in `DeletePrefix`: every listed id is tried, and any failure is
        remembered. Only those whose own removal failed are missed. */
    method RemoveListed(p: nat, b: nat, listed: set<nat>, uploads: bool) returns (ok: bool, ghost missed: set<nat>)
      requires Inv(s) && p < |s.procs| && Step(s.procs[p], b, Removing)
      modifies this
      ensures Inv(s) && |s.procs| == |old(s).procs| && s.procs[p] == old(s).procs[p]
      ensures answers == Rest(old(answers), |listed|)
      ensures ok <==> Fine(old(answers), |listed|)
      ensures missed <= listed && |missed| == FailedOf(old(answers), |listed|) && (ok <==> missed == {})
      ensures old(Alone()) ==> Alone() && s == RemovedFrom(old(s), b, listed - missed, uploads)
    {
      ghost var tried: nat := 0;
      NothingRemoved(s, b, listed, uploads);
      ok, missed := true, {};
      var left := listed;
      while left != {}
        invariant left <= listed && Inv(s) && |s.procs| == |old(s).procs| && s.procs[p] == old(s).procs[p]
        invariant tried + |left| == |listed|
        invariant answers == Rest(old(answers), tried)
        invariant ok <==> Fine(old(answers), tried)
        invariant missed <= listed - left && |missed| == FailedOf(old(answers), tried) && (ok <==> missed == {})
        invariant old(Alone()) ==> Alone() && s == RemovedFrom(old(s), b, listed - left - missed, uploads)
        decreases left
      {
        var id :| id in left;
        CallsInARow(old(answers), tried, 1);
        OneMoreRemoved(old(s), b, listed, left, missed, id, uploads);
        left, tried := left - {id}, tried + 1;
        var done := TryRemove(p, b, id, uploads);
        if !done {
          ok, missed := false, missed + {id};
        }
      }
      assert listed - {} - missed == listed - missed;
    }

    /** The removal of one listed id, and what it answered. */
    method TryRemove(p: nat, b: nat, id: nat, uploads: bool) returns (done: bool)
      requires Inv(s) && p < |s.procs| && Step(s.procs[p], b, Removing)
      modifies this
      ensures Inv(s) && |s.procs| == |old(s).procs| && s.procs[p] == old(s).procs[p]
      ensures (done <==> Fine(old(answers), 1)) && answers == Rest(old(answers), 1)
      ensures old(Alone()) ==> Alone() && s == if done then RemovedFrom(old(s), b, {id}, uploads) else old(s)
    {
      Interfere(p);
      done := Answer();
      if done {
        if uploads {
          Call(p, AbortIncomplete(b, id));
        } else {
          Call(p, RemoveObject(b, id));
        }
      }
    }

    /** `DeletePrefix`: whatever listing and removing missed, success means that the prefix was
        verified empty, first of uploads and then of objects; and it stays empty. Undisturbed,
        it succeeds exactly if none of its calls fails. */
    method DeletePrefix(p: nat, b: nat) returns (ok: bool)
      requires Inv(s) && p < |s.procs| && Step(s.procs[p], b, Removing)
      modifies this
      ensures Inv(s) && |s.procs| == |old(s).procs| && OnlyAt(old(s).procs[p], s.procs[p], b)
      ensures ok <==> s.procs[p].progress[b] == Clear
      ensures ok ==> Empty(s.stores[b])
      ensures s.row.Deleting? && s.tombstone
      ensures old(Alone()) ==> Alone() && OnlyThere(old(s), s, p, b) && (ok <==> Cleans(old(answers), old(s).stores[b]))
      ensures old(Alone()) ==> answers == AfterPrefix(old(answers), old(s).stores[b])
    {
      ThenTheListings(answers, s.stores[b]);
      ok := DeleteListed(p, b);
      if ok {
        ok := VerifyEmpty(p, b);
      }
      assert PhaseSound(s, s.procs[p]);
    }

    /** The two listings that end `DeletePrefix`. */
    method VerifyEmpty(p: nat, b: nat) returns (ok: bool)
      requires Inv(s) && p < |s.procs| && Step(s.procs[p], b, Removing)
      modifies this
      ensures Inv(s) && |s.procs| == |old(s).procs| && OnlyAt(old(s).procs[p], s.procs[p], b)
      ensures ok <==> s.procs[p].progress[b] == Clear
      ensures ok ==> Fine(old(answers), 2)
      ensures old(Alone()) ==> Alone() && OthersStill(old(s), s, p) && s.stores == old(s).stores
      ensures old(Alone()) && Empty(old(s).stores[b]) ==>
                (ok <==> Fine(old(answers), 2)) && answers == Rest(old(answers), if Fine(old(answers), 1) then 2 else 1)
    {
      CallsInARow(answers, 1, 1);
      ok := Verify(p, b, true);
      if ok {
        ok := Verify(p, b, false);
      }
    }

    /** One of them: it succeeds if it is answered and shows nothing. */
    method Verify(p: nat, b: nat, uploads: bool) returns (ok: bool)
      requires Inv(s) && p < |s.procs| && Step(s.procs[p], b, if uploads then Removing else UploadsClear)
      modifies this
      ensures Inv(s) && |s.procs| == |old(s).procs| && OnlyAt(old(s).procs[p], s.procs[p], b)
      ensures ok <==> s.procs[p].progress[b] == if uploads then UploadsClear else Clear
      ensures !ok ==> s.procs[p].progress[b] != Clear
      ensures answers == Rest(old(answers), 1) && (ok ==> Fine(old(answers), 1))
      ensures old(Alone()) ==> Alone() && OthersStill(old(s), s, p) && s.stores == old(s).stores
      ensures old(Alone()) ==>
                (ok <==>
                 Fine(old(answers), 1) && if uploads then s.stores[b].uploads == map[] else s.stores[b].objects == map[])
    {
      Interfere(p);
      ok := Answer();
      if ok {
        if uploads {
          Call(p, VerifyUploads(b));
        } else {
          Call(p, VerifyObjects(b));
        }
        ok := s.procs[p].progress[b] != Failed;
      }
    }

    /** The part of `DeletePrefix` before its verification. */
    method DeleteListed(p: nat, b: nat) returns (ok: bool)
      requires Inv(s) && p < |s.procs| && Step(s.procs[p], b, Removing)
      modifies this
      ensures Inv(s) && |s.procs| == |old(s).procs| && s.procs[p] == old(s).procs[p]
      ensures old(Alone()) ==> Alone() && OnlyThere(old(s), s, p, b) && (ok ==> Empty(s.stores[b]))
      ensures old(Alone()) ==> (ok <==> Removes(old(answers), old(s).stores[b]))
      ensures old(Alone()) ==> answers == AfterListed(old(answers), old(s).stores[b])
    {
      StageByStage(answers, s.stores[b]);
      ok := ListAndRemove(p, b, true);
      if ok {
        ok := ListAndRemove(p, b, false);
      }
      if Ids(s.stores[b], true) == {} == Ids(s.stores[b], false) {
        NoIds(s.stores[b]);
      }
    }

    /** One listing, and the removal of what it listed. */
    method ListAndRemove(p: nat, b: nat, uploads: bool) returns (ok: bool)
      requires Inv(s) && p < |s.procs| && Step(s.procs[p], b, Removing)
      modifies this
      ensures Inv(s) && |s.procs| == |old(s).procs| && s.procs[p] == old(s).procs[p]
      ensures old(Alone()) ==>
                && Alone()
                && var ids := Ids(old(s).stores[b], uploads);
                   && (ok <==> Fine(old(answers), 1 + |ids|)) && answers == AfterStage(old(answers), |ids|)
                   && OnlyThere(old(s), s, p, b) && Ids(s.stores[b], !uploads) == Ids(old(s).stores[b], !uploads)
                   && Ids(s.stores[b], uploads) <= ids && (ok ==> Ids(s.stores[b], uploads) == {})
    {
      Interfere(p);
      ghost var before, missed := s, {};
      CallsInARow(answers, 1, |Ids(s.stores[b], uploads)|);
      ok := Answer();
      if ok {
        ok, missed := RemoveListed(p, b, Ids(s.stores[b], uploads), uploads);
        OnlyMissedAreLeft(before, p, b, missed, uploads);
      }
    }

    /** The durable revocation, before anything is removed. */
    method RevokeFirst(p: nat, written: bool) returns (ok: bool)
      requires Inv(s) && p < |s.procs| && s.procs[p] == Purging
      modifies this
      ensures Inv(s) && |s.procs| == |old(s).procs|
      ensures if ok then s.procs[p] == Cleaning([Removing, Removing, Removing]) else s.procs[p] == Idle
      ensures s.row.Deleting? && (ok ==> s.tombstone) && (ok <==> Fine(old(answers), 1)) && answers == Rest(old(answers), 1)
      ensures old(Alone()) ==> Alone() && OthersStill(old(s), s, p) && s.stores == old(s).stores
    {
      Interfere(p);
      ok := Answer();
      assert PhaseSound(s, s.procs[p]);
      Call(p, Purge(ok, written));
    }

    /** `cleanupResources`: revocation first, then every prefix, in whatever order; one that fails
        keeps none of the others from being cleaned. */
    method CleanupResources(p: nat, written: bool, x: nat, y: nat, z: nat) returns (ok: bool)
      requires Inv(s) && p < |s.procs| && s.procs[p] == Purging
      requires x < BUCKETS && y < BUCKETS && z < BUCKETS && x != y && y != z && z != x
      modifies this
      ensures Inv(s) && |s.procs| == |old(s).procs|
      ensures if ok then s.procs[p] == Cleaned else s.procs[p] == Idle
      ensures !ok ==> s.row.Deleting?
      ensures old(Alone()) ==> Alone() && OthersStill(old(s), s, p)
      ensures old(Alone()) ==> (ok <==> AllCleaned(old(answers), old(s).stores, x, y, z))
      ensures old(Alone()) && Fine(old(answers), 1) ==> EachCleaned(Rest(old(answers), 1), old(s).stores, s.stores, x, y, z)
    {
      ok := RevokeFirst(p, written);
      if ok {
        ok := CleanPrefixes(p, x, y, z);
        if ok {
          FinishCleaning(p);
        } else {
          assert PhaseSound(s, s.procs[p]);
          Call(p, GiveUp);
        }
      }
    }

    /** All three prefixes are tried; it succeeds exactly if all are verified empty. */
    method CleanPrefixes(p: nat, x: nat, y: nat, z: nat) returns (ok: bool)
      requires Inv(s) && p < |s.procs| && s.procs[p] == Cleaning([Removing, Removing, Removing])
      requires x < BUCKETS && y < BUCKETS && z < BUCKETS && x != y && y != z && z != x
      modifies this
      ensures Inv(s) && |s.procs| == |old(s).procs| && s.procs[p].Cleaning? && |s.procs[p].progress| == BUCKETS
      ensures ok <==> s.procs[p] == Cleaning([Clear, Clear, Clear])
      ensures forall b :: 0 <= b < BUCKETS && s.procs[p].progress[b] == Clear ==> Empty(s.stores[b])
      ensures old(Alone()) ==> Alone() && OthersStill(old(s), s, p)
      ensures old(Alone()) ==> EachCleaned(old(answers), old(s).stores, s.stores, x, y, z)
      ensures old(Alone()) ==> (ok <==> AllClean(old(answers), old(s).stores, x, y, z))
    {
      var first := DeletePrefix(p, x);
      var second := DeletePrefix(p, y);
      var third := DeletePrefix(p, z);
      ok := first && second && third;
      ThreeClear(s.procs[p].progress, x, y, z);
      assert PhaseSound(s, s.procs[p]);
    }

    method FinishCleaning(p: nat)
      requires Inv(s) && p < |s.procs| && s.procs[p] == Cleaning([Clear, Clear, Clear])
      modifies this`s, this`others
      ensures Inv(s) && |s.procs| == |old(s).procs| && s.procs[p] == Cleaned
      ensures old(Alone()) ==> Alone() && OthersStill(old(s), s, p) && s.stores == old(s).stores
    {
      Interfere(p);
      Call(p, FinishCleanup);
    }

    /** `Finalize`: the row goes, or the tombstone stays. */
    method Finalize(p: nat, patience: nat) returns (r: DeleteResult)
      requires Inv(s) && p < |s.procs| && s.procs[p] == Cleaned
      modifies this`s, this`others
      ensures Inv(s) && |s.procs| == |old(s).procs| && s.procs[p] == Idle
      ensures r == Deleted ==> s.row.Gone? && CleanlyGone(s)
      ensures r != Deleted ==> r == StillWaiting && s.row.Deleting?
      ensures r != Deleted ==> (patience == 0 || !RowFree(s)) && Patient(old(others), others, patience)
      ensures old(Alone()) ==> (r == Deleted <==> patience > 0 && RowFree(old(s)))
    {
      var free := WaitForRow(p, patience);
      if !free {
        assert PhaseSound(s, s.procs[p]);
        LetGo(p);
        return StillWaiting;
      }
      Call(p, LockForFinalize);
      FinalizeNeverRefuses(s, p);
      Call(p, Action.Finalize);
      r := Deleted;
    }

    /** `Delete`: when it reports success the row is gone, the cache tombstone is durable and
        every prefix is empty; however it ends, the lease is given back. */
    method Delete(p: nat, patience: nat, written: bool, x: nat, y: nat, z: nat) returns (r: DeleteResult)
      requires Inv(s) && p < |s.procs| && s.procs[p] == Idle
      requires x < BUCKETS && y < BUCKETS && z < BUCKETS && x != y && y != z && z != x
      modifies this
      ensures Inv(s) && |s.procs| == |old(s).procs| && s.procs[p] == Idle
      ensures r == Deleted ==> s.row.Gone? && CleanlyGone(s)
      ensures r == Retryable ==> s.row.Deleting?
      // Undisturbed, it deletes exactly if it may begin and no call fails; and it changes
      // nothing if it may not.
      ensures old(Alone()) ==>
                r == if Begun(old(s), patience) == Retryable && AllCleaned(old(answers), old(s).stores, x, y, z) then Deleted
                     else Begun(old(s), patience)
      ensures old(Alone()) && Begun(old(s), patience) != Retryable ==> s == old(s)
      ensures old(Quiet()) && patience > 0 && CanDelete(old(s)) ==> r == Deleted
    {
      ghost var start, calls := s, answers;
      r := BeginVideoDeletion(p, patience);
      if r != Retryable {
        return;
      }
      assert old(Alone()) ==> RowFree(s);
      var ok := CleanupResources(p, written, x, y, z);
      if Fine(calls, |calls|) {
        SmoothCleans(calls, start.stores, x, y, z);
      }
      if !ok {
        return Retryable;
      }
      assert old(Alone()) ==> RowFree(s);
      r := this.Finalize(p, patience);
    }
  }
}
