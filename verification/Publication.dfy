/** Publishing a presentation to the object store, with a failure or a crash possible at
    every store operation. `master.m3u8` is the commit marker: at no moment may it be
    discoverable while something it leads to is missing. */
module Publication {
  import opened Common
  import opened Playlists

  /** All objects of the bucket; object names are split at their slashes. */
  type Objects = map<Name, Blob>

  /** What happens to one store operation. */
  datatype Fault =
    | Fine
    // Refused without effect, or carried out with the answer lost.
    | Refused
    | Lost
    // The process dies before or after the operation takes effect.
    | DiesBefore
    | DiesAfter
  {
    predicate Applied() {
      Fine? || Lost? || DiesAfter?
    }

    function Answer(): Reply {
      if Fine? then Done else if Refused? || Lost? then Error else Dead
    }
  }

  datatype Reply = Done | Error | Dead

  /** An operation as the program sees it: what it asked for, and the answer. */
  datatype Call =
    | PutOf(name: Name, reply: Reply)
    | RemoveOf(name: Name, reply: Reply)
    | ListOf(reply: Reply)
    | StatOf(name: Name, reply: Reply)

  /** The operations that are going to fail, and those the process is going to die in. */
  function FailCount(faults: seq<Fault>): nat {
    if faults == [] then 0 else (if faults[0] == Fine then 0 else 1) + FailCount(faults[1..])
  }

  function DeathCount(faults: seq<Fault>): nat {
    if faults == [] then 0 else (if faults[0].Answer() == Dead then 1 else 0) + DeathCount(faults[1..])
  }

  /** What happens to the next operation. */
  function Next(faults: seq<Fault>): Fault {
    if faults == [] then Fine else faults[0]
  }

  predicate Smooth(faults: seq<Fault>) {
    FailCount(faults) == 0
  }

  /** The bucket, with its future faults and all states it has been in. */
  class ObjectStore {
    var objects: Objects
    var faults: seq<Fault>
    ghost var history: seq<Objects>
    /** The last operation, how many were not answered well, and all removals. */
    ghost var last: Call
    ghost var troubles: nat
    ghost var removals: multiset<Name>

    ghost predicate Valid()
      reads this
    {
      history != [] && history[|history| - 1] == objects
    }

    constructor (objects: Objects, faults: seq<Fault>)
      ensures Valid() && this.objects == objects && this.faults == faults && history == [objects]
    {
      this.objects := objects;
      this.faults := faults;
      history, last, troubles, removals := [objects], ListOf(Done), 0, multiset{};
    }

    /** What has failed so far and what is going to fail. */
    ghost function Budget(): nat
      reads this
    {
      troubles + FailCount(faults)
    }

    method NextFault() returns (f: Fault)
      modifies this`faults
      ensures f == Next(old(faults)) && faults == old(faults)[if old(faults) == [] then 0 else 1..]
      ensures FailCount(faults) + (if f == Fine then 0 else 1) == FailCount(old(faults))
      ensures DeathCount(faults) + (if f.Answer() == Dead then 1 else 0) == DeathCount(old(faults))
    {
      if faults == [] {
        return Fine;
      }
      f := faults[0];
      faults := faults[1..];
    }

    method Put(name: Name, blob: Blob) returns (r: Reply)
      requires Valid()
      modifies this
      ensures Valid() && history == old(history) + [objects]
      ensures objects == if Next(old(faults)).Applied() then old(objects)[name := blob] else old(objects)
      ensures r == Next(old(faults)).Answer() && (r == Done ==> objects == old(objects)[name := blob])
      ensures last == PutOf(name, r) && removals == old(removals)
      ensures troubles == old(troubles) + (if r == Done then 0 else 1) && Budget() == old(Budget())
      ensures DeathCount(faults) + (if r == Dead then 1 else 0) == old(DeathCount(faults))
    {
      var f := NextFault();
      if f.Applied() {
        objects := objects[name := blob];
      }
      history := history + [objects];
      r := f.Answer();
      last, troubles := PutOf(name, r), troubles + if r == Done then 0 else 1;
    }

    /** Removing an absent object succeeds. */
    method Remove(name: Name) returns (r: Reply)
      requires Valid()
      modifies this
      ensures Valid() && history == old(history) + [objects]
      ensures objects == if Next(old(faults)).Applied() then old(objects) - {name} else old(objects)
      ensures r == Next(old(faults)).Answer() && (r == Done ==> objects == old(objects) - {name})
      ensures last == RemoveOf(name, r) && removals == old(removals) + multiset{name}
      ensures troubles == old(troubles) + (if r == Done then 0 else 1) && Budget() == old(Budget())
      ensures DeathCount(faults) + (if r == Dead then 1 else 0) == old(DeathCount(faults))
    {
      var f := NextFault();
      if f.Applied() {
        objects := objects - {name};
      }
      history := history + [objects];
      r := f.Answer();
      last, troubles := RemoveOf(name, r), troubles + if r == Done then 0 else 1;
      removals := removals + multiset{name};
    }

    /** Whether this object is there and not empty. */
    method Stat(name: Name) returns (r: Reply, there: bool)
      requires Valid()
      modifies this
      ensures Valid() && history == old(history) + [objects] && objects == old(objects)
      ensures r == Next(old(faults)).Answer()
      ensures r == Done ==> (there <==> name in objects && objects[name].size > 0)
      ensures last == StatOf(name, r) && removals == old(removals)
      ensures troubles == old(troubles) + (if r == Done then 0 else 1) && Budget() == old(Budget())
      ensures DeathCount(faults) + (if r == Dead then 1 else 0) == old(DeathCount(faults))
    {
      var f := NextFault();
      history := history + [objects];
      there := name in objects && objects[name].size > 0;
      r := f.Answer();
      last, troubles := StatOf(name, r), troubles + if r == Done then 0 else 1;
    }

    /** The names below a prefix boundary. */
    method List(prefix: Name) returns (r: Reply, names: set<Name>)
      requires Valid()
      modifies this
      ensures Valid() && history == old(history) + [objects] && objects == old(objects)
      ensures r == Next(old(faults)).Answer()
      ensures r == Done ==> names == set o | o in objects && prefix < o
      ensures last == ListOf(r) && removals == old(removals)
      ensures troubles == old(troubles) + (if r == Done then 0 else 1) && Budget() == old(Budget())
      ensures DeathCount(faults) + (if r == Dead then 1 else 0) == old(DeathCount(faults))
    {
      var f := NextFault();
      history := history + [objects];
      names := set o | o in objects && prefix < o;
      r := f.Answer();
      last, troubles := ListOf(r), troubles + if r == Done then 0 else 1;
    }
  }

  // ---- What a player can run into -------------------------------------------------------

  /** Following this reference from `referring` leads to a stored object. */
  predicate Leads(objects: Objects, prefix: Name, referring: Name, uri: Uri)
    requires referring != []
  {
    uri.local &&
    var to := Navigate(Directory(referring), uri.path);
    to.At? && to.name != [] && prefix + to.name in objects
  }

  predicate MediaClosed(objects: Objects, prefix: Name, playlist: Name)
    requires playlist != [] && prefix + playlist in objects
  {
    var text := objects[prefix + playlist].text;
    text.Lines? && forall uri :: uri in MediaAssets(text.lines) ==> Leads(objects, prefix, playlist, uri)
  }

  predicate ListedCloses(objects: Objects, prefix: Name, uri: Uri) {
    Leads(objects, prefix, MASTER, uri) &&
    MediaClosed(objects, prefix, Navigate(Directory(MASTER), uri.path).name)
  }

  /** If the master is discoverable then so is every playlist it lists and every file those
      playlists list. */
  predicate Closed(objects: Objects, prefix: Name) {
    prefix + MASTER in objects ==>
      var text := objects[prefix + MASTER].text;
      text.Lines? && forall uri :: uri in MasterPlaylists(text.lines) ==> ListedCloses(objects, prefix, uri)
  }

  /** Below the prefix the bucket holds exactly these files. */
  ghost predicate Exactly(objects: Objects, prefix: Name, files: Files) {
    forall o :: prefix < o ==>
      (o in objects <==> o[|prefix|..] in files) && (o in objects ==> objects[o] == files[o[|prefix|..]])
  }

  ghost predicate SameOutside(a: Objects, b: Objects, prefix: Name) {
    forall o :: !(prefix < o) ==> (o in a <==> o in b) && (o in a ==> a[o] == b[o])
  }

  /** A collected directory: file names are clean relative paths. */
  ghost predicate Collected(files: Files) {
    forall n :: n in files ==> n != [] && Clean(n)
  }

  lemma FullName(prefix: Name, n: Name)
    requires n != []
    ensures prefix < prefix + n && (prefix + n)[|prefix|..] == n
  {
  }

  lemma AssetLeads(objects: Objects, prefix: Name, files: Files, playlist: Name, uri: Uri)
    requires Exactly(objects, prefix, files) && Collected(files)
    requires playlist in files && AssetOk(playlist, uri, files)
    ensures Leads(objects, prefix, playlist, uri)
  {
    var asset := Resolve(playlist, uri, files).name;
    ResolveMeansNavigate(playlist, uri, files, asset);
    FullName(prefix, asset);
  }

  lemma PlaylistLeads(objects: Objects, prefix: Name, files: Files, uri: Uri)
    requires Exactly(objects, prefix, files) && Collected(files)
    requires MASTER in files && PlaylistOk(uri, files)
    ensures ListedCloses(objects, prefix, uri)
  {
    var playlist := Resolve(MASTER, uri, files).name;
    ResolveMeansNavigate(MASTER, uri, files, playlist);
    FullName(prefix, playlist);
    assert objects[prefix + playlist] == files[playlist];
    var assets := MediaAssets(files[playlist].text.lines);
    forall asset | asset in assets
      ensures Leads(objects, prefix, playlist, asset)
    {
      var i :| 0 <= i < |assets| && assets[i] == asset;
      AssetLeads(objects, prefix, files, playlist, asset);
    }
  }

  /** A directory the validator accepts, stored file by file, leaves a player no dead end. */
  lemma ValidatedIsClosed(objects: Objects, prefix: Name, files: Files)
    requires MASTER in files && PresentationOk(files) && Collected(files)
    requires Exactly(objects, prefix, files)
    ensures Closed(objects, prefix)
  {
    FullName(prefix, MASTER);
    assert objects[prefix + MASTER] == files[MASTER];
    var uris := MasterPlaylists(files[MASTER].text.lines);
    forall uri | uri in uris
      ensures ListedCloses(objects, prefix, uri)
    {
      var i :| 0 <= i < |uris| && uris[i] == uri;
      PlaylistLeads(objects, prefix, files, uri);
    }
  }

  // ---- atomic_publish ---------------------------------------------------------------------

  datatype Outcome =
    | Published
    // Raised with the master withheld, or with even that failing; or the process died.
    | Raised
    | RaisedUnwithheld
    | Died

  /** What the bucket may look like while `local` is being published over `start`: outside the
      prefix as before; below it no master, or the old presentation untouched, or the whole
      new one and nothing else. */
  ghost predicate Coherent(now: Objects, start: Objects, prefix: Name, local: Option<Files>) {
    && SameOutside(start, now, prefix)
    && (Hidden(now, prefix) || now == start || IsPublished(now, prefix, local))
  }

  ghost predicate IsPublished(now: Objects, prefix: Name, local: Option<Files>) {
    local.Some? && MASTER in local.value && PresentationOk(local.value) && Exactly(now, prefix, local.value)
  }

  ghost predicate AllCoherent(
    history: seq<Objects>, since: nat, start: Objects, prefix: Name, local: Option<Files>) {
    forall i :: since <= i < |history| ==> Coherent(history[i], start, prefix, local)
  }

  ghost predicate AllHidden(history: seq<Objects>, since: nat, start: Objects, prefix: Name) {
    forall i :: since <= i < |history| ==> Hidden(history[i], prefix) && SameOutside(start, history[i], prefix)
  }

  /** A hidden stretch of history after another one. */
  lemma HiddenThenHidden(first: seq<Objects>, both: seq<Objects>, since: nat, start: Objects, middle: Objects, prefix: Name)
    requires since <= |first| <= |both| && both[..|first|] == first
    requires AllHidden(first, since, start, prefix) && SameOutside(start, middle, prefix)
    requires AllHidden(both, |first|, middle, prefix)
    ensures AllHidden(both, since, start, prefix)
  {
    forall i | since <= i < |both|
      ensures Hidden(both[i], prefix) && SameOutside(start, both[i], prefix)
    {
      if i < |first| {
        assert both[i] == first[i];
      }
    }
  }

  /** Coherent states have no dead ends, if there was none to begin with. */
  lemma CoherentIsClosed(now: Objects, start: Objects, prefix: Name, local: Option<Files>)
    requires Coherent(now, start, prefix, local) && Closed(start, prefix)
    requires local.Some? ==> Collected(local.value)
    ensures Closed(now, prefix)
  {
    if IsPublished(now, prefix, local) {
      ValidatedIsClosed(now, prefix, local.value);
    }
  }

  ghost predicate Hidden(objects: Objects, prefix: Name) {
    prefix + MASTER !in objects
  }

  /** `_upload_stage`: the files of one stage in any order. After a failure, uploads that were
      not running yet are cancelled and the running ones may still finish. */
  method UploadStage(store: ObjectStore, prefix: Name, files: Files, stage: set<Name>) returns (r: Reply)
    requires store.Valid() && Hidden(store.objects, prefix)
    requires stage <= files.Keys && MASTER !in stage && forall n :: n in stage ==> n != []
    modifies store
    ensures store.Valid() && |store.history| >= |old(store.history)| && Hidden(store.objects, prefix)
    ensures store.history[..|old(store.history)|] == old(store.history)
    ensures AllHidden(store.history, |old(store.history)|, old(store.objects), prefix)
    ensures SameOutside(old(store.objects), store.objects, prefix)
    ensures forall o :: o in old(store.objects) && (forall n :: n in stage ==> o != prefix + n) ==>
              o in store.objects && store.objects[o] == old(store.objects[o])
    ensures r == Done ==> forall n :: n in stage ==> prefix + n in store.objects && store.objects[prefix + n] == files[n]
    ensures store.Budget() == old(store.Budget()) && old(store.removals) <= store.removals
    ensures DeathCount(store.faults) + (if r == Dead then 1 else 0) == old(DeathCount(store.faults))
    ensures r == Dead ==> store.last.reply == Dead
    ensures store.troubles >= old(store.troubles) && (r == Done <==> store.troubles == old(store.troubles))
  {
    var todo := stage;
    r := Done;
    while todo != {}
      invariant todo <= stage
      invariant store.Valid() && |store.history| >= |old(store.history)| && Hidden(store.objects, prefix)
      invariant store.history[..|old(store.history)|] == old(store.history)
      invariant AllHidden(store.history, |old(store.history)|, old(store.objects), prefix)
      invariant SameOutside(old(store.objects), store.objects, prefix)
      invariant forall o :: o in old(store.objects) && (forall n :: n in stage ==> o != prefix + n) ==>
                  o in store.objects && store.objects[o] == old(store.objects[o])
      invariant r != Dead
      invariant store.Budget() == old(store.Budget()) && old(store.removals) <= store.removals
      invariant DeathCount(store.faults) == old(DeathCount(store.faults))
      invariant store.troubles >= old(store.troubles) && (r == Done <==> store.troubles == old(store.troubles))
      invariant r == Done ==>
                  forall n :: n in stage - todo ==> prefix + n in store.objects && store.objects[prefix + n] == files[n]
      decreases todo
    {
      var n :| n in todo;
      todo := todo - {n};
      FullName(prefix, n);
      FullName(prefix, MASTER);
      var cancelled: bool := *;
      if r == Error && cancelled {
        continue;
      }
      var put := store.Put(prefix + n, files[n]);
      if put == Dead {
        return Dead;
      }
      if put == Error {
        r := Error;
      }
    }
  }

  /** The removals of `_reconcile_remote_inventory`, up to the first that fails. */
  method RemoveStale(store: ObjectStore, prefix: Name, stale: set<Name>, expected: set<Name>) returns (r: Reply)
    requires store.Valid() && Hidden(store.objects, prefix)
    requires stale == (set o | o in store.objects && prefix < o) - expected
    modifies store
    ensures store.Valid() && |store.history| >= |old(store.history)| && Hidden(store.objects, prefix)
    ensures store.history[..|old(store.history)|] == old(store.history)
    ensures AllHidden(store.history, |old(store.history)|, old(store.objects), prefix)
    ensures SameOutside(old(store.objects), store.objects, prefix)
    ensures forall o :: o in store.objects ==> o in old(store.objects) && store.objects[o] == old(store.objects[o])
    ensures forall o :: o in old(store.objects) && o in expected ==> o in store.objects
    ensures r == Done ==> forall o :: o in store.objects && prefix < o ==> o in expected
    ensures store.Budget() == old(store.Budget()) && old(store.removals) <= store.removals
    ensures DeathCount(store.faults) + (if r == Dead then 1 else 0) == old(DeathCount(store.faults))
    ensures r == Dead ==> store.last.reply == Dead
    ensures store.troubles >= old(store.troubles) && (r == Done <==> store.troubles == old(store.troubles))
  {
    r := Done;
    var todo := stale;
    while todo != {}
      invariant r == Done
      invariant store.Valid() && |store.history| >= |old(store.history)| && Hidden(store.objects, prefix)
      invariant store.history[..|old(store.history)|] == old(store.history)
      invariant AllHidden(store.history, |old(store.history)|, old(store.objects), prefix)
      invariant SameOutside(old(store.objects), store.objects, prefix)
      invariant forall o :: o in store.objects ==> o in old(store.objects) && store.objects[o] == old(store.objects[o])
      invariant forall o :: o in todo ==> prefix < o && o !in expected
      invariant forall o :: o in old(store.objects) && o in expected ==> o in store.objects
      invariant forall o :: o in store.objects && prefix < o ==> o in todo || o in expected
      invariant store.Budget() == old(store.Budget()) && old(store.removals) <= store.removals
      invariant DeathCount(store.faults) == old(DeathCount(store.faults)) && store.troubles == old(store.troubles)
      decreases todo
    {
      var o :| o in todo;
      todo := todo - {o};
      r := store.Remove(o);
      if r != Done {
        return;
      }
    }
  }

  /** `_reconcile_remote_inventory`: remove what is not expected, then prove it. */
  method ReconcileInventory(store: ObjectStore, prefix: Name, expected: set<Name>) returns (r: Reply)
    requires store.Valid() && Hidden(store.objects, prefix)
    modifies store
    ensures store.Valid() && |store.history| >= |old(store.history)| && Hidden(store.objects, prefix)
    ensures store.history[..|old(store.history)|] == old(store.history)
    ensures AllHidden(store.history, |old(store.history)|, old(store.objects), prefix)
    ensures SameOutside(old(store.objects), store.objects, prefix)
    ensures forall o :: o in store.objects ==> o in old(store.objects) && store.objects[o] == old(store.objects[o])
    ensures r == Done ==> (set o | o in store.objects && prefix < o) == expected
    ensures store.Budget() == old(store.Budget()) && old(store.removals) <= store.removals
    ensures DeathCount(store.faults) + (if r == Dead then 1 else 0) == old(DeathCount(store.faults))
    ensures r == Dead ==> store.last.reply == Dead
    // It succeeds exactly if all operations do and nothing expected was missing.
    ensures store.troubles >= old(store.troubles)
    ensures r == Done <==> store.troubles == old(store.troubles) &&
                           forall o :: o in expected ==> o in old(store.objects) && prefix < o
  {
    var existing, found;
    r, existing := store.List(prefix);
    if r != Done {
      return;
    }
    ghost var early := store.history;
    r := RemoveStale(store, prefix, existing - expected, expected);
    HiddenThenHidden(early, store.history, |old(store.history)|, old(store.objects), old(store.objects), prefix);
    if r != Done {
      return;
    }
    r, found := store.List(prefix);
    if r == Done && found != expected {
      r := Error;
    }
  }

  predicate Publishable(local: Option<Files>) {
    local.Some? && MASTER in local.value && PresentationOk(local.value)
  }

  /** The body of the `try`: `local` is what collecting the directory gave, or None when it
      raised. On `Done` the presentation is committed. */
  method PublishSteps(store: ObjectStore, prefix: Name, local: Option<Files>) returns (r: Reply)
    requires store.Valid()
    requires local.Some? ==> Collected(local.value)
    modifies store
    ensures store.Valid() && |store.history| >= |old(store.history)|
    ensures store.history[..|old(store.history)|] == old(store.history)
    ensures AllCoherent(store.history, |old(store.history)|, old(store.objects), prefix, local)
    ensures Coherent(store.objects, old(store.objects), prefix, local)
    ensures r == Done ==> IsPublished(store.objects, prefix, local)
    ensures store.Budget() == old(store.Budget()) && old(store.removals) <= store.removals
    ensures DeathCount(store.faults) + (if r == Dead then 1 else 0) == old(DeathCount(store.faults))
    ensures r == Dead ==> store.last.reply == Dead && store.troubles > old(store.troubles)
    ensures old(store.removals)[prefix + MASTER] < store.removals[prefix + MASTER]
    // A valid presentation is published exactly if all operations succeed.
    ensures store.troubles >= old(store.troubles)
    ensures r == Done <==> Publishable(local) && store.troubles == old(store.troubles)
  {
    FullName(prefix, MASTER);
    r := store.Remove(prefix + MASTER);
    if r != Done {
      return;
    }
    if local.None? || MASTER !in local.value {
      return Error;
    }
    var files := local.value;
    var valid := ValidatePresentation(files);
    if !valid {
      return Error;
    }
    ghost var withheld, early := store.objects, store.history;
    r := UploadAndCommit(store, prefix, files);
    WithheldThenCoherent(early, store.history, |old(store.history)|, old(store.objects), withheld, prefix, local);
  }

  /** From the withheld master to the committed one. */
  method UploadAndCommit(store: ObjectStore, prefix: Name, files: Files) returns (r: Reply)
    requires store.Valid() && Hidden(store.objects, prefix)
    requires MASTER in files && PresentationOk(files) && Collected(files)
    modifies store
    ensures store.Valid() && |store.history| >= |old(store.history)|
    ensures store.history[..|old(store.history)|] == old(store.history)
    ensures AllCoherent(store.history, |old(store.history)|, old(store.objects), prefix, Some(files))
    ensures Coherent(store.objects, old(store.objects), prefix, Some(files))
    ensures r == Done ==> IsPublished(store.objects, prefix, Some(files))
    ensures store.Budget() == old(store.Budget()) && old(store.removals) <= store.removals
    ensures DeathCount(store.faults) + (if r == Dead then 1 else 0) == old(DeathCount(store.faults))
    ensures r == Dead ==> store.last.reply == Dead
    ensures store.troubles >= old(store.troubles) && (r == Done <==> store.troubles == old(store.troubles))
  {
    r := UploadAll(store, prefix, files);
    HiddenIsCoherent(old(store.history), store.history, |old(store.history)|, old(store.objects), old(store.objects),
                     prefix, Some(files));
    if r != Done {
      return;
    }
    r := CommitMaster(store, prefix, files);
  }

  lemma WithheldThenCoherent(
    first: seq<Objects>, both: seq<Objects>, since: nat, start: Objects, withheld: Objects, prefix: Name,
    local: Option<Files>)
    requires since <= |first| <= |both| && both[..|first|] == first
    requires AllCoherent(first, since, start, prefix, local)
    requires Hidden(withheld, prefix) && SameOutside(start, withheld, prefix)
    requires AllCoherent(both, |first|, withheld, prefix, local)
    ensures AllCoherent(both, since, start, prefix, local)
  {
    forall i | since <= i < |both|
      ensures Coherent(both[i], start, prefix, local)
    {
      if i < |first| {
        assert both[i] == first[i];
      } else {
        assert Coherent(both[i], withheld, prefix, local);
      }
    }
  }

  lemma HiddenIsCoherent(
    first: seq<Objects>, both: seq<Objects>, since: nat, start: Objects, middle: Objects, prefix: Name,
    local: Option<Files>)
    requires since <= |first| <= |both| && both[..|first|] == first
    requires AllCoherent(first, since, start, prefix, local) && SameOutside(start, middle, prefix)
    requires AllHidden(both, |first|, middle, prefix)
    ensures AllCoherent(both, since, start, prefix, local)
  {
    forall i | since <= i < |both|
      ensures Coherent(both[i], start, prefix, local)
    {
      if i < |first| {
        assert both[i] == first[i];
      }
    }
  }

  /** All but the master: assets, then playlists, then the reconciled inventory. */
  method UploadAll(store: ObjectStore, prefix: Name, files: Files) returns (r: Reply)
    requires store.Valid() && Hidden(store.objects, prefix) && Collected(files)
    modifies store
    ensures store.Valid() && |store.history| >= |old(store.history)| && Hidden(store.objects, prefix)
    ensures store.history[..|old(store.history)|] == old(store.history)
    ensures AllHidden(store.history, |old(store.history)|, old(store.objects), prefix)
    ensures SameOutside(old(store.objects), store.objects, prefix)
    ensures r == Done ==> AllButMaster(store.objects, prefix, files)
    ensures store.Budget() == old(store.Budget()) && old(store.removals) <= store.removals
    ensures DeathCount(store.faults) + (if r == Dead then 1 else 0) == old(DeathCount(store.faults))
    ensures r == Dead ==> store.last.reply == Dead
    ensures store.troubles >= old(store.troubles) && (r == Done <==> store.troubles == old(store.troubles))
  {
    var playlists := set n | n in files && n != MASTER && IsPlaylist(n);
    var assets := set n | n in files && n != MASTER && !IsPlaylist(n);
    r := UploadStages(store, prefix, files, assets, playlists);
    if r != Done {
      return;
    }
    ghost var uploaded, late := store.objects, store.history;
    var expected := set n | n in assets + playlists :: prefix + n;
    r := ReconcileInventory(store, prefix, expected);
    HiddenThenHidden(late, store.history, |old(store.history)|, old(store.objects), uploaded, prefix);
    if r == Done {
      ExpectedIsAllButMaster(uploaded, store.objects, prefix, files, expected);
    }
  }

  /** The assets, and then the playlists. */
  method UploadStages(store: ObjectStore, prefix: Name, files: Files, assets: set<Name>, playlists: set<Name>)
    returns (r: Reply)
    requires store.Valid() && Hidden(store.objects, prefix) && Collected(files)
    requires assets <= files.Keys && playlists <= files.Keys && assets !! playlists && MASTER !in assets + playlists
    modifies store
    ensures store.Valid() && |store.history| >= |old(store.history)| && Hidden(store.objects, prefix)
    ensures store.history[..|old(store.history)|] == old(store.history)
    ensures AllHidden(store.history, |old(store.history)|, old(store.objects), prefix)
    ensures SameOutside(old(store.objects), store.objects, prefix)
    ensures r == Done ==> forall n :: n in assets + playlists ==>
                            prefix + n in store.objects && store.objects[prefix + n] == files[n]
    ensures store.Budget() == old(store.Budget()) && old(store.removals) <= store.removals
    ensures DeathCount(store.faults) + (if r == Dead then 1 else 0) == old(DeathCount(store.faults))
    ensures r == Dead ==> store.last.reply == Dead
    ensures store.troubles >= old(store.troubles) && (r == Done <==> store.troubles == old(store.troubles))
  {
    r := UploadStage(store, prefix, files, assets);
    if r != Done {
      return;
    }
    ghost var staged, early := store.objects, store.history;
    r := UploadStage(store, prefix, files, playlists);
    HiddenThenHidden(early, store.history, |old(store.history)|, old(store.objects), staged, prefix);
    if r == Done {
      BothStagesStored(staged, store.objects, prefix, files, assets, playlists);
    }
  }

  /** The second stage writes other names, so what the first one stored is still there. */
  lemma BothStagesStored(
    staged: Objects, uploaded: Objects, prefix: Name, files: Files, first: set<Name>, second: set<Name>)
    requires Collected(files) && first <= files.Keys && second <= files.Keys && first !! second
    requires forall n :: n in first ==> prefix + n in staged && staged[prefix + n] == files[n]
    requires forall o :: o in staged && (forall n :: n in second ==> o != prefix + n) ==>
               o in uploaded && uploaded[o] == staged[o]
    requires forall n :: n in second ==> prefix + n in uploaded && uploaded[prefix + n] == files[n]
    ensures forall n :: n in first + second ==> prefix + n in uploaded && uploaded[prefix + n] == files[n]
  {
    forall n | n in first
      ensures prefix + n in uploaded && uploaded[prefix + n] == files[n]
    {
      FullName(prefix, n);
      forall m | m in second
        ensures prefix + n != prefix + m
      {
        FullName(prefix, m);
      }
    }
  }

  /** Below the prefix there is every file except the master, and nothing else. */
  ghost predicate AllButMaster(objects: Objects, prefix: Name, files: Files) {
    && (forall n :: n in files && n != MASTER ==> prefix + n in objects && objects[prefix + n] == files[n])
    && (forall o :: o in objects && prefix < o ==> o[|prefix|..] in files && o[|prefix|..] != MASTER)
  }

  lemma ExpectedIsAllButMaster(uploaded: Objects, now: Objects, prefix: Name, files: Files, expected: set<Name>)
    requires Collected(files)
    requires forall n :: n in files && n != MASTER ==> prefix + n in uploaded && uploaded[prefix + n] == files[n]
    requires forall o :: o in now ==> o in uploaded && now[o] == uploaded[o]
    requires forall o :: o in expected <==> exists n :: n in files && n != MASTER && o == prefix + n
    requires forall o :: o in expected <==> o in now && prefix < o
    ensures AllButMaster(now, prefix, files)
  {
    forall n | n in files && n != MASTER
      ensures prefix + n in now && now[prefix + n] == files[n]
    {
      assert prefix + n in expected;
    }
    forall o | o in now && prefix < o
      ensures o[|prefix|..] in files && o[|prefix|..] != MASTER
    {
      var n :| n in files && n != MASTER && o == prefix + n;
      FullName(prefix, n);
    }
  }

  /** Everything but the master is in place, so storing the master commits. */
  method CommitMaster(store: ObjectStore, prefix: Name, files: Files) returns (r: Reply)
    requires store.Valid() && Hidden(store.objects, prefix)
    requires MASTER in files && PresentationOk(files) && Collected(files)
    requires AllButMaster(store.objects, prefix, files)
    modifies store
    ensures store.Valid() && store.history == old(store.history) + [store.objects]
    ensures SameOutside(old(store.objects), store.objects, prefix)
    ensures store.objects == old(store.objects) || Exactly(store.objects, prefix, files)
    ensures r == Done ==> Exactly(store.objects, prefix, files)
    ensures store.Budget() == old(store.Budget()) && old(store.removals) <= store.removals
    ensures DeathCount(store.faults) + (if r == Dead then 1 else 0) == old(DeathCount(store.faults))
    ensures r == Dead ==> store.last.reply == Dead
    ensures store.troubles >= old(store.troubles) && (r == Done <==> store.troubles == old(store.troubles))
  {
    FullName(prefix, MASTER);
    ghost var committed := store.objects[prefix + MASTER := files[MASTER]];
    forall o | prefix < o
      ensures (o in committed <==> o[|prefix|..] in files) && (o in committed ==> committed[o] == files[o[|prefix|..]])
    {
      assert o == prefix + o[|prefix|..];
    }
    r := store.Put(prefix + MASTER, files[MASTER]);
  }

  /** `atomic_publish`. Whatever fails and wherever it dies, at every moment a player finds the
      old presentation, the whole new one, or nothing; on a normal return the prefix holds
      exactly the validated files; after a withheld failure nothing is discoverable. */
  method AtomicPublish(store: ObjectStore, prefix: Name, local: Option<Files>) returns (outcome: Outcome)
    requires store.Valid()
    requires local.Some? ==> Collected(local.value)
    modifies store
    ensures store.Valid() && |store.history| >= |old(store.history)|
    ensures store.history[..|old(store.history)|] == old(store.history)
    ensures AllCoherent(store.history, |old(store.history)|, old(store.objects), prefix, local)
    ensures Closed(old(store.objects), prefix) ==>
              forall i :: |old(store.history)| <= i < |store.history| ==> Closed(store.history[i], prefix)
    ensures Coherent(store.objects, old(store.objects), prefix, local)
    ensures outcome == Published ==> IsPublished(store.objects, prefix, local)
    ensures outcome == Raised ==> Hidden(store.objects, prefix)
    // It publishes exactly a valid presentation over operations that all succeed.
    ensures outcome == Published <==> Publishable(local) && store.troubles == old(store.troubles)
    ensures Smooth(old(store.faults)) && Publishable(local) ==> outcome == Published
    // After an error it removes the master once more, as the last thing it does, and says what came of it.
    ensures outcome == Raised || outcome == RaisedUnwithheld ==>
              && store.last == RemoveOf(prefix + MASTER, if outcome == Raised then Done else Error)
              && store.removals[prefix + MASTER] >= old(store.removals)[prefix + MASTER] + 2
              && (Publishable(local) ==> store.troubles > old(store.troubles) + if outcome == Raised then 0 else 1)
    ensures outcome == Died ==> store.last.reply == Dead
    ensures outcome == Died || outcome == RaisedUnwithheld ==> store.troubles > old(store.troubles)
    ensures store.troubles >= old(store.troubles) && store.Budget() == old(store.Budget())
    ensures DeathCount(store.faults) + (if outcome == Died then 1 else 0) == old(DeathCount(store.faults))
    // So one failure, of the store or of the presentation, leaves no master behind.
    ensures old(DeathCount(store.faults)) == 0 && old(FailCount(store.faults)) + (if Publishable(local) then 0 else 1) <= 1 ==>
              outcome == Published || outcome == Raised
  {
    var r := PublishSteps(store, prefix, local);
    match r {
      case Done => outcome := Published;
      case Dead => outcome := Died;
      case Error =>
        // A lost answer may hide a master that was stored: withhold it again.
        FullName(prefix, MASTER);
        var again := store.Remove(prefix + MASTER);
        outcome := match again case Done => Raised case Error => RaisedUnwithheld case Dead => Died;
    }
    if Closed(old(store.objects), prefix) {
      forall i | |old(store.history)| <= i < |store.history|
        ensures Closed(store.history[i], prefix)
      {
        CoherentIsClosed(store.history[i], old(store.objects), prefix, local);
      }
    }
  }
}
