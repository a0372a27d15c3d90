/** The cache purger's directory walk, an explicit stack of open directories read in batches,
    and the sweep that drives it. */
module CacheWalker {

  type Path = seq<string>

  type VideoId = string

  /** What opening a cache file and reading its key gives. */
  datatype Content = Names(video: VideoId) | NoVideoKey | Vanished | Unreadable

  datatype Entry =
    | File(name: string, content: Content, removable: bool)
    // `opens` is false if opening it fails. A broken listing ends in an error; `entries` are
    // then those of the reads before it, because what the failing read returns is dropped.
    | Dir(name: string, opens: bool, entries: seq<Entry>, broken: bool)
    | Symlink(name: string)
    | Special(name: string)
    | Unstattable(name: string)

  datatype Visit = Found(path: Path, content: Content, removable: bool) | Trouble(path: Path)

  // ---- What a walk should report ------------------------------------------------------

  function Visits(path: Path, e: Entry): seq<Visit>
    decreases e, 0
  {
    match e
    case File(name, content, removable) => [Found(path + [name], content, removable)]
    case Dir(name, opens, entries, broken) =>
      if opens then Listing(path + [name], entries, broken) else [Trouble(path + [name])]
    case Symlink(_) => []
    case Special(_) => []
    case Unstattable(name) => [Trouble(path + [name])]
  }

  /** All visits below a directory, in listing order, and then its listing error if any. */
  function Listing(path: Path, entries: seq<Entry>, broken: bool): seq<Visit>
    decreases entries, 1
  {
    if entries == [] then (if broken then [Trouble(path)] else [])
    else Visits(path, entries[0]) + Listing(path, entries[1..], broken)
  }

  function Size(e: Entry): nat
    decreases e, 0
  {
    match e
    case Dir(_, _, entries, _) => 3 + SizeAll(entries)
    case _ => 1
  }

  function SizeAll(entries: seq<Entry>): nat
    decreases entries, 1
  {
    if entries == [] then 0 else Size(entries[0]) + SizeAll(entries[1..])
  }

  lemma {:induction false} ListingSplits(path: Path, a: seq<Entry>, b: seq<Entry>, broken: bool)
    ensures Listing(path, a + b, broken) == Listing(path, a, false) + Listing(path, b, broken)
    ensures SizeAll(a + b) == SizeAll(a) + SizeAll(b)
    decreases |a|
  {
    if a == [] {
      assert a + b == b;
    } else {
      assert (a + b)[1..] == a[1..] + b;
      ListingSplits(path, a[1..], b, broken);
    }
  }

  // ---- The walker -----------------------------------------------------------------------

  const READ_BATCH: nat := 128

  /** One open directory: what `ReadDir` has still to hand out, and the batch in hand. */
  datatype Frame = Frame(
    path: Path, unread: seq<Entry>, broken: bool, entries: seq<Entry>, index: nat, eof: bool)
  {
    predicate Valid() {
      index <= |entries|
    }

    function Rest(): seq<Visit>
      requires Valid()
    {
      if eof then Listing(path, entries[index..], false)
      else Listing(path, entries[index..] + unread, broken)
    }

    function Work(): nat
      requires Valid()
    {
      if eof then 1 + SizeAll(entries[index..]) else 2 + SizeAll(entries[index..] + unread)
    }
  }

  predicate ValidStack(stack: seq<Frame>) {
    forall i :: 0 <= i < |stack| ==> stack[i].Valid()
  }

  /** Everything the walk has still to report: the innermost directory first. */
  function Remaining(stack: seq<Frame>): seq<Visit>
    requires ValidStack(stack)
  {
    if stack == [] then [] else stack[|stack| - 1].Rest() + Remaining(stack[..|stack| - 1])
  }

  function StackWork(stack: seq<Frame>): nat
    requires ValidStack(stack)
  {
    if stack == [] then 0 else stack[|stack| - 1].Work() + StackWork(stack[..|stack| - 1])
  }

  lemma TopChanged(below: seq<Frame>, top: Frame)
    requires ValidStack(below) && top.Valid()
    ensures ValidStack(below + [top])
    ensures Remaining(below + [top]) == top.Rest() + Remaining(below)
    ensures StackWork(below + [top]) == top.Work() + StackWork(below)
  {
    assert (below + [top])[..|below|] == below;
  }

  datatype Next = NextFile(path: Path, content: Content, removable: bool) | NextError(path: Path) | Complete

  function AsVisit(n: Next): Visit
    requires !n.Complete?
  {
    if n.NextFile? then Found(n.path, n.content, n.removable) else Trouble(n.path)
  }

  /** Consuming one entry of the top frame takes its visits off the front. */
  lemma EntryTaken(f: Frame)
    requires f.Valid() && f.index < |f.entries|
    ensures var g := f.(index := f.index + 1);
            && f.Rest() == Visits(f.path, f.entries[f.index]) + g.Rest()
            && f.Work() == Size(f.entries[f.index]) + g.Work()
  {
    assert f.entries[f.index..] == [f.entries[f.index]] + f.entries[f.index + 1..];
    if !f.eof {
      assert f.entries[f.index..] + f.unread == [f.entries[f.index]] + (f.entries[f.index + 1..] + f.unread);
    }
  }

  class Walker {
    var stack: seq<Frame>

    ghost predicate Valid()
      reads this
    {
      ValidStack(stack)
    }

    /** `newCacheWalker` on a root that opened. */
    constructor (root: Path, entries: seq<Entry>, broken: bool)
      ensures Valid() && Remaining(stack) == Listing(root, entries, broken)
      ensures StackWork(stack) == 2 + SizeAll(entries)
    {
      stack := [Frame(root, entries, broken, [], 0, false)];
      new;
      assert stack[..0] == [];
      assert [] + entries == entries;
    }

    /** `Next`: exactly the first thing still to report, or Complete when there is nothing. */
    method Next() returns (r: Next)
      requires Valid()
      modifies this
      ensures Valid()
      ensures r.Complete? <==> Remaining(old(stack)) == []
      ensures r.Complete? ==> stack == []
      ensures !r.Complete? ==> Remaining(old(stack)) == [AsVisit(r)] + Remaining(stack)
      ensures !r.Complete? ==> StackWork(stack) < StackWork(old(stack))
    {
      while |stack| > 0
        invariant Valid() && Remaining(stack) == Remaining(old(stack))
        invariant StackWork(stack) <= StackWork(old(stack))
        decreases StackWork(stack)
      {
        var frame := stack[|stack| - 1];
        var step := Ready;
        if frame.index >= |frame.entries| {
          step := ReadMore();
        }
        if step == Ready {
          step := TakeEntry();
        }
        if step.Report? {
          return step.next;
        }
      }
      r := Complete;
    }

    /** The batch in hand is used up: leave the directory, fail, or read the next batch. */
    method ReadMore() returns (step: Step)
      requires Valid() && |stack| > 0 && stack[|stack| - 1].index == |stack[|stack| - 1].entries|
      modifies this
      ensures Valid()
      ensures step == Ready ==> |stack| > 0 && stack[|stack| - 1].index < |stack[|stack| - 1].entries| &&
                                Remaining(stack) == Remaining(old(stack)) && StackWork(stack) == StackWork(old(stack))
      ensures step != Ready ==> Progress(step, old(stack), stack)
    {
      var below, frame := stack[..|stack| - 1], stack[|stack| - 1];
      assert stack == below + [frame];
      TopChanged(below, frame);
      assert frame.entries[frame.index..] == [];
      assert [] + frame.unread == frame.unread;
      if frame.eof {
        stack := below;
        return Again;
      }
      var count := if |frame.unread| < READ_BATCH then |frame.unread| else READ_BATCH;
      if count > 0 {
        TopChanged(below, Fill(frame, count));
        stack := below + [Fill(frame, count)];
        return Ready;
      }
      if frame.broken {
        stack := below;
        return Report(NextError(frame.path));
      }
      var drained := frame.(entries := [], index := 0, eof := true);
      TopChanged(below, drained);
      stack := below + [drained];
      step := Again;
    }

    /** Looks at the next entry of the innermost directory. */
    method TakeEntry() returns (step: Step)
      requires Valid() && |stack| > 0 && stack[|stack| - 1].index < |stack[|stack| - 1].entries|
      modifies this
      ensures Valid() && step != Ready && Progress(step, old(stack), stack)
    {
      var below, frame := stack[..|stack| - 1], stack[|stack| - 1];
      assert stack == below + [frame];
      var entry, advanced := frame.entries[frame.index], frame.(index := frame.index + 1);
      EntryPopped(below, frame);
      stack := below + [advanced];
      if entry.Dir? && entry.opens {
        DirectoryPushed(stack, frame.path, entry);
        stack := stack + [OpenDir(frame.path, entry)];
        return Again;
      }
      step := match entry
        case File(name, content, removable) => Report(NextFile(frame.path + [name], content, removable))
        case Dir(name, _, _, _) => Report(NextError(frame.path + [name]))
        case Unstattable(name) => Report(NextError(frame.path + [name]))
        case Symlink(_) => Again
        case Special(_) => Again;
      assert Visits(frame.path, entry) == if step == Again then [] else [AsVisit(step.next)];
    }
  }

  lemma EntryPopped(below: seq<Frame>, frame: Frame)
    requires ValidStack(below) && frame.Valid() && frame.index < |frame.entries|
    ensures ValidStack(below + [frame]) && ValidStack(below + [frame.(index := frame.index + 1)])
    ensures Remaining(below + [frame]) ==
            Visits(frame.path, frame.entries[frame.index]) + Remaining(below + [frame.(index := frame.index + 1)])
    ensures StackWork(below + [frame]) ==
            Size(frame.entries[frame.index]) + StackWork(below + [frame.(index := frame.index + 1)])
  {
    EntryTaken(frame);
    TopChanged(below, frame);
    TopChanged(below, frame.(index := frame.index + 1));
  }

  function OpenDir(path: Path, dir: Entry): Frame
    requires dir.Dir?
  {
    Frame(path + [dir.name], dir.entries, dir.broken, [], 0, false)
  }

  lemma DirectoryPushed(stack: seq<Frame>, path: Path, dir: Entry)
    requires ValidStack(stack) && dir.Dir? && dir.opens
    ensures var child := OpenDir(path, dir);
            && ValidStack(stack + [child])
            && Remaining(stack + [child]) == Visits(path, dir) + Remaining(stack)
            && StackWork(stack + [child]) < Size(dir) + StackWork(stack)
  {
    assert [] + dir.entries == dir.entries;
    TopChanged(stack, OpenDir(path, dir));
  }

  datatype Step = Ready | Again | Report(next: Next)

  /** A step either reports the first visit that was left, or changes nothing that is left;
      and there is less to do in any case. */
  ghost predicate Progress(step: Step, before: seq<Frame>, after: seq<Frame>)
    requires ValidStack(before) && ValidStack(after)
  {
    && StackWork(after) < StackWork(before)
    && (step == Again ==> Remaining(after) == Remaining(before))
    && (step.Report? ==> !step.next.Complete? && Remaining(before) == [AsVisit(step.next)] + Remaining(after))
  }

  /** A `ReadDir` that returns entries: the same entries are left, now in hand. */
  function Fill(f: Frame, count: nat): (g: Frame)
    requires f.index == |f.entries| && !f.eof && 0 < count <= |f.unread|
    ensures g.Valid() && g.Rest() == f.Rest() && g.Work() == f.Work() && g.index < |g.entries|
    ensures g.path == f.path && !g.eof
  {
    assert f.entries[f.index..] + f.unread == f.unread;
    assert f.unread[..count] + f.unread[count..] == f.unread;
    f.(entries := f.unread[..count], index := 0, unread := f.unread[count..])
  }

  // ---- Each file once -------------------------------------------------------------------

  /** No two entries of one directory share a name. */
  predicate WellNamed(entries: seq<Entry>)
    decreases entries, 1
  {
    && (forall i, j :: 0 <= i < j < |entries| ==> entries[i].name != entries[j].name)
    && (forall i :: 0 <= i < |entries| ==> WellNamedEntry(entries[i]))
  }

  predicate WellNamedEntry(e: Entry)
    decreases e, 0
  {
    e.Dir? ==> WellNamed(e.entries)
  }

  predicate NoRepeats(visits: seq<Visit>) {
    forall i, j :: 0 <= i < j < |visits| && visits[i].Found? && visits[j].Found? ==> visits[i].path != visits[j].path
  }

  /** What is found below an entry carries the entry's name right after the path. */
  lemma {:induction false} FoundBelow(path: Path, e: Entry, v: Visit)
    requires v in Visits(path, e) && v.Found?
    ensures |v.path| > |path| && v.path[..|path|] == path && v.path[|path|] == e.name
    decreases e, 0
  {
    if e.Dir? && e.opens {
      FoundInListing(path + [e.name], e.entries, e.broken, v);
      assert v.path[..|path| + 1] == path + [e.name];
    }
  }

  lemma {:induction false} FoundInListing(path: Path, entries: seq<Entry>, broken: bool, v: Visit)
    requires v in Listing(path, entries, broken) && v.Found?
    ensures |v.path| > |path| && v.path[..|path|] == path
    ensures exists i :: 0 <= i < |entries| && v.path[|path|] == entries[i].name
    decreases entries, 1
  {
    if entries != [] {
      if v in Visits(path, entries[0]) {
        FoundBelow(path, entries[0], v);
      } else {
        FoundInListing(path, entries[1..], broken, v);
      }
    }
  }

  lemma {:induction false} EntryVisitedOnce(path: Path, e: Entry)
    requires WellNamedEntry(e)
    ensures NoRepeats(Visits(path, e))
    decreases e, 0
  {
    if e.Dir? && e.opens {
      FilesVisitedOnce(path + [e.name], e.entries, e.broken);
    }
  }

  /** A whole walk finds no file twice. */
  lemma {:induction false} FilesVisitedOnce(path: Path, entries: seq<Entry>, broken: bool)
    requires WellNamed(entries)
    ensures NoRepeats(Listing(path, entries, broken))
    decreases entries, 1
  {
    if entries != [] {
      var first, rest := Visits(path, entries[0]), Listing(path, entries[1..], broken);
      EntryVisitedOnce(path, entries[0]);
      FilesVisitedOnce(path, entries[1..], broken);
      forall v, w | v in first && w in rest && v.Found? && w.Found?
        ensures v.path != w.path
      {
        FoundBelow(path, entries[0], v);
        FoundInListing(path, entries[1..], broken, w);
      }
    }
  }

  /** `path` reaches a regular file of the tree without passing through a symlink or through
      a directory that cannot be opened. */
  predicate Reaches(entries: seq<Entry>, path: Path, content: Content, removable: bool)
    decreases |path|, 1
  {
    exists i :: 0 <= i < |entries| && Through(entries[i], path, content, removable)
  }

  predicate Through(e: Entry, path: Path, content: Content, removable: bool)
    decreases |path|, 0
  {
    && path != [] && e.name == path[0]
    && if |path| == 1 then e == File(path[0], content, removable)
       else e.Dir? && e.opens && Reaches(e.entries, path[1..], content, removable)
  }

  /** The walk finds exactly the files the tree has. */
  lemma {:induction false} WalkFindsExactlyTheFiles(
    root: Path, entries: seq<Entry>, broken: bool, path: Path, content: Content, removable: bool)
    ensures Found(root + path, content, removable) in Listing(root, entries, broken) <==>
            Reaches(entries, path, content, removable)
    decreases entries, 1
  {
    if entries != [] {
      EntryFindsExactly(root, entries[0], path, content, removable);
      WalkFindsExactlyTheFiles(root, entries[1..], broken, path, content, removable);
      ReachesFirstOrRest(entries, path, content, removable);
    }
  }

  lemma {:induction false} EntryFindsExactly(root: Path, e: Entry, path: Path, content: Content, removable: bool)
    ensures Found(root + path, content, removable) in Visits(root, e) <==> Through(e, path, content, removable)
    decreases e, 0
  {
    var v := Found(root + path, content, removable);
    if v in Visits(root, e) {
      FoundBelow(root, e, v);
    }
    assert path == (root + path)[|root|..];
    if path != [] && e.name == path[0] {
      if e.Dir? && e.opens {
        assert root + path == (root + [e.name]) + path[1..];
        WalkFindsExactlyTheFiles(root + [e.name], e.entries, e.broken, path[1..], content, removable);
        EmptyPathReachesNothing(e.entries, content, removable);
      } else if |path| == 1 {
        assert root + path == root + [e.name];
      }
    }
  }

  lemma EmptyPathReachesNothing(entries: seq<Entry>, content: Content, removable: bool)
    ensures !Reaches(entries, [], content, removable)
  {
  }

  lemma ReachesFirstOrRest(entries: seq<Entry>, path: Path, content: Content, removable: bool)
    requires entries != []
    ensures Reaches(entries, path, content, removable) <==>
            Through(entries[0], path, content, removable) || Reaches(entries[1..], path, content, removable)
  {
    assert forall i :: 0 < i < |entries| ==> entries[1..][i - 1] == entries[i];
    assert forall i :: 0 <= i < |entries[1..]| ==> entries[1..][i] == entries[i + 1];
  }

  // ---- Every trouble reported --------------------------------------------------------------

  /** At this path, behind no symlink and no directory that cannot be opened, something cannot be
      looked at: a directory does not open or its listing breaks off, or an entry cannot be
      stat'ed. */
  predicate Obstructed(entries: seq<Entry>, broken: bool, path: Path)
    decreases |path|, 1
  {
    || (path == [] && broken)
    || exists i :: 0 <= i < |entries| && ObstructedAt(entries[i], path)
  }

  predicate ObstructedAt(e: Entry, path: Path)
    decreases |path|, 0
  {
    && path != [] && e.name == path[0]
    && match e
       case Dir(_, opens, entries, broken) => if opens then Obstructed(entries, broken, path[1..]) else |path| == 1
       case Unstattable(_) => |path| == 1
       case _ => false
  }

  lemma ObstructedFirstOrRest(entries: seq<Entry>, broken: bool, path: Path)
    requires entries != []
    ensures Obstructed(entries, broken, path) <==> ObstructedAt(entries[0], path) || Obstructed(entries[1..], broken, path)
  {
    assert forall i :: 0 < i < |entries| ==> entries[1..][i - 1] == entries[i];
    assert forall i :: 0 <= i < |entries[1..]| ==> entries[1..][i] == entries[i + 1];
  }

  lemma {:induction false} TroubleBelow(path: Path, e: Entry, v: Visit)
    requires v in Visits(path, e) && v.Trouble?
    ensures |v.path| > |path| && v.path[..|path|] == path && v.path[|path|] == e.name
    decreases e, 0
  {
    if e.Dir? && e.opens {
      TroubleInListing(path + [e.name], e.entries, e.broken, v);
      assert v.path[..|path| + 1] == path + [e.name];
    }
  }

  lemma {:induction false} TroubleInListing(path: Path, entries: seq<Entry>, broken: bool, v: Visit)
    requires v in Listing(path, entries, broken) && v.Trouble?
    ensures |v.path| >= |path| && v.path[..|path|] == path
    decreases entries, 1
  {
    if entries != [] {
      if v in Visits(path, entries[0]) {
        TroubleBelow(path, entries[0], v);
      } else {
        TroubleInListing(path, entries[1..], broken, v);
      }
    }
  }

  /** The walk reports an error exactly where there is something that cannot be looked at. */
  lemma {:induction false} WalkReportsExactlyTheTroubles(root: Path, entries: seq<Entry>, broken: bool, path: Path)
    ensures Trouble(root + path) in Listing(root, entries, broken) <==> Obstructed(entries, broken, path)
    decreases entries, 1
  {
    if entries == [] {
      assert root + path == root <==> path == [] by {
        assert |root + path| == |root| + |path|;
      }
    } else {
      EntryReportsExactly(root, entries[0], path);
      WalkReportsExactlyTheTroubles(root, entries[1..], broken, path);
      ObstructedFirstOrRest(entries, broken, path);
    }
  }

  lemma {:induction false} EntryReportsExactly(root: Path, e: Entry, path: Path)
    ensures Trouble(root + path) in Visits(root, e) <==> ObstructedAt(e, path)
    decreases e, 0
  {
    var v := Trouble(root + path);
    if v in Visits(root, e) {
      TroubleBelow(root, e, v);
    }
    assert path == (root + path)[|root|..];
    if path != [] && e.name == path[0] {
      if e.Dir? && e.opens {
        assert root + path == (root + [e.name]) + path[1..];
        WalkReportsExactlyTheTroubles(root + [e.name], e.entries, e.broken, path[1..]);
      } else if |path| == 1 {
        assert root + path == root + [e.name];
      }
    }
  }

  /** A regular file of the tree, behind no symlink, whether its directories open or not. */
  predicate Lies(entries: seq<Entry>, path: Path, content: Content, removable: bool)
    decreases |path|, 1
  {
    exists i :: 0 <= i < |entries| && LiesAt(entries[i], path, content, removable)
  }

  predicate LiesAt(e: Entry, path: Path, content: Content, removable: bool)
    decreases |path|, 0
  {
    && path != [] && e.name == path[0]
    && if |path| == 1 then e == File(path[0], content, removable)
       else e.Dir? && Lies(e.entries, path[1..], content, removable)
  }

  ghost predicate NothingObstructed(entries: seq<Entry>, broken: bool) {
    forall path :: !Obstructed(entries, broken, path)
  }

  /** Where nothing is in the way every file is reached. */
  lemma {:induction false} NothingHidden(entries: seq<Entry>, broken: bool, path: Path, content: Content, removable: bool)
    requires NothingObstructed(entries, broken) && Lies(entries, path, content, removable)
    ensures Reaches(entries, path, content, removable)
    decreases |path|
  {
    var i :| 0 <= i < |entries| && LiesAt(entries[i], path, content, removable);
    var e := entries[i];
    if |path| > 1 {
      assert ObstructedAt(e, [e.name]) ==> Obstructed(entries, broken, [e.name]);
      assert e.opens;
      forall below
        ensures !Obstructed(e.entries, e.broken, below)
      {
        assert ([e.name] + below)[1..] == below;
        assert ObstructedAt(e, [e.name] + below) ==> Obstructed(entries, broken, [e.name] + below);
      }
      NothingHidden(e.entries, e.broken, path[1..], content, removable);
    }
    assert Through(e, path, content, removable);
  }

  lemma {:induction false} ReachedLies(entries: seq<Entry>, path: Path, content: Content, removable: bool)
    requires Reaches(entries, path, content, removable)
    ensures Lies(entries, path, content, removable)
    decreases |path|
  {
    var i :| 0 <= i < |entries| && Through(entries[i], path, content, removable);
    if |path| > 1 {
      ReachedLies(entries[i].entries, path[1..], content, removable);
    }
    assert LiesAt(entries[i], path, content, removable);
  }

  // ---- The sweep ------------------------------------------------------------------------

  predicate Targets(v: Visit, snapshot: set<VideoId>) {
    v.Found? && v.content.Names? && v.content.video in snapshot
  }

  predicate Fails(v: Visit, snapshot: set<VideoId>) {
    v.Trouble? || v.content.Unreadable? || (Targets(v, snapshot) && !v.removable)
  }

  function Removals(visits: seq<Visit>, snapshot: set<VideoId>): seq<Path> {
    if visits == [] then []
    else
      (if Targets(visits[0], snapshot) && visits[0].removable then [visits[0].path] else []) +
      Removals(visits[1..], snapshot)
  }

  function Failures(visits: seq<Visit>, snapshot: set<VideoId>): nat {
    if visits == [] then 0 else (if Fails(visits[0], snapshot) then 1 else 0) + Failures(visits[1..], snapshot)
  }

  function Files(visits: seq<Visit>): nat {
    if visits == [] then 0 else (if visits[0].Found? then 1 else 0) + Files(visits[1..])
  }

  datatype SweepResult = SweepResult(completed: bool, errors: nat, scanned: nat, removed: seq<Path>)

  /** What was counted and removed so far, with what is `left` to see, makes up all `visits`. */
  ghost predicate Accounts(r: SweepResult, left: seq<Visit>, visits: seq<Visit>, snapshot: set<VideoId>) {
    && r.errors + Failures(left, snapshot) == Failures(visits, snapshot)
    && r.scanned + Files(left) == Files(visits)
    && r.removed + Removals(left, snapshot) == Removals(visits, snapshot)
  }

  /** One file: read its key, and remove it if the key names a video of the snapshot. */
  method ReconcileFile(r: SweepResult, v: Visit, snapshot: set<VideoId>, ghost left: seq<Visit>, ghost visits: seq<Visit>)
    returns (s: SweepResult)
    requires v.Found? && Accounts(r, [v] + left, visits, snapshot)
    ensures Accounts(s, left, visits, snapshot) && s.completed == r.completed
  {
    assert ([v] + left)[1..] == left;
    s := r.(scanned := r.scanned + 1);
    match v.content {
      case Unreadable =>
        s := s.(errors := s.errors + 1);
      case NoVideoKey =>
      case Vanished =>
      case Names(video) =>
        if video in snapshot {
          if v.removable {
            s := s.(removed := s.removed + [v.path]);
            assert r.removed + ([v.path] + Removals(left, snapshot)) == s.removed + Removals(left, snapshot);
          } else {
            s := s.(errors := s.errors + 1);
          }
        }
    }
  }

  method CountError(r: SweepResult, v: Visit, snapshot: set<VideoId>, ghost left: seq<Visit>, ghost visits: seq<Visit>)
    returns (s: SweepResult)
    requires v.Trouble? && Accounts(r, [v] + left, visits, snapshot)
    ensures Accounts(s, left, visits, snapshot) && s.completed == r.completed
  {
    assert ([v] + left)[1..] == left;
    s := r.(errors := r.errors + 1);
  }

  /** One call of `Next` and what the loop does with its result. */
  method Look(walker: Walker, snapshot: set<VideoId>, before: SweepResult, ghost visits: seq<Visit>)
    returns (r: SweepResult)
    requires walker.Valid() && Accounts(before, Remaining(walker.stack), visits, snapshot)
    modifies walker
    ensures walker.Valid() && Accounts(r, Remaining(walker.stack), visits, snapshot)
    ensures if r.completed then Remaining(walker.stack) == [] || before.completed
            else StackWork(walker.stack) < StackWork(old(walker.stack))
  {
    ghost var left := Remaining(walker.stack);
    r := before;
    var next := walker.Next();
    if next.Complete? {
      return r.(completed := true);
    }
    assert left == [AsVisit(next)] + Remaining(walker.stack) && left[1..] == Remaining(walker.stack);
    if next.NextError? {
      r := CountError(r, AsVisit(next), snapshot, Remaining(walker.stack), visits);
    } else {
      r := ReconcileFile(r, AsVisit(next), snapshot, Remaining(walker.stack), visits);
    }
  }

  /** One batch of the loop of `reconcileOnce`: at most `quota` calls of `Next`. */
  method SweepBatch(walker: Walker, snapshot: set<VideoId>, quota: nat, before: SweepResult, ghost visits: seq<Visit>)
    returns (r: SweepResult)
    requires walker.Valid() && !before.completed && Accounts(before, Remaining(walker.stack), visits, snapshot)
    modifies walker
    ensures walker.Valid() && Accounts(r, Remaining(walker.stack), visits, snapshot)
    ensures if r.completed then Remaining(walker.stack) == []
            else StackWork(walker.stack) + quota <= StackWork(old(walker.stack))
  {
    r := before;
    var looked := 0;
    while looked < quota && !r.completed
      invariant looked <= quota && walker.Valid() && Accounts(r, Remaining(walker.stack), visits, snapshot)
      invariant if r.completed then Remaining(walker.stack) == []
                else StackWork(walker.stack) + looked <= StackWork(old(walker.stack))
    {
      looked := looked + 1;
      r := Look(walker, snapshot, r, visits);
    }
  }

  function Looks(schedule: seq<nat>): nat {
    if schedule == [] then 0 else schedule[0] + Looks(schedule[1..])
  }

  lemma {:induction false} LooksAdd(schedule: seq<nat>, batch: nat)
    ensures Looks(schedule + [batch]) == Looks(schedule) + batch
    decreases |schedule|
  {
    if schedule == [] {
      assert (schedule + [batch])[1..] == [];
    } else {
      assert (schedule + [batch])[1..] == schedule[1..] + [batch];
      LooksAdd(schedule[1..], batch);
    }
  }

  /** The loop of `reconcileOnce`. `schedule` gives, batch by batch, how many entries the batch
      gets to look at; running out of it is a cancelled context. */
  method Sweep(walker: Walker, snapshot: set<VideoId>, schedule: seq<nat>) returns (r: SweepResult)
    requires walker.Valid()
    modifies walker
    ensures r.completed ==> Accounts(r, [], Remaining(old(walker.stack)), snapshot)
    ensures r.removed <= Removals(Remaining(old(walker.stack)), snapshot)
    // However the looks are split into batches, enough of them complete the sweep.
    ensures Looks(schedule) > StackWork(old(walker.stack)) ==> r.completed
  {
    ghost var visits := Remaining(walker.stack);
    r := SweepResult(false, 0, 0, []);
    var batch := 0;
    while batch < |schedule| && !r.completed
      invariant 0 <= batch <= |schedule| && walker.Valid()
      invariant Accounts(r, Remaining(walker.stack), visits, snapshot)
      invariant r.completed ==> Remaining(walker.stack) == []
      invariant !r.completed ==>
                  StackWork(walker.stack) + Looks(schedule) <= StackWork(old(walker.stack)) + Looks(schedule[batch..])
    {
      r := SweepBatch(walker, snapshot, schedule[batch], r, visits);
      batch := batch + 1;
    }
  }

  lemma {:induction false} RemovalsAreTargets(visits: seq<Visit>, snapshot: set<VideoId>, p: Path)
    ensures p in Removals(visits, snapshot) <==>
            exists i :: 0 <= i < |visits| && Targets(visits[i], snapshot) && visits[i].removable && visits[i].path == p
    decreases |visits|
  {
    if visits != [] {
      RemovalsAreTargets(visits[1..], snapshot, p);
      if exists i :: 0 <= i < |visits| && Targets(visits[i], snapshot) && visits[i].removable && visits[i].path == p {
        var i :| 0 <= i < |visits| && Targets(visits[i], snapshot) && visits[i].removable && visits[i].path == p;
        if i > 0 {
          assert visits[1..][i - 1] == visits[i];
        }
      }
    }
  }

  lemma {:induction false} NoFailures(visits: seq<Visit>, snapshot: set<VideoId>, i: nat)
    requires Failures(visits, snapshot) == 0 && i < |visits|
    ensures !Fails(visits[i], snapshot)
    decreases |visits|
  {
    if i > 0 {
      assert visits[1..][i - 1] == visits[i];
      NoFailures(visits[1..], snapshot, i - 1);
    }
  }

  lemma {:induction false} SomeFailure(visits: seq<Visit>, snapshot: set<VideoId>)
    requires forall i :: 0 <= i < |visits| ==> !Fails(visits[i], snapshot)
    ensures Failures(visits, snapshot) == 0
    decreases |visits|
  {
    if visits != [] {
      assert forall i :: 0 < i < |visits| ==> visits[1..][i - 1] == visits[i];
      SomeFailure(visits[1..], snapshot);
    }
  }

  /** A file that a sweep has to get done with: it reads, and it goes if it has to. */
  predicate Manageable(content: Content, removable: bool, snapshot: set<VideoId>) {
    !content.Unreadable? && (content.Names? && content.video in snapshot ==> removable)
  }

  ghost predicate AllManageable(entries: seq<Entry>, snapshot: set<VideoId>) {
    forall path, content, removable ::
      Lies(entries, path, content, removable) ==> Manageable(content, removable, snapshot)
  }

  /** A whole sweep is error-free exactly if nothing in the tree is in its way and it gets done
      with every file that lies in it. */
  lemma CleanExactly(root: Path, entries: seq<Entry>, broken: bool, snapshot: set<VideoId>)
    ensures Failures(Listing(root, entries, broken), snapshot) == 0 <==>
            NothingObstructed(entries, broken) && AllManageable(entries, snapshot)
  {
    var visits := Listing(root, entries, broken);
    if Failures(visits, snapshot) == 0 {
      CleanMeansNothingInTheWay(root, entries, broken, snapshot);
    }
    if NothingObstructed(entries, broken) && AllManageable(entries, snapshot) {
      forall i | 0 <= i < |visits|
        ensures !Fails(visits[i], snapshot)
      {
        VisitIsFine(root, entries, broken, snapshot, visits[i]);
      }
      SomeFailure(visits, snapshot);
    }
  }

  lemma CleanMeansNothingInTheWay(root: Path, entries: seq<Entry>, broken: bool, snapshot: set<VideoId>)
    requires Failures(Listing(root, entries, broken), snapshot) == 0
    ensures NothingObstructed(entries, broken) && AllManageable(entries, snapshot)
  {
    var visits := Listing(root, entries, broken);
    forall path
      ensures !Obstructed(entries, broken, path)
    {
      WalkReportsExactlyTheTroubles(root, entries, broken, path);
      if Obstructed(entries, broken, path) {
        var k :| 0 <= k < |visits| && visits[k] == Trouble(root + path);
        NoFailures(visits, snapshot, k);
      }
    }
    forall path, content, removable | Lies(entries, path, content, removable)
      ensures Manageable(content, removable, snapshot)
    {
      NothingHidden(entries, broken, path, content, removable);
      WalkFindsExactlyTheFiles(root, entries, broken, path, content, removable);
      var k :| 0 <= k < |visits| && visits[k] == Found(root + path, content, removable);
      NoFailures(visits, snapshot, k);
    }
  }

  lemma VisitIsFine(root: Path, entries: seq<Entry>, broken: bool, snapshot: set<VideoId>, v: Visit)
    requires NothingObstructed(entries, broken) && AllManageable(entries, snapshot)
    requires v in Listing(root, entries, broken)
    ensures !Fails(v, snapshot)
  {
    if v.Found? {
      FoundInListing(root, entries, broken, v);
      var path := v.path[|root|..];
      assert root + path == v.path;
      WalkFindsExactlyTheFiles(root, entries, broken, path, v.content, v.removable);
      ReachedLies(entries, path, v.content, v.removable);
    } else {
      TroubleInListing(root, entries, broken, v);
      var path := v.path[|root|..];
      assert root + path == v.path;
      WalkReportsExactlyTheTroubles(root, entries, broken, path);
    }
  }

  /** An error-free sweep removes every file of the tree that lies behind no symlink and whose
      cache key names a video of the snapshot, and no other: it has seen them all. */
  lemma CleanSweepGetsAll(
    root: Path, entries: seq<Entry>, broken: bool, snapshot: set<VideoId>, path: Path, content: Content, removable: bool)
    requires WellNamed(entries) && Lies(entries, path, content, removable)
    requires Failures(Listing(root, entries, broken), snapshot) == 0
    ensures root + path in Removals(Listing(root, entries, broken), snapshot) <==>
              content.Names? && content.video in snapshot
  {
    CleanExactly(root, entries, broken, snapshot);
    NothingHidden(entries, broken, path, content, removable);
    SweepRemovesExactly(root, entries, broken, snapshot, path, content, removable);
  }

  /** An error-free sweep of a whole tree removes a file exactly if its cache key names a video
      of the snapshot, and no sweep, with errors or cut short, removes any other file. */
  lemma SweepRemovesExactly(
    root: Path, entries: seq<Entry>, broken: bool, snapshot: set<VideoId>, path: Path, content: Content, removable: bool)
    requires WellNamed(entries) && Reaches(entries, path, content, removable)
    ensures root + path in Removals(Listing(root, entries, broken), snapshot) ==>
              content.Names? && content.video in snapshot
    ensures Failures(Listing(root, entries, broken), snapshot) == 0 && content.Names? && content.video in snapshot ==>
              root + path in Removals(Listing(root, entries, broken), snapshot)
  {
    var visits := Listing(root, entries, broken);
    FilesVisitedOnce(root, entries, broken);
    WalkFindsExactlyTheFiles(root, entries, broken, path, content, removable);
    var k :| 0 <= k < |visits| && visits[k] == Found(root + path, content, removable);
    RemovalsAreTargets(visits, snapshot, root + path);
    if Failures(visits, snapshot) == 0 {
      NoFailures(visits, snapshot, k);
    }
  }
}
