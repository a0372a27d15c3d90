/** Revocation of deleted videos: the durable tombstone, the guard that consults it, and the
    generations that tell when the cache has been swept clean of a video. */
module CachePurger {

  import opened Common
  import CachePaths
  import CacheWalker

  type VideoId = CacheWalker.VideoId

  datatype State = Pending | Converged | Retrying

  /** `purgeStatus`: the sweep generation a video waits for and the last one that covered it. */
  datatype Record = Record(state: State, required: nat, completed: nat)

  /** What one run of `reconcileOnce` holds in its local variables. */
  datatype Running = Running(generation: nat, snapshot: set<VideoId>)

  /** The memory of one purger process. `clean` is history: for each registered video, the
      number of error-free sweeps whose snapshot held it. */
  datatype Replica = Replica(
    deleted: set<VideoId>,
    records: map<VideoId, Record>,
    completedGeneration: nat,
    activeGeneration: nat,
    sweepActive: bool,
    lastError: bool,
    sweep: Option<Running>,
    clean: map<VideoId, nat>)

  const STARTED := Replica({}, map[], 0, 0, false, false, None, map[])

  // ---- The critical sections of one process ---------------------------------------------

  function Required(s: Replica): nat {
    if s.sweepActive then s.activeGeneration + 1 else s.completedGeneration + 1
  }

  /** `registerRevoked`. */
  function Register(s: Replica, v: VideoId): Replica {
    if v in s.records then s.(deleted := s.deleted + {v})
    else
      s.(deleted := s.deleted + {v},
         records := s.records[v := Record(Pending, Required(s), 0)],
         clean := s.clean[v := 0])
  }

  /** The start of a sweep, once the tombstones are loaded. */
  function Begin(s: Replica): Replica {
    if s.deleted == {} then s.(lastError := false)
    else
      var generation := s.completedGeneration + 1;
      s.(activeGeneration := generation, sweepActive := true, sweep := Some(Running(generation, s.deleted)))
  }

  /** The tombstones could not be read: only the values for the failure report are taken. */
  function BeginFailed(s: Replica): Replica {
    s.(sweep := Some(Running(s.completedGeneration + 1, s.deleted)))
  }

  function Swept(r: Record, generation: nat): Record {
    Record(if r.required <= generation then Converged else r.state, r.required, generation)
  }

  function SweptAll(records: map<VideoId, Record>, snapshot: set<VideoId>, generation: nat): map<VideoId, Record> {
    map v | v in records :: if v in snapshot then Swept(records[v], generation) else records[v]
  }

  /** `finishSweepSuccess`. */
  function Succeed(s: Replica): Replica
    requires s.sweep.Some?
  {
    var Running(generation, snapshot) := s.sweep.value;
    s.(completedGeneration := generation, activeGeneration := 0, sweepActive := false, lastError := false,
       sweep := None, records := SweptAll(s.records, snapshot, generation),
       clean := map v | v in s.clean :: if v in snapshot then s.clean[v] + 1 else s.clean[v])
  }

  function Missed(r: Record, generation: nat): Record {
    if r.required <= generation then r.(state := Retrying) else r
  }

  function MissedAll(records: map<VideoId, Record>, snapshot: set<VideoId>, generation: nat): map<VideoId, Record> {
    map v | v in records :: if v in snapshot then Missed(records[v], generation) else records[v]
  }

  /** `finishSweepFailure`. */
  function Fail(s: Replica): Replica
    requires s.sweep.Some?
  {
    var Running(generation, snapshot) := s.sweep.value;
    s.(activeGeneration := 0, sweepActive := false, lastError := true, sweep := None,
       records := MissedAll(s.records, snapshot, generation))
  }

  datatype Action = DoRegister(video: VideoId) | DoBegin | DoBeginFailed | DoSucceed | DoFail

  /** The sweep gate lets one `reconcileOnce` run at a time; registrations may come at any moment. */
  predicate Can(s: Replica, a: Action) {
    match a
    case DoRegister(_) => true
    case DoBegin => s.sweep.None?
    case DoBeginFailed => s.sweep.None?
    case DoSucceed => s.sweep.Some? && s.sweepActive
    case DoFail => s.sweep.Some?
  }

  function Do(s: Replica, a: Action): Replica
    requires Can(s, a)
  {
    match a
    case DoRegister(v) => Register(s, v)
    case DoBegin => Begin(s)
    case DoBeginFailed => BeginFailed(s)
    case DoSucceed => Succeed(s)
    case DoFail => Fail(s)
  }

  // ---- What every run of one process keeps ------------------------------------------------

  predicate SweepOk(s: Replica) {
    && (s.sweepActive ==> s.sweep.Some?)
    && (s.sweepActive ==> s.activeGeneration == s.completedGeneration + 1)
    && (s.sweep.Some? ==>
          s.sweep.value.generation == s.completedGeneration + 1 && s.sweep.value.snapshot <= s.deleted)
  }

  /** How far a video is, from the number of error-free sweeps that covered it. */
  predicate RecordOk(s: Replica, v: VideoId)
    requires v in s.records && v in s.clean
  {
    var r := s.records[v];
    && r.required <= s.completedGeneration + 2
    && r.completed == (if s.clean[v] == 0 then 0 else s.completedGeneration)
    && (s.clean[v] == 0 ==> r.required >= s.completedGeneration + 1 && r.state != Converged)
    && (s.clean[v] == 1 ==> r.required <= s.completedGeneration + 1)
    && (s.clean[v] >= 2 ==> r.required <= s.completedGeneration)
    && (r.state == Converged <==> r.required <= s.completedGeneration && !s.lastError)
    && (s.sweepActive && s.sweep.Some? && v !in s.sweep.value.snapshot ==>
          s.clean[v] == 0 && r.required == s.completedGeneration + 2)
    && (s.sweep.Some? && v !in s.sweep.value.snapshot ==> s.clean[v] == 0)
  }

  predicate Inv(s: Replica) {
    && s.records.Keys == s.deleted && s.clean.Keys == s.deleted
    && SweepOk(s)
    && forall v :: v in s.records ==> RecordOk(s, v)
  }

  lemma StepKeepsInv(s: Replica, a: Action)
    requires Inv(s) && Can(s, a)
    ensures Inv(Do(s, a))
  {
    var t := Do(s, a);
    assert t.records.Keys == t.deleted && t.clean.Keys == t.deleted;
    forall v | v in t.records
      ensures RecordOk(t, v)
    {
      assert v in s.records ==> RecordOk(s, v);
    }
  }

  ghost predicate Step(s: Replica, t: Replica) {
    exists a :: Can(s, a) && t == Do(s, a)
  }

  ghost predicate Run(states: seq<Replica>) {
    && states != [] && states[0] == STARTED
    && forall i :: 0 < i < |states| ==> Step(states[i - 1], states[i])
  }

  lemma {:induction false} RunsKeepInv(states: seq<Replica>, k: nat)
    requires Run(states) && k < |states|
    ensures Inv(states[k])
  {
    if k > 0 {
      RunsKeepInv(states, k - 1);
      assert Step(states[k - 1], states[k]);
      var a :| Can(states[k - 1], a) && states[k] == Do(states[k - 1], a);
      StepKeepsInv(states[k - 1], a);
    }
  }

  /** In every run: no video waits for more than two generations, a converged video has been in
      the snapshot of an error-free sweep, and it is converged exactly if the generation it waits
      for is over and the last finished sweep did not fail. */
  lemma GenerationsTellTheTruth(states: seq<Replica>, k: nat, v: VideoId)
    requires Run(states) && k < |states| && v in states[k].records
    ensures var s, r := states[k], states[k].records[v];
            && v in s.clean && r.required <= s.completedGeneration + 2
            && (r.state == Converged ==> s.clean[v] >= 1)
            && (r.state == Converged <==> r.required <= s.completedGeneration && !s.lastError)
            && (s.clean[v] >= 2 ==> r.required <= s.completedGeneration)
  {
    RunsKeepInv(states, k);
    assert RecordOk(states[k], v);
  }

  /** The end of an error-free sweep that held the video: the second such sweep converges it
      whatever failed in between, the first one exactly if the video was not registered while an
      earlier sweep, which then failed, was running. */
  lemma CleanSweepConverges(s: Replica, v: VideoId)
    requires Inv(s) && Can(s, DoSucceed) && v in s.sweep.value.snapshot
    ensures var t := Do(s, DoSucceed);
            && v in t.records && t.clean[v] == s.clean[v] + 1
            && (t.records[v].state == Converged <==> s.records[v].required <= s.completedGeneration + 1)
            && (t.clean[v] >= 2 ==> t.records[v].state == Converged)
  {
    assert RecordOk(s, v);
    StepKeepsInv(s, DoSucceed);
    assert RecordOk(Succeed(s), v);
  }

  /** A registration during a running sweep asks for the sweep after it, any other one for the
      next sweep; what the running sweep does decides whether one more sweep is enough. */
  lemma OneSweepOrTwo(s: Replica, v: VideoId, fails: bool)
    requires Inv(s) && v !in s.records && s.sweepActive
    ensures var t := Do(s, DoRegister(v));
            Can(t, DoFail) && Can(t, DoSucceed) &&
            var u := Do(t, if fails then DoFail else DoSucceed);
            && v in u.records && v !in t.sweep.value.snapshot
            && u.records[v].required == u.completedGeneration + (if fails then 2 else 1)
  {
    assert v !in s.deleted;
  }

  /** Converged is not for good: a later sweep that fails takes it back. */
  lemma ConvergedCanRegress(v: VideoId)
    ensures var s := Do(Do(Do(STARTED, DoRegister(v)), DoBegin), DoSucceed);
            && s.records[v].state == Converged
            && Do(Do(s, DoBegin), DoFail).records[v].state == Retrying
  {
    var r := Register(STARTED, v);
    assert v in r.deleted;
    var s := Succeed(Begin(r));
    assert v in s.deleted;
  }

  // ---- The tombstone root -----------------------------------------------------------------

  /** What is at the tombstone root of one process at one moment: the volume all replicas share,
      or, when that is not mounted, nothing, something unusable, or a directory of this
      container alone, which `MkdirAll` and the mount point itself both leave there. */
  datatype Root = Absent | NotADirectory | Unreachable | OtherDirectory | SharedVolume
  {
    predicate IsDirectory() {
      OtherDirectory? || SharedVolume?
    }
  }

  /** `regular` are the tombstones; `strange` are names of videos that are something else. */
  datatype Directory = Directory(regular: set<VideoId>, strange: set<VideoId>)

  const EMPTY := Directory({}, {})

  datatype Lstat = RegularFile | OtherFile | NotExist | Failed

  function LstatIn(d: Directory, v: VideoId): Lstat {
    if v in d.regular then RegularFile else if v in d.strange then OtherFile else NotExist
  }

  function LstatTombstone(at: Root, shared: Directory, other: Directory, v: VideoId): Lstat {
    match at
    case Absent => NotExist
    case NotADirectory => Failed
    case Unreachable => Failed
    case OtherDirectory => LstatIn(other, v)
    case SharedVolume => LstatIn(shared, v)
  }

  datatype Answer = Revoked | NotRevoked | Unavailable

  /** `lookupRevoked`: the root is looked at when the tombstone is, and again after an ENOENT. */
  function Lookup(s: Replica, shared: Directory, other: Directory, atLstat: Root, atStat: Root, v: VideoId): Answer {
    if v in s.deleted then Revoked
    else match LstatTombstone(atLstat, shared, other, v)
      case RegularFile => Revoked
      case OtherFile => Unavailable
      case Failed => Unavailable
      case NotExist => if atStat.IsDirectory() then NotRevoked else Unavailable
  }

  // ---- All replicas over one volume --------------------------------------------------------

  /** A handler of `purge` that has its tombstone and has not answered yet; `durable` if the
      tombstone is on the shared volume. */
  datatype Handler = Handler(replica: nat, video: VideoId, durable: bool)

  /** `acknowledged` and `durable` are history: all acknowledged revocations, and those whose
      tombstone went to the shared volume. */
  datatype World = World(
    shared: Directory,
    others: map<nat, Directory>,
    replicas: map<nat, Replica>,
    handlers: set<Handler>,
    acknowledged: set<VideoId>,
    durable: set<VideoId>)

  function Other(w: World, id: nat): Directory {
    if id in w.others then w.others[id] else EMPTY
  }

  function Contents(w: World, id: nat, root: Root): Directory {
    if root.SharedVolume? then w.shared else Other(w, id)
  }

  datatype Move =
    // `newCachePurger`, with whatever directory is at the root.
    | Start(id: nat, root: Root)
    | Crash(id: nat)
    // A new container in the place of a stopped one.
    | Renew(id: nat)
    // `writeTombstone`: it may fail after the tombstone has got its name.
    | Write(id: nat, root: Root, video: VideoId, ok: bool)
    | Acknowledge(handler: Handler)
    // `lookupRevoked` and `loadTombstones` register what they find at the root.
    | Discover(id: nat, root: Root, video: VideoId)
    | Reconcile(id: nat, action: Action)
    | Clutter(id: nat, root: Root, video: VideoId)

  predicate Enabled(w: World, m: Move) {
    match m
    case Start(id, root) => id !in w.replicas && root.IsDirectory() && Contents(w, id, root).strange == {}
    case Crash(id) => id in w.replicas
    case Renew(id) => id !in w.replicas
    case Write(id, root, v, _) => id in w.replicas && root.IsDirectory() && v !in Contents(w, id, root).strange
    case Acknowledge(h) => h in w.handlers && h.replica in w.replicas
    case Discover(id, root, v) => id in w.replicas && root.IsDirectory() && v in Contents(w, id, root).regular
    case Reconcile(id, a) => id in w.replicas && !a.DoRegister? && Can(w.replicas[id], a)
    case Clutter(id, root, v) => root.IsDirectory() && v !in Contents(w, id, root).regular
  }

  /** A process that has loaded these tombstones and nothing else. */
  function Booted(names: set<VideoId>): Replica {
    STARTED.(deleted := names,
             records := map v | v in names :: Record(Pending, 1, 0),
             clean := map v | v in names :: 0)
  }

  function WithContents(w: World, id: nat, root: Root, d: Directory): World {
    if root.SharedVolume? then w.(shared := d) else w.(others := w.others[id := d])
  }

  function Apply(w: World, m: Move): World
    requires Enabled(w, m)
  {
    match m
    case Start(id, root) => w.(replicas := w.replicas[id := Booted(Contents(w, id, root).regular)])
    case Crash(id) =>
      w.(replicas := w.replicas - {id}, handlers := set h | h in w.handlers && h.replica != id)
    case Renew(id) => w.(others := w.others - {id})
    case Write(id, root, v, ok) =>
      var d := Contents(w, id, root);
      WithContents(w, id, root, d.(regular := d.regular + {v}))
        .(handlers := if ok then w.handlers + {Handler(id, v, root.SharedVolume?)} else w.handlers)
    case Acknowledge(h) =>
      w.(replicas := w.replicas[h.replica := Register(w.replicas[h.replica], h.video)],
         handlers := w.handlers - {h}, acknowledged := w.acknowledged + {h.video},
         durable := if h.durable then w.durable + {h.video} else w.durable)
    case Discover(id, _, v) => w.(replicas := w.replicas[id := Register(w.replicas[id], v)])
    case Reconcile(id, a) => w.(replicas := w.replicas[id := Do(w.replicas[id], a)])
    case Clutter(id, root, v) =>
      var d := Contents(w, id, root);
      WithContents(w, id, root, d.(strange := d.strange + {v}))
  }

  predicate WorldInv(w: World) {
    && w.shared.regular !! w.shared.strange
    && w.durable <= w.acknowledged && w.durable <= w.shared.regular
    && (forall h :: h in w.handlers && h.durable ==> h.video in w.shared.regular)
    && (forall id :: id in w.replicas ==> Inv(w.replicas[id]))
  }

  lemma MoveKeepsInv(w: World, m: Move)
    requires WorldInv(w) && Enabled(w, m)
    ensures WorldInv(Apply(w, m))
    ensures w.durable <= Apply(w, m).durable && w.shared.regular <= Apply(w, m).shared.regular
    ensures w.acknowledged <= Apply(w, m).acknowledged
  {
    match m {
      case Acknowledge(h) => StepKeepsInv(w.replicas[h.replica], DoRegister(h.video));
      case Discover(id, _, v) => StepKeepsInv(w.replicas[id], DoRegister(v));
      case Reconcile(id, a) => StepKeepsInv(w.replicas[id], a);
      case _ =>
    }
  }

  ghost predicate WorldStep(w: World, x: World) {
    exists m :: Enabled(w, m) && x == Apply(w, m)
  }

  const DAWN := World(EMPTY, map[], map[], {}, {}, {})

  ghost predicate WorldRun(worlds: seq<World>) {
    && worlds != [] && worlds[0] == DAWN
    && forall i :: 0 < i < |worlds| ==> WorldStep(worlds[i - 1], worlds[i])
  }

  lemma {:induction false} WorldRunsKeepInv(worlds: seq<World>, j: nat, k: nat)
    requires WorldRun(worlds) && j <= k < |worlds|
    ensures WorldInv(worlds[k]) && worlds[j].durable <= worlds[k].durable
    ensures worlds[j].acknowledged <= worlds[k].acknowledged
    decreases k
  {
    if k > 0 {
      WorldRunsKeepInv(worlds, if j < k then j else k - 1, k - 1);
      assert WorldStep(worlds[k - 1], worlds[k]);
      var m :| Enabled(worlds[k - 1], m) && worlds[k] == Apply(worlds[k - 1], m);
      MoveKeepsInv(worlds[k - 1], m);
    }
  }

  /** The first look finds no tombstone: with nothing at the root, or in a directory without it,
      be it the container's own or, for a revocation that never got there, the shared volume. */
  predicate Unmarked(at: Root, shared: Directory, other: Directory, v: VideoId) {
    || at == Absent
    || (at == OtherDirectory && v !in other.regular && v !in other.strange)
    || (at == SharedVolume && v !in shared.regular && v !in shared.strange)
  }

  /** A revocation that some replica acknowledged, at any later time and over restarts of all
      replicas: a guard admits the video exactly if it does not know of it itself, finds no
      tombstone where it looks, and then finds a directory, whichever it is, when it verifies the
      root. If the tombstone went to the shared volume, it does find it where that is mounted. */
  lemma AcknowledgedIsFinal(worlds: seq<World>, j: nat, k: nat, id: nat, v: VideoId, atLstat: Root, atStat: Root)
    requires WorldRun(worlds) && j <= k < |worlds|
    requires v in worlds[j].acknowledged && id in worlds[k].replicas
    ensures var w := worlds[k]; var other := Other(w, id);
            && v in w.acknowledged
            && (Lookup(w.replicas[id], w.shared, other, atLstat, atStat, v) == NotRevoked <==>
                  v !in w.replicas[id].deleted && atStat.IsDirectory() && Unmarked(atLstat, w.shared, other, v))
            && (v in worlds[j].durable && Unmarked(atLstat, w.shared, other, v) ==> !atLstat.SharedVolume?)
  {
    WorldRunsKeepInv(worlds, j, k);
  }

  /** What a process knows it knows until it dies, and one that starts with the volume mounted
      knows every revocation acknowledged there: it admits none of them, whatever becomes of the
      volume later. */
  lemma KnownStaysKnown(w: World, m: Move, id: nat, v: VideoId)
    requires WorldInv(w) && Enabled(w, m) && id in w.replicas && v in w.replicas[id].deleted && m != Crash(id)
    ensures id in Apply(w, m).replicas && v in Apply(w, m).replicas[id].deleted
  {
  }

  lemma StartedOnTheVolumeKnows(w: World, id: nat, v: VideoId)
    requires WorldInv(w) && Enabled(w, Start(id, SharedVolume)) && v in w.durable
    ensures v in Apply(w, Start(id, SharedVolume)).replicas[id].deleted
  {
  }

  // ---- Where that leaves a revoked video open -----------------------------------------------

  predicate LegalMoves(w: World, moves: seq<Move>)
    decreases |moves|
  {
    moves == [] || (Enabled(w, moves[0]) && LegalMoves(Apply(w, moves[0]), moves[1..]))
  }

  function AfterMoves(w: World, moves: seq<Move>): World
    requires LegalMoves(w, moves)
    decreases |moves|
  {
    if moves == [] then w else AfterMoves(Apply(w, moves[0]), moves[1..])
  }

  /** A video is revoked and acknowledged, its tombstone on the volume; the replica restarts while
      the volume is not mounted. Its guard admits the video. */
  lemma RestartWithoutVolumeAdmits(id: nat, v: VideoId)
    ensures var moves := [Start(id, SharedVolume), Write(id, SharedVolume, v, true), Acknowledge(Handler(id, v, true)),
                          Crash(id), Start(id, OtherDirectory)];
            && LegalMoves(DAWN, moves)
            && var w := AfterMoves(DAWN, moves);
               && v in w.durable && id in w.replicas
               && Lookup(w.replicas[id], w.shared, Other(w, id), OtherDirectory, OtherDirectory, v) == NotRevoked
  {
    var w1 := Apply(DAWN, Start(id, SharedVolume));
    var w2 := Apply(w1, Write(id, SharedVolume, v, true));
    var w3 := Apply(w2, Acknowledge(Handler(id, v, true)));
    var w4 := Apply(w3, Crash(id));
    var w5 := Apply(w4, Start(id, OtherDirectory));
    OneMoreMove(w4, Start(id, OtherDirectory), []);
    OneMoreMove(w3, Crash(id), [Start(id, OtherDirectory)]);
    OneMoreMove(w2, Acknowledge(Handler(id, v, true)), [Crash(id), Start(id, OtherDirectory)]);
    OneMoreMove(w1, Write(id, SharedVolume, v, true),
                [Acknowledge(Handler(id, v, true)), Crash(id), Start(id, OtherDirectory)]);
    OneMoreMove(DAWN, Start(id, SharedVolume),
                [Write(id, SharedVolume, v, true), Acknowledge(Handler(id, v, true)), Crash(id), Start(id, OtherDirectory)]);
  }

  lemma OneMoreMove(w: World, m: Move, rest: seq<Move>)
    requires Enabled(w, m) && LegalMoves(Apply(w, m), rest)
    ensures LegalMoves(w, [m] + rest) && AfterMoves(w, [m] + rest) == AfterMoves(Apply(w, m), rest)
  {
    assert ([m] + rest)[1..] == rest;
  }

  /** A revocation taken while the volume is not mounted is acknowledged too, and no replica with
      the volume mounted knows of it. */
  lemma RevokedWithoutVolumeIsLost(id: nat, watcher: nat, v: VideoId)
    requires id != watcher
    ensures var moves := [Start(id, OtherDirectory), Write(id, OtherDirectory, v, true),
                          Acknowledge(Handler(id, v, false)), Start(watcher, SharedVolume)];
            && LegalMoves(DAWN, moves)
            && var w := AfterMoves(DAWN, moves);
               && v in w.acknowledged && watcher in w.replicas
               && Lookup(w.replicas[watcher], w.shared, Other(w, watcher), SharedVolume, SharedVolume, v) == NotRevoked
  {
    var w1 := Apply(DAWN, Start(id, OtherDirectory));
    var w2 := Apply(w1, Write(id, OtherDirectory, v, true));
    var w3 := Apply(w2, Acknowledge(Handler(id, v, false)));
    OneMoreMove(w3, Start(watcher, SharedVolume), []);
    OneMoreMove(w2, Acknowledge(Handler(id, v, false)), [Start(watcher, SharedVolume)]);
    OneMoreMove(w1, Write(id, OtherDirectory, v, true),
                [Acknowledge(Handler(id, v, false)), Start(watcher, SharedVolume)]);
    OneMoreMove(DAWN, Start(id, OtherDirectory),
                [Write(id, OtherDirectory, v, true), Acknowledge(Handler(id, v, false)), Start(watcher, SharedVolume)]);
  }

  /** What a process wrote into the directory of its container it finds again when it restarts
      there, and not in a new container. */
  lemma OwnDirectoryIsKept(w: World, id: nat, v: VideoId)
    requires Enabled(w, Write(id, OtherDirectory, v, true)) && Other(w, id).strange == {}
    ensures var restart := [Write(id, OtherDirectory, v, true), Crash(id), Start(id, OtherDirectory)];
            LegalMoves(w, restart) && id in AfterMoves(w, restart).replicas &&
            v in AfterMoves(w, restart).replicas[id].deleted
    ensures var renewal := [Write(id, OtherDirectory, v, true), Crash(id), Renew(id), Start(id, OtherDirectory)];
            LegalMoves(w, renewal) && id in AfterMoves(w, renewal).replicas &&
            AfterMoves(w, renewal).replicas[id].deleted == {}
  {
    var w1 := Apply(w, Write(id, OtherDirectory, v, true));
    var w2 := Apply(w1, Crash(id));
    var w3 := Apply(w2, Renew(id));
    OneMoreMove(w2, Start(id, OtherDirectory), []);
    OneMoreMove(w1, Crash(id), [Start(id, OtherDirectory)]);
    OneMoreMove(w, Write(id, OtherDirectory, v, true), [Crash(id), Start(id, OtherDirectory)]);
    OneMoreMove(w3, Start(id, OtherDirectory), []);
    OneMoreMove(w2, Renew(id), [Start(id, OtherDirectory)]);
    OneMoreMove(w1, Crash(id), [Renew(id), Start(id, OtherDirectory)]);
    OneMoreMove(w, Write(id, OtherDirectory, v, true), [Crash(id), Renew(id), Start(id, OtherDirectory)]);
  }

  /** One sweep without errors in a replica between two sweeps that knows the video. */
  lemma SweptByReplica(w: World, id: nat, v: VideoId) returns (t: World)
    requires id in w.replicas && Inv(w.replicas[id]) && w.replicas[id].sweep.None? && v in w.replicas[id].deleted
    ensures LegalMoves(w, [Reconcile(id, DoBegin), Reconcile(id, DoSucceed)])
    ensures t == AfterMoves(w, [Reconcile(id, DoBegin), Reconcile(id, DoSucceed)])
    ensures id in t.replicas && Inv(t.replicas[id]) && t.replicas[id].sweep.None? && v in t.replicas[id].deleted
    ensures v in w.replicas[id].clean && v in t.replicas[id].clean && v in t.replicas[id].records
    ensures t.replicas[id].clean[v] == w.replicas[id].clean[v] + 1
    ensures t.replicas[id].clean[v] >= 2 ==> t.replicas[id].records[v].state == Converged
  {
    var s := w.replicas[id];
    var begun := Do(s, DoBegin);
    StepKeepsInv(s, DoBegin);
    CleanSweepConverges(begun, v);
    StepKeepsInv(begun, DoSucceed);
    var w1 := Apply(w, Reconcile(id, DoBegin));
    t := Apply(w1, Reconcile(id, DoSucceed));
    OneMoreMove(w1, Reconcile(id, DoSucceed), []);
    OneMoreMove(w, Reconcile(id, DoBegin), [Reconcile(id, DoSucceed)]);
  }

  /** A tombstone on the volume can be taken up by any replica at any time, and two sweeps without
      errors make it converge there. */
  lemma ReplicasConverge(w: World, id: nat, v: VideoId) returns (t: World)
    requires id in w.replicas && Inv(w.replicas[id]) && w.replicas[id].sweep.None? && v in w.shared.regular
    ensures var sweep := [Reconcile(id, DoBegin), Reconcile(id, DoSucceed)];
            var moves := [Discover(id, SharedVolume, v)] + (sweep + sweep);
            LegalMoves(w, moves) && t == AfterMoves(w, moves)
    ensures id in t.replicas && v in t.replicas[id].records && t.replicas[id].records[v].state == Converged
  {
    var sweep := [Reconcile(id, DoBegin), Reconcile(id, DoSucceed)];
    StepKeepsInv(w.replicas[id], DoRegister(v));
    var w1 := Apply(w, Discover(id, SharedVolume, v));
    var w2 := SweptByReplica(w1, id, v);
    t := SweptByReplica(w2, id, v);
    MovesThenMoves(w1, sweep, sweep);
    OneMoreMove(w, Discover(id, SharedVolume, v), sweep + sweep);
  }

  lemma {:induction false} MovesThenMoves(w: World, first: seq<Move>, second: seq<Move>)
    requires LegalMoves(w, first) && LegalMoves(AfterMoves(w, first), second)
    ensures LegalMoves(w, first + second) && AfterMoves(w, first + second) == AfterMoves(AfterMoves(w, first), second)
    decreases |first|
  {
    if first == [] {
      assert first + second == second;
    } else {
      assert (first + second)[1..] == first[1..] + second;
      MovesThenMoves(Apply(w, first[0]), first[1..], second);
    }
  }

  /** Anything but a tombstone in the place of one can get there, and then this video cannot be
      revoked there, and no process starts there. */
  lemma StrangeFilesAreRefused(w: World, id: nat, root: Root, v: VideoId, ok: bool)
    requires root.IsDirectory() && v !in Contents(w, id, root).regular
    ensures Enabled(w, Clutter(id, root, v))
    ensures var t := Apply(w, Clutter(id, root, v)); !Enabled(t, Write(id, root, v, ok)) && !Enabled(t, Start(id, root))
  {
    assert v in Contents(Apply(w, Clutter(id, root, v)), id, root).strange;
  }

  // ---- The guard ------------------------------------------------------------------------------

  datatype Response = Forbidden | Unchecked | Pass

  function Respond(
    s: Replica, shared: Directory, other: Directory, atLstat: Root, atStat: Root, video: Option<VideoId>): Response
  {
    match video
    case None => Forbidden
    case Some(v) =>
      match Lookup(s, shared, other, atLstat, atStat, v)
      case Revoked => Forbidden
      case Unavailable => Unchecked
      case NotRevoked => Pass
  }

  /** `guard`: what nginx is told for a request URI. */
  function Guard(s: Replica, shared: Directory, other: Directory, atLstat: Root, atStat: Root, uri: string): Response
    requires CachePaths.Bytes(uri)
  {
    Respond(s, shared, other, atLstat, atStat, CachePaths.GuardVideo(uri))
  }

  /** A request that names no video is forbidden, and so is one for a video that the process knows
      to be revoked, or whose tombstone it finds; while the root is no directory nothing passes. */
  lemma RevokedIsForbidden(
    s: Replica, shared: Directory, other: Directory, atLstat: Root, atStat: Root, video: Option<VideoId>)
    ensures var response := Respond(s, shared, other, atLstat, atStat, video);
            && (video.None? || video.value in s.deleted ==> response == Forbidden)
            && (video.Some? && atLstat.SharedVolume? && video.value in shared.regular ==> response == Forbidden)
            && (video.Some? && video.value !in s.deleted && !atLstat.IsDirectory() && !atStat.IsDirectory() ==>
                  response == Unchecked)
  {
  }

  /** The same for the guard and every URI: one that it reads as the video, however spelled,
      passes exactly in that case. */
  lemma NoSpellingPasses(
    worlds: seq<World>, j: nat, k: nat, id: nat, v: VideoId, uri: string, atLstat: Root, atStat: Root)
    requires WorldRun(worlds) && j <= k < |worlds|
    requires v in worlds[j].acknowledged && id in worlds[k].replicas
    requires CachePaths.Bytes(uri) && CachePaths.GuardVideo(uri) == Some(v)
    ensures var w := worlds[k]; var other := Other(w, id);
            && (Guard(w.replicas[id], w.shared, other, atLstat, atStat, uri) == Pass <==>
                  v !in w.replicas[id].deleted && atStat.IsDirectory() && Unmarked(atLstat, w.shared, other, v))
            && (v in worlds[j].durable && atLstat.SharedVolume? ==>
                  Guard(w.replicas[id], w.shared, other, atLstat, atStat, uri) != Pass)
  {
    AcknowledgedIsFinal(worlds, j, k, id, v, atLstat, atStat);
  }
}
