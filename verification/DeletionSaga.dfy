/** Deleting a video while uploads, ingestion and packaging of the same video go on.

    One video, any number of request handlers and workers, every store call and every short
    transaction a separate step. The fences are a per-video lease in the database (shared
    for uploads, exclusive for a deletion), the lock on the video row, and the durable
    `deleting` status that a deletion commits before it removes anything. */
module DeletionSaga {

  datatype Row = NotCreated | Live | Deleting | Gone

  /** Below the video's prefix in one bucket: objects, and incomplete multipart uploads with
      the size they would complete to. */
  datatype Store = Store(objects: map<nat, nat>, uploads: map<nat, nat>)

  const RAW: nat := 0
  const HLS: nat := 1
  const THUMBNAILS: nat := 2
  const BUCKETS: nat := 3

  datatype RecordStatus = Created | Completing | PendingEvent | EventPublished

  /** The session record in Redis. Session, object and upload id are one number here: each
      session names its own object and its own upload. */
  datatype Record = Record(session: nat, size: nat, status: RecordStatus)

  /** What a handler does: open a session (request read, upload started, session saved or to be
      aborted), store an object in one go, or go on with a session. */
  datatype Request =
    | NewSession
    | Opening(id: nat, size: nat)
    | Abandoned(id: nat)
    | Opened
    | DirectPut
    | OnSession(record: Record)

  /** How far `DeletePrefix` got in one bucket. */
  datatype Progress = Removing | UploadsClear | Clear | Failed

  datatype Phase =
    | Idle
    // Upload handlers: request read, lease held, video status read and found not deleting.
    | Loaded(request: Request)
    | Leased(request: Request)
    | Writing(request: Request)
    // The package task: row locked, generation checked.
    | RowForPackage(job: nat)
    | Packing(job: nat)
    // A deletion: lease held, row locked, tombstone committed, cleaning, finalizing.
    | DeleteLeased
    | DeleteRow
    | Purging
    | Cleaning(progress: seq<Progress>)
    | Cleaned
    | FinalRow

  /** `life` counts how often the row has been created; `used` has all ids of objects and
      uploads so far, with the life they belong to. */
  datatype State = State(
    row: Row,
    life: nat,
    active: set<nat>,
    stores: seq<Store>,
    tombstone: bool,
    sessions: map<nat, Record>,
    published: set<(nat, nat)>,
    used: map<nat, nat>,
    procs: seq<Phase>)

  predicate SharedLease(ph: Phase) {
    ph.Leased? || ph.Writing?
  }

  predicate ExclusiveLease(ph: Phase) {
    ph.DeleteLeased? || ph.DeleteRow? || ph.Purging? || ph.Cleaning? || ph.Cleaned? || ph.FinalRow?
  }

  predicate RowLock(ph: Phase) {
    ph.RowForPackage? || ph.Packing? || ph.DeleteRow? || ph.FinalRow?
  }

  predicate RowFree(s: State) {
    forall q :: 0 <= q < |s.procs| ==> !RowLock(s.procs[q])
  }

  predicate LeaseFree(s: State, shared: bool) {
    forall q :: 0 <= q < |s.procs| ==> !ExclusiveLease(s.procs[q]) && (shared || !SharedLease(s.procs[q]))
  }

  datatype Action =
    | CreateVideo
    // A job for a chosen video id, with a row if there is none.
    | Submit(job: nat)
    // Transactions that lock the row, check it and commit in one go.
    | AddJob(job: nat)
    | EndJob(job: nat)
    // Upload handlers.
    | Load(session: nat)
    | Ask(request: Request)
    | Lease
    | ReadStatus
    | StartUpload(id: nat, size: nat)
    | SaveSession(saved: bool, answered: bool)
    | AbortOpening(done: bool)
    | PutObject(id: nat, size: nat)
    | PutPart(total: nat)
    | MarkCompleting(saved: bool)
    | CompleteUpload
    | ConfirmStored(saved: bool)
    | PublishEvent
    | MarkPublished(saved: bool)
    | Respond
    | AbortUpload(id: nat)
    | ForgetSession(id: nat)
    // The package task.
    | LockForPackage(job: nat)
    | CheckGeneration
    | PutHls(id: nat, size: nat)
    | RemoveHls(id: nat)
    | CommitPackage(completed: bool)
    // The deletion.
    | BeginDelete
    | LockForDelete
    | CommitTombstone
    | Purge(acknowledged: bool, written: bool)
    | RemoveObject(bucket: nat, id: nat)
    | AbortIncomplete(bucket: nat, id: nat)
    | VerifyUploads(bucket: nat)
    | VerifyObjects(bucket: nat)
    | GiveUp
    | FinishCleanup
    | LockForFinalize
    | Finalize
    | Crash

  predicate FreshId(s: State, id: nat) {
    id !in s.used
  }

  predicate IsSession(ph: Phase, status: RecordStatus) {
    ph.Writing? && ph.request.OnSession? && ph.request.record.status == status
  }

  predicate Can(s: State, p: nat, a: Action) {
    p < |s.procs| && |s.stores| == BUCKETS &&
    var ph := s.procs[p];
    match a
    case CreateVideo => s.row.NotCreated?
    case Submit(_) => ph.Idle?
    case AddJob(_) => ph.Idle? && RowFree(s)
    case EndJob(_) => ph.Idle? && RowFree(s)
    case Load(session) => ph.Idle? && session in s.sessions
    case Ask(request) => ph.Idle? && (request.NewSession? || request.DirectPut?)
    case Lease => ph.Loaded?
    case ReadStatus => ph.Leased?
    case StartUpload(id, _) => ph.Writing? && ph.request.NewSession? && FreshId(s, id)
    case SaveSession(_, _) => ph.Writing? && ph.request.Opening?
    case AbortOpening(_) => ph.Writing? && ph.request.Abandoned?
    case PutObject(id, _) => ph.Writing? && ph.request.DirectPut? && FreshId(s, id)
    case PutPart(_) => IsSession(ph, Created)
    case MarkCompleting(_) => IsSession(ph, Created)
    case CompleteUpload => IsSession(ph, Completing) && ph.request.record.session in s.stores[RAW].uploads
    case ConfirmStored(_) =>
      IsSession(ph, Completing) &&
      var r := ph.request.record;
      r.session in s.stores[RAW].objects && s.stores[RAW].objects[r.session] == r.size
    case PublishEvent => IsSession(ph, PendingEvent)
    case MarkPublished(_) =>
      IsSession(ph, PendingEvent) && (ph.request.record.session, ph.request.record.size) in s.published
    case Respond => ph.Writing?
    case AbortUpload(_) => ph.Idle?
    case ForgetSession(_) => true
    case LockForPackage(_) => ph.Idle? && RowFree(s)
    case CheckGeneration => ph.RowForPackage?
    case PutHls(_, _) => ph.Packing?
    case RemoveHls(_) => ph.Packing?
    case CommitPackage(_) => ph.Packing?
    case BeginDelete => ph.Idle?
    case LockForDelete => ph.DeleteLeased? && RowFree(s)
    case CommitTombstone => ph.DeleteRow?
    case Purge(_, _) => ph.Purging?
    case RemoveObject(bucket, _) => Step(ph, bucket, Removing)
    case AbortIncomplete(bucket, _) => Step(ph, bucket, Removing)
    case VerifyUploads(bucket) => Step(ph, bucket, Removing)
    case VerifyObjects(bucket) => Step(ph, bucket, UploadsClear)
    case GiveUp => ExclusiveLease(ph)
    case FinishCleanup =>
      ph.Cleaning? && |ph.progress| == BUCKETS && forall b :: 0 <= b < BUCKETS ==> ph.progress[b] == Clear
    case LockForFinalize => ph.Cleaned? && RowFree(s)
    case Finalize => ph.FinalRow?
    case Crash => true
  }

  predicate Step(ph: Phase, bucket: nat, progress: Progress) {
    ph.Cleaning? && |ph.progress| == BUCKETS && bucket < BUCKETS && ph.progress[bucket] == progress
  }

  function To(s: State, p: nat, ph: Phase): State
    requires p < |s.procs|
  {
    s.(procs := s.procs[p := ph])
  }

  function WithStore(s: State, bucket: nat, store: Store): State
    requires bucket < |s.stores|
  {
    s.(stores := s.stores[bucket := store])
  }

  /** The record moves on in the handler, and in Redis too unless the save fails; a failed
      save ends the request. */
  function SaveRecord(s: State, p: nat, r: Record, saved: bool): State
    requires p < |s.procs|
  {
    if saved then To(s, p, Writing(OnSession(r))).(sessions := s.sessions[r.session := r]) else To(s, p, Idle)
  }

  function Do(s: State, p: nat, a: Action): State
    requires Can(s, p, a)
  {
    var ph := s.procs[p];
    var raw, hls := s.stores[RAW], s.stores[HLS];
    match a
    case CreateVideo => s.(row := Live, life := s.life + 1)
    case Submit(job) =>
      // An insert: it fails while there is a row, and knows nothing of an earlier one.
      if s.row.NotCreated? || s.row.Gone? then s.(row := Live, life := s.life + 1, active := {job}) else s
    case AddJob(job) =>
      // Ingestion and retry refuse a missing row and a tombstoned one.
      if s.row.Live? then s.(active := s.active + {job}) else s
    case EndJob(job) => s.(active := s.active - {job})
    case Load(session) => To(s, p, Loaded(OnSession(s.sessions[session])))
    case Ask(request) => To(s, p, Loaded(request))
    case Lease => To(s, p, if LeaseFree(s, true) then Leased(ph.request) else Idle)
    case ReadStatus => To(s, p, if s.row.Live? then Writing(ph.request) else Idle)
    case StartUpload(id, size) =>
      To(WithStore(s, RAW, raw.(uploads := raw.uploads[id := 0])), p, Writing(Opening(id, size)))
        .(used := s.used[id := s.life])
    case SaveSession(saved, answered) =>
      // The answer to a save that went through may be lost.
      var Opening(id, size) := ph.request;
      To(s, p, Writing(if saved && answered then Opened else Abandoned(id)))
        .(sessions := if saved then s.sessions[id := Record(id, size, Created)] else s.sessions)
    case AbortOpening(done) =>
      To(if done then WithStore(s, RAW, raw.(uploads := raw.uploads - {ph.request.id})) else s, p, Idle)
    case PutObject(id, size) =>
      WithStore(s, RAW, raw.(objects := raw.objects[id := size])).(used := s.used[id := s.life])
    case PutPart(total) =>
      var id := ph.request.record.session;
      if id in raw.uploads then WithStore(s, RAW, raw.(uploads := raw.uploads[id := total])) else s
    case MarkCompleting(saved) => SaveRecord(s, p, ph.request.record.(status := Completing), saved)
    case CompleteUpload =>
      var id := ph.request.record.session;
      WithStore(s, RAW, Store(raw.objects[id := raw.uploads[id]], raw.uploads - {id}))
    case ConfirmStored(saved) => SaveRecord(s, p, ph.request.record.(status := PendingEvent), saved)
    case PublishEvent =>
      s.(published := s.published + {(ph.request.record.session, ph.request.record.size)})
    case MarkPublished(saved) => SaveRecord(s, p, ph.request.record.(status := EventPublished), saved)
    case Respond => To(s, p, Idle)
    case AbortUpload(id) => WithStore(s, RAW, raw.(uploads := raw.uploads - {id}))
    case ForgetSession(id) => s.(sessions := s.sessions - {id})
    case LockForPackage(job) => To(s, p, RowForPackage(job))
    case CheckGeneration => To(s, p, if s.row.Live? && ph.job in s.active then Packing(ph.job) else Idle)
    case PutHls(id, size) => WithStore(s, HLS, hls.(objects := hls.objects[id := size]))
    case RemoveHls(id) => WithStore(s, HLS, hls.(objects := hls.objects - {id}))
    case CommitPackage(completed) =>
      To(s, p, Idle).(active := if completed then s.active - {ph.job} else s.active)
    case BeginDelete => To(s, p, if LeaseFree(s, false) then DeleteLeased else Idle)
    case LockForDelete => To(s, p, DeleteRow)
    case CommitTombstone =>
      if (s.row.Live? || s.row.Deleting?) && s.active == {} then To(s, p, Purging).(row := Deleting)
      else To(s, p, Idle)
    case Purge(acknowledged, written) =>
      if acknowledged then To(s, p, Cleaning([Removing, Removing, Removing])).(tombstone := true)
      else To(s, p, Idle).(tombstone := s.tombstone || written)
    case RemoveObject(b, id) => WithStore(s, b, s.stores[b].(objects := s.stores[b].objects - {id}))
    case AbortIncomplete(b, id) => WithStore(s, b, s.stores[b].(uploads := s.stores[b].uploads - {id}))
    case VerifyUploads(b) =>
      To(s, p, Cleaning(ph.progress[b := if s.stores[b].uploads == map[] then UploadsClear else Failed]))
    case VerifyObjects(b) =>
      To(s, p, Cleaning(ph.progress[b := if s.stores[b].objects == map[] then Clear else Failed]))
    case GiveUp => To(s, p, Idle)
    case FinishCleanup => To(s, p, Cleaned)
    case LockForFinalize => To(s, p, FinalRow)
    case Finalize =>
      if s.row.Deleting? && s.active == {} then To(s, p, Idle).(row := Gone, active := {}) else To(s, p, Idle)
    case Crash => To(s, p, Idle)
  }

  // ---- Runs -------------------------------------------------------------------------

  datatype Move = Move(p: nat, action: Action)

  function Initial(n: nat): State {
    State(NotCreated, 0, {}, [Store(map[], map[]), Store(map[], map[]), Store(map[], map[])], false, map[], {}, map[],
          seq(n, _ => Idle))
  }

  predicate Legal(s: State, run: seq<Move>)
    decreases |run|
  {
    run == [] || (Can(s, run[0].p, run[0].action) && Legal(Do(s, run[0].p, run[0].action), run[1..]))
  }

  function After(s: State, run: seq<Move>): State
    requires Legal(s, run)
    decreases |run|
  {
    if run == [] then s else After(Do(s, run[0].p, run[0].action), run[1..])
  }

  // ---- Invariant --------------------------------------------------------------------

  predicate Empty(st: Store) {
    st.objects == map[] && st.uploads == map[]
  }

  /** The object of this session is stored, at this size, unless a deletion has begun since. */
  predicate Stored(s: State, session: nat, size: nat)
    requires |s.stores| == BUCKETS
  {
    session in s.used &&
    (s.row.Live? && s.used[session] == s.life ==> session in s.stores[RAW].objects && s.stores[RAW].objects[session] == size)
  }

  predicate RequestSound(s: State, r: Request)
    requires |s.stores| == BUCKETS
  {
    (r.Opening? ==> r.id in s.used) && (r.OnSession? ==> RecordSound(s, r.record))
  }

  predicate RecordSound(s: State, r: Record)
    requires |s.stores| == BUCKETS
  {
    r.session in s.used &&
    (r.status.PendingEvent? || r.status.EventPublished? ==> Stored(s, r.session, r.size))
  }

  predicate PhaseSound(s: State, ph: Phase)
    requires |s.stores| == BUCKETS
  {
    && (ph.Writing? ==> s.row.Live?)
    && (ph.Packing? ==> s.row.Live? && ph.job in s.active)
    && (ph.Loaded? || ph.Leased? || ph.Writing? ==> RequestSound(s, ph.request))
    && (ph.Purging? || ph.Cleaning? || ph.Cleaned? || ph.FinalRow? ==> s.row.Deleting?)
    && (ph.Cleaning? || ph.Cleaned? || ph.FinalRow? ==> s.tombstone)
    && (ph.Cleaning? ==> |ph.progress| == BUCKETS && forall b :: 0 <= b < BUCKETS ==>
          (ph.progress[b].UploadsClear? || ph.progress[b].Clear? ==> s.stores[b].uploads == map[]) &&
          (ph.progress[b].Clear? ==> s.stores[b].objects == map[]))
    && (ph.Cleaned? || ph.FinalRow? ==> forall b :: 0 <= b < BUCKETS ==> Empty(s.stores[b]))
  }

  predicate OfThisLife(s: State, id: nat) {
    id in s.used && s.used[id] == s.life
  }

  ghost predicate Locks(s: State) {
    forall p, q :: 0 <= p < |s.procs| && 0 <= q < |s.procs| && p != q ==>
      !(RowLock(s.procs[p]) && RowLock(s.procs[q])) &&
      (ExclusiveLease(s.procs[p]) ==> !ExclusiveLease(s.procs[q]) && !SharedLease(s.procs[q]))
  }

  ghost predicate Data(s: State)
    requires |s.stores| == BUCKETS
  {
    && (s.row.Deleting? || s.row.Gone? || s.row.NotCreated? ==> s.active == {})
    && (s.row.NotCreated? ==> s.used == map[])
    && (forall id :: id in s.used ==> s.used[id] <= s.life)
    && (s.row.Gone? ==> s.tombstone && forall b :: 0 <= b < BUCKETS ==> Empty(s.stores[b]))
    && (forall id :: id in s.stores[RAW].objects ==> OfThisLife(s, id) && id !in s.stores[RAW].uploads)
    && (forall id :: id in s.stores[RAW].uploads ==> OfThisLife(s, id))
    && (forall id :: id in s.sessions ==> s.sessions[id].session == id && RecordSound(s, s.sessions[id]))
    && (forall e :: e in s.published ==> Stored(s, e.0, e.1))
  }

  ghost predicate Inv(s: State) {
    && |s.stores| == BUCKETS
    && Locks(s)
    && Data(s)
    && forall p :: 0 <= p < |s.procs| ==> PhaseSound(s, s.procs[p])
  }

  /** Which of the protocols an action belongs to. */
  datatype Kind = Creating | Handling | Starting | Uploading | Completion | Announcing | Packaging | Removal | Sweeping

  function KindOf(a: Action): Kind {
    match a
    case CreateVideo | Submit(_) | AddJob(_) | EndJob(_) => Creating
    case Load(_) | Ask(_) | Lease | ReadStatus | Respond | Crash => Handling
    case StartUpload(_, _) | SaveSession(_, _) | AbortOpening(_) => Starting
    case PutObject(_, _) | PutPart(_) | AbortUpload(_) | ForgetSession(_) => Uploading
    case MarkCompleting(_) | CompleteUpload => Completion
    case ConfirmStored(_) | PublishEvent | MarkPublished(_) => Announcing
    case LockForPackage(_) | CheckGeneration | PutHls(_, _) | RemoveHls(_) | CommitPackage(_) => Packaging
    case BeginDelete | LockForDelete | CommitTombstone | Purge(_, _) | GiveUp => Removal
    case FinishCleanup | LockForFinalize | Finalize => Removal
    case RemoveObject(_, _) | AbortIncomplete(_, _) | VerifyUploads(_) | VerifyObjects(_) => Sweeping
  }

  /** A step takes a lock or a lease only where nobody stands in the way. */
  predicate TakenFree(s: State, t: State, p: nat) {
    && p < |s.procs| == |t.procs| && t.procs == s.procs[p := t.procs[p]]
    && (RowLock(t.procs[p]) ==> RowLock(s.procs[p]) || RowFree(s))
    && (ExclusiveLease(t.procs[p]) ==> ExclusiveLease(s.procs[p]) || LeaseFree(s, false))
    && (SharedLease(t.procs[p]) ==> SharedLease(s.procs[p]) || LeaseFree(s, true))
  }

  lemma CreatingTakesFree(s: State, p: nat, a: Action)
    requires Can(s, p, a) && KindOf(a).Creating?
    ensures TakenFree(s, Do(s, p, a), p)
  {
  }

  lemma HandlingTakesFree(s: State, p: nat, a: Action)
    requires Can(s, p, a) && KindOf(a).Handling?
    ensures TakenFree(s, Do(s, p, a), p)
  {
  }

  lemma UploadingTakesFree(s: State, p: nat, a: Action)
    requires Can(s, p, a) && KindOf(a).Uploading?
    ensures TakenFree(s, Do(s, p, a), p)
  {
  }

  lemma StartingTakesFree(s: State, p: nat, a: Action)
    requires Can(s, p, a) && KindOf(a).Starting?
    ensures TakenFree(s, Do(s, p, a), p)
  {
  }

  lemma CompletionTakesFree(s: State, p: nat, a: Action)
    requires Can(s, p, a) && KindOf(a).Completion?
    ensures TakenFree(s, Do(s, p, a), p)
  {
  }

  lemma AnnouncingTakesFree(s: State, p: nat, a: Action)
    requires Can(s, p, a) && KindOf(a).Announcing?
    ensures TakenFree(s, Do(s, p, a), p)
  {
  }

  lemma PackagingTakesFree(s: State, p: nat, a: Action)
    requires Can(s, p, a) && KindOf(a).Packaging?
    ensures TakenFree(s, Do(s, p, a), p)
  {
  }

  lemma RemovalTakesFree(s: State, p: nat, a: Action)
    requires Can(s, p, a) && (KindOf(a).Removal? || KindOf(a).Sweeping?)
    ensures TakenFree(s, Do(s, p, a), p)
  {
  }

  lemma LocksAreTakenFree(s: State, p: nat, a: Action)
    requires Can(s, p, a)
    ensures TakenFree(s, Do(s, p, a), p)
  {
    match KindOf(a) {
      case Creating => CreatingTakesFree(s, p, a);
      case Handling => HandlingTakesFree(s, p, a);
      case Uploading => UploadingTakesFree(s, p, a);
      case Starting => StartingTakesFree(s, p, a);
      case Completion => CompletionTakesFree(s, p, a);
      case Announcing => AnnouncingTakesFree(s, p, a);
      case Packaging => PackagingTakesFree(s, p, a);
      case Removal => RemovalTakesFree(s, p, a);
      case Sweeping => RemovalTakesFree(s, p, a);
    }
  }

  lemma LocksKept(s: State, p: nat, a: Action)
    requires Inv(s) && Can(s, p, a)
    ensures Locks(Do(s, p, a))
  {
    LocksAreTakenFree(s, p, a);
    var t := Do(s, p, a);
    forall i, j | 0 <= i < |t.procs| && 0 <= j < |t.procs| && i != j
      ensures !(RowLock(t.procs[i]) && RowLock(t.procs[j]))
      ensures ExclusiveLease(t.procs[i]) ==> !ExclusiveLease(t.procs[j]) && !SharedLease(t.procs[j])
    {
    }
  }

  lemma CreatingKeepsData(s: State, p: nat, a: Action)
    requires Inv(s) && Can(s, p, a) && KindOf(a).Creating?
    ensures |Do(s, p, a).stores| == BUCKETS && Data(Do(s, p, a))
  {
    assert PhaseSound(s, s.procs[p]);
  }

  lemma HandlingKeepsData(s: State, p: nat, a: Action)
    requires Inv(s) && Can(s, p, a) && KindOf(a).Handling?
    ensures |Do(s, p, a).stores| == BUCKETS && Data(Do(s, p, a))
  {
    assert PhaseSound(s, s.procs[p]);
  }

  lemma CreatingKeepsPhases(s: State, p: nat, a: Action, q: nat)
    requires Inv(s) && Can(s, p, a) && q < |s.procs| && KindOf(a).Creating?
    ensures |Do(s, p, a).stores| == BUCKETS && PhaseSound(Do(s, p, a), Do(s, p, a).procs[q])
  {
    assert PhaseSound(s, s.procs[p]);
    assert PhaseSound(s, s.procs[q]);
  }

  lemma HandlingKeepsPhases(s: State, p: nat, a: Action, q: nat)
    requires Inv(s) && Can(s, p, a) && q < |s.procs| && KindOf(a).Handling?
    ensures |Do(s, p, a).stores| == BUCKETS && PhaseSound(Do(s, p, a), Do(s, p, a).procs[q])
  {
    assert PhaseSound(s, s.procs[p]);
    assert PhaseSound(s, s.procs[q]);
  }

  lemma UploadingKeepsData(s: State, p: nat, a: Action)
    requires Inv(s) && Can(s, p, a) && KindOf(a).Uploading?
    ensures |Do(s, p, a).stores| == BUCKETS && Data(Do(s, p, a))
  {
    assert PhaseSound(s, s.procs[p]);
  }

  lemma StartingKeepsData(s: State, p: nat, a: Action)
    requires Inv(s) && Can(s, p, a) && KindOf(a).Starting?
    ensures |Do(s, p, a).stores| == BUCKETS && Data(Do(s, p, a))
  {
    assert PhaseSound(s, s.procs[p]);
  }

  lemma CompletionKeepsData(s: State, p: nat, a: Action)
    requires Inv(s) && Can(s, p, a) && KindOf(a).Completion?
    ensures |Do(s, p, a).stores| == BUCKETS && Data(Do(s, p, a))
  {
    assert PhaseSound(s, s.procs[p]);
  }

  lemma AnnouncingKeepsData(s: State, p: nat, a: Action)
    requires Inv(s) && Can(s, p, a) && KindOf(a).Announcing?
    ensures |Do(s, p, a).stores| == BUCKETS && Data(Do(s, p, a))
  {
    assert PhaseSound(s, s.procs[p]);
  }

  lemma UploadingKeepsPhases(s: State, p: nat, a: Action, q: nat)
    requires Inv(s) && Can(s, p, a) && q < |s.procs| && KindOf(a).Uploading?
    ensures |Do(s, p, a).stores| == BUCKETS && PhaseSound(Do(s, p, a), Do(s, p, a).procs[q])
  {
    assert PhaseSound(s, s.procs[p]);
    assert PhaseSound(s, s.procs[q]);
  }

  lemma StartingKeepsPhases(s: State, p: nat, a: Action, q: nat)
    requires Inv(s) && Can(s, p, a) && q < |s.procs| && KindOf(a).Starting?
    ensures |Do(s, p, a).stores| == BUCKETS && PhaseSound(Do(s, p, a), Do(s, p, a).procs[q])
  {
    assert PhaseSound(s, s.procs[p]);
    assert PhaseSound(s, s.procs[q]);
  }

  lemma CompletionKeepsPhases(s: State, p: nat, a: Action, q: nat)
    requires Inv(s) && Can(s, p, a) && q < |s.procs| && KindOf(a).Completion?
    ensures |Do(s, p, a).stores| == BUCKETS && PhaseSound(Do(s, p, a), Do(s, p, a).procs[q])
  {
    assert PhaseSound(s, s.procs[p]);
    assert PhaseSound(s, s.procs[q]);
  }

  lemma AnnouncingKeepsPhases(s: State, p: nat, a: Action, q: nat)
    requires Inv(s) && Can(s, p, a) && q < |s.procs| && KindOf(a).Announcing?
    ensures |Do(s, p, a).stores| == BUCKETS && PhaseSound(Do(s, p, a), Do(s, p, a).procs[q])
  {
    assert PhaseSound(s, s.procs[p]);
    assert PhaseSound(s, s.procs[q]);
  }

  lemma PackagingKeepsData(s: State, p: nat, a: Action)
    requires Inv(s) && Can(s, p, a) && KindOf(a).Packaging?
    ensures |Do(s, p, a).stores| == BUCKETS && Data(Do(s, p, a))
  {
    assert PhaseSound(s, s.procs[p]);
  }

  lemma PackagingKeepsPhases(s: State, p: nat, a: Action, q: nat)
    requires Inv(s) && Can(s, p, a) && q < |s.procs| && KindOf(a).Packaging?
    ensures |Do(s, p, a).stores| == BUCKETS && PhaseSound(Do(s, p, a), Do(s, p, a).procs[q])
  {
    assert PhaseSound(s, s.procs[p]);
    assert PhaseSound(s, s.procs[q]);
  }

  lemma RemovalKeepsData(s: State, p: nat, a: Action)
    requires Inv(s) && Can(s, p, a) && KindOf(a).Removal?
    ensures |Do(s, p, a).stores| == BUCKETS && Data(Do(s, p, a))
  {
    assert PhaseSound(s, s.procs[p]);
  }

  lemma RemovalKeepsPhases(s: State, p: nat, a: Action, q: nat)
    requires Inv(s) && Can(s, p, a) && q < |s.procs| && KindOf(a).Removal?
    ensures |Do(s, p, a).stores| == BUCKETS && PhaseSound(Do(s, p, a), Do(s, p, a).procs[q])
  {
    assert PhaseSound(s, s.procs[p]);
    assert PhaseSound(s, s.procs[q]);
  }

  lemma SweepingKeepsData(s: State, p: nat, a: Action)
    requires Inv(s) && Can(s, p, a) && KindOf(a).Sweeping?
    ensures |Do(s, p, a).stores| == BUCKETS && Data(Do(s, p, a))
  {
    assert PhaseSound(s, s.procs[p]);
  }

  lemma SweepingKeepsPhases(s: State, p: nat, a: Action, q: nat)
    requires Inv(s) && Can(s, p, a) && q < |s.procs| && KindOf(a).Sweeping?
    ensures |Do(s, p, a).stores| == BUCKETS && PhaseSound(Do(s, p, a), Do(s, p, a).procs[q])
  {
    assert PhaseSound(s, s.procs[p]);
    assert PhaseSound(s, s.procs[q]);
  }

  lemma DataKept(s: State, p: nat, a: Action)
    requires Inv(s) && Can(s, p, a)
    ensures |Do(s, p, a).stores| == BUCKETS && Data(Do(s, p, a))
  {
    match KindOf(a) {
      case Creating => CreatingKeepsData(s, p, a);
      case Handling => HandlingKeepsData(s, p, a);
      case Uploading => UploadingKeepsData(s, p, a);
      case Starting => StartingKeepsData(s, p, a);
      case Completion => CompletionKeepsData(s, p, a);
      case Announcing => AnnouncingKeepsData(s, p, a);
      case Packaging => PackagingKeepsData(s, p, a);
      case Removal => RemovalKeepsData(s, p, a);
      case Sweeping => SweepingKeepsData(s, p, a);
    }
  }

  lemma PhasesKept(s: State, p: nat, a: Action, q: nat)
    requires Inv(s) && Can(s, p, a) && q < |s.procs|
    ensures |Do(s, p, a).stores| == BUCKETS && PhaseSound(Do(s, p, a), Do(s, p, a).procs[q])
  {
    match KindOf(a) {
      case Creating => CreatingKeepsPhases(s, p, a, q);
      case Handling => HandlingKeepsPhases(s, p, a, q);
      case Uploading => UploadingKeepsPhases(s, p, a, q);
      case Starting => StartingKeepsPhases(s, p, a, q);
      case Completion => CompletionKeepsPhases(s, p, a, q);
      case Announcing => AnnouncingKeepsPhases(s, p, a, q);
      case Packaging => PackagingKeepsPhases(s, p, a, q);
      case Removal => RemovalKeepsPhases(s, p, a, q);
      case Sweeping => SweepingKeepsPhases(s, p, a, q);
    }
  }

  lemma StepKeepsInv(s: State, p: nat, a: Action)
    requires Inv(s) && Can(s, p, a)
    ensures Inv(Do(s, p, a))
  {
    LocksKept(s, p, a);
    DataKept(s, p, a);
    LocksAreTakenFree(s, p, a);
    forall q | 0 <= q < |s.procs|
      ensures PhaseSound(Do(s, p, a), Do(s, p, a).procs[q])
    {
      PhasesKept(s, p, a, q);
    }
  }

  lemma InitialIsSound(n: nat)
    ensures Inv(Initial(n))
  {
  }

  // ---- What deletion promises -------------------------------------------------------

  /** Row gone: the cache tombstone is there and nothing is left below any prefix. */
  predicate CleanlyGone(s: State) {
    s.row.Gone? ==> s.tombstone && |s.stores| == BUCKETS && forall b :: 0 <= b < BUCKETS ==> Empty(s.stores[b])
  }

  /** The objects of published upload events of a live video: what is uploaded since the row was
      created is stored at the event's size, and nothing else is, so exactly the events from
      before a deletion name a missing object. */
  predicate EventsHaveObjects(s: State) {
    |s.stores| == BUCKETS &&
    forall e :: e in s.published && s.row.Live? ==>
      (OfThisLife(s, e.0) <==> e.0 in s.stores[RAW].objects && s.stores[RAW].objects[e.0] == e.1)
  }

  /** In every interleaving of deletions, uploads, package runs, ingestion and crashes. */
  lemma {:induction false} RunsKeepInv(s: State, run: seq<Move>)
    requires Inv(s) && Legal(s, run)
    ensures Inv(After(s, run)) && CleanlyGone(After(s, run)) && EventsHaveObjects(After(s, run))
    decreases |run|
  {
    if run != [] {
      StepKeepsInv(s, run[0].p, run[0].action);
      RunsKeepInv(Do(s, run[0].p, run[0].action), run[1..]);
    }
  }

  /** The row is gone in every state on the way. */
  predicate StaysGone(s: State, run: seq<Move>)
    requires Legal(s, run)
    decreases |run|
  {
    s.row.Gone? && (run == [] || StaysGone(Do(s, run[0].p, run[0].action), run[1..]))
  }

  /** Once finalized a video stays gone, with empty prefixes, exactly as long as nobody submits
      its id again; and even then the cache tombstone stays. */
  lemma {:induction false} GoneForGood(s: State, run: seq<Move>)
    requires Inv(s) && Legal(s, run) && s.row.Gone?
    ensures StaysGone(s, run) <==> forall m :: m in run ==> !m.action.Submit?
    ensures StaysGone(s, run) ==>
              var t := After(s, run); t.row.Gone? && |t.stores| == BUCKETS && forall b :: 0 <= b < BUCKETS ==> Empty(t.stores[b])
    ensures After(s, run).tombstone
    decreases |run|
  {
    if run != [] {
      var s1 := Do(s, run[0].p, run[0].action);
      StepKeepsInv(s, run[0].p, run[0].action);
      assert run == [run[0]] + run[1..];
      TombstoneStays(s1, run[1..]);
      if s1.row.Gone? {
        GoneForGood(s1, run[1..]);
      }
    }
  }

  lemma {:induction false} TombstoneStays(s: State, run: seq<Move>)
    requires Legal(s, run)
    ensures s.tombstone ==> After(s, run).tombstone
    ensures s.life <= After(s, run).life
    decreases |run|
  {
    if run != [] {
      TombstoneStays(Do(s, run[0].p, run[0].action), run[1..]);
    }
  }

  /** A finalized video is submitted again and is live, with its old events naming objects that
      are not there and its caches refusing it. */
  lemma SubmittedAgain(s: State, p: nat, job: nat)
    requires Inv(s) && s.row.Gone? && Can(s, p, Submit(job))
    ensures var t := Do(s, p, Submit(job));
            && Inv(t) && t.row.Live? && t.active == {job} && t.tombstone
            && forall e :: e in s.published ==> e in t.published && !OfThisLife(t, e.0) && e.0 !in t.stores[RAW].objects
  {
    StepKeepsInv(s, p, Submit(job));
    assert forall e :: e in s.published ==> Stored(s, e.0, e.1);
  }

  /** A committed tombstone is never taken back: the video is deleting until it is gone, and from
      the first commit on nothing is added below its prefixes, unless the row is created again. */
  lemma {:induction false} TombstonedVideosOnlyShrink(s: State, run: seq<Move>)
    requires Inv(s) && Legal(s, run) && (s.row.Deleting? || s.row.Gone?)
    ensures var t := After(s, run);
            && s.life <= t.life
            && (t.life == s.life ==>
                  && (t.row.Deleting? || t.row.Gone?)
                  && t.active == {}
                  && |t.stores| == BUCKETS
                  && forall b :: 0 <= b < BUCKETS ==> NoMore(s.stores[b], t.stores[b]))
    decreases |run|
  {
    if run != [] {
      var s1 := Do(s, run[0].p, run[0].action);
      StepKeepsInv(s, run[0].p, run[0].action);
      TombstonedStep(s, run[0].p, run[0].action);
      TombstoneStays(s1, run[1..]);
      if s1.life == s.life {
        TombstonedVideosOnlyShrink(s1, run[1..]);
      }
    }
  }

  lemma TombstonedStep(s: State, p: nat, a: Action)
    requires Inv(s) && Can(s, p, a) && (s.row.Deleting? || s.row.Gone?)
    ensures Do(s, p, a).life == s.life ==> OnlyLess(s, Do(s, p, a))
  {
    match KindOf(a) {
      case Creating => OthersOnlyRemove(s, p, a);
      case Handling => OthersOnlyRemove(s, p, a);
      case Removal => OthersOnlyRemove(s, p, a);
      case Sweeping => SweepingOnlyRemoves(s, p, a);
      case _ => WritersOnlyRemove(s, p, a);
    }
  }

  /** Still tombstoned, and nothing added. */
  predicate OnlyLess(s: State, t: State) {
    && (t.row.Deleting? || t.row.Gone?)
    && |s.stores| == |t.stores| == BUCKETS && forall b :: 0 <= b < BUCKETS ==> NoMore(s.stores[b], t.stores[b])
  }

  lemma WritersOnlyRemove(s: State, p: nat, a: Action)
    requires Inv(s) && Can(s, p, a) && (s.row.Deleting? || s.row.Gone?)
    requires KindOf(a) in {Starting, Uploading, Completion, Announcing, Packaging}
    ensures OnlyLess(s, Do(s, p, a))
  {
    assert PhaseSound(s, s.procs[p]);
  }

  lemma SweepingOnlyRemoves(s: State, p: nat, a: Action)
    requires Inv(s) && Can(s, p, a) && (s.row.Deleting? || s.row.Gone?) && KindOf(a).Sweeping?
    ensures OnlyLess(s, Do(s, p, a))
  {
  }

  lemma OthersOnlyRemove(s: State, p: nat, a: Action)
    requires Inv(s) && Can(s, p, a) && (s.row.Deleting? || s.row.Gone?)
    requires KindOf(a) in {Creating, Handling, Removal}
    ensures Do(s, p, a).life == s.life ==> OnlyLess(s, Do(s, p, a))
  {
    assert PhaseSound(s, s.procs[p]);
    assert Do(s, p, a).stores == s.stores;
  }

  predicate NoMore(before: Store, now: Store) {
    now.objects.Keys <= before.objects.Keys && now.uploads.Keys <= before.uploads.Keys
  }

  /** Origin objects are only ever removed by a deletion after playback was durably revoked;
      the package task may replace HLS objects of a live video. */
  lemma RevokedBeforeRemoved(s: State, p: nat, a: Action, b: nat, id: nat)
    requires Inv(s) && Can(s, p, a) && b < BUCKETS
    requires id in s.stores[b].objects && id !in Do(s, p, a).stores[b].objects
    ensures (a.RemoveObject? && s.tombstone && s.row.Deleting?) || (a.RemoveHls? && b == HLS && s.row.Live?)
  {
    OnlyTwoRemove(s, p, a, b, id);
    assert PhaseSound(s, s.procs[p]);
  }

  lemma OnlyTwoRemove(s: State, p: nat, a: Action, b: nat, id: nat)
    requires |s.stores| == BUCKETS && Can(s, p, a) && b < BUCKETS
    requires id in s.stores[b].objects && id !in Do(s, p, a).stores[b].objects
    ensures a.RemoveObject? || (a.RemoveHls? && b == HLS)
  {
    if !a.RemoveObject? && !(a.RemoveHls? && b == HLS) {
      OthersLeaveObjects(s, p, a, b);
    }
  }

  lemma OthersLeaveObjects(s: State, p: nat, a: Action, b: nat)
    requires |s.stores| == BUCKETS && Can(s, p, a) && b < BUCKETS
    requires !a.RemoveObject? && !(a.RemoveHls? && b == HLS)
    ensures s.stores[b].objects.Keys <= Do(s, p, a).stores[b].objects.Keys
  {
    match KindOf(a) {
      case Creating => assert Do(s, p, a).stores == s.stores;
      case Handling => assert Do(s, p, a).stores == s.stores;
      case Announcing => assert Do(s, p, a).stores == s.stores;
      case Removal => assert Do(s, p, a).stores == s.stores;
      case _ =>
    }
  }

  /** The checks `Finalize` repeats under the row lock cannot fail once cleanup was verified:
      the lease and the tombstone have kept every other writer out since. */
  lemma FinalizeNeverRefuses(s: State, p: nat)
    requires Inv(s) && Can(s, p, Finalize)
    ensures Do(s, p, Finalize).row.Gone?
  {
    assert PhaseSound(s, s.procs[p]);
  }

  // ---- A retried deletion always has a way to the end ---------------------------------

  /** `p`, moving alone, can take `s` to `t`. */
  ghost predicate Alone(s: State, p: nat, t: State) {
    exists run :: AloneBy(s, p, t, run)
  }

  ghost predicate AloneBy(s: State, p: nat, t: State, run: seq<Move>) {
    Legal(s, run) && After(s, run) == t && forall m :: m in run ==> m.p == p
  }

  lemma {:induction false} AppendMove(s: State, run: seq<Move>, m: Move)
    requires Legal(s, run) && Can(After(s, run), m.p, m.action)
    ensures Legal(s, run + [m]) && After(s, run + [m]) == Do(After(s, run), m.p, m.action)
    decreases |run|
  {
    if run == [] {
      assert [m][1..] == [] && run + [m] == [m];
      assert After(Do(s, m.p, m.action), []) == Do(s, m.p, m.action);
    } else {
      assert (run + [m])[1..] == run[1..] + [m];
      AppendMove(Do(s, run[0].p, run[0].action), run[1..], m);
    }
  }

  lemma AloneNow(s: State, p: nat)
    ensures Alone(s, p, s)
  {
    assert AloneBy(s, p, s, []);
  }

  lemma AloneThen(s: State, p: nat, t: State, a: Action)
    requires Alone(s, p, t) && Can(t, p, a)
    ensures Alone(s, p, Do(t, p, a))
  {
    var run :| AloneBy(s, p, t, run);
    AppendMove(s, run, Move(p, a));
    assert AloneBy(s, p, Do(t, p, a), run + [Move(p, a)]);
  }

  lemma {:induction false} EmptyObjects(s: State, p: nat, t: State, b: nat)
    requires Alone(s, p, t) && p < |t.procs| && |t.stores| == BUCKETS && Step(t.procs[p], b, Removing)
    ensures Alone(s, p, WithStore(t, b, t.stores[b].(objects := map[])))
    decreases t.stores[b].objects.Keys
  {
    var st := t.stores[b];
    if id :| id in st.objects {
      AloneThen(s, p, t, RemoveObject(b, id));
      var t1 := WithStore(t, b, st.(objects := st.objects - {id}));
      assert id !in t1.stores[b].objects.Keys;
      EmptyObjects(s, p, t1, b);
      assert WithStore(t1, b, t1.stores[b].(objects := map[])) == WithStore(t, b, st.(objects := map[]));
    } else {
      assert WithStore(t, b, st.(objects := map[])) == t;
    }
  }

  lemma {:induction false} EmptyUploads(s: State, p: nat, t: State, b: nat)
    requires Alone(s, p, t) && p < |t.procs| && |t.stores| == BUCKETS && Step(t.procs[p], b, Removing)
    ensures Alone(s, p, WithStore(t, b, t.stores[b].(uploads := map[])))
    decreases t.stores[b].uploads.Keys
  {
    var st := t.stores[b];
    if id :| id in st.uploads {
      AloneThen(s, p, t, AbortIncomplete(b, id));
      var t1 := WithStore(t, b, st.(uploads := st.uploads - {id}));
      assert id !in t1.stores[b].uploads.Keys;
      EmptyUploads(s, p, t1, b);
      assert WithStore(t1, b, t1.stores[b].(uploads := map[])) == WithStore(t, b, st.(uploads := map[]));
    } else {
      assert WithStore(t, b, st.(uploads := map[])) == t;
    }
  }

  /** Cleaning with the first `k` buckets verified empty, nobody else moved. */
  predicate CleanedUpTo(p: nat, t: State, k: nat) {
    && p < |t.procs| && |t.stores| == BUCKETS && k <= BUCKETS
    && t.row.Deleting? && t.active == {}
    && t.procs[p] == Cleaning(seq(BUCKETS, b => if b < k then Clear else Removing))
    && (forall q :: 0 <= q < |t.procs| && q != p ==> !RowLock(t.procs[q]))
  }

  lemma ClearNext(s: State, p: nat, t: State, k: nat) returns (t': State)
    requires Alone(s, p, t) && k < BUCKETS && CleanedUpTo(p, t, k)
    ensures Alone(s, p, t') && CleanedUpTo(p, t', k + 1)
  {
    EmptyObjects(s, p, t, k);
    t' := WithStore(t, k, t.stores[k].(objects := map[]));
    EmptyUploads(s, p, t', k);
    t' := WithStore(t', k, t'.stores[k].(uploads := map[]));
    AloneThen(s, p, t', VerifyUploads(k));
    t' := Do(t', p, VerifyUploads(k));
    AloneThen(s, p, t', VerifyObjects(k));
    t' := Do(t', p, VerifyObjects(k));
    var was, now := t.procs[p].progress, t'.procs[p].progress;
    assert now == was[k := UploadsClear][k := Clear];
    assert now == seq(BUCKETS, b => if b < k + 1 then Clear else Removing);
  }

  lemma ReachRowLock(s: State, p: nat) returns (t: State)
    requires Inv(s) && s.row.Deleting? && p < |s.procs| && s.procs[p] == Idle
    requires LeaseFree(s, false) && RowFree(s)
    ensures Alone(s, p, t) && t == To(s, p, DeleteRow)
  {
    AloneNow(s, p);
    AloneThen(s, p, s, BeginDelete);
    t := To(s, p, DeleteLeased);
    AloneThen(s, p, t, LockForDelete);
    t := To(t, p, DeleteRow);
  }

  lemma ReachCleaning(s: State, p: nat) returns (t: State)
    requires Inv(s) && s.row.Deleting? && p < |s.procs| && s.procs[p] == Idle
    requires LeaseFree(s, false) && RowFree(s)
    ensures Alone(s, p, t) && CleanedUpTo(p, t, 0)
  {
    t := ReachRowLock(s, p);
    AloneThen(s, p, t, CommitTombstone);
    t := To(t, p, Purging).(row := Deleting);
    AloneThen(s, p, t, Purge(true, true));
    t := To(t, p, Cleaning([Removing, Removing, Removing])).(tombstone := true);
    assert [Removing, Removing, Removing] == seq(BUCKETS, b => if b < 0 then Clear else Removing);
  }

  lemma FinishCleaned(s: State, p: nat, t: State) returns (u: State)
    requires Alone(s, p, t) && CleanedUpTo(p, t, BUCKETS)
    ensures Alone(s, p, u) && u.row.Gone?
  {
    AloneThen(s, p, t, FinishCleanup);
    u := To(t, p, Cleaned);
    AloneThen(s, p, u, LockForFinalize);
    u := To(u, p, FinalRow);
    AloneThen(s, p, u, Finalize);
    u := Do(u, p, Finalize);
  }

  /** However a deletion was cut short, once its lease and locks are gone one more DELETE can
      remove the rest and the row on its own, whatever the prefixes still hold. */
  lemma RetriedDeletionCanFinish(s: State, p: nat)
    requires Inv(s) && s.row.Deleting? && p < |s.procs| && s.procs[p] == Idle
    requires LeaseFree(s, false) && RowFree(s)
    ensures exists t :: Alone(s, p, t) && t.row.Gone?
  {
    var t := ReachCleaning(s, p);
    t := ClearNext(s, p, t, RAW);
    t := ClearNext(s, p, t, HLS);
    t := ClearNext(s, p, t, THUMBNAILS);
    t := FinishCleaned(s, p, t);
  }

  // ---- An admitted upload always has a way to its event ---------------------------------

  /** A handler of the live video, admitted for a request. */
  lemma Admitted(s: State, p: nat, t: State, first: Action, request: Request) returns (u: State)
    requires Alone(s, p, t) && p < |t.procs| && t.procs[p] == Idle && t.row.Live? && LeaseFree(t, true)
    requires Can(t, p, first) && Do(t, p, first) == To(t, p, Loaded(request))
    ensures Alone(s, p, u) && u == To(t, p, Writing(request))
  {
    AloneThen(s, p, t, first);
    u := To(t, p, Loaded(request));
    AloneThen(s, p, u, Lease);
    u := To(u, p, Leased(request));
    AloneThen(s, p, u, ReadStatus);
    u := To(u, p, Writing(request));
  }

  /** The first request: the upload is started and the session saved. */
  lemma SessionOpened(s: State, p: nat, id: nat, size: nat) returns (t: State)
    requires |s.stores| == BUCKETS && p < |s.procs| && s.procs[p] == Idle && s.row.Live? && LeaseFree(s, true) && id !in s.used
    ensures Alone(s, p, t) && p < |t.procs| && t.procs[p] == Idle && t.row.Live? && LeaseFree(t, true) && |t.stores| == BUCKETS
    ensures id in t.sessions && t.sessions[id] == Record(id, size, Created) && id in t.stores[RAW].uploads
  {
    AloneNow(s, p);
    t := Admitted(s, p, s, Ask(NewSession), NewSession);
    AloneThen(s, p, t, StartUpload(id, size));
    t := Do(t, p, StartUpload(id, size));
    AloneThen(s, p, t, SaveSession(true, true));
    t := Do(t, p, SaveSession(true, true));
    AloneThen(s, p, t, Respond);
    t := Do(t, p, Respond);
  }

  /** The second: the parts are stored and the upload is completed. */
  lemma UploadCompleted(s: State, p: nat, t: State, id: nat, size: nat) returns (u: State)
    requires Alone(s, p, t) && p < |t.procs| && |t.stores| == BUCKETS && id in t.stores[RAW].uploads
    requires t.procs[p] == Writing(OnSession(Record(id, size, Created)))
    ensures Alone(s, p, u) && p < |u.procs| && |u.stores| == BUCKETS
    ensures u.procs[p] == Writing(OnSession(Record(id, size, Completing)))
    ensures id in u.stores[RAW].objects && u.stores[RAW].objects[id] == size
  {
    AloneThen(s, p, t, PutPart(size));
    u := Do(t, p, PutPart(size));
    AloneThen(s, p, u, MarkCompleting(true));
    u := Do(u, p, MarkCompleting(true));
    AloneThen(s, p, u, CompleteUpload);
    u := Do(u, p, CompleteUpload);
  }

  lemma EventPublishedBy(s: State, p: nat, t: State, id: nat, size: nat) returns (u: State)
    requires Alone(s, p, t) && p < |t.procs| && |t.stores| == BUCKETS
    requires t.procs[p] == Writing(OnSession(Record(id, size, Completing)))
    requires id in t.stores[RAW].objects && t.stores[RAW].objects[id] == size
    ensures Alone(s, p, u) && p < |u.procs| && u.procs[p] == Idle && (id, size) in u.published && u.stores == t.stores
    ensures id in u.sessions && u.sessions[id] == Record(id, size, EventPublished)
  {
    AloneThen(s, p, t, ConfirmStored(true));
    u := Do(t, p, ConfirmStored(true));
    AloneThen(s, p, u, PublishEvent);
    u := Do(u, p, PublishEvent);
    u := AnsweredAfterEvent(s, p, u, id, size);
  }

  lemma AnsweredAfterEvent(s: State, p: nat, t: State, id: nat, size: nat) returns (u: State)
    requires Alone(s, p, t) && p < |t.procs| && |t.stores| == BUCKETS && (id, size) in t.published
    requires t.procs[p] == Writing(OnSession(Record(id, size, PendingEvent)))
    ensures Alone(s, p, u) && p < |u.procs| && u.procs[p] == Idle && (id, size) in u.published && u.stores == t.stores
    ensures id in u.sessions && u.sessions[id] == Record(id, size, EventPublished)
  {
    AloneThen(s, p, t, MarkPublished(true));
    u := Do(t, p, MarkPublished(true));
    AloneThen(s, p, u, Respond);
    u := Do(u, p, Respond);
  }

  /** As long as the video is live and nobody deletes it, a client alone can open a session, upload
      and complete it, and its event is published with the object stored at its size. */
  lemma UploadsGetThrough(s: State, p: nat, id: nat, size: nat)
    requires |s.stores| == BUCKETS && p < |s.procs| && s.procs[p] == Idle && s.row.Live? && LeaseFree(s, true) && id !in s.used
    ensures exists t :: Alone(s, p, t) && (id, size) in t.published && id in t.sessions && |t.stores| == BUCKETS &&
                        t.sessions[id].status.EventPublished? && id in t.stores[RAW].objects && t.stores[RAW].objects[id] == size
  {
    var t := SessionOpened(s, p, id, size);
    t := Admitted(s, p, t, Load(id), OnSession(Record(id, size, Created)));
    t := UploadCompleted(s, p, t, id, size);
    t := EventPublishedBy(s, p, t, id, size);
  }

  /** A completion that could not save its progress can be asked for again: nothing has changed,
      and the next request meets the record that this one met. */
  lemma FailedSavesCanBeRepeated(s: State, p: nat, a: Action, session: nat)
    requires a == MarkCompleting(false) || a == ConfirmStored(false) || a == MarkPublished(false)
    requires Can(s, p, a) && session in s.sessions
    ensures var t := Do(s, p, a);
            && t.stores == s.stores && t.sessions == s.sessions && t.published == s.published && t.row == s.row
            && Can(t, p, Load(session)) && Do(t, p, Load(session)).procs[p] == Loaded(OnSession(s.sessions[session]))
  {
  }

  // ---- Everything the state machine lets happen does happen --------------------------------

  /** A file can be stored in one request. */
  lemma DirectUploadsGetThrough(s: State, p: nat, id: nat, size: nat)
    requires |s.stores| == BUCKETS && p < |s.procs| && s.procs[p] == Idle && s.row.Live? && LeaseFree(s, true) && id !in s.used
    ensures exists t :: Alone(s, p, t) && p < |t.procs| && t.procs[p] == Idle && |t.stores| == BUCKETS &&
                        id in t.stores[RAW].objects && t.stores[RAW].objects[id] == size
  {
    AloneNow(s, p);
    var t := Admitted(s, p, s, Ask(DirectPut), DirectPut);
    AloneThen(s, p, t, PutObject(id, size));
    t := Do(t, p, PutObject(id, size));
    AloneThen(s, p, t, Respond);
    t := Do(t, p, Respond);
  }

  /** An upload whose session could not be saved is aborted by the same request. */
  lemma UnsavedUploadsAreAborted(s: State, p: nat, id: nat, size: nat)
    requires |s.stores| == BUCKETS && p < |s.procs| && s.procs[p] == Idle && s.row.Live? && LeaseFree(s, true) && id !in s.used
    ensures exists t :: Alone(s, p, t) && p < |t.procs| && t.procs[p] == Idle && |t.stores| == BUCKETS &&
                        id !in t.stores[RAW].uploads && t.sessions == s.sessions && id in t.used
  {
    AloneNow(s, p);
    var t := Admitted(s, p, s, Ask(NewSession), NewSession);
    AloneThen(s, p, t, StartUpload(id, size));
    t := Do(t, p, StartUpload(id, size));
    AloneThen(s, p, t, SaveSession(false, true));
    t := Do(t, p, SaveSession(false, true));
    AloneThen(s, p, t, AbortOpening(true));
    t := Do(t, p, AbortOpening(true));
  }

  /** The package task of a job: admitted, it has stored an object. */
  lemma PackageStored(s: State, p: nat, job: nat, id: nat, size: nat) returns (t: State)
    requires |s.stores| == BUCKETS && p < |s.procs| && s.procs[p] == Idle && s.row.Live? && RowFree(s)
    ensures Alone(s, p, t) && p < |t.procs| && t.procs[p] == Packing(job) && t.row.Live? && |t.stores| == BUCKETS
    ensures job in t.active && id in t.stores[HLS].objects && t.stores[HLS].objects[id] == size
  {
    AloneNow(s, p);
    AloneThen(s, p, s, AddJob(job));
    t := Do(s, p, AddJob(job));
    AloneThen(s, p, t, LockForPackage(job));
    t := Do(t, p, LockForPackage(job));
    AloneThen(s, p, t, CheckGeneration);
    t := Do(t, p, CheckGeneration);
    AloneThen(s, p, t, PutHls(id, size));
    t := Do(t, p, PutHls(id, size));
  }

  /** A job of a live video can be packaged: its objects are stored and it is done. */
  lemma PackagesGetThrough(s: State, p: nat, job: nat, id: nat, size: nat)
    requires |s.stores| == BUCKETS && p < |s.procs| && s.procs[p] == Idle && s.row.Live? && RowFree(s)
    ensures exists t :: Alone(s, p, t) && t.row.Live? && job !in t.active && |t.stores| == BUCKETS &&
                        id in t.stores[HLS].objects && t.stores[HLS].objects[id] == size
  {
    var t := PackageStored(s, p, job, id, size);
    AloneThen(s, p, t, CommitPackage(true));
    t := Do(t, p, CommitPackage(true));
  }

  /** ... or its objects withheld again and the job left to be retried, or ended. */
  lemma PackagesCanBeGivenUp(s: State, p: nat, job: nat, id: nat, size: nat)
    requires |s.stores| == BUCKETS && p < |s.procs| && s.procs[p] == Idle && s.row.Live? && RowFree(s)
    ensures exists t :: Alone(s, p, t) && p < |t.procs| && t.procs[p] == Idle && job in t.active && |t.stores| == BUCKETS &&
                        id !in t.stores[HLS].objects
    ensures exists t :: Alone(s, p, t) && job !in t.active && |t.stores| == BUCKETS && id !in t.stores[HLS].objects
  {
    var t := PackageStored(s, p, job, id, size);
    AloneThen(s, p, t, RemoveHls(id));
    t := Do(t, p, RemoveHls(id));
    AloneThen(s, p, t, CommitPackage(false));
    var left := Do(t, p, CommitPackage(false));
    assert Alone(s, p, left) && left.procs[p] == Idle && job in left.active && id !in left.stores[HLS].objects;
    AloneThen(s, p, t, CommitPackage(true));
    var ended := Do(t, p, CommitPackage(true));
    assert Alone(s, p, ended) && job !in ended.active && id !in ended.stores[HLS].objects;
  }

  /** What clients gave up can be cleaned away at any time: the upload, its session, the job. */
  lemma LeftoversCanGo(s: State, p: nat, id: nat, job: nat)
    requires |s.stores| == BUCKETS && p < |s.procs| && s.procs[p] == Idle && RowFree(s)
    ensures exists t :: Alone(s, p, t) && |t.stores| == BUCKETS && id !in t.stores[RAW].uploads &&
                        id !in t.sessions && job !in t.active && t.row == s.row
  {
    AloneNow(s, p);
    AloneThen(s, p, s, AbortUpload(id));
    var t := Do(s, p, AbortUpload(id));
    AloneThen(s, p, t, ForgetSession(id));
    t := Do(t, p, ForgetSession(id));
    AloneThen(s, p, t, EndJob(job));
    t := Do(t, p, EndJob(job));
  }

  /** A video begins with a row, with a job or without one. */
  lemma VideosBegin(n: nat, p: nat, job: nat)
    requires p < n
    ensures exists t :: Alone(Initial(n), p, t) && t.row.Live? && t.active == {}
    ensures exists t :: Alone(Initial(n), p, t) && t.row.Live? && t.active == {job}
  {
    var s := Initial(n);
    AloneNow(s, p);
    AloneThen(s, p, s, CreateVideo);
    var created := Do(s, p, CreateVideo);
    assert Alone(s, p, created) && created.row.Live? && created.active == {};
    AloneThen(s, p, s, Submit(job));
    var submitted := Do(s, p, Submit(job));
    assert Alone(s, p, submitted) && submitted.row.Live? && submitted.active == {job};
  }

  /** A crash gives back whatever the process held. */
  lemma CrashGivesBack(s: State, p: nat)
    requires |s.stores| == BUCKETS && p < |s.procs|
    ensures Can(s, p, Crash) && Do(s, p, Crash) == To(s, p, Idle)
    ensures var t := Do(s, p, Crash);
            p < |t.procs| && !ExclusiveLease(t.procs[p]) && !SharedLease(t.procs[p]) && !RowLock(t.procs[p])
  {
  }
}
