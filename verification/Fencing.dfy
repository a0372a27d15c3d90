/** Generation fencing: the rows of videos and jobs, and the transactions that move them.

    Every transaction locks its video row first, so per video they run one after another;
    each is one step here. The package task holds the row lock through publication, so its
    store writes belong to its step: `Publication` says which ones are possible. */
module Fencing {
  import opened Common
  import opened Playlists
  import opened Publication
  import Paths

  type VideoId = string

  datatype VideoStatus = Draft | VideoPending | Processing | Ready | VideoFailed | Deleting | Deleted

  datatype JobStatus =
    | Pending | Queued | Probing | Extracting | Transcoding | Packaging | Publishing
    | Completed | JobFailed

  datatype Cause = NoCause | ManualRetry | WatchdogRetry | TooManyRetries | TaskExhausted

  datatype Video = Video(status: VideoStatus, source: bool)

  /** `created` and the job id order generations; `prefix` is where output was published. */
  datatype Job = Job(
    video: VideoId, status: JobStatus, created: int, dispatched: nat, input: bool, prefix: Option<Name>, cause: Cause)

  datatype DB = DB(videos: map<VideoId, Video>, jobs: map<nat, Job>, objects: Objects)

  predicate Terminal(status: JobStatus) {
    status.Completed? || status.JobFailed?
  }

  predicate Active(db: DB, v: VideoId, j: nat) {
    j in db.jobs && db.jobs[j].video == v && !Terminal(db.jobs[j].status)
  }

  /** The directory of a video in the HLS bucket. */
  function Home(v: VideoId): Name {
    [LowerAll(if |v| < 2 then v else v[..2]), v]
  }

  /** Where a version is published: a directory below the home of the video, or the home itself
      for a version of nothing but slashes; None if a segment is empty or made of dots. */
  function PublishPrefix(v: VideoId, version: string): (r: Option<Name>)
    ensures r.Some? ==> Home(v) <= r.value
    ensures r.Some? ==> forall i :: 2 <= i < |r.value| ==> Paths.Ordinary(r.value[i])
  {
    var parts := Trimmed(Paths.Split(Paths.Slashed(if version == "" then "v1" else version)));
    if exists part :: part in parts && !Paths.Ordinary(part) then None else Some(Home(v) + parts)
  }

  function Trimmed(parts: seq<string>): seq<string> {
    if parts != [] && parts[|parts| - 1] == "" then Trimmed(parts[..|parts| - 1]) else parts
  }

  /** A version is published under its segments ... */
  lemma VersionsAreSegments(v: VideoId, parts: seq<string>)
    requires parts != [] && Paths.NoSlashes(parts) && forall part :: part in parts ==> Paths.Ordinary(part)
    requires '\\' !in Paths.Join(parts)
    ensures PublishPrefix(v, Paths.Join(parts)) == Some(Home(v) + parts)
  {
    Paths.SplitJoin(parts);
    Paths.SlashedExactly(Paths.Join(parts), "");
    assert parts[|parts| - 1] in parts && parts[0] in parts;
    assert Paths.Split("") == [""] != parts;
    assert Paths.Join(parts) != "";
  }

  /** ... and slashes behind them make no difference. */
  lemma SlashesBehindDoNot(v: VideoId, version: string)
    requires version != ""
    ensures PublishPrefix(v, version + "/") == PublishPrefix(v, version)
  {
    var s := Paths.Slashed(version);
    assert Paths.Slashed(version + "/") == s + "/";
    Paths.SplitWithSlash(s);
    assert (Paths.Split(s) + [""])[..|Paths.Split(s)|] == Paths.Split(s);
  }

  // ---- The fence --------------------------------------------------------------------

  predicate Newer(db: DB, j: nat, k: nat)
    requires j in db.jobs && k in db.jobs
  {
    db.jobs[j].created > db.jobs[k].created || (db.jobs[j].created == db.jobs[k].created && j > k)
  }

  predicate Candidate(db: DB, v: VideoId, j: nat) {
    j in db.jobs && db.jobs[j].video == v && !db.jobs[j].status.JobFailed?
  }

  /** The newest job of the video that is not failed. */
  predicate IsLatest(db: DB, v: VideoId, j: nat) {
    Candidate(db, v, j) && forall k :: k in db.jobs && Candidate(db, v, k) ==> k == j || Newer(db, j, k)
  }

  datatype Lock = Current | Missing | Stale | Inconsistent

  /** `lock_current_job`: who may write for this video now. */
  function LockCurrent(db: DB, j: nat, allowCompleted: bool): Lock {
    if j !in db.jobs || db.jobs[j].video !in db.videos then Missing
    else
      var job, status := db.jobs[j], db.videos[db.jobs[j].video].status;
      if job.status.JobFailed? || !IsLatest(db, job.video, j) then Stale
      else if job.status.Completed? then
        if status.Deleting? || status.Deleted? then Stale
        else if allowCompleted && status.Ready? then Current
        else Inconsistent
      else if status.Ready? || status.VideoFailed? || status.Deleting? || status.Deleted? then Stale
      else Current
  }

  function Order(status: JobStatus): int {
    match status
    case Pending => 0
    case Probing => 1
    case Queued => 2
    case Extracting => 3
    case Transcoding => 4
    case Packaging => 5
    case Publishing => 6
    case Completed => 7
    case JobFailed => -1
  }

  /** `advance_job_status`. */
  function Advanced(current: JobStatus, to: JobStatus): JobStatus {
    if Terminal(current) || Order(to) < Order(current) then current else to
  }

  // ---- Transactions -----------------------------------------------------------------

  function SetJob(db: DB, j: nat, job: Job): DB {
    db.(jobs := db.jobs[j := job])
  }

  function SetVideo(db: DB, v: VideoId, video: Video): DB {
    db.(videos := db.videos[v := video])
  }

  function NewJob(v: VideoId, created: int): Job {
    Job(v, Pending, created, 0, true, None, NoCause)
  }

  /** `supersede_active_jobs`. */
  function Supersede(jobs: map<nat, Job>, v: VideoId, replacement: nat, cause: Cause): map<nat, Job> {
    map k | k in jobs ::
      if jobs[k].video == v && !Terminal(jobs[k].status) && k != replacement
      then jobs[k].(status := JobFailed, cause := cause) else jobs[k]
  }

  function Ingest(db: DB, v: VideoId, j: nat, now: int): DB {
    if v !in db.videos || db.videos[v].status.Deleting? then db
    else if j in db.jobs && db.jobs[j].video != v then db
    else
      var db1 := if j in db.jobs then db else SetJob(db, j, NewJob(v, now));
      var status := db.videos[v].status;
      SetVideo(db1, v,
               Video(if !Terminal(db1.jobs[j].status) && !status.Ready? then Processing else status, true))
  }

  function MarkQueued(db: DB, j: nat): DB {
    if j in db.jobs && db.jobs[j].status.Pending? && db.jobs[j].dispatched == 0
    then SetJob(db, j, db.jobs[j].(status := Queued)) else db
  }

  function Claim(db: DB, j: nat, v: VideoId): DB {
    if LockCurrent(db, j, true) != Current || db.jobs[j].video != v then db
    else if db.jobs[j].status.Completed? || db.jobs[j].dispatched > 0 then db
    else
      SetVideo(SetJob(db, j, db.jobs[j].(status := Advanced(db.jobs[j].status, Probing), input := true)),
               v, db.videos[v].(status := Processing))
  }

  /** Probe, audio, and transcode tasks: fence, advance, commit. */
  function Advance(db: DB, j: nat, to: JobStatus): DB {
    if LockCurrent(db, j, true) != Current || db.jobs[j].status.Completed? then db
    else SetJob(db, j, db.jobs[j].(status := Advanced(db.jobs[j].status, to)))
  }

  function Dispatch(db: DB, j: nat, committed: bool): DB {
    if LockCurrent(db, j, true) != Current || db.jobs[j].status.Completed? || db.jobs[j].dispatched > 0 then db
    else if !committed then db
    else
      var job := db.jobs[j];
      SetJob(db, j, job.(dispatched := job.dispatched + 1, status := Advanced(job.status, Queued)))
  }

  function FailPipeline(db: DB, j: nat): DB {
    if LockCurrent(db, j, true) != Current then db
    else
      var v := db.jobs[j].video;
      if db.jobs[j].status.Completed? || db.videos[v].status.Ready? then db
      else
        SetVideo(SetJob(db, j, db.jobs[j].(status := JobFailed, cause := TaskExhausted)),
                 v, db.videos[v].(status := VideoFailed))
  }

  predicate Recoverable(db: DB, v: VideoId)
    requires v in db.videos
  {
    db.videos[v].source || exists j :: j in db.jobs && db.jobs[j].video == v && db.jobs[j].input
  }

  function Retry(db: DB, v: VideoId, j: nat, now: int): DB
    requires j !in db.jobs
  {
    if v !in db.videos || db.videos[v].status.Ready? || db.videos[v].status.Deleting? then db
    else if !Recoverable(db, v) then db
    else
      DB(db.videos[v := Video(Processing, true)],
         Supersede(db.jobs, v, j, ManualRetry)[j := NewJob(v, now)], db.objects)
  }

  /** Jobs of the video that an earlier watchdog retry superseded. */
  function WatchdogRetries(jobs: map<nat, Job>, v: VideoId): set<nat> {
    set k | k in jobs && jobs[k].video == v && jobs[k].status.JobFailed? && jobs[k].cause == WatchdogRetry
  }

  /** One video of `_watchdog_tick`; `stuck` is the verdict on the job's own progress clock. */
  ghost function Watchdog(db: DB, v: VideoId, j: nat, now: int, stuck: bool, maxRetries: nat): DB
    requires j !in db.jobs
  {
    if v !in db.videos || !db.videos[v].status.Processing? then db
    else if !exists c :: IsLatest(db, v, c) then db
    else
      var c :| IsLatest(db, v, c);
      if db.jobs[c].status.Completed? then db
      else if |WatchdogRetries(db.jobs, v)| >= maxRetries then
        SetVideo(SetJob(db, c, db.jobs[c].(status := JobFailed, cause := TooManyRetries)),
                 v, db.videos[v].(status := VideoFailed))
      else if !stuck || !db.videos[v].source then db
      else
        DB(db.videos[v := Video(Processing, true)],
           Supersede(db.jobs, v, j, WatchdogRetry)[j := NewJob(v, now)], db.objects)
  }

  predicate AnyActive(db: DB, v: VideoId) {
    exists j :: j in db.jobs && Active(db, v, j)
  }

  function BeginDelete(db: DB, v: VideoId): DB {
    if v !in db.videos || AnyActive(db, v) then db
    else SetVideo(db, v, db.videos[v].(status := Deleting))
  }

  /** Deleting the row cascades to the video's jobs. */
  function Finalize(db: DB, v: VideoId): DB {
    if v !in db.videos || !db.videos[v].status.Deleting? || AnyActive(db, v) then db
    else DB(db.videos - {v}, map j | j in db.jobs && db.jobs[j].video != v :: db.jobs[j], db.objects)
  }

  /** What packaging did: `after` is the bucket it left; it commits only after publishing. */
  ghost predicate PackageCan(db: DB, j: nat, version: string, local: Option<Files>, after: Objects, committed: bool) {
    LockCurrent(db, j, true) == Current && !db.jobs[j].status.Completed? ==>
      match PublishPrefix(db.jobs[j].video, version)
      case None => after == db.objects && !committed
      case Some(prefix) =>
        && (local.Some? ==> Collected(local.value))
        && Coherent(after, db.objects, prefix, local)
        && (committed ==> IsPublished(after, prefix, local) && after[prefix + MASTER].size > 0)
  }

  ghost function Package(db: DB, j: nat, version: string, after: Objects, committed: bool): DB {
    if LockCurrent(db, j, true) != Current || db.jobs[j].status.Completed? then db
    else if !committed then db.(objects := after)
    else
      var v := db.jobs[j].video;
      SetVideo(SetJob(db, j, db.jobs[j].(status := Completed, prefix := PublishPrefix(v, version))),
               v, db.videos[v].(status := Ready)).(objects := after)
  }

  datatype Step =
    | CreateVideo(v: VideoId)
    | SubmitJob(v: VideoId, j: nat, now: int)
    | IngestStep(v: VideoId, j: nat, now: int)
    | MarkQueuedStep(j: nat)
    | ClaimStep(j: nat, v: VideoId)
    | AdvanceStep(j: nat, to: JobStatus)
    | DispatchStep(j: nat, committed: bool)
    | PackageStep(j: nat, version: string, local: Option<Files>, after: Objects, committed: bool)
    | FailStep(j: nat)
    | RetryStep(v: VideoId, j: nat, now: int)
    | WatchdogStep(v: VideoId, j: nat, now: int, stuck: bool, maxRetries: nat)
    | BeginDeleteStep(v: VideoId)
    | RemoveObjectStep(v: VideoId, name: Name)
    | FinalizeStep(v: VideoId)

  /** New rows get unused ids; tasks only advance to the stages they run in; a deletion
      removes objects below its own prefix once the tombstone is committed. */
  ghost predicate Can(db: DB, st: Step) {
    match st
    case CreateVideo(v) => v !in db.videos
    case SubmitJob(v, j, _) => v !in db.videos && j !in db.jobs
    case AdvanceStep(_, to) => to.Probing? || to.Extracting? || to.Transcoding?
    case PackageStep(j, version, local, after, committed) => PackageCan(db, j, version, local, after, committed)
    case RetryStep(_, j, _) => j !in db.jobs
    case WatchdogStep(_, j, _, _, _) => j !in db.jobs
    case RemoveObjectStep(v, name) => v in db.videos && db.videos[v].status.Deleting? && Home(v) < name
    case _ => true
  }

  ghost function Do(db: DB, st: Step): DB
    requires Can(db, st)
  {
    match st
    case CreateVideo(v) => SetVideo(db, v, Video(Draft, false))
    case SubmitJob(v, j, now) => SetVideo(SetJob(db, j, NewJob(v, now)), v, Video(VideoPending, true))
    case IngestStep(v, j, now) => Ingest(db, v, j, now)
    case MarkQueuedStep(j) => MarkQueued(db, j)
    case ClaimStep(j, v) => Claim(db, j, v)
    case AdvanceStep(j, to) => Advance(db, j, to)
    case DispatchStep(j, committed) => Dispatch(db, j, committed)
    case PackageStep(j, version, _, after, committed) => Package(db, j, version, after, committed)
    case FailStep(j) => FailPipeline(db, j)
    case RetryStep(v, j, now) => Retry(db, v, j, now)
    case WatchdogStep(v, j, now, stuck, maxRetries) => Watchdog(db, v, j, now, stuck, maxRetries)
    case BeginDeleteStep(v) => BeginDelete(db, v)
    case RemoveObjectStep(_, name) => db.(objects := db.objects - {name})
    case FinalizeStep(v) => Finalize(db, v)
  }

  // ---- What every state keeps -----------------------------------------------------------

  predicate Playable(objects: Objects, prefix: Name) {
    PrefixExists(objects, prefix) && Closed(objects, prefix)
  }

  /** `published_prefix_exists` */
  predicate PrefixExists(objects: Objects, prefix: Name) {
    prefix + MASTER in objects && objects[prefix + MASTER].size > 0
  }

  predicate CompletedFor(db: DB, v: VideoId, j: nat) {
    j in db.jobs && db.jobs[j].video == v && db.jobs[j].status.Completed?
  }

  /** This job's output is below its video's home and plays. */
  predicate Serves(db: DB, j: nat)
    requires j in db.jobs
  {
    var job := db.jobs[j];
    job.prefix.Some? && Home(job.video) <= job.prefix.value && Playable(db.objects, job.prefix.value)
  }

  ghost predicate JobSound(db: DB, j: nat)
    requires j in db.jobs
  {
    var job := db.jobs[j];
    && job.video in db.videos
    && job.dispatched <= 1
    && (job.status.Completed? ==>
          job.prefix.Some? && (db.videos[job.video].status.Ready? || db.videos[job.video].status.Deleting?))
    && (!Terminal(job.status) ==> !db.videos[job.video].status.Deleting?)
  }

  ghost predicate VideoSound(db: DB, v: VideoId)
    requires v in db.videos
  {
    && (db.videos[v].status.Ready? ==> exists j :: CompletedFor(db, v, j) && Serves(db, j))
    && (forall j, k :: CompletedFor(db, v, j) && CompletedFor(db, v, k) ==> j == k)
  }

  ghost predicate Inv(db: DB) {
    && (forall j :: j in db.jobs ==> JobSound(db, j))
    && (forall v :: v in db.videos ==> VideoSound(db, v))
  }

  // ---- Steps keep it --------------------------------------------------------------------

  /** Whether a presentation is closed depends only on the objects below its prefix. */
  lemma ClosedBelowPrefix(a: Objects, b: Objects, prefix: Name)
    requires forall o :: prefix < o ==> (o in a <==> o in b) && (o in a ==> a[o] == b[o])
    requires Closed(a, prefix)
    ensures Closed(b, prefix)
  {
    FullName(prefix, MASTER);
    if prefix + MASTER in b {
      forall uri | uri in MasterPlaylists(a[prefix + MASTER].text.lines)
        ensures ListedCloses(b, prefix, uri)
      {
        assert ListedCloses(a, prefix, uri);
        var playlist := Navigate(Directory(MASTER), uri.path).name;
        FullName(prefix, playlist);
        forall asset | asset in MediaAssets(a[prefix + playlist].text.lines)
          ensures Leads(b, prefix, playlist, asset)
        {
          assert Leads(a, prefix, playlist, asset);
          FullName(prefix, Navigate(Directory(playlist), asset.path).name);
        }
      }
    }
  }

  lemma HomesApart(v: VideoId, w: VideoId, o: Name)
    requires Home(v) < o && Home(w) < o
    ensures v == w
  {
    assert o[1] == Home(v)[1] && o[1] == Home(w)[1];
  }

  /** Writes below one video's home leave what every other video has published playable. */
  lemma OthersStayPlayable(before: Objects, after: Objects, v: VideoId, w: VideoId, prefix: Name)
    requires SameOutside(before, after, Home(v)) && w != v && Home(w) <= prefix && Playable(before, prefix)
    ensures Playable(after, prefix)
  {
    forall o | prefix < o
      ensures (o in before <==> o in after) && (o in after ==> before[o] == after[o])
    {
      if Home(v) < o {
        HomesApart(v, w, o);
      }
    }
    FullName(prefix, MASTER);
    ClosedBelowPrefix(before, after, prefix);
  }

  lemma PackageStaysAtHome(db: DB, j: nat, version: string, local: Option<Files>, after: Objects, committed: bool)
    requires LockCurrent(db, j, true) == Current && !db.jobs[j].status.Completed?
    requires PackageCan(db, j, version, local, after, committed)
    ensures SameOutside(db.objects, after, Home(db.jobs[j].video))
  {
  }

  /** A step that touches no object and, per video, keeps `ready` and the completed jobs. */
  lemma QuietVideoSound(db: DB, db': DB, v: VideoId)
    requires Inv(db) && v in db'.videos && db'.objects == db.objects
    requires db'.videos[v].status.Ready? ==> v in db.videos && db.videos[v].status.Ready?
    requires forall j :: CompletedFor(db', v, j) <==> CompletedFor(db, v, j)
    requires forall j :: CompletedFor(db, v, j) ==> j in db'.jobs && db'.jobs[j] == db.jobs[j]
    ensures VideoSound(db', v)
  {
    if v in db.videos {
      assert VideoSound(db, v);
      if db'.videos[v].status.Ready? {
        var j :| CompletedFor(db, v, j) && Serves(db, j);
        assert CompletedFor(db', v, j) && Serves(db', j);
      }
    } else {
      assert forall j :: j in db.jobs ==> JobSound(db, j);
    }
  }

  lemma IngestKeepsInv(db: DB, v: VideoId, j: nat, now: int)
    requires Inv(db)
    ensures Inv(Ingest(db, v, j, now))
  {
    var db' := Ingest(db, v, j, now);
    forall k | k in db'.jobs
      ensures JobSound(db', k)
    {
      assert k in db.jobs ==> JobSound(db, k);
    }
    forall w | w in db'.videos
      ensures VideoSound(db', w)
    {
      QuietVideoSound(db, db', w);
    }
  }

  /** Steps of a current, not completed generation: its video is neither ready nor deleting,
      so it has no completed job. */
  lemma CurrentHasNoCompleted(db: DB, j: nat, k: nat)
    requires Inv(db) && LockCurrent(db, j, true) == Current && !db.jobs[j].status.Completed?
    ensures !CompletedFor(db, db.jobs[j].video, k)
    ensures !db.videos[db.jobs[j].video].status.Ready? && !db.videos[db.jobs[j].video].status.Deleting?
  {
    assert k in db.jobs ==> JobSound(db, k);
  }

  /** Changing one not-completed job and its video's not-ready, not-deleting status. */
  lemma OneJobKeepsInv(db: DB, j: nat, job: Job, status: VideoStatus)
    requires Inv(db) && j in db.jobs && !db.jobs[j].status.Completed?
    requires job.video == db.jobs[j].video && !job.status.Completed? && job.dispatched <= 1
    requires db.jobs[j].video in db.videos
    requires db.jobs[j].status.JobFailed? ==> job.status.JobFailed?
    requires status == db.videos[job.video].status ||
             (!status.Ready? && !status.Deleting? && forall k :: !CompletedFor(db, job.video, k))
    ensures Inv(SetVideo(SetJob(db, j, job), job.video, db.videos[job.video].(status := status)))
  {
    var db' := SetVideo(SetJob(db, j, job), job.video, db.videos[job.video].(status := status));
    forall k | k in db'.jobs
      ensures JobSound(db', k)
    {
      assert JobSound(db, k);
      if db.jobs[k].video == job.video && db.jobs[k].status.Completed? {
        assert CompletedFor(db, job.video, k);
      }
    }
    forall w | w in db'.videos
      ensures VideoSound(db', w)
    {
      QuietVideoSound(db, db', w);
    }
  }

  lemma QueueingKeepsInv(db: DB, j: nat)
    requires Inv(db)
    ensures Inv(MarkQueued(db, j))
  {
    var db' := MarkQueued(db, j);
    if db' != db {
      assert JobSound(db, j);
      var v := db.jobs[j].video;
      OneJobKeepsInv(db, j, db'.jobs[j], db.videos[v].status);
      assert db' == SetVideo(SetJob(db, j, db'.jobs[j]), v, db.videos[v]);
    }
  }

  lemma NoneCompleted(db: DB, j: nat)
    requires Inv(db) && LockCurrent(db, j, true) == Current && !db.jobs[j].status.Completed?
    ensures forall k :: !CompletedFor(db, db.jobs[j].video, k)
  {
    forall k
      ensures !CompletedFor(db, db.jobs[j].video, k)
    {
      CurrentHasNoCompleted(db, j, k);
    }
  }

  lemma TaskStepKeepsInv(db: DB, st: Step)
    requires Inv(db) && Can(db, st)
    requires st.MarkQueuedStep? || st.ClaimStep? || st.AdvanceStep? || st.DispatchStep? || st.FailStep?
    ensures Inv(Do(db, st))
  {
    if st.MarkQueuedStep? {
      QueueingKeepsInv(db, st.j);
    } else if Do(db, st) != db {
      var j := st.j;
      var db' := Do(db, st);
      assert JobSound(db, j);
      NoneCompleted(db, j);
      var v := db.jobs[j].video;
      OneJobKeepsInv(db, j, db'.jobs[j], db'.videos[v].status);
      assert db.videos[v].(status := db'.videos[v].status) == db'.videos[v];
      assert db' == SetVideo(SetJob(db, j, db'.jobs[j]), v, db'.videos[v]);
    }
  }

  /** A ready video stays served when another one's home changes. */
  lemma OtherStaysServed(db: DB, db': DB, v: VideoId, w: VideoId)
    requires w in db.videos && w != v && db.videos[w].status.Ready? && VideoSound(db, w)
    requires SameOutside(db.objects, db'.objects, Home(v))
    requires forall k :: CompletedFor(db, w, k) ==> k in db'.jobs && db'.jobs[k] == db.jobs[k]
    ensures exists k :: CompletedFor(db', w, k) && Serves(db', k)
  {
    var k :| CompletedFor(db, w, k) && Serves(db, k);
    OthersStayPlayable(db.objects, db'.objects, v, w, db.jobs[k].prefix.value);
    assert CompletedFor(db', w, k) && Serves(db', k);
  }

  lemma PackageKeepsInv(db: DB, j: nat, version: string, local: Option<Files>, after: Objects, committed: bool)
    requires Inv(db) && PackageCan(db, j, version, local, after, committed)
    ensures Inv(Package(db, j, version, after, committed))
  {
    var db' := Package(db, j, version, after, committed);
    if LockCurrent(db, j, true) == Current && !db.jobs[j].status.Completed? {
      var v := db.jobs[j].video;
      CurrentHasNoCompleted(db, j, j);
      forall k | k in db'.jobs
        ensures JobSound(db', k)
      {
        assert JobSound(db, k);
        CurrentHasNoCompleted(db, j, k);
      }
      forall w | w in db'.videos
        ensures VideoSound(db', w)
      {
        if w == v {
          forall k
            ensures CompletedFor(db', v, k) <==> (committed && k == j)
          {
            CurrentHasNoCompleted(db, j, k);
          }
          if committed {
            var prefix := PublishPrefix(v, version).value;
            ValidatedIsClosed(after, prefix, local.value);
            FullName(prefix, MASTER);
            assert CompletedFor(db', v, j) && Serves(db', j);
          }
        } else {
          assert VideoSound(db, w);
          assert forall k :: CompletedFor(db', w, k) <==> CompletedFor(db, w, k);
          if db.videos[w].status.Ready? {
            PackageStaysAtHome(db, j, version, local, after, committed);
            OtherStaysServed(db, db', v, w);
          }
        }
      }
    }
  }

  /** Superseding all active jobs, adding a fresh one, and processing the video again. */
  lemma ReplaceKeepsInv(db: DB, v: VideoId, j: nat, now: int, cause: Cause)
    requires Inv(db) && v in db.videos && j !in db.jobs
    requires !db.videos[v].status.Ready? && !db.videos[v].status.Deleting?
    ensures Inv(DB(db.videos[v := Video(Processing, true)],
                   Supersede(db.jobs, v, j, cause)[j := NewJob(v, now)], db.objects))
  {
    var db' := DB(db.videos[v := Video(Processing, true)],
                  Supersede(db.jobs, v, j, cause)[j := NewJob(v, now)], db.objects);
    forall k | k in db'.jobs
      ensures JobSound(db', k)
    {
      assert k in db.jobs ==> JobSound(db, k);
    }
    forall w | w in db'.videos
      ensures VideoSound(db', w)
    {
      QuietVideoSound(db, db', w);
    }
  }

  lemma WatchdogKeepsInv(db: DB, v: VideoId, j: nat, now: int, stuck: bool, maxRetries: nat)
    requires Inv(db) && j !in db.jobs
    ensures Inv(Watchdog(db, v, j, now, stuck, maxRetries))
  {
    var db' := Watchdog(db, v, j, now, stuck, maxRetries);
    if db' != db {
      var c :| IsLatest(db, v, c) && !db.jobs[c].status.Completed? &&
               (db' == SetVideo(SetJob(db, c, db.jobs[c].(status := JobFailed, cause := TooManyRetries)),
                                v, db.videos[v].(status := VideoFailed)) ||
                db' == DB(db.videos[v := Video(Processing, true)],
                          Supersede(db.jobs, v, j, WatchdogRetry)[j := NewJob(v, now)], db.objects));
      assert JobSound(db, c);
      forall k
        ensures !CompletedFor(db, v, k)
      {
        CurrentHasNoCompleted(db, c, k);
      }
      OneJobKeepsInv(db, c, db.jobs[c].(status := JobFailed, cause := TooManyRetries), VideoFailed);
      ReplaceKeepsInv(db, v, j, now, WatchdogRetry);
    }
  }

  lemma DeletionKeepsInv(db: DB, st: Step)
    requires Inv(db) && Can(db, st)
    requires st.BeginDeleteStep? || st.RemoveObjectStep? || st.FinalizeStep?
    ensures Inv(Do(db, st))
  {
    var db' := Do(db, st);
    forall k | k in db'.jobs
      ensures JobSound(db', k)
    {
      assert JobSound(db, k);
    }
    forall w | w in db'.videos
      ensures VideoSound(db', w)
    {
      assert VideoSound(db, w);
      assert forall k :: CompletedFor(db', w, k) <==> CompletedFor(db, w, k);
      if st.RemoveObjectStep? {
        if db.videos[w].status.Ready? {
          assert w != st.v;
          OtherStaysServed(db, db', st.v, w);
        }
      } else {
        QuietVideoSound(db, db', w);
      }
    }
  }

  lemma CreationKeepsInv(db: DB, st: Step)
    requires Inv(db) && Can(db, st) && (st.CreateVideo? || st.SubmitJob?)
    ensures Inv(Do(db, st))
  {
    var db' := Do(db, st);
    forall k | k in db'.jobs
      ensures JobSound(db', k)
    {
      assert k in db.jobs ==> JobSound(db, k);
    }
    forall w | w in db'.videos
      ensures VideoSound(db', w)
    {
      QuietVideoSound(db, db', w);
    }
  }

  lemma StepKeepsInv(db: DB, st: Step)
    requires Inv(db) && Can(db, st)
    ensures Inv(Do(db, st))
  {
    match st
    case CreateVideo(_) => CreationKeepsInv(db, st);
    case SubmitJob(_, _, _) => CreationKeepsInv(db, st);
    case IngestStep(v, j, now) => IngestKeepsInv(db, v, j, now);
    case PackageStep(j, version, local, after, committed) => PackageKeepsInv(db, j, version, local, after, committed);
    case RetryStep(v, j, now) =>
      if Retry(db, v, j, now) != db {
        ReplaceKeepsInv(db, v, j, now, ManualRetry);
      }
    case WatchdogStep(v, j, now, stuck, maxRetries) => WatchdogKeepsInv(db, v, j, now, stuck, maxRetries);
    case BeginDeleteStep(_) => DeletionKeepsInv(db, st);
    case RemoveObjectStep(_, _) => DeletionKeepsInv(db, st);
    case FinalizeStep(_) => DeletionKeepsInv(db, st);
    case _ => TaskStepKeepsInv(db, st);
  }

  // ---- Runs -------------------------------------------------------------------------------

  ghost predicate Legal(db: DB, run: seq<Step>)
    decreases |run|
  {
    run == [] || (Can(db, run[0]) && Legal(Do(db, run[0]), run[1..]))
  }

  ghost function After(db: DB, run: seq<Step>): DB
    requires Legal(db, run)
    decreases |run|
  {
    if run == [] then db else After(Do(db, run[0]), run[1..])
  }

  lemma EmptyIsSound()
    ensures Inv(DB(map[], map[], map[]))
  {
  }

  /** In every run: a completed job's video is ready or deleting; a ready video has exactly
      one completed job, and its master and everything it leads to are in the store; a
      deleting video has no active job; no job is dispatched twice. */
  lemma {:induction false} RunsKeepInv(db: DB, run: seq<Step>)
    requires Inv(db) && Legal(db, run)
    ensures Inv(After(db, run))
    decreases |run|
  {
    if run != [] {
      StepKeepsInv(db, run[0]);
      RunsKeepInv(Do(db, run[0]), run[1..]);
    }
  }

  /** One job row over time: terminal states absorb, with what they published; the stage never
      falls back, and it is dispatched at most once. */
  predicate Forward(before: Job, after: Job) {
    && after.video == before.video
    && (Terminal(before.status) ==>
          after.status == before.status && after.dispatched == before.dispatched && after.prefix == before.prefix)
    && (!Terminal(after.status) ==> Order(before.status) <= Order(after.status))
    && before.dispatched <= after.dispatched <= 1
  }

  predicate ByTask(st: Step) {
    st.MarkQueuedStep? || st.ClaimStep? || st.AdvanceStep? || st.DispatchStep? || st.FailStep? || st.PackageStep?
  }

  lemma TasksMoveForward(db: DB, st: Step, j: nat)
    requires Inv(db) && Can(db, st) && j in db.jobs && ByTask(st)
    ensures j in Do(db, st).jobs && Forward(db.jobs[j], Do(db, st).jobs[j])
  {
    assert JobSound(db, j);
  }

  lemma OthersMoveForward(db: DB, st: Step, j: nat)
    requires Inv(db) && Can(db, st) && j in db.jobs && j in Do(db, st).jobs && !ByTask(st)
    ensures Forward(db.jobs[j], Do(db, st).jobs[j])
  {
    assert JobSound(db, j);
  }

  lemma StepMovesForward(db: DB, st: Step, j: nat)
    requires Inv(db) && Can(db, st) && j in db.jobs && j in Do(db, st).jobs
    ensures Forward(db.jobs[j], Do(db, st).jobs[j])
  {
    if ByTask(st) {
      TasksMoveForward(db, st, j);
    } else {
      OthersMoveForward(db, st, j);
    }
  }

  ghost predicate NeverFinalized(run: seq<Step>, v: VideoId) {
    forall st :: st in run ==> st != FinalizeStep(v)
  }

  /** Jobs only move forward over whole runs, for as long as their video exists. */
  lemma {:induction false} RunsMoveForward(db: DB, run: seq<Step>, j: nat)
    requires Inv(db) && Legal(db, run) && j in db.jobs && NeverFinalized(run, db.jobs[j].video)
    ensures j in After(db, run).jobs && Forward(db.jobs[j], After(db, run).jobs[j])
    decreases |run|
  {
    assert JobSound(db, j);
    if run != [] {
      assert run[0] in run;
      assert forall st :: st in run[1..] ==> st in run;
      StepKeepsInv(db, run[0]);
      StepMovesForward(db, run[0], j);
      RunsMoveForward(Do(db, run[0]), run[1..], j);
    }
  }

  /** A generation marked failed, by supersession or otherwise, never passes the fence again. */
  lemma FailedStaysFenced(db: DB, run: seq<Step>, j: nat, allowCompleted: bool)
    requires Inv(db) && Legal(db, run) && j in db.jobs && db.jobs[j].status.JobFailed?
    requires NeverFinalized(run, db.jobs[j].video)
    ensures LockCurrent(After(db, run), j, allowCompleted) != Current
  {
    RunsMoveForward(db, run, j);
  }

  /** A ready video stays ready, playable and completed by the same job until somebody begins
      to delete it. */
  lemma {:induction false} ReadyUntilDeleted(db: DB, run: seq<Step>, v: VideoId, j: nat)
    requires Inv(db) && Legal(db, run) && v in db.videos && db.videos[v].status.Ready? && CompletedFor(db, v, j)
    requires forall st :: st in run ==> st != BeginDeleteStep(v)
    ensures var t := After(db, run);
            && v in t.videos && t.videos[v].status.Ready?
            && CompletedFor(t, v, j) && Serves(t, j) && t.jobs[j].prefix == db.jobs[j].prefix
    decreases |run|
  {
    assert VideoSound(db, v);
    if run != [] {
      assert run[0] in run;
      assert forall st :: st in run[1..] ==> st in run;
      StepKeepsInv(db, run[0]);
      ReadyStep(db, run[0], v, j);
      ReadyUntilDeleted(Do(db, run[0]), run[1..], v, j);
    }
  }

  lemma ReadyStep(db: DB, st: Step, v: VideoId, j: nat)
    requires Inv(db) && Can(db, st) && v in db.videos && db.videos[v].status.Ready? && CompletedFor(db, v, j)
    requires st != BeginDeleteStep(v)
    ensures var t := Do(db, st);
            v in t.videos && t.videos[v].status.Ready? && CompletedFor(t, v, j) && t.jobs[j].prefix == db.jobs[j].prefix
  {
    if j in Do(db, st).jobs {
      StepMovesForward(db, st, j);
    }
    if st.ClaimStep? || st.FailStep? {
      assert st.j in db.jobs ==> JobSound(db, st.j);
    }
  }

  /** An accepted retry is the current generation at once, whatever the clocks say: every other
      job of the video is failed by then. */
  lemma RetryTakesOver(db: DB, v: VideoId, j: nat, now: int)
    requires Inv(db) && j !in db.jobs && v in db.videos
    requires !db.videos[v].status.Ready? && !db.videos[v].status.Deleting? && Recoverable(db, v)
    ensures LockCurrent(Retry(db, v, j, now), j, false) == Current
  {
    var db' := Retry(db, v, j, now);
    forall k | k in db'.jobs && Candidate(db', v, k)
      ensures k == j
    {
      assert k in db.jobs ==> JobSound(db, k);
    }
  }

  // ---- What the watchdog does -----------------------------------------------------------------

  /** A video in progress with an unfinished current generation, which is what a round looks at. */
  ghost predicate Watched(db: DB, v: VideoId) {
    v in db.videos && db.videos[v].status.Processing? && exists c :: IsLatest(db, v, c) && !Terminal(db.jobs[c].status)
  }

  /** What is not watched, and what makes progress and has retries left, is left alone. */
  lemma WatchdogLeavesAlone(db: DB, v: VideoId, j: nat, now: int, stuck: bool, maxRetries: nat)
    requires Inv(db) && j !in db.jobs
    requires !Watched(db, v) || (!stuck && |WatchdogRetries(db.jobs, v)| < maxRetries)
    ensures Watchdog(db, v, j, now, stuck, maxRetries) == db
  {
    if v in db.videos && exists c :: IsLatest(db, v, c) {
      var c :| IsLatest(db, v, c);
      assert forall d :: IsLatest(db, v, d) ==> d == c;
    }
  }

  lemma WatchdogRestarts(db: DB, v: VideoId, j: nat, now: int, maxRetries: nat)
    requires j !in db.jobs && Watched(db, v) && db.videos[v].source && |WatchdogRetries(db.jobs, v)| < maxRetries
    ensures Watchdog(db, v, j, now, true, maxRetries) ==
            DB(db.videos[v := Video(Processing, true)],
               Supersede(db.jobs, v, j, WatchdogRetry)[j := NewJob(v, now)], db.objects)
  {
    var c :| IsLatest(db, v, c) && !Terminal(db.jobs[c].status);
    assert forall d :: IsLatest(db, v, d) ==> d == c;
  }

  /** A stuck one with a source and retries left is run again: the new generation passes the fence,
      no other one does, and one retry at least is used up. */
  lemma WatchdogRetriesStuck(db: DB, v: VideoId, j: nat, now: int, maxRetries: nat)
    requires Inv(db) && j !in db.jobs && Watched(db, v) && db.videos[v].source
    requires |WatchdogRetries(db.jobs, v)| < maxRetries
    ensures var db' := Watchdog(db, v, j, now, true, maxRetries);
            && j in db'.jobs && LockCurrent(db', j, false) == Current
            && (forall k :: k in db'.jobs && db'.jobs[k].video == v && k != j ==> LockCurrent(db', k, false) != Current)
            && |WatchdogRetries(db'.jobs, v)| > |WatchdogRetries(db.jobs, v)|
  {
    var db' := Watchdog(db, v, j, now, true, maxRetries);
    WatchdogRestarts(db, v, j, now, maxRetries);
    forall k | k in db'.jobs && Candidate(db', v, k)
      ensures k == j
    {
      assert k in db.jobs ==> JobSound(db, k);
    }
    var c :| IsLatest(db, v, c) && !Terminal(db.jobs[c].status);
    SupersededCounts(db, v, j, now, c);
  }

  lemma SupersededCounts(db: DB, v: VideoId, j: nat, now: int, c: nat)
    requires j !in db.jobs && Active(db, v, c)
    ensures |WatchdogRetries(Supersede(db.jobs, v, j, WatchdogRetry)[j := NewJob(v, now)], v)| > |WatchdogRetries(db.jobs, v)|
  {
    var before := WatchdogRetries(db.jobs, v);
    var after := WatchdogRetries(Supersede(db.jobs, v, j, WatchdogRetry)[j := NewJob(v, now)], v);
    assert before <= after && c in after && c !in before;
    MoreElements(before, after, c);
  }

  lemma MoreElements(a: set<nat>, b: set<nat>, x: nat)
    requires a <= b && x in b && x !in a
    ensures |a| < |b|
  {
    assert b == a + {x} + (b - a - {x});
  }

  /** Out of retries, the video fails, stuck or not, and no generation of it passes the fence. */
  lemma WatchdogGivesUp(db: DB, v: VideoId, j: nat, now: int, stuck: bool, maxRetries: nat)
    requires Inv(db) && j !in db.jobs && Watched(db, v) && |WatchdogRetries(db.jobs, v)| >= maxRetries
    ensures var db' := Watchdog(db, v, j, now, stuck, maxRetries);
            && db'.videos[v].status.VideoFailed? && db'.jobs.Keys == db.jobs.Keys
            && forall k :: k in db'.jobs && db'.jobs[k].video == v ==> LockCurrent(db', k, false) != Current
  {
    var c :| IsLatest(db, v, c) && !Terminal(db.jobs[c].status);
    assert forall d :: IsLatest(db, v, d) ==> d == c;
  }

  // ---- The way to a ready video ----------------------------------------------------------------

  /** The database with a new generation of a video on its way. */
  function OnItsWay(db: DB, v: VideoId, j: nat, now: int, status: JobStatus, dispatched: nat): DB {
    DB(db.videos[v := Video(Processing, true)],
       db.jobs[j := NewJob(v, now).(status := status, dispatched := dispatched)], db.objects)
  }

  predicate Newest(db: DB, v: VideoId, j: nat, now: int) {
    j !in db.jobs && forall k :: k in db.jobs && db.jobs[k].video == v ==> db.jobs[k].created < now
  }

  lemma OnItsWayIsCurrent(db: DB, v: VideoId, j: nat, now: int, status: JobStatus, dispatched: nat)
    requires Newest(db, v, j, now) && !Terminal(status)
    ensures LockCurrent(OnItsWay(db, v, j, now, status, dispatched), j, true) == Current
  {
    var t := OnItsWay(db, v, j, now, status, dispatched);
    assert IsLatest(t, v, j);
  }

  /** The steps of a pipeline that nothing disturbs: up to its dispatch, and from then on. */
  function UpToDispatch(v: VideoId, j: nat, now: int): seq<Step> {
    [IngestStep(v, j, now), MarkQueuedStep(j), ClaimStep(j, v), AdvanceStep(j, Probing)]
  }

  function FromDispatch(j: nat, last: Step): seq<Step> {
    [DispatchStep(j, true), AdvanceStep(j, Extracting), AdvanceStep(j, Transcoding), last]
  }

  ghost predicate RunLeads(db: DB, run: seq<Step>, end: DB) {
    Legal(db, run) && After(db, run) == end
  }

  lemma OneStep(db: DB, st: Step, t: DB, rest: seq<Step>, end: DB)
    requires Can(db, st) && Do(db, st) == t && RunLeads(t, rest, end)
    ensures RunLeads(db, [st] + rest, end)
  {
    assert ([st] + rest)[1..] == rest;
  }

  lemma IngestedOnItsWay(db: DB, v: VideoId, j: nat, now: int, rest: seq<Step>, end: DB)
    requires v in db.videos && !db.videos[v].status.Ready? && !db.videos[v].status.Deleting? && Newest(db, v, j, now)
    requires RunLeads(OnItsWay(db, v, j, now, Pending, 0), rest, end)
    ensures RunLeads(db, [IngestStep(v, j, now)] + rest, end)
  {
    OneStep(db, IngestStep(v, j, now), OnItsWay(db, v, j, now, Pending, 0), rest, end);
  }

  lemma QueuedOnItsWay(db: DB, v: VideoId, j: nat, now: int, rest: seq<Step>, end: DB)
    requires Newest(db, v, j, now) && RunLeads(OnItsWay(db, v, j, now, Queued, 0), rest, end)
    ensures RunLeads(OnItsWay(db, v, j, now, Pending, 0), [MarkQueuedStep(j)] + rest, end)
  {
    var s, t := OnItsWay(db, v, j, now, Pending, 0), OnItsWay(db, v, j, now, Queued, 0);
    assert MarkQueued(s, j) == t;
    OneStep(s, MarkQueuedStep(j), t, rest, end);
  }

  lemma ClaimedOnItsWay(db: DB, v: VideoId, j: nat, now: int, rest: seq<Step>, end: DB)
    requires Newest(db, v, j, now) && RunLeads(OnItsWay(db, v, j, now, Queued, 0), rest, end)
    ensures RunLeads(OnItsWay(db, v, j, now, Queued, 0), [ClaimStep(j, v)] + rest, end)
  {
    ClaimsOnItsWay(db, v, j, now);
    OneStep(OnItsWay(db, v, j, now, Queued, 0), ClaimStep(j, v), OnItsWay(db, v, j, now, Queued, 0), rest, end);
  }

  lemma DispatchOnItsWay(db: DB, v: VideoId, j: nat, now: int, rest: seq<Step>, end: DB)
    requires Newest(db, v, j, now) && RunLeads(OnItsWay(db, v, j, now, Queued, 1), rest, end)
    ensures RunLeads(OnItsWay(db, v, j, now, Queued, 0), [DispatchStep(j, true)] + rest, end)
  {
    DispatchedOnItsWay(db, v, j, now);
    OneStep(OnItsWay(db, v, j, now, Queued, 0), DispatchStep(j, true), OnItsWay(db, v, j, now, Queued, 1), rest, end);
  }

  lemma AdvanceOnItsWay(
    db: DB, v: VideoId, j: nat, now: int, status: JobStatus, dispatched: nat, to: JobStatus, rest: seq<Step>, end: DB)
    requires Newest(db, v, j, now) && !Terminal(status) && (to.Probing? || to.Extracting? || to.Transcoding?)
    requires RunLeads(OnItsWay(db, v, j, now, if Order(to) < Order(status) then status else to, dispatched), rest, end)
    ensures RunLeads(OnItsWay(db, v, j, now, status, dispatched), [AdvanceStep(j, to)] + rest, end)
  {
    AdvancesOnItsWay(db, v, j, now, status, dispatched, to);
    OneStep(OnItsWay(db, v, j, now, status, dispatched), AdvanceStep(j, to),
            OnItsWay(db, v, j, now, if Order(to) < Order(status) then status else to, dispatched), rest, end);
  }

  lemma DispatchedRuns(db: DB, v: VideoId, j: nat, now: int, last: Step, end: DB)
    requires Newest(db, v, j, now) && RunLeads(OnItsWay(db, v, j, now, Transcoding, 1), [last], end)
    ensures RunLeads(OnItsWay(db, v, j, now, Queued, 0), FromDispatch(j, last), end)
  {
    AdvanceOnItsWay(db, v, j, now, Extracting, 1, Transcoding, [last], end);
    var r := [AdvanceStep(j, Transcoding), last];
    assert [AdvanceStep(j, Transcoding)] + [last] == r;
    AdvanceOnItsWay(db, v, j, now, Queued, 1, Extracting, r, end);
    DispatchOnItsWay(db, v, j, now, [AdvanceStep(j, Extracting)] + r, end);
    assert [DispatchStep(j, true)] + ([AdvanceStep(j, Extracting)] + r) == FromDispatch(j, last);
  }

  lemma PipelineRuns(db: DB, v: VideoId, j: nat, now: int, rest: seq<Step>, end: DB)
    requires v in db.videos && !db.videos[v].status.Ready? && !db.videos[v].status.Deleting? && Newest(db, v, j, now)
    requires RunLeads(OnItsWay(db, v, j, now, Queued, 0), rest, end)
    ensures RunLeads(db, UpToDispatch(v, j, now) + rest, end)
  {
    AdvanceOnItsWay(db, v, j, now, Queued, 0, Probing, rest, end);
    var r := [AdvanceStep(j, Probing)] + rest;
    ClaimedOnItsWay(db, v, j, now, r, end);
    QueuedOnItsWay(db, v, j, now, [ClaimStep(j, v)] + r, end);
    IngestedOnItsWay(db, v, j, now, [MarkQueuedStep(j)] + ([ClaimStep(j, v)] + r), end);
    assert [IngestStep(v, j, now)] + ([MarkQueuedStep(j)] + ([ClaimStep(j, v)] + r)) == UpToDispatch(v, j, now) + rest;
  }

  lemma ClaimsOnItsWay(db: DB, v: VideoId, j: nat, now: int)
    requires Newest(db, v, j, now)
    ensures Claim(OnItsWay(db, v, j, now, Queued, 0), j, v) == OnItsWay(db, v, j, now, Queued, 0)
  {
    OnItsWayIsCurrent(db, v, j, now, Queued, 0);
  }

  lemma DispatchedOnItsWay(db: DB, v: VideoId, j: nat, now: int)
    requires Newest(db, v, j, now)
    ensures Dispatch(OnItsWay(db, v, j, now, Queued, 0), j, true) == OnItsWay(db, v, j, now, Queued, 1)
  {
    OnItsWayIsCurrent(db, v, j, now, Queued, 0);
  }

  lemma AdvancesOnItsWay(db: DB, v: VideoId, j: nat, now: int, status: JobStatus, dispatched: nat, to: JobStatus)
    requires Newest(db, v, j, now) && !Terminal(status)
    ensures Advance(OnItsWay(db, v, j, now, status, dispatched), j, to) ==
            OnItsWay(db, v, j, now, if Order(to) < Order(status) then status else to, dispatched)
  {
    OnItsWayIsCurrent(db, v, j, now, status, dispatched);
  }

  /** The steps of a pipeline from its persisted job on. */
  function FromPending(v: VideoId, j: nat, last: Step): seq<Step> {
    [MarkQueuedStep(j), ClaimStep(j, v), AdvanceStep(j, Probing)] + FromDispatch(j, last)
  }

  /** This job is completed, dispatched once, and what it published is served for a ready video. */
  predicate GotThere(t: DB, v: VideoId, j: nat, prefix: Name, after: Objects) {
    && v in t.videos && t.videos[v].status.Ready? && CompletedFor(t, v, j) && Serves(t, j)
    && t.jobs[j].dispatched == 1 && t.jobs[j].prefix == Some(prefix) && t.objects == after
  }

  /** The last step: the package task publishes and commits. */
  lemma PackagedAtLast(
    db: DB, v: VideoId, j: nat, now: int, version: string, files: Files, after: Objects, prefix: Name) returns (ready: DB)
    requires Newest(db, v, j, now)
    requires PublishPrefix(v, version) == Some(prefix) && Collected(files) && SameOutside(db.objects, after, prefix)
    requires IsPublished(after, prefix, Some(files)) && files[MASTER].size > 0
    ensures RunLeads(OnItsWay(db, v, j, now, Transcoding, 1), [PackageStep(j, version, Some(files), after, true)], ready)
    ensures GotThere(ready, v, j, prefix, after)
  {
    var t, last := OnItsWay(db, v, j, now, Transcoding, 1), PackageStep(j, version, Some(files), after, true);
    OnItsWayIsCurrent(db, v, j, now, Transcoding, 1);
    FullName(prefix, MASTER);
    ValidatedIsClosed(after, prefix, files);
    assert Can(t, last);
    ready := Do(t, last);
    OneStep(t, last, ready, [], ready);
    assert [last] + [] == [last];
  }

  /** An upload to a video that is neither ready nor being deleted, whatever happened to it
      before, gets there when nothing disturbs it: dispatched once, published, served and ready. */
  lemma UploadsBecomeReady(
    db: DB, v: VideoId, j: nat, now: int, version: string, files: Files, after: Objects, prefix: Name)
    requires v in db.videos && !db.videos[v].status.Ready? && !db.videos[v].status.Deleting? && Newest(db, v, j, now)
    requires PublishPrefix(v, version) == Some(prefix) && Collected(files) && SameOutside(db.objects, after, prefix)
    requires IsPublished(after, prefix, Some(files)) && files[MASTER].size > 0
    ensures var run := UpToDispatch(v, j, now) + FromDispatch(j, PackageStep(j, version, Some(files), after, true));
            Legal(db, run) && GotThere(After(db, run), v, j, prefix, after)
  {
    var last := PackageStep(j, version, Some(files), after, true);
    var ready := PackagedAtLast(db, v, j, now, version, files, after, prefix);
    DispatchedRuns(db, v, j, now, last, ready);
    PipelineRuns(db, v, j, now, FromDispatch(j, last), ready);
  }

  /** The same for a video that is only now created. */
  lemma NewVideosBecomeReady(
    db: DB, v: VideoId, j: nat, now: int, version: string, files: Files, after: Objects, prefix: Name)
    requires Inv(db) && v !in db.videos && j !in db.jobs
    requires PublishPrefix(v, version) == Some(prefix) && Collected(files) && SameOutside(db.objects, after, prefix)
    requires IsPublished(after, prefix, Some(files)) && files[MASTER].size > 0
    ensures var last := PackageStep(j, version, Some(files), after, true);
            var run := [CreateVideo(v)] + (UpToDispatch(v, j, now) + FromDispatch(j, last));
            Legal(db, run) && GotThere(After(db, run), v, j, prefix, after)
  {
    NoJobsYet(db, v, j, now);
    var created := Do(db, CreateVideo(v));
    var rest := UpToDispatch(v, j, now) + FromDispatch(j, PackageStep(j, version, Some(files), after, true));
    UploadsBecomeReady(created, v, j, now, version, files, after, prefix);
    OneStep(db, CreateVideo(v), created, rest, After(created, rest));
  }

  lemma PendingRuns(db: DB, v: VideoId, j: nat, now: int, last: Step, end: DB)
    requires Newest(db, v, j, now) && RunLeads(OnItsWay(db, v, j, now, Transcoding, 1), [last], end)
    ensures RunLeads(OnItsWay(db, v, j, now, Pending, 0), FromPending(v, j, last), end)
  {
    DispatchedRuns(db, v, j, now, last, end);
    AdvanceOnItsWay(db, v, j, now, Queued, 0, Probing, FromDispatch(j, last), end);
    var r := [AdvanceStep(j, Probing)] + FromDispatch(j, last);
    ClaimedOnItsWay(db, v, j, now, r, end);
    QueuedOnItsWay(db, v, j, now, [ClaimStep(j, v)] + r, end);
    assert [MarkQueuedStep(j)] + ([ClaimStep(j, v)] + r) == FromPending(v, j, last);
  }

  /** A step that replaces the generations of a video by a new one leads to a ready video when
      nothing disturbs the new one. */
  lemma ReplacementBecomesReady(
    db: DB, st: Step, v: VideoId, j: nat, now: int, cause: Cause, version: string, files: Files, after: Objects,
    prefix: Name)
    requires Can(db, st) && Newest(db, v, j, now)
    requires Do(db, st) ==
             DB(db.videos[v := Video(Processing, true)], Supersede(db.jobs, v, j, cause)[j := NewJob(v, now)], db.objects)
    requires PublishPrefix(v, version) == Some(prefix) && Collected(files) && SameOutside(db.objects, after, prefix)
    requires IsPublished(after, prefix, Some(files)) && files[MASTER].size > 0
    ensures var run := [st] + FromPending(v, j, PackageStep(j, version, Some(files), after, true));
            Legal(db, run) && GotThere(After(db, run), v, j, prefix, after)
  {
    var former := db.(jobs := Supersede(db.jobs, v, j, cause));
    var last := PackageStep(j, version, Some(files), after, true);
    assert Do(db, st) == OnItsWay(former, v, j, now, Pending, 0);
    var ready := PackagedAtLast(former, v, j, now, version, files, after, prefix);
    PendingRuns(former, v, j, now, last, ready);
    OneStep(db, st, OnItsWay(former, v, j, now, Pending, 0), FromPending(v, j, last), ready);
  }

  /** A manual retry of any video that is neither ready nor being deleted and can be recovered. */
  lemma RetriesBecomeReady(
    db: DB, v: VideoId, j: nat, now: int, version: string, files: Files, after: Objects, prefix: Name)
    requires v in db.videos && !db.videos[v].status.Ready? && !db.videos[v].status.Deleting? && Recoverable(db, v)
    requires Newest(db, v, j, now)
    requires PublishPrefix(v, version) == Some(prefix) && Collected(files) && SameOutside(db.objects, after, prefix)
    requires IsPublished(after, prefix, Some(files)) && files[MASTER].size > 0
    ensures var run := [RetryStep(v, j, now)] + FromPending(v, j, PackageStep(j, version, Some(files), after, true));
            Legal(db, run) && GotThere(After(db, run), v, j, prefix, after)
  {
    ReplacementBecomesReady(db, RetryStep(v, j, now), v, j, now, ManualRetry, version, files, after, prefix);
  }

  /** The same for the watchdog's own retry of a stuck job, while it has retries left. */
  lemma StuckJobsBecomeReady(
    db: DB, v: VideoId, j: nat, now: int, maxRetries: nat, version: string, files: Files, after: Objects, prefix: Name)
    requires Inv(db) && Watched(db, v) && db.videos[v].source && |WatchdogRetries(db.jobs, v)| < maxRetries
    requires Newest(db, v, j, now)
    requires PublishPrefix(v, version) == Some(prefix) && Collected(files) && SameOutside(db.objects, after, prefix)
    requires IsPublished(after, prefix, Some(files)) && files[MASTER].size > 0
    ensures var run := [WatchdogStep(v, j, now, true, maxRetries)] +
                       FromPending(v, j, PackageStep(j, version, Some(files), after, true));
            Legal(db, run) && GotThere(After(db, run), v, j, prefix, after)
  {
    WatchdogRestarts(db, v, j, now, maxRetries);
    ReplacementBecomesReady(
      db, WatchdogStep(v, j, now, true, maxRetries), v, j, now, WatchdogRetry, version, files, after, prefix);
  }

  /** And for a job submitted for an id without a row. */
  lemma SubmissionsBecomeReady(
    db: DB, v: VideoId, j: nat, now: int, version: string, files: Files, after: Objects, prefix: Name)
    requires Inv(db) && v !in db.videos && j !in db.jobs
    requires PublishPrefix(v, version) == Some(prefix) && Collected(files) && SameOutside(db.objects, after, prefix)
    requires IsPublished(after, prefix, Some(files)) && files[MASTER].size > 0
    ensures var last := PackageStep(j, version, Some(files), after, true);
            var run := [SubmitJob(v, j, now)] + FromPending(v, j, last);
            Legal(db, run) && GotThere(After(db, run), v, j, prefix, after)
  {
    NoJobsYet(db, v, j, now);
    var last := PackageStep(j, version, Some(files), after, true);
    var ready := PackagedAtLast(db, v, j, now, version, files, after, prefix);
    DispatchedRuns(db, v, j, now, last, ready);
    AdvanceOnItsWay(db, v, j, now, Queued, 0, Probing, FromDispatch(j, last), ready);
    SubmittedOnItsWay(db, v, j, now, [AdvanceStep(j, Probing)] + FromDispatch(j, last), ready);
    PendingInSteps(v, j, last);
  }

  lemma NoJobsYet(db: DB, v: VideoId, j: nat, now: int)
    requires Inv(db) && v !in db.videos && j !in db.jobs
    ensures Newest(db, v, j, now)
  {
    assert forall k :: k in db.jobs ==> JobSound(db, k);
  }

  lemma PendingInSteps(v: VideoId, j: nat, last: Step)
    ensures [MarkQueuedStep(j)] + ([ClaimStep(j, v)] + ([AdvanceStep(j, Probing)] + FromDispatch(j, last))) ==
            FromPending(v, j, last)
  {
  }

  lemma SubmittedOnItsWay(db: DB, v: VideoId, j: nat, now: int, rest: seq<Step>, end: DB)
    requires v !in db.videos && Newest(db, v, j, now) && RunLeads(OnItsWay(db, v, j, now, Queued, 0), rest, end)
    ensures RunLeads(db, [SubmitJob(v, j, now)] + ([MarkQueuedStep(j)] + ([ClaimStep(j, v)] + rest)), end)
  {
    var submitted := Do(db, SubmitJob(v, j, now));
    var queued := MarkQueued(submitted, j);
    assert IsLatest(queued, v, j);
    assert Claim(queued, j, v) == OnItsWay(db, v, j, now, Queued, 0);
    OneStep(queued, ClaimStep(j, v), OnItsWay(db, v, j, now, Queued, 0), rest, end);
    OneStep(submitted, MarkQueuedStep(j), queued, [ClaimStep(j, v)] + rest, end);
    OneStep(db, SubmitJob(v, j, now), submitted, [MarkQueuedStep(j)] + ([ClaimStep(j, v)] + rest), end);
  }

  // ---- What a deletion does -------------------------------------------------------------------

  /** The tombstone is committed exactly for a video without unfinished jobs, whatever its status,
      and the row goes exactly behind it. */
  lemma DeletionProceedsExactly(db: DB, v: VideoId)
    requires Inv(db)
    ensures var t := BeginDelete(db, v);
            && (v in t.videos && t.videos[v].status.Deleting? <==> v in db.videos && forall j :: !Active(db, v, j))
            && (forall w :: w != v ==> (w in t.videos <==> w in db.videos) && (w in db.videos ==> t.videos[w] == db.videos[w]))
            && t.jobs == db.jobs
    ensures var t := Finalize(db, v);
            && (v in db.videos && v !in t.videos <==> v in db.videos && db.videos[v].status.Deleting?)
            && (v !in t.videos ==> forall j :: j in t.jobs <==> j in db.jobs && db.jobs[j].video != v)
  {
    if v in db.videos && db.videos[v].status.Deleting? {
      forall j | j in db.jobs && db.jobs[j].video == v
        ensures !Active(db, v, j)
      {
        assert JobSound(db, j);
      }
    }
    assert forall j :: Active(db, v, j) ==> AnyActive(db, v);
    assert v !in db.videos ==> forall j :: j in db.jobs ==> JobSound(db, j);
  }

  /** What is stored below the home of a video. */
  ghost function Below(objects: Objects, v: VideoId): set<Name> {
    set o | o in objects && Home(v) < o
  }

  /** Everything below the home of a deleting video can be removed, and nothing else is. */
  lemma {:induction false} RemovalsRun(db: DB, v: VideoId) returns (run: seq<Step>)
    requires v in db.videos && db.videos[v].status.Deleting?
    ensures Legal(db, run) && After(db, run) == db.(objects := db.objects - Below(db.objects, v))
    decreases |Below(db.objects, v)|
  {
    if Below(db.objects, v) == {} {
      run := [];
      assert db.objects - {} == db.objects;
    } else {
      var name :| name in Below(db.objects, v);
      var t := Do(db, RemoveObjectStep(v, name));
      assert Below(t.objects, v) == Below(db.objects, v) - {name};
      var rest := RemovalsRun(t, v);
      assert t.objects - Below(t.objects, v) == db.objects - Below(db.objects, v);
      OneStep(db, RemoveObjectStep(v, name), t, rest, After(t, rest));
      run := [RemoveObjectStep(v, name)] + rest;
    }
  }

  /** A video without unfinished jobs can be deleted to the end: its row, its jobs and everything
      below its home go, and nothing of any other video. */
  lemma DeletionsComplete(db: DB, v: VideoId) returns (run: seq<Step>)
    requires Inv(db) && v in db.videos && forall j :: !Active(db, v, j)
    ensures Legal(db, run)
    ensures var t := After(db, run);
            && t.videos == db.videos - {v} && t.objects == db.objects - Below(db.objects, v)
            && (forall j :: j in t.jobs <==> j in db.jobs && db.jobs[j].video != v)
            && (forall j :: j in t.jobs ==> t.jobs[j] == db.jobs[j])
  {
    var begun := Do(db, BeginDeleteStep(v));
    DeletionProceedsExactly(db, v);
    var removals := RemovalsRun(begun, v);
    var empty := After(begun, removals);
    assert !AnyActive(empty, v) by {
      assert forall j :: Active(empty, v, j) ==> Active(db, v, j);
    }
    var gone := Do(empty, FinalizeStep(v));
    assert gone.videos == db.videos - {v};
    StepsThenStep(begun, removals, FinalizeStep(v));
    OneStep(db, BeginDeleteStep(v), begun, removals + [FinalizeStep(v)], gone);
    run := [BeginDeleteStep(v)] + (removals + [FinalizeStep(v)]);
  }

  lemma {:induction false} StepsThenStep(db: DB, run: seq<Step>, st: Step)
    requires Legal(db, run) && Can(After(db, run), st)
    ensures RunLeads(db, run + [st], Do(After(db, run), st))
    decreases |run|
  {
    if run == [] {
      assert [st][1..] == [] && run + [st] == [st];
      assert After(Do(db, st), []) == Do(db, st);
    } else {
      assert (run + [st])[1..] == run[1..] + [st];
      StepsThenStep(Do(db, run[0]), run[1..], st);
    }
  }

  // ---- A second upload to a ready video -----------------------------------------------------

  /** A ready video that also has an unfinished job, as a second upload to it leaves behind. */
  predicate Stranded(db: DB, v: VideoId, j: nat) {
    v in db.videos && db.videos[v].status.Ready? && Active(db, v, j)
  }

  lemma StrandedStep(db: DB, st: Step, v: VideoId, j: nat)
    requires Inv(db) && Can(db, st) && Stranded(db, v, j)
    ensures Stranded(Do(db, st), v, j)
  {
    assert VideoSound(db, v);
    var c :| CompletedFor(db, v, c);
    assert AnyActive(db, v);
    if st != BeginDeleteStep(v) {
      ReadyStep(db, st, v, c);
    }
    if ByTask(st) {
      StrandedByTask(db, st, v, j);
    } else {
      StrandedByOthers(db, st, v, j);
    }
  }

  lemma StrandedByTask(db: DB, st: Step, v: VideoId, j: nat)
    requires Inv(db) && Can(db, st) && Stranded(db, v, j) && ByTask(st)
    ensures Active(Do(db, st), v, j)
  {
    assert LockCurrent(db, j, true) != Current;
  }

  lemma StrandedByOthers(db: DB, st: Step, v: VideoId, j: nat)
    requires Inv(db) && Can(db, st) && Stranded(db, v, j) && !ByTask(st)
    ensures Active(Do(db, st), v, j)
  {
  }

  /** A deletion of a ready video is refused exactly when it has an unfinished job; and since
      no task, retry or watchdog may touch a job of a ready video any more, once refused it is
      refused in every continuation. */
  lemma {:induction false} RefusedOnceRefusedForever(db: DB, run: seq<Step>, v: VideoId)
    requires Inv(db) && Legal(db, run) && v in db.videos && db.videos[v].status.Ready?
    requires BeginDelete(db, v) == db
    ensures var t := After(db, run);
            v in t.videos && t.videos[v].status.Ready? && BeginDelete(t, v) == t && AnyActive(t, v)
    decreases |run|
  {
    assert AnyActive(db, v);
    var j :| j in db.jobs && Active(db, v, j);
    if run != [] {
      StepKeepsInv(db, run[0]);
      StrandedStep(db, run[0], v, j);
      assert AnyActive(Do(db, run[0]), v);
      RefusedOnceRefusedForever(Do(db, run[0]), run[1..], v);
    }
  }

  /** Such a state is reached by ingesting another upload of a ready video. */
  lemma SecondUploadStrands(db: DB, v: VideoId, j: nat, now: int)
    requires Inv(db) && v in db.videos && db.videos[v].status.Ready? && j !in db.jobs
    ensures Stranded(Do(db, IngestStep(v, j, now)), v, j)
    ensures var t := Do(db, IngestStep(v, j, now)); BeginDelete(t, v) == t
  {
    assert AnyActive(Do(db, IngestStep(v, j, now)), v);
  }

  // ---- Workspaces -----------------------------------------------------------------------------

  datatype Reason = Keep | Orphan | FailedJob | Superseded | DeletingVideo | FailedVideo | CompletedDurable

  /** `_eligible_reason` on the state `_load_durable_state` reads under the row lock. */
  ghost function EligibleReason(db: DB, j: nat): Reason {
    if j !in db.jobs then Orphan
    else
      var job := db.jobs[j];
      if job.status.JobFailed? then FailedJob
      else if exists c :: c != j && IsLatest(db, job.video, c) then Superseded
      else if job.video !in db.videos then Keep
      else
        var status := db.videos[job.video].status;
        if status.Deleting? || status.Deleted? then DeletingVideo
        else if status.VideoFailed? && !job.status.Completed? then FailedVideo
        else if job.status.Completed? && status.Ready? && job.prefix.Some? && PrefixExists(db.objects, job.prefix.value)
        then CompletedDurable
        else Keep
  }

  lemma {:induction false} LatestExists(db: DB, v: VideoId, among: set<nat>, j: nat) returns (c: nat)
    requires j in among && among <= db.jobs.Keys && forall k :: k in among ==> Candidate(db, v, k)
    ensures c in among && forall k :: k in among ==> k == c || Newer(db, c, k)
    decreases |among|
  {
    if among == {j} {
      c := j;
    } else {
      var k :| k in among && k != j;
      var d := LatestExists(db, v, among - {k}, j);
      c := if Newer(db, k, d) then k else d;
      forall x | x in among
        ensures x == c || Newer(db, c, x)
      {
        assert x == k || x in among - {k};
      }
    }
  }

  /** A workspace that may be removed belongs to a job the fence rejects in that same state. */
  lemma EligibleIsFenced(db: DB, j: nat)
    requires EligibleReason(db, j) != Keep
    ensures LockCurrent(db, j, false) != Current
  {
  }

  /** Exactly which workspaces are kept: that of the generation which may still write, and
      that of an upload stranded on a ready video. */
  lemma KeptExactly(db: DB, j: nat)
    requires Inv(db)
    ensures EligibleReason(db, j) == Keep <==>
            LockCurrent(db, j, false) == Current ||
            (j in db.jobs && Stranded(db, db.jobs[j].video, j) && IsLatest(db, db.jobs[j].video, j))
  {
    if j in db.jobs && !db.jobs[j].status.JobFailed? {
      var v := db.jobs[j].video;
      assert JobSound(db, j) && VideoSound(db, v);
      if db.jobs[j].status.Completed? && db.videos[v].status.Ready? {
        var served :| CompletedFor(db, v, served) && Serves(db, served);
        assert CompletedFor(db, v, j) && served == j;
      }
      var among := set k | k in db.jobs && Candidate(db, v, k);
      var c := LatestExists(db, v, among, j);
      assert IsLatest(db, v, c);
    }
  }

  /** Supersession alone is not final. With two uploads of one video, the older job is not
      current and its workspace may go; when the newer one fails and the older upload's event
      is delivered again, the older job is current once more. */
  lemma SupersededCanComeBack(v: VideoId)
    ensures var db := DB(map[v := Video(Processing, true)],
                         map[0 := NewJob(v, 10), 1 := NewJob(v, 20)], map[]);
            && Inv(db)
            && EligibleReason(db, 0) == Superseded
            && Legal(db, [FailStep(1), IngestStep(v, 0, 30)])
            && LockCurrent(After(db, [FailStep(1), IngestStep(v, 0, 30)]), 0, false) == Current
  {
    var db := DB(map[v := Video(Processing, true)], map[0 := NewJob(v, 10), 1 := NewJob(v, 20)], map[]);
    assert IsLatest(db, v, 1);
    var db1 := Do(db, FailStep(1));
    assert db1 == DB(map[v := Video(VideoFailed, true)],
                     map[0 := NewJob(v, 10), 1 := NewJob(v, 20).(status := JobFailed, cause := TaskExhausted)], map[]);
    var db2 := Do(db1, IngestStep(v, 0, 30));
    assert db2 == db1.(videos := map[v := Video(Processing, true)]);
    assert IsLatest(db2, v, 0);
    var run := [FailStep(1), IngestStep(v, 0, 30)];
    assert run[1..] == [IngestStep(v, 0, 30)];
    assert Legal(db1, run[1..]) && After(db1, run[1..]) == db2 by {
      assert run[1..][1..] == [];
      assert Legal(db2, []) && After(db2, []) == db2;
    }
  }

  // ---- Which jobs can come back --------------------------------------------------------------

  /** In some continuation that keeps the video's rows, this generation may write. */
  ghost predicate CanBeCurrent(db: DB, j: nat)
    requires j in db.jobs
  {
    exists run :: BringsBack(db, j, run)
  }

  ghost predicate BringsBack(db: DB, j: nat, run: seq<Step>)
    requires j in db.jobs
  {
    Legal(db, run) && NeverFinalized(run, db.jobs[j].video) && LockCurrent(After(db, run), j, false) == Current
  }

  /** Supersession alone is not final: whatever newer generations there are, a job can be the
      current one again exactly if it has not ended and its video is not ready. */
  lemma ComesBackExactly(db: DB, j: nat)
    requires Inv(db) && j in db.jobs
    ensures CanBeCurrent(db, j) <==> !Terminal(db.jobs[j].status) && !db.videos[db.jobs[j].video].status.Ready?
  {
    var v := db.jobs[j].video;
    assert JobSound(db, j);
    if CanBeCurrent(db, j) {
      var run :| BringsBack(db, j, run);
      RunsMoveForward(db, run, j);
      if db.videos[v].status.Ready? && !Terminal(db.jobs[j].status) {
        StrandedStays(db, run, v, j);
      }
    }
    if !Terminal(db.jobs[j].status) && !db.videos[v].status.Ready? {
      var run := BringBack(db, j, Rivals(db, j));
      assert BringsBack(db, j, run);
    }
  }

  /** So a workspace that goes because its job was superseded may be needed again, exactly in that
      case. */
  lemma WorkspaceMayBeNeeded(db: DB, j: nat)
    requires Inv(db) && EligibleReason(db, j) == Superseded
    ensures CanBeCurrent(db, j) <==> !db.jobs[j].status.Completed? && !db.videos[db.jobs[j].video].status.Ready?
  {
    ComesBackExactly(db, j);
  }

  lemma {:induction false} StrandedStays(db: DB, run: seq<Step>, v: VideoId, j: nat)
    requires Inv(db) && Legal(db, run) && Stranded(db, v, j)
    ensures Stranded(After(db, run), v, j)
    decreases |run|
  {
    if run != [] {
      StepKeepsInv(db, run[0]);
      StrandedStep(db, run[0], v, j);
      StrandedStays(Do(db, run[0]), run[1..], v, j);
    }
  }

  function Rivals(db: DB, j: nat): set<nat>
    requires j in db.jobs
  {
    set k | k in db.jobs && k != j && Candidate(db, db.jobs[j].video, k)
  }

  /** The upload event of the job is delivered again, which puts the video back to processing;
      the current generation fails; and so on, until no newer one is left. */
  lemma {:induction false} BringBack(db: DB, j: nat, rivals: set<nat>) returns (run: seq<Step>)
    requires Inv(db) && j in db.jobs && !Terminal(db.jobs[j].status) && rivals == Rivals(db, j)
    requires !db.videos[db.jobs[j].video].status.Ready?
    ensures BringsBack(db, j, run)
    decreases rivals
  {
    var v := db.jobs[j].video;
    var again := IngestStep(v, j, 0);
    var db1 := Delivered(db, j);
    assert Candidate(db, v, j);
    var c := LatestExists(db, v, rivals + {j}, j);
    assert IsLatest(db, v, c) && IsLatest(db1, v, c);
    if c == j {
      run := [again];
      assert run[1..] == [];
      assert Legal(db1, []) && After(db1, []) == db1;
      assert LockCurrent(db1, j, false) == Current;
    } else {
      var db2 := RivalFails(db, j, c);
      var rest := BringBack(db2, j, rivals - {c});
      run := [again, FailStep(c)] + rest;
      assert run[1..] == [FailStep(c)] + rest && run[1..][1..] == rest;
      assert Legal(db1, run[1..]) && After(db1, run[1..]) == After(db2, rest);
      assert Legal(db, run) && After(db, run) == After(db2, rest);
      assert forall st :: st in run ==> st == again || st == FailStep(c) || st in rest;
    }
  }

  lemma Delivered(db: DB, j: nat) returns (db1: DB)
    requires Inv(db) && j in db.jobs && !Terminal(db.jobs[j].status)
    requires !db.videos[db.jobs[j].video].status.Ready?
    ensures var v := db.jobs[j].video;
            && db1 == Do(db, IngestStep(v, j, 0)) == db.(videos := db.videos[v := Video(Processing, true)])
            && Inv(db1)
  {
    var v := db.jobs[j].video;
    assert JobSound(db, j);
    StepKeepsInv(db, IngestStep(v, j, 0));
    db1 := Do(db, IngestStep(v, j, 0));
  }

  lemma RivalFails(db: DB, j: nat, c: nat) returns (db2: DB)
    requires Inv(db) && j in db.jobs && !Terminal(db.jobs[j].status)
    requires !db.videos[db.jobs[j].video].status.Ready?
    requires c != j && IsLatest(db, db.jobs[j].video, c)
    ensures var v := db.jobs[j].video; var db1 := Do(db, IngestStep(v, j, 0));
            && db2 == Do(db1, FailStep(c)) && Inv(db2) && j in db2.jobs && db2.jobs[j] == db.jobs[j]
            && !db2.videos[v].status.Ready? && Rivals(db2, j) == Rivals(db, j) - {c} && c in Rivals(db, j)
  {
    var v := db.jobs[j].video;
    var db1 := Delivered(db, j);
    assert JobSound(db, c) && JobSound(db, j);
    assert IsLatest(db1, v, c);
    assert LockCurrent(db1, c, true) == Current;
    StepKeepsInv(db1, FailStep(c));
    db2 := Do(db1, FailStep(c));
    assert db2.jobs == db.jobs[c := db.jobs[c].(status := JobFailed, cause := TaskExhausted)];
  }
}
