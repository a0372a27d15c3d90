/** The fencing transactions as the service runs them: row by row, on the job and video
    tables and the object store. Each one does what its step in `Fencing` says. */
module FencingCalls {
  import opened Common
  import opened Playlists
  import opened Publication
  import opened Fencing

  datatype Ingestion = NoVideo | TombstonedVideo | WrongVideo | Persisted(created: bool, status: JobStatus, dispatched: nat)

  datatype RetryAnswer = NotFound | AlreadyReady | BeingDeleted | NoSource | Submitted

  datatype PackageAnswer = 
    | NotCurrent
    // An earlier delivery has completed the job: its marker was seen, or it was not.
    | Reused
    | MissingMarker
    // Publication raised, or the marker was not seen after it; the commit was refused, and the
    // master withheld again, or that failed too.
    | NotPublished
    | NotCommitted
    | NotWithheld
    | Packaged

  /** Which answer it is: packaged exactly if the version is a path, the presentation valid with a
      master that is not empty, nothing fails, and the database commits. */
  ghost predicate Settled(
    answer: PackageAnswer, target: Option<Name>, local: Option<Files>, commits: bool, before: nat, after: nat)
  {
    var publishable := target.Some? && Publishable(local) && local.value[MASTER].size > 0;
    && (answer == Packaged <==> publishable && commits && after == before)
    && (answer == NotCommitted <==> publishable && !commits && after == before)
    && (answer == NotWithheld ==> publishable && !commits && after == before + 1)
    && (answer == NotPublished && publishable ==> after > before)
  }

  /** What is discoverable when the job was not packaged: nothing, but for an empty master, unless
      operations failed; after a refused commit, nothing, unless the removal of the master, which
      comes last, was not answered well; and where it is the look at the published marker that
      fails, all of the presentation. */
  ghost predicate Withheld(
    answer: PackageAnswer, target: Option<Name>, local: Option<Files>, objects: Objects, last: Call, before: nat,
    after: nat)
  {
    target.Some? ==>
      && (answer == NotPublished && after == before ==> !PrefixExists(objects, target.value))
      && (answer == NotCommitted ==> Hidden(objects, target.value))
      && (answer == NotWithheld ==> last == RemoveOf(target.value + MASTER, last.reply) && last.reply != Done)
      && (answer == NotPublished && last == StatOf(target.value + MASTER, Error) ==> IsPublished(objects, target.value, local))
  }

  /** The latest row of a video is unique. */
  lemma LatestIsUnique(db: DB, v: VideoId, j: nat, k: nat)
    requires IsLatest(db, v, j) && IsLatest(db, v, k)
    ensures j == k
  {
  }

  function ToSupersede(jobs: map<nat, Job>, v: VideoId, replacement: nat): set<nat> {
    set k | k in jobs && jobs[k].video == v && !Terminal(jobs[k].status) && k != replacement
  }

  function RowAfter(job: Job, k: nat, v: VideoId, replacement: nat, cause: Cause): Job {
    if job.video == v && !Terminal(job.status) && k != replacement then job.(status := JobFailed, cause := cause) else job
  }

  /** The job table when the rows in `todo` are still to be looked at. */
  function Partly(before: map<nat, Job>, todo: set<nat>, v: VideoId, replacement: nat, cause: Cause): map<nat, Job> {
    map k | k in before :: if k in todo then before[k] else RowAfter(before[k], k, v, replacement, cause)
  }

  lemma OneRow(before: map<nat, Job>, todo: set<nat>, k: nat, v: VideoId, replacement: nat, cause: Cause)
    requires k in todo && k in before
    ensures var jobs, row := Partly(before, todo, v, replacement, cause), RowAfter(before[k], k, v, replacement, cause);
            && Partly(before, todo - {k}, v, replacement, cause) == jobs[k := row]
            && k in jobs && jobs[k] == before[k] && (row == before[k] ==> jobs[k := row] == jobs)
  {
  }

  lemma NoRowsAndAllRows(before: map<nat, Job>, v: VideoId, replacement: nat, cause: Cause)
    ensures Partly(before, before.Keys, v, replacement, cause) == before
    ensures Partly(before, {}, v, replacement, cause) == Supersede(before, v, replacement, cause)
    ensures ToSupersede(before, v, replacement) * before.Keys == ToSupersede(before, v, replacement)
  {
  }

  lemma OneLess(rows: set<nat>, todo: set<nat>, k: nat)
    requires k in todo
    ensures |rows * todo| == |rows * (todo - {k})| + if k in rows then 1 else 0
  {
    if k in rows {
      assert rows * todo == rows * (todo - {k}) + {k};
    } else {
      assert rows * todo == rows * (todo - {k});
    }
  }

  /** The loop of `supersede_active_jobs` over the rows of the job table. */
  method SupersedeRows(before: map<nat, Job>, v: VideoId, replacement: nat, cause: Cause)
    returns (jobs: map<nat, Job>, count: nat)
    ensures jobs == Supersede(before, v, replacement, cause)
    ensures count == |ToSupersede(before, v, replacement)|
  {
    jobs, count := before, 0;
    var todo := before.Keys;
    ghost var rows := ToSupersede(before, v, replacement);
    NoRowsAndAllRows(before, v, replacement, cause);
    while todo != {}
      invariant todo <= before.Keys && jobs == Partly(before, todo, v, replacement, cause)
      invariant count + |rows * todo| == |rows|
      decreases todo
    {
      var k :| k in todo;
      OneRow(before, todo, k, v, replacement, cause);
      OneLess(rows, todo, k);
      if jobs[k].video == v && !Terminal(jobs[k].status) && k != replacement {
        jobs := jobs[k := jobs[k].(status := JobFailed, cause := cause)];
        count := count + 1;
      }
      todo := todo - {k};
    }
    assert rows * {} == {};
  }

  class Database {
    var videos: map<VideoId, Video>
    var jobs: map<nat, Job>
    const store: ObjectStore

    ghost function Snapshot(): DB
      reads this, store
    {
      DB(videos, jobs, store.objects)
    }

    constructor (store: ObjectStore)
      ensures videos == map[] && jobs == map[] && this.store == store
    {
      videos, jobs := map[], map[];
      this.store := store;
    }

    /** `_latest_nonfailed_job`: the first row in descending (created_at, id) order. */
    method LatestNonfailedJob(v: VideoId) returns (r: Option<nat>)
      ensures r.Some? ==> IsLatest(Snapshot(), v, r.value)
      ensures r.None? ==> forall j :: !Candidate(Snapshot(), v, j)
    {
      r := None;
      var todo := jobs.Keys;
      while todo != {}
        invariant todo <= jobs.Keys
        invariant r.None? ==> forall k :: k in jobs.Keys - todo ==> !Candidate(Snapshot(), v, k)
        invariant r.Some? ==> Candidate(Snapshot(), v, r.value) &&
                              forall k :: k in jobs.Keys - todo && Candidate(Snapshot(), v, k) ==>
                                k == r.value || Newer(Snapshot(), r.value, k)
        decreases todo
      {
        var k :| k in todo;
        todo := todo - {k};
        if jobs[k].video == v && !jobs[k].status.JobFailed? {
          if r.None? || jobs[k].created > jobs[r.value].created ||
             (jobs[k].created == jobs[r.value].created && k > r.value) {
            r := Some(k);
          }
        }
      }
    }

    /** `lock_current_job`. */
    method LockCurrentJob(j: nat, allowCompleted: bool) returns (r: Lock)
      ensures r == LockCurrent(Snapshot(), j, allowCompleted)
    {
      if j !in jobs || jobs[j].video !in videos {
        return Missing;
      }
      var job := jobs[j];
      if job.status.JobFailed? {
        return Stale;
      }
      var current := LatestNonfailedJob(job.video);
      assert Candidate(Snapshot(), job.video, j);
      if current != Some(j) {
        if IsLatest(Snapshot(), job.video, j) {
          LatestIsUnique(Snapshot(), job.video, j, current.value);
        }
        return Stale;
      }
      var status := videos[job.video].status;
      if job.status.Completed? {
        if status.Deleting? || status.Deleted? {
          return Stale;
        }
        return if allowCompleted && status.Ready? then Current else Inconsistent;
      }
      r := if status.Ready? || status.VideoFailed? || status.Deleting? || status.Deleted? then Stale else Current;
    }

    /** `advance_job_status`: whether the row changed. */
    method AdvanceJobStatus(j: nat, to: JobStatus) returns (changed: bool)
      requires j in jobs
      modifies this`jobs
      ensures jobs == old(jobs)[j := old(jobs)[j].(status := Advanced(old(jobs)[j].status, to))]
      ensures changed <==> jobs != old(jobs)
    {
      var current := jobs[j].status;
      if Terminal(current) {
        return false;
      }
      if Order(to) >= Order(current) {
        if current != to {
          jobs := jobs[j := jobs[j].(status := to)];
          assert jobs[j] != old(jobs)[j];
          return true;
        }
      }
      changed := false;
    }

    /** `supersede_active_jobs`: the number of rows it failed. */
    method SupersedeActiveJobs(v: VideoId, replacement: nat, cause: Cause) returns (count: nat)
      modifies this`jobs
      ensures jobs == Supersede(old(jobs), v, replacement, cause)
      ensures count == |ToSupersede(old(jobs), v, replacement)|
    {
      jobs, count := SupersedeRows(jobs, v, replacement, cause);
    }

    /** `_prepare_ingestion_job`. */
    method PrepareIngestionJob(v: VideoId, j: nat, now: int) returns (r: Ingestion)
      modifies this
      ensures Snapshot() == Ingest(old(Snapshot()), v, j, now)
      ensures r == NoVideo <==> v !in old(videos)
      ensures r == TombstonedVideo <==> v in old(videos) && old(videos)[v].status.Deleting?
      ensures r == WrongVideo <==>
              v in old(videos) && !old(videos)[v].status.Deleting? && j in old(jobs) && old(jobs)[j].video != v
      ensures r.Persisted? ==> j in jobs && r == Persisted(j !in old(jobs), jobs[j].status, jobs[j].dispatched)
    {
      if v !in videos {
        return NoVideo;
      }
      if videos[v].status.Deleting? {
        return TombstonedVideo;
      }
      var created := j !in jobs;
      if created {
        jobs := jobs[j := NewJob(v, now)];
      } else if jobs[j].video != v {
        return WrongVideo;
      }
      videos := videos[v := videos[v].(source := true)];
      if !jobs[j].status.Completed? && !jobs[j].status.JobFailed? && !videos[v].status.Ready? {
        videos := videos[v := videos[v].(status := Processing)];
      }
      r := Persisted(created, jobs[j].status, jobs[j].dispatched);
    }

    /** The transaction that opens `_run_pipeline`; true if this delivery owns the attempt. */
    method ClaimPipeline(j: nat, v: VideoId) returns (claimed: bool)
      modifies this
      ensures Snapshot() == Claim(old(Snapshot()), j, v)
      ensures claimed <==>
              && LockCurrent(old(Snapshot()), j, true) == Current && old(jobs)[j].video == v
              && !old(jobs)[j].status.Completed? && old(jobs)[j].dispatched == 0
      ensures claimed ==> v in videos && videos[v].status.Processing? && j in jobs && jobs[j].dispatched == 0
    {
      var lock := LockCurrentJob(j, true);
      if lock != Current || jobs[j].video != v || jobs[j].status.Completed? || jobs[j].dispatched > 0 {
        return false;
      }
      var _ := AdvanceJobStatus(j, Probing);
      jobs := jobs[j := jobs[j].(input := true)];
      videos := videos[v := videos[v].(status := Processing)];
      claimed := true;
    }

    /** The dispatch transaction. The count is recorded with the commit or not at all. */
    method DispatchPipeline(j: nat, committed: bool) returns (dispatched: bool)
      modifies this
      ensures Snapshot() == Dispatch(old(Snapshot()), j, committed)
      ensures dispatched <==>
              && committed && LockCurrent(old(Snapshot()), j, true) == Current
              && !old(jobs)[j].status.Completed? && old(jobs)[j].dispatched == 0
      ensures dispatched ==> j in old(jobs) && old(jobs)[j].dispatched == 0 && jobs[j].dispatched == 1
    {
      var lock := LockCurrentJob(j, true);
      if lock != Current || jobs[j].status.Completed? || jobs[j].dispatched > 0 {
        return false;
      }
      if !committed {
        return false;
      }
      jobs := jobs[j := jobs[j].(dispatched := jobs[j].dispatched + 1)];
      var _ := AdvanceJobStatus(j, Queued);
      dispatched := true;
    }

    /** `on_pipeline_failure`. */
    method OnPipelineFailure(j: nat)
      modifies this
      ensures Snapshot() == FailPipeline(old(Snapshot()), j)
    {
      var lock := LockCurrentJob(j, true);
      if lock != Current {
        return;
      }
      var v := jobs[j].video;
      if jobs[j].status.Completed? || videos[v].status.Ready? {
        return;
      }
      jobs := jobs[j := jobs[j].(status := JobFailed, cause := TaskExhausted)];
      videos := videos[v := videos[v].(status := VideoFailed)];
    }

    /** `retry_video`. */
    method RetryVideo(v: VideoId, j: nat, now: int) returns (r: RetryAnswer)
      requires j !in jobs
      modifies this
      ensures Snapshot() == Retry(old(Snapshot()), v, j, now)
      ensures r == NotFound <==> v !in old(videos)
      ensures r == AlreadyReady <==> v in old(videos) && old(videos)[v].status.Ready?
      ensures r == BeingDeleted <==> v in old(videos) && old(videos)[v].status.Deleting?
      ensures r == NoSource ==> !Recoverable(old(Snapshot()), v)
      ensures r == Submitted ==> Recoverable(old(Snapshot()), v)
      ensures r == Submitted && Inv(old(Snapshot())) ==> LockCurrent(Snapshot(), j, false) == Current
    {
      if v !in videos {
        return NotFound;
      }
      if videos[v].status.Ready? {
        return AlreadyReady;
      }
      if videos[v].status.Deleting? {
        return BeingDeleted;
      }
      if !videos[v].source && !exists k :: k in jobs && jobs[k].video == v && jobs[k].input {
        return NoSource;
      }
      var _ := SupersedeActiveJobs(v, j, ManualRetry);
      jobs := jobs[j := NewJob(v, now)];
      videos := videos[v := Video(Processing, true)];
      r := Submitted;
      if Inv(old(Snapshot())) {
        RetryTakesOver(old(Snapshot()), v, j, now);
      }
    }

    /** One candidate of `_watchdog_tick`. */
    method WatchdogTick(v: VideoId, j: nat, now: int, stuck: bool, maxRetries: nat)
      requires j !in jobs
      modifies this
      ensures Snapshot() == Watchdog(old(Snapshot()), v, j, now, stuck, maxRetries)
    {
      if v !in videos || !videos[v].status.Processing? {
        return;
      }
      var current := LatestNonfailedJob(v);
      if current.None? {
        return;
      }
      var c := current.value;
      assert forall k :: IsLatest(Snapshot(), v, k) ==> k == c by {
        forall k | IsLatest(Snapshot(), v, k) ensures k == c {
          LatestIsUnique(Snapshot(), v, k, c);
        }
      }
      if jobs[c].status.Completed? {
        return;
      }
      var retries := WatchdogRetries(jobs, v);
      if |retries| >= maxRetries {
        jobs := jobs[c := jobs[c].(status := JobFailed, cause := TooManyRetries)];
        videos := videos[v := videos[v].(status := VideoFailed)];
        return;
      }
      if !stuck || !videos[v].source {
        return;
      }
      var _ := SupersedeActiveJobs(v, j, WatchdogRetry);
      jobs := jobs[j := NewJob(v, now)];
      videos := videos[v := Video(Processing, true)];
    }

    /** `_run_package`, under the video row lock: publish, check the marker, commit; when the
        commit is refused, withhold the master again. */
    method RunPackage(j: nat, version: string, local: Option<Files>, commits: bool) returns (answer: PackageAnswer)
      requires store.Valid() && (local.Some? ==> Collected(local.value))
      modifies this, store
      ensures store.Valid()
      ensures PackageCan(old(Snapshot()), j, version, local, store.objects, answer == Packaged)
      ensures Snapshot() == Package(old(Snapshot()), j, version, store.objects, answer == Packaged)
      ensures answer == NotCurrent || answer == Reused || answer == MissingMarker ==> Snapshot() == old(Snapshot())
      ensures answer == NotCurrent <==> LockCurrent(old(Snapshot()), j, true) != Current
      ensures answer == Reused || answer == MissingMarker <==>
              LockCurrent(old(Snapshot()), j, true) == Current && old(jobs)[j].status.Completed?
      ensures answer == Reused ==> old(jobs)[j].prefix.Some? && PrefixExists(store.objects, old(jobs)[j].prefix.value)
      ensures answer == MissingMarker && store.troubles == old(store.troubles) ==>
                old(jobs)[j].prefix.None? || !PrefixExists(store.objects, old(jobs)[j].prefix.value)
      // Behind the fence everything is as `PublishAndCommit` says.
      ensures LockCurrent(old(Snapshot()), j, true) == Current && !old(jobs)[j].status.Completed? ==>
                && Settled(answer, PublishPrefix(old(jobs)[j].video, version), local, commits,
                           old(store.troubles), store.troubles)
                && Withheld(answer, PublishPrefix(old(jobs)[j].video, version), local, store.objects, store.last,
                            old(store.troubles), store.troubles)
      ensures Smooth(old(store.faults)) ==> store.troubles == old(store.troubles)
    {
      var lock := LockCurrentJob(j, true);
      if lock != Current {
        return NotCurrent;
      }
      if jobs[j].status.Completed? {
        if jobs[j].prefix.None? {
          return MissingMarker;
        }
        var r, there := store.Stat(jobs[j].prefix.value + MASTER);
        return if r == Done && there then Reused else MissingMarker;
      }
      answer := PublishAndCommit(j, version, local, commits);
    }

    /** The part of `_run_package` behind the fence. */
    method PublishAndCommit(j: nat, version: string, local: Option<Files>, commits: bool) returns (answer: PackageAnswer)
      requires store.Valid() && (local.Some? ==> Collected(local.value))
      requires LockCurrent(Snapshot(), j, true) == Current && !jobs[j].status.Completed?
      modifies this, store
      ensures store.Valid() && answer in {NotPublished, NotCommitted, NotWithheld, Packaged}
      ensures PackageCan(old(Snapshot()), j, version, local, store.objects, answer == Packaged)
      ensures Snapshot() == Package(old(Snapshot()), j, version, store.objects, answer == Packaged)
      ensures Settled(answer, PublishPrefix(old(jobs)[j].video, version), local, commits,
                      old(store.troubles), store.troubles)
      ensures Withheld(answer, PublishPrefix(old(jobs)[j].video, version), local, store.objects, store.last,
                       old(store.troubles), store.troubles)
      ensures store.Budget() == old(store.Budget()) && store.troubles >= old(store.troubles)
    {
      var v := jobs[j].video;
      var target := PublishPrefix(v, version);
      if target.None? {
        return NotPublished;
      }
      var prefix := target.value;
      FullName(prefix, MASTER);
      var outcome := AtomicPublish(store, prefix, local);
      if outcome != Published {
        return NotPublished;
      }
      var r, there := store.Stat(prefix + MASTER);
      if r != Done || !there {
        return NotPublished;
      }
      answer := Commit(j, prefix, commits);
    }

    /** The database commit of a published job, or the withholding after a refused one. */
    method Commit(j: nat, prefix: Name, commits: bool) returns (answer: PackageAnswer)
      requires store.Valid() && j in jobs && jobs[j].video in videos
      modifies this, store
      ensures store.Valid()
      ensures answer == if commits then Packaged else if store.last.reply == Done then NotCommitted else NotWithheld
      ensures commits ==> store.objects == old(store.objects) && store.troubles == old(store.troubles)
      ensures commits ==>
                && jobs == old(jobs)[j := old(jobs)[j].(status := Completed, prefix := Some(prefix))]
                && videos == old(videos)[jobs[j].video := old(videos)[jobs[j].video].(status := Ready)]
      ensures !commits ==>
                && jobs == old(jobs) && videos == old(videos) && store.last == RemoveOf(prefix + MASTER, store.last.reply)
                && store.objects in {old(store.objects), old(store.objects) - {prefix + MASTER}}
                && (answer == NotCommitted ==> store.objects == old(store.objects) - {prefix + MASTER})
                && store.troubles == old(store.troubles) + if answer == NotCommitted then 0 else 1
      ensures store.Budget() == old(store.Budget())
    {
      if !commits {
        var r := store.Remove(prefix + MASTER);
        return if r == Done then NotCommitted else NotWithheld;
      }
      var v := jobs[j].video;
      jobs := jobs[j := jobs[j].(status := Completed, prefix := Some(prefix))];
      videos := videos[v := videos[v].(status := Ready)];
      answer := Packaged;
    }

    /** The transaction of `BeginVideoDeletion`; true when the tombstone is committed. */
    method BeginVideoDeletion(v: VideoId) returns (begun: bool)
      modifies this
      ensures Snapshot() == BeginDelete(old(Snapshot()), v)
      ensures begun <==> v in old(videos) && forall k :: !Active(old(Snapshot()), v, k)
    {
      if v !in videos {
        return false;
      }
      var todo := jobs.Keys;
      while todo != {}
        invariant todo <= jobs.Keys
        invariant forall k :: k in jobs.Keys - todo ==> !Active(Snapshot(), v, k)
        decreases todo
      {
        var k :| k in todo;
        todo := todo - {k};
        if jobs[k].video == v && !Terminal(jobs[k].status) {
          assert Active(Snapshot(), v, k);
          return false;
        }
      }
      videos := videos[v := videos[v].(status := Deleting)];
      begun := true;
    }
  }
}
