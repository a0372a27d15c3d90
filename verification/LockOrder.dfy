/** The resources that transcoder tasks wait for, and the one order in which every
    task acquires them. */
module LockOrder {

  /** A filesystem lock key, or the row lock a database transaction takes on a video. */
  datatype Resource =
    | Job(job: nat)
    | ChunkFence(job: nat)
    | Chunk(job: nat, index: nat, group: nat)
    | Rendition(job: nat, height: nat)
    | Concat(job: nat)
    | Pipeline(job: nat)
    | Probe(job: nat)
    | Track(job: nat, track: nat)
    | Thumbnail(job: nat)
    | Publish(video: nat)
    | Source(job: nat)
    | VideoRow(video: nat)
  {
    predicate IsRow() {
      VideoRow?
    }

    /** Position in the acquisition order: the class of the key, then its place in it. */
    function Rank(): (nat, nat) {
      match this
      case Job(_) => (0, 0)
      case ChunkFence(_) => (1, 0)
      case Chunk(_, _, _) => (2, 0)
      case Rendition(_, height) => (2, height)
      case Concat(_) => (2, 0)
      case Pipeline(_) => (2, 0)
      case Probe(_) => (2, 0)
      case Track(_, _) => (2, 0)
      case Thumbnail(_) => (2, 0)
      case Publish(_) => (3, 0)
      case Source(_) => (4, 0)
      case VideoRow(_) => (5, 0)
    }
  }

  predicate Below(a: (nat, nat), b: (nat, nat)) {
    a.0 < b.0 || (a.0 == b.0 && a.1 < b.1)
  }

  predicate Before(a: Resource, b: Resource) {
    Below(a.Rank(), b.Rank())
  }

  /** The Celery tasks (and the two HTTP/maintenance entry points) that take locks. */
  datatype Task =
    | RunPipeline
    | RunProbe
    | TranscodeVideo(height: nat)
    | TranscodeGroup(requested: seq<nat>)
    | TranscodeChunk(index: nat, group: nat)
    | ConcatSegments
    | ExtractTrack(track: nat)
    | MakeThumbnail
    | Package
    | CleanupWorkspace
    | RetryVideo

  /** `sorted({...})`: the distinct requested heights in ascending order. */
  function SortedHeights(requested: seq<nat>): (r: seq<nat>)
    ensures forall i, j :: 0 <= i < j < |r| ==> r[i] < r[j]
    ensures forall h :: h in r <==> h in requested
  {
    if requested == [] then [] else InsertHeight(requested[0], SortedHeights(requested[1..]))
  }

  function InsertHeight(h: nat, sorted: seq<nat>): (r: seq<nat>)
    requires forall i, j :: 0 <= i < j < |sorted| ==> sorted[i] < sorted[j]
    ensures forall i, j :: 0 <= i < j < |r| ==> r[i] < r[j]
    ensures forall x :: x in r <==> x == h || x in sorted
  {
    if sorted == [] then [h]
    else if h < sorted[0] then [h] + sorted
    else if h == sorted[0] then sorted
    else
      var rest := InsertHeight(h, sorted[1..]);
      assert forall x :: x in sorted <==> x == sorted[0] || x in sorted[1..];
      assert forall i :: 0 <= i < |rest| ==> rest[i] in rest;
      [sorted[0]] + rest
  }

  function RenditionKeys(job: nat, heights: seq<nat>): (r: seq<Resource>)
    ensures |r| == |heights|
    ensures forall i :: 0 <= i < |r| ==> r[i] == Rendition(job, heights[i])
  {
    seq(|heights|, i requires 0 <= i < |heights| => Rendition(job, heights[i]))
  }

  /** The nested acquisitions of a task: what it holds, outermost first, at each of its
      innermost waits. Work that runs between two waits releases the inner lock first. */
  function Nestings(t: Task, job: nat, video: nat): seq<seq<Resource>> {
    match t
    case RunPipeline =>
      [[Job(job), Pipeline(job), VideoRow(video)], [Job(job), Pipeline(job), Source(job)]]
    case RunProbe =>
      [[Job(job), Probe(job), VideoRow(video)], [Job(job), Probe(job), Source(job)]]
    case TranscodeVideo(h) =>
      [[Job(job), Rendition(job, h), VideoRow(video)], [Job(job), Rendition(job, h), Source(job)]]
    case TranscodeGroup(requested) =>
      var outer := [Job(job)] + RenditionKeys(job, SortedHeights(requested));
      [outer + [VideoRow(video)], outer + [Source(job)]]
    case TranscodeChunk(i, g) =>
      var outer := [Job(job), ChunkFence(job), Chunk(job, i, g)];
      [outer + [VideoRow(video)], outer + [Source(job)]]
    case ConcatSegments =>
      [[Job(job), ChunkFence(job), Concat(job), VideoRow(video)]]
    case ExtractTrack(track) =>
      [[Job(job), Track(job, track), VideoRow(video)], [Job(job), Track(job, track), Source(job)]]
    case MakeThumbnail =>
      [[Job(job), Thumbnail(job), VideoRow(video)], [Job(job), Thumbnail(job), Source(job)]]
    case Package =>
      [[Job(job), Publish(video), VideoRow(video)]]
    case CleanupWorkspace =>
      [[Job(job), VideoRow(video)]]
    case RetryVideo =>
      [[VideoRow(video)]]
  }

  predicate Ascending(s: seq<Resource>) {
    forall i, j :: 0 <= i < j < |s| ==> Before(s[i], s[j])
  }

  lemma AscendingPush(s: seq<Resource>, x: Resource)
    requires Ascending(s)
    requires s != [] ==> Before(s[|s| - 1], x)
    ensures Ascending(s + [x])
  {
  }

  lemma GroupAscends(job: nat, heights: seq<nat>)
    requires forall i, j :: 0 <= i < j < |heights| ==> heights[i] < heights[j]
    ensures Ascending([Job(job)] + RenditionKeys(job, heights))
  {
    var s := [Job(job)] + RenditionKeys(job, heights);
    forall i, j | 0 <= i < j < |s|
      ensures Before(s[i], s[j])
    {
      assert s[j] == Rendition(job, heights[j - 1]);
      if 0 < i {
        assert s[i] == Rendition(job, heights[i - 1]);
      }
    }
  }

  /** Every acquisition a task makes is strictly above everything it still holds. */
  lemma TasksAcquireInOrder(t: Task, job: nat, video: nat)
    ensures forall nesting :: nesting in Nestings(t, job, video) ==> Ascending(nesting)
  {
    if t.TranscodeGroup? {
      var outer := [Job(job)] + RenditionKeys(job, SortedHeights(t.requested));
      GroupAscends(job, SortedHeights(t.requested));
      AscendingPush(outer, VideoRow(video));
      AscendingPush(outer, Source(job));
    } else if t.TranscodeChunk? {
      var outer := [Job(job), ChunkFence(job), Chunk(job, t.index, t.group)];
      AscendingPush(outer, VideoRow(video));
      AscendingPush(outer, Source(job));
    }
  }

  /** Whatever a task acquires for a job, except for a retry's bare row lock, it acquires under
      the job lock. */
  lemma JobLockComesFirst(t: Task, job: nat, video: nat, nesting: seq<Resource>)
    requires nesting in Nestings(t, job, video)
    ensures nesting != [] && (nesting[0] == Job(job) || nesting == [VideoRow(video)])
  {
    if t.TranscodeGroup? {
      var outer := [Job(job)] + RenditionKeys(job, SortedHeights(t.requested));
      assert (outer + [VideoRow(video)])[0] == Job(job) && (outer + [Source(job)])[0] == Job(job);
    }
  }
}
