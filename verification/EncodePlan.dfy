/** How a media timeline is cut into bounded slices, and how much work a CPU plan may create. */
module EncodePlan {

  import opened Common
  import opened Sorting

  datatype Rendition = Rendition(height: int, settings: string)

  datatype Slice = Slice(start: real, length: real)

  function Min(a: real, b: real): real {
    if a < b then a else b
  }

  function Max(a: real, b: real): real {
    if a < b then b else a
  }

  // ---- Slices ------------------------------------------------------------------------------

  function StepsLeft(start: real, duration: real, step: real): nat
    requires step > 0.0
  {
    if start >= duration then 0
    else
      DivisionKeepsSign(duration - start, step);
      1 + ((duration - start) / step).Floor
  }

  lemma DivisionKeepsSign(x: real, step: real)
    requires x > 0.0 && step > 0.0
    ensures x / step > 0.0
  {
  }

  lemma OneStepLess(start: real, duration: real, step: real)
    requires step > 0.0 && start < duration
    ensures StepsLeft(start + step, duration, step) < StepsLeft(start, duration, step)
  {
    var x := duration - start;
    DivisionKeepsSign(x, step);
    var q := x / step;
    assert q * step == x;
    assert (q - 1.0) * step == x - step;
    QuotientIsUnique(x - step, step, q - 1.0);
  }

  lemma QuotientIsUnique(x: real, step: real, q: real)
    requires step > 0.0 && q * step == x
    ensures x / step == q
  {
  }

  /** The slices of [start, duration), each `step` long but for the last. */
  function Slices(start: real, duration: real, step: real): seq<Slice>
    requires step > 0.0
    decreases StepsLeft(start, duration, step)
  {
    if start >= duration then []
    else
      OneStepLess(start, duration, step);
      [Slice(start, Min(step, duration - start))] + Slices(start + step, duration, step)
  }

  /** The slices follow each other without gap or overlap from one time to another. */
  predicate Tiles(slices: seq<Slice>, from: real, to: real) {
    if slices == [] then from == to
    else slices[0].start == from && slices[0].length > 0.0 && Tiles(slices[1..], from + slices[0].length, to)
  }

  lemma {:induction false} SlicesTile(start: real, duration: real, step: real)
    requires step > 0.0 && start <= duration
    ensures Tiles(Slices(start, duration, step), start, duration)
    ensures forall k :: 0 <= k < |Slices(start, duration, step)| ==>
                          0.0 < Slices(start, duration, step)[k].length <= step
    decreases StepsLeft(start, duration, step)
  {
    if start < duration {
      OneStepLess(start, duration, step);
      if start + step <= duration {
        SlicesTile(start + step, duration, step);
      }
    }
  }

  /** Every moment of the timeline is in exactly one slice. */
  lemma {:induction false} TilesCoverOnce(slices: seq<Slice>, from: real, to: real, t: real)
    requires Tiles(slices, from, to)
    ensures from <= to
    ensures from <= t < to <==>
            exists k :: 0 <= k < |slices| && slices[k].start <= t < slices[k].start + slices[k].length
    ensures forall j, k :: 0 <= j < k < |slices| ==> slices[j].start + slices[j].length <= slices[k].start
    decreases |slices|
  {
    if slices != [] {
      var rest, next := slices[1..], from + slices[0].length;
      TilesCoverOnce(rest, next, to, t);
      StartsAfter(rest, next, to);
      assert forall k :: 0 < k < |slices| ==> slices[k] == rest[k - 1];
      if from <= t < to && t >= next {
        var k :| 0 <= k < |rest| && rest[k].start <= t < rest[k].start + rest[k].length;
        assert slices[k + 1] == rest[k];
      }
    }
  }

  lemma {:induction false} StartsAfter(slices: seq<Slice>, from: real, to: real)
    requires Tiles(slices, from, to)
    ensures forall k :: 0 <= k < |slices| ==> from <= slices[k].start
    decreases |slices|
  {
    if slices != [] {
      StartsAfter(slices[1..], from + slices[0].length, to);
      assert forall k :: 0 < k < |slices| ==> slices[k] == slices[1..][k - 1];
    }
  }

  lemma SliceTaken(done: seq<Slice>, start: real, duration: real, step: real)
    requires step > 0.0 && start < duration
    ensures StepsLeft(start + step, duration, step) < StepsLeft(start, duration, step)
    ensures done + Slices(start, duration, step) ==
            (done + [Slice(start, Min(step, duration - start))]) + Slices(start + step, duration, step)
  {
    OneStepLess(start, duration, step);
  }

  /** `build_chunks` */
  method BuildChunks(duration: real, step: real) returns (chunks: seq<Slice>)
    ensures duration <= 0.0 || step <= 0.0 ==> chunks == []
    ensures duration > 0.0 && step > 0.0 ==>
              && chunks == Slices(0.0, duration, step) && chunks != [] && Tiles(chunks, 0.0, duration)
              && forall k :: 0 <= k < |chunks| ==> 0.0 < chunks[k].length <= step
  {
    if duration <= 0.0 || step <= 0.0 {
      return [];
    }
    chunks := [];
    var start := 0.0;
    while start < duration
      invariant chunks + Slices(start, duration, step) == Slices(0.0, duration, step)
      invariant chunks == [] ==> start < duration
      decreases StepsLeft(start, duration, step)
    {
      SliceTaken(chunks, start, duration, step);
      chunks := chunks + [Slice(start, Min(step, duration - start))];
      start := start + step;
    }
    assert chunks + [] == chunks;
    SlicesTile(0.0, duration, step);
  }

  // ---- Slice lengths -------------------------------------------------------------------------

  const MIN_SLICE := 30.0
  const MAX_SLICE := 300.0
  const DEFAULT_SLICE := 120.0
  const TARGET_COUNT := 30.0
  const MAX_TASKS: nat := 4096

  /** Python's `round`: to the nearest integer, and halves to the even one. */
  function Round(x: real): int {
    var low := x.Floor;
    var above := x - low as real;
    if above < 0.5 || (above == 0.5 && low % 2 == 0) then low else low + 1
  }

  /** `round` gives a nearest integer, the even one of two. */
  lemma RoundIsNearest(x: real)
    ensures -0.5 <= x - Round(x) as real <= 0.5
    ensures x - Round(x) as real in {-0.5, 0.5} ==> Round(x) % 2 == 0
  {
    assert x.Floor as real <= x < x.Floor as real + 1.0;
  }

  /** `_adaptive_chunk_duration`: whatever base and maximum the caller asks for, a slice of a
      positive duration is at least half a minute, and at most the maximum unless that is less. */
  function AdaptiveChunkDuration(duration: real, base: real, maximum: real): (length: real)
    ensures duration > 0.0 ==> MIN_SLICE <= length <= Max(MIN_SLICE, maximum)
    ensures duration <= 0.0 ==> length <= maximum && length in {maximum, base, MIN_SLICE}
    ensures duration <= 0.0 && length < maximum ==> MIN_SLICE <= length && base <= length
  {
    if duration <= 0.0 then Min(Max(base, MIN_SLICE), maximum)
    else
      var safeMax := Max(MIN_SLICE, maximum);
      var safeBase := Min(Max(base, MIN_SLICE), safeMax);
      var rounded := Round(duration / TARGET_COUNT / 60.0) as real * 60.0;
      Min(safeMax, Max(safeBase, rounded))
  }

  /** What the length of a slice aims at: a thirtieth of the duration in whole minutes. It misses
      that only at the two ends, the base and the maximum in their safe forms. */
  lemma AdaptiveAims(duration: real, base: real, maximum: real)
    requires duration > 0.0
    ensures var length, aim := AdaptiveChunkDuration(duration, base, maximum), duration / TARGET_COUNT;
            var highest := Max(MIN_SLICE, maximum);
            var lowest := Min(Max(base, MIN_SLICE), highest);
            && lowest <= length <= highest
            && (lowest < length < highest ==> WholeMinutes(length) && Near(length, aim))
            && (aim > lowest + 30.0 && highest > lowest ==> length > lowest)
            && (aim < highest - 30.0 && lowest < highest ==> length < highest)
  {
    var aim := duration / TARGET_COUNT;
    var minutes := Round(aim / 60.0);
    RoundIsNearest(aim / 60.0);
    assert Near(minutes as real * 60.0, aim);
    assert (minutes as real * 60.0) / 60.0 == minutes as real;
    assert WholeMinutes(minutes as real * 60.0);
  }

  predicate WholeMinutes(length: real) {
    (length / 60.0).Floor as real == length / 60.0
  }

  /** At most half a minute apart. */
  predicate Near(a: real, b: real) {
    -30.0 <= a - b <= 30.0
  }

  /** What `float` makes of a setting: nothing, or one of its values. */
  datatype Setting = Unreadable | NaN | Infinite(positive: bool) | Finite(value: real)

  /** `min` and `max` keep their first argument unless the other one is beyond it, and nothing
      is beyond it for a NaN. */
  function CpuSlice(requested: Setting): (length: real)
    ensures MIN_SLICE <= length <= MAX_SLICE
    ensures requested.Finite? && MIN_SLICE <= requested.value <= MAX_SLICE ==> length == requested.value
    ensures requested.Finite? && requested.value < MIN_SLICE ==> length == MIN_SLICE
    ensures requested.Finite? && requested.value > MAX_SLICE ==> length == MAX_SLICE
    ensures requested == Infinite(true) ==> length == MAX_SLICE
    ensures requested == Infinite(false) || requested == NaN ==> length == MIN_SLICE
    ensures requested == Unreadable ==> length == DEFAULT_SLICE
  {
    match requested
    case Unreadable => DEFAULT_SLICE
    case NaN => MIN_SLICE
    case Infinite(positive) => if positive then MAX_SLICE else MIN_SLICE
    case Finite(value) => Min(MAX_SLICE, Max(MIN_SLICE, value))
  }

  predicate PositiveFinite(duration: Setting) {
    duration.Finite? && duration.value > 0.0
  }

  datatype PlanError = NoDuration | NoRenditions | TooManyTasks

  datatype Plan = Plan(groups: seq<seq<Rendition>>, chunks: seq<Slice>) | Refused(error: PlanError)

  function Descending(r: Rendition): int {
    -r.height
  }

  function Singles(renditions: seq<Rendition>): seq<seq<Rendition>> {
    seq(|renditions|, i requires 0 <= i < |renditions| => [renditions[i]])
  }

  /** `bounded_cpu_plan`: one rendition per task, highest first, slices of at most five minutes
      that tile the whole duration, and never more tasks than the broker is to hold. */
  method BoundedCpuPlan(duration: Setting, renditions: seq<Rendition>, requested: Setting)
    returns (plan: Plan)
    ensures plan.Refused? && plan.error.NoDuration? <==> !PositiveFinite(duration)
    ensures plan.Refused? && plan.error.NoRenditions? <==>
            PositiveFinite(duration) && renditions == []
    ensures plan.Refused? && plan.error.TooManyTasks? <==>
            && PositiveFinite(duration) && renditions != []
            && |renditions| * |Slices(0.0, duration.value, CpuSlice(requested))| > MAX_TASKS
    ensures plan.Plan? ==>
              && plan.groups == Singles(Sort(renditions, Descending))
              && plan.chunks == Slices(0.0, duration.value, CpuSlice(requested))
              && Tiles(plan.chunks, 0.0, duration.value)
              && (forall k :: 0 <= k < |plan.chunks| ==> 0.0 < plan.chunks[k].length <= MAX_SLICE)
              && |plan.groups| * |plan.chunks| <= MAX_TASKS
  {
    if !PositiveFinite(duration) {
      return Refused(NoDuration);
    }
    var length := CpuSlice(requested);
    var groups := Singles(Sort(renditions, Descending));
    if groups == [] {
      return Refused(NoRenditions);
    }
    var chunks := BuildChunks(duration.value, length);
    if |groups| * |chunks| > MAX_TASKS {
      return Refused(TooManyTasks);
    }
    plan := Plan(groups, chunks);
  }

  /** A slice that replaces a failed GPU slice is never cut again. */
  lemma ReplacementIsOneSlice(length: real)
    requires 0.0 < length <= MAX_SLICE
    ensures Slices(0.0, length, CpuSlice(Finite(length))) == [Slice(0.0, length)]
  {
    var step := CpuSlice(Finite(length));
    OneStepLess(0.0, length, step);
    assert Slices(0.0 + step, length, step) == [];
  }
}
