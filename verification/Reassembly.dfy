/** From encoded slices back to one timeline per rendition: slices lost by a GPU are replaced by
    single-rendition CPU tasks, their results merged, and all results grouped for the concat. */
module Reassembly {

  import opened Common
  import opened Sorting
  import opened EncodePlan
  import GpuRouting

  // ---- Sums of multisets over a list, whatever its order ------------------------------------

  ghost function SumOf<T, U>(s: seq<T>, f: T -> multiset<U>): multiset<U> {
    if s == [] then multiset{} else f(s[0]) + SumOf(s[1..], f)
  }

  lemma {:induction false} SumSplits<T, U>(a: seq<T>, b: seq<T>, f: T -> multiset<U>)
    ensures SumOf(a + b, f) == SumOf(a, f) + SumOf(b, f)
    decreases |a|
  {
    if a == [] {
      assert a + b == b;
    } else {
      assert (a + b)[1..] == a[1..] + b;
      SumSplits(a[1..], b, f);
    }
  }

  lemma {:induction false} SumPermutes<T, U>(a: seq<T>, b: seq<T>, f: T -> multiset<U>)
    requires multiset(a) == multiset(b)
    ensures SumOf(a, f) == SumOf(b, f)
    decreases |a|
  {
    SameLength(a, b);
    if a != [] {
      var before, after := PulledOut(b, a[0], a);
      WithoutFirst(a);
      SumPermutes(a[1..], before + after, f);
      SumSplits(before, after, f);
      SumSplits(before, [a[0]] + after, f);
      assert ([a[0]] + after)[1..] == after;
    }
  }

  lemma PulledOut<T>(b: seq<T>, x: T, a: seq<T>) returns (before: seq<T>, after: seq<T>)
    requires a != [] && x == a[0] && multiset(a) == multiset(b)
    ensures b == before + ([x] + after) && multiset(before + after) == multiset(b) - multiset{x}
  {
    WithoutFirst(a);
    assert x in multiset(b);
    var k :| 0 <= k < |b| && b[k] == x;
    before, after := b[..k], b[k + 1..];
    assert b == before + ([x] + after);
  }

  // ---- Tasks and their results ----------------------------------------------------------------

  /** The directory of segments that one rendition of one slice is encoded to. */
  datatype Output = Output(height: int, slice: Slice)

  datatype Task = Task(group: seq<Rendition>, index: nat, slice: Slice)

  datatype ChunkResult = ChunkResult(job: string, index: nat, outputs: seq<Output>)

  function OutputsOf(group: seq<Rendition>, slice: Slice): seq<Output> {
    seq(|group|, i requires 0 <= i < |group| => Output(group[i].height, slice))
  }

  /** A `transcode_chunk` that succeeds. */
  function Encoded(job: string, t: Task): ChunkResult {
    ChunkResult(job, t.index, OutputsOf(t.group, t.slice))
  }

  function AllOutputs(results: seq<ChunkResult>): seq<Output> {
    if results == [] then [] else results[0].outputs + AllOutputs(results[1..])
  }

  function HighestFirst(o: Output): int {
    -o.height
  }

  /** The CPU tasks that `_bounded_cpu_chunk_canvas` puts in the place of a lost GPU slice. */
  function Replacements(t: Task): seq<Task> {
    var sorted := Sort(t.group, Descending);
    seq(|sorted|, i requires 0 <= i < |sorted| => Task([sorted[i]], t.index, t.slice))
  }

  function EncodedAll(job: string, tasks: seq<Task>): seq<ChunkResult> {
    seq(|tasks|, i requires 0 <= i < |tasks| => Encoded(job, tasks[i]))
  }

  function Merged(job: string, index: nat, parts: seq<ChunkResult>): ChunkResult {
    ChunkResult(job, index, Sort(AllOutputs(parts), HighestFirst))
  }

  /** What the chord gets for a task, by whether its GPU was lost. */
  function Delivered(job: string, t: Task, lost: bool): ChunkResult
    requires t.group != []
  {
    if !lost then Encoded(job, t)
    else
      var parts := EncodedAll(job, Replacements(t));
      if |parts| == 1 then parts[0] else Merged(job, t.index, parts)
  }

  // ---- Merging --------------------------------------------------------------------------------

  datatype Part = NotAnObject | Part(result: ChunkResult)

  predicate DistinctHeights(outputs: seq<Output>) {
    forall i, j :: 0 <= i < j < |outputs| ==> outputs[i].height != outputs[j].height
  }

  predicate Lists(heights: seq<int>, height: int) {
    exists j :: 0 <= j < |heights| && heights[j] == height
  }

  predicate Shows(outputs: seq<Output>, height: int) {
    exists i :: 0 <= i < |outputs| && outputs[i].height == height
  }

  predicate HeightsAre(outputs: seq<Output>, expected: seq<int>) {
    && (forall i :: 0 <= i < |outputs| ==> Lists(expected, outputs[i].height))
    && (forall j :: 0 <= j < |expected| ==> Shows(outputs, expected[j]))
  }

  /** The heights shown are the heights expected. */
  lemma HeightsAreExactly(outputs: seq<Output>, expected: seq<int>)
    ensures HeightsAre(outputs, expected) <==>
            && (forall o :: o in outputs ==> o.height in expected)
            && (forall j :: 0 <= j < |expected| ==> exists o :: o in outputs && o.height == expected[j])
  {
    if HeightsAre(outputs, expected) {
      forall o | o in outputs
        ensures o.height in expected
      {
        var i :| 0 <= i < |outputs| && outputs[i] == o;
        assert Lists(expected, outputs[i].height);
      }
      forall j | 0 <= j < |expected|
        ensures exists o :: o in outputs && o.height == expected[j]
      {
        assert Shows(outputs, expected[j]);
        var i :| 0 <= i < |outputs| && outputs[i].height == expected[j];
        assert outputs[i] in outputs;
      }
    }
    if forall o :: o in outputs ==> o.height in expected {
      forall i | 0 <= i < |outputs|
        ensures Lists(expected, outputs[i].height)
      {
        assert outputs[i] in outputs;
      }
    }
  }

  predicate FromSlice(p: Part, job: string, index: nat) {
    p.Part? && p.result.job == job && p.result.index == index
  }

  function PartOutputs(parts: seq<Part>): seq<Output> {
    if parts == [] then []
    else OutputsIn(parts[0]) + PartOutputs(parts[1..])
  }

  function OutputsIn(p: Part): seq<Output> {
    if p.Part? then p.result.outputs else []
  }

  lemma {:induction false} PartOutputsExtend(parts: seq<Part>, p: Part)
    ensures PartOutputs(parts + [p]) == PartOutputs(parts) + OutputsIn(p)
    decreases |parts|
  {
    if parts == [] {
      assert [] + [p] == [p] && [p][1..] == [];
      assert PartOutputs([p]) == OutputsIn(p) + PartOutputs([]);
    } else {
      assert (parts + [p])[1..] == parts[1..] + [p];
      PartOutputsExtend(parts[1..], p);
      Associate(OutputsIn(parts[0]), PartOutputs(parts[1..]), OutputsIn(p));
    }
  }

  lemma {:induction false} PartOutputsPrefix(parts: seq<Part>, i: nat)
    requires i <= |parts|
    ensures PartOutputs(parts[..i]) <= PartOutputs(parts)
    decreases |parts| - i
  {
    if i < |parts| {
      assert parts[..i + 1] == parts[..i] + [parts[i]];
      PartOutputsExtend(parts[..i], parts[i]);
      PartOutputsPrefix(parts, i + 1);
    } else {
      assert parts[..i] == parts;
    }
  }

  /** `merge_chunk_results`: the parts of one slice of the job, all expected heights once each,
      and nothing else, or an error. */
  method MergeChunkResults(parts: seq<Part>, job: string, index: nat, expected: seq<int>)
    returns (merged: Option<ChunkResult>)
    ensures merged.Some? <==>
            && (forall i :: 0 <= i < |parts| ==> FromSlice(parts[i], job, index))
            && DistinctHeights(PartOutputs(parts)) && HeightsAre(PartOutputs(parts), expected)
    ensures merged.Some? ==>
              merged.value == ChunkResult(job, index, Sort(PartOutputs(parts), HighestFirst))
  {
    var renditions: seq<Output> := [];
    for i := 0 to |parts|
      invariant renditions == PartOutputs(parts[..i]) && DistinctHeights(renditions)
      invariant forall k :: 0 <= k < i ==> FromSlice(parts[k], job, index)
    {
      if !FromSlice(parts[i], job, index) {
        return None;
      }
      assert parts[..i + 1] == parts[..i] + [parts[i]];
      PartOutputsExtend(parts[..i], parts[i]);
      PartOutputsPrefix(parts, i + 1);
      var distinct;
      distinct, renditions := TakeOutputs(renditions, parts[i].result.outputs);
      if !distinct {
        return None;
      }
    }
    assert parts[..|parts|] == parts;
    if !HeightsAre(renditions, expected) {
      return None;
    }
    merged := Some(ChunkResult(job, index, Sort(renditions, HighestFirst)));
  }

  /** The inner loop over one part's renditions. */
  method TakeOutputs(seen: seq<Output>, outputs: seq<Output>) returns (distinct: bool, all: seq<Output>)
    requires DistinctHeights(seen)
    ensures distinct <==> DistinctHeights(seen + outputs)
    ensures distinct ==> all == seen + outputs
  {
    all := seen;
    for k := 0 to |outputs|
      invariant all == seen + outputs[..k] && DistinctHeights(all)
    {
      if Shows(all, outputs[k].height) {
        var i :| 0 <= i < |all| && all[i].height == outputs[k].height;
        assert (seen + outputs)[i] == all[i] && (seen + outputs)[|seen| + k] == outputs[k];
        return false, all;
      }
      all := all + [outputs[k]];
      assert outputs[..k + 1] == outputs[..k] + [outputs[k]];
    }
    assert outputs[..|outputs|] == outputs;
    distinct := true;
  }

  // ---- Grouping by height -----------------------------------------------------------------------

  datatype Item = Item(index: nat, output: Output)

  function ByIndex(i: Item): int {
    i.index
  }

  function PickOne(index: nat, height: int): Output -> multiset<Item> {
    (o: Output) => if o.height == height then multiset{Item(index, o)} else multiset{}
  }

  function PickedFrom(o: Output, index: nat, height: int): seq<Item> {
    if o.height == height then [Item(index, o)] else []
  }

  function Picked(outputs: seq<Output>, index: nat, height: int): seq<Item> {
    if outputs == [] then []
    else PickedFrom(outputs[0], index, height) + Picked(outputs[1..], index, height)
  }

  /** What `by_height` collects for a height, in the order of the results. */
  function Items(results: seq<ChunkResult>, height: int): seq<Item> {
    if results == [] then []
    else Picked(results[0].outputs, results[0].index, height) + Items(results[1..], height)
  }

  ghost function ItemsOf(height: int): ChunkResult -> multiset<Item> {
    (r: ChunkResult) => SumOf(r.outputs, PickOne(r.index, height))
  }

  lemma {:induction false} PickedIsSum(outputs: seq<Output>, index: nat, height: int)
    ensures multiset(Picked(outputs, index, height)) == SumOf(outputs, PickOne(index, height))
    decreases |outputs|
  {
    if outputs != [] {
      PickedIsSum(outputs[1..], index, height);
    }
  }

  lemma {:induction false} ItemsIsSum(results: seq<ChunkResult>, height: int)
    ensures multiset(Items(results, height)) == SumOf(results, ItemsOf(height))
    decreases |results|
  {
    if results != [] {
      PickedIsSum(results[0].outputs, results[0].index, height);
      ItemsIsSum(results[1..], height);
    }
  }

  // ---- What one task contributes -----------------------------------------------------------------

  predicate HasHeight(group: seq<Rendition>, height: int) {
    exists i :: 0 <= i < |group| && group[i].height == height
  }

  function AsOutput(slice: Slice): Rendition -> multiset<Output> {
    (r: Rendition) => multiset{Output(r.height, slice)}
  }

  lemma {:induction false} OutputsAreSum(group: seq<Rendition>, slice: Slice)
    ensures multiset(OutputsOf(group, slice)) == SumOf(group, AsOutput(slice))
    decreases |group|
  {
    if group != [] {
      OutputsAreSum(group[1..], slice);
      assert OutputsOf(group, slice) == [Output(group[0].height, slice)] + OutputsOf(group[1..], slice);
    }
  }

  lemma {:induction false} SinglesOutputs(job: string, group: seq<Rendition>, index: nat, slice: Slice)
    ensures var tasks := seq(|group|, i requires 0 <= i < |group| => Task([group[i]], index, slice));
            AllOutputs(EncodedAll(job, tasks)) == OutputsOf(group, slice)
    decreases |group|
  {
    if group != [] {
      SinglesOutputs(job, group[1..], index, slice);
      var tasks := seq(|group|, i requires 0 <= i < |group| => Task([group[i]], index, slice));
      var rest := seq(|group[1..]|, i requires 0 <= i < |group[1..]| => Task([group[1..][i]], index, slice));
      assert tasks[1..] == rest;
      assert EncodedAll(job, tasks)[1..] == EncodedAll(job, rest);
      assert EncodedAll(job, tasks)[0].outputs == [Output(group[0].height, slice)];
    }
  }

  /** Replacing a slice loses nothing, adds nothing and changes no index. */
  lemma ReplacementKeepsOutputs(job: string, t: Task, lost: bool)
    requires t.group != []
    ensures var r := Delivered(job, t, lost);
            && r.job == job && r.index == t.index
            && multiset(r.outputs) == multiset(OutputsOf(t.group, t.slice))
  {
    if lost {
      var sorted := Sort(t.group, Descending);
      SinglesOutputs(job, sorted, t.index, t.slice);
      OutputsAreSum(t.group, t.slice);
      OutputsAreSum(sorted, t.slice);
      SumPermutes(t.group, sorted, AsOutput(t.slice));
      var parts := EncodedAll(job, Replacements(t));
      if |parts| == 1 {
        assert AllOutputs(parts) == parts[0].outputs + AllOutputs([]);
      }
    }
  }

  ghost predicate Apart(m: multiset<Rendition>) {
    DistinctKeys(m, Descending)
  }

  lemma {:induction false} PickedOnce(group: seq<Rendition>, slice: Slice, index: nat, height: int)
    requires Apart(multiset(group))
    ensures SumOf(OutputsOf(group, slice), PickOne(index, height)) ==
            if HasHeight(group, height) then multiset{Item(index, Output(height, slice))} else multiset{}
    decreases |group|
  {
    if group != [] {
      var first, rest := group[0], group[1..];
      WithoutFirst(group);
      FewerStayDistinct(multiset(group), first, Descending);
      PickedOnce(rest, slice, index, height);
      assert OutputsOf(group, slice) == [Output(first.height, slice)] + OutputsOf(rest, slice);
      assert OutputsOf(group, slice)[1..] == OutputsOf(rest, slice);
      NotTwice(group);
      assert HasHeight(group, height) <==> first.height == height || HasHeight(rest, height) by {
        assert forall i :: 0 < i < |group| ==> group[i] == rest[i - 1];
        assert forall i :: 0 <= i < |rest| ==> rest[i] == group[i + 1];
      }
    }
  }

  lemma NotTwice(group: seq<Rendition>)
    requires group != [] && Apart(multiset(group))
    ensures !HasHeight(group[1..], group[0].height)
  {
    WithoutFirst(group);
    forall i | 0 <= i < |group[1..]|
      ensures group[1..][i].height != group[0].height
    {
      assert group[1..][i] in multiset(group[1..]);
      PartsDiffer(multiset{group[0]}, multiset(group[1..]), group[0], group[1..][i]);
    }
  }

  lemma PartsDiffer(a: multiset<Rendition>, b: multiset<Rendition>, x: Rendition, y: Rendition)
    requires Apart(a + b) && x in a && y in b
    ensures x.height != y.height
  {
    assert x in a + b && y in a + b;
    assert x == y ==> (a + b)[x] >= 2;
    assert Descending(x) == Descending(y) ==> x == y;
  }

  lemma TaskItems(job: string, t: Task, lost: bool, height: int)
    requires t.group != [] && Apart(multiset(t.group))
    ensures ItemsOf(height)(Delivered(job, t, lost)) ==
            if HasHeight(t.group, height) then multiset{Item(t.index, Output(height, t.slice))} else multiset{}
  {
    ReplacementKeepsOutputs(job, t, lost);
    SumPermutes(Delivered(job, t, lost).outputs, OutputsOf(t.group, t.slice), PickOne(t.index, height));
    PickedOnce(t.group, t.slice, t.index, height);
  }

  // ---- All tasks of a plan --------------------------------------------------------------------------

  function TasksOf(group: seq<Rendition>, chunks: seq<Slice>, from: nat): seq<Task>
    requires from <= |chunks|
    decreases |chunks| - from
  {
    if from == |chunks| then [] else [Task(group, from, chunks[from])] + TasksOf(group, chunks, from + 1)
  }

  /** The canvas: every group with every slice. */
  function Canvas(groups: seq<seq<Rendition>>, chunks: seq<Slice>): seq<Task> {
    if groups == [] then [] else TasksOf(groups[0], chunks, 0) + Canvas(groups[1..], chunks)
  }

  predicate NoEmptyGroup(tasks: seq<Task>) {
    forall i :: 0 <= i < |tasks| ==> tasks[i].group != []
  }

  function DeliveredAll(job: string, tasks: seq<Task>, lost: seq<bool>): seq<ChunkResult>
    requires |lost| == |tasks| && NoEmptyGroup(tasks)
  {
    if tasks == [] then [] else [Delivered(job, tasks[0], lost[0])] + DeliveredAll(job, tasks[1..], lost[1..])
  }

  /** The slices of one rendition in time order, from one index on. */
  function Timeline(chunks: seq<Slice>, from: nat, height: int): seq<Item>
    requires from <= |chunks|
    decreases |chunks| - from
  {
    if from == |chunks| then [] else [Item(from, Output(height, chunks[from]))] + Timeline(chunks, from + 1, height)
  }

  ghost function AllIn(groups: seq<seq<Rendition>>): multiset<Rendition> {
    if groups == [] then multiset{} else multiset(groups[0]) + AllIn(groups[1..])
  }

  predicate GroupedHeight(groups: seq<seq<Rendition>>, height: int) {
    exists k :: 0 <= k < |groups| && HasHeight(groups[k], height)
  }

  lemma {:induction false} DeliveredSplits(job: string, a: seq<Task>, b: seq<Task>, lost: seq<bool>)
    requires |lost| == |a| + |b| && NoEmptyGroup(a) && NoEmptyGroup(b)
    ensures NoEmptyGroup(a + b)
    ensures DeliveredAll(job, a + b, lost) == DeliveredAll(job, a, lost[..|a|]) + DeliveredAll(job, b, lost[|a|..])
    decreases |a|
  {
    if a == [] {
      assert a + b == b && lost[0..] == lost;
    } else {
      assert (a + b)[1..] == a[1..] + b;
      var here, there := lost[..|a|], lost[|a|..];
      assert lost[1..][..|a| - 1] == here[1..] && lost[1..][|a| - 1..] == there && here[0] == lost[0];
      DeliveredSplits(job, a[1..], b, lost[1..]);
      Associate([Delivered(job, a[0], lost[0])], DeliveredAll(job, a[1..], here[1..]), DeliveredAll(job, b, there));
    }
  }

  lemma {:induction false} GroupItems(
    job: string, group: seq<Rendition>, chunks: seq<Slice>, from: nat, lost: seq<bool>, height: int)
    requires from <= |chunks| && |lost| == |TasksOf(group, chunks, from)|
    requires group != [] && Apart(multiset(group))
    ensures NoEmptyGroup(TasksOf(group, chunks, from))
    ensures SumOf(DeliveredAll(job, TasksOf(group, chunks, from), lost), ItemsOf(height)) ==
            if HasHeight(group, height) then multiset(Timeline(chunks, from, height)) else multiset{}
    decreases |chunks| - from
  {
    if from < |chunks| {
      var t, rest := Task(group, from, chunks[from]), TasksOf(group, chunks, from + 1);
      var tasks := TasksOf(group, chunks, from);
      assert tasks == [t] + rest && tasks[1..] == rest;
      GroupItems(job, group, chunks, from + 1, lost[1..], height);
      TaskItems(job, t, lost[0], height);
      var results := DeliveredAll(job, tasks, lost);
      assert results[1..] == DeliveredAll(job, rest, lost[1..]);
    }
  }

  lemma {:induction false} CanvasItems(
    job: string, groups: seq<seq<Rendition>>, chunks: seq<Slice>, lost: seq<bool>, height: int)
    requires |lost| == |Canvas(groups, chunks)|
    requires (forall k :: 0 <= k < |groups| ==> groups[k] != []) && Apart(AllIn(groups))
    ensures NoEmptyGroup(Canvas(groups, chunks))
    ensures SumOf(DeliveredAll(job, Canvas(groups, chunks), lost), ItemsOf(height)) ==
            if GroupedHeight(groups, height) then multiset(Timeline(chunks, 0, height)) else multiset{}
    decreases |groups|
  {
    if groups != [] {
      var a, b := TasksOf(groups[0], chunks, 0), Canvas(groups[1..], chunks);
      PartsApart(multiset(groups[0]), AllIn(groups[1..]));
      GroupItems(job, groups[0], chunks, 0, lost[..|a|], height);
      CanvasItems(job, groups[1..], chunks, lost[|a|..], height);
      DeliveredSplits(job, a, b, lost);
      SumSplits(DeliveredAll(job, a, lost[..|a|]), DeliveredAll(job, b, lost[|a|..]), ItemsOf(height));
      HeightOfOneGroup(groups, height);
    }
  }

  lemma PartsApart(a: multiset<Rendition>, b: multiset<Rendition>)
    requires Apart(a + b)
    ensures Apart(a) && Apart(b)
  {
    assert forall x :: x in a || x in b ==> x in a + b;
    assert forall x :: x in a ==> a[x] <= (a + b)[x];
    assert forall x :: x in b ==> b[x] <= (a + b)[x];
  }

  /** A height is in the first group or in the others, never in both. */
  lemma HeightOfOneGroup(groups: seq<seq<Rendition>>, height: int)
    requires groups != [] && Apart(AllIn(groups))
    ensures GroupedHeight(groups, height) <==> HasHeight(groups[0], height) || GroupedHeight(groups[1..], height)
    ensures !(HasHeight(groups[0], height) && GroupedHeight(groups[1..], height))
  {
    assert forall k :: 0 < k < |groups| ==> groups[k] == groups[1..][k - 1];
    assert forall k :: 0 <= k < |groups[1..]| ==> groups[1..][k] == groups[k + 1];
    forall i, k, j | 0 <= i < |groups[0]| && 0 <= k < |groups[1..]| && 0 <= j < |groups[1..][k]|
      ensures groups[0][i].height != groups[1..][k][j].height
    {
      InAll(groups[1..], k, groups[1..][k][j]);
      assert groups[0][i] in multiset(groups[0]);
      PartsDiffer(multiset(groups[0]), AllIn(groups[1..]), groups[0][i], groups[1..][k][j]);
    }
  }

  lemma {:induction false} InAll(groups: seq<seq<Rendition>>, k: nat, r: Rendition)
    requires k < |groups| && r in groups[k]
    ensures r in AllIn(groups)
    decreases k
  {
    if k == 0 {
      assert r in multiset(groups[0]);
    } else {
      InAll(groups[1..], k - 1, r);
    }
  }

  // ---- The timeline is preserved -----------------------------------------------------------------

  lemma {:induction false} TimelineIsOrdered(chunks: seq<Slice>, from: nat, height: int)
    requires from <= |chunks|
    ensures var line := Timeline(chunks, from, height);
            && |line| == |chunks| - from
            && forall i :: 0 <= i < |line| ==> line[i] == Item(from + i, Output(height, chunks[from + i]))
    decreases |chunks| - from
  {
    if from < |chunks| {
      TimelineIsOrdered(chunks, from + 1, height);
      var line, rest := Timeline(chunks, from, height), Timeline(chunks, from + 1, height);
      forall i | 0 <= i < |line|
        ensures line[i] == Item(from + i, Output(height, chunks[from + i]))
      {
        assert i > 0 ==> line[i] == rest[i - 1];
      }
    }
  }

  lemma TimelineHasDistinctKeys(chunks: seq<Slice>, height: int)
    ensures InOrder(Timeline(chunks, 0, height), ByIndex)
    ensures DistinctKeys(multiset(Timeline(chunks, 0, height)), ByIndex)
  {
    var line := Timeline(chunks, 0, height);
    TimelineIsOrdered(chunks, 0, height);
    forall x | x in multiset(line)
      ensures multiset(line)[x] == 1
    {
      var i :| 0 <= i < |line| && line[i] == x;
      OnceIfDistinct(line, i);
    }
    forall x, y | x in multiset(line) && y in multiset(line) && ByIndex(x) == ByIndex(y)
      ensures x == y
    {
      var i :| 0 <= i < |line| && line[i] == x;
      var j :| 0 <= j < |line| && line[j] == y;
    }
  }

  lemma OnceIfDistinct<T>(s: seq<T>, i: nat)
    requires i < |s| && forall j :: 0 <= j < |s| && j != i ==> s[j] != s[i]
    ensures multiset(s)[s[i]] == 1
  {
    assert s == s[..i] + [s[i]] + s[i + 1..];
    assert s[i] !in s[..i] && s[i] !in s[i + 1..];
    assert s[i] !in multiset(s[..i]) && s[i] !in multiset(s[i + 1..]);
  }

  /** For every plan with distinct heights, every pattern of slices lost by their GPU, and in
      whatever order the results come back: the concat input of each height is exactly its slices
      in time order, and there is input for no other height. */
  lemma TimelinePreserved(
    job: string, groups: seq<seq<Rendition>>, chunks: seq<Slice>, lost: seq<bool>, results: seq<ChunkResult>, height: int)
    requires (forall k :: 0 <= k < |groups| ==> groups[k] != []) && Apart(AllIn(groups))
    requires |lost| == |Canvas(groups, chunks)| && NoEmptyGroup(Canvas(groups, chunks))
    requires multiset(results) == multiset(DeliveredAll(job, Canvas(groups, chunks), lost))
    ensures Sort(Items(results, height), ByIndex) ==
            if GroupedHeight(groups, height) then Timeline(chunks, 0, height) else []
  {
    CanvasItems(job, groups, chunks, lost, height);
    ItemsIsSum(results, height);
    SumPermutes(results, DeliveredAll(job, Canvas(groups, chunks), lost), ItemsOf(height));
    var sorted := Sort(Items(results, height), ByIndex);
    if GroupedHeight(groups, height) {
      var line := Timeline(chunks, 0, height);
      TimelineHasDistinctKeys(chunks, height);
      OnlyOneOrder(line, sorted, ByIndex);
    } else {
      SameLength(sorted, []);
    }
  }

  function SlicesOf(items: seq<Item>): seq<Slice> {
    seq(|items|, i requires 0 <= i < |items| => items[i].output.slice)
  }

  /** Such a concat input plays the whole duration once, in order. */
  lemma TimelinePlaysTheWholeDuration(chunks: seq<Slice>, duration: real, height: int)
    requires Tiles(chunks, 0.0, duration)
    ensures SlicesOf(Timeline(chunks, 0, height)) == chunks
    ensures Tiles(SlicesOf(Timeline(chunks, 0, height)), 0.0, duration)
  {
    TimelineIsOrdered(chunks, 0, height);
    assert SlicesOf(Timeline(chunks, 0, height)) == chunks;
  }

  // ---- The merge of replacements is never refused ------------------------------------------------

  function AsParts(results: seq<ChunkResult>): seq<Part> {
    seq(|results|, i requires 0 <= i < |results| => Part(results[i]))
  }

  lemma {:induction false} PartsOutputs(results: seq<ChunkResult>)
    ensures PartOutputs(AsParts(results)) == AllOutputs(results)
    decreases |results|
  {
    if results != [] {
      PartsOutputs(results[1..]);
      assert AsParts(results)[1..] == AsParts(results[1..]);
    }
  }

  function HeightsOf(group: seq<Rendition>): seq<int> {
    seq(|group|, i requires 0 <= i < |group| => group[i].height)
  }

  lemma {:induction false} ApartMeansDistinct(group: seq<Rendition>, slice: Slice)
    requires Apart(multiset(group))
    ensures DistinctHeights(OutputsOf(group, slice))
    decreases |group|
  {
    if group != [] {
      WithoutFirst(group);
      FewerStayDistinct(multiset(group), group[0], Descending);
      ApartMeansDistinct(group[1..], slice);
      NotTwice(group);
      assert OutputsOf(group, slice) == [Output(group[0].height, slice)] + OutputsOf(group[1..], slice);
      assert forall i :: 0 <= i < |group[1..]| ==> group[1..][i].height != group[0].height;
    }
  }

  /** If all replacements of a lost slice deliver, `merge_chunk_results` accepts them, and the
      merged result is what the slice itself would have delivered, highest rendition first. */
  lemma ReplacementsMerge(job: string, t: Task)
    requires t.group != [] && Apart(multiset(t.group))
    ensures var parts := AsParts(EncodedAll(job, Replacements(t)));
            && (forall i :: 0 <= i < |parts| ==> FromSlice(parts[i], job, t.index))
            && DistinctHeights(PartOutputs(parts))
            && HeightsAre(PartOutputs(parts), HeightsOf(t.group))
            && multiset(Sort(PartOutputs(parts), HighestFirst)) == multiset(OutputsOf(t.group, t.slice))
  {
    var sorted := Sort(t.group, Descending);
    var outputs := PartOutputs(AsParts(EncodedAll(job, Replacements(t))));
    assert outputs == OutputsOf(sorted, t.slice) by {
      PartsOutputs(EncodedAll(job, Replacements(t)));
      SinglesOutputs(job, sorted, t.index, t.slice);
    }
    assert multiset(outputs) == multiset(OutputsOf(t.group, t.slice)) by {
      OutputsAreSum(t.group, t.slice);
      OutputsAreSum(sorted, t.slice);
      SumPermutes(t.group, sorted, AsOutput(t.slice));
    }
    ApartMeansDistinct(sorted, t.slice);
    SameHeights(t.group, sorted, t.slice);
  }

  lemma SameHeights(group: seq<Rendition>, sorted: seq<Rendition>, slice: Slice)
    requires multiset(sorted) == multiset(group)
    ensures HeightsAre(OutputsOf(sorted, slice), HeightsOf(group))
  {
    var outputs, heights := OutputsOf(sorted, slice), HeightsOf(group);
    forall i | 0 <= i < |outputs|
      ensures Lists(heights, outputs[i].height)
    {
      assert sorted[i] in multiset(sorted);
      var j :| 0 <= j < |group| && group[j] == sorted[i];
      assert heights[j] == outputs[i].height;
    }
    forall j | 0 <= j < |heights|
      ensures Shows(outputs, heights[j])
    {
      assert group[j] in multiset(group);
      var i :| 0 <= i < |sorted| && sorted[i] == group[j];
      assert outputs[i].height == heights[j];
    }
  }

  // ---- The grouping loop ---------------------------------------------------------------------------

  datatype Stitch = Stitch(height: int, items: seq<Item>)

  lemma {:induction false} ItemsExtend(results: seq<ChunkResult>, r: ChunkResult, height: int)
    ensures Items(results + [r], height) == Items(results, height) + Picked(r.outputs, r.index, height)
    decreases |results|
  {
    if results == [] {
      assert [] + [r] == [r];
    } else {
      assert (results + [r])[1..] == results[1..] + [r];
      ItemsExtend(results[1..], r, height);
      Associate(Picked(results[0].outputs, results[0].index, height), Items(results[1..], height),
                Picked(r.outputs, r.index, height));
    }
  }

  lemma {:induction false} PickedExtends(outputs: seq<Output>, o: Output, index: nat, height: int)
    ensures Picked(outputs + [o], index, height) == Picked(outputs, index, height) + PickedFrom(o, index, height)
    decreases |outputs|
  {
    if outputs == [] {
      assert [] + [o] == [o];
    } else {
      assert (outputs + [o])[1..] == outputs[1..] + [o];
      PickedExtends(outputs[1..], o, index, height);
      Associate(PickedFrom(outputs[0], index, height), Picked(outputs[1..], index, height), PickedFrom(o, index, height));
    }
  }

  /** `byHeight` holds exactly `done` of the results and the first outputs of one more. */
  ghost predicate Grouped(
    byHeight: map<int, seq<Item>>, done: seq<ChunkResult>, outputs: seq<Output>, index: nat)
  {
    forall h: int ::
      var all := Items(done, h) + Picked(outputs, index, h);
      if h in byHeight then byHeight[h] == all && all != [] else all == []
  }

  /** The inner grouping loop, over the renditions of one result. */
  method GroupResult(before: map<int, seq<Item>>, r: ChunkResult, ghost done: seq<ChunkResult>)
    returns (byHeight: map<int, seq<Item>>)
    requires Grouped(before, done, [], r.index)
    ensures Grouped(byHeight, done + [r], [], 0)
  {
    byHeight := before;
    for k := 0 to |r.outputs|
      invariant Grouped(byHeight, done, r.outputs[..k], r.index)
    {
      var o := r.outputs[k];
      assert r.outputs[..k + 1] == r.outputs[..k] + [o];
      forall h: int
        ensures Items(done, h) + Picked(r.outputs[..k + 1], r.index, h) ==
                Items(done, h) + Picked(r.outputs[..k], r.index, h) + PickedFrom(o, r.index, h)
      {
        PickedExtends(r.outputs[..k], o, r.index, h);
        Associate(Items(done, h), Picked(r.outputs[..k], r.index, h), PickedFrom(o, r.index, h));
      }
      var held := if o.height in byHeight then byHeight[o.height] else [];
      byHeight := byHeight[o.height := held + [Item(r.index, o)]];
    }
    assert r.outputs[..|r.outputs|] == r.outputs;
    forall h: int
      ensures Items(done + [r], h) + Picked([], 0, h) == Items(done, h) + Picked(r.outputs, r.index, h)
    {
      ItemsExtend(done, r, h);
    }
  }

  /** The grouping of `_run_concat_segments`: for each height that came back, and for no other,
      its items in slice order. */
  method ConcatInputs(results: seq<ChunkResult>) returns (inputs: map<int, seq<Item>>)
    ensures forall h: int :: h in inputs <==> Items(results, h) != []
    ensures forall h: int :: h in inputs ==> inputs[h] == Sort(Items(results, h), ByIndex)
  {
    var byHeight: map<int, seq<Item>> := map[];
    for i := 0 to |results|
      invariant Grouped(byHeight, results[..i], [], 0)
    {
      assert results[..i + 1] == results[..i] + [results[i]];
      SameWithoutOutputs(byHeight, results[..i], results[i].index);
      byHeight := GroupResult(byHeight, results[i], results[..i]);
    }
    assert results[..|results|] == results;
    GroupedAll(byHeight, results);
    inputs := map h | h in byHeight :: Sort(byHeight[h], ByIndex);
  }

  lemma SameWithoutOutputs(byHeight: map<int, seq<Item>>, done: seq<ChunkResult>, index: nat)
    requires Grouped(byHeight, done, [], 0)
    ensures Grouped(byHeight, done, [], index)
  {
    assert forall h: int :: Picked([], index, h) == Picked([], 0, h);
  }

  lemma GroupedAll(byHeight: map<int, seq<Item>>, results: seq<ChunkResult>)
    requires Grouped(byHeight, results, [], 0)
    ensures forall h: int :: h in byHeight <==> Items(results, h) != []
    ensures forall h: int :: h in byHeight ==> byHeight[h] == Items(results, h)
  {
    forall h: int
      ensures Items(results, h) + Picked([], 0, h) == Items(results, h)
    {
    }
  }

  // ---- From plan to playlist -------------------------------------------------------------------------

  function GroupsOf(routed: seq<GpuRouting.Routed>): seq<seq<Rendition>> {
    if routed == [] then [] else [routed[0].renditions] + GroupsOf(routed[1..])
  }

  lemma {:induction false} RoutedGroups(routed: seq<GpuRouting.Routed>)
    requires forall r :: r in routed ==> r.renditions != []
    ensures AllIn(GroupsOf(routed)) == GpuRouting.AllOf(routed)
    ensures forall k :: 0 <= k < |GroupsOf(routed)| ==> GroupsOf(routed)[k] != []
    decreases |routed|
  {
    if routed != [] {
      RoutedGroups(routed[1..]);
      assert GroupsOf(routed)[1..] == GroupsOf(routed[1..]);
    }
  }

  lemma {:induction false} SingleGroups(renditions: seq<Rendition>)
    ensures AllIn(Singles(renditions)) == multiset(renditions)
    ensures forall k :: 0 <= k < |Singles(renditions)| ==> Singles(renditions)[k] != []
    decreases |renditions|
  {
    if renditions != [] {
      SingleGroups(renditions[1..]);
      assert Singles(renditions)[1..] == Singles(renditions[1..]);
      assert renditions == [renditions[0]] + renditions[1..];
    }
  }

  lemma {:induction false} GroupedIsPlanned(groups: seq<seq<Rendition>>, renditions: seq<Rendition>, height: int)
    requires AllIn(groups) == multiset(renditions)
    ensures GroupedHeight(groups, height) <==> HasHeight(renditions, height)
  {
    if GroupedHeight(groups, height) {
      var k :| 0 <= k < |groups| && HasHeight(groups[k], height);
      var i :| 0 <= i < |groups[k]| && groups[k][i].height == height;
      InAll(groups, k, groups[k][i]);
      assert groups[k][i] in multiset(renditions);
      var j :| 0 <= j < |renditions| && renditions[j] == groups[k][i];
    }
    if HasHeight(renditions, height) {
      var j :| 0 <= j < |renditions| && renditions[j].height == height;
      assert renditions[j] in multiset(renditions);
      InSome(groups, renditions[j]);
    }
  }

  lemma {:induction false} InSome(groups: seq<seq<Rendition>>, r: Rendition)
    requires r in AllIn(groups)
    ensures GroupedHeight(groups, r.height)
    decreases |groups|
  {
    if r in groups[0] {
      assert HasHeight(groups[0], r.height);
    } else {
      assert r !in multiset(groups[0]);
      InSome(groups[1..], r);
      var k :| 0 <= k < |groups[1..]| && HasHeight(groups[1..][k], r.height);
      assert groups[1..][k] == groups[k + 1];
    }
  }

  /** What a viewer gets of every rendition: all of [0, duration), each moment from one slice, in
      order; and no rendition that was not asked for. */
  ghost predicate Complete(
    renditions: seq<Rendition>, chunks: seq<Slice>, duration: real, results: seq<ChunkResult>, height: int)
  {
    var input := Sort(Items(results, height), ByIndex);
    if HasHeight(renditions, height)
    then input == Timeline(chunks, 0, height) && SlicesOf(input) == chunks && Tiles(SlicesOf(input), 0.0, duration)
    else input == []
  }

  lemma PlanCompletes(
    job: string, renditions: seq<Rendition>, groups: seq<seq<Rendition>>, chunks: seq<Slice>, duration: real,
    lost: seq<bool>, results: seq<ChunkResult>, height: int)
    requires Apart(multiset(renditions)) && Tiles(chunks, 0.0, duration)
    requires AllIn(groups) == multiset(renditions) && forall k :: 0 <= k < |groups| ==> groups[k] != []
    requires |lost| == |Canvas(groups, chunks)| && NoEmptyGroup(Canvas(groups, chunks))
    requires multiset(results) == multiset(DeliveredAll(job, Canvas(groups, chunks), lost))
    ensures Complete(renditions, chunks, duration, results, height)
  {
    TimelinePreserved(job, groups, chunks, lost, results, height);
    GroupedIsPlanned(groups, renditions, height);
    TimelinePlaysTheWholeDuration(chunks, duration, height);
  }

  lemma CanvasCompletes(
    job: string, renditions: seq<Rendition>, groups: seq<seq<Rendition>>, chunks: seq<Slice>, duration: real,
    lost: seq<bool>, results: seq<ChunkResult>)
    requires Apart(multiset(renditions)) && Tiles(chunks, 0.0, duration)
    requires AllIn(groups) == multiset(renditions) && forall k :: 0 <= k < |groups| ==> groups[k] != []
    requires NoEmptyGroup(Canvas(groups, chunks))
    ensures |lost| == |Canvas(groups, chunks)| &&
            multiset(results) == multiset(DeliveredAll(job, Canvas(groups, chunks), lost)) ==>
              forall height: int :: Complete(renditions, chunks, duration, results, height)
  {
    if |lost| == |Canvas(groups, chunks)| && multiset(results) == multiset(DeliveredAll(job, Canvas(groups, chunks), lost)) {
      forall height: int
        ensures Complete(renditions, chunks, duration, results, height)
      {
        PlanCompletes(job, renditions, groups, chunks, duration, lost, results, height);
      }
    }
  }

  lemma {:induction false} CanvasHasNoEmptyGroup(groups: seq<seq<Rendition>>, chunks: seq<Slice>)
    requires forall k :: 0 <= k < |groups| ==> groups[k] != []
    ensures NoEmptyGroup(Canvas(groups, chunks))
    decreases |groups|
  {
    if groups != [] {
      TasksKeepGroup(groups[0], chunks, 0);
      CanvasHasNoEmptyGroup(groups[1..], chunks);
    }
  }

  lemma {:induction false} TasksKeepGroup(group: seq<Rendition>, chunks: seq<Slice>, from: nat)
    requires from <= |chunks|
    ensures forall i :: 0 <= i < |TasksOf(group, chunks, from)| ==>
                          TasksOf(group, chunks, from)[i].group == group && TasksOf(group, chunks, from)[i].slice in chunks
    decreases |chunks| - from
  {
    if from < |chunks| {
      TasksKeepGroup(group, chunks, from + 1);
    }
  }

  /** The GPU path of the pipeline, from the rendition list and the status of the GPUs to the
      concat: whatever is routed where and whichever slices are lost, every rendition comes back
      whole, from slices of at most five minutes. */
  method GpuPipeline(
    job: string, renditions: seq<Rendition>, status: seq<GpuRouting.Status>, duration: real, base: real,
    lost: seq<bool>, ghost results: seq<ChunkResult>)
    returns (tasks: seq<Task>, ghost chunks: seq<Slice>, ghost routed: seq<GpuRouting.Routed>)
    requires Apart(multiset(renditions)) && renditions != [] && duration > 0.0
    ensures chunks == Slices(0.0, duration, AdaptiveChunkDuration(duration, base, MAX_SLICE))
    ensures tasks == Canvas(GroupsOf(routed), chunks)
    ensures exists capacities :: GpuRouting.RoutedFor(renditions, status, capacities, routed)
    ensures forall i :: 0 <= i < |tasks| ==> 0.0 < tasks[i].slice.length <= MAX_SLICE
    ensures NoEmptyGroup(tasks)
    ensures |lost| == |tasks| && multiset(results) == multiset(DeliveredAll(job, tasks, lost)) ==>
              forall height: int :: Complete(renditions, chunks, duration, results, height)
  {
    var step := AdaptiveChunkDuration(duration, base, MAX_SLICE);
    var slices := BuildChunks(duration, step);
    chunks := slices;
    var placed, capacities := GpuRouting.PartitionGpuGroups(renditions, status);
    assert GpuRouting.RoutedFor(renditions, status, capacities, placed);
    routed := placed;
    var groups := GroupsOf(placed);
    assert forall r :: r in routed ==> r.renditions != [];
    RoutedGroups(routed);
    assert AllIn(groups) == multiset(renditions) by {
      if capacities == map[] {
        assert GpuRouting.AllOf(routed[1..]) == multiset{};
      }
    }
    tasks := Canvas(groups, slices);
    CanvasHasNoEmptyGroup(groups, slices);
    CanvasSlices(groups, slices);
    if |lost| == |tasks| && multiset(results) == multiset(DeliveredAll(job, tasks, lost)) {
      forall height: int
        ensures Complete(renditions, chunks, duration, results, height)
      {
        PlanCompletes(job, renditions, groups, slices, duration, lost, results, height);
      }
    }
  }

  lemma {:induction false} CanvasSlices(groups: seq<seq<Rendition>>, chunks: seq<Slice>)
    ensures forall i :: 0 <= i < |Canvas(groups, chunks)| ==> Canvas(groups, chunks)[i].slice in chunks
    decreases |groups|
  {
    if groups != [] {
      TasksKeepGroup(groups[0], chunks, 0);
      CanvasSlices(groups[1..], chunks);
    }
  }

  /** The CPU path, also the replacement of a whole GPU group: one task per rendition and slice,
      none of which is replaced again. */
  method CpuPipeline(
    job: string, renditions: seq<Rendition>, duration: Setting, requested: Setting,
    ghost lost: seq<bool>, ghost results: seq<ChunkResult>)
    returns (tasks: Option<seq<Task>>, ghost chunks: seq<Slice>)
    requires Apart(multiset(renditions))
    ensures tasks.Some? ==>
              && |tasks.value| <= MAX_TASKS && NoEmptyGroup(tasks.value)
              && forall i :: 0 <= i < |tasks.value| ==>
                               0.0 < tasks.value[i].slice.length <= MAX_SLICE && |tasks.value[i].group| == 1
    ensures tasks.Some? <==>
              && PositiveFinite(duration) && renditions != []
              && |renditions| * |Slices(0.0, duration.value, CpuSlice(requested))| <= MAX_TASKS
    ensures tasks.Some? ==>
              && chunks == Slices(0.0, duration.value, CpuSlice(requested))
              && tasks.value == Canvas(Singles(Sort(renditions, Descending)), chunks)
    ensures tasks.Some? && |lost| == |tasks.value| &&
            multiset(results) == multiset(DeliveredAll(job, tasks.value, lost)) ==>
              forall height: int :: Complete(renditions, chunks, duration.value, results, height)
  {
    var plan := BoundedCpuPlan(duration, renditions, requested);
    if plan.Refused? {
      return None, [];
    }
    chunks := plan.chunks;
    var canvas := Canvas(plan.groups, plan.chunks);
    tasks := Some(canvas);
    SingleGroups(Sort(renditions, Descending));
    CanvasHasNoEmptyGroup(plan.groups, plan.chunks);
    CanvasSlices(plan.groups, plan.chunks);
    CanvasSize(plan.groups, plan.chunks);
    CanvasCompletes(job, renditions, plan.groups, plan.chunks, duration.value, lost, results);
  }

  lemma {:induction false} CanvasSize(groups: seq<seq<Rendition>>, chunks: seq<Slice>)
    requires forall k :: 0 <= k < |groups| ==> |groups[k]| == 1
    ensures |Canvas(groups, chunks)| == |groups| * |chunks|
    ensures forall i :: 0 <= i < |Canvas(groups, chunks)| ==> |Canvas(groups, chunks)[i].group| == 1
    decreases |groups|
  {
    if groups != [] {
      TasksKeepGroup(groups[0], chunks, 0);
      TasksCount(groups[0], chunks, 0);
      CanvasSize(groups[1..], chunks);
      assert |groups| * |chunks| == |chunks| + (|groups| - 1) * |chunks|;
    }
  }

  lemma {:induction false} TasksCount(group: seq<Rendition>, chunks: seq<Slice>, from: nat)
    requires from <= |chunks|
    ensures |TasksOf(group, chunks, from)| == |chunks| - from
    decreases |chunks| - from
  {
    if from < |chunks| {
      TasksCount(group, chunks, from + 1);
    }
  }
}
