/** How the pipeline spreads renditions over live GPUs and splits each GPU's share into groups
    that fit its advertised sessions. */
module GpuRouting {

  import opened Common
  import Arithmetic
  import opened Sorting
  import opened Splitting
  import opened EncodePlan

  datatype Gpu = Gpu(index: int)

  /** One row of the status list; an index or capacity that is missing or no number is None. */
  datatype Status = Status(hasWorker: bool, index: Option<Gpu>, capacity: Option<int>)

  datatype Routed = Routed(gpu: Option<Gpu>, renditions: seq<Rendition>)

  predicate IsLive(s: Status) {
    s.hasWorker && s.index.Some?
  }

  /** What a row advertises, or one session if that is no positive number. */
  function SafeCapacity(s: Status): (n: nat)
    ensures n >= 1
    ensures if s.capacity.Some? && s.capacity.value >= 1 then n == s.capacity.value else n == 1
  {
    if s.capacity.Some? && s.capacity.value > 1 then s.capacity.value else 1
  }

  predicate Ascending(indices: seq<Gpu>) {
    forall i, j :: 0 <= i < j < |indices| ==> indices[i].index < indices[j].index
  }

  /** The GPUs with a worker, each with the smallest capacity any row gives for it. */
  ghost predicate Advertised(status: seq<Status>, capacities: map<Gpu, nat>) {
    && (forall k :: 0 <= k < |status| && IsLive(status[k]) ==>
          status[k].index.value in capacities && capacities[status[k].index.value] <= SafeCapacity(status[k]))
    && (forall g :: g in capacities ==>
          exists k :: 0 <= k < |status| && IsLive(status[k]) && status[k].index.value == g &&
                      capacities[g] == SafeCapacity(status[k]))
  }

  /** `_live_gpu_capacities` */
  method LiveGpuCapacities(status: seq<Status>) returns (capacities: map<Gpu, nat>)
    ensures Advertised(status, capacities)
    ensures forall g :: g in capacities ==> capacities[g] >= 1
  {
    capacities := map[];
    for k := 0 to |status|
      invariant forall g :: g in capacities ==>
                              exists j :: 0 <= j < k && IsLive(status[j]) && status[j].index.value == g &&
                                          capacities[g] == SafeCapacity(status[j])
      invariant forall j :: 0 <= j < k && IsLive(status[j]) ==>
                              status[j].index.value in capacities &&
                              capacities[status[j].index.value] <= SafeCapacity(status[j])
    {
      if IsLive(status[k]) {
        var g, capacity := status[k].index.value, SafeCapacity(status[k]);
        if g !in capacities || capacity < capacities[g] {
          capacities := capacities[g := capacity];
        }
      }
    }
  }

  // ---- Dealing and splitting ---------------------------------------------------------------

  /** Every n-th element from the k-th on. */
  function EveryNth<T>(s: seq<T>, k: nat, n: nat): seq<T>
    requires n > 0
    decreases |s| - k
  {
    if k >= |s| then [] else [s[k]] + EveryNth(s, k + n, n)
  }

  /** Whether the bucket that starts at k gets the element after the first `length`. */
  predicate Turn(length: nat, k: nat, n: nat)
    requires n > 0
    decreases length - k
  {
    k <= length && (k == length || Turn(length, k + n, n))
  }

  lemma {:induction false} OneMore<T>(s: seq<T>, x: T, k: nat, n: nat)
    requires n > 0
    ensures EveryNth(s + [x], k, n) == if Turn(|s|, k, n) then EveryNth(s, k, n) + [x] else EveryNth(s, k, n)
    decreases |s| - k
  {
    if k < |s| {
      OneMore(s, x, k + n, n);
      assert (s + [x])[k] == s[k];
      Associate([s[k]], EveryNth(s, k + n, n), [x]);
    } else if k == |s| {
      assert (s + [x])[k] == x && EveryNth(s + [x], k + n, n) == [];
    }
  }

  lemma {:induction false} TurnShifts(length: nat, k: nat, n: nat)
    requires n > 0
    ensures Turn(length + n, k + n, n) <==> Turn(length, k, n)
    decreases length - k
  {
    if k < length {
      TurnShifts(length, k + n, n);
    }
  }

  lemma {:induction false} TurnIsResidue(length: nat, k: nat, n: nat)
    requires k < n
    ensures Turn(length, k, n) <==> length % n == k
    decreases length
  {
    if length < n {
      assert length % n == length;
    } else {
      TurnIsResidue(length - n, k, n);
      TurnShifts(length - n, k, n);
      Arithmetic.ResidueRepeats(length, n);
    }
  }

  /** All buckets together hold what was dealt. */
  ghost function Dealt<T>(s: seq<T>, n: nat, upTo: nat): multiset<T>
    requires n > 0
  {
    if upTo == 0 then multiset{} else Dealt(s, n, upTo - 1) + multiset(EveryNth(s, upTo - 1, n))
  }

  /** The bucket whose turn it is. */
  lemma TurnIsTarget(length: nat, n: nat) returns (target: nat)
    requires n > 0
    ensures target < n && forall k :: 0 <= k < n ==> (Turn(length, k, n) <==> k == target)
  {
    target := length % n;
    forall k | 0 <= k < n
      ensures Turn(length, k, n) <==> k == target
    {
      TurnIsResidue(length, k, n);
    }
  }

  lemma {:induction false} DealingOneMore<T>(s: seq<T>, x: T, n: nat, upTo: nat, target: nat)
    requires 0 < n && upTo <= n && forall k :: 0 <= k < n ==> (Turn(|s|, k, n) <==> k == target)
    ensures Dealt(s + [x], n, upTo) == if target < upTo then Dealt(s, n, upTo) + multiset{x} else Dealt(s, n, upTo)
    decreases upTo
  {
    if upTo > 0 {
      var k := upTo - 1;
      DealingOneMore(s, x, n, k, target);
      OneMore(s, x, k, n);
      assert multiset(EveryNth(s, k, n) + [x]) == multiset(EveryNth(s, k, n)) + multiset{x};
      assert Turn(|s|, k, n) <==> k == target;
    }
  }

  lemma {:induction false} DealtIsAll<T>(s: seq<T>, n: nat)
    requires n > 0
    ensures Dealt(s, n, n) == multiset(s)
    decreases |s|
  {
    if s == [] {
      DealtNothing<T>(n, n);
    } else {
      var init, x := s[..|s| - 1], s[|s| - 1];
      assert s == init + [x];
      DealtIsAll(init, n);
      var target := TurnIsTarget(|init|, n);
      DealingOneMore(init, x, n, n, target);
    }
  }

  lemma {:induction false} DealtNothing<T>(n: nat, upTo: nat)
    requires n > 0
    ensures Dealt<T>([], n, upTo) == multiset{}
  {
    if upTo > 0 {
      DealtNothing<T>(n, upTo - 1);
    }
  }

  // ---- Routing --------------------------------------------------------------------------------

  function Pinned(gpu: Gpu, pieces: seq<seq<Rendition>>): seq<Routed> {
    seq(|pieces|, i requires 0 <= i < |pieces| => Routed(Some(gpu), pieces[i]))
  }

  ghost function AllOf(groups: seq<Routed>): multiset<Rendition> {
    if groups == [] then multiset{} else multiset(groups[0].renditions) + AllOf(groups[1..])
  }

  ghost function LoadOf(groups: seq<Routed>, gpu: Gpu): nat {
    if groups == [] then 0
    else (if groups[0].gpu == Some(gpu) then |groups[0].renditions| else 0) + LoadOf(groups[1..], gpu)
  }

  lemma {:induction false} Appended(a: seq<Routed>, b: seq<Routed>, gpu: Gpu)
    ensures AllOf(a + b) == AllOf(a) + AllOf(b)
    ensures LoadOf(a + b, gpu) == LoadOf(a, gpu) + LoadOf(b, gpu)
    decreases |a|
  {
    if a == [] {
      assert a + b == b;
    } else {
      assert (a + b)[1..] == a[1..] + b;
      Appended(a[1..], b, gpu);
    }
  }

  lemma {:induction false} PinnedHolds(gpu: Gpu, pieces: seq<seq<Rendition>>, other: Gpu)
    ensures AllOf(Pinned(gpu, pieces)) == multiset(Flat(pieces))
    ensures LoadOf(Pinned(gpu, pieces), other) == if other == gpu then |Flat(pieces)| else 0
    decreases |pieces|
  {
    if pieces != [] {
      PinnedHolds(gpu, pieces[1..], other);
      assert Pinned(gpu, pieces)[1..] == Pinned(gpu, pieces[1..]);
    }
  }

  /** The groups of the first `upTo` GPUs. */
  function Routing(ordered: seq<Rendition>, indices: seq<Gpu>, capacities: map<Gpu, nat>, upTo: nat): seq<Routed>
    requires upTo <= |indices| && forall g :: g in indices ==> g in capacities && capacities[g] >= 1
  {
    if upTo == 0 then []
    else
      var k := upTo - 1;
      Routing(ordered, indices, capacities, k) +
      Share(ordered, indices, capacities[indices[k]], k)
  }

  lemma ShareHolds(gpu: Gpu, bucket: seq<Rendition>, capacity: nat, other: Gpu)
    requires capacity > 0
    ensures AllOf(Pinned(gpu, Pieces(bucket, capacity))) == multiset(bucket)
    ensures LoadOf(Pinned(gpu, Pieces(bucket, capacity)), other) == if other == gpu then |bucket| else 0
  {
    PiecesJoin(bucket, capacity);
    PinnedHolds(gpu, Pieces(bucket, capacity), other);
  }

  lemma {:induction false} RoutingKeepsAll(
    ordered: seq<Rendition>, indices: seq<Gpu>, capacities: map<Gpu, nat>, upTo: nat)
    requires 0 < |indices| && upTo <= |indices| && forall g :: g in indices ==> g in capacities && capacities[g] >= 1
    ensures AllOf(Routing(ordered, indices, capacities, upTo)) == Dealt(ordered, |indices|, upTo)
    decreases upTo
  {
    if upTo > 0 {
      var k := upTo - 1;
      RoutingKeepsAll(ordered, indices, capacities, k);
      var bucket := EveryNth(ordered, k, |indices|);
      var pieces := Pieces(bucket, capacities[indices[k]]);
      ShareHolds(indices[k], bucket, capacities[indices[k]], indices[k]);
      Appended(Routing(ordered, indices, capacities, k), Pinned(indices[k], pieces), indices[k]);
    }
  }

  /** The groups of the k-th GPU. */
  function Share(ordered: seq<Rendition>, indices: seq<Gpu>, capacity: nat, k: nat): seq<Routed>
    requires k < |indices| && capacity > 0
  {
    Pinned(indices[k], Pieces(EveryNth(ordered, k, |indices|), capacity))
  }

  lemma LoadOfShare(ordered: seq<Rendition>, indices: seq<Gpu>, capacity: nat, k: nat, j: nat)
    requires Ascending(indices) && j < |indices| && k < |indices| && capacity > 0
    ensures LoadOf(Share(ordered, indices, capacity, k), indices[j]) ==
            if j == k then |EveryNth(ordered, j, |indices|)| else 0
  {
    ShareHolds(indices[k], EveryNth(ordered, k, |indices|), capacity, indices[j]);
    DifferentGpus(indices, j, k);
  }

  lemma {:induction false} RoutingShares(
    ordered: seq<Rendition>, indices: seq<Gpu>, capacities: map<Gpu, nat>, upTo: nat, j: nat)
    requires upTo <= |indices| && forall g :: g in indices ==> g in capacities && capacities[g] >= 1
    requires Ascending(indices) && j < |indices|
    ensures LoadOf(Routing(ordered, indices, capacities, upTo), indices[j]) ==
            if j < upTo then |EveryNth(ordered, j, |indices|)| else 0
    decreases upTo
  {
    if upTo > 0 {
      var k := upTo - 1;
      RoutingShares(ordered, indices, capacities, k, j);
      var capacity := capacities[indices[k]];
      LoadOfShare(ordered, indices, capacity, k, j);
      Appended(Routing(ordered, indices, capacities, k), Share(ordered, indices, capacity, k), indices[j]);
    }
  }

  lemma DifferentGpus(indices: seq<Gpu>, j: nat, k: nat)
    requires Ascending(indices) && j < |indices| && k < |indices|
    ensures indices[j] == indices[k] <==> j == k
  {
  }

  predicate Fits(group: Routed, capacities: map<Gpu, nat>) {
    && group.gpu.Some? && group.gpu.value in capacities
    && 0 < |group.renditions| <= capacities[group.gpu.value]
  }

  lemma {:induction false} RoutingFits(ordered: seq<Rendition>, indices: seq<Gpu>, capacities: map<Gpu, nat>, upTo: nat)
    requires upTo <= |indices| && forall g :: g in indices ==> g in capacities && capacities[g] >= 1
    ensures forall r :: r in Routing(ordered, indices, capacities, upTo) ==> Fits(r, capacities)
    decreases upTo
  {
    if upTo > 0 {
      RoutingFits(ordered, indices, capacities, upTo - 1);
    }
  }

  /** What routing promises. */
  ghost predicate WellRouted(renditions: seq<Rendition>, capacities: map<Gpu, nat>, groups: seq<Routed>) {
    && AllOf(groups) == multiset(renditions)
    && (forall r :: r in groups ==> Fits(r, capacities))
    && (forall g, h :: g in capacities && h in capacities ==> LoadOf(groups, g) <= LoadOf(groups, h) + 1)
  }

  lemma RoutedWell(ordered: seq<Rendition>, indices: seq<Gpu>, capacities: map<Gpu, nat>)
    requires indices != [] && Ascending(indices)
    requires forall g :: g in indices <==> g in capacities
    requires forall g :: g in capacities ==> capacities[g] >= 1
    ensures WellRouted(ordered, capacities, Routing(ordered, indices, capacities, |indices|))
  {
    var n := |indices|;
    var groups := Routing(ordered, indices, capacities, n);
    DealtIsAll(ordered, n);
    RoutingKeepsAll(ordered, indices, capacities, n);
    RoutingFits(ordered, indices, capacities, n);
    forall g, h | g in capacities && h in capacities
      ensures LoadOf(groups, g) <= LoadOf(groups, h) + 1
    {
      assert g in indices && h in indices;
      var i :| 0 <= i < n && indices[i] == g;
      var j :| 0 <= j < n && indices[j] == h;
      RoutingShares(ordered, indices, capacities, n, i);
      RoutingShares(ordered, indices, capacities, n, j);
      EvenShares(ordered, i, j, n);
    }
  }

  /** Buckets that start within one round of each other differ by one element at most. */
  lemma {:induction false} EvenShares<T>(s: seq<T>, i: nat, j: nat, n: nat)
    requires n > 0 && j <= i + n
    ensures |EveryNth(s, i, n)| <= |EveryNth(s, j, n)| + 1
    decreases |s| - i
  {
    if i < |s| && j < |s| {
      EvenShares(s, i + n, j + n, n);
    }
  }

  function Index(g: Gpu): int {
    g.index
  }

  /** Nothing to route, or one group for the CPU queue, or well routed over the advertised GPUs. */
  ghost predicate RoutedFor(
    renditions: seq<Rendition>, status: seq<Status>, capacities: map<Gpu, nat>, groups: seq<Routed>)
  {
    && Advertised(status, capacities)
    && if renditions == [] then groups == []
       else if capacities == map[] then groups == [Routed(None, Sort(renditions, Descending))]
       else WellRouted(renditions, capacities, groups)
  }

  /** `_partition_gpu_groups`. Without a live GPU there is one group, for the CPU queue. */
  method PartitionGpuGroups(renditions: seq<Rendition>, status: seq<Status>)
    returns (groups: seq<Routed>, ghost capacities: map<Gpu, nat>)
    ensures RoutedFor(renditions, status, capacities, groups)
    // Every rendition is routed once.
    ensures AllOf(groups) == multiset(renditions)
  {
    var ordered := Sort(renditions, Descending);
    var live := LiveGpuCapacities(status);
    capacities := live;
    if ordered == [] {
      return [], live;
    }
    if live == map[] {
      return [Routed(None, ordered)], live;
    }
    var indices := SortedKeys(live);
    groups := Route(ordered, indices, live);
    RoutedWell(ordered, indices, live);
  }

  method Route(ordered: seq<Rendition>, indices: seq<Gpu>, capacities: map<Gpu, nat>) returns (groups: seq<Routed>)
    requires indices != [] && forall g :: g in indices ==> g in capacities && capacities[g] >= 1
    ensures groups == Routing(ordered, indices, capacities, |indices|)
  {
    var buckets := Deal(ordered, |indices|);
    groups := [];
    for k := 0 to |indices|
      invariant groups == Routing(ordered, indices, capacities, k)
    {
      assert indices[k] in indices;
      var pieces := Split(buckets[k], capacities[indices[k]]);
      groups := groups + Pinned(indices[k], pieces);
    }
  }

  /** The keys in ascending order, as `dict(sorted(...))` lists them. */
  method SortedKeys(capacities: map<Gpu, nat>) returns (indices: seq<Gpu>)
    ensures Ascending(indices) && forall g :: g in indices <==> g in capacities
    ensures capacities != map[] ==> indices != []
  {
    var listed: seq<Gpu> := [];
    var left: set<Gpu> := capacities.Keys;
    while left != {}
      invariant left <= capacities.Keys
      decreases |left|
      invariant forall g :: g in listed <==> g in capacities.Keys - left
      invariant forall i, j :: 0 <= i < j < |listed| ==> listed[i] != listed[j]
    {
      var g :| g in left;
      listed, left := listed + [g], left - {g};
    }
    indices := Sort(listed, Index);
    SortedApart(listed, indices);
    assert forall g :: g in indices <==> g in multiset(indices);
    assert forall g :: g in listed <==> g in multiset(listed);
    assert capacities != map[] ==> exists g :: g in capacities;
  }

  lemma SortedApart(listed: seq<Gpu>, indices: seq<Gpu>)
    requires indices == Sort(listed, Index) && forall i, j :: 0 <= i < j < |listed| ==> listed[i] != listed[j]
    ensures Ascending(indices)
  {
    forall i, j | 0 <= i < j < |indices|
      ensures indices[i].index < indices[j].index
    {
      assert Index(indices[i]) <= Index(indices[j]);
      if indices[i] == indices[j] {
        TwiceIsTwice(indices, i, j);
        OnceIsOnce(listed, indices[i]);
      }
    }
  }

  lemma TwiceIsTwice<T>(s: seq<T>, i: nat, j: nat)
    requires i < j < |s| && s[i] == s[j]
    ensures multiset(s)[s[i]] >= 2
  {
    assert s == s[..i] + [s[i]] + s[i + 1..j] + [s[j]] + s[j + 1..];
  }

  lemma {:induction false} OnceIsOnce<T>(s: seq<T>, x: T)
    requires forall i, j :: 0 <= i < j < |s| ==> s[i] != s[j]
    ensures multiset(s)[x] <= 1
    decreases |s|
  {
    if s != [] {
      assert s == [s[0]] + s[1..];
      OnceIsOnce(s[1..], x);
      assert s[0] in s[1..] <==> multiset(s[1..])[s[0]] > 0;
    }
  }

  /** The round robin over the buckets. */
  method Deal(ordered: seq<Rendition>, n: nat) returns (buckets: seq<seq<Rendition>>)
    requires n > 0
    ensures |buckets| == n && forall k :: 0 <= k < n ==> buckets[k] == EveryNth(ordered, k, n)
  {
    buckets := seq(n, _ => []);
    for offset := 0 to |ordered|
      invariant |buckets| == n && forall k :: 0 <= k < n ==> buckets[k] == EveryNth(ordered[..offset], k, n)
    {
      var target := offset % n;
      forall k | 0 <= k < n
        ensures EveryNth(ordered[..offset + 1], k, n) ==
                if k == target then buckets[k] + [ordered[offset]] else buckets[k]
      {
        assert ordered[..offset + 1] == ordered[..offset] + [ordered[offset]];
        OneMore(ordered[..offset], ordered[offset], k, n);
        TurnIsResidue(offset, k, n);
      }
      buckets := buckets[target := buckets[target] + [ordered[offset]]];
    }
    assert ordered[..|ordered|] == ordered;
  }
}
