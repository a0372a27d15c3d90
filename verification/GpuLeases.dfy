/** The weighted, expiring leases of one GPU: a sorted set of expiry times and a hash of session
    counts, changed only by scripts that run one at a time. */
module GpuLeases {

  import opened Common

  type LeaseId = string

  const LEASE_TTL := 60.0

  // ---- Sums over a hash ------------------------------------------------------------------

  ghost function Sum(m: map<LeaseId, nat>): nat
    decreases |m|
  {
    if m == map[] then 0
    else
      var k :| k in m;
      RemovalShrinks(m, k);
      m[k] + Sum(m - {k})
  }

  lemma RemovalShrinks(m: map<LeaseId, nat>, k: LeaseId)
    requires k in m
    ensures |m - {k}| == |m| - 1
  {
    assert (m - {k}).Keys == m.Keys - {k};
    assert |m.Keys| == |m| && |(m - {k}).Keys| == |m - {k}|;
  }

  /** Any element can be taken out first. */
  lemma {:induction false} SumWithout(m: map<LeaseId, nat>, k: LeaseId)
    requires k in m
    ensures Sum(m) == m[k] + Sum(m - {k})
    decreases |m|
  {
    var j :| j in m && Sum(m) == m[j] + Sum(m - {j});
    if j != k {
      RemovalShrinks(m, j);
      SumWithout(m - {j}, k);
      RemovalShrinks(m, k);
      SumWithout(m - {k}, j);
      assert m - {j} - {k} == m - {k} - {j};
    }
  }

  lemma SumSet(m: map<LeaseId, nat>, k: LeaseId, n: nat)
    ensures Sum(m[k := n]) == Sum(m - {k}) + n
  {
    SumWithout(m[k := n], k);
    assert m[k := n] - {k} == m - {k};
  }

  lemma {:induction false} SumShrinks(m: map<LeaseId, nat>, gone: set<LeaseId>)
    ensures Sum(m - gone) <= Sum(m)
    decreases |gone|
  {
    if gone == {} {
      assert m - gone == m;
    } else {
      var k :| k in gone;
      SumShrinks(m, gone - {k});
      var n := m - (gone - {k});
      if k in n {
        SumWithout(n, k);
        assert n - {k} == m - gone;
      } else {
        assert n == m - gone;
      }
    }
  }

  // ---- The scripts as steps ----------------------------------------------------------------

  datatype Gpu = Gpu(leases: map<LeaseId, real>, weights: map<LeaseId, nat>)

  datatype Script =
    | Acquire(id: LeaseId, capacity: int, requested: int)
    | Refresh(id: LeaseId)
    | Release(id: LeaseId)
    | Usage

  function Expired(g: Gpu, now: real): set<LeaseId> {
    set id | id in g.leases && g.leases[id] <= now
  }

  function Pruned(g: Gpu, now: real): Gpu {
    Gpu(g.leases - Expired(g, now), g.weights - Expired(g, now))
  }

  predicate Live(g: Gpu, id: LeaseId, now: real) {
    id in g.leases && g.leases[id] > now
  }

  /** The sessions each lease counts for; one without a weight counts as one session. */
  function Counted(g: Gpu): map<LeaseId, nat> {
    map id | id in g.leases :: if id in g.weights then g.weights[id] else 1
  }

  ghost predicate Grants(g: Gpu, now: real, capacity: int, requested: int) {
    requested >= 1 && capacity >= 1 && Sum(Counted(Pruned(g, now))) + requested <= capacity
  }

  ghost function Ran(g: Gpu, s: Script, now: real): Gpu {
    match s
    case Acquire(id, capacity, requested) =>
      var p := Pruned(g, now);
      if Grants(g, now, capacity, requested)
      then Gpu(p.leases[id := now + LEASE_TTL], p.weights[id := requested])
      else p
    case Refresh(id) =>
      if Live(g, id, now) then g.(leases := g.leases[id := now + LEASE_TTL])
      else Gpu(g.leases - {id}, g.weights - {id})
    case Release(id) => Gpu(g.leases - {id}, g.weights - {id})
    case Usage => Pruned(g, now)
  }

  /** Leases and weights are about the same ids, and the sessions in use fit `bound`. */
  ghost predicate Inv(g: Gpu, bound: nat) {
    g.leases.Keys == g.weights.Keys && Sum(g.weights) <= bound
  }

  /** However capacities are advertised over time, nothing is granted above the largest of them. */
  predicate Within(s: Script, bound: nat) {
    s.Acquire? ==> s.capacity <= bound
  }

  lemma ScriptKeepsInv(g: Gpu, s: Script, now: real, bound: nat)
    requires Inv(g, bound) && Within(s, bound)
    ensures Inv(Ran(g, s, now), bound)
  {
    SumShrinks(g.weights, Expired(g, now));
    assert Counted(Pruned(g, now)) == Pruned(g, now).weights;
    match s {
      case Acquire(id, capacity, requested) =>
        var p := Pruned(g, now);
        if Grants(g, now, capacity, requested) {
          SumSet(p.weights, id, requested);
          SumShrinks(p.weights, {id});
        }
      case Refresh(id) => SumShrinks(g.weights, {id});
      case Release(id) => SumShrinks(g.weights, {id});
      case Usage =>
    }
  }

  /** No script but a new acquisition makes a lease live that was not, and the only life it can
      prolong is one that has not run out. */
  lemma OnlyAcquireRevives(g: Gpu, s: Script, now: real, id: LeaseId)
    requires Live(Ran(g, s, now), id, now) && !Live(g, id, now)
    ensures s.Acquire? && s.id == id
  {
  }

  datatype Call = Call(script: Script, at: real)

  predicate InOrder(calls: seq<Call>, start: real) {
    && (calls != [] ==> start <= calls[0].at)
    && forall i :: 0 < i < |calls| ==> calls[i - 1].at <= calls[i].at
  }

  ghost function RanAll(g: Gpu, calls: seq<Call>): Gpu
    decreases |calls|
  {
    if calls == [] then g else RanAll(Ran(g, calls[0].script, calls[0].at), calls[1..])
  }

  /** A run is its calls one after the other. */
  lemma {:induction false} RunsOneByOne(g: Gpu, calls: seq<Call>, last: Call)
    ensures RanAll(g, calls + [last]) == Ran(RanAll(g, calls), last.script, last.at)
    decreases |calls|
  {
    if calls == [] {
      assert (calls + [last])[1..] == [];
    } else {
      assert (calls + [last])[1..] == calls[1..] + [last];
      RunsOneByOne(Ran(g, calls[0].script, calls[0].at), calls[1..], last);
    }
  }

  /** Over every run: the sessions in use never exceed the capacity. A child that dies just makes
      no more calls. */
  lemma {:induction false} RunsKeepInv(g: Gpu, calls: seq<Call>, bound: nat)
    requires Inv(g, bound) && forall c :: c in calls ==> Within(c.script, bound)
    ensures Inv(RanAll(g, calls), bound)
    decreases |calls|
  {
    if calls != [] {
      ScriptKeepsInv(g, calls[0].script, calls[0].at, bound);
      RunsKeepInv(Ran(g, calls[0].script, calls[0].at), calls[1..], bound);
    }
  }

  /** The owner of a lease that ran out, or was released, never gets it back by refreshing. */
  lemma {:induction false} ExpiredStaysDead(g: Gpu, calls: seq<Call>, id: LeaseId, start: real, end: real)
    requires !Live(g, id, start) && InOrder(calls, start)
    requires start <= end && forall i :: 0 <= i < |calls| ==> calls[i].at <= end
    requires forall i :: 0 <= i < |calls| ==> !(calls[i].script.Acquire? && calls[i].script.id == id)
    ensures !Live(RanAll(g, calls), id, end)
    decreases |calls|
  {
    if calls != [] {
      var next := Ran(g, calls[0].script, calls[0].at);
      if Live(next, id, calls[0].at) {
        OnlyAcquireRevives(g, calls[0].script, calls[0].at, id);
      }
      assert forall i :: 0 <= i < |calls| - 1 ==> calls[1..][i] == calls[i + 1];
      ExpiredStaysDead(next, calls[1..], id, calls[0].at, end);
    }
  }

  /** A holder that is refreshed by nobody blocks nobody for longer than the lease time: any
      request that fits next to the other live leases is granted. */
  lemma DeadChildrenMakeRoom(g: Gpu, id: LeaseId, since: real, now: real, capacity: int, requested: int)
    requires g.leases.Keys == g.weights.Keys && id in g.leases
    requires g.leases[id] == since + LEASE_TTL && now >= since + LEASE_TTL
    requires requested >= 1 && capacity >= 1 && Sum(g.weights - {id}) + requested <= capacity
    ensures Grants(g, now, capacity, requested)
  {
    assert id in Expired(g, now);
    SumShrinks(g.weights - {id}, Expired(g, now));
    assert g.weights - {id} - Expired(g, now) == Counted(Pruned(g, now));
  }

  // ---- The scripts as they run ---------------------------------------------------------------

  class LeaseStore {
    var leases: map<LeaseId, real>
    var weights: map<LeaseId, nat>

    ghost function View(): Gpu
      reads this
    {
      Gpu(leases, weights)
    }

    constructor ()
      ensures View() == Gpu(map[], map[])
    {
      leases, weights := map[], map[];
    }

    /** ZRANGEBYSCORE, ZREMRANGEBYSCORE and HDEL. */
    method Prune(now: real)
      modifies this
      ensures View() == Pruned(old(View()), now)
    {
      var expired := set id | id in leases && leases[id] <= now;
      if expired != {} {
        leases := leases - expired;
        weights := weights - expired;
      } else {
        assert leases - expired == leases && weights - expired == weights;
      }
    }

    /** The sum over the active ids; a missing weight counts as one session. */
    method Used() returns (used: nat)
      ensures used == Sum(Counted(View()))
    {
      used := 0;
      var active := leases.Keys;
      ghost var all := Counted(View());
      ghost var left := all;
      while active != {}
        invariant left.Keys == active && active <= all.Keys && forall id :: id in left ==> left[id] == all[id]
        invariant used + Sum(left) == Sum(all)
      {
        var id :| id in active;
        SumWithout(left, id);
        active, left := active - {id}, left - {id};
        used := used + if id in weights then weights[id] else 1;
      }
      assert left == map[];
    }

    method Acquire(id: LeaseId, capacity: int, requested: int, now: real) returns (granted: bool)
      modifies this
      ensures View() == Ran(old(View()), Script.Acquire(id, capacity, requested), now)
      ensures granted <==> Grants(old(View()), now, capacity, requested)
    {
      Prune(now);
      var used := Used();
      if requested < 1 || capacity < 1 || used + requested > capacity {
        return false;
      }
      leases := leases[id := now + LEASE_TTL];
      weights := weights[id := requested];
      granted := true;
    }

    method Refresh(id: LeaseId, now: real) returns (refreshed: bool)
      requires now > 0.0
      modifies this
      ensures View() == Ran(old(View()), Script.Refresh(id), now)
      ensures refreshed <==> Live(old(View()), id, now)
    {
      var expiresAt := if id in leases then leases[id] else 0.0;
      if expiresAt <= now {
        leases := leases - {id};
        weights := weights - {id};
        return false;
      }
      leases := leases[id := now + LEASE_TTL];
      refreshed := true;
    }

    method Release(id: LeaseId) returns (removed: bool)
      modifies this
      ensures old(leases).Keys == old(weights).Keys ==> View() == Ran(old(View()), Script.Release(id), 0.0)
      ensures removed <==> id in old(leases)
    {
      removed := id in leases;
      leases := leases - {id};
      weights := weights - {id};
      if leases == map[] {
        leases, weights := map[], map[];
      }
    }

    method Usage(now: real) returns (used: nat)
      modifies this
      ensures used == Sum(Counted(Pruned(old(View()), now)))
      ensures old(leases).Keys == old(weights).Keys ==> View() == Ran(old(View()), Script.Usage, now)
    {
      Prune(now);
      used := Used();
      if leases == map[] {
        leases, weights := map[], map[];
      }
    }
  }

  // ---- The capacity that is advertised --------------------------------------------------------

  /** A worker hash as `_worker_registrations` reads it: gone, not a GPU worker, too old, or a
      live registration of a GPU with the capacity it claims. */
  datatype Registration = Gone | Untyped | Stale | Registered(index: int, capacity: int)

  function AtLeastOne(n: int): (r: nat)
    ensures 1 <= r && n <= r && (n >= 1 ==> r == n)
  {
    if n < 1 then 1 else n
  }

  /** `_worker_registrations`: the live GPUs, each with the smallest capacity any live worker
      claims for it, and never less than one session. */
  method WorkerRegistrations(rows: seq<Registration>) returns (capacities: map<int, nat>)
    ensures forall i :: i in capacities <==> exists k :: 0 <= k < |rows| && rows[k].Registered? && rows[k].index == i
    ensures forall k :: 0 <= k < |rows| && rows[k].Registered? ==>
                          rows[k].index in capacities && 1 <= capacities[rows[k].index] <= AtLeastOne(rows[k].capacity)
    ensures forall i :: i in capacities ==>
                          exists k :: 0 <= k < |rows| && rows[k].Registered? && rows[k].index == i &&
                                      capacities[i] == AtLeastOne(rows[k].capacity)
  {
    capacities := map[];
    for k := 0 to |rows|
      invariant forall i :: i in capacities ==>
                              exists j :: 0 <= j < k && rows[j].Registered? && rows[j].index == i &&
                                          capacities[i] == AtLeastOne(rows[j].capacity)
      invariant forall j :: 0 <= j < k && rows[j].Registered? ==>
                              rows[j].index in capacities && capacities[rows[j].index] <= AtLeastOne(rows[j].capacity)
    {
      if rows[k].Registered? {
        var index, capacity := rows[k].index, AtLeastOne(rows[k].capacity);
        if index !in capacities || capacity < capacities[index] {
          capacities := capacities[index := capacity];
        }
      }
    }
  }

  // ---- Claiming any of several GPUs -------------------------------------------------------------

  datatype Device = Device(index: int)

  /** How one script call goes: at what time of the server, and whether the script ran and its
      answer came back. */
  datatype Reply = Reply(at: real, ran: bool, answered: bool)

  predicate AllAnswer(replies: seq<Reply>) {
    forall i :: 0 <= i < |replies| ==> replies[i].ran && replies[i].answered
  }

  function Next(replies: seq<Reply>): Reply {
    if replies == [] then Reply(0.0, true, true) else replies[0]
  }

  function Rest(replies: seq<Reply>, calls: nat): seq<Reply> {
    if calls <= |replies| then replies[calls..] else []
  }

  lemma RestOfRest(replies: seq<Reply>, first: nat, second: nat)
    ensures Rest(Rest(replies, first), second) == Rest(replies, first + second)
  {
  }

  /** How many of the first candidates a request is small enough for. */
  function Asked(candidates: seq<Device>, capacities: map<Device, nat>, slots: int, upTo: nat): nat
    requires upTo <= |candidates|
  {
    if upTo == 0 then 0
    else
      var d := candidates[upTo - 1];
      Asked(candidates, capacities, slots, upTo - 1) + if d in capacities && slots <= AtLeastOne(capacities[d]) then 1 else 0
  }

  lemma NextAsked(replies: seq<Reply>, candidates: seq<Device>, capacities: map<Device, nat>, slots: int, i: nat)
    requires i < |candidates| && candidates[i] in capacities
    ensures Rest(replies, Asked(candidates, capacities, slots, i + 1)) ==
            Rest(Rest(replies, Asked(candidates, capacities, slots, i)),
                 if slots <= AtLeastOne(capacities[candidates[i]]) then 1 else 0)
  {
  }

  /** The calls of so many rounds of equally many. */
  function CallsIn(rounds: nat, each: nat): nat {
    if rounds == 0 then 0 else CallsIn(rounds - 1, each) + each
  }

  lemma {:induction false} OneRoundMore(rounds: nat, each: nat)
    ensures CallsIn(rounds + 1, each) == each + CallsIn(rounds, each)
  {
  }

  /** The request fits next to all leases stored, expired or not. */
  ghost predicate HasRoom(g: Gpu, slots: int, capacity: nat) {
    1 <= slots <= capacity && Sum(Counted(g)) + slots <= capacity
  }

  lemma PruningMakesRoom(g: Gpu, now: real)
    ensures Sum(Counted(Pruned(g, now))) <= Sum(Counted(g))
  {
    assert Counted(Pruned(g, now)) == Counted(g) - Expired(g, now);
    SumShrinks(Counted(g), Expired(g, now));
  }

  /** A script that another worker runs on one of the GPUs. */
  datatype Turn = Turn(device: Device, script: Script, at: real)

  /** What others may run: any script for a lease of their own, with an advertised capacity. */
  predicate Foreign(t: Turn, gpus: map<Device, Gpu>, id: LeaseId, bounds: map<Device, nat>) {
    && t.device in gpus && t.device in bounds && Within(t.script, bounds[t.device])
    && (t.script.Usage? || t.script.id != id) && t.at > 0.0
  }

  /** The GPUs after all turns that others may take. */
  ghost function Turned(gpus: map<Device, Gpu>, id: LeaseId, bounds: map<Device, nat>, turns: seq<Turn>): map<Device, Gpu>
    decreases |turns|
  {
    if turns == [] then gpus
    else
      var t := turns[0];
      Turned(if Foreign(t, gpus, id, bounds) then gpus[t.device := Ran(gpus[t.device], t.script, t.at)] else gpus,
             id, bounds, turns[1..])
  }

  method RunScript(g: Gpu, s: Script, at: real) returns (after: Gpu)
    requires g.leases.Keys == g.weights.Keys && at > 0.0
    ensures after == Ran(g, s, at)
  {
    var store := new LeaseStore();
    store.leases, store.weights := g.leases, g.weights;
    assert store.View() == g;
    match s {
      case Acquire(id, capacity, requested) => var _ := store.Acquire(id, capacity, requested, at);
      case Refresh(id) => var _ := store.Refresh(id, at);
      case Release(id) => var _ := store.Release(id);
      case Usage => var _ := store.Usage(at);
    }
    after := Gpu(store.leases, store.weights);
    assert after == store.View();
  }

  /** From one moment to the next one script has run on one GPU. */
  ghost predicate OneScript(before: map<Device, Gpu>, after: map<Device, Gpu>) {
    exists d, s, at :: d in before && after == before[d := Ran(before[d], s, at)]
  }

  class Pool {
    var gpus: map<Device, Gpu>
    /** How the next calls will go. */
    var replies: seq<Reply>
    /** What the other workers run before each of the next calls. */
    var others: seq<seq<Turn>>
    /** All GPUs at every moment so far. */
    ghost var history: seq<map<Device, Gpu>>

    constructor (gpus: map<Device, Gpu>, replies: seq<Reply>, others: seq<seq<Turn>>)
      ensures this.gpus == gpus && this.replies == replies && this.others == others && Recorded()
    {
      this.gpus, this.replies, this.others, history := gpus, replies, others, [gpus];
    }

    ghost predicate Recorded()
      reads this
    {
      && history != [] && history[|history| - 1] == gpus
      && forall j, k :: 0 <= j < k < |history| && k == j + 1 ==> OneScript(history[j], history[k])
    }

    /** Other workers run their scripts. */
    method Interfere(id: LeaseId, bounds: map<Device, nat>)
      requires Recorded() && PoolInv(gpus, bounds) && Unused(gpus, id)
      modifies this`gpus, this`others, this`history
      ensures Recorded() && PoolInv(gpus, bounds) && Unused(gpus, id)
      ensures gpus.Keys == old(gpus).Keys && old(history) <= history
      ensures old(others) == [] ==> history == old(history)
      ensures gpus == if old(others) == [] then old(gpus) else Turned(old(gpus), id, bounds, old(others)[0])
      ensures others == if old(others) == [] then [] else old(others)[1..]
    {
      if others == [] {
        return;
      }
      var turns := others[0];
      others := others[1..];
      for i := 0 to |turns|
        invariant Recorded() && PoolInv(gpus, bounds) && Unused(gpus, id)
        invariant gpus.Keys == old(gpus).Keys && old(history) <= history
        invariant others == old(others)[1..]
        invariant Turned(gpus, id, bounds, turns[i..]) == Turned(old(gpus), id, bounds, turns)
      {
        var t := turns[i];
        assert turns[i..][1..] == turns[i + 1..];
        if Foreign(t, gpus, id, bounds) {
          ScriptKeepsInv(gpus[t.device], t.script, t.at, bounds[t.device]);
          Advance(t.device, t.script, t.at);
        }
      }
    }

    method Advance(d: Device, s: Script, at: real)
      requires Recorded() && d in gpus && gpus[d].leases.Keys == gpus[d].weights.Keys && at > 0.0
      modifies this`gpus, this`history
      ensures Recorded() && gpus == old(gpus)[d := Ran(old(gpus)[d], s, at)] && history == old(history) + [gpus]
    {
      var after := RunScript(gpus[d], s, at);
      gpus := gpus[d := after];
      history := history + [gpus];
    }

    method RunAcquire(d: Device, capacity: nat, id: LeaseId, slots: int, at: real) returns (ok: bool)
      requires Recorded() && d in gpus
      modifies this`gpus, this`history
      ensures gpus == old(gpus)[d := Ran(old(gpus)[d], Script.Acquire(id, capacity, slots), at)]
      ensures Recorded() && history == old(history) + [gpus]
      ensures ok <==> Grants(old(gpus)[d], at, capacity, slots)
    {
      var store := new LeaseStore();
      store.leases, store.weights := gpus[d].leases, gpus[d].weights;
      assert store.View() == gpus[d];
      ok := store.Acquire(id, capacity, slots, at);
      gpus := gpus[d := Gpu(store.leases, store.weights)];
      assert gpus[d] == store.View();
      history := history + [gpus];
    }

    /** One evaluation of the acquire script; None is a call that raised. */
    method TryAcquire(d: Device, capacity: nat, id: LeaseId, slots: int, bounds: map<Device, nat>)
      returns (granted: Option<bool>, ghost at: real)
      requires d in gpus && PoolInv(gpus, bounds) && d in bounds && capacity <= bounds[d] && Recorded()
      modifies this
      ensures PoolInv(gpus, bounds) && gpus.Keys == old(gpus).Keys && others == old(others)
      ensures Recorded() && (history == old(history) || history == old(history) + [gpus])
      ensures forall e :: e in gpus && e != d ==> gpus[e] == old(gpus)[e]
      ensures var reply := Next(old(replies));
              at == reply.at && (granted.Some? <==> reply.ran && reply.answered) && (!reply.ran ==> gpus == old(gpus))
      ensures granted == Some(true) ==>
                Live(gpus[d], id, at) && id in gpus[d].weights && gpus[d].weights[id] == slots <= capacity
      ensures granted == Some(false) ==>
                && (id in gpus[d].leases ==> id in old(gpus)[d].leases)
                && !HasRoom(old(gpus)[d], slots, capacity) && Lighter(gpus, old(gpus))
      ensures replies == Rest(old(replies), 1) && (AllAnswer(old(replies)) ==> AllAnswer(replies) && granted.Some?)
    {
      var reply := Next(replies);
      replies := if replies == [] then [] else replies[1..];
      at := reply.at;
      if !reply.ran {
        return None, at;
      }
      ScriptKeepsInv(gpus[d], Script.Acquire(id, capacity, slots), at, bounds[d]);
      PruningMakesRoom(gpus[d], at);
      var ok := RunAcquire(d, capacity, id, slots, reply.at);
      if !ok {
        OneLighter(old(gpus), gpus, d);
      }
      granted := if reply.answered then Some(ok) else None;
    }

    /** One candidate: skipped if the request never fits, else the script, after others have run
        theirs. */
    method TryOne(
      d: Device, capacities: map<Device, nat>, id: LeaseId, slots: int, bounds: map<Device, nat>, ghost from: nat,
      ghost start: Option<map<Device, Gpu>>)
      returns (granted: Option<bool>, ghost at: real)
      requires PoolInv(gpus, bounds) && Recorded() && Unused(gpus, id) && Claimable(d, gpus, capacities, bounds)
      requires from < |history| && (start.Some? ==> others == [] && d in start.value && Lighter(gpus, start.value))
      modifies this
      ensures PoolInv(gpus, bounds) && gpus.Keys == old(gpus).Keys && Recorded() && old(history) <= history
      ensures granted == Some(true) ==> Claimed(d, gpus, [d], capacities, id, slots, at)
      ensures granted == Some(false) ==>
                Unused(gpus, id) && SeenFullOne(history, from, d, capacities, slots)
      ensures start.Some? ==> others == []
      ensures start.Some? && granted == Some(false) ==>
                Lighter(gpus, start.value) && NoRoom(start.value, d, capacities, slots)
      ensures replies == Rest(old(replies), if slots <= AtLeastOne(capacities[d]) then 1 else 0)
      ensures AllAnswer(old(replies)) ==> AllAnswer(replies) && granted.Some?
    {
      if slots > AtLeastOne(capacities[d]) {
        FullAtLast(history, history, from, d, capacities, slots);
        return Some(false), 0.0;
      }
      Interfere(id, bounds);
      ghost var before, met := gpus, history;
      StillClaimable(d, gpus, old(gpus), capacities, bounds);
      assert start.Some? ==> Lighter(before, start.value);
      granted, at := TryAcquire(d, AtLeastOne(capacities[d]), id, slots, bounds);
      if granted == Some(true) {
        OnlyThere(gpus, before, d, capacities, id, slots, at);
      } else if granted == Some(false) {
        StillUnused(gpus, before, d, id);
        FullAtLast(met, history, from, d, capacities, slots);
        if start.Some? {
          StillLighter(gpus, before, start.value, d, capacities, slots);
        }
      }
    }

    /** One round over the candidates. A round without a grant, with all calls answered, has seen
        every candidate without room at some moment of the round. */
    method TryEach(
      candidates: seq<Device>, capacities: map<Device, nat>, id: LeaseId, slots: int, bounds: map<Device, nat>)
      returns (r: Option<Device>, failed: bool, ghost at: real, ghost place: nat)
      requires PoolInv(gpus, bounds) && Recorded()
      requires AllClaimable(candidates, gpus, capacities, bounds)
      requires Unused(gpus, id)
      modifies this
      ensures PoolInv(gpus, bounds) && gpus.Keys == old(gpus).Keys && Recorded() && old(history) <= history
      ensures r.Some? ==> !failed && Claimed(r.value, gpus, candidates, capacities, id, slots, at)
      ensures r.Some? ==> FirstWithRoom(r.value, history, |old(history)| - 1, candidates, capacities, slots, place)
      ensures r.None? && !failed ==>
                Unused(gpus, id) && SeenFull(history, |old(history)| - 1, candidates, capacities, slots, |candidates|)
      ensures old(others) == [] ==>
                && others == [] && (r.None? && !failed ==> Crowded(old(gpus), candidates, capacities, slots, |candidates|))
                && (r.Some? ==> Crowded(old(gpus), candidates, capacities, slots, place))
      ensures AllAnswer(old(replies)) ==> AllAnswer(replies) && !failed
      ensures r.None? && !failed ==> replies == Rest(old(replies), Asked(candidates, capacities, slots, |candidates|))
    {
      r, failed, at, place := None, false, 0.0, 0;
      ghost var from := |history| - 1;
      ghost var start := if others == [] then Some(gpus) else None;
      for i := 0 to |candidates|
        invariant PoolInv(gpus, bounds) && gpus.Keys == old(gpus).Keys && Unused(gpus, id)
        invariant Recorded() && old(history) <= history && AllClaimable(candidates, gpus, capacities, bounds)
        invariant SeenFull(history, from, candidates, capacities, slots, i)
        invariant start.Some? ==> others == [] && StillCrowded(gpus, start.value, candidates, capacities, slots, i)
        invariant AllAnswer(old(replies)) ==> AllAnswer(replies)
        invariant replies == Rest(old(replies), Asked(candidates, capacities, slots, i))
      {
        NextAsked(old(replies), candidates, capacities, slots, i);
        var granted;
        granted, at := TryNext(candidates, i, capacities, id, slots, bounds, from, start);
        if granted.None? {
          return None, true, at, i;
        }
        if granted.value {
          return Some(candidates[i]), false, at, i;
        }
      }
    }

    /** One turn of the round. */
    method TryNext(
      candidates: seq<Device>, i: nat, capacities: map<Device, nat>, id: LeaseId, slots: int, bounds: map<Device, nat>,
      ghost from: nat, ghost start: Option<map<Device, Gpu>>)
      returns (granted: Option<bool>, ghost at: real)
      requires PoolInv(gpus, bounds) && Recorded() && Unused(gpus, id)
      requires AllClaimable(candidates, gpus, capacities, bounds) && i < |candidates| && candidates[i] in capacities
      requires from < |history| && SeenFull(history, from, candidates, capacities, slots, i)
      requires start.Some? ==> others == [] && StillCrowded(gpus, start.value, candidates, capacities, slots, i)
      modifies this
      ensures PoolInv(gpus, bounds) && gpus.Keys == old(gpus).Keys && Recorded() && old(history) <= history
      ensures AllClaimable(candidates, gpus, capacities, bounds)
      ensures granted == Some(true) ==> Claimed(candidates[i], gpus, candidates, capacities, id, slots, at)
      ensures granted == Some(false) ==> Unused(gpus, id)
      ensures SeenFull(history, from, candidates, capacities, slots, if granted == Some(false) then i + 1 else i)
      ensures start.Some? ==> others == []
      ensures start.Some? && granted == Some(false) ==>
                StillCrowded(gpus, start.value, candidates, capacities, slots, i + 1)
      ensures replies == Rest(old(replies), if slots <= AtLeastOne(capacities[candidates[i]]) then 1 else 0)
      ensures AllAnswer(old(replies)) ==> AllAnswer(replies) && granted.Some?
    {
      var d := candidates[i];
      assert Claimable(candidates[i], gpus, capacities, bounds);
      ghost var was := history;
      granted, at := TryOne(d, capacities, id, slots, bounds, from, start);
      SeenStays(was, history, from, candidates, capacities, slots, i);
      StillAllClaimable(candidates, gpus, old(gpus), capacities, bounds);
      if granted == Some(false) {
        NextSeen(was, history, from, candidates, capacities, slots, i);
      }
    }

    /** `acquire_gpu`: it returns a GPU only with the lease live there for all requested sessions
        and granted on no other GPU, and nothing it does, whichever calls fail, oversubscribes
        any GPU. With all calls answered, it returns none only if every candidate was without
        room at some moment since it began; and if nobody else acts, at the beginning already.
        `rounds` is how often the deadline lets it go around again. */
    method AcquireGpu(
      candidates: seq<Device>, capacities: map<Device, nat>, id: LeaseId, slots: int, rounds: nat,
      bounds: map<Device, nat>)
      returns (r: Option<Device>, ghost at: real, ghost place: nat)
      requires PoolInv(gpus, bounds) && Recorded()
      requires AllClaimable(candidates, gpus, capacities, bounds)
      requires Unused(gpus, id)
      modifies this
      ensures PoolInv(gpus, bounds) && gpus.Keys == old(gpus).Keys && Recorded() && old(history) <= history
      ensures r.Some? ==> Claimed(r.value, gpus, candidates, capacities, id, slots, at)
      // The candidates come in their order, and around as often as there is time.
      ensures r.Some? ==> FirstWithRoom(r.value, history, |old(history)| - 1, candidates, capacities, slots, place)
      ensures r.Some? && old(others) == [] ==> Crowded(old(gpus), candidates, capacities, slots, place)
      ensures AllAnswer(old(replies)) && r.None? ==>
                replies == Rest(old(replies), CallsIn(rounds + 1, Asked(candidates, capacities, slots, |candidates|)))
      ensures AllAnswer(old(replies)) && r.None? ==>
                SeenFull(history, |old(history)| - 1, candidates, capacities, slots, |candidates|)
      ensures AllAnswer(old(replies)) && r.None? && old(others) == [] ==>
                Crowded(old(gpus), candidates, capacities, slots, |candidates|)
    {
      var failed;
      ghost var start := if others == [] then Some(gpus) else None;
      ghost var from, calls := |history| - 1, Asked(candidates, capacities, slots, |candidates|);
      r, failed, at, place := TryEach(candidates, capacities, id, slots, bounds);
      if r.None? && !failed {
        StillAllClaimable(candidates, gpus, old(gpus), capacities, bounds);
        RestOfRest(old(replies), calls, CallsIn(rounds, calls));
        OneRoundMore(rounds, calls);
        r, failed, at, place := KeepTrying(candidates, capacities, id, slots, rounds, bounds, from, start);
      }
    }

    /** The further rounds, while there is time. */
    method KeepTrying(
      candidates: seq<Device>, capacities: map<Device, nat>, id: LeaseId, slots: int, rounds: nat,
      bounds: map<Device, nat>, ghost from: nat, ghost start: Option<map<Device, Gpu>>)
      returns (r: Option<Device>, failed: bool, ghost at: real, ghost place: nat)
      requires PoolInv(gpus, bounds) && Recorded() && Unused(gpus, id)
      requires AllClaimable(candidates, gpus, capacities, bounds)
      requires Settled(None, false, 0, history, from, start, candidates, capacities, slots)
      modifies this
      ensures PoolInv(gpus, bounds) && gpus.Keys == old(gpus).Keys && Recorded() && old(history) <= history
      ensures r.Some? ==> Claimed(r.value, gpus, candidates, capacities, id, slots, at)
      ensures Settled(r, failed, place, history, from, start, candidates, capacities, slots)
      ensures AllAnswer(old(replies)) ==> !failed
      ensures r.None? && !failed ==>
                replies == Rest(old(replies), CallsIn(rounds, Asked(candidates, capacities, slots, |candidates|)))
    {
      r, failed, at, place := None, false, 0.0, 0;
      ghost var calls := Asked(candidates, capacities, slots, |candidates|);
      var round := 0;
      while r.None? && !failed && round < rounds
        invariant PoolInv(gpus, bounds) && gpus.Keys == old(gpus).Keys && Recorded() && old(history) <= history
        invariant round <= rounds && AllClaimable(candidates, gpus, capacities, bounds)
        invariant r.Some? ==> Claimed(r.value, gpus, candidates, capacities, id, slots, at)
        invariant Settled(r, failed, place, history, from, start, candidates, capacities, slots)
        invariant r.None? && !failed ==> Unused(gpus, id)
        invariant AllAnswer(old(replies)) ==> AllAnswer(replies) && !failed
        invariant r.None? && !failed ==> replies == Rest(old(replies), CallsIn(round, calls))
      {
        RestOfRest(old(replies), CallsIn(round, calls), calls);
        round := round + 1;
        r, failed, at, place := TryAgain(candidates, capacities, id, slots, bounds, from, start);
      }
    }

    /** Another round, after rounds that saw all candidates without room. */
    method TryAgain(
      candidates: seq<Device>, capacities: map<Device, nat>, id: LeaseId, slots: int, bounds: map<Device, nat>,
      ghost from: nat, ghost start: Option<map<Device, Gpu>>)
      returns (r: Option<Device>, failed: bool, ghost at: real, ghost place: nat)
      requires PoolInv(gpus, bounds) && Recorded() && Unused(gpus, id)
      requires AllClaimable(candidates, gpus, capacities, bounds)
      requires Settled(None, false, 0, history, from, start, candidates, capacities, slots)
      modifies this
      ensures PoolInv(gpus, bounds) && gpus.Keys == old(gpus).Keys && Recorded() && old(history) <= history
      ensures r.Some? ==> !failed && Claimed(r.value, gpus, candidates, capacities, id, slots, at)
      ensures Settled(r, failed, place, history, from, start, candidates, capacities, slots)
      ensures r.None? && !failed ==> Unused(gpus, id)
      ensures AllClaimable(candidates, gpus, capacities, bounds)
      ensures AllAnswer(old(replies)) ==> AllAnswer(replies) && !failed
      ensures r.None? && !failed ==> replies == Rest(old(replies), Asked(candidates, capacities, slots, |candidates|))
    {
      ghost var was := history;
      r, failed, at, place := TryEach(candidates, capacities, id, slots, bounds);
      SeenStays(was, history, from, candidates, capacities, slots, |candidates|);
      StillAllClaimable(candidates, gpus, old(gpus), capacities, bounds);
    }

    /** The beginning of `acquire_gpu`: the request is checked, and the candidates are the
        preferred GPU or all that have a live worker, by index. */
    method ClaimGpu(
      count: nat, preferred: Option<int>, capacities: map<Device, nat>, id: LeaseId, slots: int, rounds: nat,
      bounds: map<Device, nat>)
      returns (r: ClaimAnswer, ghost at: real)
      requires PoolInv(gpus, bounds) && Recorded() && Unused(gpus, id)
      requires forall d :: d in capacities ==> Claimable(d, gpus, capacities, bounds)
      modifies this
      ensures PoolInv(gpus, bounds) && gpus.Keys == old(gpus).Keys && Recorded() && old(history) <= history
      ensures r == BadRequest <==> slots < 1
      ensures r == BadRequest ==> gpus == old(gpus)
      ensures r.Granted? ==>
                Eligible(r.gpu, count, preferred, capacities) && Claimed(r.gpu, gpus, [r.gpu], capacities, id, slots, at)
      ensures r.Granted? && old(others) == [] ==>
                forall d :: Eligible(d, count, preferred, capacities) && d.index < r.gpu.index ==>
                              NoRoom(old(gpus), d, capacities, slots)
      ensures r == NoGpu && AllAnswer(old(replies)) && old(others) == [] ==>
                forall d :: Eligible(d, count, preferred, capacities) ==> NoRoom(old(gpus), d, capacities, slots)
    {
      if slots < 1 {
        return BadRequest, 0.0;
      }
      var candidates := Candidates(count, preferred, capacities);
      if candidates == [] {
        return NoGpu, 0.0;
      }
      assert forall i :: 0 <= i < |candidates| ==> candidates[i] in candidates;
      var d;
      ghost var place;
      d, at, place := AcquireGpu(candidates, capacities, id, slots, rounds, bounds);
      r := if d.Some? then Granted(d.value) else NoGpu;
      if r.Granted? && old(others) == [] {
        CrowdedBefore(old(gpus), candidates, capacities, slots, place);
      }
    }
  }

  datatype ClaimAnswer = BadRequest | NoGpu | Granted(gpu: Device)

  /** A GPU that may be claimed: one with a live worker, the preferred one if there is one. */
  predicate Eligible(d: Device, count: nat, preferred: Option<int>, capacities: map<Device, nat>) {
    d in capacities && if preferred.Some? then d.index == preferred.value else 0 <= d.index < count
  }

  predicate Ascending(candidates: seq<Device>) {
    forall i, j :: 0 <= i < j < |candidates| ==> candidates[i].index < candidates[j].index
  }

  method Candidates(count: nat, preferred: Option<int>, capacities: map<Device, nat>) returns (candidates: seq<Device>)
    ensures Ascending(candidates)
    ensures forall d :: d in candidates <==> Eligible(d, count, preferred, capacities)
  {
    if preferred.Some? {
      return if Device(preferred.value) in capacities then [Device(preferred.value)] else [];
    }
    candidates := [];
    for index := 0 to count
      invariant Ascending(candidates)
      invariant forall d :: d in candidates <==> d in capacities && 0 <= d.index < index
    {
      if Device(index) in capacities {
        assert forall i :: 0 <= i < |candidates| ==> candidates[i] in candidates;
        candidates := candidates + [Device(index)];
      }
    }
  }

  /** In an ascending list the places before are the smaller indices. */
  lemma CrowdedBefore(
    gpus: map<Device, Gpu>, candidates: seq<Device>, capacities: map<Device, nat>, slots: int, place: nat)
    requires Ascending(candidates) && place < |candidates| && Crowded(gpus, candidates, capacities, slots, place)
    ensures forall d :: d in candidates && d.index < candidates[place].index ==> NoRoom(gpus, d, capacities, slots)
  {
    forall d | d in candidates && d.index < candidates[place].index
      ensures NoRoom(gpus, d, capacities, slots)
    {
      var i :| 0 <= i < |candidates| && candidates[i] == d;
      assert i < place;
      assert NoRoom(gpus, candidates[i], capacities, slots);
    }
  }

  /** How rounds end: with a GPU and every candidate before it seen without room, or with all of
      them seen so, or with a call that failed; with nobody else acting, the start saw them so. */
  ghost predicate Settled(
    r: Option<Device>, failed: bool, place: nat, history: seq<map<Device, Gpu>>, from: nat,
    start: Option<map<Device, Gpu>>, candidates: seq<Device>, capacities: map<Device, nat>, slots: int)
  {
    && (r.Some? ==> FirstWithRoom(r.value, history, from, candidates, capacities, slots, place))
    && (r.None? && !failed ==> SeenFull(history, from, candidates, capacities, slots, |candidates|))
    && (start.Some? && r.Some? ==> Crowded(start.value, candidates, capacities, slots, place))
    && (start.Some? && r.None? && !failed ==> Crowded(start.value, candidates, capacities, slots, |candidates|))
  }

  /** The GPU stands at this place of the list, and each one before it was seen without room. */
  ghost predicate FirstWithRoom(
    d: Device, history: seq<map<Device, Gpu>>, from: nat, candidates: seq<Device>, capacities: map<Device, nat>, slots: int,
    place: nat)
  {
    place < |candidates| && candidates[place] == d && SeenFull(history, from, candidates, capacities, slots, place)
  }

  /** One of these moments saw this GPU without room. */
  ghost predicate SeenFullOne(
    history: seq<map<Device, Gpu>>, from: nat, d: Device, capacities: map<Device, nat>, slots: int)
  {
    exists k :: from <= k < |history| && NoRoom(history[k], d, capacities, slots)
  }

  lemma FullAtLast(
    before: seq<map<Device, Gpu>>, after: seq<map<Device, Gpu>>, from: nat, d: Device, capacities: map<Device, nat>,
    slots: int)
    requires from < |before| && before <= after && NoRoom(before[|before| - 1], d, capacities, slots)
    ensures SeenFullOne(after, from, d, capacities, slots)
  {
    assert after[|before| - 1] == before[|before| - 1];
  }

  ghost predicate SeenFull(
    history: seq<map<Device, Gpu>>, from: nat, candidates: seq<Device>, capacities: map<Device, nat>, slots: int, upTo: nat)
  {
    upTo <= |candidates| &&
    forall i {:trigger SeenFullOne(history, from, candidates[i], capacities, slots)} ::
      0 <= i < upTo ==> SeenFullOne(history, from, candidates[i], capacities, slots)
  }

  lemma SeenStays(
    before: seq<map<Device, Gpu>>, after: seq<map<Device, Gpu>>, from: nat,
    candidates: seq<Device>, capacities: map<Device, nat>, slots: int, upTo: nat)
    requires before <= after && SeenFull(before, from, candidates, capacities, slots, upTo)
    ensures SeenFull(after, from, candidates, capacities, slots, upTo)
  {
    forall i | 0 <= i < upTo
      ensures SeenFullOne(after, from, candidates[i], capacities, slots)
    {
      var d := candidates[i];
      assert SeenFullOne(before, from, d, capacities, slots);
      var k :| from <= k < |before| && NoRoom(before[k], d, capacities, slots);
      assert after[k] == before[k];
    }
  }

  lemma NextSeen(
    before: seq<map<Device, Gpu>>, after: seq<map<Device, Gpu>>, from: nat,
    candidates: seq<Device>, capacities: map<Device, nat>, slots: int, i: nat)
    requires before <= after && SeenFull(before, from, candidates, capacities, slots, i)
    requires i < |candidates| && SeenFullOne(after, from, candidates[i], capacities, slots)
    ensures SeenFull(after, from, candidates, capacities, slots, i + 1)
  {
    SeenStays(before, after, from, candidates, capacities, slots, i);
  }

  ghost predicate Unused(gpus: map<Device, Gpu>, id: LeaseId) {
    forall d :: d in gpus ==> id !in gpus[d].leases
  }

  /** The same GPUs with no more sessions on any than before. */
  ghost predicate Lighter(now: map<Device, Gpu>, before: map<Device, Gpu>) {
    now.Keys == before.Keys && forall d {:trigger LessOn(now, before, d)} :: d in now ==> LessOn(now, before, d)
  }

  ghost predicate LessOn(now: map<Device, Gpu>, before: map<Device, Gpu>, d: Device)
    requires d in now && now.Keys == before.Keys
  {
    Sum(Counted(now[d])) <= Sum(Counted(before[d]))
  }

  /** No more sessions anywhere than at the start, and none of the first candidates had room then. */
  ghost predicate StillCrowded(
    now: map<Device, Gpu>, start: map<Device, Gpu>, candidates: seq<Device>, capacities: map<Device, nat>, slots: int,
    upTo: nat)
  {
    Lighter(now, start) && Crowded(start, candidates, capacities, slots, upTo)
  }

  lemma StillClaimable(
    d: Device, now: map<Device, Gpu>, before: map<Device, Gpu>, capacities: map<Device, nat>, bounds: map<Device, nat>)
    requires Claimable(d, before, capacities, bounds) && now.Keys == before.Keys
    ensures Claimable(d, now, capacities, bounds)
  {
  }

  ghost predicate AllClaimable(
    candidates: seq<Device>, gpus: map<Device, Gpu>, capacities: map<Device, nat>, bounds: map<Device, nat>)
  {
    forall i :: 0 <= i < |candidates| ==> Claimable(candidates[i], gpus, capacities, bounds)
  }

  lemma StillAllClaimable(
    candidates: seq<Device>, now: map<Device, Gpu>, before: map<Device, Gpu>, capacities: map<Device, nat>,
    bounds: map<Device, nat>)
    requires AllClaimable(candidates, before, capacities, bounds) && now.Keys == before.Keys
    ensures AllClaimable(candidates, now, capacities, bounds)
  {
    assert forall i :: 0 <= i < |candidates| ==> Claimable(candidates[i], before, capacities, bounds);
  }

  lemma StillUnused(now: map<Device, Gpu>, before: map<Device, Gpu>, d: Device, id: LeaseId)
    requires Unused(before, id) && now.Keys == before.Keys && d in now && id !in now[d].leases
    requires forall e :: e in now && e != d ==> now[e] == before[e]
    ensures Unused(now, id)
  {
  }

  lemma StillLighter(
    now: map<Device, Gpu>, before: map<Device, Gpu>, start: map<Device, Gpu>, d: Device, capacities: map<Device, nat>,
    slots: int)
    requires Lighter(now, before) && Lighter(before, start) && NoRoom(before, d, capacities, slots)
    ensures Lighter(now, start) && NoRoom(start, d, capacities, slots)
  {
    forall e | e in now
      ensures LessOn(now, start, e)
    {
      assert LessOn(now, before, e) && LessOn(before, start, e);
    }
    assert LessOn(before, start, d);
  }

  lemma OnlyThere(
    now: map<Device, Gpu>, before: map<Device, Gpu>, d: Device, capacities: map<Device, nat>, id: LeaseId, slots: int,
    at: real)
    requires Unused(before, id) && now.Keys == before.Keys && d in now && d in capacities
    requires forall e :: e in now && e != d ==> now[e] == before[e]
    requires Live(now[d], id, at) && id in now[d].weights && now[d].weights[id] == slots <= AtLeastOne(capacities[d])
    ensures Claimed(d, now, [d], capacities, id, slots, at)
  {
  }

  lemma OneLighter(before: map<Device, Gpu>, now: map<Device, Gpu>, d: Device)
    requires d in before && d in now && now == before[d := now[d]]
    requires Sum(Counted(now[d])) <= Sum(Counted(before[d]))
    ensures Lighter(now, before)
  {
  }

  ghost predicate NoRoom(gpus: map<Device, Gpu>, d: Device, capacities: map<Device, nat>, slots: int) {
    d in gpus && d in capacities && !HasRoom(gpus[d], slots, AtLeastOne(capacities[d]))
  }

  /** None of the first candidates has room. */
  ghost predicate Crowded(
    gpus: map<Device, Gpu>, candidates: seq<Device>, capacities: map<Device, nat>, slots: int, upTo: nat)
  {
    upTo <= |candidates| &&
    forall i {:trigger NoRoom(gpus, candidates[i], capacities, slots)} ::
      0 <= i < upTo ==> NoRoom(gpus, candidates[i], capacities, slots)
  }

  ghost predicate Claimable(d: Device, gpus: map<Device, Gpu>, capacities: map<Device, nat>, bounds: map<Device, nat>) {
    d in gpus && d in capacities && d in bounds && AtLeastOne(capacities[d]) <= bounds[d]
  }

  /** The lease is live on this GPU, for all sessions and within the capacity, and on no other. */
  ghost predicate Claimed(
    d: Device, gpus: map<Device, Gpu>, candidates: seq<Device>, capacities: map<Device, nat>,
    id: LeaseId, slots: int, at: real)
  {
    && d in candidates && d in gpus && d in capacities && Live(gpus[d], id, at)
    && id in gpus[d].weights && gpus[d].weights[id] == slots <= AtLeastOne(capacities[d])
    && forall e :: e in gpus && e != d ==> id !in gpus[e].leases
  }

  ghost predicate PoolInv(gpus: map<Device, Gpu>, bounds: map<Device, nat>) {
    forall d :: d in gpus && d in bounds ==> Inv(gpus[d], bounds[d])
  }
}
