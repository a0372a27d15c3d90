/** The lock functions as the sequential programs one process runs, with every other
    process free to take any steps of the protocol between two of its system calls. */
module JobLockCalls {
  import opened Common
  import opened LockOrder
  import opened JobLocks

  datatype LockOutcome =
    | Held
    // JobLockBusy, only ever for a non-blocking request.
    | Busy
    // A blocking request for which the lock did not come free while it was watched.
    | StillWaiting

  datatype SweepOutcome = Removed | Absent | InUse | Unsafe

  datatype Summary = Summary(scanned: int, removed: int, busy: int, unsafe: int, namespaceBusy: bool)

  /** A step of another process cannot touch a process, and changes the directory only
      where the namespace guard lets it. */
  lemma OthersRespectGuard(s: State, p: nat, m: Move)
    requires Inv(s) && p < |s.procs| && m.p != p && Can(s, m.p, m.action)
    ensures var t := Do(s, m.p, m.action);
            && |t.procs| == |s.procs| && t.procs[p] == s.procs[p]
            && (GuardExclusive(s.procs[p]) ==> t.dir == s.dir)
            && (GuardShared(s.procs[p]) ==> forall k :: k in s.dir ==> k in t.dir && t.dir[k] == s.dir[k])
  {
    assert Apart(s.procs[p], s.procs[m.p]);
    if !m.action.OpenTarget? && !m.action.Unlink? {
      assert Do(s, m.p, m.action).dir == s.dir;
    }
  }

  /** A sweeper's probe is refused exactly when some process holds the key. */
  lemma RefusedMeansHeld(s: State, p: nat)
    requires Inv(s) && p < |s.procs| && s.procs[p].phase.ProbeOpened?
    ensures Grantable(s, s.procs[p].phase.inode, false) <==>
            forall q :: 0 <= q < |s.procs| ==> s.procs[p].phase.key !in s.procs[q].held
  {
    var key, inode := s.procs[p].phase.key, s.procs[p].phase.inode;
    assert Sound(s.dir, s.procs[p]);
    forall q | 0 <= q < |s.procs|
      ensures key in s.procs[q].held <==> exists mode :: Flocks(s.procs[q], inode, mode)
    {
      var b := s.procs[q];
      assert Sound(s.dir, b);
      assert q != p ==> Apart(s.procs[p], b);
      if key in b.held {
        assert Flocks(b, inode, b.held[key].shared);
      }
    }
  }

  /** While a cleanup has a job's lock exclusively, no task has any file lock of that job, in
      whatever stage of its nested acquisitions it is. */
  lemma CleanupIsAlone(
    s: State, p: nat, q: nat, job: nat, t: Task, video: nat, nesting: seq<Resource>, n: nat)
    requires Inv(s) && p < |s.procs| && q < |s.procs| && p != q
    requires Resource.Job(job) in s.procs[p].held && !s.procs[p].held[Resource.Job(job)].shared
    requires nesting in Nestings(t, job, video) && n <= |nesting|
    requires forall r :: r in s.procs[q].held <==> r in nesting[..n]
    ensures forall r :: r in s.procs[q].held ==> r.IsRow()
  {
    InvImpliesPromise(s);
    JobLockComesFirst(t, job, video, nesting);
    assert n > 0 ==> nesting[0] in nesting[..n];
  }

  /** A process because of which this key cannot be had now: it owns the guard, or it has the
      linked file locked in a mode that excludes. */
  ghost predicate InTheWay(s: State, q: nat, key: Resource, shared: bool)
    requires q < |s.procs|
  {
    || GuardExclusive(s.procs[q])
    || (key in s.dir && exists mode :: Flocks(s.procs[q], s.dir[key], mode) && !(shared && mode))
  }

  /** Whose lock it is that refuses an opened target: never one's own. */
  lemma Obstructor(s: State, p: nat) returns (q: nat)
    requires Inv(s) && p < |s.procs| && s.procs[p].phase.Opened?
    requires !Grantable(s, s.procs[p].phase.inode, s.procs[p].phase.shared)
    ensures q < |s.procs| && q != p && InTheWay(s, q, s.procs[p].phase.key, s.procs[p].phase.shared)
  {
    assert Sound(s.dir, s.procs[p]);
    var inode, shared := s.procs[p].phase.inode, s.procs[p].phase.shared;
    var mode;
    q, mode :| 0 <= q < |s.procs| && Flocks(s.procs[q], inode, mode) && !(shared && mode);
  }

  predicate IsHeld(s: State, key: Resource) {
    exists q :: 0 <= q < |s.procs| && key in s.procs[q].held
  }

  predicate HeldByOthers(s: State, p: nat, key: Resource) {
    exists q :: 0 <= q < |s.procs| && q != p && key in s.procs[q].held
  }

  predicate SameHolds(a: State, b: State) {
    |a.procs| == |b.procs| && forall q :: 0 <= q < |a.procs| ==> a.procs[q].held == b.procs[q].held
  }

  lemma ReleaseLeavesOthers(s: State, p: nat, key: Resource)
    requires Can(s, p, Release(key)) && !key.IsRow()
    ensures var t := Do(s, p, Release(key));
            && t.dir == s.dir && t.procs[p] == Proc(s.procs[p].held - {key}, Released(key))
            && (GuardGrantable(t, p, true) <==> GuardGrantable(s, p, true))
            && (HeldByOthers(t, p, key) <==> HeldByOthers(s, p, key))
  {
    var t := Do(s, p, Release(key));
    assert forall q :: 0 <= q < |s.procs| && q != p ==> t.procs[q] == s.procs[q];
  }

  /** What becomes of a state when others try these moves, and the impossible ones fail. */
  function Tried(s: State, p: nat, moves: seq<Move>): State
    decreases |moves|
  {
    if moves == [] then s
    else Tried(if moves[0].p != p && Can(s, moves[0].p, moves[0].action) then Do(s, moves[0].p, moves[0].action) else s,
               p, moves[1..])
  }

  /** The others have had this many chances to act. */
  predicate Patient(before: seq<seq<Move>>, now: seq<seq<Move>>, looks: int) {
    now == [] || |now| + looks <= |before|
  }

  class WorkVolume {
    /** The shared volume and all processes on it. */
    var s: State
    /** What the others try between two system calls of the program under study. */
    var others: seq<seq<Move>>

    constructor (s: State, others: seq<seq<Move>>)
      ensures this.s == s && this.others == others
    {
      this.s := s;
      this.others := others;
    }

    /** Others run: the process itself stays as it is, and so does a linked path for as long
        as the process is inside the namespace guard. */
    method Interfere(p: nat)
      requires Inv(s) && p < |s.procs|
      modifies this
      ensures Inv(s) && |s.procs| == |old(s).procs| && s.procs[p] == old(s).procs[p]
      ensures s == if old(others) == [] then old(s) else Tried(old(s), p, old(others)[0])
      ensures others == if old(others) == [] then [] else old(others)[1..]
      ensures GuardExclusive(s.procs[p]) ==> s.dir == old(s).dir
      ensures GuardShared(s.procs[p]) ==> forall k :: k in old(s).dir ==> k in s.dir && s.dir[k] == old(s).dir[k]
    {
      if others == [] {
        return;
      }
      var moves := others[0];
      others := others[1..];
      for i := 0 to |moves|
        invariant Inv(s) && |s.procs| == |old(s).procs| && s.procs[p] == old(s).procs[p]
        invariant others == old(others)[1..] && Tried(s, p, moves[i..]) == Tried(old(s), p, moves)
        invariant GuardExclusive(s.procs[p]) ==> s.dir == old(s).dir
        invariant GuardShared(s.procs[p]) ==>
                    forall k :: k in old(s).dir ==> k in s.dir && s.dir[k] == old(s).dir[k]
      {
        var m := moves[i];
        assert moves[i..][1..] == moves[i + 1..];
        if m.p != p && Can(s, m.p, m.action) {
          StepKeepsInv(s, m.p, m.action);
          OthersRespectGuard(s, p, m);
          s := Do(s, m.p, m.action);
        }
      }
    }

    /** One system call, after others have run. */
    method Call(p: nat, a: Action)
      requires Inv(s) && Can(s, p, a)
      modifies this`s
      ensures s == Do(old(s), p, a) && Inv(s)
    {
      StepKeepsInv(s, p, a);
      s := Do(s, p, a);
    }

    /** Entering `job_lock`: guard shared, open the target, lock it, let the guard go.
        `patience` bounds how often a blocking `flock` is looked at again. */
    method JobLock(p: nat, key: Resource, shared: bool, blocking: bool, patience: nat)
      returns (r: LockOutcome)
      requires Inv(s) && p < |s.procs| && !key.IsRow()
      requires Can(s, p, Request(key, shared, blocking))
      modifies this
      ensures Inv(s) && |s.procs| == |old(s).procs|
      ensures r == Held ==>
                key in s.dir &&
                s.procs[p] == Proc(old(s).procs[p].held[key := Hold(s.dir[key], shared)], Running)
      ensures r == Held && !shared ==>
                forall q :: 0 <= q < |s.procs| && q != p ==> key !in s.procs[q].held
      ensures r == Busy ==> !blocking && s.procs[p] == old(s).procs[p]
      ensures r == Busy ==> exists q :: 0 <= q < |s.procs| && q != p && InTheWay(s, q, key, shared)
      ensures r == StillWaiting ==>
                blocking && s.procs[p].held == old(s).procs[p].held &&
                exists q :: 0 <= q < |s.procs| && Waits(s, p, q)
      ensures r == StillWaiting ==> Patient(old(others), others, patience + 1)
    {
      Call(p, Request(key, shared, blocking));
      r := WaitForGuard(p, patience);
      if r != Held {
        if r == Busy {
          ghost var q :| 0 <= q < |s.procs| && q != p && GuardExclusive(s.procs[q]);
          assert InTheWay(s, q, key, shared);
        }
        return;
      }
      Open(p);
      r := WaitForTarget(p, patience);
      if r != Held {
        return;
      }
      LetGuardGo(p);
    }

    method Open(p: nat)
      requires Inv(s) && p < |s.procs| && s.procs[p].phase.Guarded?
      modifies this
      ensures Inv(s) && |s.procs| == |old(s).procs| && s.procs[p].held == old(s).procs[p].held
      ensures var want := old(s).procs[p].phase;
              want.key in s.dir &&
              s.procs[p].phase == Opened(want.key, want.shared, want.blocking, s.dir[want.key])
      ensures |others| <= |old(others)|
    {
      Interfere(p);
      Call(p, OpenTarget);
    }

    method LetGuardGo(p: nat)
      requires Inv(s) && p < |s.procs| && s.procs[p].phase.Locked?
      modifies this
      ensures Inv(s) && |s.procs| == |old(s).procs|
      ensures var got := old(s).procs[p].phase;
              && got.key in s.dir
              && s.procs[p] == Proc(old(s).procs[p].held[got.key := Hold(s.dir[got.key], got.shared)], Running)
              && (!got.shared ==> forall q :: 0 <= q < |s.procs| && q != p ==> got.key !in s.procs[q].held)
    {
      Interfere(p);
      assert Sound(s.dir, s.procs[p]);
      Call(p, DropGuard);
      InvImpliesPromise(s);
    }

    method WaitForGuard(p: nat, patience: nat) returns (r: LockOutcome)
      requires Inv(s) && p < |s.procs| && s.procs[p].phase.WantGuard?
      modifies this
      ensures Inv(s) && |s.procs| == |old(s).procs| && s.procs[p].held == old(s).procs[p].held
      ensures var want := old(s).procs[p].phase;
              && (r == Held ==> s.procs[p].phase == Guarded(want.key, want.shared, want.blocking))
              && (r == Busy ==> !want.blocking && s.procs[p].phase == Running)
              && (r == StillWaiting ==> want.blocking && s.procs[p].phase == want)
      ensures r == StillWaiting ==> exists q :: 0 <= q < |s.procs| && Waits(s, p, q)
      ensures |others| <= |old(others)| && (r == StillWaiting ==> Patient(old(others), others, patience + 1))
      ensures r == Busy ==> exists q :: 0 <= q < |s.procs| && q != p && GuardExclusive(s.procs[q])
    {
      var left := patience;
      Interfere(p);
      while !GuardGrantable(s, p, false) && s.procs[p].phase.blocking && left > 0
        invariant Inv(s) && |s.procs| == |old(s).procs| && s.procs[p] == old(s).procs[p]
        invariant |others| <= |old(others)| && Patient(old(others), others, patience - left + 1)
      {
        Interfere(p);
        left := left - 1;
      }
      if GuardGrantable(s, p, false) {
        Call(p, TakeGuard);
        r := Held;
      } else if !s.procs[p].phase.blocking {
        ghost var q :| 0 <= q < |s.procs| && q != p && GuardExclusive(s.procs[q]);
        Call(p, GuardBusy);
        assert GuardExclusive(s.procs[q]);
        r := Busy;
      } else {
        ghost var q :| 0 <= q < |s.procs| && q != p && GuardExclusive(s.procs[q]);
        assert Waits(s, p, q);
        r := StillWaiting;
      }
    }

    method WaitForTarget(p: nat, patience: nat) returns (r: LockOutcome)
      requires Inv(s) && p < |s.procs| && s.procs[p].phase.Opened?
      modifies this
      ensures Inv(s) && |s.procs| == |old(s).procs| && s.procs[p].held == old(s).procs[p].held
      ensures var want := old(s).procs[p].phase;
              && (r == Held ==> s.procs[p].phase == Locked(want.key, want.shared, want.inode))
              && (r == Busy ==> !want.blocking && s.procs[p].phase == Running)
              && (r == StillWaiting ==> want.blocking && s.procs[p].phase == want)
      ensures r == StillWaiting ==> exists q :: 0 <= q < |s.procs| && Waits(s, p, q)
      ensures |others| <= |old(others)| && (r == StillWaiting ==> Patient(old(others), others, patience + 1))
      ensures r == Busy ==>
                var want := old(s).procs[p].phase;
                exists q :: 0 <= q < |s.procs| && q != p && InTheWay(s, q, want.key, want.shared)
    {
      var left := patience;
      Interfere(p);
      while !Grantable(s, s.procs[p].phase.inode, s.procs[p].phase.shared) &&
            s.procs[p].phase.blocking && left > 0
        invariant Inv(s) && |s.procs| == |old(s).procs| && s.procs[p] == old(s).procs[p]
        invariant |others| <= |old(others)| && Patient(old(others), others, patience - left + 1)
      {
        Interfere(p);
        left := left - 1;
      }
      if Grantable(s, s.procs[p].phase.inode, s.procs[p].phase.shared) {
        Call(p, TakeTarget);
        r := Held;
      } else if !s.procs[p].phase.blocking {
        ghost var q := Obstructor(s, p);
        Call(p, TargetBusy);
        assert InTheWay(s, q, old(s).procs[p].phase.key, old(s).procs[p].phase.shared);
        r := Busy;
      } else {
        ghost var q, mode :| 0 <= q < |s.procs| && Flocks(s.procs[q], s.procs[p].phase.inode, mode) &&
                             !(s.procs[p].phase.shared && mode);
        assert Waits(s, p, q);
        r := StillWaiting;
      }
    }

    /** Leaving `job_lock`: unlock and close, then the fast-path cleanup, which never waits. It
        answers None if somebody else has the guard; otherwise the file is gone when it returns,
        or some process holds the key again. */
    method Unlock(p: nat, key: Resource) returns (cleaned: Option<SweepOutcome>)
      requires Inv(s) && Can(s, p, Release(key)) && !key.IsRow()
      modifies this
      ensures Inv(s) && |s.procs| == |old(s).procs|
      ensures s.procs[p] == Proc(old(s).procs[p].held - {key}, Running)
      ensures cleaned.Some? ==> cleaned.value != Unsafe && (cleaned.value == InUse <==> key in s.dir)
      ensures cleaned.Some? ==> (key in s.dir <==> IsHeld(s, key))
      ensures cleaned.None? ==>
                exists q :: 0 <= q < |s.procs| && q != p && (GuardExclusive(s.procs[q]) || GuardShared(s.procs[q]))
      // With nobody else acting the file goes exactly if the guard is free and no other holds the key.
      ensures old(others) == [] ==>
                && (cleaned.Some? <==> GuardGrantable(old(s), p, true))
                && s.dir == if cleaned.Some? && !HeldByOthers(old(s), p, key) then old(s).dir - {key} else old(s).dir
    {
      Interfere(p);
      ReleaseLeavesOthers(s, p, key);
      Call(p, Release(key));
      Interfere(p);
      cleaned := FastCleanup(p);
    }

    /** The cleanup of the released key, under the guard if that is free. */
    method FastCleanup(p: nat) returns (cleaned: Option<SweepOutcome>)
      requires Inv(s) && p < |s.procs| && s.procs[p].phase.Released? && s.procs[p].phase.key !in s.procs[p].held
      requires !s.procs[p].phase.key.IsRow()
      modifies this
      ensures Inv(s) && |s.procs| == |old(s).procs| && s.procs[p] == Proc(old(s).procs[p].held, Running)
      ensures var key := old(s).procs[p].phase.key;
              && (cleaned.Some? ==> cleaned.value != Unsafe && (cleaned.value == InUse <==> key in s.dir))
              && (cleaned.Some? ==> (key in s.dir <==> IsHeld(s, key)))
              && (cleaned.None? ==> exists q :: 0 <= q < |s.procs| && q != p &&
                                               (GuardExclusive(s.procs[q]) || GuardShared(s.procs[q])))
              && (old(others) == [] ==>
                    && (cleaned.Some? <==> GuardGrantable(old(s), p, true))
                    && s.dir == if cleaned.Some? && !HeldByOthers(old(s), p, key) then old(s).dir - {key} else old(s).dir)
    {
      cleaned := None;
      if !GuardGrantable(s, p, true) {
        ghost var q :| 0 <= q < |s.procs| && q != p && (GuardExclusive(s.procs[q]) || GuardShared(s.procs[q]));
        Call(p, TryClean);
        assert s.procs[q] == old(s).procs[q];
        return;
      }
      ghost var key := s.procs[p].phase.key;
      Call(p, TryClean);
      assert SameHolds(old(s), s) && (HeldByOthers(old(s), p, key) <==> IsHeld(s, key));
      var outcome := CleanUnderGuard(p, key);
      cleaned := Some(outcome);
    }

    method CleanUnderGuard(p: nat, ghost key: Resource) returns (outcome: SweepOutcome)
      requires Inv(s) && p < |s.procs| && s.procs[p].phase == Sweeping([key]) && !key.IsRow()
      modifies this
      ensures Inv(s) && |s.procs| == |old(s).procs| && s.procs[p] == Proc(old(s).procs[p].held, Running)
      ensures outcome != Unsafe && (outcome == InUse <==> key in s.dir) && (key in s.dir <==> IsHeld(s, key))
      ensures old(others) == [] ==> s.dir == if IsHeld(old(s), key) then old(s).dir else old(s).dir - {key}
    {
      outcome := RemoveIdleLockFile(p);
      ghost var before := s;
      assert SameHolds(old(s), before) ==> (IsHeld(old(s), key) <==> IsHeld(before, key));
      Call(p, EndSweep);
      assert SameHolds(before, s) && (IsHeld(before, key) <==> IsHeld(s, key));
      InvImpliesPromise(s);
    }

    /** `_remove_idle_lock_file_under_guard` on the first path to do. A removed or absent path
        stays unlinked, and an unlinked path has no holder, until the guard is let go. */
    method RemoveIdleLockFile(p: nat) returns (r: SweepOutcome)
      requires Inv(s) && p < |s.procs| && s.procs[p].phase.Sweeping? && s.procs[p].phase.todo != []
      modifies this
      ensures old(others) == [] ==> others == [] && SameHolds(old(s), s)
      ensures Inv(s) && |s.procs| == |old(s).procs| && s.procs[p].held == old(s).procs[p].held
      ensures s.procs[p].phase == Sweeping(old(s).procs[p].phase.todo[1..])
      ensures var key := old(s).procs[p].phase.todo[0];
              && r != Unsafe
              && (r == Absent <==> key !in old(s).dir)
              && s.dir == (if r == Removed then old(s).dir - {key} else old(s).dir)
              && (r == Removed ==> forall q :: 0 <= q < |s.procs| ==> key !in s.procs[q].held)
              && (r == InUse ==> exists q :: 0 <= q < |s.procs| && key in s.procs[q].held)
    {
      Lstat(p);
      if s.procs[p].phase.Sweeping? {
        return Absent;
      }
      OpenExisting(p);
      TryLockExclusive(p);
      if s.procs[p].phase.Sweeping? {
        return InUse;
      }
      CompareAndClose(p);
      if s.procs[p].phase.Sweeping? {
        return Unsafe;
      }
      UnlinkPath(p);
      r := Removed;
    }

    method Lstat(p: nat)
      requires Inv(s) && p < |s.procs| && s.procs[p].phase.Sweeping? && s.procs[p].phase.todo != []
      modifies this
      ensures old(others) == [] ==> others == [] && SameHolds(old(s), s)
      ensures Inv(s) && |s.procs| == |old(s).procs| && s.procs[p].held == old(s).procs[p].held
      ensures s.dir == old(s).dir
      ensures var todo := old(s).procs[p].phase.todo;
              s.procs[p].phase ==
                if todo[0] in s.dir then Probing(todo[0], s.dir[todo[0]], todo[1..]) else Sweeping(todo[1..])
    {
      Interfere(p);
      Call(p, Stat);
    }

    method OpenExisting(p: nat)
      requires Inv(s) && p < |s.procs| && s.procs[p].phase.Probing?
      modifies this
      ensures old(others) == [] ==> others == [] && SameHolds(old(s), s)
      ensures Inv(s) && |s.procs| == |old(s).procs| && s.procs[p].held == old(s).procs[p].held
      ensures s.dir == old(s).dir
      ensures var was := old(s).procs[p].phase;
              s.procs[p].phase == ProbeOpened(was.key, was.statted, was.statted, was.todo)
    {
      Interfere(p);
      assert Sound(s.dir, s.procs[p]);
      Call(p, ProbeOpen);
    }

    method TryLockExclusive(p: nat)
      requires Inv(s) && p < |s.procs| && s.procs[p].phase.ProbeOpened?
      modifies this
      ensures old(others) == [] ==> others == [] && SameHolds(old(s), s)
      ensures Inv(s) && |s.procs| == |old(s).procs| && s.procs[p].held == old(s).procs[p].held
      ensures s.dir == old(s).dir
      ensures var was := old(s).procs[p].phase;
              s.procs[p].phase ==
                if exists q :: 0 <= q < |s.procs| && was.key in s.procs[q].held then Sweeping(was.todo)
                else ProbeLocked(was.key, was.statted, was.inode, was.todo)
    {
      Interfere(p);
      RefusedMeansHeld(s, p);
      label Before:
      Call(p, ProbeLock);
      assert forall q :: 0 <= q < |s.procs| ==> s.procs[q].held == old@Before(s).procs[q].held;
    }

    method CompareAndClose(p: nat)
      requires Inv(s) && p < |s.procs| && s.procs[p].phase.ProbeLocked?
      modifies this
      ensures old(others) == [] ==> others == [] && SameHolds(old(s), s)
      ensures Inv(s) && |s.procs| == |old(s).procs| && s.procs[p].held == old(s).procs[p].held
      ensures s.dir == old(s).dir
      ensures s.procs[p].phase == Unlinking(old(s).procs[p].phase.key, old(s).procs[p].phase.todo)
    {
      Interfere(p);
      ProbeSeesOneInode(s, p);
      Call(p, ProbeClose);
    }

    method UnlinkPath(p: nat)
      requires Inv(s) && p < |s.procs| && s.procs[p].phase.Unlinking?
      modifies this
      ensures old(others) == [] ==> others == [] && SameHolds(old(s), s)
      ensures Inv(s) && |s.procs| == |old(s).procs| && s.procs[p].held == old(s).procs[p].held
      ensures var was := old(s).procs[p].phase;
              && s.procs[p].phase == Sweeping(was.todo)
              && s.dir == old(s).dir - {was.key}
              && forall q :: 0 <= q < |s.procs| ==> was.key !in s.procs[q].held
    {
      Interfere(p);
      ghost var key := s.procs[p].phase.key;
      assert !key.IsRow() by {
        assert Sound(s.dir, s.procs[p]);
      }
      Call(p, Unlink);
      InvImpliesPromise(s);
    }

    /** `reap_idle_job_locks`: at most `limit` of the listed paths, none of them waited for. Exactly
        the paths in `gone` go from the directory `found` under the guard, each of them listed; and
        with nobody else acting these are the listed ones that no process holds. */
    method Reap(p: nat, listing: seq<Resource>, limit: int)
      returns (summary: Summary, ghost found: map<Resource, nat>, ghost gone: set<Resource>)
      requires Inv(s) && p < |s.procs| && s.procs[p].phase.Running?
      modifies this
      ensures Inv(s) && |s.procs| == |old(s).procs| && s.procs[p] == old(s).procs[p]
      ensures s.dir == found - gone && gone <= found.Keys && |gone| == summary.removed
      ensures forall k :: k in gone ==> k in Chosen(listing, limit)
      ensures summary.unsafe == 0 && 0 <= summary.busy && summary.removed + summary.busy <= summary.scanned
      ensures summary.scanned == if summary.namespaceBusy then 0 else |Chosen(listing, limit)|
      ensures summary.namespaceBusy ==> gone == {}
      ensures old(others) == [] ==>
                && found == old(s).dir
                && (summary.namespaceBusy <==> limit > 0 && !GuardGrantable(old(s), p, true))
                && (!summary.namespaceBusy ==>
                      && summary.busy == BusyOf(old(s), Chosen(listing, limit))
                      && forall k :: k in gone <==> k in Chosen(listing, limit) && k in found && !IsHeld(old(s), k))
    {
      summary, found, gone := Summary(0, 0, 0, 0, false), s.dir, {};
      assert s.dir == found - gone;
      if limit <= 0 {
        return;
      }
      Interfere(p);
      found := s.dir;
      assert s.dir == found - gone;
      if !GuardGrantable(s, p, true) {
        summary := summary.(namespaceBusy := true);
        return;
      }
      summary, gone := SweepOver(p, Chosen(listing, limit));
    }

    method SweepOver(p: nat, todo: seq<Resource>) returns (summary: Summary, ghost gone: set<Resource>)
      requires Inv(s) && p < |s.procs| && s.procs[p].phase.Running? && GuardGrantable(s, p, true)
      modifies this
      ensures Inv(s) && |s.procs| == |old(s).procs| && s.procs[p] == old(s).procs[p]
      ensures s.dir == old(s).dir - gone && gone <= old(s).dir.Keys && |gone| == summary.removed
      ensures forall k :: k in gone ==> k in todo
      ensures summary.unsafe == 0 && !summary.namespaceBusy && summary.scanned == |todo|
      ensures 0 <= summary.busy && summary.removed + summary.busy <= |todo|
      ensures old(others) == [] ==>
                forall k :: k in gone <==> k in todo && k in old(s).dir && !IsHeld(old(s), k)
      ensures old(others) == [] ==> summary.busy == BusyOf(old(s), todo)
    {
      Call(p, StartReap(todo));
      assert SameHolds(old(s), s);
      assert forall k :: IsHeld(s, k) <==> IsHeld(old(s), k);
      SameBusy(old(s), s, todo);
      summary, gone := Visit(p, todo);
      Call(p, EndSweep);
    }

    /** The loop of the reaper, under the guard. */
    method Visit(p: nat, todo: seq<Resource>) returns (summary: Summary, ghost gone: set<Resource>)
      requires Inv(s) && p < |s.procs| && s.procs[p].phase == Sweeping(todo)
      modifies this
      ensures Inv(s) && |s.procs| == |old(s).procs| && s.procs[p] == Proc(old(s).procs[p].held, Sweeping([]))
      ensures s.dir == old(s).dir - gone && gone <= old(s).dir.Keys && |gone| == summary.removed
      ensures forall k :: k in gone ==> k in todo
      ensures summary.unsafe == 0 && !summary.namespaceBusy && summary.scanned == |todo|
      ensures 0 <= summary.busy && summary.removed + summary.busy <= |todo|
      ensures old(others) == [] ==>
                forall k :: k in gone <==> k in todo && k in old(s).dir && !IsHeld(old(s), k)
      ensures old(others) == [] ==> summary.busy == BusyOf(old(s), todo)
    {
      summary, gone := Summary(0, 0, 0, 0, false), {};
      assert s.dir == s.dir - gone;
      for i := 0 to |todo|
        invariant Inv(s) && |s.procs| == |old(s).procs|
        invariant s.procs[p] == Proc(old(s).procs[p].held, Sweeping(todo[i..]))
        invariant Counts(summary, i, gone)
        invariant GoneFrom(old(s).dir, gone, todo[..i], s.dir)
        invariant old(others) == [] ==> others == [] && SoFar(old(s), s, gone, todo[..i], summary.busy)
      {
        assert todo[..i + 1] == todo[..i] + [todo[i]];
        assert todo[i..][0] == todo[i] && todo[i..][1..] == todo[i + 1..];
        summary, gone := VisitNext(p, old(s), todo[..i], summary, gone);
      }
      assert todo[..|todo|] == todo;
    }

    /** One turn of it. */
    method VisitNext(p: nat, ghost start: State, ghost seen: seq<Resource>, summary: Summary, ghost gone: set<Resource>)
      returns (after: Summary, ghost more: set<Resource>)
      requires Inv(s) && p < |s.procs| && s.procs[p].phase.Sweeping? && s.procs[p].phase.todo != []
      requires Counts(summary, |seen|, gone) && GoneFrom(start.dir, gone, seen, s.dir)
      modifies this
      ensures Inv(s) && |s.procs| == |old(s).procs|
      ensures s.procs[p] == Proc(old(s).procs[p].held, Sweeping(old(s).procs[p].phase.todo[1..]))
      ensures Counts(after, |seen| + 1, more)
      ensures GoneFrom(start.dir, more, seen + [old(s).procs[p].phase.todo[0]], s.dir)
      ensures old(others) == [] && SoFar(start, old(s), gone, seen, summary.busy) ==>
                others == [] && SoFar(start, s, more, seen + [old(s).procs[p].phase.todo[0]], after.busy)
    {
      ghost var key, before := s.procs[p].phase.todo[0], s;
      var outcome := RemoveIdleLockFile(p);
      if old(others) == [] && SoFar(start, before, gone, seen, summary.busy) {
        OneMoreCounted(start, before, s, gone, seen, key, summary.busy, outcome);
      }
      more := OneMoreVisited(start, gone, seen, key, before.dir, outcome);
      after := Including(summary, outcome);
    }
  }

  /** What one more path adds to the summary. */
  function Including(summary: Summary, outcome: SweepOutcome): Summary {
    var more := summary.(scanned := summary.scanned + 1);
    match outcome
    case Removed => more.(removed := more.removed + 1)
    case Absent => more
    case InUse => more.(busy := more.busy + 1)
    case Unsafe => more.(unsafe := more.unsafe + 1)
  }

  predicate Counts(summary: Summary, visited: nat, gone: set<Resource>) {
    && summary.unsafe == 0 && !summary.namespaceBusy && summary.scanned == visited
    && 0 <= summary.busy && summary.removed + summary.busy <= visited && |gone| == summary.removed
  }

  /** What has gone of the directory, and that it was on the list. */
  predicate GoneFrom(found: map<Resource, nat>, gone: set<Resource>, seen: seq<Resource>, dir: map<Resource, nat>) {
    dir == found - gone && gone <= found.Keys && forall k :: k in gone ==> k in seen
  }

  ghost predicate AllIdleGone(s: State, gone: set<Resource>, seen: seq<Resource>) {
    forall k :: k in gone <==> k in seen && k in s.dir && !IsHeld(s, k)
  }

  /** How many of the listed paths there are with a holder. */
  ghost function BusyOf(s: State, listed: seq<Resource>): nat {
    if listed == [] then 0
    else
      var last := listed[|listed| - 1];
      BusyOf(s, listed[..|listed| - 1]) + if last in s.dir && IsHeld(s, last) then 1 else 0
  }

  lemma {:induction false} SameBusy(a: State, b: State, listed: seq<Resource>)
    requires SameHolds(a, b) && a.dir == b.dir
    ensures BusyOf(a, listed) == BusyOf(b, listed)
    decreases |listed|
  {
    if listed != [] {
      SameBusy(a, b, listed[..|listed| - 1]);
      SameHeld(a, b, listed[|listed| - 1]);
    }
  }

  lemma SameHeld(a: State, b: State, key: Resource)
    requires SameHolds(a, b)
    ensures IsHeld(a, key) <==> IsHeld(b, key)
  {
  }

  lemma OneMoreVisited(
    s: State, gone: set<Resource>, seen: seq<Resource>, key: Resource, dir: map<Resource, nat>, outcome: SweepOutcome)
    returns (more: set<Resource>)
    requires GoneFrom(s.dir, gone, seen, dir) && (outcome == Removed ==> key in dir)
    ensures more == gone + (if outcome == Removed then {key} else {})
    ensures |more| == |gone| + if outcome == Removed then 1 else 0
    ensures GoneFrom(s.dir, more, seen + [key], if outcome == Removed then dir - {key} else dir)
  {
    more := gone + if outcome == Removed then {key} else {};
    assert outcome == Removed ==> s.dir - more == dir - {key};
  }

  /** With nobody else acting, what the loop has found out. */
  ghost predicate SoFar(start: State, now: State, gone: set<Resource>, seen: seq<Resource>, busy: int) {
    SameHolds(start, now) && AllIdleGone(start, gone, seen) && busy == BusyOf(start, seen)
  }

  lemma OneMoreCounted(
    start: State, before: State, now: State, gone: set<Resource>, seen: seq<Resource>, key: Resource, busy: int,
    outcome: SweepOutcome)
    requires GoneFrom(start.dir, gone, seen, before.dir) && SoFar(start, before, gone, seen, busy)
    requires SameHolds(before, now) && outcome != Unsafe && (outcome == Absent <==> key !in before.dir)
    requires (outcome == Removed ==> !IsHeld(before, key)) && (outcome == InUse ==> IsHeld(before, key))
    ensures SoFar(start, now, gone + (if outcome == Removed then {key} else {}), seen + [key],
                  busy + if outcome == InUse then 1 else 0)
  {
    SameHeld(start, before, key);
    assert (seen + [key])[..|seen|] == seen;
  }

  function AtLeastZero(n: int): nat {
    if n < 0 then 0 else n
  }

  /** The first `limit` of the listed paths. */
  function Chosen(listing: seq<Resource>, limit: int): (chosen: seq<Resource>)
    ensures chosen <= listing && |chosen| <= AtLeastZero(limit)
    ensures |chosen| == AtLeastZero(limit) || chosen == listing
  {
    if limit <= 0 then [] else if limit < |listing| then listing[..limit] else listing
  }
}
