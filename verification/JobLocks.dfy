/** The filesystem lock protocol of the shared work volume, on POSIX `flock` semantics.

    A lock key is a path. A process locks a key by opening its file and taking `flock` on
    the inode it got, and idle lock files are unlinked again. What keeps two processes from
    locking two different inodes of one path is the namespace guard: an opener holds it
    shared from before its open until the target lock is taken, a sweeper takes it
    exclusively and without waiting. Every system call is one step of the machine. */
module JobLocks {
  import opened LockOrder

  /** A taken lock: the inode behind the descriptor, and the `flock` mode. */
  datatype Hold = Hold(inode: nat, shared: bool)

  datatype Phase =
    // Runs its own code, holding whatever is in `held`.
    | Running
    // job_lock: waits for the shared guard, has it, has opened the target, has locked it.
    | WantGuard(key: Resource, shared: bool, blocking: bool)
    | Guarded(key: Resource, shared: bool, blocking: bool)
    | Opened(key: Resource, shared: bool, blocking: bool, inode: nat)
    | Locked(key: Resource, shared: bool, inode: nat)
    // SELECT ... FOR UPDATE on a video row: no guard, no file.
    | WantRow(key: Resource)
    // Target unlocked and closed; the fast-path cleanup has not run yet.
    | Released(key: Resource)
    // Exclusive guard held, `todo` still to visit.
    | Sweeping(todo: seq<Resource>)
    | Probing(key: Resource, statted: nat, todo: seq<Resource>)
    | ProbeOpened(key: Resource, statted: nat, inode: nat, todo: seq<Resource>)
    | ProbeLocked(key: Resource, statted: nat, inode: nat, todo: seq<Resource>)
    | Unlinking(key: Resource, todo: seq<Resource>)
    | Dead

  datatype Proc = Proc(held: map<Resource, Hold>, phase: Phase)

  /** `dir` maps each linked lock path to its inode; inodes below `nextInode` have been used. */
  datatype State = State(dir: map<Resource, nat>, nextInode: nat, procs: seq<Proc>)

  predicate GuardShared(pr: Proc) {
    pr.phase.Guarded? || pr.phase.Opened? || pr.phase.Locked?
  }

  predicate GuardExclusive(pr: Proc) {
    pr.phase.Sweeping? || pr.phase.Probing? || pr.phase.ProbeOpened? ||
    pr.phase.ProbeLocked? || pr.phase.Unlinking?
  }

  /** The process has an `flock` on this inode in this mode. */
  predicate Flocks(pr: Proc, inode: nat, shared: bool) {
    || (exists k :: k in pr.held && !k.IsRow() && pr.held[k] == Hold(inode, shared))
    || (pr.phase.Locked? && pr.phase.inode == inode && pr.phase.shared == shared)
    || (pr.phase.ProbeLocked? && pr.phase.inode == inode && !shared)
  }

  /** What `flock` grants at once: no descriptor anywhere, this process included, holds a
      conflicting lock on the inode. */
  predicate Grantable(s: State, inode: nat, shared: bool) {
    forall q, mode :: 0 <= q < |s.procs| && Flocks(s.procs[q], inode, mode) ==> shared && mode
  }

  predicate GuardGrantable(s: State, p: nat, exclusive: bool) {
    forall q :: 0 <= q < |s.procs| && q != p ==>
      !GuardExclusive(s.procs[q]) && (exclusive ==> !GuardShared(s.procs[q]))
  }

  predicate RowFree(s: State, row: Resource) {
    forall q :: 0 <= q < |s.procs| ==> row !in s.procs[q].held
  }

  datatype Action =
    | Request(key: Resource, shared: bool, blocking: bool)
    | TakeGuard
    | GuardBusy
    | OpenTarget
    | TakeTarget
    | TargetBusy
    | DropGuard
    | TakeRow
    | Release(key: Resource)
    | TryClean
    | StartReap(todo: seq<Resource>)
    | Stat
    | ProbeOpen
    | ProbeLock
    | ProbeClose
    | Unlink
    | EndSweep
    | Crash
    | Restart

  /** When process `p` can take a step. No process asks again for what it holds. */
  predicate Can(s: State, p: nat, a: Action) {
    p < |s.procs| &&
    var pr := s.procs[p];
    match a
    case Request(key, _, _) => pr.phase.Running? && key !in pr.held
    case TakeGuard => pr.phase.WantGuard? && GuardGrantable(s, p, false)
    case GuardBusy => pr.phase.WantGuard? && !pr.phase.blocking && !GuardGrantable(s, p, false)
    case OpenTarget => pr.phase.Guarded?
    case TakeTarget => pr.phase.Opened? && Grantable(s, pr.phase.inode, pr.phase.shared)
    case TargetBusy =>
      pr.phase.Opened? && !pr.phase.blocking && !Grantable(s, pr.phase.inode, pr.phase.shared)
    case DropGuard => pr.phase.Locked?
    case TakeRow => pr.phase.WantRow? && RowFree(s, pr.phase.key)
    case Release(key) => pr.phase.Running? && key in pr.held
    case TryClean => pr.phase.Released?
    case StartReap(_) => pr.phase.Running? && GuardGrantable(s, p, true)
    case Stat => pr.phase.Sweeping? && pr.phase.todo != []
    case ProbeOpen => pr.phase.Probing?
    case ProbeLock => pr.phase.ProbeOpened?
    case ProbeClose => pr.phase.ProbeLocked?
    case Unlink => pr.phase.Unlinking?
    case EndSweep => pr.phase.Sweeping?
    case Crash => true
    case Restart => pr.phase.Dead?
  }

  function To(s: State, p: nat, phase: Phase): State
    requires p < |s.procs|
  {
    s.(procs := s.procs[p := s.procs[p].(phase := phase)])
  }

  function Put(s: State, p: nat, pr: Proc): State
    requires p < |s.procs|
  {
    s.(procs := s.procs[p := pr])
  }

  /** The state after the step. */
  function Do(s: State, p: nat, a: Action): State
    requires Can(s, p, a)
  {
    var pr := s.procs[p];
    match a
    case Request(key, shared, blocking) =>
      To(s, p, if key.IsRow() then WantRow(key) else WantGuard(key, shared, blocking))
    case TakeGuard => To(s, p, Guarded(pr.phase.key, pr.phase.shared, pr.phase.blocking))
    case GuardBusy => To(s, p, Running)
    case OpenTarget =>
      // open(path, "a+b"): the linked inode, or a new file.
      var key := pr.phase.key;
      if key in s.dir then To(s, p, Opened(key, pr.phase.shared, pr.phase.blocking, s.dir[key]))
      else
        To(s, p, Opened(key, pr.phase.shared, pr.phase.blocking, s.nextInode))
          .(dir := s.dir[key := s.nextInode], nextInode := s.nextInode + 1)
    case TakeTarget => To(s, p, Locked(pr.phase.key, pr.phase.shared, pr.phase.inode))
    case TargetBusy => To(s, p, Running)
    case DropGuard =>
      Put(s, p, Proc(pr.held[pr.phase.key := Hold(pr.phase.inode, pr.phase.shared)], Running))
    case TakeRow => Put(s, p, Proc(pr.held[pr.phase.key := Hold(0, false)], Running))
    case Release(key) => Put(s, p, Proc(pr.held - {key}, if key.IsRow() then Running else Released(key)))
    case TryClean =>
      To(s, p, if GuardGrantable(s, p, true) then Sweeping([pr.phase.key]) else Running)
    case StartReap(todo) => To(s, p, Sweeping(todo))
    case Stat =>
      var key, rest := pr.phase.todo[0], pr.phase.todo[1..];
      To(s, p, if key in s.dir then Probing(key, s.dir[key], rest) else Sweeping(rest))
    case ProbeOpen =>
      // open(path, "r+b") does not create.
      var key, rest := pr.phase.key, pr.phase.todo;
      To(s, p, if key in s.dir then ProbeOpened(key, pr.phase.statted, s.dir[key], rest) else Sweeping(rest))
    case ProbeLock =>
      var key, rest := pr.phase.key, pr.phase.todo;
      To(s, p, if Grantable(s, pr.phase.inode, false)
               then ProbeLocked(key, pr.phase.statted, pr.phase.inode, rest) else Sweeping(rest))
    case ProbeClose =>
      // Compare fstat with lstat, then unlock and close before unlinking.
      var key, rest := pr.phase.key, pr.phase.todo;
      To(s, p, if pr.phase.inode == pr.phase.statted then Unlinking(key, rest) else Sweeping(rest))
    case Unlink => To(s, p, Sweeping(pr.phase.todo)).(dir := s.dir - {pr.phase.key})
    case EndSweep => To(s, p, Running)
    case Crash => Put(s, p, Proc(map[], Dead))
    case Restart => To(s, p, Running)
  }

  // ---- Runs -------------------------------------------------------------------------

  datatype Move = Move(p: nat, action: Action)

  function Initial(n: nat): State {
    State(map[], 0, seq(n, _ => Proc(map[], Running)))
  }

  predicate Legal(s: State, run: seq<Move>)
    decreases |run|
  {
    run == [] || (Can(s, run[0].p, run[0].action) && Legal(Do(s, run[0].p, run[0].action), run[1..]))
  }

  function After(s: State, run: seq<Move>): State
    requires Legal(s, run)
    decreases |run|
  {
    if run == [] then s else After(Do(s, run[0].p, run[0].action), run[1..])
  }

  // ---- The promise ------------------------------------------------------------------

  /** Every held key is locked on the inode that is linked at its path. */
  predicate HoldsLinked(s: State) {
    forall p, k :: 0 <= p < |s.procs| && k in s.procs[p].held && !k.IsRow() ==>
      k in s.dir && s.dir[k] == s.procs[p].held[k].inode
  }

  /** Two holders of one key are both shared holders of one file. */
  predicate Excludes(s: State) {
    forall p, q, k ::
      (0 <= p < |s.procs| && 0 <= q < |s.procs| && p != q && k in s.procs[p].held && k in s.procs[q].held) ==>
      !k.IsRow() && s.procs[p].held[k] == s.procs[q].held[k] && s.procs[p].held[k].shared
  }

  // ---- The invariant ----------------------------------------------------------------

  /** The process owns key `k` in this mode, or is about to unlink the idle file of `k`. */
  predicate Claims(pr: Proc, k: Resource, shared: bool) {
    || (k in pr.held && pr.held[k].shared == shared)
    || (pr.phase.Locked? && pr.phase.key == k && pr.phase.shared == shared)
    || ((pr.phase.ProbeLocked? || pr.phase.Unlinking?) && pr.phase.key == k && !shared)
  }

  predicate Sound(dir: map<Resource, nat>, pr: Proc) {
    && (forall k :: k in pr.held && !k.IsRow() ==> k in dir && dir[k] == pr.held[k].inode)
    && (forall k :: k in pr.held && k.IsRow() ==> !pr.held[k].shared)
    && match pr.phase
       case WantGuard(key, _, _) => !key.IsRow() && key !in pr.held
       case Guarded(key, _, _) => !key.IsRow() && key !in pr.held
       case Opened(key, _, _, inode) => !key.IsRow() && key in dir && dir[key] == inode && key !in pr.held
       case Locked(key, _, inode) => !key.IsRow() && key in dir && dir[key] == inode && key !in pr.held
       case WantRow(key) => key.IsRow() && key !in pr.held
       case Probing(key, statted, _) => key in dir && dir[key] == statted
       case ProbeOpened(key, statted, inode, _) => key in dir && dir[key] == inode == statted
       case ProbeLocked(key, statted, inode, _) =>
         key in dir && dir[key] == inode == statted && key !in pr.held
       case Unlinking(key, _) => key in dir && key !in pr.held
       case _ => true
  }

  ghost predicate Apart(a: Proc, b: Proc) {
    && !(GuardExclusive(a) && (GuardExclusive(b) || GuardShared(b)))
    && !(GuardShared(a) && GuardExclusive(b))
    && (forall k, m, n :: Claims(a, k, m) && Claims(b, k, n) ==> m && n)
  }

  ghost predicate Inv(s: State) {
    && (forall k :: k in s.dir ==> !k.IsRow() && s.dir[k] < s.nextInode)
    && (forall j, k :: j in s.dir && k in s.dir && s.dir[j] == s.dir[k] ==> j == k)
    && (forall p :: 0 <= p < |s.procs| ==> Sound(s.dir, s.procs[p]))
    && (forall p, q :: 0 <= p < |s.procs| && 0 <= q < |s.procs| && p != q ==> Apart(s.procs[p], s.procs[q]))
  }

  lemma InvImpliesPromise(s: State)
    requires Inv(s)
    ensures HoldsLinked(s) && Excludes(s)
  {
    forall p, q, k | 0 <= p < |s.procs| && 0 <= q < |s.procs| && p != q &&
      k in s.procs[p].held && k in s.procs[q].held
      ensures !k.IsRow() && s.procs[p].held[k] == s.procs[q].held[k] && s.procs[p].held[k].shared
    {
      assert Apart(s.procs[p], s.procs[q]);
      assert Sound(s.dir, s.procs[p]) && Sound(s.dir, s.procs[q]);
      assert Claims(s.procs[p], k, s.procs[p].held[k].shared);
      assert Claims(s.procs[q], k, s.procs[q].held[k].shared);
    }
  }

  /** In a good state a granted `flock` means no other process claims the key. */
  lemma GrantedMeansUnclaimed(s: State, p: nat, q: nat, key: Resource, shared: bool, n: bool)
    requires Inv(s) && p < |s.procs| && q < |s.procs|
    requires key in s.dir && Grantable(s, s.dir[key], shared)
    requires GuardShared(s.procs[p]) || GuardExclusive(s.procs[p])
    requires Claims(s.procs[q], key, n)
    requires q != p || key in s.procs[q].held
    ensures shared && n
  {
    var b := s.procs[q];
    assert Sound(s.dir, b);
    assert q != p ==> Apart(s.procs[p], b);
    if key in b.held && b.held[key].shared == n {
      assert b.held[key] == Hold(s.dir[key], n);
      assert Flocks(b, s.dir[key], n);
    } else if b.phase.Locked? && b.phase.key == key && b.phase.shared == n {
      assert Flocks(b, s.dir[key], n);
    }
  }

  /** Replacing one process by another that stays sound and apart from the rest keeps the
      invariant, as long as the directory is unchanged. */
  lemma ReplaceKeepsInv(s: State, p: nat, pr: Proc)
    requires Inv(s) && p < |s.procs|
    requires Sound(s.dir, pr)
    requires forall q :: 0 <= q < |s.procs| && q != p ==> Apart(pr, s.procs[q])
    ensures Inv(Put(s, p, pr))
  {
    var t := Put(s, p, pr);
    forall i, j | 0 <= i < |t.procs| && 0 <= j < |t.procs| && i != j
      ensures Apart(t.procs[i], t.procs[j])
    {
      if i == p {
        assert Apart(pr, s.procs[j]);
      } else if j == p {
        assert Apart(pr, s.procs[i]);
      } else {
        assert Apart(s.procs[i], s.procs[j]);
      }
    }
  }

  /** A phase change that claims no more and takes no guard the others rule out. */
  lemma MoveKeepsInv(s: State, p: nat, phase: Phase)
    requires Inv(s) && p < |s.procs|
    requires var pr := s.procs[p].(phase := phase);
             && Sound(s.dir, pr)
             && (forall k, m :: Claims(pr, k, m) ==> Claims(s.procs[p], k, m))
             && (GuardExclusive(pr) ==> GuardExclusive(s.procs[p]))
             && (GuardShared(pr) ==> GuardShared(s.procs[p]))
    ensures Inv(To(s, p, phase))
  {
    var pr := s.procs[p].(phase := phase);
    forall q | 0 <= q < |s.procs| && q != p
      ensures Apart(pr, s.procs[q])
    {
      assert Apart(s.procs[p], s.procs[q]);
    }
    ReplaceKeepsInv(s, p, pr);
  }

  lemma TakeGuardKeepsInv(s: State, p: nat)
    requires Inv(s) && Can(s, p, TakeGuard)
    ensures Inv(Do(s, p, TakeGuard))
  {
    var pr := Do(s, p, TakeGuard).procs[p];
    forall q | 0 <= q < |s.procs| && q != p
      ensures Apart(pr, s.procs[q])
    {
      assert Apart(s.procs[p], s.procs[q]);
      assert forall k, m :: Claims(pr, k, m) ==> Claims(s.procs[p], k, m);
    }
    ReplaceKeepsInv(s, p, pr);
  }

  lemma TakeExclusiveGuardKeepsInv(s: State, p: nat, todo: seq<Resource>)
    requires Inv(s) && p < |s.procs| && GuardGrantable(s, p, true)
    ensures Inv(To(s, p, Sweeping(todo)))
  {
    var pr := s.procs[p].(phase := Sweeping(todo));
    assert Sound(s.dir, s.procs[p]);
    forall q | 0 <= q < |s.procs| && q != p
      ensures Apart(pr, s.procs[q])
    {
      assert Apart(s.procs[p], s.procs[q]);
      assert forall k, m :: Claims(pr, k, m) ==> Claims(s.procs[p], k, m);
    }
    ReplaceKeepsInv(s, p, pr);
  }

  /** Linking a new inode at an unused path disturbs nobody. */
  lemma LinkKeepsInv(s: State, key: Resource)
    requires Inv(s) && key !in s.dir && !key.IsRow()
    ensures Inv(s.(dir := s.dir[key := s.nextInode], nextInode := s.nextInode + 1))
  {
    var t := s.(dir := s.dir[key := s.nextInode], nextInode := s.nextInode + 1);
    forall q | 0 <= q < |t.procs|
      ensures Sound(t.dir, t.procs[q])
    {
      assert Sound(s.dir, s.procs[q]);
    }
    forall i, j | 0 <= i < |t.procs| && 0 <= j < |t.procs| && i != j
      ensures Apart(t.procs[i], t.procs[j])
    {
      assert Apart(s.procs[i], s.procs[j]);
    }
  }

  lemma OpenKeepsInv(s: State, p: nat)
    requires Inv(s) && Can(s, p, OpenTarget)
    ensures Inv(Do(s, p, OpenTarget))
  {
    var was := s.procs[p].phase;
    assert Sound(s.dir, s.procs[p]);
    var s1 := s;
    if was.key !in s.dir {
      LinkKeepsInv(s, was.key);
      s1 := s.(dir := s.dir[was.key := s.nextInode], nextInode := s.nextInode + 1);
    }
    var phase := Opened(was.key, was.shared, was.blocking, s1.dir[was.key]);
    MoveKeepsInv(s1, p, phase);
    assert Do(s, p, OpenTarget) == To(s1, p, phase);
  }

  lemma TakeTargetKeepsInv(s: State, p: nat)
    requires Inv(s) && Can(s, p, TakeTarget)
    ensures Inv(Do(s, p, TakeTarget))
  {
    var was := s.procs[p];
    var pr := Do(s, p, TakeTarget).procs[p];
    assert Sound(s.dir, was);
    forall q | 0 <= q < |s.procs| && q != p
      ensures Apart(pr, s.procs[q])
    {
      assert Apart(was, s.procs[q]);
      forall k, m, n | Claims(pr, k, m) && Claims(s.procs[q], k, n)
        ensures m && n
      {
        if !Claims(was, k, m) {
          GrantedMeansUnclaimed(s, p, q, k, m, n);
        }
      }
    }
    ReplaceKeepsInv(s, p, pr);
  }

  lemma ProbeLockKeepsInv(s: State, p: nat)
    requires Inv(s) && Can(s, p, ProbeLock)
    ensures Inv(Do(s, p, ProbeLock))
  {
    var was := s.procs[p];
    var pr := Do(s, p, ProbeLock).procs[p];
    assert Sound(s.dir, was);
    if Grantable(s, was.phase.inode, false) && was.phase.key in was.held {
      GrantedMeansUnclaimed(s, p, p, was.phase.key, false, was.held[was.phase.key].shared);
    }
    forall q | 0 <= q < |s.procs| && q != p
      ensures Apart(pr, s.procs[q])
    {
      assert Apart(was, s.procs[q]);
      forall k, m, n | Claims(pr, k, m) && Claims(s.procs[q], k, n)
        ensures m && n
      {
        if !Claims(was, k, m) {
          GrantedMeansUnclaimed(s, p, q, k, m, n);
        }
      }
    }
    ReplaceKeepsInv(s, p, pr);
  }

  lemma DropGuardKeepsInv(s: State, p: nat)
    requires Inv(s) && Can(s, p, DropGuard)
    ensures Inv(Do(s, p, DropGuard))
  {
    var was := s.procs[p];
    var pr := Do(s, p, DropGuard).procs[p];
    assert Sound(s.dir, was);
    forall q | 0 <= q < |s.procs| && q != p
      ensures Apart(pr, s.procs[q])
    {
      assert Apart(was, s.procs[q]);
      assert forall k, m :: Claims(pr, k, m) ==> Claims(was, k, m);
    }
    ReplaceKeepsInv(s, p, pr);
  }

  lemma TakeRowKeepsInv(s: State, p: nat)
    requires Inv(s) && Can(s, p, TakeRow)
    ensures Inv(Do(s, p, TakeRow))
  {
    var was := s.procs[p];
    var pr := Do(s, p, TakeRow).procs[p];
    assert Sound(s.dir, was);
    forall q | 0 <= q < |s.procs| && q != p
      ensures Apart(pr, s.procs[q])
    {
      assert Apart(was, s.procs[q]);
      assert Sound(s.dir, s.procs[q]);
      forall k, m, n | Claims(pr, k, m) && Claims(s.procs[q], k, n)
        ensures m && n
      {
        if !Claims(was, k, m) {
          assert false;
        }
      }
    }
    ReplaceKeepsInv(s, p, pr);
  }

  lemma ShrinkKeepsInv(s: State, p: nat, pr: Proc)
    requires Inv(s) && p < |s.procs|
    requires pr.phase.Running? || pr.phase.Released? || pr.phase.Dead?
    requires forall k :: k in pr.held ==> k in s.procs[p].held && pr.held[k] == s.procs[p].held[k]
    ensures Inv(Put(s, p, pr))
  {
    assert Sound(s.dir, s.procs[p]);
    forall q | 0 <= q < |s.procs| && q != p
      ensures Apart(pr, s.procs[q])
    {
      assert Apart(s.procs[p], s.procs[q]);
      assert forall k, m :: Claims(pr, k, m) ==> Claims(s.procs[p], k, m);
    }
    ReplaceKeepsInv(s, p, pr);
  }

  /** The unlink itself: the exclusive guard means nobody else has this path open, and the
      probe that went before means nobody holds it. */
  lemma UnlinkKeepsInv(s: State, p: nat)
    requires Inv(s) && Can(s, p, Unlink)
    ensures Inv(Do(s, p, Unlink))
  {
    var key := s.procs[p].phase.key;
    var s1 := s.(dir := s.dir - {key});
    var swept := Sweeping(s.procs[p].phase.todo);
    assert Sound(s.dir, s.procs[p]);
    assert Claims(s.procs[p], key, false);
    var t := To(s1, p, swept);
    forall q | 0 <= q < |t.procs|
      ensures Sound(t.dir, t.procs[q])
    {
      assert Sound(s.dir, s.procs[q]);
      if q != p {
        assert Apart(s.procs[p], s.procs[q]);
        if key in s.procs[q].held {
          assert Claims(s.procs[q], key, s.procs[q].held[key].shared);
        }
      }
    }
    forall i, j | 0 <= i < |t.procs| && 0 <= j < |t.procs| && i != j
      ensures Apart(t.procs[i], t.procs[j])
    {
      assert Apart(s.procs[i], s.procs[j]);
      assert forall k, m :: Claims(t.procs[p], k, m) ==> Claims(s.procs[p], k, m);
    }
  }

  /** The steps that only give something up, or that look without taking anything. */
  lemma QuietStepKeepsInv(s: State, p: nat, a: Action)
    requires Inv(s) && Can(s, p, a)
    requires a.Request? || a.GuardBusy? || a.TargetBusy? || a.Stat? || a.ProbeOpen? || a.ProbeClose? ||
             a.EndSweep? || a.Restart?
    ensures Inv(Do(s, p, a))
  {
    var pr := s.procs[p];
    var to := Do(s, p, a).procs[p];
    assert Sound(s.dir, pr);
    assert Sound(s.dir, to);
    MoveKeepsInv(s, p, to.phase);
  }

  lemma CleanupStartKeepsInv(s: State, p: nat, a: Action)
    requires Inv(s) && Can(s, p, a) && (a.TryClean? || a.StartReap?)
    ensures Inv(Do(s, p, a))
  {
    if GuardGrantable(s, p, true) {
      TakeExclusiveGuardKeepsInv(s, p, if a.TryClean? then [s.procs[p].phase.key] else a.todo);
    } else {
      assert Sound(s.dir, s.procs[p]);
      MoveKeepsInv(s, p, Running);
    }
  }

  /** Every step of every process keeps the invariant. */
  lemma StepKeepsInv(s: State, p: nat, a: Action)
    requires Inv(s) && Can(s, p, a)
    ensures Inv(Do(s, p, a))
  {
    match a
    case TakeGuard => TakeGuardKeepsInv(s, p);
    case OpenTarget => OpenKeepsInv(s, p);
    case TakeTarget => TakeTargetKeepsInv(s, p);
    case DropGuard => DropGuardKeepsInv(s, p);
    case TakeRow => TakeRowKeepsInv(s, p);
    case Release(_) => ShrinkKeepsInv(s, p, Do(s, p, a).procs[p]);
    case TryClean => CleanupStartKeepsInv(s, p, a);
    case StartReap(_) => CleanupStartKeepsInv(s, p, a);
    case ProbeLock => ProbeLockKeepsInv(s, p);
    case Unlink => UnlinkKeepsInv(s, p);
    case Crash => ShrinkKeepsInv(s, p, Proc(map[], Dead));
    case _ => QuietStepKeepsInv(s, p, a);
  }

  /** In every interleaving of any number of processes, with crashes anywhere: whoever
      holds a key holds the inode that is linked at its path, an exclusive holder is alone,
      and shared holders share one file. */
  lemma {:induction false} NobodyHoldsAnUnlinkedLock(s: State, run: seq<Move>)
    requires Inv(s) && Legal(s, run)
    ensures Inv(After(s, run)) && HoldsLinked(After(s, run)) && Excludes(After(s, run))
    decreases |run|
  {
    if run == [] {
      InvImpliesPromise(s);
    } else {
      StepKeepsInv(s, run[0].p, run[0].action);
      NobodyHoldsAnUnlinkedLock(Do(s, run[0].p, run[0].action), run[1..]);
    }
  }

  lemma InitialIsSound(n: nat)
    ensures Inv(Initial(n))
  {
  }

  // ---- Waiting ----------------------------------------------------------------------

  /** What a process asks for is above everything it holds. */
  predicate AsksUpwards(pr: Proc) {
    match pr.phase
    case WantGuard(key, _, _) => Upwards(pr.held.Keys, key)
    case Guarded(key, _, _) => Upwards(pr.held.Keys, key)
    case Opened(key, _, _, _) => Upwards(pr.held.Keys, key)
    case Locked(key, _, _) => Upwards(pr.held.Keys, key)
    case WantRow(key) => Upwards(pr.held.Keys, key)
    case _ => true
  }

  predicate Upwards(held: set<Resource>, key: Resource) {
    forall k :: k in held ==> Before(k, key)
  }

  predicate Orderly(s: State) {
    forall p :: 0 <= p < |s.procs| ==> AsksUpwards(s.procs[p])
  }

  /** Every request of the run follows the acquisition order. */
  predicate InOrder(s: State, run: seq<Move>)
    requires Legal(s, run)
    decreases |run|
  {
    run == [] ||
    ((run[0].action.Request? ==> Upwards(s.procs[run[0].p].held.Keys, run[0].action.key)) &&
     InOrder(Do(s, run[0].p, run[0].action), run[1..]))
  }

  /** Every task asks upwards, at every depth of every one of its nestings. */
  lemma TasksAskUpwards(t: Task, job: nat, video: nat, nesting: seq<Resource>, n: nat)
    requires nesting in Nestings(t, job, video) && n < |nesting|
    ensures Upwards((set r | r in nesting[..n]), nesting[n])
  {
    TasksAcquireInOrder(t, job, video);
    forall r | r in nesting[..n]
      ensures Before(r, nesting[n])
    {
      var i :| 0 <= i < n && nesting[..n][i] == r;
      assert Before(nesting[i], nesting[n]);
    }
  }

  lemma StepKeepsOrder(s: State, p: nat, a: Action)
    requires Orderly(s) && Can(s, p, a)
    requires a.Request? ==> Upwards(s.procs[p].held.Keys, a.key)
    ensures Orderly(Do(s, p, a))
  {
    assert AsksUpwards(s.procs[p]);
  }

  lemma {:induction false} RunsKeepOrder(s: State, run: seq<Move>)
    requires Inv(s) && Orderly(s) && Legal(s, run) && InOrder(s, run)
    ensures Inv(After(s, run)) && Orderly(After(s, run))
    decreases |run|
  {
    if run != [] {
      StepKeepsInv(s, run[0].p, run[0].action);
      StepKeepsOrder(s, run[0].p, run[0].action);
      RunsKeepOrder(Do(s, run[0].p, run[0].action), run[1..]);
    }
  }

  /** `p` is blocked and `q` is one of those it is blocked by. */
  predicate Waits(s: State, p: nat, q: nat)
    requires p < |s.procs| && q < |s.procs|
  {
    var pr := s.procs[p];
    match pr.phase
    case WantGuard(_, _, blocking) => blocking && q != p && GuardExclusive(s.procs[q])
    case Opened(_, shared, blocking, inode) =>
      blocking && exists mode :: Flocks(s.procs[q], inode, mode) && !(shared && mode)
    case WantRow(key) => key in s.procs[q].held
    case _ => false
  }

  /** Where a process waits: its key's rank, or above all keys for the namespace guard. */
  function WaitRank(pr: Proc): (nat, nat) {
    match pr.phase
    case WantGuard(_, _, _) => (6, 0)
    case Opened(key, _, _, _) => key.Rank()
    case WantRow(key) => key.Rank()
    case _ => (7, 0)
  }

  /** Waiting goes strictly up: whoever is waited for waits further up, or not at all. */
  lemma WaitsGoUp(s: State, p: nat, q: nat)
    requires Inv(s) && Orderly(s) && p < |s.procs| && q < |s.procs| && Waits(s, p, q)
    ensures Below(WaitRank(s.procs[p]), WaitRank(s.procs[q]))
  {
    var a, b := s.procs[p], s.procs[q];
    assert Sound(s.dir, a) && Sound(s.dir, b) && AsksUpwards(b);
    if a.phase.Opened? {
      var mode :| Flocks(b, a.phase.inode, mode) && !(a.phase.shared && mode);
      if exists k :: k in b.held && !k.IsRow() && b.held[k] == Hold(a.phase.inode, mode) {
        var k :| k in b.held && !k.IsRow() && b.held[k] == Hold(a.phase.inode, mode);
        assert k == a.phase.key;
      }
    }
  }

  /** No set of processes can wait for each other: in every non-empty set, somebody waits
      for nobody in it. */
  lemma {:induction false} NoWaitCycle(s: State, waiting: set<nat>, p: nat) returns (free: nat)
    requires Inv(s) && Orderly(s) && p in waiting && forall q :: q in waiting ==> q < |s.procs|
    ensures free in waiting && forall q :: q in waiting ==> !Waits(s, free, q)
    decreases set q | q in waiting && Below(WaitRank(s.procs[p]), WaitRank(s.procs[q]))
  {
    if q :| q in waiting && Waits(s, p, q) {
      WaitsGoUp(s, p, q);
      var above := set r | r in waiting && Below(WaitRank(s.procs[p]), WaitRank(s.procs[r]));
      assert q in above;
      assert q !in set r | r in waiting && Below(WaitRank(s.procs[q]), WaitRank(s.procs[r]));
      free := NoWaitCycle(s, waiting, q);
    } else {
      free := p;
    }
  }

  /** A process in the middle of something can take a step, or waits for somebody. */
  lemma BlockedMeansWaits(s: State, p: nat) returns (a: Action, q: nat)
    requires p < |s.procs| && !s.procs[p].phase.Running?
    ensures (a != Crash && Can(s, p, a)) || (q < |s.procs| && Waits(s, p, q))
  {
    a, q := Crash, 0;
    match s.procs[p].phase
    case WantGuard(_, _, blocking) =>
      if GuardGrantable(s, p, false) {
        a := TakeGuard;
      } else if !blocking {
        a := GuardBusy;
      } else {
        q :| 0 <= q < |s.procs| && q != p && GuardExclusive(s.procs[q]);
      }
    case Guarded(_, _, _) => a := OpenTarget;
    case Opened(_, shared, blocking, inode) =>
      if Grantable(s, inode, shared) {
        a := TakeTarget;
      } else if !blocking {
        a := TargetBusy;
      } else {
        var mode;
        q, mode :| 0 <= q < |s.procs| && Flocks(s.procs[q], inode, mode) && !(shared && mode);
      }
    case Locked(_, _, _) => a := DropGuard;
    case WantRow(key) =>
      if RowFree(s, key) {
        a := TakeRow;
      } else {
        q :| 0 <= q < |s.procs| && key in s.procs[q].held;
      }
    case Released(_) => a := TryClean;
    case Sweeping(_) => a := EndSweep;
    case Probing(_, _, _) => a := ProbeOpen;
    case ProbeOpened(_, _, _, _) => a := ProbeLock;
    case ProbeLocked(_, _, _, _) => a := ProbeClose;
    case Unlinking(_, _) => a := Unlink;
    case Dead => a := Restart;
  }

  /** In an orderly state nothing is stuck for good: while one process is in the middle of
      something, one of those in the middle of something can take a step or waits for a process
      that is not. */
  lemma SomebodyMoves(s: State, p: nat) returns (q: nat, a: Action, r: nat)
    requires Inv(s) && Orderly(s) && p < |s.procs| && !s.procs[p].phase.Running?
    ensures q < |s.procs| && !s.procs[q].phase.Running?
    ensures (a != Crash && Can(s, q, a)) || (r < |s.procs| && s.procs[r].phase.Running? && Waits(s, q, r))
  {
    var busy := set k: nat | k < |s.procs| && !s.procs[k].phase.Running?;
    q := NoWaitCycle(s, busy, p);
    a, r := BlockedMeansWaits(s, q);
  }

  /** The request of a process that runs a task: the next one of a nesting whose earlier locks
      are all that the process holds. */
  predicate AsksIn(
    held: set<Resource>, key: Resource, t: Task, job: nat, video: nat, nesting: seq<Resource>, n: nat)
  {
    && nesting in Nestings(t, job, video) && n < |nesting| && key == nesting[n]
    && forall k :: k in held ==> k in nesting[..n]
  }

  ghost predicate AsksInATask(held: set<Resource>, key: Resource) {
    exists t, job, video, nesting, n :: AsksIn(held, key, t, job, video, nesting, n)
  }

  /** Every request of the run is made by some task of some job. */
  ghost predicate ByTasks(s: State, run: seq<Move>)
    requires Legal(s, run)
    decreases |run|
  {
    run == [] ||
    ((run[0].action.Request? ==> AsksInATask(s.procs[run[0].p].held.Keys, run[0].action.key)) &&
     ByTasks(Do(s, run[0].p, run[0].action), run[1..]))
  }

  lemma {:induction false} TaskRunsAreInOrder(s: State, run: seq<Move>)
    requires Legal(s, run) && ByTasks(s, run)
    ensures InOrder(s, run)
    decreases |run|
  {
    if run != [] {
      if run[0].action.Request? {
        var held, key := s.procs[run[0].p].held.Keys, run[0].action.key;
        var t, job, video, nesting, n :| AsksIn(held, key, t, job, video, nesting, n);
        TasksAskUpwards(t, job, video, nesting, n);
        assert forall k :: k in held ==> k in set r | r in nesting[..n] :: r;
      }
      TaskRunsAreInOrder(Do(s, run[0].p, run[0].action), run[1..]);
    }
  }

  /** However many processes run whatever tasks of whatever jobs, with crashes and sweeps in
      between: they never wait for each other in a circle. */
  lemma TasksNeverDeadlock(n: nat, run: seq<Move>, waiting: set<nat>, p: nat) returns (free: nat)
    requires Legal(Initial(n), run) && ByTasks(Initial(n), run)
    requires p in waiting && forall q :: q in waiting ==> q < |After(Initial(n), run).procs|
    ensures free in waiting && forall q :: q in waiting ==> !Waits(After(Initial(n), run), free, q)
  {
    InitialIsSound(n);
    TaskRunsAreInOrder(Initial(n), run);
    RunsKeepOrder(Initial(n), run);
    free := NoWaitCycle(After(Initial(n), run), waiting, p);
  }

  // ---- Without the order ----------------------------------------------------------------

  ghost predicate Reachable(n: nat, s: State) {
    exists run :: ReachedBy(n, s, run)
  }

  predicate ReachedBy(n: nat, s: State, run: seq<Move>) {
    Legal(Initial(n), run) && After(Initial(n), run) == s
  }

  lemma {:induction false} AppendMove(s: State, run: seq<Move>, m: Move)
    requires Legal(s, run) && Can(After(s, run), m.p, m.action)
    ensures Legal(s, run + [m]) && After(s, run + [m]) == Do(After(s, run), m.p, m.action)
    decreases |run|
  {
    if run == [] {
      assert [m][1..] == [] && run + [m] == [m];
      assert After(Do(s, m.p, m.action), []) == Do(s, m.p, m.action);
    } else {
      assert (run + [m])[1..] == run[1..] + [m];
      AppendMove(Do(s, run[0].p, run[0].action), run[1..], m);
    }
  }

  lemma OneMore(n: nat, s: State, p: nat, a: Action)
    requires Reachable(n, s) && Can(s, p, a)
    ensures Reachable(n, Do(s, p, a))
  {
    var run :| ReachedBy(n, s, run);
    AppendMove(Initial(n), run, Move(p, a));
    assert ReachedBy(n, Do(s, p, a), run + [Move(p, a)]);
  }

  /** A process asks for a key, and gets as far as the opened file. */
  lemma OpensTarget(n: nat, s: State, p: nat, key: Resource) returns (t: State)
    requires Reachable(n, s) && p < |s.procs| && s.procs[p].phase == Running && key !in s.procs[p].held
    requires !key.IsRow() && GuardGrantable(s, p, false)
    ensures Reachable(n, t)
    ensures var inode := if key in s.dir then s.dir[key] else s.nextInode;
            t == State(s.dir[key := inode], if key in s.dir then s.nextInode else s.nextInode + 1,
                       s.procs[p := Proc(s.procs[p].held, Opened(key, false, true, inode))])
  {
    OneMore(n, s, p, Request(key, false, true));
    t := Do(s, p, Request(key, false, true));
    OneMore(n, t, p, TakeGuard);
    t := Do(t, p, TakeGuard);
    OneMore(n, t, p, OpenTarget);
    t := Do(t, p, OpenTarget);
    if key in s.dir {
      assert s.dir[key := s.dir[key]] == s.dir;
    }
  }

  /** A process that holds nothing takes a lock nobody has used. */
  lemma TakesNewLock(n: nat, s: State, p: nat, key: Resource) returns (t: State)
    requires Reachable(n, s) && p < |s.procs| && s.procs[p] == Proc(map[], Running)
    requires !key.IsRow() && GuardGrantable(s, p, false) && key !in s.dir && Grantable(s, s.nextInode, false)
    ensures Reachable(n, t)
    ensures t == State(s.dir[key := s.nextInode], s.nextInode + 1,
                       s.procs[p := Proc(map[key := Hold(s.nextInode, false)], Running)])
  {
    t := OpensTarget(n, s, p, key);
    OneMore(n, t, p, TakeTarget);
    t := Do(t, p, TakeTarget);
    OneMore(n, t, p, DropGuard);
    t := Do(t, p, DropGuard);
  }

  /** The order is needed: two processes that take a lock each and then ask for the other's get
      to where both wait for each other for good. */
  lemma OutOfOrderCanWaitForever(a: Resource, b: Resource)
    requires a != b && !a.IsRow() && !b.IsRow()
    ensures exists s :: Reachable(2, s) && |s.procs| == 2 && Waits(s, 0, 1) && Waits(s, 1, 0)
  {
    var s := Initial(2);
    assert ReachedBy(2, s, []);
    s := TakesNewLock(2, s, 0, a);
    s := TakesNewLock(2, s, 1, b);
    s := OpensTarget(2, s, 0, b);
    s := OpensTarget(2, s, 1, a);
    assert Flocks(s.procs[0], 0, false) && Flocks(s.procs[1], 1, false);
  }

  /** System calls an exclusive owner of the guard still has to make. */
  function SweepWork(pr: Proc): nat {
    match pr.phase
    case Sweeping(todo) => 5 * |todo| + 1
    case Probing(_, _, todo) => 5 * |todo| + 5
    case ProbeOpened(_, _, _, todo) => 5 * |todo| + 4
    case ProbeLocked(_, _, _, todo) => 5 * |todo| + 3
    case Unlinking(_, todo) => 5 * |todo| + 2
    case _ => 0
  }

  function NextSweepStep(pr: Proc): Action
    requires GuardExclusive(pr)
  {
    match pr.phase
    case Sweeping(todo) => if todo == [] then EndSweep else Stat
    case Probing(_, _, _) => ProbeOpen
    case ProbeOpened(_, _, _, _) => ProbeLock
    case ProbeLocked(_, _, _, _) => ProbeClose
    case Unlinking(_, _) => Unlink
  }

  /** A wait for the namespace guard ends: its exclusive owner never waits, and each of its
      steps leaves it less to do before it lets the guard go. */
  lemma SweepersFinish(s: State, p: nat)
    requires Inv(s) && p < |s.procs| && GuardExclusive(s.procs[p])
    ensures forall q :: 0 <= q < |s.procs| ==> !Waits(s, p, q)
    ensures var a := NextSweepStep(s.procs[p]);
            Can(s, p, a) && SweepWork(Do(s, p, a).procs[p]) < SweepWork(s.procs[p])
  {
  }

  /** The `unsafe` answer, a path whose inode changed between lstat and open, needs somebody
      who breaks the protocol: under the exclusive guard the two always agree. */
  lemma ProbeSeesOneInode(s: State, p: nat)
    requires Inv(s) && Can(s, p, ProbeClose)
    ensures Do(s, p, ProbeClose).procs[p].phase == Unlinking(s.procs[p].phase.key, s.procs[p].phase.todo)
  {
    assert Sound(s.dir, s.procs[p]);
  }

  // ---- Locks come free -----------------------------------------------------------------------

  predicate ByOne(run: seq<Move>, p: nat) {
    forall m :: m in run ==> m.p == p
  }

  lemma MoveFirst(s: State, m: Move, rest: seq<Move>)
    requires Can(s, m.p, m.action) && Legal(Do(s, m.p, m.action), rest)
    ensures Legal(s, [m] + rest) && After(s, [m] + rest) == After(Do(s, m.p, m.action), rest)
  {
    assert ([m] + rest)[1..] == rest;
  }

  /** From its own code, a process can let go of everything it holds, on its own. */
  lemma {:induction false} HoldersCanLetGo(s: State, p: nat) returns (run: seq<Move>)
    requires p < |s.procs| && s.procs[p].phase.Running?
    ensures Legal(s, run) && ByOne(run, p)
    ensures After(s, run).procs == s.procs[p := Proc(map[], Running)]
    decreases |s.procs[p].held|
  {
    if s.procs[p].held == map[] {
      run := [];
      assert s.procs[p := Proc(map[], Running)] == s.procs;
    } else {
      var key :| key in s.procs[p].held;
      var t, steps := ReleasedOne(s, p, key);
      var rest := HoldersCanLetGo(t, p);
      run := steps + rest;
      RunThenRun(s, steps, rest);
    }
  }

  /** One of them, with the cleanup behind it. */
  lemma ReleasedOne(s: State, p: nat, key: Resource) returns (t: State, run: seq<Move>)
    requires p < |s.procs| && s.procs[p].phase.Running? && key in s.procs[p].held
    ensures Legal(s, run) && ByOne(run, p) && After(s, run) == t
    ensures t.procs == s.procs[p := Proc(s.procs[p].held - {key}, Running)] && |t.procs[p].held| < |s.procs[p].held|
  {
    var t1 := Do(s, p, Release(key));
    assert s.procs[p].held.Keys == (s.procs[p].held - {key}).Keys + {key};
    if key.IsRow() {
      t, run := t1, [Move(p, Release(key))] + [];
    } else {
      var t2 := Do(t1, p, TryClean);
      if t2.procs[p].phase.Running? {
        t, run := t2, [Move(p, TryClean)] + [];
      } else {
        t := Do(t2, p, EndSweep);
        MoveFirst(t2, Move(p, EndSweep), []);
        run := [Move(p, TryClean)] + ([Move(p, EndSweep)] + []);
        MoveFirst(t1, Move(p, TryClean), [Move(p, EndSweep)] + []);
      }
      MoveFirst(s, Move(p, Release(key)), run);
      run := [Move(p, Release(key))] + run;
    }
  }

  lemma {:induction false} RunThenRun(s: State, first: seq<Move>, second: seq<Move>)
    requires Legal(s, first) && Legal(After(s, first), second)
    ensures Legal(s, first + second) && After(s, first + second) == After(After(s, first), second)
    decreases |first|
  {
    if first == [] {
      assert first + second == second;
    } else {
      assert (first + second)[1..] == first[1..] + second;
      RunThenRun(Do(s, first[0].p, first[0].action), first[1..], second);
    }
  }

  /** And a process that dies holds nothing any more, wherever it was. */
  lemma CrashFreesAll(s: State, p: nat)
    requires p < |s.procs|
    ensures Can(s, p, Crash) && Do(s, p, Crash).procs[p].held == map[] && Do(s, p, Crash).dir == s.dir
    ensures var t := Do(s, p, Crash); !GuardShared(t.procs[p]) && !GuardExclusive(t.procs[p]) && Can(t, p, Restart)
  {
  }
}
