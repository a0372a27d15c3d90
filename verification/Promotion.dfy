/** Moving a validated set of rendition directories into place by renames, with rollback, under
    any schedule of failing renames and crashes. */
module Promotion {

  datatype Height = Height(lines: int)

  /** A rendition directory; `sound` says that it passes validation. A complete directory is
      never empty, so no rename can replace one. */
  datatype Tree = Tree(id: nat, sound: bool)

  datatype Place = Attempt | Canonical | Backup

  datatype Trees = Trees(attempt: map<Height, Tree>, canonical: map<Height, Tree>, backup: map<Height, Tree>)
  {
    function At(p: Place): map<Height, Tree> {
      match p
      case Attempt => attempt
      case Canonical => canonical
      case Backup => backup
    }

    function With(p: Place, m: map<Height, Tree>): Trees {
      match p
      case Attempt => this.(attempt := m)
      case Canonical => this.(canonical := m)
      case Backup => this.(backup := m)
    }

    /** A directory renamed from one place to another. */
    function Moved(src: Place, dst: Place, h: Height): Trees
      requires src != dst && h in At(src) && h !in At(dst)
    {
      With(src, At(src) - {h}).With(dst, At(dst)[h := At(src)[h]])
    }

    /** All the directories of one height, wherever they are. */
    function Held(h: Height): multiset<Tree> {
      (if h in attempt then multiset{attempt[h]} else multiset{}) +
      (if h in canonical then multiset{canonical[h]} else multiset{}) +
      (if h in backup then multiset{backup[h]} else multiset{})
    }
  }

  // ---- What every state on the way keeps ----------------------------------------------------

  /** No directory is lost or copied, and every canonical one there was is still in the canonical
      directory or among the backups. */
  ghost predicate Kept(start: Trees, now: Trees) {
    forall h :: KeptAt(start, now, h)
  }

  /** The half of it that outlives the attempt's own directories. */
  ghost predicate OldKept(start: Trees, now: Trees) {
    forall h :: h in start.canonical ==>
                  || (h in now.canonical && now.canonical[h] == start.canonical[h])
                  || (h in now.backup && now.backup[h] == start.canonical[h])
  }

  predicate KeptAt(start: Trees, now: Trees, h: Height) {
    && now.Held(h) == start.Held(h)
    && (h in start.canonical ==>
          || (h in now.canonical && now.canonical[h] == start.canonical[h])
          || (h in now.backup && now.backup[h] == start.canonical[h]))
  }

  predicate Ready(start: Trees, heights: set<Height>) {
    start.backup == map[] && forall h :: h in heights ==> h in start.attempt
  }

  /** Heights in `done` are promoted; heights in `half` have only made room. */
  predicate Underway(start: Trees, done: set<Height>, half: set<Height>) {
    Ready(start, done) && done !! half && half <= start.canonical.Keys
  }

  function During(start: Trees, done: set<Height>, half: set<Height>): Trees
    requires Underway(start, done, half)
  {
    Trees(start.attempt - done,
          (start.canonical - half) + (map h | h in done :: start.attempt[h]),
          map h | h in done + half && h in start.canonical :: start.canonical[h])
  }

  lemma DuringKeeps(start: Trees, done: set<Height>, half: set<Height>)
    requires Underway(start, done, half)
    ensures Kept(start, During(start, done, half))
  {
    forall h
      ensures KeptAt(start, During(start, done, half), h)
    {
      DuringKeepsAt(start, done, half, h);
    }
  }

  lemma DuringKeepsAt(start: Trees, done: set<Height>, half: set<Height>, h: Height)
    requires Underway(start, done, half)
    ensures KeptAt(start, During(start, done, half), h)
  {
    if h in done {
      DoneKeepsAt(start, done, half, h);
    } else {
      var now := During(start, done, half);
      assert h in now.attempt <==> h in start.attempt;
      if h in half {
        assert h !in now.canonical && now.backup[h] == start.canonical[h];
      } else {
        assert h !in now.backup && (h in now.canonical <==> h in start.canonical);
      }
    }
  }

  lemma DoneKeepsAt(start: Trees, done: set<Height>, half: set<Height>, h: Height)
    requires Underway(start, done, half) && h in done
    ensures KeptAt(start, During(start, done, half), h)
  {
    var now := During(start, done, half);
    assert h !in now.attempt && h in start.attempt && now.canonical[h] == start.attempt[h];
    assert h in now.backup <==> h in start.canonical;
    var fetched := multiset{start.attempt[h]};
    var was := if h in start.canonical then multiset{start.canonical[h]} else multiset{};
    assert start.Held(h) == fetched + was && now.Held(h) == fetched + was;
  }

  lemma AtRest(start: Trees)
    requires Ready(start, {})
    ensures During(start, {}, {}) == start
  {
    assert During(start, {}, {}).canonical == start.canonical;
    assert During(start, {}, {}).attempt == start.attempt;
  }

  lemma OnlyThenAtRest(start: Trees, done: set<Height>, half: set<Height>)
    requires Underway(start, done, half)
    ensures During(start, done, half) == start <==> done == {} && half == {}
  {
    if done == {} && half == {} {
      AtRest(start);
    }
    assert forall h :: h in done ==> h in start.attempt && h !in During(start, done, half).attempt;
    assert forall h :: h in half ==> h in start.canonical && h !in During(start, done, half).canonical;
  }

  /** A canonical directory making room, and coming back. */
  lemma MakesRoom(start: Trees, done: set<Height>, half: set<Height>, h: Height)
    requires Underway(start, done, half + {h}) && h !in half
    ensures Underway(start, done, half)
    ensures var t, u := During(start, done, half), During(start, done, half + {h});
            && h in t.canonical && h !in t.backup && t.Moved(Canonical, Backup, h) == u
            && h in u.backup && h !in u.canonical && u.Moved(Backup, Canonical, h) == t
  {
    assert Underway(start, done, half);
    var t, u := During(start, done, half), During(start, done, half + {h});
    assert t.canonical - {h} == u.canonical && t.backup[h := t.canonical[h]] == u.backup;
    assert u.backup - {h} == t.backup && u.canonical[h := u.backup[h]] == t.canonical;
  }

  /** A new directory taking its place, and going back. */
  lemma TakesPlace(start: Trees, done: set<Height>, half: set<Height>, h: Height)
    requires Underway(start, done, half) && h !in done && h in start.attempt
    requires h in half || h !in start.canonical
    ensures Underway(start, done + {h}, half - {h})
    ensures var t, u := During(start, done, half), During(start, done + {h}, half - {h});
            && h in t.attempt && h !in t.canonical && t.Moved(Attempt, Canonical, h) == u
            && h in u.canonical && h !in u.attempt && u.Moved(Canonical, Attempt, h) == t
  {
    var t, u := During(start, done, half), During(start, done + {h}, half - {h});
    PlaceTaken(start, done, half, h);
    assert u.attempt[h := u.canonical[h]] == t.attempt && u.canonical - {h} == t.canonical;
  }

  lemma PlaceTaken(start: Trees, done: set<Height>, half: set<Height>, h: Height)
    requires Underway(start, done, half) && h !in done && h in start.attempt
    requires h in half || h !in start.canonical
    ensures Underway(start, done + {h}, half - {h})
    ensures var t, u := During(start, done, half), During(start, done + {h}, half - {h});
            && h in t.attempt && h !in t.canonical && h in u.canonical && u.canonical[h] == t.attempt[h]
            && u.attempt == t.attempt - {h} && u.canonical == t.canonical[h := t.attempt[h]] && u.backup == t.backup
  {
    var t, u := During(start, done, half), During(start, done + {h}, half - {h});
    assert (done + {h}) + (half - {h}) == if h in half then done + half else done + half + {h};
    assert t.backup == u.backup;
  }

  // ---- Renames that may fail ------------------------------------------------------------------

  datatype Fault = Fine | Fails | Crashes

  function FailCount(faults: seq<Fault>): nat {
    if faults == [] then 0 else (if faults[0] == Fails then 1 else 0) + FailCount(faults[1..])
  }

  predicate NoCrash(faults: seq<Fault>) {
    forall i :: 0 <= i < |faults| ==> faults[i] != Crashes
  }

  /** A call that returns, raises, or never comes back because the process stopped. */
  datatype Outcome = Done | Raised | Stopped

  /** The looks whose error reads as "not there". */
  function BlindCount(looks: seq<bool>): nat {
    if looks == [] then 0 else (if looks[0] then 0 else 1) + BlindCount(looks[1..])
  }

  predicate AllFine(faults: seq<Fault>) {
    forall i :: 0 <= i < |faults| ==> faults[i] == Fine
  }

  function Rest<T>(s: seq<T>): seq<T> {
    if s == [] then [] else s[1..]
  }

  function NextFault(faults: seq<Fault>): Fault {
    if faults == [] then Fine else faults[0]
  }

  predicate Sees(looks: seq<bool>) {
    looks == [] || looks[0]
  }

  /** The next n looks see what is there. */
  predicate Saw(looks: seq<bool>, n: nat) {
    n == 0 || (Sees(looks) && Saw(Rest(looks), n - 1))
  }

  function Later(looks: seq<bool>, n: nat): seq<bool> {
    if n == 0 then looks else Later(Rest(looks), n - 1)
  }

  /** The looks at one height that a rollback takes: at its new directory, and at its backup. */
  function Need(start: Trees, h: Height): nat {
    if h in start.canonical then 2 else 1
  }

  function Needs(start: Trees, heights: seq<Height>): nat {
    if heights == [] then 0 else Need(start, heights[|heights| - 1]) + Needs(start, heights[..|heights| - 1])
  }

  /** No old directory comes back to a place that still looks free but is not, where the rename
      raises. */
  predicate Settled(start: Trees, h: Height, looks: seq<bool>) {
    h in start.canonical && !Sees(looks) ==> !Sees(Rest(looks))
  }

  predicate Settles(start: Trees, heights: seq<Height>, looks: seq<bool>) {
    heights == [] ||
    var h := heights[|heights| - 1];
    Settled(start, h, looks) && Settles(start, heights[..|heights| - 1], Later(looks, Need(start, h)))
  }

  /** The calls that must have failed for an outcome. */
  function Count(r: Outcome, stuck: bool): nat {
    if r != Raised then 0 else if stuck then 2 else 1
  }

  function Ended(f: Fault): Outcome {
    match f
    case Fine => Done
    case Fails => Raised
    case Crashes => Stopped
  }

  /** How far the promotion loop gets: how many heights it promotes, how it ends, and the faults
      and looks that are still to come. */
  datatype Reached = Reached(at: nat, r: Outcome, stuck: bool, faults: seq<Fault>, looks: seq<bool>)

  /** What one turn comes to, for a height with or without a canonical directory. */
  function Turn(at: nat, there: bool, faults: seq<Fault>, looks: seq<bool>): Reached {
    var first, second, third := NextFault(faults), NextFault(Rest(faults)), NextFault(Rest(Rest(faults)));
    if !there then Reached(at, Ended(first), false, Rest(faults), Rest(looks))
    else if !Sees(looks) then
      // Not seen: the new directory cannot take the place of one that is there.
      Reached(at, if first == Crashes then Stopped else Raised, false, Rest(faults), Rest(looks))
    else if first != Fine then Reached(at, Ended(first), false, Rest(faults), Rest(looks))
    else if second != Fails then Reached(at, Ended(second), false, Rest(Rest(faults)), Rest(looks))
    else Reached(at, if third == Crashes then Stopped else Raised, third == Fails,
                 Rest(Rest(Rest(faults))), Rest(Rest(looks)))
  }

  function Loop(start: Trees, heights: seq<Height>, at: nat, faults: seq<Fault>, looks: seq<bool>): (l: Reached)
    requires at <= |heights|
    ensures at <= l.at <= |heights| && (l.r == Done <==> l.at == |heights|)
    decreases |heights| - at
  {
    if at == |heights| then Reached(at, Done, false, faults, looks)
    else
      var t := Turn(at, heights[at] in start.canonical, faults, looks);
      if t.r == Done then Loop(start, heights, at + 1, t.faults, t.looks) else t
  }

  /** The looks of the rollback, should there be one, see every directory that is there. */
  predicate UndoSees(start: Trees, heights: seq<Height>, faults: seq<Fault>, looks: seq<bool>) {
    var l := Loop(start, heights, 0, faults, looks);
    Saw(l.looks, Needs(start, heights[..l.at]))
  }

  /** How a promotion ends. `stuck` says that a rename of the rollback itself raised. */
  datatype Ending = Returned | Failed(stuck: bool) | Crashed

  class Disk {
    var trees: Trees
    /** How the next renames go, and whether the next looks see what is there: `lexists` answers
        no when it cannot look. */
    var faults: seq<Fault>
    var looks: seq<bool>

    constructor (t: Trees, f: seq<Fault>, l: seq<bool>)
      ensures trees == t && faults == f && looks == l
    {
      trees, faults, looks := t, f, l;
    }

    function Trouble(): nat
      reads this
    {
      FailCount(faults) + BlindCount(looks)
    }

    /** `os.path.lexists` of one rendition directory. */
    method Lexists(p: Place, h: Height) returns (there: bool)
      modifies this`looks
      ensures there <==> h in trees.At(p) && Sees(old(looks))
      ensures looks == Rest(old(looks))
      ensures Trouble() + (if Sees(old(looks)) then 0 else 1) == old(Trouble())
    {
      there := Sees(looks) && h in trees.At(p);
      looks := Rest(looks);
    }

    /** `os.replace` of one rendition directory. */
    method Rename(src: Place, dst: Place, h: Height) returns (r: Outcome)
      requires src != dst
      modifies this`trees, this`faults
      ensures r == if NextFault(old(faults)) != Fine then Ended(NextFault(old(faults)))
                   else if h in old(trees).At(src) && h !in old(trees).At(dst) then Done else Raised
      ensures r == Done ==> trees == old(trees).Moved(src, dst, h)
      ensures r != Done ==> trees == old(trees)
      ensures faults == Rest(old(faults))
      ensures NoCrash(old(faults)) ==> NoCrash(faults) && r != Stopped
      ensures Trouble() + (if NextFault(old(faults)) == Fails then 1 else 0) == old(Trouble())
    {
      var fault := NextFault(faults);
      faults := Rest(faults);
      if fault != Fine {
        return Ended(fault);
      }
      if h !in trees.At(src) || h in trees.At(dst) {
        return Raised;
      }
      trees := trees.Moved(src, dst, h);
      r := Done;
    }

    /** One turn of the promotion loop, for a height without a canonical directory. */
    method PromoteNew(ghost start: Trees, ghost done: set<Height>, h: Height) returns (r: Outcome)
      requires Underway(start, done, {}) && h in start.attempt && h !in done && h !in start.canonical
      requires trees == During(start, done, {})
      modifies this`trees, this`faults
      ensures if r == Done then Underway(start, done + {h}, {}) && trees == During(start, done + {h}, {})
              else trees == During(start, done, {})
      ensures r == Ended(NextFault(old(faults))) && faults == Rest(old(faults))
      ensures NoCrash(old(faults)) ==> NoCrash(faults) && r != Stopped
      ensures Trouble() + Count(r, false) <= old(Trouble())
    {
      TakesPlace(start, done, {}, h);
      assert {} - {h} == {};
      r := Rename(Attempt, Canonical, h);
    }

    /** The same for a height whose canonical directory has been seen and has to make room first. */
    method PromoteOver(ghost start: Trees, ghost done: set<Height>, h: Height) returns (r: Outcome, stuck: bool)
      requires Underway(start, done, {h}) && h in start.attempt && Underway(start, done, {})
      requires trees == During(start, done, {})
      modifies this
      ensures r == Done ==> Underway(start, done + {h}, {}) && trees == During(start, done + {h}, {})
      ensures r != Done ==> trees == During(start, done, {}) || trees == During(start, done, {h})
      ensures stuck ==> trees == During(start, done, {h})
      ensures (r == Raised && !stuck ==> trees == During(start, done, {})) && (stuck ==> r == Raised)
      ensures Reached(0, r, stuck, faults, looks) == Turn(0, true, old(faults), [true] + old(looks))
      ensures NoCrash(old(faults)) ==> NoCrash(faults) && r != Stopped
      ensures Trouble() + Count(r, stuck) <= old(Trouble())
    {
      stuck := false;
      assert {} + {h} == {h} && {h} - {h} == {};
      assert Rest([true] + looks) == looks;
      MakesRoom(start, done, {}, h);
      TakesPlace(start, done, {h}, h);
      r := Rename(Canonical, Backup, h);
      if r != Done {
        return;
      }
      r := Rename(Attempt, Canonical, h);
      if r == Raised {
        var there := Lexists(Canonical, h);
        assert !there;
        var restored := Rename(Backup, Canonical, h);
        if restored == Stopped {
          r := Stopped;
        }
        stuck := restored == Raised;
      }
    }

    /** One turn of the promotion loop. */
    method PromoteOne(ghost start: Trees, ghost done: set<Height>, h: Height, ghost heights: seq<Height>, ghost at: nat)
      returns (r: Outcome, stuck: bool)
      requires at < |heights| && heights[at] == h
      requires Underway(start, done, {}) && h in start.attempt && h !in done && trees == During(start, done, {})
      modifies this
      ensures r == Done ==> Underway(start, done + {h}, {}) && trees == During(start, done + {h}, {})
      ensures r != Done ==> trees == During(start, done, {}) ||
                            (Underway(start, done, {h}) && trees == During(start, done, {h}))
      ensures (r == Raised && !stuck ==> trees == During(start, done, {})) && (stuck ==> r == Raised)
      ensures Loop(start, heights, at, old(faults), old(looks)) ==
              if r == Done then Loop(start, heights, at + 1, faults, looks) else Reached(at, r, stuck, faults, looks)
      ensures NoCrash(old(faults)) ==> NoCrash(faults) && r != Stopped
      ensures Trouble() + Count(r, stuck) <= old(Trouble())
    {
      var there := Lexists(Canonical, h);
      if there {
        assert Rest([true] + looks) == looks == Rest(old(looks));
        r, stuck := PromoteOver(start, done, h);
      } else if h in trees.canonical {
        r := Rename(Attempt, Canonical, h);
        stuck := false;
      } else {
        r := PromoteNew(start, done, h);
        stuck := false;
      }
      assert Reached(at, r, stuck, faults, looks) == Turn(at, h in start.canonical, old(faults), old(looks));
    }

    /** The promotion loop. On failure the promoted heights are what the rollback starts from. */
    method PromoteAll(ghost start: Trees, heights: seq<Height>)
      returns (r: Outcome, stuck: bool, promoted: seq<Height>, ghost half: set<Height>)
      requires trees == start && Ready(start, Set(heights)) && Distinct(heights)
      modifies this
      ensures promoted <= heights && (r == Done ==> promoted == heights && half == {})
      ensures Underway(start, Set(promoted), half) && trees == During(start, Set(promoted), half)
      ensures (r == Raised && !stuck ==> half == {}) && (stuck ==> r == Raised)
      ensures Reached(|promoted|, r, stuck, faults, looks) == Loop(start, heights, 0, old(faults), old(looks))
      ensures NoCrash(old(faults)) ==> NoCrash(faults) && r != Stopped
      ensures Trouble() + Count(r, stuck) <= old(Trouble())
    {
      r, stuck, promoted, half := Done, false, [], {};
      AtRest(start);
      ghost var plan := Loop(start, heights, 0, faults, looks);
      var at := 0;
      while at < |heights|
        invariant |promoted| == at && promoted <= heights && r == Done && !stuck && half == {}
        invariant Underway(start, Set(promoted), {}) && trees == During(start, Set(promoted), {})
        invariant Loop(start, heights, at, faults, looks) == plan
        invariant NoCrash(old(faults)) ==> NoCrash(faults)
        invariant Trouble() <= old(Trouble())
      {
        r, stuck, half := PromoteNext(start, heights, promoted, at, plan);
        if r != Done {
          return;
        }
        promoted := promoted + [heights[at]];
        at := at + 1;
      }
    }

    method PromoteNext(ghost start: Trees, heights: seq<Height>, ghost promoted: seq<Height>, at: nat, ghost plan: Reached)
      returns (r: Outcome, stuck: bool, ghost half: set<Height>)
      requires Ready(start, Set(heights)) && Distinct(heights) && promoted < heights && |promoted| == at
      requires Underway(start, Set(promoted), {}) && trees == During(start, Set(promoted), {})
      requires Loop(start, heights, at, faults, looks) == plan
      modifies this
      ensures var now := if r == Done then promoted + [heights[at]] else promoted;
              && now <= heights && Underway(start, Set(now), half) && trees == During(start, Set(now), half)
      ensures (r == Done || (r == Raised && !stuck) ==> half == {}) && (stuck ==> r == Raised)
      ensures plan == if r == Done then Loop(start, heights, at + 1, faults, looks) else Reached(at, r, stuck, faults, looks)
      ensures NoCrash(old(faults)) ==> NoCrash(faults) && r != Stopped
      ensures Trouble() + Count(r, stuck) <= old(Trouble())
    {
      var h := heights[at];
      NextHeight(heights, at);
      assert promoted == heights[..at];
      r, stuck := PromoteOne(start, Set(promoted), h, heights, at);
      half := if r == Done || trees == During(start, Set(promoted), {}) then {} else {h};
    }

    /** One turn of the rollback. One that does not raise has put this height back exactly if its
        looks saw what was there. */
    method UndoOne(ghost start: Trees, ghost done: set<Height>, ghost half: set<Height>, h: Height)
      returns (r: Outcome, ghost after: set<Height>, ghost room: set<Height>)
      requires h in done && h !in half && Underway(start, done, half) && trees == During(start, done, half)
      modifies this
      ensures Underway(start, after, room) && trees == During(start, after, room)
      ensures r == Done && Saw(old(looks), Need(start, h)) ==> after == done - {h} && room == half
      ensures r == Done && !Saw(old(looks), Need(start, h)) ==>
                (after == done && room == half) || (after == done - {h} && room == half + {h})
      ensures r == Done ==> looks == Later(old(looks), Need(start, h))
      ensures AllFine(old(faults)) ==> AllFine(faults) && r == if Settled(start, h, old(looks)) then Done else Raised
      ensures NoCrash(old(faults)) ==> NoCrash(faults) && r != Stopped
      ensures Trouble() + (if r == Raised || (r == Done && !Saw(old(looks), Need(start, h))) then 1 else 0) <= old(Trouble())
    {
      after, room := done, half;
      var less := done - {h};
      ghost var wide := if h in start.canonical then half + {h} else half;
      assert Underway(start, less, wide) && less + {h} == done && wide - {h} == half;
      TakesPlace(start, less, wide, h);
      OneOrTwoLooks(looks);
      var gone := Lexists(Canonical, h);
      if gone {
        r := Rename(Canonical, Attempt, h);
        if r != Done {
          return;
        }
        after, room := less, wide;
      }
      r := Done;
      if h in trees.backup {
        r, room := RestoreOld(start, after, half, h, gone);
      }
    }

    /** The second rename of a turn: the old directory comes back to the place the new one has
        left. If the new one has not been seen and is still there, the rename raises. */
    method RestoreOld(ghost start: Trees, ghost after: set<Height>, ghost half: set<Height>, h: Height, ghost left: bool)
      returns (r: Outcome, ghost room: set<Height>)
      requires h in start.canonical && h !in half && (left <==> h !in after)
      requires var room := if left then half + {h} else half;
               Underway(start, after, room) && trees == During(start, after, room)
      modifies this
      ensures Underway(start, after, room) && trees == During(start, after, room)
      ensures r == Done ==> room == if left && !Sees(old(looks)) then half + {h} else half
      ensures looks == Rest(old(looks))
      ensures AllFine(old(faults)) ==>
                AllFine(faults) && r == if !left && Sees(old(looks)) then Raised else Done
      ensures NoCrash(old(faults)) ==> NoCrash(faults) && r != Stopped
      ensures Trouble() + (if Sees(old(looks)) && !(r == Raised && left) then 0 else 1) <= old(Trouble())
    {
      room := if left then half + {h} else half;
      if left {
        MakesRoom(start, after, half, h);
      }
      var there := Lexists(Backup, h);
      r := Done;
      if there {
        r := Rename(Backup, Canonical, h);
        if r == Done {
          room := half;
        }
      }
    }

    /** The same within the list: before this turn the first k + 1 heights are still to go back, and
        so are those in `left`, which earlier turns have missed. */
    method UndoNext(
      ghost start: Trees, promoted: seq<Height>, k: nat, ghost half: set<Height>, ghost left: set<Height>,
      ghost room: set<Height>, ghost first: seq<bool>)
      returns (r: Outcome, ghost left': set<Height>, ghost room': set<Height>)
      requires k < |promoted| && Distinct(promoted) && Remains(start, trees, promoted[..k + 1], left, room)
      requires half <= room && StillSees(start, promoted, k + 1, first, looks, left == {} && room == half)
      modifies this
      ensures r != Done ==> Kept(start, trees)
      ensures r == Done ==> Remains(start, trees, promoted[..k], left', room') && half <= room'
      ensures r == Done ==> StillSees(start, promoted, k, first, looks, left' == {} && room' == half)
      ensures AllFine(old(faults)) && StillSettles(start, promoted, k + 1, first, old(looks)) ==>
                AllFine(faults) &&
                if r == Done then StillSettles(start, promoted, k, first, looks)
                else r == Raised && !Settles(start, promoted, first)
      ensures NoCrash(old(faults)) ==> NoCrash(faults) && r != Stopped
      ensures Trouble() + (if r == Raised || (r == Done && (left' != left || room' != room)) then 1 else 0) <= old(Trouble())
    {
      NextHeight(promoted, k);
      var h := promoted[k];
      ghost var done, after := Set(promoted[..k + 1]) + left, {};
      assert h in done;
      OneFewer(start, promoted, k, first, looks, left == {} && room == half);
      r, after, room' := UndoOne(start, done, room, h);
      DuringKeeps(start, after, room');
      assert done - {h} == Set(promoted[..k]) + left;
      left' := after - Set(promoted[..k]);
      assert Set(promoted[..k]) + left' == after || r != Done;
    }

    /** The rollback loop, over the promoted heights from the last to the first. A rollback that
        ends without raising has restored the start exactly if all its looks saw what was there;
        and with working renames it does not raise exactly if it settles. */
    method Rollback(ghost start: Trees, promoted: seq<Height>, ghost half: set<Height>)
      returns (r: Outcome)
      requires Distinct(promoted) && Underway(start, Set(promoted), half) && trees == During(start, Set(promoted), half)
      modifies this
      ensures Kept(start, trees)
      ensures r == Done && half == {} ==> (trees == start <==> Saw(old(looks), Needs(start, promoted)))
      ensures AllFine(old(faults)) ==> r == if Settles(start, promoted, old(looks)) then Done else Raised
      ensures NoCrash(old(faults)) ==> NoCrash(faults) && r != Stopped
      ensures Trouble() + (if r == Raised || (r == Done && !Saw(old(looks), Needs(start, promoted))) then 1 else 0)
              <= old(Trouble())
    {
      var k := |promoted|;
      ghost var left: set<Height>, room := {}, half;
      r := Done;
      assert promoted[..k] == promoted && Set(promoted) + {} == Set(promoted);
      while k > 0
        invariant k <= |promoted| && r == Done
        invariant Remains(start, trees, promoted[..k], left, room)
        invariant half <= room
        invariant StillSees(start, promoted, k, old(looks), looks, left == {} && room == half)
        invariant AllFine(old(faults)) ==> AllFine(faults) && StillSettles(start, promoted, k, old(looks), looks)
        invariant NoCrash(old(faults)) ==> NoCrash(faults)
        invariant Trouble() + (if left == {} && room == half then 0 else 1) <= old(Trouble())
      {
        k := k - 1;
        r, left, room := UndoNext(start, promoted, k, half, left, room, old(looks));
        if r != Done {
          return;
        }
      }
      assert Set(promoted[..0]) + left == left;
      DuringKeeps(start, left, room);
      OnlyThenAtRest(start, left, room);
    }

    /** `_validate_rendition_set` on the attempt. */
    method Validate(heights: seq<Height>) returns (ok: bool)
      ensures ok <==> ValidSet(trees.attempt, heights)
    {
      ok := true;
      for k := 0 to |heights|
        invariant ok && Distinct(heights[..k]) && AllSound(trees.attempt, heights[..k])
      {
        if heights[k] in heights[..k] || heights[k] !in trees.attempt || !trees.attempt[heights[k]].sound {
          var h := heights[k];
          assert h in heights;
          return false;
        }
        assert heights[..k + 1] == heights[..k] + [heights[k]];
      }
      assert heights[..|heights|] == heights;
      ok := heights != [];
    }

    /** `_promote_rendition_directories`. The second validation may fail for reasons of its own;
        `leftovers` are backups that could not be deleted after success. */
    method Promote(heights: seq<Height>, revalidates: bool, leftovers: set<Height>) returns (e: Ending)
      requires trees.backup == map[]
      modifies this
      ensures e.Returned? ==> NewSet(old(trees), trees, heights)
      ensures !e.Returned? ==> Kept(old(trees), trees)
      ensures !ValidSet(old(trees.attempt), heights) ==> e == Failed(false) && trees == old(trees)
      // The rest is for a valid attempt. How far the loop gets decides whether it returns.
      ensures e.Returned? <==> ValidSet(old(trees.attempt), heights) && revalidates &&
                               Loop(old(trees), heights, 0, old(faults), old(looks)).r == Done
      // A failure without a stuck rename leaves the start exactly if the looks of the rollback see.
      ensures e == Failed(false) && ValidSet(old(trees.attempt), heights) ==>
                (trees == old(trees) <==> UndoSees(old(trees), heights, old(faults), old(looks)))
      ensures AllFine(old(faults)) && ValidSet(old(trees.attempt), heights) && !e.Returned? ==>
                var l := Loop(old(trees), heights, 0, old(faults), old(looks));
                e == Failed(!Settles(old(trees), heights[..l.at], l.looks))
      // One thing that goes wrong, be it a rename, a look or the second validation, is undone completely.
      ensures NoCrash(old(faults)) && old(Trouble()) + (if revalidates then 0 else 1) <= 1 ==>
                e.Returned? || (e == Failed(false) && trees == old(trees))
      ensures NoCrash(old(faults)) && old(Trouble()) == 0 && ValidSet(old(trees.attempt), heights) && revalidates ==>
                e.Returned?
    {
      ghost var start := trees;
      var valid := Validate(heights);
      AtRest(start);
      DuringKeeps(start, {}, {});
      if !valid {
        return Failed(false);
      }
      FineStays(start, heights, 0, faults, looks);
      var r, stuck, promoted, half := PromoteAll(start, heights);
      assert promoted == heights[..|promoted|];
      DuringKeeps(start, Set(promoted), half);
      if r == Stopped {
        return Crashed;
      }
      if r == Done && revalidates {
        AllPromoted(start, heights);
        trees := trees.(backup := map h | h in trees.backup && h in leftovers :: trees.backup[h]);
        return Returned;
      }
      e := UndoAll(start, promoted, half, stuck);
    }

    /** The handler of a failed promotion. */
    method UndoAll(ghost start: Trees, promoted: seq<Height>, ghost half: set<Height>, stuck: bool)
      returns (e: Ending)
      requires Distinct(promoted) && Underway(start, Set(promoted), half) && trees == During(start, Set(promoted), half)
      requires !stuck ==> half == {}
      modifies this
      ensures Kept(start, trees) && !e.Returned?
      ensures e == Failed(false) ==> (trees == start <==> Saw(old(looks), Needs(start, promoted)))
      ensures AllFine(old(faults)) && !stuck ==> e == Failed(!Settles(start, promoted, old(looks)))
      ensures NoCrash(old(faults)) && old(Trouble()) == 0 && !stuck ==> e == Failed(false) && trees == start
    {
      var undone := Rollback(start, promoted, half);
      e := if undone == Stopped then Crashed else Failed(stuck || undone == Raised);
    }

    /** `_cleanup_attempt_root`: `isdir` reads an error as no directory, `scandir` raises. */
    method CleanupAttemptRoot(statFails: bool, scanFails: bool)
      modifies this`trees
      ensures trees == Cleaned(old(trees), statFails, scanFails)
    {
      var hasBackups := false;
      if !statFails {
        hasBackups := scanFails || trees.backup != map[];
      }
      if hasBackups {
        return;
      }
      trees := trees.(attempt := map[], backup := map[]);
    }

    /** A whole delivery: promote, and clean the attempt up unless the process stopped. Either the
        new set is in place, or every old directory still exists, except in one case: the look
        at the backups fails while one of them holds the last copy. `mid` is what the promotion
        left to the cleanup. */
    method Deliver(heights: seq<Height>, revalidates: bool, leftovers: set<Height>, statFails: bool, scanFails: bool)
      returns (e: Ending, ghost mid: Trees)
      requires trees.backup == map[]
      modifies this
      ensures e.Returned? ==> NewSet(old(trees), trees, heights)
      ensures !e.Returned? ==> Kept(old(trees), mid) && (OldKept(old(trees), trees) <==>
                                 e.Crashed? || !statFails || AllBack(old(trees), mid))
      ensures e == Failed(false) &&
              (ValidSet(old(trees.attempt), heights) ==> UndoSees(old(trees), heights, old(faults), old(looks))) ==>
                mid == old(trees) && trees.canonical == old(trees).canonical
    {
      ghost var start := trees;
      e := Promote(heights, revalidates, leftovers);
      mid := trees;
      if !e.Returned? {
        CleanupKeeps(start, mid, statFails, scanFails);
      }
      if !e.Crashed? {
        CleanupAttemptRoot(statFails, scanFails);
      }
    }
  }

  lemma AllPromoted(start: Trees, heights: seq<Height>)
    requires Underway(start, Set(heights), {}) && ValidSet(start.attempt, heights)
    ensures NewSet(start, During(start, Set(heights), {}), heights)
  {
  }

  /** With the first k heights to go, it is still open whether all looks will have seen. */
  predicate StillSees(start: Trees, promoted: seq<Height>, k: nat, first: seq<bool>, looks: seq<bool>, clean: bool)
    requires k <= |promoted|
  {
    Saw(first, Needs(start, promoted)) <==> clean && Saw(looks, Needs(start, promoted[..k]))
  }

  predicate StillSettles(start: Trees, promoted: seq<Height>, k: nat, first: seq<bool>, looks: seq<bool>)
    requires k <= |promoted|
  {
    Settles(start, promoted, first) <==> Settles(start, promoted[..k], looks)
  }

  /** One height less to undo. */
  lemma OneFewer(start: Trees, promoted: seq<Height>, k: nat, first: seq<bool>, looks: seq<bool>, clean: bool)
    requires k < |promoted|
    ensures var n := Need(start, promoted[k]);
            && (StillSees(start, promoted, k + 1, first, looks, clean) ==>
                  StillSees(start, promoted, k, first, Later(looks, n), clean && Saw(looks, n)))
            && (StillSettles(start, promoted, k + 1, first, looks) ==>
                  if Settled(start, promoted[k], looks) then StillSettles(start, promoted, k, first, Later(looks, n))
                  else !Settles(start, promoted, first))
  {
    assert promoted[..k + 1][..k] == promoted[..k];
    SawSplits(looks, Need(start, promoted[k]), Needs(start, promoted[..k]));
  }

  lemma OneOrTwoLooks(looks: seq<bool>)
    ensures Saw(looks, 1) <==> Sees(looks)
    ensures Saw(looks, 2) <==> Sees(looks) && Sees(Rest(looks))
    ensures Later(looks, 1) == Rest(looks) && Later(looks, 2) == Rest(Rest(looks))
  {
    assert Saw(Rest(looks), 1) <==> Sees(Rest(looks)) && Saw(Rest(Rest(looks)), 0);
    assert Later(Rest(looks), 1) == Later(Rest(Rest(looks)), 0);
  }

  lemma {:induction false} SawSplits(looks: seq<bool>, m: nat, n: nat)
    ensures Saw(looks, m + n) <==> Saw(looks, m) && Saw(Later(looks, m), n)
    decreases m
  {
    if m > 0 {
      SawSplits(Rest(looks), m - 1, n);
    }
  }

  /** Where no rename fails, none fails later and the loop gets stuck nowhere. */
  lemma {:induction false} FineStays(start: Trees, heights: seq<Height>, at: nat, faults: seq<Fault>, looks: seq<bool>)
    requires at <= |heights|
    ensures AllFine(faults) ==>
              var l := Loop(start, heights, at, faults, looks); AllFine(l.faults) && !l.stuck && l.r != Stopped
    decreases |heights| - at
  {
    if at < |heights| {
      var t := Turn(at, heights[at] in start.canonical, faults, looks);
      FineTurn(at, heights[at] in start.canonical, faults, looks);
      FineStays(start, heights, at + 1, t.faults, t.looks);
    }
  }

  lemma FineTurn(at: nat, there: bool, faults: seq<Fault>, looks: seq<bool>)
    ensures AllFine(faults) ==>
              var t := Turn(at, there, faults, looks); AllFine(t.faults) && !t.stuck && t.r != Stopped
  {
  }

  /** A look that misses: every rename works, the second validation fails, and the rollback cannot
      see the backup, or the new directory where there was no old one. */
  function MissingLooks(start: Trees, h: Height): seq<bool> {
    if h in start.canonical then [true, true, false] else [true, false]
  }

  lemma MissingLooksMiss(start: Trees, h: Height)
    ensures var looks := MissingLooks(start, h); var l := Loop(start, [h], 0, [], looks);
            l.r == Done && !UndoSees(start, [h], [], looks) && Settles(start, [h][..l.at], l.looks)
  {
    var looks := MissingLooks(start, h);
    var there := h in start.canonical;
    var t := Turn(0, there, [], looks);
    assert t == Reached(0, Done, false, [], looks[1..]);
    assert Loop(start, [h], 0, [], looks) == Loop(start, [h], 1, [], looks[1..]);
    assert [h][..1] == [h] && [h][..0] == [];
    assert Needs(start, [h]) == Need(start, h) + Needs(start, []);
    OneOrTwoLooks(looks[1..]);
    assert looks[1..] == if there then [true, false] else [false];
  }

  /** So the promotion fails as if it had been undone, and it has not: for every height, with or
      without an old directory. */
  method UndoneInPart(start: Trees, h: Height) returns (d: Disk, e: Ending)
    requires start.backup == map[] && h in start.attempt && start.attempt[h].sound
    ensures fresh(d) && e == Failed(false) && d.trees != start && Kept(start, d.trees)
  {
    d := new Disk(start, [], MissingLooks(start, h));
    MissingLooksMiss(start, h);
    assert ValidSet(start.attempt, [h]);
    e := d.Promote([h], false, {});
  }

  /** What is left to undo: these heights, those in `left`, and the backups of those in `room`. */
  predicate Remains(start: Trees, now: Trees, heights: seq<Height>, left: set<Height>, room: set<Height>) {
    && Set(heights) !! left && Underway(start, Set(heights) + left, room)
    && now == During(start, Set(heights) + left, room)
  }

  function Cleaned(t: Trees, statFails: bool, scanFails: bool): Trees {
    if !statFails && (scanFails || t.backup != map[]) then t else t.(attempt := map[], backup := map[])
  }

  /** Every old directory is in its canonical place. */
  ghost predicate AllBack(start: Trees, now: Trees) {
    forall h :: h in start.canonical ==> h in now.canonical && now.canonical[h] == start.canonical[h]
  }

  /** What the cleanup does to the old directories, wherever a promotion has left them. */
  lemma CleanupKeeps(start: Trees, mid: Trees, statFails: bool, scanFails: bool)
    requires Kept(start, mid)
    ensures OldKept(start, mid)
    ensures OldKept(start, Cleaned(mid, statFails, scanFails)) <==> !statFails || AllBack(start, mid)
  {
    KeptKeepsOld(start, mid);
    var end := Cleaned(mid, statFails, scanFails);
    if statFails || mid.backup == map[] {
      if end != mid {
        WithoutBackups(start, end);
      }
      assert AllBack(start, end) <==> AllBack(start, mid);
      if mid.backup == map[] {
        WithoutBackups(start, mid);
      }
    }
  }

  lemma KeptKeepsOld(start: Trees, now: Trees)
    requires Kept(start, now)
    ensures OldKept(start, now)
  {
    assert forall h :: h in start.canonical ==> KeptAt(start, now, h);
  }

  lemma WithoutBackups(start: Trees, now: Trees)
    requires now.backup == map[]
    ensures OldKept(start, now) <==> AllBack(start, now)
  {
  }

  /** The state a promotion leaves whose renames make room, fail, and fail to go back: everything
      is still there, and a cleanup whose first look fails removes the last copy. */
  lemma LastCopyCanGo(start: Trees, h: Height, scanFails: bool)
    requires Ready(start, {h}) && h in start.canonical
    ensures Underway(start, {}, {h})
    ensures var mid := During(start, {}, {h});
            && Kept(start, mid) && OldKept(start, Cleaned(mid, false, scanFails))
            && !OldKept(start, Cleaned(mid, true, scanFails))
  {
    DuringKeeps(start, {}, {h});
    var mid := During(start, {}, {h});
    assert h in mid.backup;
    assert forall k :: k in start.canonical ==> KeptAt(start, mid, k);
    assert h !in Cleaned(mid, true, scanFails).canonical;
  }

  predicate ValidSet(attempt: map<Height, Tree>, heights: seq<Height>) {
    heights != [] && Distinct(heights) && AllSound(attempt, heights)
  }

  predicate AllSound(attempt: map<Height, Tree>, heights: seq<Height>) {
    forall k :: 0 <= k < |heights| ==> heights[k] in attempt && attempt[heights[k]].sound
  }

  /** Exactly the delivered heights are new, and complete. */
  ghost predicate NewSet(start: Trees, now: Trees, heights: seq<Height>) {
    && ValidSet(start.attempt, heights)
    && now.canonical.Keys == start.canonical.Keys + Set(heights)
    && forall h :: h in now.canonical ==>
                     now.canonical[h] == if h in heights then start.attempt[h] else start.canonical[h]
  }

  function Set(heights: seq<Height>): set<Height> {
    set h | h in heights
  }

  predicate Distinct(heights: seq<Height>) {
    forall i, j :: 0 <= i < j < |heights| ==> heights[i] != heights[j]
  }

  lemma NextHeight(heights: seq<Height>, k: nat)
    requires k < |heights| && Distinct(heights)
    ensures heights[k] !in Set(heights[..k])
    ensures Set(heights[..k]) + {heights[k]} == Set(heights[..k + 1]) <= Set(heights)
    ensures heights[..k + 1] == heights[..k] + [heights[k]]
  {
  }
}
