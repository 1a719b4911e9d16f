/** Runs of the page allocator in which the slot search loses pages: what is lost is
    lost, but no frame is ever given to two tasks. */
module Losses {
  import opened FreeList
  import opened PmmRun

  // ---------------------------------------------------------------- the list

  predicate Clear(a: Entry, b: Entry) {
    a.size == 0 || b.size == 0 || a.End() <= b.base || b.End() <= a.base
  }

  /** What is left of the canonical form: runs may touch and may be empty. */
  ghost predicate Disjoint(s: seq<Entry>) {
    && (forall i :: 0 <= i < |s| ==> s[i].base > 0)
    && (forall i, j :: 0 <= i < j < |s| ==> Clear(s[i], s[j]))
  }

  lemma CanonicalDisjoint(s: seq<Entry>)
    requires Canonical(s)
    ensures Disjoint(s)
  {
    forall i, j | 0 <= i < j < |s| ensures Clear(s[i], s[j]) { assert Apart(s[i], s[j]); }
  }

  lemma ClearPair(s: seq<Entry>, i: nat, k: nat)
    requires Disjoint(s) && i < |s| && k < |s| && i != k
    ensures Clear(s[i], s[k]) && Clear(s[k], s[i])
  {
    if i < k { assert Clear(s[i], s[k]); } else { assert Clear(s[k], s[i]); }
  }

  /** Entry i replaced by others within it. */
  lemma Narrowed(s: seq<Entry>, i: nat, es: seq<Entry>)
    requires Disjoint(s) && i < |s| && Disjoint(es)
    requires forall k :: 0 <= k < |es| ==> es[k].size == 0 || (s[i].base <= es[k].base && es[k].End() <= s[i].End())
    ensures Disjoint(s[..i] + es + s[i + 1..])
  {
    var t := s[..i] + es + s[i + 1..];
    forall k | 0 <= k < |t| ensures t[k].base > 0 {
      if k >= i + |es| { assert t[k] == s[k - |es| + 1]; }
    }
    forall j, k | 0 <= j < k < |t| ensures Clear(t[j], t[k]) {
      var x := if j < i then j else if j < i + |es| then i else j - |es| + 1;
      var y := if k < i then k else if k < i + |es| then i else k - |es| + 1;
      if x != y {
        ClearPair(s, x, y);
      } else {
        assert Clear(es[j - i], es[k - i]);
      }
    }
  }

  lemma RestDisjoint(s: seq<Entry>, i: nat)
    requires Disjoint(s) && i < |s|
    ensures Disjoint(Removed(s, i)) && FreeSet(Removed(s, i)) == FreeSet(s) - Block(s[i].base, s[i].size)
  {
    Narrowed(s, i, []);
    assert Removed(s, i) == s[..i] + [] + s[i + 1..];
    hide Disjoint, Removed, FreeSet;
    EntryAndRest(s, i);
    forall f | f in FreeSet(Removed(s, i)) ensures f !in Block(s[i].base, s[i].size) { NotAmong(s, i, f); }
  }

  lemma NotAmong(s: seq<Entry>, i: nat, f: nat)
    requires Disjoint(s) && i < |s| && f in FreeSet(Removed(s, i))
    ensures f !in Block(s[i].base, s[i].size)
  {
    hide FreeSet, Disjoint;
    var k := FreeAt(Removed(s, i), f);
    var k' := if k < i then k else k + 1;
    assert s[k'] == Removed(s, i)[k];
    ClearPair(s, i, k');
  }

  lemma FrontTaken(s: seq<Entry>, i: nat, n: nat)
    requires Disjoint(s) && i < |s| && s[i].size >= n > 0
    ensures Disjoint(TakeFront(s, i, n)) && Block(s[i].base, n) <= FreeSet(s)
    ensures FreeSet(TakeFront(s, i, n)) == FreeSet(s) - Block(s[i].base, n)
  {
    hide Removed;
    RestDisjoint(s, i);
    EntryFree(s, i);
    CutBlocks(s[i].base, s[i].size, s[i].base, n);
    EntryAndRest(s, i);
    if s[i].size > n { Shortened(s, i, Entry(s[i].base + n, s[i].size - n)); }
  }

  lemma Shortened(s: seq<Entry>, i: nat, e: Entry)
    requires Disjoint(s) && i < |s| && s[i].base <= e.base && e.End() <= s[i].End() && e.base > 0
    ensures Disjoint(s[i := e]) && FreeSet(s[i := e]) == FreeSet(Removed(s, i)) + Block(e.base, e.size)
  {
    hide Removed, Block;
    Narrowed(s, i, [e]);
    assert s[i := e] == s[..i] + [e] + s[i + 1..];
    UpdatedFree(s, i, e);
  }

  /** A slot taken, in the losing case too. */
  lemma SlotTaken(s: seq<Entry>, i: nat)
    requires Disjoint(s) && i < |s| && SlotFits(s[i])
    ensures Disjoint(TakeSlot(s, i)) && AlignUp(s[i].base) > 0 && Block(AlignUp(s[i].base), SLOT) <= FreeSet(s)
    ensures FreeSet(TakeSlot(s, i)) <= FreeSet(s) - Block(AlignUp(s[i].base), SLOT)
  {
    var b := AlignUp(s[i].base);
    if b == s[i].base {
      FrontTaken(s, i, SLOT);
    } else {
      RestDisjoint(s, i);
      EntryFree(s, i);
      CutBlocks(s[i].base, s[i].size, b, SLOT);
      if LosesFront(s[i]) { FrontLost(s, i); } else { MiddleTaken(s, i); }
    }
  }

  lemma FrontLost(s: seq<Entry>, i: nat)
    requires Disjoint(s) && i < |s| && SlotFits(s[i]) && LosesFront(s[i])
    ensures Disjoint(TakeSlot(s, i)) && FreeSet(TakeSlot(s, i)) <= FreeSet(Removed(s, i))
  {
    var e := Entry(AlignUp(s[i].base) + SLOT, 0);
    LoseFrontEntries(s, i);
    Narrowed(s, i, [e]);
    assert s[i := e] == s[..i] + [e] + s[i + 1..];
    UpdatedFree(s, i, e);
  }

  lemma MiddleTaken(s: seq<Entry>, i: nat)
    requires Disjoint(s) && i < |s| && SlotFits(s[i]) && !LosesFront(s[i]) && AlignUp(s[i].base) != s[i].base
    ensures var b := AlignUp(s[i].base);
            Disjoint(TakeSlot(s, i))
            && FreeSet(TakeSlot(s, i)) == FreeSet(Removed(s, i)) + (Block(s[i].base, s[i].size) - Block(b, SLOT))
  {
    TakeSlotCuts(s, i);
    Middle(s, i, AlignUp(s[i].base));
  }

  lemma Middle(s: seq<Entry>, i: nat, b: nat)
    requires Disjoint(s) && i < |s| && s[i].base < b && b + SLOT < s[i].End()
    ensures Disjoint(CutOut(s, i, b, SLOT))
    ensures FreeSet(CutOut(s, i, b, SLOT)) == FreeSet(Removed(s, i)) + (Block(s[i].base, s[i].size) - Block(b, SLOT))
  {
    hide Block, Removed, CutOut;
    var lo, hi := Entry(s[i].base, b - s[i].base), Entry(b + SLOT, s[i].End() - (b + SLOT));
    Narrowed(s, i, [lo, hi]);
    CutIs(s, i, b);
    hide Disjoint, FreeSet;
    ReplacedFree(s, i, [lo, hi]);
    PairFree(lo, hi);
    CutBlocks(s[i].base, s[i].size, b, SLOT);
  }

  lemma CutIs(s: seq<Entry>, i: nat, b: nat)
    requires i < |s| && s[i].base < b && b + SLOT < s[i].End()
    ensures CutOut(s, i, b, SLOT)
         == s[..i] + [Entry(s[i].base, b - s[i].base), Entry(b + SLOT, s[i].End() - (b + SLOT))] + s[i + 1..]
  {
  }

  lemma AsideOf(s: seq<Entry>, base: nat, n: nat, k: nat)
    requires n > 0 && k < |s| && s[k].size > 0 && Block(base, n) !! FreeSet(s)
    ensures s[k].End() <= base || base + n <= s[k].base
  {
    EntryFree(s, k);
    if s[k].base <= base { assert base in Block(base, n); } else { assert s[k].base in Block(s[k].base, s[k].size); }
  }

  /** A block given back. */
  lemma BlockReturned(s: seq<Entry>, base: nat, n: nat)
    requires Disjoint(s) && base > 0 && n > 0 && Block(base, n) !! FreeSet(s)
    ensures Disjoint(FreedList(s, base, n)) && FreeSet(FreedList(s, base, n)) == FreeSet(s) + Block(base, n)
  {
    hide Disjoint, Meets, Merged;
    FreedListOf(s, base, n);
    GrownFree(s, base, n);
    GrownDisjoint(s, base, n);
    var i, g := FindTouch(s, base, base + n, 0), Grown(s, base, n, base + n);
    NotItself(g[i]);
    MergedFree(g, i);
    MergedDisjoint(g, i);
  }

  lemma NotItself(e: Entry)
    requires e.size > 0
    ensures !Meets(e, e)
  {
  }

  lemma GrownDisjoint(s: seq<Entry>, base: nat, n: nat)
    requires Disjoint(s) && base > 0 && n > 0 && Block(base, n) !! FreeSet(s)
    ensures Disjoint(Grown(s, base, n, base + n)) && Grown(s, base, n, base + n)[FindTouch(s, base, base + n, 0)].size > 0
  {
    var i, g := FindTouch(s, base, base + n, 0), Grown(s, base, n, base + n);
    forall k | 0 <= k < |s| && k != i ensures g[k] == s[k] && Clear(g[i], g[k]) && Clear(g[k], g[i]) {
      if s[k].size > 0 { AsideOf(s, base, n, k); }
      if i < |s| { ClearPair(s, i, k); }
    }
    forall j, k | 0 <= j < k < |g| ensures Clear(g[j], g[k]) {
      if j != i && k != i { assert Clear(s[j], s[k]); }
    }
  }

  lemma MergedDisjoint(g: seq<Entry>, i: nat)
    requires Disjoint(g) && i < |g| && g[i].size > 0 && FindMeet(g, i, 0) != i
    ensures Disjoint(Merged(g, i))
  {
    var j := FindMeet(g, i, 0);
    if j < |g| {
      var e := Joined(g[i], g[j]);
      forall k | 0 <= k < |g| && k != i && k != j ensures Clear(e, g[k]) && Clear(g[k], e) {
        ClearPair(g, i, k);
        ClearPair(g, j, k);
        ClearPair(g, i, j);
      }
      JoinedDisjoint(g, i, j, e);
    }
  }

  lemma JoinedDisjoint(g: seq<Entry>, i: nat, j: nat, e: Entry)
    requires Disjoint(g) && i < |g| && j < |g| && i != j && e.base > 0
    requires forall k :: 0 <= k < |g| && k != i && k != j ==> Clear(e, g[k]) && Clear(g[k], e)
    ensures Disjoint(Removed(g[i := e], j))
  {
    var m := Removed(g[i := e], j);
    forall k | 0 <= k < |m| ensures m[k] == g[i := e][if k < j then k else k + 1] {}
    forall x, y | 0 <= x < y < |m| ensures Clear(m[x], m[y]) {
      var x', y' := if x < j then x else x + 1, if y < j then y else y + 1;
      if x' != i && y' != i { assert Clear(g[x'], g[y']); }
    }
  }

  // ---------------------------------------------------------------- the calls

  /** No frame is free and held, or held twice; the tasks' counters are right, and the
      allocator's counter is not below what is free. */
  ghost predicate Kept(st: State) {
    && Disjoint(st.list)
    && Separate(st)
    && (forall t :: 0 <= t < |st.tasks| ==> st.tasks[t].allocmem == |st.tasks[t].owned|)
    && 0 !in Owned(st.tasks)
    && |FreeSet(st.list)| <= st.freepages
    && st.totalpages == st.freepages + AllocSum(st.tasks)
  }

  lemma InvKept(st: State)
    requires Inv(st)
    ensures Kept(st)
  {
    CanonicalDisjoint(st.list);
    TotalIsFreeCount(st.list);
  }

  /** Tasks free only frames they own; slots are taken in any case. */
  ghost predicate Fair(st: State, c: Call) {
    c.t < |st.tasks| && (c.Free? ==> Block(c.base, c.n) <= st.tasks[c.t].owned)
  }

  /** One task's holding and the list change together; frames may drop out. */
  lemma Reshuffled(st: State, t: nat, h: Holder, list: seq<Entry>, freepages: int)
    requires Kept(st) && t < |st.tasks| && Disjoint(list) && h.owned !! FreeSet(list)
    requires h.owned + FreeSet(list) <= st.tasks[t].owned + FreeSet(st.list) && h.allocmem == |h.owned|
    requires |FreeSet(list)| <= freepages && freepages + h.allocmem == st.freepages + st.tasks[t].allocmem
    ensures Kept(Swapped(st, t, h, list, freepages)) && Frames(Swapped(st, t, h, list, freepages)) <= Frames(st)
  {
    hide Disjoint, FreeSet, AllocSum, Block;
    forall u | 0 <= u < |st.tasks| && u != t
      ensures st.tasks[u].owned !! st.tasks[t].owned + FreeSet(st.list)
      ensures st.tasks[u].owned !! h.owned && st.tasks[u].owned !! FreeSet(list)
    {
      OthersClear(st, t, u);
      assert st.tasks[u].owned !! h.owned + FreeSet(list);
    }
    hide Separate;
    OwnedSet(st.tasks, t, h);
    OwnedPart(st.tasks, t);
    NothingAtZero(st.list);
    SplitUp(st, t, h, list);
    CountsKept(st, t, h, list, freepages);
  }

  lemma SplitUp(st: State, t: nat, h: Holder, list: seq<Entry>)
    requires Separate(st) && t < |st.tasks| && h.owned !! FreeSet(list)
    requires forall u :: 0 <= u < |st.tasks| && u != t ==> st.tasks[u].owned !! h.owned && st.tasks[u].owned !! FreeSet(list)
    ensures Separate(st.(list := list, tasks := st.tasks[t := h]))
  {
    hide FreeSet;
  }

  lemma NothingAtZero(s: seq<Entry>)
    requires Disjoint(s)
    ensures 0 !in FreeSet(s)
  {
    FreeMember(s, 0);
  }

  lemma TaskKept(st: State, t: nat)
    requires Kept(st) && t < |st.tasks|
    ensures Disjoint(st.list) && st.tasks[t].owned !! FreeSet(st.list) && 0 !in st.tasks[t].owned
    ensures st.tasks[t].allocmem == |st.tasks[t].owned| && |FreeSet(st.list)| <= st.freepages
  {
    OwnedPart(st.tasks, t);
  }

  lemma Granted(st: State, t: nat, b: nat, n: nat, list: seq<Entry>)
    requires Kept(st) && t < |st.tasks| && Disjoint(list)
    requires Block(b, n) <= FreeSet(st.list) && FreeSet(list) <= FreeSet(st.list) - Block(b, n)
    ensures var next := Swapped(st, t, Credited(st.tasks[t], b, n), list, st.freepages - n);
            Kept(next) && Frames(next) <= Frames(st)
  {
    hide Kept, Disjoint, Frames, Swapped, FreeSet, Block;
    TaskKept(st, t);
    BlockSize(b, n);
    Handed(st.tasks[t].owned, FreeSet(st.list), Block(b, n), FreeSet(list));
    Reshuffled(st, t, Credited(st.tasks[t], b, n), list, st.freepages - n);
  }

  /** The part b of y handed to the disjoint set x, with z left of y. */
  lemma Handed(x: set<nat>, y: set<nat>, b: set<nat>, z: set<nat>)
    requires x !! y && b <= y && z <= y - b
    ensures x + b !! z && (x + b) + z <= x + y
    ensures |x + b| == |x| + |b| && |z| <= |y| - |b|
  {
    Moved(x, y, b);
    assert y - b == z + (y - b - z);
  }

  lemma GaveBack(st: State, t: nat, base: nat, n: nat)
    requires Kept(st) && t < |st.tasks| && n > 0 && Block(base, n) <= st.tasks[t].owned
    ensures Kept(Step(st, Free(t, base, n))) && Frames(Step(st, Free(t, base, n))) <= Frames(st)
  {
    hide Kept, Disjoint, Frames, Swapped, FreedList, FreeSet, Block;
    TaskKept(st, t);
    assert base in Block(base, n);
    BlockReturned(st.list, base, n);
    BlockSize(base, n);
    Moved(FreeSet(st.list), st.tasks[t].owned, Block(base, n));
    Reshuffled(st, t, Debited(st.tasks[t], base, n), FreedList(st.list, base, n), st.freepages + n);
    FreeStep(st, t, base, n);
  }

  lemma StandsStill(st: State, c: Call)
    requires Fair(st, c)
    requires c.Alloc? ==> AllocList(st.list, c.n) == (0, st.list)
    requires c.AllocSlot? ==> FindSlot(st.list, 0) == |st.list|
    requires c.Free? ==> c.n == 0
    ensures Step(st, c) == st
  {
    if c.Free? { assert st.tasks[c.t].owned - Block(c.base, 0) == st.tasks[c.t].owned; }
  }

  lemma AllocRefused(s: seq<Entry>, n: nat)
    requires Disjoint(s) && AllocList(s, n).0 == 0
    ensures AllocList(s, n).1 == s
  {
  }

  /** Every call keeps this, whatever the slot search loses; frames are lost at most. */
  lemma StepSafe(st: State, c: Call)
    requires Kept(st) && Fair(st, c)
    ensures Kept(Step(st, c)) && Frames(Step(st, c)) <= Frames(st)
  {
    hide Disjoint, Separate, Frames, TakeFront, TakeSlot, SlotFits, FreedList, Block, FreeSet;
    match c
    case Alloc(t, n) =>
      if AllocList(st.list, n).0 != 0 {
        FrontTaken(st.list, FindFit(st.list, n, 0), n);
        Granted(st, t, AllocList(st.list, n).0, n, AllocList(st.list, n).1);
      } else {
        AllocRefused(st.list, n);
      }
    case AllocSlot(t) =>
      if FindSlot(st.list, 0) < |st.list| {
        SlotTaken(st.list, FindSlot(st.list, 0));
        Granted(st, t, SlotList(st.list).0, SLOT, SlotList(st.list).1);
      }
    case Free(t, base, n) =>
      if n > 0 { GaveBack(st, t, base, n); } else { StandsStill(st, c); }
  }

  // ---------------------------------------------------------------- runs

  ghost predicate FairRun(st: State, cs: seq<Call>)
    decreases |cs|
  {
    cs == [] || (Fair(st, cs[0]) && FairRun(Step(st, cs[0]), cs[1..]))
  }

  ghost function After(st: State, cs: seq<Call>): State
    requires FairRun(st, cs)
    decreases |cs|
  {
    if cs == [] then st else After(Step(st, cs[0]), cs[1..])
  }

  lemma {:induction false} RunSafe(st: State, cs: seq<Call>)
    requires Kept(st) && FairRun(st, cs)
    ensures Kept(After(st, cs)) && Frames(After(st, cs)) <= Frames(st)
    decreases |cs|
  {
    hide Kept, Step, Frames;
    if cs != [] {
      StepSafe(st, cs[0]);
      RunSafe(Step(st, cs[0]), cs[1..]);
    }
  }

  /** A block or a slot handed out at any point of any such run was free, and no task
      holds any of it. */
  lemma BlocksNeverOverlap(st: State, cs: seq<Call>, n: nat, t: nat)
    requires Inv(st) && FairRun(st, cs) && t < |After(st, cs).tasks|
    ensures var now := After(st, cs); var (b, rest) := AllocList(now.list, n);
            b != 0 ==> Block(b, n) <= FreeSet(now.list) && Block(b, n) !! now.tasks[t].owned
    ensures var now := After(st, cs); var (b, rest) := SlotList(now.list);
            b != 0 ==> Block(b, SLOT) <= FreeSet(now.list) && Block(b, SLOT) !! now.tasks[t].owned
  {
    var now := After(st, cs);
    InvKept(st);
    RunSafe(st, cs);
    hide Kept, TakeFront, TakeSlot, Block, FreeSet;
    TaskKept(now, t);
    if AllocList(now.list, n).0 != 0 { FrontTaken(now.list, FindFit(now.list, n, 0), n); }
    if SlotList(now.list).0 != 0 { SlotTaken(now.list, FindSlot(now.list, 0)); }
  }
}
