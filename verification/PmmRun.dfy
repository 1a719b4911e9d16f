/** Runs of the physical page allocator: any sequence of allocations and frees
    by any tasks, each freeing only frames it was given. */
module PmmRun {
  import opened FreeList

  /** Task t's counter and, as history, the frames it was given and still holds. */
  datatype Holder = Holder(allocmem: int, owned: set<nat>)

  datatype State = State(list: seq<Entry>, freepages: int, totalpages: int, tasks: seq<Holder>)

  datatype Call =
    | Alloc(t: nat, n: nat)
    | AllocSlot(t: nat)
    | Free(t: nat, base: nat, n: nat)

  /** Task t's holding and the list replaced. */
  function Swapped(st: State, t: nat, h: Holder, list: seq<Entry>, freepages: int): State
    requires t < |st.tasks|
  {
    State(list, freepages, st.totalpages, st.tasks[t := h])
  }

  function Credited(h: Holder, b: nat, n: nat): Holder {
    Holder(h.allocmem + n, h.owned + Block(b, n))
  }

  function Step(st: State, c: Call): State
    requires c.t < |st.tasks|
  {
    match c
    case Alloc(t, n) =>
      var (b, list) := AllocList(st.list, n);
      if b == 0 then st.(list := list) else Swapped(st, t, Credited(st.tasks[t], b, n), list, st.freepages - n)
    case AllocSlot(t) =>
      var (b, list) := SlotList(st.list);
      if FindSlot(st.list, 0) == |st.list| then st else Swapped(st, t, Credited(st.tasks[t], b, SLOT), list, st.freepages - SLOT)
    case Free(t, base, n) =>
      var k := FreedCount(base, n);
      Swapped(st, t, Holder(st.tasks[t].allocmem - k, st.tasks[t].owned - Block(base, n)),
              FreedList(st.list, base, n), st.freepages + k)
  }

  /** Tasks free only frames they own, and no slot is taken in the losing case. */
  ghost predicate Allowed(st: State, c: Call) {
    && c.t < |st.tasks|
    && (c.Free? ==> Block(c.base, c.n) <= st.tasks[c.t].owned)
    && (c.AllocSlot? ==> !SlotLoses(st.list))
  }

  function AllocSum(tasks: seq<Holder>): int {
    if tasks == [] then 0 else AllocSum(tasks[..|tasks| - 1]) + tasks[|tasks| - 1].allocmem
  }

  function Owned(tasks: seq<Holder>): set<nat> {
    if tasks == [] then {} else Owned(tasks[..|tasks| - 1]) + tasks[|tasks| - 1].owned
  }

  /** Every frame the allocator ever managed. */
  function Frames(st: State): set<nat> {
    FreeSet(st.list) + Owned(st.tasks)
  }

  ghost predicate Separate(st: State) {
    && (forall t :: 0 <= t < |st.tasks| ==> st.tasks[t].owned !! FreeSet(st.list))
    && (forall t, u :: 0 <= t < u < |st.tasks| ==> st.tasks[t].owned !! st.tasks[u].owned)
  }

  ghost predicate Inv(st: State) {
    && Canonical(st.list)
    && Separate(st)
    && (forall t :: 0 <= t < |st.tasks| ==> st.tasks[t].allocmem == |st.tasks[t].owned|)
    && 0 !in Owned(st.tasks)
    && st.freepages == TotalSize(st.list)
    && st.totalpages == st.freepages + AllocSum(st.tasks)
  }

  lemma {:induction false} AllocSumSet(tasks: seq<Holder>, t: nat, h: Holder)
    requires t < |tasks|
    ensures AllocSum(tasks[t := h]) == AllocSum(tasks) - tasks[t].allocmem + h.allocmem
  {
    var n := |tasks| - 1;
    if t < n {
      AllocSumSet(tasks[..n], t, h);
      assert tasks[t := h][..n] == tasks[..n][t := h];
    } else {
      assert tasks[t := h][..n] == tasks[..n];
    }
  }

  lemma {:induction false} OwnedMember(tasks: seq<Holder>, f: nat)
    ensures f in Owned(tasks) <==> exists t :: 0 <= t < |tasks| && f in tasks[t].owned
  {
    if tasks != [] {
      var n := |tasks| - 1;
      OwnedMember(tasks[..n], f);
      if t :| 0 <= t < |tasks| && f in tasks[t].owned {
        if t < n { assert f in tasks[..n][t].owned; }
      }
      if t :| 0 <= t < n && f in tasks[..n][t].owned { assert f in tasks[t].owned; }
    }
  }

  /** Task t's holding replaced by h: what all tasks own together. */
  lemma OwnedSet(tasks: seq<Holder>, t: nat, h: Holder)
    requires t < |tasks|
    requires forall u :: 0 <= u < |tasks| && u != t ==> tasks[u].owned !! tasks[t].owned
    ensures Owned(tasks[t := h]) == (Owned(tasks) - tasks[t].owned) + h.owned
  {
    forall f | f in Owned(tasks[t := h]) ensures f in (Owned(tasks) - tasks[t].owned) + h.owned {
      OwnedMember(tasks[t := h], f);
      OwnedMember(tasks, f);
      var u :| 0 <= u < |tasks| && f in tasks[t := h][u].owned;
      if u != t { assert f in tasks[u].owned; }
    }
    forall f | f in (Owned(tasks) - tasks[t].owned) + h.owned ensures f in Owned(tasks[t := h]) {
      OwnedMember(tasks[t := h], f);
      OwnedMember(tasks, f);
      if f in h.owned {
        assert f in tasks[t := h][t].owned;
      } else {
        var u :| 0 <= u < |tasks| && f in tasks[u].owned;
        assert f in tasks[t := h][u].owned;
      }
    }
  }

  lemma OwnedPart(tasks: seq<Holder>, t: nat)
    requires t < |tasks|
    ensures tasks[t].owned <= Owned(tasks)
  {
    forall f | f in tasks[t].owned ensures f in Owned(tasks) { OwnedMember(tasks, f); }
  }

  lemma OthersClear(st: State, t: nat, u: nat)
    requires Separate(st) && t < |st.tasks| && u < |st.tasks| && u != t
    ensures st.tasks[u].owned !! st.tasks[t].owned + FreeSet(st.list)
  {
    if u < t { assert st.tasks[u].owned !! st.tasks[t].owned; } else { assert st.tasks[t].owned !! st.tasks[u].owned; }
  }

  /** One task's holding and the free list change together, frame for frame. */
  lemma Exchange(st: State, t: nat, h: Holder, list: seq<Entry>, freepages: int)
    requires Inv(st) && t < |st.tasks|
    requires Canonical(list) && h.owned !! FreeSet(list)
    requires h.owned + FreeSet(list) == st.tasks[t].owned + FreeSet(st.list)
    requires h.allocmem == |h.owned|
    requires freepages == TotalSize(list)
    requires freepages + h.allocmem == st.freepages + st.tasks[t].allocmem
    ensures Inv(Swapped(st, t, h, list, freepages))
    ensures Frames(Swapped(st, t, h, list, freepages)) == Frames(st)
  {
    forall u | 0 <= u < |st.tasks| && u != t
      ensures st.tasks[u].owned !! st.tasks[t].owned + FreeSet(st.list)
    {
      OthersClear(st, t, u);
    }
    SeparateKept(st, t, h, list);
    FrameKept(st, t, h, list);
    CountsKept(st, t, h, list, freepages);
  }

  lemma CountsKept(st: State, t: nat, h: Holder, list: seq<Entry>, freepages: int)
    requires t < |st.tasks| && h.allocmem == |h.owned|
    requires forall u :: 0 <= u < |st.tasks| ==> st.tasks[u].allocmem == |st.tasks[u].owned|
    requires st.totalpages == st.freepages + AllocSum(st.tasks)
    requires freepages + h.allocmem == st.freepages + st.tasks[t].allocmem
    ensures var st' := Swapped(st, t, h, list, freepages);
            && (forall u :: 0 <= u < |st'.tasks| ==> st'.tasks[u].allocmem == |st'.tasks[u].owned|)
            && st'.totalpages == st'.freepages + AllocSum(st'.tasks)
  {
    AllocSumSet(st.tasks, t, h);
  }

  lemma SeparateKept(st: State, t: nat, h: Holder, list: seq<Entry>)
    requires Separate(st) && t < |st.tasks| && h.owned !! FreeSet(list)
    requires h.owned + FreeSet(list) == st.tasks[t].owned + FreeSet(st.list)
    requires forall u :: 0 <= u < |st.tasks| && u != t ==> st.tasks[u].owned !! st.tasks[t].owned + FreeSet(st.list)
    ensures Separate(st.(list := list, tasks := st.tasks[t := h]))
  {
    forall u | 0 <= u < |st.tasks| && u != t ensures st.tasks[u].owned !! h.owned && st.tasks[u].owned !! FreeSet(list) {
      assert st.tasks[u].owned !! h.owned + FreeSet(list);
    }
  }

  lemma FrameKept(st: State, t: nat, h: Holder, list: seq<Entry>)
    requires t < |st.tasks| && Canonical(st.list) && 0 !in Owned(st.tasks)
    requires h.owned + FreeSet(list) == st.tasks[t].owned + FreeSet(st.list)
    requires forall u :: 0 <= u < |st.tasks| && u != t ==> st.tasks[u].owned !! st.tasks[t].owned + FreeSet(st.list)
    ensures FreeSet(list) + Owned(st.tasks[t := h]) == FreeSet(st.list) + Owned(st.tasks)
    ensures 0 !in Owned(st.tasks[t := h])
  {
    OwnedSet(st.tasks, t, h);
    OwnedPart(st.tasks, t);
    ZeroNeverFree(st.list);
    Rejoined(Owned(st.tasks), st.tasks[t].owned, h.owned, FreeSet(st.list), FreeSet(list));
  }

  lemma ZeroNeverFree(s: seq<Entry>)
    requires Canonical(s)
    ensures 0 !in FreeSet(s)
  {
    FreeMember(s, 0);
  }

  lemma Rejoined(all: set<nat>, x: set<nat>, x': set<nat>, y: set<nat>, y': set<nat>)
    requires x <= all && x' + y' == x + y
    ensures y' + ((all - x) + x') == y + all
    ensures 0 !in all && 0 !in y ==> 0 !in (all - x) + x'
  {
    assert 0 in x' ==> 0 in x + y;
  }

  lemma TaskBooks(st: State, t: nat)
    requires Inv(st) && t < |st.tasks|
    ensures Canonical(st.list)
    ensures st.tasks[t].owned !! FreeSet(st.list) && 0 !in st.tasks[t].owned
    ensures st.tasks[t].allocmem == |st.tasks[t].owned|
    ensures st.freepages == TotalSize(st.list)
  {
    OwnedPart(st.tasks, t);
  }

  lemma GrantKeeps(st: State, t: nat, b: nat, n: nat, list: seq<Entry>)
    requires Inv(st) && t < |st.tasks|
    requires Canonical(list) && Block(b, n) <= FreeSet(st.list)
    requires FreeSet(list) == FreeSet(st.list) - Block(b, n)
    ensures Inv(Swapped(st, t, Credited(st.tasks[t], b, n), list, st.freepages - n))
    ensures Frames(Swapped(st, t, Credited(st.tasks[t], b, n), list, st.freepages - n)) == Frames(st)
  {
    hide Inv, Canonical, Frames, Swapped, TotalSize, FreeSet, Block;
    TaskBooks(st, t);
    BlockSize(b, n);
    Moved(st.tasks[t].owned, FreeSet(st.list), Block(b, n));
    SizesDiffer(st.list, list, n);
    Exchange(st, t, Credited(st.tasks[t], b, n), list, st.freepages - n);
  }

  lemma SizesDiffer(s: seq<Entry>, r: seq<Entry>, n: nat)
    requires Canonical(s) && Canonical(r) && |FreeSet(r)| == |FreeSet(s)| - n
    ensures TotalSize(r) == TotalSize(s) - n
  {
    TotalIsFreeCount(s);
    TotalIsFreeCount(r);
  }

  /** The part b of y moved over to the disjoint set x. */
  lemma Moved(x: set<nat>, y: set<nat>, b: set<nat>)
    requires x !! y && b <= y
    ensures x + b !! y - b && (x + b) + (y - b) == x + y
    ensures |x + b| == |x| + |b| && |y - b| == |y| - |b|
  {
  }

  function Debited(h: Holder, b: nat, n: nat): Holder {
    Holder(h.allocmem - n, h.owned - Block(b, n))
  }

  lemma FreeKeeps(st: State, t: nat, base: nat, n: nat)
    requires Inv(st) && t < |st.tasks| && n > 0
    requires Block(base, n) <= st.tasks[t].owned
    ensures base > 0
    ensures Inv(Swapped(st, t, Debited(st.tasks[t], base, n), FreedList(st.list, base, n), st.freepages + n))
    ensures Frames(Swapped(st, t, Debited(st.tasks[t], base, n), FreedList(st.list, base, n), st.freepages + n))
         == Frames(st)
  {
    hide Inv, Canonical, Frames, Swapped, TotalSize, FreedList, FreeSet, Block;
    TaskBooks(st, t);
    assert base in Block(base, n);
    FreedListKeeps(st.list, base, n);
    BlockSize(base, n);
    Moved(FreeSet(st.list), st.tasks[t].owned, Block(base, n));
    SizesDiffer(FreedList(st.list, base, n), st.list, n);
    Exchange(st, t, Debited(st.tasks[t], base, n), FreedList(st.list, base, n), st.freepages + n);
  }

  lemma AllocKeeps(st: State, t: nat, n: nat)
    requires Inv(st) && t < |st.tasks|
    requires AllocList(st.list, n).0 != 0
    ensures Inv(Step(st, Alloc(t, n)))
    ensures Frames(Step(st, Alloc(t, n))) == Frames(st)
  {
    hide Inv, Canonical, Frames, Swapped, Credited, FreeSet, Block, TakeFront;
    TaskBooks(st, t);
    TakeFrontFree(st.list, FindFit(st.list, n, 0), n);
    GrantKeeps(st, t, AllocList(st.list, n).0, n, AllocList(st.list, n).1);
  }

  lemma SlotKeeps(st: State, t: nat)
    requires Inv(st) && t < |st.tasks| && !SlotLoses(st.list)
    requires FindSlot(st.list, 0) < |st.list|
    ensures Inv(Step(st, AllocSlot(t)))
    ensures Frames(Step(st, AllocSlot(t))) == Frames(st)
  {
    hide Inv, Canonical, Frames, Swapped, Credited, FreeSet, Block, TakeSlot, AlignUp, SlotFits, LosesFront;
    TaskBooks(st, t);
    TakeSlotKeeps(st.list, FindSlot(st.list, 0));
    GrantKeeps(st, t, SlotList(st.list).0, SLOT, SlotList(st.list).1);
  }

  lemma FreeStep(st: State, t: nat, base: nat, n: nat)
    requires t < |st.tasks| && base > 0 && n > 0
    ensures Step(st, Free(t, base, n))
         == Swapped(st, t, Debited(st.tasks[t], base, n), FreedList(st.list, base, n), st.freepages + n)
  {
    hide FreedList, Swapped, Block;
  }

  lemma StepUnchanged(st: State, c: Call)
    requires Inv(st) && Allowed(st, c)
    requires c.Alloc? ==> AllocList(st.list, c.n).0 == 0
    requires c.AllocSlot? ==> FindSlot(st.list, 0) == |st.list|
    requires c.Free? ==> c.n == 0
    ensures Step(st, c) == st
  {
    if c.Free? {
      assert st.tasks[c.t].owned - Block(c.base, 0) == st.tasks[c.t].owned;
    }
  }

  /** Every allowed call keeps the invariant and the set of managed frames. */
  lemma StepKeeps(st: State, c: Call)
    requires Inv(st) && Allowed(st, c)
    ensures Inv(Step(st, c))
    ensures Frames(Step(st, c)) == Frames(st)
  {
    hide Inv, Frames, Step, AllocList, FindSlot, FindFit, SlotLoses;
    if c.Alloc? && AllocList(st.list, c.n).0 != 0 {
      AllocKeeps(st, c.t, c.n);
    } else if c.AllocSlot? && FindSlot(st.list, 0) < |st.list| {
      SlotKeeps(st, c.t);
    } else if c.Free? && c.n > 0 {
      FreeKeeps(st, c.t, c.base, c.n);
      FreeStep(st, c.t, c.base, c.n);
    } else {
      StepUnchanged(st, c);
    }
  }

  /** Taking a slot keeps the books exactly when it is not in the losing case. */
  lemma SlotStepExact(st: State, t: nat)
    requires Inv(st) && t < |st.tasks|
    ensures Inv(Step(st, AllocSlot(t))) <==> !SlotLoses(st.list)
  {
    if SlotLoses(st.list) {
      TakeSlotExact(st.list, FindSlot(st.list, 0));
    } else {
      StepKeeps(st, AllocSlot(t));
    }
  }

  // ---------------------------------------------------------------- whole runs

  ghost predicate AllowedRun(st: State, cs: seq<Call>)
    decreases |cs|
  {
    cs == [] || (Allowed(st, cs[0]) && AllowedRun(Step(st, cs[0]), cs[1..]))
  }

  ghost function Run(st: State, cs: seq<Call>): State
    requires AllowedRun(st, cs)
    decreases |cs|
  {
    if cs == [] then st else Run(Step(st, cs[0]), cs[1..])
  }

  /** Conservation over every run: the list stays the set of maximal free runs,
      the counters count, and no frame is lost, invented or held twice. */
  lemma {:induction false} RunConserves(st: State, cs: seq<Call>)
    requires Inv(st) && AllowedRun(st, cs)
    ensures Inv(Run(st, cs))
    ensures Frames(Run(st, cs)) == Frames(st)
    ensures Run(st, cs).totalpages == st.totalpages
    ensures 0 <= Run(st, cs).freepages == |FreeSet(Run(st, cs).list)| <= st.totalpages
    decreases |cs|
  {
    if cs == [] {
      TotalIsFreeCount(st.list);
      AllocSumNat(st.tasks);
    } else {
      StepKeeps(st, cs[0]);
      assert Step(st, cs[0]).totalpages == st.totalpages;
      RunConserves(Step(st, cs[0]), cs[1..]);
    }
  }

  lemma {:induction false} AllocSumNat(tasks: seq<Holder>)
    requires forall t :: 0 <= t < |tasks| ==> tasks[t].allocmem >= 0
    ensures AllocSum(tasks) >= 0
  {
    if tasks != [] { AllocSumNat(tasks[..|tasks| - 1]); }
  }
}
