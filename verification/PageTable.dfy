/** The page tables of one 512G window.  An entry is found by its level and its
    number within the window: L1(i) covers 1G, L2(m) covers 2M, L3(v) one page.
    Addresses are page numbers. */
module PageTable {
  import opened FreeList
  import opened Requests

  datatype Key = L1(i: nat) | L2(m: nat) | L3(v: nat)

  /** A present entry.  A shared frame belongs to somebody else. */
  datatype Pte = Table(frame: nat) | Page(frame: nat, shared: bool) | Slot(frame: nat, shared: bool)

  type Tree = map<Key, Pte>

  const PAGES: nat := 512 * 512 * 512
  const GIG: nat := 512 * 512

  ghost predicate Placed(t: Tree, k: Key)
    requires k in t
  {
    match k
    case L1(i) => i < 512 && t[k].Table?
    case L2(m) => m < GIG && !t[k].Page? && L1(m / 512) in t
    case L3(v) => v < PAGES && t[k].Page? && L2(v / 512) in t && t[L2(v / 512)].Table?
  }

  ghost predicate Shaped(t: Tree) {
    forall k :: k in t ==> Placed(t, k)
  }

  // ---------------------------------------------------------------- translation

  datatype Target = Unmapped | To(frame: nat, shared: bool)

  function Translate(t: Tree, v: nat): Target {
    if L2(v / 512) in t && t[L2(v / 512)].Slot? then To(t[L2(v / 512)].frame + v % 512, t[L2(v / 512)].shared)
    else if L3(v) in t && t[L3(v)].Page? then To(t[L3(v)].frame, t[L3(v)].shared)
    else Unmapped
  }

  // ---------------------------------------------------------------- what entries weigh

  /** The pages an entry takes from the allocator. */
  function OwnSize(e: Pte): nat {
    match e
    case Table(_) => 1
    case Page(_, shared) => if shared then 0 else 1
    case Slot(_, shared) => if shared then 0 else SLOT
  }

  function LinkSize(e: Pte): nat {
    match e
    case Table(_) => 0
    case Page(_, shared) => if shared then 1 else 0
    case Slot(_, shared) => if shared then SLOT else 0
  }

  ghost function OwnSum(t: Tree): nat
    decreases |t|
  {
    if t == map[] then 0
    else
      var k :| k in t;
      OwnSize(t[k]) + OwnSum(t - {k})
  }

  ghost function LinkSum(t: Tree): nat
    decreases |t|
  {
    if t == map[] then 0
    else
      var k :| k in t;
      LinkSize(t[k]) + LinkSum(t - {k})
  }

  lemma {:induction false} SumRemove(t: Tree, k: Key)
    requires k in t
    ensures OwnSum(t) == OwnSize(t[k]) + OwnSum(t - {k})
    ensures LinkSum(t) == LinkSize(t[k]) + LinkSum(t - {k})
    decreases |t|
  {
    OwnRemove(t, k);
    LinkRemove(t, k);
  }

  lemma {:induction false} OwnRemove(t: Tree, k: Key)
    requires k in t
    ensures OwnSum(t) == OwnSize(t[k]) + OwnSum(t - {k})
    decreases |t|
  {
    var j :| j in t && OwnSum(t) == OwnSize(t[j]) + OwnSum(t - {j});
    if j != k {
      OwnRemove(t - {j}, k);
      OwnRemove(t - {k}, j);
      assert t - {j} - {k} == t - {k} - {j};
    }
  }

  lemma {:induction false} LinkRemove(t: Tree, k: Key)
    requires k in t
    ensures LinkSum(t) == LinkSize(t[k]) + LinkSum(t - {k})
    decreases |t|
  {
    var j :| j in t && LinkSum(t) == LinkSize(t[j]) + LinkSum(t - {j});
    if j != k {
      LinkRemove(t - {j}, k);
      LinkRemove(t - {k}, j);
      assert t - {j} - {k} == t - {k} - {j};
    }
  }

  lemma SumAdd(t: Tree, k: Key, e: Pte)
    requires k !in t
    ensures OwnSum(t[k := e]) == OwnSum(t) + OwnSize(e) && LinkSum(t[k := e]) == LinkSum(t) + LinkSize(e)
  {
    SumRemove(t[k := e], k);
    assert t[k := e] - {k} == t;
  }

  // ---------------------------------------------------------------- frames

  function Frames(e: Pte): set<nat> {
    Block(e.frame, OwnSize(e))
  }

  function AllFrames(t: Tree): set<nat> {
    set k, f | k in t && f in Frames(t[k]) :: f
  }

  /** Entries take frames of their own, none of them free. */
  ghost predicate Owning(t: Tree, free: set<nat>) {
    && (forall k :: k in t ==> Frames(t[k]) !! free)
    && (forall j, k :: j in t && k in t && j != k ==> Frames(t[j]) !! Frames(t[k]))
  }

  /** Frame 0 belongs to nobody. */
  ghost predicate Grounded(t: Tree) {
    forall k :: k in t && OwnSize(t[k]) > 0 ==> t[k].frame > 0
  }

  /** An address space with the free list and the two counters of its task. */
  datatype Mem = Mem(tree: Tree, list: seq<Entry>, allocmem: int, linkmem: int)

  /** The counters stand above a and l by exactly what the entries weigh. */
  ghost predicate Counted(s: Mem, a: int, l: int) {
    && Based(s.list)
    && Grounded(s.tree)
    && s.allocmem == a + OwnSum(s.tree)
    && s.linkmem == l + LinkSum(s.tree)
  }

  /** Free and owned frames make up all, each of them once. */
  ghost predicate Intact(s: Mem, all: set<nat>) {
    && Canonical(s.list)
    && Owning(s.tree, FreeSet(s.list))
    && FreeSet(s.list) + AllFrames(s.tree) == all
  }

  /** What always holds, and what holds until the allocator loses pages. */
  ghost predicate Balanced(s: Mem, a: int, l: int, all: set<nat>, lost: bool) {
    Counted(s, a, l) && (lost || Intact(s, all))
  }

  lemma OwningAdd(t: Tree, free: set<nat>, k: Key, e: Pte)
    requires Owning(t, free) && k !in t && Frames(e) <= free
    ensures Owning(t[k := e], free - Frames(e))
    ensures AllFrames(t[k := e]) == AllFrames(t) + Frames(e)
  {
    hide Block, Frames;
    var t' := t[k := e];
    forall f ensures f in AllFrames(t') <==> f in AllFrames(t) + Frames(e) {
      if f in Frames(e) { assert k in t' && f in Frames(t'[k]); }
      if f in AllFrames(t) {
        var j :| j in t && f in Frames(t[j]);
        assert j in t' && f in Frames(t'[j]);
      }
      if f in AllFrames(t') {
        var j :| j in t' && f in Frames(t'[j]);
        if j != k { assert j in t && f in Frames(t[j]); }
      }
    }
  }

  lemma OwningRemove(t: Tree, free: set<nat>, k: Key)
    requires Owning(t, free) && k in t
    ensures Owning(t - {k}, free + Frames(t[k]))
    ensures AllFrames(t) == AllFrames(t - {k}) + Frames(t[k]) && AllFrames(t - {k}) !! Frames(t[k])
  {
    hide Block, Frames;
    var t' := t - {k};
    forall f ensures f in AllFrames(t) <==> f in AllFrames(t') + Frames(t[k]) {
      if f in AllFrames(t') {
        var j :| j in t' && f in Frames(t'[j]);
        assert j in t && f in Frames(t[j]);
      }
      if f in AllFrames(t) {
        var j :| j in t && f in Frames(t[j]);
        if j != k { assert j in t' && f in Frames(t'[j]); }
      }
    }
  }

  /** Every page is free or weighs on allocmem. */
  lemma PagesAccounted(s: Mem, all: set<nat>)
    requires Intact(s, all)
    ensures |FreeSet(s.list)| + OwnSum(s.tree) == |all|
  {
    hide Canonical, FreeSet, Frames, AllFrames;
    var free, owned := FreeSet(s.list), AllFrames(s.tree);
    OwnedCount(s.tree, free);
    assert |free + owned| == |free| + |owned|;
  }

  lemma {:induction false} OwnedCount(t: Tree, free: set<nat>)
    requires Owning(t, free)
    ensures AllFrames(t) !! free && |AllFrames(t)| == OwnSum(t)
    decreases |t|
  {
    if t == map[] {
      assert AllFrames(t) == {};
    } else {
      var k :| k in t && OwnSum(t) == OwnSize(t[k]) + OwnSum(t - {k});
      var more := free + Frames(t[k]);
      OwningRemove(t, free, k);
      OwnedCount(t - {k}, more);
      BlockSize(t[k].frame, OwnSize(t[k]));
      Counts(AllFrames(t - {k}), Frames(t[k]));
    }
  }

  lemma Counts(a: set<nat>, b: set<nat>)
    requires a !! b
    ensures |a + b| == |a| + |b|
  {
  }

  // ---------------------------------------------------------------- one entry more or less

  lemma GroundedAdd(t: Tree, k: Key, e: Pte)
    requires Grounded(t) && k !in t && (OwnSize(e) > 0 ==> e.frame > 0)
    ensures Grounded(t[k := e])
  {
    hide OwnSize;
  }

  /** An entry for a block just taken from the free list. */
  lemma BalancedTake(s: Mem, a: int, l: int, all: set<nat>, lost: bool, k: Key, e: Pte, list: seq<Entry>, lost': bool)
    requires Balanced(s, a, l, all, lost) && k !in s.tree && e.frame > 0 && Based(list)
    requires lost || lost' || (Canonical(list) && Frames(e) <= FreeSet(s.list) && FreeSet(list) == FreeSet(s.list) - Frames(e))
    ensures Balanced(Mem(s.tree[k := e], list, s.allocmem + OwnSize(e), s.linkmem + LinkSize(e)), a, l, all, lost || lost')
  {
    hide Owning, AllFrames, Frames, FreeSet, Canonical, OwnSize, LinkSize, Based, Grounded;
    SumAdd(s.tree, k, e);
    GroundedAdd(s.tree, k, e);
    if !lost && !lost' {
      OwningAdd(s.tree, FreeSet(s.list), k, e);
    }
  }

  /** An entry for somebody else's frame. */
  lemma BalancedLink(s: Mem, a: int, l: int, all: set<nat>, lost: bool, k: Key, e: Pte)
    requires Balanced(s, a, l, all, lost) && k !in s.tree && OwnSize(e) == 0
    ensures Balanced(s.(tree := s.tree[k := e], linkmem := s.linkmem + LinkSize(e)), a, l, all, lost)
  {
    hide Owning, AllFrames, FreeSet, Canonical, OwnSize, LinkSize, Based, Grounded;
    NoFrames(e);
    SumAdd(s.tree, k, e);
    GroundedAdd(s.tree, k, e);
    if !lost {
      OwningAdd(s.tree, FreeSet(s.list), k, e);
      assert FreeSet(s.list) - Frames(e) == FreeSet(s.list);
    }
  }

  lemma NoFrames(e: Pte)
    requires OwnSize(e) == 0
    ensures Frames(e) == {}
  {
  }

  /** The first page of the first run. */
  lemma TakeOne(s: Mem, a: int, l: int, all: set<nat>, lost: bool, k: Key, e: Pte, rest: seq<Entry>)
    requires Balanced(s, a, l, all, lost) && k !in s.tree
    requires AllocList(s.list, 1) == (e.frame, rest) && e.frame != 0
    requires OwnSize(e) == 1 && LinkSize(e) == 0
    ensures Balanced(Mem(s.tree[k := e], rest, s.allocmem + 1, s.linkmem), a, l, all, lost)
    ensures lost || (e.frame in FreeSet(s.list) && FreeSet(rest) <= FreeSet(s.list))
  {
    hide FreeSet, Canonical, Based, Grounded, Owning, AllFrames;
    BasedReply(s.list, One);
    if !lost {
      TakeFrontFree(s.list, FindFit(s.list, 1, 0), 1);
      assert e.frame in Block(e.frame, 1);
    }
    BalancedTake(s, a, l, all, lost, k, e, rest, false);
  }

  /** An aligned slot out of a run. */
  lemma TakeAligned(s: Mem, a: int, l: int, all: set<nat>, lost: bool, k: Key, e: Pte, rest: seq<Entry>)
    requires Balanced(s, a, l, all, lost) && k !in s.tree && e == Slot(e.frame, false)
    requires SlotList(s.list) == (e.frame, rest) && e.frame != 0
    ensures Balanced(Mem(s.tree[k := e], rest, s.allocmem + SLOT, s.linkmem), a, l, all, lost || SlotLoses(s.list))
    ensures lost || SlotLoses(s.list) || (Block(e.frame, SLOT) <= FreeSet(s.list) && FreeSet(rest) <= FreeSet(s.list))
  {
    hide FreeSet, Canonical, Based, Grounded, Owning, AllFrames, TakeSlot;
    BasedReply(s.list, Aligned);
    if !lost && !SlotLoses(s.list) {
      TakeSlotKeeps(s.list, FindSlot(s.list, 0));
    }
    BalancedTake(s, a, l, all, lost, k, e, rest, SlotLoses(s.list));
  }

  /** An entry cleared and its block, if any, given back. */
  function Returned(list: seq<Entry>, e: Pte): seq<Entry> {
    if OwnSize(e) == 0 then list else FreedList(list, e.frame, OwnSize(e))
  }

  lemma BalancedDrop(s: Mem, a: int, l: int, all: set<nat>, lost: bool, k: Key)
    requires Balanced(s, a, l, all, lost) && k in s.tree
    ensures var e := s.tree[k];
            Balanced(Mem(s.tree - {k}, Returned(s.list, e), s.allocmem - OwnSize(e), s.linkmem - LinkSize(e)), a, l, all, lost)
            && (OwnSize(e) > 0 ==> e.frame > 0)
  {
    hide Owning, AllFrames, FreeSet, Canonical, OwnSize, LinkSize, Frames, Returned, OwnSum, LinkSum, Based;
    var e, free := s.tree[k], FreeSet(s.list);
    SumRemove(s.tree, k);
    ReturnedBased(s.list, e);
    if !lost {
      OwnedApart(s.tree, free, k);
      OwningRemove(s.tree, free, k);
      ReturnedKeeps(s.list, e);
      Regrouped(free, AllFrames(s.tree - {k}), Frames(e));
    }
  }

  lemma Regrouped(free: set<nat>, rest: set<nat>, block: set<nat>)
    ensures free + (rest + block) == free + block + rest
  {
  }

  lemma ReturnedBased(list: seq<Entry>, e: Pte)
    requires Based(list) && (OwnSize(e) > 0 ==> e.frame > 0)
    ensures Based(Returned(list, e))
  {
    hide OwnSize, Based, FreedList;
    if OwnSize(e) > 0 { BasedFreed(list, e.frame, OwnSize(e)); }
  }

  lemma ReturnedKeeps(list: seq<Entry>, e: Pte)
    requires Canonical(list) && Frames(e) !! FreeSet(list) && (OwnSize(e) > 0 ==> e.frame > 0)
    ensures Canonical(Returned(list, e)) && FreeSet(Returned(list, e)) == FreeSet(list) + Frames(e)
  {
    hide Canonical, FreeSet, OwnSize, Block, FreedList;
    if OwnSize(e) == 0 {
      NoFrames(e);
      assert FreeSet(list) + Frames(e) == FreeSet(list);
    } else {
      FreedListKeeps(list, e.frame, OwnSize(e));
    }
  }

  lemma OwnedApart(t: Tree, free: set<nat>, k: Key)
    requires Owning(t, free) && k in t
    ensures Frames(t[k]) !! free
  {
  }

  // ---------------------------------------------------------------- shape

  lemma ShapedAdd(t: Tree, k: Key, e: Pte)
    requires Shaped(t) && k !in t
    requires Placed(t[k := e], k)
    ensures Shaped(t[k := e])
  {
    var r := t[k := e];
    forall j | j in r ensures Placed(r, j) {
      if j != k { assert Placed(t, j); }
    }
  }

  /** No entry hangs below k. */
  ghost predicate Bare(t: Tree, k: Key) {
    match k
    case L1(i) => forall m: nat :: L2(m) in t ==> m / 512 != i
    case L2(m) => forall v: nat :: L3(v) in t ==> v / 512 != m
    case L3(v) => true
  }

  lemma ShapedRemove(t: Tree, k: Key)
    requires Shaped(t) && Bare(t, k)
    ensures Shaped(t - {k})
  {
    var r := t - {k};
    forall j | j in r ensures Placed(r, j) { assert Placed(t, j); }
  }

  lemma AbsentBare(t: Tree, k: Key)
    requires Shaped(t) && (k !in t || (k.L2? && t[k].Slot?))
    ensures Bare(t, k)
  {
    match k
    case L1(i) =>
      forall m: nat | L2(m) in t ensures m / 512 != i { assert Placed(t, L2(m)); }
    case L2(m) =>
      forall v: nat | L3(v) in t ensures v / 512 != m { assert Placed(t, L3(v)); }
    case L3(v) =>
  }
}
