/** Mapping and unmapping: the page tables of one window edited entry by entry,
    with the counters of the task they belong to.  The calls into the allocator
    are the ones Pmm is proved to make. */
module Vmm {
  import opened FreeList
  import opened Requests
  import opened PageTable

  /** NoRoom is the end of the dynamic memory of the core; a caller cannot tell it from
      NoMemory. */
  datatype Result = Ok | Invalid | Fault | NoMemory | NoRoom

  /** The page of its window, the topmost one, at which the core's dynamic memory ends. */
  const TOP: nat := 0x7FF_8000

  /** The range reaches the end.  The address behind the last page of all is 0. */
  predicate PastTop(bss: nat, n: nat) { bss <= TOP <= bss + n < PAGES }

  // ---------------------------------------------------------------- what mapping is for

  /** Pages from bss on get the frames from phys on, or fresh ones out of free
      when phys is 0; or the frames of a list. */
  datatype Goal =
    | Data(bss: nat, phys: nat, free: set<nat>)
    | Text(bss: nat, frames: seq<nat>, free: set<nat>)

  ghost predicate Right(g: Goal, x: Target, v: nat, lost: bool)
    requires g.bss <= v
  {
    if g.Text? then v - g.bss < |g.frames| && x == To(g.frames[v - g.bss], true)
    else if g.phys != 0 then x == To(g.phys + (v - g.bss), true)
    else x.To? && !x.shared && (lost || x.frame in g.free)
  }

  /** Pages from..to mapped, every other page translated as before. */
  ghost predicate Mapped(g: Goal, was: Tree, now: Tree, from: nat, to: nat, lost: bool)
    requires g.bss <= from
  {
    forall v: nat :: v < PAGES ==> MappedAt(g, was, now, from, to, lost, v)
  }

  ghost predicate MappedAt(g: Goal, was: Tree, now: Tree, from: nat, to: nat, lost: bool, v: nat)
    requires g.bss <= from
  {
    if from <= v < to then Right(g, Translate(now, v), v, lost) else Translate(now, v) == Translate(was, v)
  }

  /** No page of the range is mapped. */
  ghost predicate Clear(t: Tree, from: nat, to: nat) {
    forall v :: from <= v < to ==> Translate(t, v) == Unmapped
  }

  /** No slot reaches into the range. */
  ghost predicate Slotless(t: Tree, from: nat, to: nat) {
    forall v: nat :: from <= v < to && L2(v / 512) in t ==> t[L2(v / 512)].Table?
  }

  lemma MappedJoin(g: Goal, t0: Tree, t1: Tree, t2: Tree, lo: nat, mid: nat, hi: nat, lost1: bool, lost2: bool)
    requires g.bss <= lo <= mid <= hi && (lost1 ==> lost2)
    requires Mapped(g, t0, t1, lo, mid, lost1) && Mapped(g, t1, t2, mid, hi, lost2)
    ensures Mapped(g, t0, t2, lo, hi, lost2)
  {
    hide Translate;
    forall v: nat | v < PAGES ensures MappedAt(g, t0, t2, lo, hi, lost2, v) {
      assert MappedAt(g, t0, t1, lo, mid, lost1, v) && MappedAt(g, t1, t2, mid, hi, lost2, v);
    }
  }

  lemma MappedNothing(g: Goal, t: Tree, at: nat, lost: bool)
    requires g.bss <= at
    ensures Mapped(g, t, t, at, at, lost)
  {
    hide Translate;
    forall v: nat | v < PAGES ensures MappedAt(g, t, t, at, at, lost, v) {}
  }

  /** A new table translates nothing by itself. */
  lemma TableMapsNothing(g: Goal, t: Tree, k: Key, f: nat, at: nat, lost: bool)
    requires g.bss <= at && Shaped(t) && k !in t && !k.L3?
    ensures Mapped(g, t, t[k := Table(f)], at, at, lost)
  {
    AbsentBare(t, k);
    var r := t[k := Table(f)];
    forall v: nat | v < PAGES ensures MappedAt(g, t, r, at, at, lost, v) {
      if L3(v) in t { assert Placed(t, L3(v)); }
    }
  }

  lemma PageMaps(g: Goal, t: Tree, e: Pte, v: nat, lost: bool)
    requires g.bss <= v && e.Page? && L2(v / 512) in t && t[L2(v / 512)].Table?
    requires Right(g, To(e.frame, e.shared), v, lost)
    ensures Mapped(g, t, t[L3(v) := e], v, v + 1, lost)
  {
    var r, hi := t[L3(v) := e], v + 1;
    forall w: nat | w < PAGES ensures MappedAt(g, t, r, v, hi, lost, w) {}
  }

  /** Page v of a slot. */
  ghost predicate RightIn(g: Goal, e: Pte, v: nat, lost: bool)
    requires g.bss <= v && e.Slot?
  {
    Right(g, To(e.frame + v % 512, e.shared), v, lost)
  }

  lemma SlotMaps(g: Goal, t: Tree, e: Pte, m: nat, lost: bool)
    requires g.bss <= 512 * m && e.Slot? && Shaped(t) && L2(m) !in t
    requires forall v :: 512 * m <= v < 512 * m + 512 ==> RightIn(g, e, v, lost)
    ensures Mapped(g, t, t[L2(m) := e], 512 * m, 512 * m + 512, lost)
    ensures Clear(t, 512 * m, 512 * m + 512)
  {
    AbsentBare(t, L2(m));
    var r, lo, hi := t[L2(m) := e], 512 * m, 512 * m + 512;
    forall v: nat | v < PAGES ensures MappedAt(g, t, r, lo, hi, lost, v) {
      if v / 512 == m { assert 512 * m <= v < 512 * m + 512 && RightIn(g, e, v, lost); }
    }
  }

  // ---------------------------------------------------------------- when memory runs short

  /** A page is wanted at v for itself, or for a table above it. */
  ghost predicate WantsPage(t: Tree, own: bool, v: nat, end: nat) {
    (own && v < end) || L1(v / GIG % 512) !in t || L2(v / 512 % GIG) !in t
  }

  ghost predicate WantsSlot(t: Tree, own: bool, v: nat, end: nat) {
    own && v % 512 == 0 && v + SLOT <= end && L2(v / 512 % GIG) !in t
  }

  /** The allocator refuses what is wanted at v.  There is no second try with single
      pages where it is a slot. */
  ghost predicate Short(t: Tree, list: seq<Entry>, own: bool, v: nat, end: nat) {
    || (WantsPage(t, own, v, end) && AllocList(list, 1).0 == 0)
    || (WantsSlot(t, own, v, end) && SlotList(list).0 == 0)
  }

  /** What mapping n pages takes at most: the pages, and two tables for each 2M begun. */
  ghost function MostPages(own: bool, v: nat, n: nat): nat {
    (if own then n else 0) + 2 * ((v + n) / 512 - v / 512 + 1)
  }

  lemma MostNothing(own: bool, v: nat)
    ensures MostPages(own, v, 0) == 2
  {
  }

  lemma MostGrows(own: bool, v: nat, n: nat, step: nat)
    ensures MostPages(own, v, n + step) >= MostPages(own, v, n) + if own then step else 0
    ensures (v + n + step) / 512 > (v + n) / 512 ==>
              MostPages(own, v, n + step) >= MostPages(own, v, n) + 2 + if own then step else 0
  {
    assert (v + n + step) / 512 >= (v + n) / 512;
  }

  /** A page refused with no page lost: all that were free are in use. */
  lemma UsedUp(s0: Mem, s1: Mem, a: int, l: int, all: set<nat>)
    requires Balanced(s0, a, l, all, false) && Balanced(s1, a, l, all, false)
    requires AllocList(s1.list, 1).0 == 0
    ensures |FreeSet(s0.list)| == s1.allocmem - s0.allocmem
  {
    hide FreeSet, Canonical, Owning, AllFrames, AllocList, Based, Grounded;
    PagesAccounted(s0, all);
    PagesAccounted(s1, all);
    PageRefused(s1.list);
  }

  lemma SlotReply(s: Mem, a: int, l: int, all: set<nat>, lost: bool)
    requires Balanced(s, a, l, all, lost)
    ensures SlotList(s.list).0 == 0 ==> SlotList(s.list).1 == s.list && !SlotLoses(s.list)
  {
    BasedReply(s.list, Aligned);
  }

  class Space {
    var tree: Tree
    var list: seq<Entry>
    var allocmem: int
    var linkmem: int
    /** Whether the slot allocator has cut a run and thrown its front away. */
    ghost var lost: bool
    ghost const alloc0: int
    ghost const link0: int
    ghost const all: set<nat>

    ghost function View(): Mem
      reads this
    {
      Mem(tree, list, allocmem, linkmem)
    }

    ghost predicate Sound()
      reads this
    {
      Shaped(tree) && Balanced(View(), alloc0, link0, all, lost)
    }

    /** A task with no window entries yet. */
    constructor (list: seq<Entry>, allocmem: int, linkmem: int)
      requires Canonical(list)
      ensures Sound() && !lost && tree == map[]
      ensures alloc0 == allocmem && link0 == linkmem && all == FreeSet(list)
    {
      tree, this.list, this.allocmem, this.linkmem := map[], list, allocmem, linkmem;
      lost, alloc0, link0, all := false, allocmem, linkmem, FreeSet(list);
    }

    /** A task with its tables, on a free list that others use as well. */
    constructor Resume(tree: Tree, list: seq<Entry>, allocmem: int, linkmem: int, ghost alloc0: int, ghost link0: int,
                       ghost all: set<nat>, ghost lost: bool)
      requires Shaped(tree) && Balanced(Mem(tree, list, allocmem, linkmem), alloc0, link0, all, lost)
      ensures Sound() && View() == Mem(tree, list, allocmem, linkmem) && this.lost == lost
      ensures this.alloc0 == alloc0 && this.link0 == link0 && this.all == all
    {
      this.tree, this.list, this.allocmem, this.linkmem := tree, list, allocmem, linkmem;
      this.lost, this.alloc0, this.link0, this.all := lost, alloc0, link0, all;
    }

    /** A page from the allocator for an entry. */
    method TakePage(k: Key, table: bool) returns (ok: bool)
      requires Sound() && k !in tree
      requires Placed(tree[k := if table then Table(1) else Page(1, false)], k)
      modifies this
      ensures Sound() && lost == old(lost)
      ensures Leads(old(list), old(lost), false, list, lost)
      ensures ok <==> AllocList(old(list), 1).0 != 0
      ensures !ok ==> View() == old(View())
      ensures ok ==> k in tree && tree == old(tree)[k := tree[k]] && allocmem == old(allocmem) + 1
      ensures linkmem == old(linkmem)
      ensures ok ==> tree[k] == (if table then Table(tree[k].frame) else Page(tree[k].frame, false))
      ensures ok && !lost ==> tree[k].frame in FreeSet(old(list)) && FreeSet(list) <= FreeSet(old(list))
    {
      hide Balanced, FreeSet, Canonical, Shaped, TakeFront, Leads;
      LeadsNowhere(list, lost, false);
      LeadsPage(list, lost, false);
      var (b, rest) := AllocList(list, 1);
      if b == 0 {
        return false;
      }
      var e := if table then Table(b) else Page(b, false);
      TakeOne(View(), alloc0, link0, all, lost, k, e, rest);
      ShapedAdd(tree, k, e);
      tree, list, allocmem := tree[k := e], rest, allocmem + 1;
      ok := true;
    }

    /** A slot from the allocator, which may lose pages of its own on the way. */
    method TakeSlot(m: nat) returns (ok: bool)
      requires Sound() && m < GIG && L2(m) !in tree && L1(m / 512) in tree
      modifies this
      ensures Sound() && lost == (old(lost) || SlotLoses(old(list)))
      ensures Leads(old(list), old(lost), true, list, lost)
      ensures ok <==> SlotList(old(list)).0 != 0
      ensures !ok ==> View() == old(View())
      ensures ok ==> L2(m) in tree && tree == old(tree)[L2(m) := Slot(tree[L2(m)].frame, false)]
      ensures ok ==> allocmem == old(allocmem) + SLOT
      ensures linkmem == old(linkmem)
      ensures ok && !lost ==> Block(tree[L2(m)].frame, SLOT) <= FreeSet(old(list)) && FreeSet(list) <= FreeSet(old(list))
    {
      hide Balanced, FreeSet, Canonical, Shaped, FreeList.TakeSlot, Leads, Based;
      LeadsSlot(list, lost);
      var (b, rest) := SlotList(list);
      SlotReply(View(), alloc0, link0, all, lost);
      if b == 0 {
        return false;
      }
      TakeAligned(View(), alloc0, link0, all, lost, L2(m), Slot(b, false), rest);
      ShapedAdd(tree, L2(m), Slot(b, false));
      lost := lost || SlotLoses(list);
      tree, list, allocmem := tree[L2(m) := Slot(b, false)], rest, allocmem + SLOT;
      ok := true;
    }

    /** Somebody else's frame or slot. */
    method Link(k: Key, e: Pte)
      requires Sound() && k !in tree && Placed(tree[k := e], k) && OwnSize(e) == 0
      modifies `tree, `linkmem
      ensures Sound() && tree == old(tree)[k := e] && linkmem == old(linkmem) + LinkSize(e)
    {
      hide Balanced, Shaped;
      BalancedLink(View(), alloc0, link0, all, lost, k, e);
      ShapedAdd(tree, k, e);
      tree, linkmem := tree[k := e], linkmem + LinkSize(e);
    }

    /** An entry cleared: a shared frame is forgotten, an own one given back. */
    method Release(k: Key)
      requires Sound() && k in tree && Bare(tree, k)
      modifies this
      ensures Sound() && lost == old(lost) && tree == old(tree) - {k}
    {
      hide Balanced, Shaped, Bare, FreedList;
      BalancedDrop(View(), alloc0, link0, all, lost, k);
      ShapedRemove(tree, k);
      var e := tree[k];
      if OwnSize(e) == 0 {
        linkmem := linkmem - LinkSize(e);
      } else {
        list := FreedList(list, e.frame, OwnSize(e));
        allocmem := allocmem - FreedCount(e.frame, OwnSize(e));
      }
      tree := tree - {k};
    }

    // -------------------------------------------------------------- vmm_map

    ghost predicate Within(g: Goal)
      reads this
    {
      lost || FreeSet(list) <= g.free
    }

    /** One slot's worth. */
    method MapSlot(m: nat, p: nat, ghost g: Goal) returns (r: Result)
      requires Sound() && Within(g) && g.bss <= 512 * m && m < GIG && L1(m / 512) in tree
      requires g.Data? && p == (if g.phys == 0 then 0 else g.phys + (512 * m - g.bss))
      modifies this
      ensures Sound() && Within(g) && (old(lost) ==> lost)
      ensures r == Fault <==> L2(m) in old(tree)
      ensures r == NoMemory <==> L2(m) !in old(tree) && g.phys == 0 && SlotList(old(list)).0 == 0
      ensures r == NoMemory ==> View() == old(View())
      ensures Leads(old(list), old(lost), g.phys == 0, list, lost)
      ensures allocmem == old(allocmem) + (if g.phys == 0 && r == Ok then SLOT else 0)
      ensures linkmem == old(linkmem) + (if g.phys != 0 && r == Ok then SLOT else 0)
      ensures r == Ok || ((r == Fault || r == NoMemory) && tree == old(tree))
      ensures r == Ok ==> L2(m) in tree && tree[L2(m)].Slot? && tree == old(tree)[L2(m) := tree[L2(m)]]
      ensures r == Ok ==> Mapped(g, old(tree), tree, 512 * m, 512 * m + 512, lost) && Clear(old(tree), 512 * m, 512 * m + 512)
    {
      hide Mapped, Clear, Translate, Shaped, Balanced, FreeSet, Leads, SlotList;
      LeadsNowhere(list, lost, g.phys == 0);
      if L2(m) in tree {
        return Fault;
      }
      if p != 0 {
        Link(L2(m), Slot(p, true));
      } else {
        var ok := TakeSlot(m);
        if !ok {
          return NoMemory;
        }
      }
      SlotRight(g, tree[L2(m)], m, lost);
      SlotMaps(g, old(tree), tree[L2(m)], m, lost);
      r := Ok;
    }

    /** Slots for as long as they fit, up to the end of the 1G table. */
    method MapSlots(m0: nat, p0: nat, n: nat, ghost g: Goal) returns (r: Result, done: nat)
      requires Sound() && Within(g) && g.bss <= 512 * m0 && 512 * m0 + n <= PAGES && Slotless(tree, 512 * m0, 512 * m0 + n)
      requires n >= SLOT && L2(m0) !in tree && L1(m0 / 512) in tree
      requires g.Data? && p0 == (if g.phys == 0 then 0 else g.phys + (512 * m0 - g.bss))
      modifies this
      ensures Sound() && Within(g) && (old(lost) ==> lost)
      ensures 512 * done <= n && Mapped(g, old(tree), tree, 512 * m0, 512 * (m0 + done), lost)
      ensures Clear(old(tree), 512 * m0, 512 * (m0 + done)) && Slotless(tree, 512 * (m0 + done), 512 * m0 + n)
      ensures r == Ok || r == Fault || r == NoMemory
      ensures SameFrom(old(tree), tree, m0 + done)
      ensures r == Ok ==> done > 0
      ensures r == Fault ==> 512 * done + SLOT <= n && L2(m0 + done) in old(tree)
      ensures r == NoMemory ==> g.phys == 0 && 512 * done + SLOT <= n && L2(m0 + done) !in tree && SlotList(list).0 == 0
      ensures r == NoMemory && done == 0 <==> g.phys == 0 && SlotList(old(list)).0 == 0
      ensures Leads(old(list), old(lost), g.phys == 0, list, lost)
      ensures allocmem == old(allocmem) + (if g.phys == 0 then 512 * done else 0)
      ensures linkmem == old(linkmem) + (if g.phys == 0 then 0 else 512 * done)
    {
      hide Mapped, Clear, Translate, Shaped, Balanced, FreeSet, Slotless, Sound, Within, SameFrom, Leads, SlotList;
      LeadsNowhere(list, lost, g.phys == 0);
      var m, p, i, size := m0, p0, m0 % 512, n;
      MappedNothing(g, tree, 512 * m0, lost);
      ClearNothing(tree, 512 * m0);
      SameNothing(tree, m0);
      while size >= SLOT && i < 512
        invariant m0 <= m && m - m0 == i - m0 % 512 <= 512 && size >= 0 && size + 512 * (m - m0) == n
        invariant p == (if g.phys == 0 then 0 else g.phys + (512 * m - g.bss))
        invariant Sound() && Within(g) && (old(lost) ==> lost)
        invariant L1(m0 / 512) in tree
        invariant Mapped(g, old(tree), tree, 512 * m0, 512 * m, lost) && Clear(old(tree), 512 * m0, 512 * m)
        invariant Slotless(tree, 512 * m, 512 * m0 + n) && SameFrom(old(tree), tree, m)
        invariant Leads(old(list), old(lost), g.phys == 0, list, lost)
        invariant allocmem == old(allocmem) + (if g.phys == 0 then 512 * (m - m0) else 0)
        invariant linkmem == old(linkmem) + (if g.phys == 0 then 0 else 512 * (m - m0))
        invariant if m == m0 then tree == old(tree) && list == old(list) else g.phys == 0 ==> SlotList(old(list)).0 != 0
      {
        ghost var before, list0, lost0 := tree, list, lost;
        assert m / 512 == m0 / 512;
        r := MapSlot(m, p, g);
        LeadsJoin(old(list), old(lost), g.phys == 0, list0, lost0, g.phys == 0, list, lost, g.phys == 0);
        if r != Ok {
          done := m - m0;
          SameAt(old(tree), before, m);
          MappedNothing(g, tree, 512 * m, lost);
          MappedJoin(g, old(tree), before, tree, 512 * m0, 512 * m, 512 * m, lost0, lost);
          return;
        }
        Stretch(g, old(tree), before, tree, 512 * m0, 512 * m, 512 * m + 512, lost0, lost);
        SlotlessAfter(old(tree), before, tree, m, 512 * m0 + n);
        size, m, i := size - SLOT, m + 1, i + 1;
        if p != 0 {
          p := p + SLOT;
        }
      }
      done := m - m0;
      r := Ok;
    }

    /** Single pages up to the end of the 2M table; again tells that the table
        was used up. */
    method MapPages(b0: nat, p0: nat, n: nat, ghost g: Goal) returns (r: Result, done: nat, again: bool)
      requires Sound() && Within(g) && g.bss <= b0 && b0 + n <= PAGES && Slotless(tree, b0, b0 + n)
      requires n > 0 ==> L2(b0 / 512) in tree
      requires g.Data? && p0 == (if g.phys == 0 then 0 else g.phys + (b0 - g.bss))
      modifies this
      ensures Sound() && Within(g) && (old(lost) ==> lost)
      ensures done <= n && Mapped(g, old(tree), tree, b0, b0 + done, lost)
      ensures Clear(old(tree), b0, b0 + done) && Slotless(tree, b0 + done, b0 + n)
      ensures r == Ok || r == Fault || r == NoMemory
      ensures SameFrom(old(tree), tree, 0)
      ensures r == Ok ==> if again then done > 0 && (b0 + done) % 512 == 0 else done == n
      ensures r != Ok ==> !again
      ensures r == Fault ==> done < n && Translate(old(tree), b0 + done) != Unmapped
      ensures r == NoMemory ==> g.phys == 0 && done < n && AllocList(list, 1).0 == 0
      ensures lost == old(lost) && Leads(old(list), old(lost), false, list, lost)
      ensures allocmem == old(allocmem) + (if g.phys == 0 then done else 0)
      ensures linkmem == old(linkmem) + (if g.phys == 0 then 0 else done)
    {
      hide Mapped, Clear, Translate, Shaped, Balanced, FreeSet, Slotless, Sound, Within, SameFrom, Leads, AllocList;
      LeadsNowhere(list, lost, false);
      var b, p, size, i := b0, p0, n, b0 % 512;
      again := false;
      SameNothing(tree, 0);
      MappedNothing(g, tree, b0, lost);
      ClearNothing(tree, b0);
      while size > 0
        invariant b0 <= b && b - b0 == i - b0 % 512 && i < 512 && size >= 0 && size + (b - b0) == n
        invariant p == (if g.phys == 0 then 0 else g.phys + (b - g.bss))
        invariant Sound() && Within(g) && (old(lost) ==> lost)
        invariant L2(b0 / 512) in tree || n == 0
        invariant Mapped(g, old(tree), tree, b0, b, lost) && Clear(old(tree), b0, b)
        invariant Slotless(tree, b, b0 + n) && SameFrom(old(tree), tree, 0)
        invariant lost == old(lost) && Leads(old(list), old(lost), false, list, lost)
        invariant allocmem == old(allocmem) + (if g.phys == 0 then b - b0 else 0)
        invariant linkmem == old(linkmem) + (if g.phys == 0 then 0 else b - b0)
      {
        ghost var before, list0, lost0 := tree, list, lost;
        assert b / 512 == b0 / 512;
        r := MapPage(b, p, b0 + n, g);
        LeadsJoin(old(list), old(lost), false, list0, lost0, false, list, lost, false);
        if r != Ok {
          done := b - b0;
          Untouched(g, old(tree), before, b0, b, lost, b);
          return;
        }
        Stretch(g, old(tree), before, tree, b0, b, b + 1, lost0, lost);
        SameStays(old(tree), before, tree, 0);
        b, size, i := b + 1, size - 1, i + 1;
        if p != 0 {
          p := p + 1;
        }
        if i > 511 {
          done, r, again := b - b0, Ok, true;
          return;
        }
      }
      done, r := b - b0, Ok;
    }

    /** One page. */
    method MapPage(b: nat, p: nat, ghost end: nat, ghost g: Goal) returns (r: Result)
      requires Sound() && Within(g) && g.bss <= b < end <= PAGES && Slotless(tree, b, end) && L2(b / 512) in tree
      requires g.Data? && p == (if g.phys == 0 then 0 else g.phys + (b - g.bss))
      modifies this
      ensures Sound() && Within(g) && lost == old(lost)
      ensures r == Fault ==> Translate(old(tree), b) != Unmapped
      ensures r == Ok || ((r == Fault || r == NoMemory) && tree == old(tree))
      ensures r == Ok ==> Mapped(g, old(tree), tree, b, b + 1, lost) && Clear(old(tree), b, b + 1)
      ensures r == Ok ==> Slotless(tree, b + 1, end) && L2(b / 512) in tree
      ensures r == Ok ==> forall m: nat :: L2(m) in old(tree) <==> L2(m) in tree
      ensures r == NoMemory ==> g.phys == 0 && AllocList(list, 1).0 == 0
      ensures Leads(old(list), old(lost), false, list, lost)
      ensures allocmem == old(allocmem) + (if g.phys == 0 && r == Ok then 1 else 0)
      ensures linkmem == old(linkmem) + (if g.phys != 0 && r == Ok then 1 else 0)
    {
      hide Mapped, Clear, Translate, Shaped, Balanced, FreeSet, Slotless, Leads, AllocList;
      LeadsNowhere(list, lost, false);
      PageFree(tree, b, end);
      if L3(b) in tree {
        return Fault;
      }
      if p != 0 {
        Link(L3(b), Page(p, true));
      } else {
        var ok := TakePage(L3(b), false);
        if !ok {
          return NoMemory;
        }
      }
      PageMaps(g, old(tree), tree[L3(b)], b, lost);
      PageAfter(old(tree), tree, b, end);
      r := Ok;
    }

    /** Pages from bss0 on mapped to the frames from phys0 on, or to fresh ones
        when phys0 is 0; core says that it is the topmost window. */
    method Map(bss0: nat, phys0: nat, n: nat, idle: bool, core: bool) returns (r: Result, ghost done: nat)
      requires Sound() && bss0 + n <= PAGES && Slotless(tree, bss0, bss0 + n)
      modifies this
      ensures Sound() && (old(lost) ==> lost)
      ensures r == Invalid <==> n == 0 || (!idle && bss0 == 0)
      ensures r == NoRoom <==> n != 0 && (idle || bss0 != 0) && core && PastTop(bss0, n)
      ensures r == Invalid || r == NoRoom ==> View() == old(View()) && lost == old(lost)
      ensures done <= n && Mapped(Data(bss0, phys0, FreeSet(old(list))), old(tree), tree, bss0, bss0 + done, lost)
      ensures Clear(old(tree), bss0, bss0 + done)
      ensures linkmem == old(linkmem) + (if phys0 == 0 then 0 else done)
      ensures r == Ok ==> done == n
      ensures r == Fault ==> done < n && Blocked(old(tree), bss0 + done, bss0 + n)
      ensures r == NoMemory ==> Short(tree, list, phys0 == 0, bss0 + done, bss0 + n)
      ensures Leads(old(list), old(lost), phys0 == 0 && n >= SLOT, list, lost)
      ensures phys0 != 0 || n < SLOT || Safe(old(list)) ==> lost == old(lost)
      ensures r == NoMemory && !lost ==> |FreeSet(old(list))| <= MostPages(phys0 == 0, bss0, n)
                                         || (SlotList(list).0 == 0 && WantsSlot(tree, phys0 == 0, bss0 + done, bss0 + n))
      ensures !old(lost) && (phys0 != 0 || n < SLOT) && Plenty(old(View()), phys0 == 0, bss0, n)
              ==> r == Ok || r == Invalid || r == NoRoom
      ensures !old(lost) && Safe(old(list)) && Ample(old(View()), bss0, n) ==> r == Ok || r == Invalid || r == NoRoom
      ensures r != Invalid && r != NoRoom && WantsSlot(old(tree), phys0 == 0, bss0, bss0 + n) && L1(bss0 / GIG % 512) in old(tree)
              ==> (r == NoMemory && done == 0 <==> SlotList(old(list)).0 == 0)
    {
      hide Mapped, Clear, Translate, Shaped, Balanced, FreeSet, Slotless, Sound, Within, Blocked, Leads, Short, WantsSlot,
           MostPages, SlotList, Safe, Plenty, Ample;
      MappedNothing(Data(bss0, phys0, FreeSet(list)), tree, bss0, lost);
      ClearNothing(tree, bss0);
      LeadsNowhere(list, lost, phys0 == 0 && n >= SLOT);
      if n == 0 || (!idle && bss0 == 0) {
        return Invalid, 0;
      }
      if core && PastTop(bss0, n) {
        return NoRoom, 0;
      }
      r, done := MapRange(bss0, phys0, n);
    }

    /** The range, from one jump back to the next. */
    method MapRange(bss0: nat, phys0: nat, n: nat) returns (r: Result, ghost done: nat)
      requires Sound() && bss0 + n <= PAGES && Slotless(tree, bss0, bss0 + n)
      modifies this
      ensures Sound() && (old(lost) ==> lost)
      ensures r == Ok || r == Fault || r == NoMemory
      ensures done <= n && Mapped(Data(bss0, phys0, FreeSet(old(list))), old(tree), tree, bss0, bss0 + done, lost)
      ensures Clear(old(tree), bss0, bss0 + done)
      ensures linkmem == old(linkmem) + (if phys0 == 0 then 0 else done)
      ensures r == Ok ==> done == n
      ensures r == Fault ==> done < n && Blocked(old(tree), bss0 + done, bss0 + n)
      ensures r == NoMemory ==> Short(tree, list, phys0 == 0, bss0 + done, bss0 + n)
      ensures Leads(old(list), old(lost), phys0 == 0 && n >= SLOT, list, lost)
      ensures phys0 != 0 || n < SLOT || Safe(old(list)) ==> lost == old(lost)
      ensures r == NoMemory && !lost ==> |FreeSet(old(list))| <= MostPages(phys0 == 0, bss0, n)
                                         || (SlotList(list).0 == 0 && WantsSlot(tree, phys0 == 0, bss0 + done, bss0 + n))
      ensures !old(lost) && (phys0 != 0 || n < SLOT) && Plenty(old(View()), phys0 == 0, bss0, n)
              ==> r == Ok
      ensures !old(lost) && Safe(old(list)) && Ample(old(View()), bss0, n) ==> r == Ok
      ensures WantsSlot(old(tree), phys0 == 0, bss0, bss0 + n) && L1(bss0 / GIG % 512) in old(tree)
              ==> (r == NoMemory && done == 0 <==> SlotList(old(list)).0 == 0)
    {
      hide Mapped, Clear, Translate, Shaped, Balanced, FreeSet, Slotless, Sound, Within, Blocked, SameFrom, Leads, Short,
           WantsSlot, MostPages, SlotList, Safe, Plenty, Ample;
      ghost var g := Data(bss0, phys0, FreeSet(list));
      ghost var slots := phys0 == 0 && n >= SLOT;
      LeadsNowhere(list, lost, slots);
      SoundBalanced();
      MostNothing(phys0 == 0, bss0);
      WithinStart(g);
      done := 0;
      MappedNothing(g, tree, bss0, lost);
      ClearNothing(tree, bss0);
      SameNothing(tree, bss0 / 512);
      var bss, phys, size := bss0, phys0, n;
      var again := true;
      while again
        invariant bss0 <= bss && size >= 0 && size + (bss - bss0) == n && done == bss - bss0
        invariant again || size == 0
        invariant phys == (if phys0 == 0 then 0 else phys0 + (bss - bss0))
        invariant Sound() && Within(g) && (old(lost) ==> lost)
        invariant Mapped(g, old(tree), tree, bss0, bss, lost) && Clear(old(tree), bss0, bss)
        invariant Slotless(tree, bss, bss0 + n) && (again ==> SameFrom(old(tree), tree, bss / 512))
        invariant Leads(old(list), old(lost), slots, list, lost)
        invariant allocmem <= old(allocmem) + MostPages(phys0 == 0, bss0, bss - bss0) - if again then 2 else 0
        invariant linkmem == old(linkmem) + (if phys0 == 0 then 0 else bss - bss0)
        invariant if bss == bss0 && again then tree == old(tree) && list == old(list)
                  else WantsSlot(old(tree), phys0 == 0, bss0, bss0 + n) && L1(bss0 / GIG % 512) in old(tree)
                       ==> SlotList(old(list)).0 != 0
        decreases size, again
      {
        ghost var before, list0, lost0 := tree, list, lost;
        var step;
        r, step, again := MapTurn(bss, phys, size, g);
        LeadsJoin(old(list), old(lost), slots, list0, lost0, phys == 0 && size >= SLOT, list, lost, slots);
        Stretch(g, old(tree), before, tree, bss0, bss, bss + step, lost0, lost);
        if r == Fault {
          BlockedBefore(g, old(tree), before, bss0, bss, lost0, bss + step, bss0 + n);
        }
        if again {
          SameLater(old(tree), before, tree, bss / 512, (bss + step) / 512);
        }
        MostGrows(phys0 == 0, bss0, bss - bss0, step);
        bss, size, done := bss + step, size - step, done + step;
        if phys != 0 {
          phys := phys + step;
        }
        if r != Ok {
          LeadsKeeps(old(list), old(lost), slots, list, lost);
          SoundBalanced();
          if !lost {
            WithinNow(g);
            Explained(r, old(View()), View(), alloc0, link0, all, phys0 == 0, bss0, done, n);
          }
          return;
        }
      }
      LeadsKeeps(old(list), old(lost), slots, list, lost);
      r := Ok;
    }

    lemma WithinNow(g: Goal)
      requires Within(g) && !lost
      ensures FreeSet(list) <= g.free
    {
      hide FreeSet;
    }

    lemma SoundBalanced()
      requires Sound()
      ensures Balanced(View(), alloc0, link0, all, lost)
    {
      hide Balanced;
    }

    lemma WithinStart(g: Goal)
      requires g.free == FreeSet(list)
      ensures Within(g)
    {
    }

    /** From one jump back to the next: the tables on the way, then whole slots or
        single pages. */
    method MapTurn(bss: nat, phys: nat, size: nat, ghost g: Goal) returns (r: Result, done: nat, again: bool)
      requires Sound() && Within(g) && g.bss <= bss && bss + size <= PAGES && Slotless(tree, bss, bss + size)
      requires g.Data? && phys == (if g.phys == 0 then 0 else g.phys + (bss - g.bss))
      modifies this
      ensures Sound() && Within(g) && (old(lost) ==> lost)
      ensures done <= size && Mapped(g, old(tree), tree, bss, bss + done, lost)
      ensures Clear(old(tree), bss, bss + done) && Slotless(tree, bss + done, bss + size)
      ensures r == Ok || r == Fault || r == NoMemory
      ensures r == Ok ==> if again then done > 0 && SameFrom(old(tree), tree, (bss + done) / 512) else done == size
      ensures r != Ok ==> !again
      ensures r == Fault ==> done < size && Blocked(old(tree), bss + done, bss + size)
      ensures r == NoMemory ==> Short(tree, list, phys == 0, bss + done, bss + size)
      ensures Leads(old(list), old(lost), phys == 0 && size >= SLOT, list, lost)
      ensures allocmem <= old(allocmem) + (if phys == 0 then done else 0) + 2
      ensures linkmem == old(linkmem) + (if phys == 0 then 0 else done)
      ensures again ==> (bss + done) / 512 > bss / 512
      ensures WantsSlot(old(tree), phys == 0, bss, bss + size) && L1(bss / GIG % 512) in old(tree)
              ==> (r == NoMemory && done == 0 <==> SlotList(old(list)).0 == 0) && (r == Ok ==> done > 0)
    {
      hide Mapped, Clear, Translate, Shaped, Balanced, FreeSet, Slotless, Sound, Within, SameFrom, Blocked, Leads, Short,
           WantsSlot, SlotList, AllocList;
      ghost var slots := phys == 0 && size >= SLOT;
      LeadsNowhere(list, lost, slots);
      done, again := 0, false;
      var i := bss / GIG % 512;
      InWindow(bss);
      ClearNothing(tree, bss);
      MappedNothing(g, tree, bss, lost);
      SameNothing(tree, bss / 512);
      if L1(i) !in tree {
        var ok := NewTable(L1(i), bss, size, g);
        LeadsJoin(old(list), old(lost), slots, old(list), old(lost), false, list, lost, slots);
        if !ok {
          ShortTable(tree, list, phys == 0, bss, bss + size);
          return NoMemory, 0, false;
        }
        SameTable(old(tree), tree, L1(i), bss / 512);
      }
      ghost var before, list0, lost0 := tree, list, lost;
      r, done, again := MapMiddle(bss, phys, size, g);
      LeadsJoin(old(list), old(lost), slots, list0, lost0, slots, list, lost, slots);
      Stretch(g, old(tree), before, tree, bss, bss, bss + done, lost0, lost);
      if again {
        SameLater(old(tree), before, tree, bss / 512, (bss + done) / 512);
      }
      if r == Fault {
        BlockedBefore(g, old(tree), before, bss, bss, lost0, bss + done, bss + size);
      }
    }

    method MapMiddle(bss: nat, phys: nat, size: nat, ghost g: Goal) returns (r: Result, done: nat, again: bool)
      requires Sound() && Within(g) && g.bss <= bss && bss + size <= PAGES && Slotless(tree, bss, bss + size)
      requires g.Data? && phys == (if g.phys == 0 then 0 else g.phys + (bss - g.bss))
      requires L1(bss / GIG % 512) in tree
      modifies this
      ensures Sound() && Within(g) && (old(lost) ==> lost)
      ensures done <= size && Mapped(g, old(tree), tree, bss, bss + done, lost)
      ensures Clear(old(tree), bss, bss + done) && Slotless(tree, bss + done, bss + size)
      ensures r == Ok || r == Fault || r == NoMemory
      ensures r == Ok ==> if again then done > 0 && SameFrom(old(tree), tree, (bss + done) / 512) else done == size
      ensures r != Ok ==> !again
      ensures r == Fault ==> done < size && Blocked(old(tree), bss + done, bss + size)
      ensures r == NoMemory ==> Short(tree, list, phys == 0, bss + done, bss + size)
      ensures Leads(old(list), old(lost), phys == 0 && size >= SLOT, list, lost)
      ensures allocmem <= old(allocmem) + (if phys == 0 then done else 0) + 1
      ensures linkmem == old(linkmem) + (if phys == 0 then 0 else done)
      ensures again ==> (bss + done) / 512 > bss / 512
      ensures WantsSlot(old(tree), phys == 0, bss, bss + size)
              ==> (r == NoMemory && done == 0 <==> SlotList(old(list)).0 == 0) && (r == Ok ==> done > 0)
    {
      hide Mapped, Clear, Translate, Shaped, Balanced, FreeSet, Slotless, Sound, Within, SameFrom, Blocked, Leads, Short,
           SlotList, AllocList;
      ghost var slots := phys == 0 && size >= SLOT;
      LeadsNowhere(list, lost, slots);
      var m := bss / 512 % GIG;
      InWindow(bss);
      ClearNothing(tree, bss);
      MappedNothing(g, tree, bss, lost);
      if L2(m) !in tree && phys % SLOT == 0 && bss % SLOT == 0 && size >= SLOT {
        var count;
        r, count := MapSlots(m, phys, size, g);
        done, again := 512 * count, r == Ok;
        assert (bss + done) / 512 == m + count;
        if r == Fault {
          BlockedSlot(old(tree), bss + done, bss + size);
        } else if r == NoMemory {
          ShortSlot(tree, list, bss + done, bss + size);
        }
        return;
      }
      r, done, again := MapLeaves(bss, phys, size, g);
      LeadsJoin(old(list), old(lost), slots, old(list), old(lost), false, list, lost, slots);
    }

    /** Single pages, in a table made where it is missing. */
    method MapLeaves(bss: nat, phys: nat, size: nat, ghost g: Goal) returns (r: Result, done: nat, again: bool)
      requires Sound() && Within(g) && g.bss <= bss && bss + size <= PAGES && Slotless(tree, bss, bss + size)
      requires g.Data? && phys == (if g.phys == 0 then 0 else g.phys + (bss - g.bss))
      requires L1(bss / GIG % 512) in tree
      modifies this
      ensures Sound() && Within(g) && lost == old(lost)
      ensures done <= size && Mapped(g, old(tree), tree, bss, bss + done, lost)
      ensures Clear(old(tree), bss, bss + done) && Slotless(tree, bss + done, bss + size)
      ensures r == Ok || r == Fault || r == NoMemory
      ensures r == Ok ==> if again then done > 0 && SameFrom(old(tree), tree, (bss + done) / 512) else done == size
      ensures r != Ok ==> !again
      ensures r == Fault ==> done < size && Blocked(old(tree), bss + done, bss + size)
      ensures r == NoMemory ==> Short(tree, list, phys == 0, bss + done, bss + size)
      ensures Leads(old(list), old(lost), false, list, lost)
      ensures allocmem <= old(allocmem) + (if phys == 0 then done else 0) + 1
      ensures linkmem == old(linkmem) + (if phys == 0 then 0 else done)
      ensures again ==> (bss + done) / 512 > bss / 512
    {
      hide Mapped, Clear, Translate, Shaped, Balanced, FreeSet, Slotless, Sound, Within, SameFrom, Blocked, Leads, Short,
           WantsSlot, SlotList, AllocList;
      LeadsNowhere(list, lost, false);
      var m := bss / 512 % GIG;
      InWindow(bss);
      ClearNothing(tree, bss);
      MappedNothing(g, tree, bss, lost);
      SameNothing(tree, m + 1);
      done, again := 0, false;
      if L2(m) !in tree {
        var ok := NewTable(L2(m), bss, size, g);
        if !ok {
          ShortTable(tree, list, phys == 0, bss, bss + size);
          return NoMemory, 0, false;
        }
        SameTable(old(tree), tree, L2(m), m + 1);
      }
      ghost var before, list0, lost0 := tree, list, lost;
      r, done, again := MapPages(bss, phys, size, g);
      LeadsJoin(old(list), old(lost), false, list0, lost0, false, list, lost, false);
      if r == NoMemory {
        ShortPage(tree, list, phys == 0, bss + done, bss + size);
      }
      Stretch(g, old(tree), before, tree, bss, bss, bss + done, lost0, lost);
      if again {
        NextTable(bss, done);
        SameNothing(before, 0);
        SameLater(before, before, tree, 0, (bss + done) / 512);
        SameLater(old(tree), before, tree, m + 1, (bss + done) / 512);
      }
      if r == Fault {
        Untouched(g, old(tree), before, bss, bss, lost0, bss + done);
        BlockedPage(old(tree), bss + done, bss + size);
      }
    }

    method NewTable(k: Key, at: nat, size: nat, ghost g: Goal) returns (ok: bool)
      requires Sound() && Within(g) && g.bss <= at && Slotless(tree, at, at + size)
      requires k !in tree && !k.L3? && Placed(tree[k := Table(1)], k)
      modifies this
      ensures Sound() && Within(g) && lost == old(lost)
      ensures !ok ==> View() == old(View()) && AllocList(list, 1).0 == 0
      ensures Leads(old(list), old(lost), false, list, lost)
      ensures allocmem <= old(allocmem) + 1 && linkmem == old(linkmem)
      ensures ok ==> k in tree && tree[k].Table? && tree == old(tree)[k := tree[k]]
      ensures Mapped(g, old(tree), tree, at, at, lost) && Slotless(tree, at, at + size)
    {
      hide Mapped, Translate, Shaped, Balanced, FreeSet, Leads, AllocList;
      ok := TakePage(k, true);
      if ok {
        TableMapsNothing(g, old(tree), k, tree[k].frame, at, lost);
      } else {
        MappedNothing(g, tree, at, lost);
      }
    }
  }

  /** Nothing in the way of mapping lo..hi. */
  ghost predicate Open(t: Tree, lo: nat, hi: nat) {
    forall v: nat :: lo <= v < hi ==> !Blocked(t, v, hi)
  }

  lemma OpenAt(t: Tree, lo: nat, hi: nat, v: nat)
    requires lo <= v < hi && Blocked(t, v, hi)
    ensures !Open(t, lo, hi)
  {
    hide Blocked;
  }

  lemma PagesOnly(t: Tree, own: bool, v: nat, end: nat, n: nat)
    requires end <= v + n && (!own || n < SLOT)
    ensures !WantsSlot(t, own, v, end)
  {
  }

  lemma ShortTable(t: Tree, list: seq<Entry>, own: bool, v: nat, end: nat)
    requires AllocList(list, 1).0 == 0 && (L1(v / GIG % 512) !in t || L2(v / 512 % GIG) !in t)
    ensures Short(t, list, own, v, end)
  {
  }

  lemma ShortPage(t: Tree, list: seq<Entry>, own: bool, v: nat, end: nat)
    requires AllocList(list, 1).0 == 0 && own && v < end
    ensures Short(t, list, own, v, end)
  {
  }

  lemma ShortSlot(t: Tree, list: seq<Entry>, v: nat, end: nat)
    requires SlotList(list).0 == 0 && v % 512 == 0 && v + SLOT <= end && L2(v / 512 % GIG) !in t
    ensures Short(t, list, true, v, end)
  {
  }

  /** Nothing in the way of the mapping, and more pages free than it can take. */
  ghost predicate Plenty(s: Mem, own: bool, v: nat, n: nat) {
    Open(s.tree, v, v + n) && |FreeSet(s.list)| > MostPages(own, v, n)
  }

  /** How many pages were free before a mapping that failed. */
  lemma Explained(r: Result, s0: Mem, s1: Mem, a: int, l: int, all: set<nat>, own: bool, v: nat, done: nat, n: nat)
    requires Balanced(s0, a, l, all, false) && Balanced(s1, a, l, all, false) && done <= n
    requires FreeSet(s1.list) <= FreeSet(s0.list)
    requires r == Fault ==> done < n && Blocked(s0.tree, v + done, v + n)
    requires r == NoMemory ==> Short(s1.tree, s1.list, own, v + done, v + n)
    requires s1.allocmem <= s0.allocmem + MostPages(own, v, done)
    ensures Ample(s0, v, n) ==> r != Fault && r != NoMemory
    ensures r == NoMemory ==> |FreeSet(s0.list)| <= MostPages(own, v, n)
                              || (SlotList(s1.list).0 == 0 && WantsSlot(s1.tree, own, v + done, v + n))
    ensures (!own || n < SLOT) && Plenty(s0, own, v, n) ==> r != Fault && r != NoMemory
  {
    hide Balanced, FreeSet, AllocList, SlotList, WantsPage, WantsSlot, Blocked, Ample;
    Enough(r, s0, s1, a, l, all, own, v, done, n);
    if r == Fault { OpenAt(s0.tree, v, v + n, v + done); }
    if !own || n < SLOT { PagesOnly(s1.tree, own, v + done, v + n, n); }
    if AllocList(s1.list, 1).0 == 0 {
      UsedUp(s0, s1, a, l, all);
      assert (v + done) / 512 <= (v + n) / 512;
    }
  }

  /** The slots that lie in free frames. */
  function FreeSlots(free: set<nat>): set<nat> {
    set b | b in free && b % SLOT == 0 && Block(b, SLOT) <= free
  }

  /** Nothing in the way of the mapping, and more slots free than it can take pages. */
  ghost predicate Ample(s: Mem, v: nat, n: nat) {
    Open(s.tree, v, v + n) && |FreeSlots(FreeSet(s.list))| > MostPages(true, v, n)
  }

  /** Slots do not overlap, so each frame spoils one of them at most. */
  lemma {:induction false} Spoiled(slots: set<nat>, gone: set<nat>)
    requires forall b :: b in slots ==> b % SLOT == 0 && Block(b, SLOT) * gone != {}
    ensures |slots| <= |gone|
  {
    if slots != {} {
      var b :| b in slots;
      var x :| x in Block(b, SLOT) * gone;
      var others, rest := slots - {b}, gone - {x};
      forall c | c in others ensures Block(c, SLOT) * rest != {} {
        var y :| y in Block(c, SLOT) * gone;
        SlotsApart(b, c, x, y);
        assert y in Block(c, SLOT) * rest;
      }
      Spoiled(others, rest);
    }
  }

  lemma SlotsApart(b: nat, c: nat, x: nat, y: nat)
    requires b % SLOT == 0 && c % SLOT == 0 && b != c && x in Block(b, SLOT) && y in Block(c, SLOT)
    ensures x != y
  {
    assert x / SLOT == b / SLOT && y / SLOT == c / SLOT;
    assert b == SLOT * (b / SLOT) && c == SLOT * (c / SLOT);
  }

  /** With that many slots free neither a page nor a slot is refused. */
  lemma Enough(r: Result, s0: Mem, s1: Mem, a: int, l: int, all: set<nat>, own: bool, v: nat, done: nat, n: nat)
    requires Balanced(s0, a, l, all, false) && Balanced(s1, a, l, all, false) && done <= n
    requires FreeSet(s1.list) <= FreeSet(s0.list)
    requires r == Fault ==> done < n && Blocked(s0.tree, v + done, v + n)
    requires r == NoMemory ==> Short(s1.tree, s1.list, own, v + done, v + n)
    requires s1.allocmem <= s0.allocmem + MostPages(own, v, done)
    ensures Ample(s0, v, n) ==> r != Fault && r != NoMemory
  {
    hide FreeSet, AllocList, SlotList, WantsPage, WantsSlot, Blocked, Canonical, Owning, AllFrames, Based, Grounded;
    if r == Fault { OpenAt(s0.tree, v, v + n, v + done); }
    if r == NoMemory {
      var f0, f1 := FreeSet(s0.list), FreeSet(s1.list);
      PagesAccounted(s0, all);
      PagesAccounted(s1, all);
      PageRefused(s1.list);
      AllocSlotComplete(s1.list);
      assert (v + done) / 512 <= (v + n) / 512;
      assert |f0 - f1| == |f0| - |f1|;
      SlotsGone(f0, f1);
    }
  }

  lemma SlotsGone(f0: set<nat>, f1: set<nat>)
    requires f1 <= f0 && !exists b: nat :: b % SLOT == 0 && Block(b, SLOT) <= f1
    ensures |FreeSlots(f0)| <= |f0 - f1|
  {
    forall b | b in FreeSlots(f0) ensures b % SLOT == 0 && Block(b, SLOT) * (f0 - f1) != {} {
      var x :| x in Block(b, SLOT) && x !in f1;
      assert x in Block(b, SLOT) * (f0 - f1);
    }
    Spoiled(FreeSlots(f0), f0 - f1);
  }

  lemma InWindow(bss: nat)
    ensures bss / GIG % 512 < 512 && bss / 512 % GIG < GIG
    ensures bss / 512 % GIG / 512 == bss / GIG % 512
    ensures bss < PAGES ==> bss / GIG % 512 == bss / GIG && bss / 512 % GIG == bss / 512
  {
    var a, q, r := bss / 512, bss / GIG, bss % GIG;
    assert bss == 512 * (512 * q + r / 512) + r % 512;
    assert a == 512 * q + r / 512 && r / 512 < 512;
    assert a / 512 == q;
    var w, x := a / GIG, a % GIG;
    assert a == 512 * (512 * w + x / 512) + x % 512 && x / 512 < 512;
    assert a / 512 == 512 * w + x / 512;
  }

  /** Two stretches of mapping one after the other. */
  lemma Stretch(g: Goal, t0: Tree, t1: Tree, t2: Tree, lo: nat, mid: nat, hi: nat, lost1: bool, lost2: bool)
    requires g.bss <= lo <= mid <= hi <= PAGES && (lost1 ==> lost2)
    requires Mapped(g, t0, t1, lo, mid, lost1) && Mapped(g, t1, t2, mid, hi, lost2)
    requires Clear(t0, lo, mid) && Clear(t1, mid, hi)
    ensures Mapped(g, t0, t2, lo, hi, lost2) && Clear(t0, lo, hi)
  {
    hide Translate;
    MappedJoin(g, t0, t1, t2, lo, mid, hi, lost1, lost2);
    forall v | lo <= v < hi ensures Translate(t0, v) == Unmapped {
      assert MappedAt(g, t0, t1, lo, mid, lost1, v);
    }
  }

  lemma SlotlessAfter(old_: Tree, t0: Tree, t1: Tree, m: nat, end: nat)
    requires Slotless(t0, 512 * m, end) && L2(m) in t1 && t1 == t0[L2(m) := t1[L2(m)]]
    requires SameFrom(old_, t0, m)
    ensures Slotless(t1, 512 * (m + 1), end)
    ensures SameFrom(old_, t1, m + 1)
  {
    forall v: nat | 512 * (m + 1) <= v < end && L2(v / 512) in t1 ensures t1[L2(v / 512)].Table? {
      assert L2(v / 512) in t0;
    }
  }

  lemma SameNothing(t: Tree, m: nat)
    ensures SameFrom(t, t, m)
  {
  }

  lemma SameAt(t0: Tree, t1: Tree, m: nat)
    requires SameFrom(t0, t1, m)
    ensures L2(m) in t0 <==> L2(m) in t1
  {
  }

  lemma SameLater(t0: Tree, t1: Tree, t2: Tree, m1: nat, m2: nat)
    requires SameFrom(t0, t1, m1) && (SameFrom(t1, t2, m2) || SameFrom(t1, t2, m1)) && m1 <= m2
    ensures SameFrom(t0, t2, m2)
  {
  }

  /** Only a table of the middle level shows there, and only at its place. */
  lemma SameTable(t0: Tree, t1: Tree, k: Key, m: nat)
    requires k in t1 && t1 == t0[k := t1[k]]
    requires k.L2? ==> k.m < m
    ensures SameFrom(t0, t1, m)
  {
  }

  lemma BlockedBefore(g: Goal, t0: Tree, t1: Tree, lo: nat, hi: nat, lost: bool, v: nat, end: nat)
    requires g.bss <= lo <= hi <= v < PAGES && Mapped(g, t0, t1, lo, hi, lost)
    requires SameFrom(t0, t1, hi / 512) && Blocked(t1, v, end)
    ensures Blocked(t0, v, end)
  {
    Untouched(g, t0, t1, lo, hi, lost, v);
    assert L2(v / 512) in t1 <==> L2(v / 512) in t0;
  }

  lemma BlockedSlot(t: Tree, v: nat, end: nat)
    requires v % 512 == 0 && v + SLOT <= end && L2(v / 512) in t
    ensures Blocked(t, v, end)
  {
  }

  lemma BlockedPage(t: Tree, v: nat, end: nat)
    requires Translate(t, v) != Unmapped
    ensures Blocked(t, v, end)
  {
  }

  lemma NextTable(bss: nat, done: nat)
    requires done > 0 && (bss + done) % 512 == 0
    ensures bss / 512 + 1 <= (bss + done) / 512
  {
  }

  lemma SameStays(t0: Tree, t1: Tree, t2: Tree, m0: nat)
    requires SameFrom(t0, t1, m0) && forall m: nat :: L2(m) in t1 <==> L2(m) in t2
    ensures SameFrom(t0, t2, m0)
  {
  }

  /** Why mapping stops: a mapped page, or a table in the way of a whole slot. */
  ghost predicate Blocked(t: Tree, v: nat, end: nat) {
    Translate(t, v) != Unmapped || (v % 512 == 0 && v + SLOT <= end && L2(v / 512) in t)
  }

  lemma Untouched(g: Goal, t0: Tree, t1: Tree, lo: nat, hi: nat, lost: bool, v: nat)
    requires g.bss <= lo && Mapped(g, t0, t1, lo, hi, lost) && v < PAGES && !(lo <= v < hi)
    ensures Translate(t1, v) == Translate(t0, v)
  {
    assert MappedAt(g, t0, t1, lo, hi, lost, v);
  }

  lemma PageFree(t: Tree, b: nat, end: nat)
    requires Shaped(t) && Slotless(t, b, end) && b < end && L2(b / 512) in t
    ensures t[L2(b / 512)].Table?
    ensures L3(b) in t <==> Translate(t, b) != Unmapped
    ensures L3(b) !in t ==> Clear(t, b, b + 1)
  {
    if L3(b) in t { assert Placed(t, L3(b)); }
  }

  lemma PageAfter(t0: Tree, t1: Tree, b: nat, end: nat)
    requires Slotless(t0, b, end) && L3(b) in t1 && t1 == t0[L3(b) := t1[L3(b)]]
    ensures Slotless(t1, b + 1, end)
  {
  }

  /** The middle level is the same from entry m0 on. */
  ghost predicate SameFrom(t0: Tree, t1: Tree, m0: nat) {
    forall m: nat :: m >= m0 ==> (L2(m) in t0 <==> L2(m) in t1)
  }

  lemma ClearNothing(t: Tree, at: nat)
    ensures Clear(t, at, at)
  {
  }

  lemma SlotRight(g: Goal, e: Pte, m: nat, lost: bool)
    requires g.Data? && g.bss <= 512 * m && e.Slot?
    requires g.phys != 0 ==> e == Slot(g.phys + (512 * m - g.bss), true)
    requires g.phys == 0 ==> !e.shared && (lost || Block(e.frame, SLOT) <= g.free)
    ensures forall v :: 512 * m <= v < 512 * m + 512 ==> RightIn(g, e, v, lost)
  {
    forall v | 512 * m <= v < 512 * m + 512 ensures RightIn(g, e, v, lost) {
      assert v % 512 == v - 512 * m;
      assert e.frame + v % 512 in Block(e.frame, SLOT);
    }
  }
}
