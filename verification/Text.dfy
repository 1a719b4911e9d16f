/** The code segment of a task: mapped into its buffer page by page, then swapped
    with the segment in use. */
module TextSegment {
  import opened FreeList
  import opened PageTable
  import opened Vmm

  /** The dynamic segment and the buffer at the end of the window are 4G each. */
  const DYN: nat := 4 * GIG
  const BUF: nat := PAGES - DYN
  const TEXT: nat := 2 * SLOT

  // ---------------------------------------------------------------- vmm_maptext

  /** The pages of one 2M table; again tells that it was used up. */
  method MapTextPages(s: Space, b0: nat, n: nat, frames: seq<nat>, at: nat, ghost g: Goal)
    returns (r: Result, done: nat, again: bool)
    requires s.Sound() && s.Within(g) && g.bss <= b0 && b0 + n <= PAGES && Slotless(s.tree, b0, b0 + n)
    requires n > 0 ==> L2(b0 / 512) in s.tree
    requires g.Text? && frames == g.frames && at == b0 - g.bss && at + n <= |frames|
    modifies s
    ensures s.Sound() && s.Within(g) && s.lost == old(s.lost)
    ensures done <= n && Mapped(g, old(s.tree), s.tree, b0, b0 + done, s.lost)
    ensures Clear(old(s.tree), b0, b0 + done) && Slotless(s.tree, b0 + done, b0 + n)
    ensures r == Ok || r == Fault
    ensures r == Ok ==> if again then (b0 + done) / 512 > b0 / 512 else done == n
    ensures s.allocmem == old(s.allocmem) && s.linkmem == old(s.linkmem) + done && s.list == old(s.list)
    ensures r == Fault ==> !again && done < n && Translate(old(s.tree), b0 + done) != Unmapped
  {
    hide Mapped, Clear, Translate, Shaped, Slotless, Space.Sound, Space.Within;
    var b, size, i := b0, n, b0 % 512;
    again := false;
    MappedNothing(g, s.tree, b0, s.lost);
    ClearNothing(s.tree, b0);
    while size > 0
      invariant b0 <= b && b - b0 == i - b0 % 512 && i < 512 && size >= 0 && size + (b - b0) == n
      invariant s.Sound() && s.Within(g) && s.lost == old(s.lost)
      invariant L2(b0 / 512) in s.tree || n == 0
      invariant Mapped(g, old(s.tree), s.tree, b0, b, s.lost) && Clear(old(s.tree), b0, b)
      invariant Slotless(s.tree, b, b0 + n)
      invariant s.allocmem == old(s.allocmem) && s.linkmem == old(s.linkmem) + (b - b0) && s.list == old(s.list)
    {
      ghost var before := s.tree;
      assert b / 512 == b0 / 512;
      r := MapTextPage(s, b, frames[at + (b - b0)], b0 + n, g);
      if r != Ok {
        done := b - b0;
        Untouched(g, old(s.tree), before, b0, b, s.lost, b);
        return;
      }
      Stretch(g, old(s.tree), before, s.tree, b0, b, b + 1, s.lost, s.lost);
      b, size, i := b + 1, size - 1, i + 1;
      if i > 511 {
        done, r, again := b - b0, Ok, true;
        return;
      }
    }
    done, r := b - b0, Ok;
  }

  method MapTextPage(s: Space, b: nat, frame: nat, ghost end: nat, ghost g: Goal) returns (r: Result)
    requires s.Sound() && s.Within(g) && g.bss <= b < end <= PAGES && Slotless(s.tree, b, end) && L2(b / 512) in s.tree
    requires g.Text? && b - g.bss < |g.frames| && frame == g.frames[b - g.bss]
    modifies s
    ensures s.Sound() && s.Within(g) && s.lost == old(s.lost)
    ensures r == Ok || (r == Fault && s.tree == old(s.tree) && Translate(s.tree, b) != Unmapped)
    ensures r == Ok ==> Mapped(g, old(s.tree), s.tree, b, b + 1, s.lost) && Clear(old(s.tree), b, b + 1)
    ensures r == Ok ==> Slotless(s.tree, b + 1, end) && L2(b / 512) in s.tree
    ensures s.allocmem == old(s.allocmem) && s.linkmem == old(s.linkmem) + (if r == Ok then 1 else 0) && s.list == old(s.list)
  {
    hide Mapped, Clear, Translate, Shaped, FreeSet, Slotless, Balanced;
    PageFree(s.tree, b, end);
    if L3(b) in s.tree {
      return Fault;
    }
    s.Link(L3(b), Page(frame, true));
    PageMaps(g, old(s.tree), s.tree[L3(b)], b, s.lost);
    PageAfter(old(s.tree), s.tree, b, end);
    r := Ok;
  }

  /** The two tables above a page, made where they are missing. */
  method Tables(s: Space, bss: nat, size: nat, ghost g: Goal) returns (ok: bool)
    requires s.Sound() && s.Within(g) && g.bss <= bss && Slotless(s.tree, bss, bss + size)
    modifies s
    ensures s.Sound() && s.Within(g) && s.lost == old(s.lost)
    ensures Mapped(g, old(s.tree), s.tree, bss, bss, s.lost) && Slotless(s.tree, bss, bss + size)
    ensures ok ==> L2(bss / 512 % GIG) in s.tree
    ensures s.allocmem <= old(s.allocmem) + 2 && s.linkmem == old(s.linkmem)
    ensures !ok ==> Short(s.tree, s.list, false, bss, bss + size)
  {
    hide Mapped, Translate, Shaped, Slotless, Space.Sound, Space.Within, AllocList, Short;
    var i, m := bss / GIG % 512, bss / 512 % GIG;
    InWindow(bss);
    ok := true;
    MappedNothing(g, s.tree, bss, s.lost);
    if L1(i) !in s.tree {
      ok := s.NewTable(L1(i), bss, size, g);
      if !ok {
        ShortTable(s.tree, s.list, false, bss, bss + size);
        return;
      }
    }
    if L2(m) !in s.tree {
      ghost var before := s.tree;
      ok := s.NewTable(L2(m), bss, size, g);
      MappedJoin(g, old(s.tree), before, s.tree, bss, bss, bss, s.lost, s.lost);
      if !ok {
        ShortTable(s.tree, s.list, false, bss, bss + size);
      }
    }
  }

  /** No page of the range mapped, and more pages free than tables can be missing. */
  ghost predicate Roomy(s: Mem, v: nat, n: nat) {
    Clear(s.tree, v, v + n) && |FreeSet(s.list)| > MostPages(false, v, n)
  }

  lemma NotRoomy(s: Mem, v: nat, n: nat, at: nat)
    requires v <= at < v + n && Translate(s.tree, at) != Unmapped
    ensures !Roomy(s, v, n)
  {
  }

  lemma TextShort(s0: Mem, s1: Mem, a: int, l: int, all: set<nat>, v: nat, done: nat, n: nat)
    requires Balanced(s0, a, l, all, false) && Balanced(s1, a, l, all, false) && done <= n
    requires Short(s1.tree, s1.list, false, v + done, v + n)
    requires s1.allocmem <= s0.allocmem + MostPages(false, v, done)
    ensures !Roomy(s0, v, n)
  {
    hide Balanced, FreeSet, AllocList, SlotList, WantsPage;
    UsedUp(s0, s1, a, l, all);
    assert (v + done) / 512 <= (v + n) / 512;
  }

  /** Pages from bss0 on mapped to the frames of a list, all of them shared. */
  method MapText(s: Space, bss0: nat, frames: seq<nat>, n: nat) returns (r: Result, ghost done: nat)
    requires s.Sound() && bss0 + n <= PAGES && Slotless(s.tree, bss0, bss0 + n) && n <= |frames|
    modifies s
    ensures s.Sound() && s.lost == old(s.lost)
    ensures r == Invalid <==> n == 0 || bss0 < BUF + TEXT || bss0 > BUF + DYN
    ensures r == Invalid ==> s.View() == old(s.View())
    ensures done <= n && Mapped(Text(bss0, frames, FreeSet(old(s.list))), old(s.tree), s.tree, bss0, bss0 + done, s.lost)
    ensures Clear(old(s.tree), bss0, bss0 + done)
    ensures s.linkmem == old(s.linkmem) + done
    ensures r == Ok ==> done == n
    ensures r == Fault ==> done < n && Translate(old(s.tree), bss0 + done) != Unmapped
    ensures r == NoMemory ==> Short(s.tree, s.list, false, bss0 + done, bss0 + n)
    ensures !s.lost && Roomy(old(s.View()), bss0, n) ==> r == Ok || r == Invalid
  {
    hide Mapped, Clear, Translate, Shaped, Balanced, FreeSet, Slotless, Space.Sound, Space.Within, Short, MostPages, Roomy;
    ghost var g := Text(bss0, frames, FreeSet(s.list));
    s.WithinStart(g);
    s.SoundBalanced();
    MostNothing(false, bss0);
    done := 0;
    MappedNothing(g, s.tree, bss0, s.lost);
    ClearNothing(s.tree, bss0);
    if n == 0 || bss0 < BUF + TEXT || bss0 > BUF + DYN {
      return Invalid, 0;
    }
    var bss, size := bss0, n;
    var again := true;
    while again
      invariant bss0 <= bss && size >= 0 && size + (bss - bss0) == n && done == bss - bss0
      invariant again || size == 0
      invariant s.Sound() && s.Within(g) && s.lost == old(s.lost)
      invariant Mapped(g, old(s.tree), s.tree, bss0, bss, s.lost) && Clear(old(s.tree), bss0, bss)
      invariant Slotless(s.tree, bss, bss0 + n)
      invariant s.allocmem <= old(s.allocmem) + MostPages(false, bss0, bss - bss0) - if again then 2 else 0
      invariant s.linkmem == old(s.linkmem) + (bss - bss0)
      decreases size, again
    {
      ghost var before := s.tree;
      var ok := Tables(s, bss, size, g);
      MappedJoin(g, old(s.tree), before, s.tree, bss0, bss, bss, s.lost, s.lost);
      s.SoundBalanced();
      if !ok {
        if !s.lost {
          TextShort(old(s.View()), s.View(), s.alloc0, s.link0, s.all, bss0, done, n);
        }
        return NoMemory, done;
      }
      InWindow(bss);
      before := s.tree;
      var step;
      r, step, again := MapTextPages(s, bss, size, frames, bss - bss0, g);
      Stretch(g, old(s.tree), before, s.tree, bss0, bss, bss + step, s.lost, s.lost);
      if r == Fault {
        Untouched(g, old(s.tree), before, bss0, bss, s.lost, bss + step);
        NotRoomy(old(s.View()), bss0, n, bss + step);
      }
      MostGrows(false, bss0, bss - bss0, step);
      bss, size, done := bss + step, size - step, done + step;
      if r != Ok {
        return;
      }
    }
    r := Ok;
  }
}
