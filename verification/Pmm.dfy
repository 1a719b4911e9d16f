/** The physical page allocator: `pmm_entries` edited in place, and the page
    counters of the allocator and of the tasks. */
module Pmm {
  import opened FreeList

  /** The part of a task control block that memory management updates. */
  class Tcb {
    var allocmem: int
    var linkmem: int
    constructor ()
      ensures allocmem == 0 && linkmem == 0
    {
      allocmem := 0;
      linkmem := 0;
    }
  }

  class Pmm {
    const entries: array<Entry>
    var size: nat
    var freepages: int
    var totalpages: int

    ghost predicate Valid()
      reads this
    {
      size <= entries.Length
    }

    ghost function Contents(): seq<Entry>
      requires Valid()
      reads this, entries
    {
      entries[..size]
    }

    constructor (capacity: nat, runs: seq<Entry>)
      requires |runs| <= capacity
      ensures Valid() && fresh(entries) && entries.Length == capacity
      ensures Contents() == runs
      ensures freepages == totalpages == TotalSize(runs)
    {
      entries := new Entry[capacity](i => if 0 <= i < |runs| then runs[i] else Entry(0, 0));
      size := |runs|;
      var pages := 0;
      for i := 0 to |runs|
        invariant pages == TotalSize(runs[..i])
      {
        assert runs[..i + 1][..i] == runs[..i];
        pages := pages + runs[i].size;
      }
      assert runs[..|runs|] == runs;
      freepages := pages;
      totalpages := pages;
    }

    /** The entries after i moved down over it. */
    method Compact(i: nat)
      requires Valid() && i < size
      modifies this`size, entries
      ensures Valid() && size == old(size) - 1
      ensures Contents() == Removed(old(Contents()), i)
    {
      ghost var s := Contents();
      var j := i;
      while j < size - 1
        invariant i <= j <= size - 1 && size == old(size)
        invariant forall k :: 0 <= k < size && (k < i || j <= k) ==> entries[k] == s[k]
        invariant forall k :: i <= k < j ==> entries[k] == s[k + 1]
      {
        entries[j] := entries[j + 1];
        j := j + 1;
      }
      size := size - 1;
    }

    method Alloc(tcb: Tcb, pages: nat) returns (b: nat)
      requires Valid()
      modifies this`size, this`freepages, entries, tcb`allocmem
      ensures Valid()
      ensures (b, Contents()) == AllocList(old(Contents()), pages)
      ensures freepages == old(freepages) - (if b != 0 then pages else 0)
      ensures tcb.allocmem == old(tcb.allocmem) + (if b != 0 then pages else 0)
    {
      b := 0;
      if pages == 0 { return; }
      ghost var s := Contents();
      var i := 0;
      while i < size
        invariant i <= size && b == 0
        invariant Contents() == s && size == |s| == old(size)
        invariant FindFit(s, pages, 0) == FindFit(s, pages, i)
      {
        assert entries[i] == s[i];
        if entries[i].size >= pages {
          b := entries[i].base;
          entries[i] := Entry(entries[i].base + pages, entries[i].size - pages);
          assert Contents() == s[i := Entry(s[i].base + pages, s[i].size - pages)];
          if entries[i].size == 0 {
            Compact(i);
          }
          break;
        }
        i := i + 1;
      }
      if b != 0 {
        freepages := freepages - pages;
        tcb.allocmem := tcb.allocmem + pages;
      }
    }

    /** Entries i.. moved up by one place, so that entry i is there twice. */
    method Spread(i: nat)
      requires Valid() && i < size < entries.Length
      modifies this`size, entries
      ensures Valid() && size == old(size) + 1
      ensures Contents() == old(Contents())[..i + 1] + old(Contents())[i..]
    {
      ghost var s := Contents();
      var j := size;
      while j > i
        invariant i <= j <= size && size == old(size)
        invariant forall k :: 0 <= k < size && k <= j ==> entries[k] == s[k]
        invariant forall k :: j < k <= size ==> entries[k] == s[k - 1]
      {
        entries[j] := entries[j - 1];
        j := j - 1;
      }
      size := size + 1;
    }

    /** There must be room for an entry where one has to be cut in two. */
    method AllocSlot(tcb: Tcb) returns (b: nat)
      requires Valid()
      requires var k := FindSlot(Contents(), 0); k < size && Contents()[k].base % SLOT != 0 ==> size < entries.Length
      modifies this`size, this`freepages, entries, tcb`allocmem
      ensures Valid()
      ensures (b, Contents()) == SlotList(old(Contents()))
      ensures var found := FindSlot(old(Contents()), 0) < |old(Contents())|;
              && freepages == old(freepages) - (if found then SLOT else 0)
              && tcb.allocmem == old(tcb.allocmem) + (if found then SLOT else 0)
    {
      ghost var s := Contents();
      var i := 0;
      while i < size
        invariant i <= size && Contents() == s && size == |s| == old(size)
        invariant freepages == old(freepages) && tcb.allocmem == old(tcb.allocmem)
        invariant FindSlot(s, 0) == FindSlot(s, i)
      {
        assert entries[i] == s[i];
        b := AlignUp(entries[i].base);
        if entries[i].End() >= b + SLOT {
          CarveSlot(i, b);
          freepages := freepages - SLOT;
          tcb.allocmem := tcb.allocmem + SLOT;
          return;
        }
        i := i + 1;
      }
      b := 0;
    }

    /** Entry i cut in two if need be, the slot taken, and an empty entry closed up. */
    method CarveSlot(i: nat, b: nat)
      requires Valid() && i < size && (Contents()[i].base % SLOT != 0 ==> size < entries.Length)
      requires SlotFits(Contents()[i]) && b == AlignUp(Contents()[i].base)
      modifies this`size, entries
      ensures Valid()
      ensures Contents() == TakeSlot(old(Contents()), i)
    {
      hide Removed, TakeFront;
      ghost var s := Contents();
      assert entries[i] == s[i];
      if b != entries[i].base {
        var before := b - entries[i].base;
        CutTwice(i, b);
        ghost var c := Contents();
        assert entries[i + 1] == c[i + 1];
        entries[i + 1] := Entry(b + SLOT, entries[i + 1].size - (before + SLOT));
        assert Contents() == c[i + 1 := Entry(b + SLOT, s[i].size - (before + SLOT))];
        assert c[i + 1 := Entry(b + SLOT, s[i].End() - (b + SLOT))]
            == Split(s, i, b)[i + 1 := Entry(b + SLOT, s[i].End() - (b + SLOT))];
        if entries[i + 1].size == 0 {
          Compact(i);
        }
      } else {
        CarveFront(i);
      }
    }

    method CarveFront(i: nat)
      requires Valid() && i < size && Contents()[i].size >= SLOT
      modifies this`size, entries
      ensures Valid()
      ensures Contents() == TakeFront(old(Contents()), i, SLOT)
    {
      ghost var s := Contents();
      assert entries[i] == s[i];
      entries[i] := Entry(entries[i].base + SLOT, entries[i].size - SLOT);
      assert Contents() == s[i := Entry(s[i].base + SLOT, s[i].size - SLOT)];
      if entries[i].size == 0 {
        Compact(i);
        assert Contents() == Removed(s, i);
      }
    }

    /** Entry i repeated, and its first copy cut down to the frames before b. */
    method CutTwice(i: nat, b: nat)
      requires Valid() && i < size < entries.Length
      requires Contents()[i].base <= b
      modifies this`size, entries
      ensures Valid() && size == old(size) + 1
      ensures Contents() == old(Contents())[i := Entry(old(Contents())[i].base, b - old(Contents())[i].base)][..i + 1]
                            + old(Contents())[i..]
    {
      ghost var s := Contents();
      Spread(i);
      assert entries[i] == Contents()[i] == s[i];
      entries[i] := Entry(entries[i].base, b - entries[i].base);
    }

    /** There must be room for an entry where no run touches the block. */
    method Free(tcb: Tcb, base0: nat, pages0: nat)
      requires Valid()
      requires FreedCount(base0, pages0) > 0
               && FindTouch(Contents(), FreedBase(base0, pages0), FreedBase(base0, pages0) + pages0, 0) == size
               ==> size < entries.Length
      modifies this`size, this`freepages, entries, tcb`allocmem
      ensures Valid()
      ensures Contents() == FreedList(old(Contents()), base0, pages0)
      ensures freepages == old(freepages) + FreedCount(base0, pages0)
      ensures tcb.allocmem == old(tcb.allocmem) - FreedCount(base0, pages0)
    {
      hide Freed;
      var base, pages := base0, pages0;
      if base == 0 && pages > 0 {
        base, pages := base + 1, pages - 1;
      }
      if pages > 0 {
        Insert(base, pages, base + pages0);
        freepages := freepages + pages;
        tcb.allocmem := tcb.allocmem - pages;
      }
    }

    method Insert(base: nat, pages: nat, front: nat)
      requires Valid() && (FindTouch(Contents(), base, front, 0) == size ==> size < entries.Length)
      modifies this`size, entries
      ensures Valid()
      ensures Contents() == Freed(old(Contents()), base, pages, front)
    {
      var i := Absorb(base, pages, front);
      MergeOne(i);
    }

    /** The first entry that touches the block grows by it, or a new one is added. */
    method Absorb(base: nat, pages: nat, front: nat) returns (i: nat)
      requires Valid() && (FindTouch(Contents(), base, front, 0) == size ==> size < entries.Length)
      modifies this`size, entries
      ensures Valid() && i < size
      ensures i == FindTouch(old(Contents()), base, front, 0)
      ensures Contents() == Grown(old(Contents()), base, pages, front)
    {
      ghost var s := Contents();
      i := 0;
      while i < size && entries[i].base != front && entries[i].End() != base
        invariant i <= size && Contents() == s && size == |s| == old(size)
        invariant FindTouch(s, base, front, 0) == FindTouch(s, base, front, i)
      {
        assert entries[i] == s[i];
        i := i + 1;
      }
      if i == size {
        size := size + 1;
        entries[i] := Entry(base, 0);
      } else {
        assert entries[i] == s[i];
        if entries[i].base == front {
          entries[i] := Entry(base, entries[i].size);
        }
      }
      entries[i] := Entry(entries[i].base, entries[i].size + pages);
      if i == |s| {
        assert Contents() == s + [Entry(base, pages)];
      } else {
        assert Contents() == s[i := entries[i]];
      }
    }

    /** The first entry that meets entry i is merged into it. */
    method MergeOne(i: nat)
      requires Valid() && i < size
      modifies this`size, entries
      ensures Valid()
      ensures Contents() == Merged(old(Contents()), i)
    {
      ghost var g := Contents();
      var j := 0;
      while j < size
        invariant j <= size && Contents() == g && size == |g| == old(size)
        invariant FindMeet(g, i, 0) == FindMeet(g, i, j)
      {
        assert entries[i] == g[i] && entries[j] == g[j];
        if entries[i].End() == entries[j].base {
          entries[i] := Entry(entries[i].base, entries[i].size + entries[j].size);
          assert Contents() == g[i := Joined(g[i], g[j])];
          Compact(j);
          return;
        }
        if entries[i].base == entries[j].End() {
          entries[i] := Entry(entries[j].base, entries[i].size);
          entries[i] := Entry(entries[i].base, entries[i].size + entries[j].size);
          assert Contents() == g[i := Joined(g[i], g[j])];
          Compact(j);
          return;
        }
        j := j + 1;
      }
    }
  }
}
