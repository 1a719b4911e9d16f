/** Unmapping: vmm_free walks a range from the top level down, gives frames and
    emptied tables back, and steps over gaps in whole entries. */
module Unmap {
  import opened FreeList
  import opened PageTable
  import opened Vmm

  /** The pages that are really let go, and whether the 1G tables stay. */
  datatype Range = Range(lo: nat, hi: nat, core: bool)

  /** How far the walk falls behind: a gap at the start is stepped over by a whole
      entry without moving back to the boundary. */
  function Skew(t: Tree, lo: nat): nat {
    if L1(lo / GIG) !in t then lo % GIG
    else if L2(lo / 512) !in t || !t[L2(lo / 512)].Table? then lo % 512
    else 0
  }

  function Reach(t: Tree, lo: nat, n: nat, core: bool): Range {
    Range(lo, lo + n - Skew(t, lo), core)
  }

  predicate In(r: Range, v: nat) { r.lo <= v < r.hi }

  predicate VisitsMid(r: Range, m: nat) { m == r.lo / 512 || (m > r.lo / 512 && 512 * m < r.hi) }

  predicate VisitsTop(r: Range, i: nat) { i == r.lo / GIG || (i > r.lo / GIG && GIG * i < r.hi) }

  /** A page of table m that stays. */
  ghost predicate LeafStays(t: Tree, r: Range, m: nat, v: nat) { v / 512 == m && L3(v) in t && !In(r, v) }

  ghost predicate KeepMid(t: Tree, r: Range, m: nat)
    requires L2(m) in t
  {
    VisitsMid(r, m) ==> t[L2(m)].Table? && exists v :: LeafStays(t, r, m, v)
  }

  ghost predicate MidStays(t: Tree, r: Range, i: nat, m: nat) { m / 512 == i && L2(m) in t && KeepMid(t, r, m) }

  /** Which entries outlive the walk: pages outside the range, tables with such a
      page, 1G tables with an entry left. */
  ghost predicate Keep(t: Tree, r: Range, k: Key)
    requires k in t
  {
    match k
    case L3(v) => !In(r, v)
    case L2(m) => KeepMid(t, r, m)
    case L1(i) => VisitsTop(r, i) ==> r.core || exists m :: MidStays(t, r, i, m)
  }

  // ---------------------------------------------------------------- the walk so far

  /** Pages below v, 2M entries below m and 1G entries below i are done. */
  datatype Pos = Pos(v: nat, m: nat, i: nat)

  predicate Passed(p: Pos, k: Key) {
    match k
    case L1(i) => i < p.i
    case L2(m) => m < p.m
    case L3(v) => v < p.v
  }

  ghost predicate Stays(t0: Tree, r: Range, p: Pos, k: Key) {
    k in t0 && (Passed(p, k) ==> Keep(t0, r, k))
  }

  ghost predicate Swept(t0: Tree, r: Range, p: Pos, t: Tree) {
    && (forall k :: k in t <==> Stays(t0, r, p, k))
    && (forall k :: k in t ==> t[k] == t0[k])
  }

  lemma SweptAt(t0: Tree, r: Range, p: Pos, t: Tree, k: Key)
    requires Swept(t0, r, p, t)
    ensures k in t <==> Stays(t0, r, p, k)
    ensures k in t ==> k in t0 && t[k] == t0[k]
  {
  }

  lemma SweepStart(t: Tree, r: Range)
    ensures Swept(t, r, Pos(r.lo, r.lo / 512, r.lo / GIG), t)
  {
    var p := Pos(r.lo, r.lo / 512, r.lo / GIG);
    forall k ensures k in t <==> Stays(t, r, p, k) {}
  }

  /** The page at the position let go. */
  lemma SweepLeaf(t0: Tree, r: Range, p: Pos, t: Tree)
    requires Swept(t0, r, p, t) && In(r, p.v)
    ensures Swept(t0, r, p.(v := p.v + 1), t - {L3(p.v)})
  {
    hide Keep;
    var q, t' := p.(v := p.v + 1), t - {L3(p.v)};
    forall k ensures k in t' <==> Stays(t0, r, q, k) {
      SweptAt(t0, r, p, t, k);
      if k == L3(p.v) && k in t0 { LeafGoes(t0, r, p.v); }
    }
  }

  lemma LeafGoes(t0: Tree, r: Range, v: nat)
    requires L3(v) in t0 && In(r, v)
    ensures !Keep(t0, r, L3(v))
  {
  }

  /** Pages stepped over, where there are none. */
  lemma SweepGap(t0: Tree, r: Range, p: Pos, t: Tree, v: nat)
    requires Swept(t0, r, p, t) && p.v <= v
    requires forall w: nat :: p.v <= w < v ==> L3(w) !in t0
    ensures Swept(t0, r, p.(v := v), t)
  {
    hide Keep;
    var q := p.(v := v);
    forall k ensures k in t <==> Stays(t0, r, q, k) { SweptAt(t0, r, p, t, k); }
  }

  /** A 2M entry decided. */
  lemma SweepMid(t0: Tree, r: Range, p: Pos, t: Tree)
    requires Swept(t0, r, p, t)
    ensures L2(p.m) in t0 && !Keep(t0, r, L2(p.m)) ==> Swept(t0, r, p.(m := p.m + 1), t - {L2(p.m)})
    ensures L2(p.m) !in t0 || Keep(t0, r, L2(p.m)) ==> Swept(t0, r, p.(m := p.m + 1), t)
  {
    hide Keep;
    var q, t' := p.(m := p.m + 1), t - {L2(p.m)};
    forall k ensures L2(p.m) in t0 && !Keep(t0, r, L2(p.m)) ==> (k in t' <==> Stays(t0, r, q, k)) {
      SweptAt(t0, r, p, t, k);
    }
    forall k ensures L2(p.m) !in t0 || Keep(t0, r, L2(p.m)) ==> (k in t <==> Stays(t0, r, q, k)) {
      SweptAt(t0, r, p, t, k);
    }
  }

  /** A 1G entry decided. */
  lemma SweepTop(t0: Tree, r: Range, p: Pos, t: Tree)
    requires Swept(t0, r, p, t)
    ensures L1(p.i) in t0 && !Keep(t0, r, L1(p.i)) ==> Swept(t0, r, p.(i := p.i + 1), t - {L1(p.i)})
    ensures L1(p.i) !in t0 || Keep(t0, r, L1(p.i)) ==> Swept(t0, r, p.(i := p.i + 1), t)
  {
    hide Keep;
    var q, t' := p.(i := p.i + 1), t - {L1(p.i)};
    forall k ensures L1(p.i) in t0 && !Keep(t0, r, L1(p.i)) ==> (k in t' <==> Stays(t0, r, q, k)) {
      SweptAt(t0, r, p, t, k);
    }
    forall k ensures L1(p.i) !in t0 || Keep(t0, r, L1(p.i)) ==> (k in t <==> Stays(t0, r, q, k)) {
      SweptAt(t0, r, p, t, k);
    }
  }

  /** A 1G gap: nothing below an absent entry. */
  lemma SweepAbsent(t0: Tree, r: Range, p: Pos, t: Tree)
    requires Swept(t0, r, p, t) && Shaped(t0) && L1(p.i) !in t0
    requires p.i == p.m / 512 == p.v / GIG
    ensures Swept(t0, r, Pos(GIG * (p.i + 1), 512 * (p.i + 1), p.i + 1), t)
  {
    hide Keep, Shaped, Passed;
    var q := Pos(GIG * (p.i + 1), 512 * (p.i + 1), p.i + 1);
    forall k ensures k in t <==> Stays(t0, r, q, k) {
      SweptAt(t0, r, p, t, k);
      if k in t0 { NotUnder(t0, p, k); }
    }
  }

  lemma NotUnder(t0: Tree, p: Pos, k: Key)
    requires Shaped(t0) && k in t0 && L1(p.i) !in t0
    requires p.i == p.m / 512 == p.v / GIG
    ensures Passed(Pos(GIG * (p.i + 1), 512 * (p.i + 1), p.i + 1), k) == Passed(p, k)
  {
    UnderTop(t0, k);
  }

  lemma UnderTop(t: Tree, k: Key)
    requires Shaped(t) && k in t
    ensures k.L2? ==> L1(k.m / 512) in t
    ensures k.L3? ==> L2(k.v / 512) in t && L1(k.v / GIG) in t && k.v / 512 / 512 == k.v / GIG
  {
    assert Placed(t, k);
    if k.L3? {
      assert Placed(t, L2(k.v / 512));
    }
  }

  // ---------------------------------------------------------------- the walk

  /** The leaves of one table from index k0 on; bss runs ahead of the position by
      the lag. */
  method FreeLeaves(s: Space, m: nat, start: nat, bss0: nat, end: nat, ghost lag: nat, ghost t0: Tree, ghost r: Range,
                    ghost p0: Pos)
    returns (bss: nat, ghost p: Pos)
    requires s.Sound() && Swept(t0, r, p0, s.tree) && Shaped(t0)
    requires start == r.lo && end == r.hi + lag && bss0 == p0.v + lag && bss0 < end
    requires p0.m == m == p0.v / 512
    requires if p0.v == r.lo then lag == 0 else r.lo < p0.v && p0.v % 512 == 0
    modifies s
    ensures s.Sound() && s.lost == old(s.lost) && Swept(t0, r, p, s.tree)
    ensures p.m == p0.m && p.i == p0.i && bss == p.v + lag && p.v > p0.v
    ensures if bss < end then p.v == 512 * (m + 1) else p.v == r.hi <= 512 * (m + 1)
    ensures L2(m) in old(s.tree) ==> L2(m) in s.tree
  {
    hide Swept, Shaped, Bare, Space.Sound, Stays;
    p, bss := p0, bss0;
    var ke := if end / 512 == bss / 512 then end % 512 else 511;
    var k := if start == bss then bss % 512 else 0;
    ghost var k0: nat := k;
    LeafBounds(start, bss0, end, lag, p0.v, k0, ke);
    while k <= ke && bss < end
      invariant k0 <= k <= ke + 1 && p == p0.(v := p0.v + (k - k0)) && bss == bss0 + (k - k0) <= end
      invariant s.Sound() && s.lost == old(s.lost) && Swept(t0, r, p, s.tree)
      invariant L2(m) in old(s.tree) ==> L2(m) in s.tree
    {
      bss := bss + 1;
      SweepLeaf(t0, r, p, s.tree);
      assert p.v == 512 * m + k;
      DropLeaf(s, 512 * m + k);
      p := p.(v := p.v + 1);
      k := k + 1;
    }
  }

  method DropLeaf(s: Space, v: nat)
    requires s.Sound()
    modifies s
    ensures s.Sound() && s.lost == old(s.lost) && s.tree == old(s.tree) - {L3(v)}
  {
    hide Shaped, Balanced, Space.Sound;
    if L3(v) in s.tree {
      s.Release(L3(v));
    }
  }

  /** The last index looked at does not cut the walk short. */
  lemma LeafBounds(start: nat, bss: nat, end: nat, lag: nat, v: nat, k0: nat, ke: nat)
    requires bss == v + lag && bss < end
    requires if v == start then lag == 0 else start < v && v % 512 == 0
    requires ke == (if end / 512 == bss / 512 then end % 512 else 511)
    requires k0 == (if start == bss then bss % 512 else 0)
    ensures k0 == v % 512 <= ke <= 511
    ensures ke == 511 || bss + (ke + 1 - k0) >= end
  {
    assert bss == 512 * (bss / 512) + bss % 512 && end == 512 * (end / 512) + end % 512;
  }

  /** Whether any page is left in a table. */
  method AnyLeaf(s: Space, m: nat) returns (any: bool)
    ensures any <==> !Bare(s.tree, L2(m))
  {
    for k := 0 to 512
      invariant forall v: nat :: 512 * m <= v < 512 * m + k ==> L3(v) !in s.tree
    {
      if L3(512 * m + k) in s.tree {
        assert (512 * m + k) / 512 == m;
        return true;
      }
    }
    forall v: nat | L3(v) in s.tree ensures v / 512 != m {
      assert 512 * (v / 512) <= v < 512 * (v / 512) + 512;
    }
    any := false;
  }

  method AnyMid(s: Space, i: nat) returns (any: bool)
    ensures any <==> !Bare(s.tree, L1(i))
  {
    for j := 0 to 512
      invariant forall m: nat :: 512 * i <= m < 512 * i + j ==> L2(m) !in s.tree
    {
      if L2(512 * i + j) in s.tree {
        assert (512 * i + j) / 512 == i;
        return true;
      }
    }
    forall m: nat | L2(m) in s.tree ensures m / 512 != i {
      assert 512 * (m / 512) <= m < 512 * (m / 512) + 512;
    }
    any := false;
  }

  /** With its pages done a table is empty exactly when none of them stays. */
  lemma TableEmpties(t0: Tree, r: Range, p: Pos, t: Tree)
    requires Swept(t0, r, p, t) && L2(p.m) in t0 && t0[L2(p.m)].Table? && VisitsMid(r, p.m)
    requires p.v >= r.hi || p.v >= 512 * (p.m + 1)
    ensures Bare(t, L2(p.m)) <==> !Keep(t0, r, L2(p.m))
  {
    if v :| LeafStays(t0, r, p.m, v) {
      SweptAt(t0, r, p, t, L3(v));
    }
    if v: nat :| L3(v) in t && v / 512 == p.m {
      SweptAt(t0, r, p, t, L3(v));
      assert LeafStays(t0, r, p.m, v);
    }
  }

  lemma TopEmpties(t0: Tree, r: Range, p: Pos, t: Tree)
    requires Swept(t0, r, p, t) && L1(p.i) in t0 && VisitsTop(r, p.i) && !r.core
    requires (512 * p.m >= r.hi && p.m > r.lo / 512) || p.m >= 512 * (p.i + 1)
    ensures Bare(t, L1(p.i)) <==> !Keep(t0, r, L1(p.i))
  {
    if m :| MidStays(t0, r, p.i, m) {
      SweptAt(t0, r, p, t, L2(m));
    }
    if m: nat :| L2(m) in t && m / 512 == p.i {
      SweptAt(t0, r, p, t, L2(m));
      assert MidStays(t0, r, p.i, m);
    }
  }

  /** A table with its pages. */
  method FreeTable(s: Space, m: nat, start: nat, bss0: nat, end: nat, ghost lag: nat, ghost t0: Tree, ghost r: Range,
                   ghost p0: Pos)
    returns (bss: nat, ghost p: Pos)
    requires s.Sound() && Swept(t0, r, p0, s.tree) && Shaped(t0)
    requires start == r.lo && end == r.hi + lag && bss0 == p0.v + lag && bss0 < end
    requires p0.m == m == p0.v / 512 && L2(m) in s.tree && s.tree[L2(m)].Table?
    requires if p0.v == r.lo then lag == 0 else r.lo < p0.v && p0.v % 512 == 0
    modifies s
    ensures s.Sound() && s.lost == old(s.lost) && Swept(t0, r, p, s.tree)
    ensures p.m == m + 1 && p.i == p0.i && bss == p.v + lag && p.v > p0.v
    ensures if bss < end then p.v == 512 * (m + 1) else p.v == r.hi <= 512 * (m + 1)
  {
    hide Swept, Shaped, Bare, Space.Sound, Keep;
    SweptAt(t0, r, p0, s.tree, L2(m));
    bss, p := FreeLeaves(s, m, start, bss0, end, lag, t0, r, p0);
    TableEmpties(t0, r, p, s.tree);
    SweepMid(t0, r, p, s.tree);
    var any := AnyLeaf(s, m);
    if !any {
      s.Release(L2(m));
    }
    p := p.(m := m + 1);
  }

  /** Where the walk stands between two 2M entries: at the start, or at a boundary
      with the whole lag behind it, or at the end. */
  ghost predicate AtMid(t0: Tree, r: Range, lag: nat, p: Pos) {
    if p.v == r.lo then lag == 0 && p.m == r.lo / 512
    else lag == Skew(t0, r.lo) && r.lo < p.v <= 512 * p.m && r.lo / 512 < p.m && (p.v == 512 * p.m || p.v >= r.hi)
  }

  lemma MidBounds(start: nat, bss: nat, end: nat, lag: nat, v: nat, m: nat, j0: nat, je: nat)
    requires bss == v + lag && bss < end && m == v / 512
    requires if v == start then lag == 0 else start < v && v % GIG == 0 && m > start / 512
    requires je == (if end / 512 == bss / 512 then bss / 512 % 512 else 511)
    requires j0 == (if start / 512 == bss / 512 then bss / 512 % 512 else 0)
    ensures j0 == m % 512 <= je <= 511
    ensures je == 511 || 512 * (m + 1) + lag >= end
  {
    if v != start {
      assert v == GIG * (v / GIG);
      assert m == 512 * (v / GIG);
    }
  }

  /** Nothing is mapped by pages under an entry that is absent or a slot. */
  lemma NoLeaves(t: Tree, m: nat)
    requires Shaped(t) && (L2(m) !in t || t[L2(m)].Slot?)
    ensures forall w: nat :: w / 512 == m ==> L3(w) !in t
  {
    AbsentBare(t, L2(m));
  }

  /** One 2M entry passed. */
  method FreeEntry(s: Space, m: nat, start: nat, bss0: nat, end: nat, ghost lag0: nat, ghost t0: Tree, ghost r: Range,
                   ghost p0: Pos)
    returns (bss: nat, ghost lag: nat, ghost p: Pos)
    requires s.Sound() && Swept(t0, r, p0, s.tree) && Shaped(t0)
    requires start == r.lo && end == r.hi + Skew(t0, r.lo) && bss0 == p0.v + lag0 && bss0 < end
    requires AtMid(t0, r, lag0, p0) && p0.m == m == p0.v / 512 && (p0.v == r.lo ==> L1(r.lo / GIG) in t0)
    modifies s
    ensures s.Sound() && s.lost == old(s.lost) && Swept(t0, r, p, s.tree)
    ensures bss == p.v + lag && AtMid(t0, r, lag, p) && p.v > r.lo && p.m == m + 1 && p.i == p0.i
    ensures bss < end ==> p.v == 512 * (m + 1)
  {
    hide Swept, Shaped, Bare, Space.Sound, Keep;
    SweptAt(t0, r, p0, s.tree, L2(m));
    if L2(m) in s.tree && s.tree[L2(m)].Table? {
      lag := lag0;
      assert lag0 == Skew(t0, r.lo);
      bss, p := FreeTable(s, m, start, bss0, end, lag, t0, r, p0);
      return;
    }
    bss, lag := bss0 + 512, Skew(t0, r.lo);
    if L2(m) in t0 { MidKinds(t0, m); }
    NoLeaves(t0, m);
    SweepGap(t0, r, p0, s.tree, 512 * (m + 1));
    p := p0.(v := 512 * (m + 1));
    SweepMid(t0, r, p, s.tree);
    if L2(m) in s.tree {
      SlotGoes(t0, r, m);
      SweptBare(t0, r, p, s.tree, m);
      s.Release(L2(m));
    }
    p := p.(m := m + 1);
  }

  lemma MidKinds(t: Tree, m: nat)
    requires Shaped(t) && L2(m) in t
    ensures t[L2(m)].Table? || t[L2(m)].Slot?
  {
    assert Placed(t, L2(m));
  }

  lemma SlotGoes(t: Tree, r: Range, m: nat)
    requires L2(m) in t && t[L2(m)].Slot? && VisitsMid(r, m)
    ensures !Keep(t, r, L2(m))
  {
  }

  lemma SweptBare(t0: Tree, r: Range, p: Pos, t: Tree, m: nat)
    requires Swept(t0, r, p, t) && Bare(t0, L2(m))
    ensures Bare(t, L2(m))
  {
    forall v: nat | L3(v) in t ensures v / 512 != m { SweptAt(t0, r, p, t, L3(v)); }
  }

  /** The 2M entries under one 1G table. */
  method FreeMiddle(s: Space, i: nat, start: nat, bss0: nat, end: nat, ghost lag0: nat, ghost t0: Tree, ghost r: Range,
                    ghost p0: Pos)
    returns (bss: nat, ghost lag: nat, ghost p: Pos)
    requires s.Sound() && Swept(t0, r, p0, s.tree) && Shaped(t0)
    requires start == r.lo && end == r.hi + Skew(t0, r.lo) && bss0 == p0.v + lag0 && bss0 < end
    requires AtMid(t0, r, lag0, p0) && p0.i == i == p0.v / GIG && p0.m == p0.v / 512
    requires if p0.v == r.lo then L1(r.lo / GIG) in t0 else p0.v % GIG == 0
    modifies s
    ensures s.Sound() && s.lost == old(s.lost) && Swept(t0, r, p, s.tree)
    ensures bss == p.v + lag && AtMid(t0, r, lag, p) && p.v > r.lo && p.m <= 512 * (i + 1) && p.i == i
    ensures bss < end ==> p.v == 512 * p.m == GIG * (i + 1)
  {
    hide Swept, Shaped, Bare, Space.Sound, Keep, Skew, Balanced, InRow;
    bss, lag, p := bss0, lag0, p0;
    var je := if end / 512 == bss / 512 then bss / 512 % 512 else 511;
    var j := if start / 512 == bss / 512 then bss / 512 % 512 else 0;
    MidBounds(start, bss, end, lag, p.v, p.m, j, je);
    RowStart(i, j, je, end, p0, lag0);
    while j <= je && bss < end
      invariant InRow(i, j, je, end, p0, lag0, p, lag) && bss == p.v + lag && AtMid(t0, r, lag, p)
      invariant p == p0 || p.v > r.lo
      invariant s.Sound() && s.lost == old(s.lost) && Swept(t0, r, p, s.tree)
    {
      RowEntry(i, j, je, end, p0, lag0, p, lag);
      ghost var q, lag1 := p, lag;
      bss, lag, p := FreeEntry(s, 512 * i + j, start, bss, end, lag, t0, r, p);
      RowNext(i, j, je, end, p0, lag0, q, lag1, p, lag);
      j := j + 1;
    }
    RowEnd(i, j, je, end, p0, lag0, p, lag);
  }

  /** The entries of one 1G table so far: the next one is 512 * i + j.  Only the first may
      begin within an entry, and after it the walk stands at a boundary or is done. */
  ghost predicate InRow(i: nat, j: nat, je: nat, end: nat, p0: Pos, lag0: nat, p: Pos, lag: nat) {
    && p.m == 512 * i + j && p.i == i && j <= je + 1 && je <= 511
    && p0.v / 512 == p0.m && p0.m / 512 == i && p0.v + lag0 < end
    && if p == p0 then lag == lag0 && j <= je else p.m > p0.m && (p.v + lag < end ==> p.v == 512 * p.m && je == 511)
  }

  lemma RowStart(i: nat, j: nat, je: nat, end: nat, p0: Pos, lag0: nat)
    requires p0.i == i == p0.v / GIG && p0.m == p0.v / 512 && p0.v + lag0 < end && j == p0.m % 512 <= je <= 511
    ensures InRow(i, j, je, end, p0, lag0, p0, lag0)
  {
    assert p0.m / 512 == i;
  }

  lemma RowEntry(i: nat, j: nat, je: nat, end: nat, p0: Pos, lag0: nat, p: Pos, lag: nat)
    requires InRow(i, j, je, end, p0, lag0, p, lag) && p.v + lag < end
    ensures p.m == 512 * i + j == p.v / 512 && p.i == i
  {
  }

  lemma RowNext(i: nat, j: nat, je: nat, end: nat, p0: Pos, lag0: nat, q: Pos, lag1: nat, p: Pos, lag: nat)
    requires InRow(i, j, je, end, p0, lag0, q, lag1) && q.v + lag1 < end && j <= je
    requires p.m == q.m + 1 && p.i == i && (p.v + lag < end ==> p.v == 512 * p.m)
    requires q == p0 ==> je == 511 || p.v + lag >= end
    ensures InRow(i, j + 1, je, end, p0, lag0, p, lag)
  {
  }

  lemma RowEnd(i: nat, j: nat, je: nat, end: nat, p0: Pos, lag0: nat, p: Pos, lag: nat)
    requires InRow(i, j, je, end, p0, lag0, p, lag) && (j > je || p.v + lag >= end)
    ensures p != p0 && p.m <= 512 * (i + 1) && p.i == i
    ensures p.v + lag < end ==> p.v == 512 * p.m == GIG * (i + 1)
  {
  }

  /** What is left after the walk. */
  ghost predicate Freed(t0: Tree, r: Range, t: Tree) {
    && (forall k :: k in t <==> k in t0 && Keep(t0, r, k))
    && (forall k :: k in t ==> t[k] == t0[k])
  }

  lemma SweepDone(t0: Tree, r: Range, p: Pos, t: Tree)
    requires Swept(t0, r, p, t)
    requires p.v >= r.hi && 512 * p.m >= r.hi && GIG * p.i >= r.hi && p.m > r.lo / 512 && p.i > r.lo / GIG
    ensures Freed(t0, r, t)
  {
    forall k ensures k in t <==> k in t0 && Keep(t0, r, k) { SweptAt(t0, r, p, t, k); }
  }

  /** vmm_free. */
  method Free(s: Space, bss0: nat, n: nat, core: bool) returns (valid: bool)
    requires s.Sound() && bss0 + n <= PAGES
    modifies s
    ensures s.Sound() && s.lost == old(s.lost) && valid == (n > 0)
    ensures valid ==> Freed(old(s.tree), Reach(old(s.tree), bss0, n, core), s.tree)
    ensures !valid ==> s.View() == old(s.View())
  {
    hide Swept, Shaped, Bare, Space.Sound, Keep, Freed, AtTop, Skew, Reach;
    if n == 0 {
      return false;
    }
    valid := true;
    ghost var t0 := s.tree;
    ghost var r := Reach(t0, bss0, n, core);
    ghost var lag, p: Pos := 0, Pos(bss0, bss0 / 512, bss0 / GIG);
    SoundShape(s);
    ReachIs(t0, bss0, n, core);
    SweepStart(t0, r);
    TopStart(t0, r);
    var start, bss, end := bss0, bss0, bss0 + n;
    while bss < end
      invariant s.Sound() && s.lost == old(s.lost) && Swept(t0, r, p, s.tree)
      invariant bss == p.v + lag && AtTop(t0, r, lag, p)
      invariant bss < end && p.v != r.lo ==> p.v == 512 * p.m == GIG * p.i
    {
      TopIndex(t0, r, lag, p, bss);
      bss, lag, p := FreeTop(s, bss / GIG % 512, start, bss, end, core, lag, t0, r, p);
    }
    TopEnd(t0, r, lag, p);
    SweepDone(t0, r, p, s.tree);
  }

  lemma ReachIs(t: Tree, lo: nat, n: nat, core: bool)
    ensures var r := Reach(t, lo, n, core);
            r.lo == lo && r.core == core && r.hi + Skew(t, lo) == lo + n
  {
  }

  lemma TopStart(t0: Tree, r: Range)
    ensures AtTop(t0, r, 0, Pos(r.lo, r.lo / 512, r.lo / GIG))
  {
  }

  lemma TopEnd(t0: Tree, r: Range, lag: nat, p: Pos)
    requires AtTop(t0, r, lag, p)
    requires p.v + lag >= r.hi + Skew(t0, r.lo) > r.lo
    ensures p.v >= r.hi && 512 * p.m >= r.hi && GIG * p.i >= r.hi && p.m > r.lo / 512 && p.i > r.lo / GIG
  {
    assert GIG * p.i == 512 * (512 * p.i);
  }

  ghost predicate AtTop(t0: Tree, r: Range, lag: nat, p: Pos) {
    AtMid(t0, r, lag, p)
    && if p.v == r.lo then p.i == r.lo / GIG else p.i > r.lo / GIG && p.m <= 512 * p.i
  }

  lemma SoundShape(s: Space)
    requires s.Sound()
    ensures Shaped(s.tree)
  {
  }

  lemma TopIndex(t0: Tree, r: Range, lag: nat, p: Pos, bss: nat)
    requires AtTop(t0, r, lag, p) && bss == p.v + lag < PAGES
    requires p.v != r.lo ==> p.v == 512 * p.m == GIG * p.i
    ensures bss / GIG % 512 == p.i == p.v / GIG && p.m == p.v / 512
    ensures p.v != r.lo ==> p.v % GIG == 0
  {
    assert Skew(t0, r.lo) < GIG;
    if p.v != r.lo {
      assert (GIG * p.i + lag) / GIG == p.i;
    }
  }

  /** One 1G entry passed. */
  method FreeTop(s: Space, i: nat, start: nat, bss0: nat, end: nat, core: bool, ghost lag0: nat, ghost t0: Tree, ghost r: Range,
                 ghost p0: Pos)
    returns (bss: nat, ghost lag: nat, ghost p: Pos)
    requires s.Sound() && Swept(t0, r, p0, s.tree) && Shaped(t0) && r.core == core
    requires start == r.lo && end == r.hi + Skew(t0, r.lo) && bss0 == p0.v + lag0 && bss0 < end
    requires AtTop(t0, r, lag0, p0) && p0.i == i == p0.v / GIG && p0.m == p0.v / 512
    requires p0.v == r.lo || p0.v % GIG == 0
    modifies s
    ensures s.Sound() && s.lost == old(s.lost) && Swept(t0, r, p, s.tree)
    ensures bss == p.v + lag && AtTop(t0, r, lag, p) && p.v > r.lo && p.i == i + 1
    ensures bss < end ==> p.v == 512 * p.m == GIG * p.i
  {
    hide Swept, Shaped, Bare, Space.Sound, Keep;
    SweptAt(t0, r, p0, s.tree, L1(i));
    SweepTop(t0, r, p0, s.tree);
    if L1(i) !in s.tree {
      bss, lag := bss0 + GIG, Skew(t0, r.lo);
      p := Pos(GIG * (i + 1), 512 * (i + 1), i + 1);
      SweepAbsent(t0, r, p0, s.tree);
      return;
    }
    bss, lag, p := FreeMiddle(s, i, start, bss0, end, lag0, t0, r, p0);
    SweepTop(t0, r, p, s.tree);
    SweptAt(t0, r, p, s.tree, L1(i));
    if !core {
      TopEmpties(t0, r, p, s.tree);
      var any := AnyMid(s, i);
      if !any {
        s.Release(L1(i));
      }
    } else {
      CoreKeeps(t0, r, i);
    }
    p := p.(i := i + 1);
  }

  lemma CoreKeeps(t: Tree, r: Range, i: nat)
    requires L1(i) in t && r.core
    ensures Keep(t, r, L1(i))
  {
  }

  // ---------------------------------------------------------------- what is let go

  /** A mapped page the walk reaches: by itself, or with its slot. */
  ghost predicate Reached(t: Tree, r: Range, v: nat) {
    if L2(v / 512) in t && t[L2(v / 512)].Slot? then VisitsMid(r, v / 512) else In(r, v)
  }

  lemma FreedTranslation(t0: Tree, r: Range, t: Tree, v: nat)
    requires Freed(t0, r, t) && Shaped(t0)
    ensures Translate(t, v) == if Reached(t0, r, v) then Unmapped else Translate(t0, v)
  {
    var k := L2(v / 512);
    if k in t0 { assert Placed(t0, k); }
    if L3(v) in t0 { assert Placed(t0, L3(v)); }
  }

  /** No slot lies partly inside the pages lo..end. */
  ghost predicate WholeSlots(t: Tree, lo: nat, end: nat) {
    forall m: nat :: L2(m) in t && t[L2(m)].Slot? ==> Whole(m, lo, end)
  }

  predicate Whole(m: nat, lo: nat, end: nat) {
    512 * m + 512 <= lo || end <= 512 * m || (lo <= 512 * m && 512 * m + 512 <= end)
  }

  /** Nothing mapped in the last pages of the range, those the walk falls short of
      when it starts in a gap: no page from hi on, and no slot that begins there. */
  ghost predicate TailEmpty(t: Tree, r: Range, end: nat) {
    forall v: nat :: r.lo <= v < end && r.hi <= v ==> TailAt(t, r, v)
  }

  ghost predicate TailAt(t: Tree, r: Range, v: nat) {
    Translate(t, v) == Unmapped || (L2(v / 512) in t && t[L2(v / 512)].Slot? && 512 * (v / 512) < r.hi)
  }

  ghost predicate Exact(t0: Tree, t: Tree, lo: nat, end: nat) {
    forall v: nat :: ExactAt(t0, t, lo, end, v)
  }

  ghost predicate ExactAt(t0: Tree, t: Tree, lo: nat, end: nat, v: nat) {
    Translate(t, v) == if lo <= v < end then Unmapped else Translate(t0, v)
  }

  /** Unmapping takes exactly its range away if and only if the range cuts no slot
      and nothing is mapped where the walk falls short.  From a 1G boundary, or from
      a page under a table, it never falls short. */
  lemma FreeExact(t0: Tree, lo: nat, n: nat, core: bool, t: Tree)
    requires Shaped(t0) && n > 0 && Freed(t0, Reach(t0, lo, n, core), t)
    ensures Exact(t0, t, lo, lo + n)
       <==> WholeSlots(t0, lo, lo + n) && TailEmpty(t0, Reach(t0, lo, n, core), lo + n)
  {
    var r := Reach(t0, lo, n, core);
    hide Freed, Shaped;
    if Exact(t0, t, lo, lo + n) {
      forall m: nat | L2(m) in t0 && t0[L2(m)].Slot? ensures Whole(m, lo, lo + n) {
        ExactWhole(t0, r, t, lo, lo + n, m);
      }
      forall v: nat | r.lo <= v < lo + n && r.hi <= v ensures TailAt(t0, r, v) {
        assert ExactAt(t0, t, lo, lo + n, v);
        FreedTranslation(t0, r, t, v);
        if Reached(t0, r, v) { ReachedTail(t0, lo, n, core, v); }
      }
    }
    if WholeSlots(t0, lo, lo + n) && TailEmpty(t0, r, lo + n) {
      var end := lo + n;
      forall v: nat ensures ExactAt(t0, t, lo, end, v) {
        FreedTranslation(t0, r, t, v);
        if Translate(t0, v) != Unmapped { WholeReached(t0, lo, n, core, v); }
      }
    }
  }

  lemma ReachedTail(t0: Tree, lo: nat, n: nat, core: bool, v: nat)
    requires Shaped(t0) && lo <= v < lo + n && Reach(t0, lo, n, core).hi <= v && Reached(t0, Reach(t0, lo, n, core), v)
    ensures TailAt(t0, Reach(t0, lo, n, core), v)
  {
    var k := L2(v / 512);
    assert k in t0 && Placed(t0, k);
    if v / 512 == lo / 512 {
      assert v / 512 / 512 == lo / GIG;
      assert Skew(t0, lo) == lo % 512;
    }
  }

  lemma ExactThere(t0: Tree, t: Tree, lo: nat, end: nat, v: nat)
    requires Exact(t0, t, lo, end)
    ensures ExactAt(t0, t, lo, end, v)
  {
  }

  lemma ExactWhole(t0: Tree, r: Range, t: Tree, lo: nat, end: nat, m: nat)
    requires Shaped(t0) && lo < end && Freed(t0, r, t) && Exact(t0, t, lo, end)
    requires L2(m) in t0 && t0[L2(m)].Slot?
    ensures Whole(m, lo, end)
  {
    hide Freed, Shaped, Exact;
    if !Whole(m, lo, end) {
      var u := if lo > 512 * m then lo else 512 * m;
      var w := if 512 * m < lo then 512 * m else 512 * m + 511;
      assert u / 512 == m == w / 512 && lo <= u < end && !(lo <= w < end);
      ExactThere(t0, t, lo, end, u);
      ExactThere(t0, t, lo, end, w);
      FreedTranslation(t0, r, t, u);
      FreedTranslation(t0, r, t, w);
    }
  }

  lemma WholeReached(t0: Tree, lo: nat, n: nat, core: bool, v: nat)
    requires Shaped(t0) && n > 0 && WholeSlots(t0, lo, lo + n) && TailEmpty(t0, Reach(t0, lo, n, core), lo + n)
    requires Translate(t0, v) != Unmapped
    ensures Reached(t0, Reach(t0, lo, n, core), v) <==> lo <= v < lo + n
  {
    var r, m := Reach(t0, lo, n, core), v / 512;
    if lo <= v < lo + n && r.hi <= v { assert TailAt(t0, r, v); }
    if L2(m) in t0 && t0[L2(m)].Slot? {
      assert Whole(m, lo, lo + n);
      assert 512 * m <= v < 512 * m + 512;
    }
  }

  /** One page mapped at 512; unmapping the pages 1 to 512 leaves it there. */
  lemma FallsShortExample()
    ensures var t0 := map[L1(0) := Table(1), L2(1) := Table(2), L3(512) := Page(3, false)];
            var r := Reach(t0, 1, 512, false);
            Shaped(t0) && r.hi == 512 && !Reached(t0, r, 512) && Translate(t0, 512) == To(3, false)
  {
    var t0 := map[L1(0) := Table(1), L2(1) := Table(2), L3(512) := Page(3, false)];
    assert L1(0) in t0 && L2(1) in t0 && L2(0) !in t0;
    assert L3(512) in t0;
    assert L2(512 / 512) == L2(1);
  }

  /** A slot over the pages 0 to 511; unmapping page 5 takes page 6 with it. */
  lemma CutSlotExample(t: Tree)
    requires Freed(map[L1(0) := Table(1), L2(0) := Slot(512, false)],
                   Reach(map[L1(0) := Table(1), L2(0) := Slot(512, false)], 5, 1, false), t)
    ensures var t0 := map[L1(0) := Table(1), L2(0) := Slot(512, false)];
            Shaped(t0) && Translate(t0, 6) == To(518, false) && Translate(t, 6) == Unmapped
  {
    var t0 := map[L1(0) := Table(1), L2(0) := Slot(512, false)];
    assert L1(0) in t0 && L2(0) in t0;
    FreedTranslation(t0, Reach(t0, 5, 1, false), t, 6);
    hide Freed;
  }

  /** From a 1G boundary nothing is left behind. */
  lemma AlignedReaches(t0: Tree, lo: nat, n: nat, core: bool)
    requires lo % GIG == 0 || (L1(lo / GIG) in t0 && L2(lo / 512) in t0 && t0[L2(lo / 512)].Table?)
    ensures Reach(t0, lo, n, core).hi == lo + n && TailEmpty(t0, Reach(t0, lo, n, core), lo + n)
  {
    assert Skew(t0, lo) == 0;
    hide Skew, TailAt;
  }

  /** Unmapping the whole window leaves no entry, empty tables included. */
  lemma WholeWindow(t0: Tree, t: Tree)
    requires Shaped(t0) && Freed(t0, Reach(t0, 0, PAGES, false), t)
    ensures t == map[]
  {
    var r := Reach(t0, 0, PAGES, false);
    forall k ensures k !in t {
      if k in t0 {
        WindowGoes(t0, r, k);
      }
    }
  }

  lemma WindowGoes(t0: Tree, r: Range, k: Key)
    requires Shaped(t0) && r == Range(0, PAGES, false) && k in t0
    ensures !Keep(t0, r, k)
  {
    assert Placed(t0, k);
    forall m, v ensures !LeafStays(t0, r, m, v) {
      if L3(v) in t0 { assert Placed(t0, L3(v)); }
    }
    forall i, m ensures !MidStays(t0, r, i, m) {
      if L2(m) in t0 { assert Placed(t0, L2(m)); }
    }
  }

  /** Whatever was mapped and unmapped before, unmapping the whole window brings
      both counters back; and every frame is free again, once, unless the slot
      allocator lost some. */
  method FreeAll(s: Space)
    requires s.Sound()
    modifies s
    ensures s.Sound() && s.tree == map[] && s.lost == old(s.lost)
    ensures s.allocmem == s.alloc0 && s.linkmem == s.link0
    ensures !s.lost ==> Canonical(s.list) && FreeSet(s.list) == s.all
  {
    hide Freed, Balanced, Shaped;
    SoundShape(s);
    var valid := Free(s, 0, PAGES, false);
    WholeWindow(old(s.tree), s.tree);
    EmptyBalance(s.View(), s.alloc0, s.link0, s.all, s.lost);
  }

  lemma EmptyBalance(s: Mem, a: int, l: int, all: set<nat>, lost: bool)
    requires Balanced(s, a, l, all, lost) && s.tree == map[]
    ensures s.allocmem == a && s.linkmem == l
    ensures !lost ==> Canonical(s.list) && FreeSet(s.list) == all
  {
    assert AllFrames(s.tree) == {};
  }
}
