/** The code segment and its buffer exchanged: the first four 1G entries of the
    window with the last four. */
module Swap {
  import opened FreeList
  import opened Requests
  import opened PageTable
  import opened Vmm
  import opened TextSegment

  function Other(a: nat, b: nat, i: nat): nat {
    if i == a then b else if i == b then a else i
  }

  /** Where an entry goes when the 1G entries a and b change places. */
  function Moved(a: nat, b: nat, k: Key): Key {
    match k
    case L1(i) => L1(Other(a, b, i))
    case L2(m) => L2(512 * Other(a, b, m / 512) + m % 512)
    case L3(v) => L3(GIG * Other(a, b, v / GIG) + v % GIG)
  }

  lemma MovedTwice(a: nat, b: nat, k: Key)
    ensures Moved(a, b, Moved(a, b, k)) == k
  {
  }

  function Exchanged(t: Tree, a: nat, b: nat): Tree {
    map k | k in (set j | j in t :: Moved(a, b, j)) && Moved(a, b, k) in t :: t[Moved(a, b, k)]
  }

  lemma ExchangedAt(t: Tree, a: nat, b: nat, k: Key)
    ensures k in Exchanged(t, a, b) <==> Moved(a, b, k) in t
    ensures k in Exchanged(t, a, b) ==> Exchanged(t, a, b)[k] == t[Moved(a, b, k)]
  {
    hide Moved;
    MovedTwice(a, b, k);
    if Moved(a, b, k) in t { assert k == Moved(a, b, Moved(a, b, k)); }
  }

  lemma ExchangedRemove(t: Tree, a: nat, b: nat, k: Key)
    ensures Exchanged(t - {k}, a, b) == Exchanged(t, a, b) - {Moved(a, b, k)}
  {
    hide Moved, Exchanged;
    var x, y := Exchanged(t - {k}, a, b), Exchanged(t, a, b) - {Moved(a, b, k)};
    forall j ensures j in x <==> j in y
      ensures j in x ==> x[j] == y[j]
    {
      ExchangedAt(t - {k}, a, b, j);
      ExchangedAt(t, a, b, j);
      MovedTwice(a, b, j);
      MovedTwice(a, b, k);
    }
  }

  lemma {:induction false} ExchangedSums(t: Tree, a: nat, b: nat)
    ensures OwnSum(Exchanged(t, a, b)) == OwnSum(t) && LinkSum(Exchanged(t, a, b)) == LinkSum(t)
    decreases |t|
  {
    hide Moved, Exchanged, OwnSize, LinkSize;
    if t == map[] {
      assert Exchanged(t, a, b) == map[] by {
        forall k ensures k !in Exchanged(t, a, b) { ExchangedAt(t, a, b, k); }
      }
    } else {
      var k :| k in t;
      MovedTwice(a, b, k);
      ExchangedAt(t, a, b, Moved(a, b, k));
      SumRemove(t, k);
      SumRemove(Exchanged(t, a, b), Moved(a, b, k));
      ExchangedRemove(t, a, b, k);
      ExchangedSums(t - {k}, a, b);
    }
  }

  lemma ExchangedGrounded(t: Tree, a: nat, b: nat)
    requires Grounded(t)
    ensures Grounded(Exchanged(t, a, b))
  {
    hide Moved, Exchanged, OwnSize;
    var x := Exchanged(t, a, b);
    forall k | k in x && OwnSize(x[k]) > 0 ensures x[k].frame > 0 { ExchangedAt(t, a, b, k); }
  }

  lemma ExchangedOwning(t: Tree, a: nat, b: nat, free: set<nat>)
    requires Owning(t, free)
    ensures Owning(Exchanged(t, a, b), free)
    ensures AllFrames(Exchanged(t, a, b)) == AllFrames(t)
  {
    hide Moved, Exchanged, Frames, OwnSize;
    var x := Exchanged(t, a, b);
    forall k | k in x ensures Frames(x[k]) !! free { ExchangedAt(t, a, b, k); }
    forall j, k | j in x && k in x && j != k ensures Frames(x[j]) !! Frames(x[k]) {
      ExchangedAt(t, a, b, j);
      ExchangedAt(t, a, b, k);
      MovedTwice(a, b, j);
      MovedTwice(a, b, k);
    }
    forall f ensures f in AllFrames(x) <==> f in AllFrames(t) {
      if f in AllFrames(x) {
        var k :| k in x && f in Frames(x[k]);
        ExchangedAt(t, a, b, k);
      }
      if f in AllFrames(t) {
        var k :| k in t && f in Frames(t[k]);
        MovedTwice(a, b, k);
        ExchangedAt(t, a, b, Moved(a, b, k));
      }
    }
  }

  lemma ExchangedShaped(t: Tree, a: nat, b: nat)
    requires Shaped(t) && a < 512 && b < 512
    ensures Shaped(Exchanged(t, a, b))
  {
    var x := Exchanged(t, a, b);
    hide Exchanged;
    forall k | k in x ensures Placed(x, k) {
      ExchangedAt(t, a, b, k);
      assert Placed(t, Moved(a, b, k));
      match k
      case L1(i) =>
      case L2(m) =>
        ExchangedAt(t, a, b, L1(m / 512));
      case L3(v) =>
        MovedPage(a, b, v);
        ExchangedAt(t, a, b, L2(v / 512));
    }
  }

  lemma MovedPage(a: nat, b: nat, v: nat)
    ensures Moved(a, b, L2(v / 512)) == L2(Moved(a, b, L3(v)).v / 512)
    ensures Moved(a, b, L3(v)).v % 512 == v % 512
    ensures a < 512 && b < 512 && Moved(a, b, L3(v)).v < PAGES ==> v < PAGES
  {
    var w := Moved(a, b, L3(v)).v;
    assert v / 512 / 512 == v / GIG && v % GIG == 512 * (v / 512 % 512) + v % 512;
    assert w == 512 * (512 * Other(a, b, v / GIG) + v / 512 % 512) + v % 512;
  }

  lemma ExchangedTranslation(t: Tree, a: nat, b: nat, v: nat)
    ensures Translate(Exchanged(t, a, b), v) == Translate(t, Moved(a, b, L3(v)).v)
  {
    MovedPage(a, b, v);
    ExchangedAt(t, a, b, L2(v / 512));
    ExchangedAt(t, a, b, L3(v));
    hide Exchanged, Moved;
  }

  lemma ExchangedBalanced(s: Mem, al: int, li: int, all: set<nat>, lost: bool, a: nat, b: nat)
    requires Balanced(s, al, li, all, lost)
    ensures Balanced(s.(tree := Exchanged(s.tree, a, b)), al, li, all, lost)
  {
    hide Exchanged, Owning, Canonical, FreeSet, Grounded, Based;
    ExchangedSums(s.tree, a, b);
    ExchangedGrounded(s.tree, a, b);
    if !lost { ExchangedOwning(s.tree, a, b, FreeSet(s.list)); }
  }

  // ---------------------------------------------------------------- the shared marks

  /** The frame an entry leads to; an absent one has the address 0 in it. */
  function FrameAt(t: Tree, v: nat): nat { if L3(v) in t then t[L3(v)].frame else 0 }

  /** vmm_page for a page that keeps its frame. */
  function Marked(t: Tree, v: nat, shared: bool): Tree {
    t[L3(v) := Page(FrameAt(t, v), shared)]
  }

  /** There is a page table for page v. */
  predicate HasTable(t: Tree, v: nat) { L2(v / 512) in t && t[L2(v / 512)].Table? }

  function Remarked(t: Tree): Tree {
    Marked(Marked(Marked(t, BUF, true), 0, false), 1, false)
  }

  function Weight(shared: bool): nat { if shared then 1 else 0 }

  lemma MarkedSums(t: Tree, v: nat, shared: bool)
    requires L3(v) in t && t[L3(v)].Page?
    ensures OwnSum(Marked(t, v, shared)) == OwnSum(t) + Weight(t[L3(v)].shared) - Weight(shared)
    ensures LinkSum(Marked(t, v, shared)) == LinkSum(t) - Weight(t[L3(v)].shared) + Weight(shared)
  {
    var k := L3(v);
    SumRemove(t, k);
    SumRemove(Marked(t, v, shared), k);
    assert Marked(t, v, shared) - {k} == t - {k};
  }

  ghost predicate Paged(t: Tree, v: nat) { L3(v) in t && t[L3(v)].Page? }

  /** The counters stay right exactly when one of the three pages was shared. */
  lemma RemarkedSums(t: Tree)
    requires Paged(t, 0) && Paged(t, 1) && Paged(t, BUF)
    ensures var n := Weight(t[L3(0)].shared) + Weight(t[L3(1)].shared) + Weight(t[L3(BUF)].shared);
            (OwnSum(Remarked(t)) == OwnSum(t) <==> n == 1) && (LinkSum(Remarked(t)) == LinkSum(t) <==> n == 1)
  {
    MarkedSums(t, BUF, true);
    var t1 := Marked(t, BUF, true);
    MarkedSums(t1, 0, false);
    MarkedSums(Marked(t1, 0, false), 1, false);
  }

  /** Three pages of its own: one of them becomes a shared one that nobody counts. */
  lemma RemarkedExample()
    ensures var t := map[L1(0) := Table(1), L2(0) := Table(2), L3(0) := Page(3, false), L3(1) := Page(4, false),
                         L1(508) := Table(5), L2(508 * 512) := Table(6), L3(BUF) := Page(7, false)];
            Shaped(t) && Paged(t, 0) && Paged(t, 1) && Paged(t, BUF)
            && OwnSum(Remarked(t)) != OwnSum(t) && LinkSum(Remarked(t)) != LinkSum(t)
  {
    var t := map[L1(0) := Table(1), L2(0) := Table(2), L3(0) := Page(3, false), L3(1) := Page(4, false),
                 L1(508) := Table(5), L2(508 * 512) := Table(6), L3(BUF) := Page(7, false)];
    assert L1(0) in t && L2(0) in t && L1(508) in t && L2(508 * 512) in t && L3(0) in t && L3(1) in t && L3(BUF) in t;
    RemarkedSums(t);
    hide Remarked;
  }

  /** The control block of the task mapped twice: its own page is the shared one
      of the two. */
  ghost predicate Twice(t: Tree, own: nat, link: nat) {
    Paged(t, own) && Paged(t, link) && own != link
    && !t[L3(own)].shared && t[L3(link)].shared && t[L3(link)].frame == t[L3(own)].frame
  }

  /** One page entry replaced by another. */
  lemma OwningReplace(t: Tree, free: set<nat>, k: Key, e: Pte)
    requires Owning(t, free) && k in t
    requires Frames(e) <= free + Frames(t[k])
    ensures Owning(t[k := e], free + Frames(t[k]) - Frames(e))
    ensures AllFrames(t[k := e]) + Frames(t[k]) == AllFrames(t) + Frames(e)
  {
    hide Owning, AllFrames, Frames, OwnSize;
    var less := t - {k};
    OwningRemove(t, free, k);
    OwningAdd(less, free + Frames(t[k]), k, e);
    assert less[k := e] == t[k := e];
  }

  /** The page that owns the frame and the one that links to it change roles. */
  lemma RolesOwning(t: Tree, free: set<nat>, own: nat, link: nat)
    requires Owning(t, free) && Twice(t, own, link)
    ensures var t' := Marked(Marked(t, own, true), link, false);
            Owning(t', free) && AllFrames(t') == AllFrames(t)
  {
    var t1, f := Marked(t, own, true), t[L3(own)].frame;
    OwnedApart(t, free, L3(own));
    assert Frames(Page(f, false)) == {f};
    assert Frames(Page(f, true)) == {};
    hide Owning, AllFrames, Frames;
    OwningReplace(t, free, L3(own), Page(f, true));
    assert free + {f} - {} == free + {f};
    OwningReplace(t1, free + {f}, L3(link), Page(f, false));
    assert free + {f} + {} - {f} == free;
    assert AllFrames(t1) + {f} == AllFrames(t) + {};
  }

  lemma RolesBalanced(s: Mem, al: int, li: int, all: set<nat>, lost: bool, own: nat, link: nat)
    requires Balanced(s, al, li, all, lost) && Twice(s.tree, own, link)
    ensures Balanced(s.(tree := Marked(Marked(s.tree, own, true), link, false)), al, li, all, lost)
  {
    hide Owning, AllFrames, FreeSet, Canonical, Marked, Grounded, Based;
    RolesSums(s.tree, own, link);
    RolesGrounded(s.tree, own, link);
    if !lost { RolesOwning(s.tree, FreeSet(s.list), own, link); }
  }

  lemma RolesGrounded(t: Tree, own: nat, link: nat)
    requires Grounded(t) && Twice(t, own, link)
    ensures Grounded(Marked(Marked(t, own, true), link, false))
  {
    assert OwnSize(t[L3(own)]) > 0;
  }

  lemma RolesSums(t: Tree, own: nat, link: nat)
    requires Twice(t, own, link)
    ensures var t' := Marked(Marked(t, own, true), link, false);
            OwnSum(t') == OwnSum(t) && LinkSum(t') == LinkSum(t)
  {
    MarkedSums(t, own, true);
    MarkedSums(Marked(t, own, true), link, false);
  }

  lemma MarkedShaped(t: Tree, v: nat, shared: bool)
    requires Shaped(t) && v < PAGES && HasTable(t, v)
    ensures Shaped(Marked(t, v, shared))
    ensures forall w: nat :: HasTable(Marked(t, v, shared), w) <==> HasTable(t, w)
    ensures forall w :: Translate(Marked(t, v, shared), w) == if w == v then To(FrameAt(t, v), shared) else Translate(t, w)
    ensures forall w :: w != v ==> FrameAt(Marked(t, v, shared), w) == FrameAt(t, w)
  {
    var x := Marked(t, v, shared);
    forall k | k in x ensures Placed(x, k) {
      if k in t { assert Placed(t, k); }
    }
  }

  lemma PageTranslated(t: Tree, v: nat)
    requires Shaped(t)
    ensures Paged(t, v) <==> L3(v) in t
    ensures Paged(t, v) ==> HasTable(t, v) && Translate(t, v) == To(t[L3(v)].frame, t[L3(v)].shared)
    ensures HasTable(t, v) ==> FrameAt(t, v) == if Translate(t, v).To? then Translate(t, v).frame else 0
  {
    if L3(v) in t { assert Placed(t, L3(v)); }
  }

  // ---------------------------------------------------------------- vmm_swaptextbuf

  /** The page whose contents come to page v. */
  function Across(v: nat): nat {
    if v < DYN then v + BUF else if BUF <= v < PAGES then v - BUF else v
  }

  /** With the marks of the two control block pages and the message queue set.  One that
      is not mapped becomes a page of frame 0. */
  function Seen(x: Target, v: nat): Target {
    if v == BUF || v <= 1 then To(if x.To? then x.frame else 0, v == BUF) else x
  }

  ghost predicate SwappedAt(t0: Tree, t: Tree, v: nat) {
    Translate(t, v) == Seen(Translate(t0, Across(v)), v)
  }

  /** After i of the four exchanges. */
  function AcrossSome(i: nat, v: nat): nat {
    if v < GIG * i then v + BUF else if BUF <= v < BUF + GIG * i then v - BUF else v
  }

  lemma AcrossNext(i: nat, v: nat)
    requires i < 4
    ensures AcrossSome(i, Moved(i, 508 + i, L3(v)).v) == AcrossSome(i + 1, v)
  {
    assert v == GIG * (v / GIG) + v % GIG;
    assert BUF == GIG * 508;
  }

  /** The layout a task has when its new code is ready: the control block is its own
      page 0 and linked at the buffer, the new message queue is its own. */
  ghost predicate Ready(t: Tree) {
    Twice(t, 0, BUF) && Paged(t, BUF + 1) && !t[L3(BUF + 1)].shared
  }

  /** The first i exchanges done. */
  ghost predicate Partly(t0: Tree, t: Tree, i: nat) {
    forall v: nat :: PartlyAt(t0, t, i, v)
  }

  ghost predicate PartlyAt(t0: Tree, t: Tree, i: nat, v: nat) {
    && Translate(t, v) == Translate(t0, AcrossSome(i, v))
    && (L3(v) in t <==> L3(AcrossSome(i, v)) in t0)
    && (L3(v) in t ==> t[L3(v)] == t0[L3(AcrossSome(i, v))])
    && (L2(v / 512) in t <==> L2(AcrossSome(i, v) / 512) in t0)
    && (L2(v / 512) in t ==> t[L2(v / 512)] == t0[L2(AcrossSome(i, v) / 512)])
  }

  lemma PartlyNext(t0: Tree, t: Tree, i: nat)
    requires Partly(t0, t, i) && i < 4
    ensures Partly(t0, Exchanged(t, i, 508 + i), i + 1)
  {
    hide Exchanged, Translate, AcrossSome, Other;
    var x, n := Exchanged(t, i, 508 + i), i + 1;
    forall v: nat ensures PartlyAt(t0, x, n, v) {
      var w := Moved(i, 508 + i, L3(v)).v;
      assert PartlyAt(t0, t, i, w);
      AcrossNext(i, v);
      ExchangedTranslation(t, i, 508 + i, v);
      ExchangedAt(t, i, 508 + i, L3(v));
      MovedPage(i, 508 + i, v);
      ExchangedAt(t, i, 508 + i, L2(v / 512));
    }
  }

  /** The marks on top of the exchanges. */
  lemma MarksSeen(t0: Tree, t: Tree)
    requires Partly(t0, t, 4) && Shaped(t) && HasTable(t, 0) && HasTable(t, BUF)
    ensures Shaped(Remarked(t))
    ensures forall v :: 0 <= v < PAGES ==> SwappedAt(t0, Remarked(t), v)
  {
    var t1 := Marked(t, BUF, true);
    var t2 := Marked(t1, 0, false);
    assert L2(1 / 512) == L2(0 / 512);
    MarkedShaped(t, BUF, true);
    MarkedShaped(t1, 0, false);
    MarkedShaped(t2, 1, false);
    PageTranslated(t, 0);
    PageTranslated(t, 1);
    PageTranslated(t, BUF);
    hide Shaped, Translate, Marked, FrameAt, HasTable;
    var x := Remarked(t);
    forall v | 0 <= v < PAGES ensures SwappedAt(t0, x, v) {
      assert PartlyAt(t0, t, 4, v);
    }
  }

  lemma TablesAcross(t0: Tree, t: Tree)
    requires Partly(t0, t, 4)
    ensures HasTable(t, BUF) <==> HasTable(t0, 0)
    ensures HasTable(t, 0) <==> HasTable(t0, BUF)
    ensures L2(BUF / 512) in t <==> L2(0) in t0
    ensures L2(0) in t <==> L2(BUF / 512) in t0
  {
    assert PartlyAt(t0, t, 4, 0) && PartlyAt(t0, t, 4, BUF);
  }

  lemma RolesAcross(t0: Tree, t: Tree)
    requires Partly(t0, t, 4)
    ensures Paged(t0, 0) ==> Paged(t, BUF) && t[L3(BUF)] == t0[L3(0)]
    ensures Paged(t0, BUF) ==> Paged(t, 0) && t[L3(0)] == t0[L3(BUF)]
    ensures Paged(t0, BUF + 1) ==> Paged(t, 1) && t[L3(1)] == t0[L3(BUF + 1)]
  {
    assert PartlyAt(t0, t, 4, 0) && PartlyAt(t0, t, 4, 1) && PartlyAt(t0, t, 4, BUF);
  }

  lemma Unmarked(t: Tree, v: nat)
    requires Paged(t, v) && !t[L3(v)].shared
    ensures Marked(t, v, false) == t
  {
  }

  /** The code segment and its buffer change places; the link to the control block
      moves with the buffer.  The kernel stops where there is no page table for a page it
      marks; a slot in the place of that table would be taken for one. */
  method SwapTextBuf(s: Space) returns (ok: bool)
    requires s.Sound()
    requires (L2(0) in s.tree ==> s.tree[L2(0)].Table?) && (L2(BUF / 512) in s.tree ==> s.tree[L2(BUF / 512)].Table?)
    modifies s`tree
    ensures ok <==> HasTable(old(s.tree), 0) && HasTable(old(s.tree), BUF)
    ensures ok ==> Shaped(s.tree) && forall v :: 0 <= v < PAGES ==> SwappedAt(old(s.tree), s.tree, v)
    ensures Ready(old(s.tree)) ==> ok && s.Sound() && Twice(s.tree, 0, BUF)
  {
    hide Exchanged, Shaped, Balanced, Moved, Translate, Partly, SwappedAt;
    ghost var t0 := s.tree;
    NotYet(t0);
    ReadyTables(s);
    var i := 0;
    while i < 4
      invariant 0 <= i <= 4 && s.Sound() && Partly(t0, s.tree, i)
    {
      PartlyNext(t0, s.tree, i);
      ExchangedShaped(s.tree, i, 508 + i);
      ExchangedBalanced(s.View(), s.alloc0, s.link0, s.all, s.lost, i, 508 + i);
      s.tree := Exchanged(s.tree, i, 508 + i);
      i := i + 1;
    }
    ghost var t := s.tree;
    TablesAcross(t0, t);
    if L2(BUF / 512) !in s.tree {
      return false;
    }
    if L2(0) !in s.tree {
      s.tree := Marked(s.tree, BUF, true);
      return false;
    }
    ok := true;
    MarksSeen(t0, t);
    if Ready(t0) {
      MarksBalanced(s, t0);
    }
    hide Marked;
    s.tree := Marked(s.tree, BUF, true);
    s.tree := Marked(s.tree, 0, false);
    s.tree := Marked(s.tree, 1, false);
  }

  lemma ReadyTables(s: Space)
    requires s.Sound()
    ensures Ready(s.tree) ==> HasTable(s.tree, 0) && HasTable(s.tree, BUF)
  {
    hide Balanced, Translate;
    PageTranslated(s.tree, 0);
    PageTranslated(s.tree, BUF);
  }

  /** With the control block linked at the buffer the marks keep the books. */
  lemma MarksBalanced(s: Space, t0: Tree)
    requires s.Sound() && Partly(t0, s.tree, 4) && Ready(t0)
    ensures Balanced(s.View().(tree := Remarked(s.tree)), s.alloc0, s.link0, s.all, s.lost)
    ensures Twice(Remarked(s.tree), 0, BUF)
  {
    hide Shaped, Balanced, Translate, Partly;
    var t := s.tree;
    RolesAcross(t0, t);
    Unmarked(Marked(Marked(t, BUF, true), 0, false), 1);
    RolesBalanced(s.View(), s.alloc0, s.link0, s.all, s.lost, BUF, 0);
  }

  lemma NotYet(t: Tree)
    ensures Partly(t, t, 0)
  {
    hide Translate;
    forall v: nat ensures PartlyAt(t, t, 0, v) {}
  }
}
