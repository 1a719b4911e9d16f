/** The free list of the physical page allocator, as a value: a sequence of
    runs of page frames.  Addresses are frame numbers (address >> 12). */
module FreeList {
  const SLOT: nat := 512            // frames in one 2M slot

  datatype Entry = Entry(base: nat, size: nat) {
    function End(): nat { base + size }
  }

  // ---------------------------------------------------------------- sets of frames

  /** The frames base, base + 1, ..., base + n - 1. */
  function Block(base: nat, n: nat): (r: set<nat>)
    ensures forall f: nat :: f in r <==> base <= f < base + n
  {
    if n == 0 then {} else Block(base, n - 1) + {base + n - 1}
  }

  lemma {:induction false} BlockSize(base: nat, n: nat)
    ensures |Block(base, n)| == n
  {
    if n > 0 { BlockSize(base, n - 1); }
  }

  ghost predicate IsFree(s: seq<Entry>, f: nat) {
    exists i :: 0 <= i < |s| && s[i].base <= f < s[i].End()
  }

  function FreeSet(s: seq<Entry>): set<nat> {
    if s == [] then {}
    else FreeSet(s[..|s| - 1]) + Block(s[|s| - 1].base, s[|s| - 1].size)
  }

  lemma {:induction false} FreeMember(s: seq<Entry>, f: nat)
    ensures f in FreeSet(s) <==> IsFree(s, f)
  {
    if s != [] {
      var n := |s| - 1;
      FreeMember(s[..n], f);
      if IsFree(s[..n], f) {
        var i :| 0 <= i < n && s[..n][i].base <= f < s[..n][i].End();
        assert s[i].base <= f < s[i].End();
      }
    }
  }

  lemma EntryFree(s: seq<Entry>, i: nat)
    requires i < |s|
    ensures Block(s[i].base, s[i].size) <= FreeSet(s)
  {
    forall f | f in Block(s[i].base, s[i].size) ensures f in FreeSet(s) {
      assert s[i].base <= f < s[i].End();
      FreeMember(s, f);
    }
  }

  function TotalSize(s: seq<Entry>): nat {
    if s == [] then 0 else TotalSize(s[..|s| - 1]) + s[|s| - 1].size
  }

  // ---------------------------------------------------------------- the canonical form

  predicate Apart(a: Entry, b: Entry) {
    a.End() < b.base || b.End() < a.base
  }

  /** Runs are non-empty, never start at frame 0, and no two overlap or touch. */
  ghost predicate Canonical(s: seq<Entry>) {
    && (forall i :: 0 <= i < |s| ==> s[i].size > 0 && s[i].base > 0)
    && (forall i, j :: 0 <= i < j < |s| ==> Apart(s[i], s[j]))
  }

  ghost predicate MaximalRun(free: set<nat>, e: Entry) {
    && e.size > 0
    && e.base > 0
    && Block(e.base, e.size) <= free
    && e.base - 1 !in free
    && e.End() !in free
  }

  lemma SameEntry(s: seq<Entry>, i: nat, j: nat, f: nat)
    requires Canonical(s) && i < |s| && j < |s|
    requires s[i].base <= f < s[i].End() && s[j].base <= f <= s[j].End()
    ensures i == j
  {
  }

  lemma FreeAt(s: seq<Entry>, f: nat) returns (i: nat)
    requires f in FreeSet(s)
    ensures i < |s| && s[i].base <= f < s[i].End()
  {
    FreeMember(s, f);
    i :| 0 <= i < |s| && s[i].base <= f < s[i].End();
  }

  /** Neighbouring free frames lie in the same run of a canonical list. */
  lemma {:induction false} RunCovered(s: seq<Entry>, b: nat, n: nat) returns (i: nat)
    requires Canonical(s) && n > 0
    requires Block(b, n) <= FreeSet(s)
    ensures i < |s| && s[i].base <= b && b + n <= s[i].End()
  {
    if n == 1 {
      assert b in Block(b, 1);
      i := FreeAt(s, b);
    } else {
      assert Block(b, n - 1) <= Block(b, n);
      i := RunCovered(s, b, n - 1);
      assert b + n - 1 in Block(b, n);
      var j := FreeAt(s, b + n - 1);
      SameEntry(s, j, i, b + n - 1);
    }
  }

  /** A canonical list holds exactly the maximal runs of its free set. */
  lemma CanonicalIsMaximalRuns(s: seq<Entry>, e: Entry)
    requires Canonical(s)
    ensures e in s <==> MaximalRun(FreeSet(s), e)
  {
    if e in s {
      var i :| 0 <= i < |s| && s[i] == e;
      EntryFree(s, i);
      if e.base - 1 in FreeSet(s) {
        var j := FreeAt(s, e.base - 1);
        SameEntry(s, i, j, e.base);
        assert false;
      }
      if e.End() in FreeSet(s) {
        var j := FreeAt(s, e.End());
        SameEntry(s, j, i, e.End());
        assert false;
      }
    }
    if MaximalRun(FreeSet(s), e) {
      var i := RunCovered(s, e.base, e.size);
      EntryFree(s, i);
      assert s[i] == e;
    }
  }

  /** Two canonical lists of the same free set hold the same runs. */
  lemma CanonicalUnique(s: seq<Entry>, t: seq<Entry>)
    requires Canonical(s) && Canonical(t) && FreeSet(s) == FreeSet(t)
    ensures forall e :: e in s <==> e in t
    ensures |s| == |t|
  {
    forall e ensures e in s <==> e in t {
      CanonicalIsMaximalRuns(s, e);
      CanonicalIsMaximalRuns(t, e);
    }
    var es, et := set e | e in s, set e | e in t;
    assert es == et;
    DistinctCount(s);
    DistinctCount(t);
  }

  lemma {:induction false} DistinctCount(s: seq<Entry>)
    requires Canonical(s)
    ensures |set e | e in s| == |s|
  {
    if s != [] {
      var n := |s| - 1;
      var t := s[..n];
      assert Canonical(t);
      DistinctCount(t);
      forall k | 0 <= k < n ensures t[k] != s[n] { assert Apart(s[k], s[n]); }
      assert (set e | e in s) == (set e | e in t) + {s[n]} by {
        assert s == t + [s[n]];
      }
    }
  }

  lemma TailClear(s: seq<Entry>)
    requires Canonical(s) && s != []
    ensures FreeSet(s[..|s| - 1]) !! Block(s[|s| - 1].base, s[|s| - 1].size)
  {
    var n := |s| - 1;
    forall f | f in FreeSet(s[..n]) ensures f !in Block(s[n].base, s[n].size) {
      var i := FreeAt(s[..n], f);
      assert Apart(s[i], s[n]);
    }
  }

  /** The sizes of a canonical list count its free frames. */
  lemma {:induction false} TotalIsFreeCount(s: seq<Entry>)
    requires Canonical(s)
    ensures TotalSize(s) == |FreeSet(s)|
  {
    if s != [] {
      var n := |s| - 1;
      TotalIsFreeCount(s[..n]);
      BlockSize(s[n].base, s[n].size);
      TailClear(s);
    }
  }

  // ---------------------------------------------------------------- edits of the list

  function Removed(s: seq<Entry>, i: nat): (r: seq<Entry>)
    requires i < |s|
  {
    s[..i] + s[i + 1..]
  }

  lemma {:induction false} ConcatFree(a: seq<Entry>, b: seq<Entry>)
    ensures FreeSet(a + b) == FreeSet(a) + FreeSet(b)
  {
    if b == [] {
      assert a + b == a;
    } else {
      var n := |b| - 1;
      ConcatFree(a, b[..n]);
      assert (a + b)[..|a + b| - 1] == a + b[..n];
    }
  }

  lemma SingleFree(e: Entry)
    ensures FreeSet([e]) == Block(e.base, e.size)
  {
    assert [e][..0] == [];
  }

  /** The free set of a list in which entry i is replaced by the entries `es`. */
  lemma ReplacedFree(s: seq<Entry>, i: nat, es: seq<Entry>)
    requires i < |s|
    ensures FreeSet(s[..i] + es + s[i + 1..]) == FreeSet(Removed(s, i)) + FreeSet(es)
  {
    ConcatFree(s[..i], es);
    ConcatFree(s[..i] + es, s[i + 1..]);
    ConcatFree(s[..i], s[i + 1..]);
  }

  lemma EntryAndRest(s: seq<Entry>, i: nat)
    requires i < |s|
    ensures FreeSet(s) == FreeSet(Removed(s, i)) + Block(s[i].base, s[i].size)
  {
    UpdatedFree(s, i, s[i]);
    assert s[i := s[i]] == s;
  }

  lemma UpdatedFree(s: seq<Entry>, i: nat, e: Entry)
    requires i < |s|
    ensures FreeSet(s[i := e]) == FreeSet(Removed(s, i)) + Block(e.base, e.size)
  {
    ReplacedFree(s, i, [e]);
    SingleFree(e);
    assert s[i := e] == s[..i] + [e] + s[i + 1..];
  }

  /** The other entries of a canonical list stay clear of entry i. */
  lemma RestIsClear(s: seq<Entry>, i: nat)
    requires Canonical(s) && i < |s|
    ensures Canonical(Removed(s, i))
    ensures FreeSet(Removed(s, i)) == FreeSet(s) - Block(s[i].base, s[i].size)
  {
    RestCanonical(s, i);
    EntryAndRest(s, i);
    forall f | f in FreeSet(Removed(s, i)) ensures f !in Block(s[i].base, s[i].size) {
      NotInRest(s, i, f);
    }
  }

  lemma RestCanonical(s: seq<Entry>, i: nat)
    requires Canonical(s) && i < |s|
    ensures Canonical(Removed(s, i))
  {
    var r := Removed(s, i);
    forall k | 0 <= k < |r| ensures r[k] == s[if k < i then k else k + 1] {}
  }

  lemma NotInRest(s: seq<Entry>, i: nat, f: nat)
    requires Canonical(s) && i < |s| && f in FreeSet(Removed(s, i))
    ensures !(s[i].base <= f < s[i].End())
  {
    var k := FreeAt(Removed(s, i), f);
    var k' := if k < i then k else k + 1;
    assert s[k'] == Removed(s, i)[k];
    if s[i].base <= f < s[i].End() { SameEntry(s, i, k', f); assert false; }
  }

  /** Replacing entry i by canonical entries inside it keeps the form. */
  lemma ReplacedCanonical(s: seq<Entry>, i: nat, es: seq<Entry>)
    requires Canonical(s) && i < |s| && Canonical(es)
    requires forall k :: 0 <= k < |es| ==> s[i].base <= es[k].base && es[k].End() <= s[i].End()
    ensures Canonical(s[..i] + es + s[i + 1..])
  {
    RestCanonical(s, i);
    var a, c := s[..i], s[i + 1..];
    assert forall k :: 0 <= k < |c| ==> c[k] == s[i + 1 + k];
    assert forall j, k :: 0 <= j < |a| && 0 <= k < |c| ==> Apart(a[j], c[k]);
    assert forall j, k :: 0 <= j < |a| && 0 <= k < |es| ==> Apart(a[j], es[k]) by {
      forall j, k | 0 <= j < |a| && 0 <= k < |es| ensures Apart(a[j], es[k]) { assert Apart(s[j], s[i]); }
    }
    assert forall j, k :: 0 <= j < |es| && 0 <= k < |c| ==> Apart(es[j], c[k]) by {
      forall j, k | 0 <= j < |es| && 0 <= k < |c| ensures Apart(es[j], c[k]) { assert Apart(s[i], s[i + 1 + k]); }
    }
    JoinCanonical(a, es);
    JoinCanonical(a + es, c);
  }

  lemma JoinCanonical(a: seq<Entry>, b: seq<Entry>)
    requires Canonical(a) && Canonical(b)
    requires forall j, k :: 0 <= j < |a| && 0 <= k < |b| ==> Apart(a[j], b[k])
    ensures Canonical(a + b)
  {
  }

  // ---------------------------------------------------------------- pmm_alloc

  /** First entry at or after i with room for n frames, or |s|. */
  function FindFit(s: seq<Entry>, n: nat, i: nat): (r: nat)
    requires i <= |s|
    ensures i <= r <= |s|
    ensures r < |s| ==> s[r].size >= n
    ensures forall k :: i <= k < r ==> s[k].size < n
    decreases |s| - i
  {
    if i == |s| || s[i].size >= n then i else FindFit(s, n, i + 1)
  }

  /** The list after the first n frames of entry i are handed out. */
  function TakeFront(s: seq<Entry>, i: nat, n: nat): seq<Entry>
    requires i < |s| && s[i].size >= n
  {
    if s[i].size == n then Removed(s, i) else s[i := Entry(s[i].base + n, s[i].size - n)]
  }

  lemma TakeFrontFree(s: seq<Entry>, i: nat, n: nat)
    requires Canonical(s) && i < |s| && s[i].size >= n > 0
    ensures Canonical(TakeFront(s, i, n))
    ensures Block(s[i].base, n) <= FreeSet(s)
    ensures FreeSet(TakeFront(s, i, n)) == FreeSet(s) - Block(s[i].base, n)
  {
    RestIsClear(s, i);
    EntryFree(s, i);
    if s[i].size > n {
      ShortenedFree(s, i, n);
    }
  }

  lemma ShortenedFree(s: seq<Entry>, i: nat, n: nat)
    requires Canonical(s) && i < |s| && s[i].size > n > 0
    ensures var t := s[i := Entry(s[i].base + n, s[i].size - n)];
            && Canonical(t)
            && Block(s[i].base, n) <= FreeSet(s)
            && FreeSet(t) == FreeSet(s) - Block(s[i].base, n)
  {
    var e := Entry(s[i].base + n, s[i].size - n);
    assert Canonical(s[i := e]) by {
      ReplacedCanonical(s, i, [e]);
      assert s[i := e] == s[..i] + [e] + s[i + 1..];
    }
    UpdatedFree(s, i, e);
    EntryAndRest(s, i);
    RestIsClear(s, i);
    CutBlocks(s[i].base, s[i].size, s[i].base, n);
  }

  /** pmm_alloc fails exactly when no n contiguous free frames exist anywhere. */
  lemma AllocComplete(s: seq<Entry>, n: nat)
    requires Canonical(s) && n > 0
    ensures FindFit(s, n, 0) == |s| <==> !exists b: nat :: Block(b, n) <= FreeSet(s)
  {
    var i := FindFit(s, n, 0);
    if i < |s| {
      TakeFrontFree(s, i, n);
    }
    forall b: nat | Block(b, n) <= FreeSet(s) ensures i < |s| {
      var k := RunCovered(s, b, n);
    }
  }

  // ---------------------------------------------------------------- pmm_allocslot

  function AlignUp(b: nat): (r: nat)
    ensures r % SLOT == 0 && b <= r < b + SLOT
    ensures r == b <==> b % SLOT == 0
  {
    RoundedUp(b);
    (b + SLOT - 1) / SLOT * SLOT
  }

  lemma RoundedUp(b: nat)
    ensures var r := (b + SLOT - 1) / SLOT * SLOT;
            r == if b % SLOT == 0 then b else b - b % SLOT + SLOT
  {
    var q, x := b / SLOT, b % SLOT;
    assert b == SLOT * q + x;
    assert (b + SLOT - 1) / SLOT == if x == 0 then q else q + 1;
  }

  predicate SlotFits(e: Entry) {
    e.End() >= AlignUp(e.base) + SLOT
  }

  function FindSlot(s: seq<Entry>, i: nat): (r: nat)
    requires i <= |s|
    ensures i <= r <= |s|
    ensures r < |s| ==> SlotFits(s[r])
    ensures forall k :: i <= k < r ==> !SlotFits(s[k])
    decreases |s| - i
  {
    if i == |s| || SlotFits(s[i]) then i else FindSlot(s, i + 1)
  }

  /** Entry i cut in two so that the second part starts at b. */
  function Split(s: seq<Entry>, i: nat, b: nat): seq<Entry>
    requires i < |s| && s[i].base <= b <= s[i].End()
  {
    s[..i] + [Entry(s[i].base, b - s[i].base), Entry(b, s[i].End() - b)] + s[i + 1..]
  }

  /** The list after the slot found in entry i is handed out.  When the entry
      had to be split and the slot uses up the second half, the compaction
      starts at i, so it is the first half that disappears. */
  function TakeSlot(s: seq<Entry>, i: nat): seq<Entry>
    requires i < |s| && SlotFits(s[i])
  {
    var b := AlignUp(s[i].base);
    var rest := s[i].End() - (b + SLOT);
    if b == s[i].base then TakeFront(s, i, SLOT)
    else
      var t := Split(s, i, b)[i + 1 := Entry(b + SLOT, rest)];
      if rest == 0 then Removed(t, i) else t
  }

  /** The one case in which the compaction removes the wrong half. */
  predicate LosesFront(e: Entry) {
    e.base % SLOT != 0 && e.End() == AlignUp(e.base) + SLOT
  }

  lemma LoseFrontEntries(s: seq<Entry>, i: nat)
    requires i < |s| && SlotFits(s[i]) && LosesFront(s[i])
    ensures TakeSlot(s, i) == s[i := Entry(AlignUp(s[i].base) + SLOT, 0)]
  {
  }

  /** Outside that case the slot, and nothing else, leaves the free set. */
  lemma TakeSlotKeeps(s: seq<Entry>, i: nat)
    requires Canonical(s) && i < |s| && SlotFits(s[i]) && !LosesFront(s[i])
    ensures Canonical(TakeSlot(s, i))
    ensures Block(AlignUp(s[i].base), SLOT) <= FreeSet(s)
    ensures FreeSet(TakeSlot(s, i)) == FreeSet(s) - Block(AlignUp(s[i].base), SLOT)
  {
    if AlignUp(s[i].base) == s[i].base {
      TakeFrontFree(s, i, SLOT);
    } else {
      SplitFree(s, i, AlignUp(s[i].base), SLOT);
      TakeSlotCuts(s, i);
    }
  }

  lemma TakeSlotCuts(s: seq<Entry>, i: nat)
    requires i < |s| && SlotFits(s[i]) && !LosesFront(s[i]) && AlignUp(s[i].base) != s[i].base
    ensures TakeSlot(s, i) == CutOut(s, i, AlignUp(s[i].base), SLOT)
  {
  }

  /** Entry i with the frames b..b+n cut out of its middle. */
  function CutOut(s: seq<Entry>, i: nat, b: nat, n: nat): seq<Entry>
    requires i < |s| && s[i].base < b && b + n < s[i].End()
  {
    s[..i] + [Entry(s[i].base, b - s[i].base), Entry(b + n, s[i].End() - (b + n))] + s[i + 1..]
  }

  lemma SplitFree(s: seq<Entry>, i: nat, b: nat, n: nat)
    requires Canonical(s) && i < |s| && s[i].base < b && b + n < s[i].End() && n > 0
    ensures Canonical(CutOut(s, i, b, n))
    ensures Block(b, n) <= FreeSet(s)
    ensures FreeSet(CutOut(s, i, b, n)) == FreeSet(s) - Block(b, n)
  {
    var lo, hi := Entry(s[i].base, b - s[i].base), Entry(b + n, s[i].End() - (b + n));
    ReplacedCanonical(s, i, [lo, hi]);
    assert FreeSet(CutOut(s, i, b, n)) == FreeSet(Removed(s, i)) + (Block(s[i].base, s[i].size) - Block(b, n)) by {
      ReplacedFree(s, i, [lo, hi]);
      PairFree(lo, hi);
      CutBlocks(s[i].base, s[i].size, b, n);
    }
    assert Block(b, n) <= FreeSet(s) && FreeSet(Removed(s, i)) == FreeSet(s) - Block(s[i].base, s[i].size)
           && Block(s[i].base, s[i].size) <= FreeSet(s) && Block(b, n) <= Block(s[i].base, s[i].size) by {
      RestIsClear(s, i);
      EntryFree(s, i);
      CutBlocks(s[i].base, s[i].size, b, n);
    }
  }

  lemma PairFree(a: Entry, b: Entry)
    ensures FreeSet([a, b]) == Block(a.base, a.size) + Block(b.base, b.size)
  {
    assert [a, b] == [a] + [b];
    ConcatFree([a], [b]);
    SingleFree(a);
    SingleFree(b);
  }

  lemma CutBlocks(base: nat, size: nat, b: nat, n: nat)
    requires base <= b && b + n <= base + size
    ensures Block(b, n) <= Block(base, size)
    ensures Block(base, b - base) + Block(b + n, base + size - (b + n)) == Block(base, size) - Block(b, n)
  {
  }

  /** In that case an empty entry stays and the frames before the slot are lost. */
  lemma TakeSlotLoses(s: seq<Entry>, i: nat)
    requires Canonical(s) && i < |s| && SlotFits(s[i]) && LosesFront(s[i])
    ensures !Canonical(TakeSlot(s, i))
    ensures FreeSet(TakeSlot(s, i)) == FreeSet(s) - Block(s[i].base, s[i].size)
    ensures s[i].base in FreeSet(s) && s[i].base !in Block(AlignUp(s[i].base), SLOT)
  {
    LoseFrontEntries(s, i);
    assert TakeSlot(s, i)[i].size == 0;
    RestIsClear(s, i);
    UpdatedFree(s, i, TakeSlot(s, i)[i]);
    EntryFree(s, i);
    assert s[i].base in Block(s[i].base, s[i].size);
  }

  /** pmm_allocslot keeps the list canonical, and takes just the slot from the
      free set, if and only if it is not in the losing case. */
  lemma TakeSlotExact(s: seq<Entry>, i: nat)
    requires Canonical(s) && i < |s| && SlotFits(s[i])
    ensures Canonical(TakeSlot(s, i)) <==> !LosesFront(s[i])
    ensures FreeSet(TakeSlot(s, i)) == FreeSet(s) - Block(AlignUp(s[i].base), SLOT)
            <==> !LosesFront(s[i])
  {
    if LosesFront(s[i]) {
      TakeSlotLoses(s, i);
      assert s[i].base in FreeSet(s) - Block(AlignUp(s[i].base), SLOT);
      assert s[i].base in Block(s[i].base, s[i].size);
    } else {
      TakeSlotKeeps(s, i);
    }
  }

  /** A machine with frames 1..1023 free: the slot 512..1023 is handed out and
      frames 1..511 are lost. */
  lemma TakeSlotLossExample()
    ensures var s := [Entry(1, 1023)];
            && Canonical(s) && FindSlot(s, 0) == 0
            && TakeSlot(s, 0) == [Entry(1024, 0)]
            && 1 in FreeSet(s) && FreeSet(TakeSlot(s, 0)) == {}
  {
    var s := [Entry(1, 1023)];
    assert AlignUp(1) == 512;
    LoseFrontEntries(s, 0);
    assert TakeSlot(s, 0) == [Entry(1024, 0)];
    assert s[0].base <= 1 < s[0].End();
  }

  /** pmm_allocslot fails exactly when no aligned run of 512 free frames exists. */
  lemma AllocSlotComplete(s: seq<Entry>)
    requires Canonical(s)
    ensures FindSlot(s, 0) == |s|
            <==> !exists b: nat :: b % SLOT == 0 && Block(b, SLOT) <= FreeSet(s)
    ensures SlotList(s).0 == 0 <==> FindSlot(s, 0) == |s|
  {
    var i := FindSlot(s, 0);
    if i < |s| {
      var b := AlignUp(s[i].base);
      EntryFree(s, i);
      assert b % SLOT == 0 && Block(b, SLOT) <= FreeSet(s);
    }
    forall b: nat | b % SLOT == 0 && Block(b, SLOT) <= FreeSet(s) ensures i < |s| {
      var k := RunCovered(s, b, SLOT);
      AlignedAbove(s[k].base, b);
      assert SlotFits(s[k]);
    }
  }

  lemma AlignedAbove(a: nat, b: nat)
    requires a <= b && b % SLOT == 0
    ensures AlignUp(a) <= b
  {
  }

  // ---------------------------------------------------------------- pmm_free

  /** Entry k touches the frames base..base+n, where `front` is the frame number
      an entry after them is expected to start at. */
  predicate Touches(e: Entry, base: nat, front: nat) {
    e.base == front || e.End() == base
  }

  function FindTouch(s: seq<Entry>, base: nat, front: nat, i: nat): (r: nat)
    requires i <= |s|
    ensures i <= r <= |s|
    ensures r < |s| ==> Touches(s[r], base, front)
    ensures forall k :: i <= k < r ==> !Touches(s[k], base, front)
    decreases |s| - i
  {
    if i == |s| || Touches(s[i], base, front) then i else FindTouch(s, base, front, i + 1)
  }

  /** The list after the first step of pmm_free: entry i grown, or a new one. */
  function Grown(s: seq<Entry>, base: nat, n: nat, front: nat): (r: seq<Entry>)
    ensures |r| > FindTouch(s, base, front, 0)
  {
    var i := FindTouch(s, base, front, 0);
    if i == |s| then s + [Entry(base, n)]
    else if s[i].base == front then s[i := Entry(base, s[i].size + n)]
    else s[i := Entry(s[i].base, s[i].size + n)]
  }

  predicate Meets(a: Entry, b: Entry) {
    a.End() == b.base || a.base == b.End()
  }

  function Joined(a: Entry, b: Entry): Entry {
    Entry(if a.End() == b.base then a.base else b.base, a.size + b.size)
  }

  function FindMeet(s: seq<Entry>, i: nat, j: nat): (r: nat)
    requires i < |s| && j <= |s|
    ensures j <= r <= |s|
    ensures r < |s| ==> Meets(s[i], s[r])
    ensures forall k :: j <= k < r ==> !Meets(s[i], s[k])
    decreases |s| - j
  {
    if j == |s| || Meets(s[i], s[j]) then j else FindMeet(s, i, j + 1)
  }

  /** The second step: the first entry meeting entry i is merged into it. */
  function Merged(s: seq<Entry>, i: nat): (r: seq<Entry>)
    requires i < |s|
  {
    var j := FindMeet(s, i, 0);
    if j == |s| then s
    else
      Removed(s[i := Joined(s[i], s[j])], j)
  }

  function Freed(s: seq<Entry>, base: nat, n: nat, front: nat): seq<Entry> {
    Merged(Grown(s, base, n, front), FindTouch(s, base, front, 0))
  }

  /** Every run of a list with none of base..base+n free lies to one side of it. */
  lemma SideOf(s: seq<Entry>, base: nat, n: nat, k: nat)
    requires Canonical(s) && n > 0 && k < |s|
    requires Block(base, n) !! FreeSet(s)
    ensures s[k].End() <= base || base + n <= s[k].base
  {
    EntryFree(s, k);
    if s[k].base <= base {
      assert base in Block(base, n);
    } else {
      assert s[k].base in Block(s[k].base, s[k].size);
    }
  }

  lemma GrownFree(s: seq<Entry>, base: nat, n: nat)
    ensures FreeSet(Grown(s, base, n, base + n)) == FreeSet(s) + Block(base, n)
  {
    var i := FindTouch(s, base, base + n, 0);
    var g := Grown(s, base, n, base + n);
    if i == |s| {
      ConcatFree(s, [Entry(base, n)]);
      SingleFree(Entry(base, n));
    } else {
      UpdatedFree(s, i, g[i]);
      EntryAndRest(s, i);
    }
  }

  lemma MergedFree(g: seq<Entry>, i: nat)
    requires i < |g| && FindMeet(g, i, 0) != i
    ensures FreeSet(Merged(g, i)) == FreeSet(g)
  {
    var j := FindMeet(g, i, 0);
    if j < |g| {
      JoinedFree(g, i, j);
    }
  }

  lemma JoinedFree(g: seq<Entry>, i: nat, j: nat)
    requires i < |g| && j < |g| && i != j && Meets(g[i], g[j])
    ensures FreeSet(Removed(g[i := Joined(g[i], g[j])], j)) == FreeSet(g)
  {
    var e := Joined(g[i], g[j]);
    var h := g[i := e];
    UpdatedFree(g, i, e);
    EntryAndRest(g, i);
    EntryAndRest(h, j);
    EntryFree(g, j);
    MeetingBlocks(g[i], g[j]);
    var i' := if i < j then i else i - 1;
    assert Removed(h, j)[i'] == e;
    EntryFree(Removed(h, j), i');
  }

  lemma MeetingBlocks(a: Entry, b: Entry)
    requires Meets(a, b)
    ensures var e := Joined(a, b);
            Block(e.base, e.size) == Block(a.base, a.size) + Block(b.base, b.size)
  {
  }

  /** How entry k of the list lies to the block being freed and to the entry
      `touch` that has been grown with it. */
  lemma GrownGaps(s: seq<Entry>, base: nat, n: nat, k: nat)
    requires Canonical(s) && base > 0 && n > 0
    requires Block(base, n) !! FreeSet(s)
    requires k < |s| && k != FindTouch(s, base, base + n, 0)
    ensures var i := FindTouch(s, base, base + n, 0); var e := Grown(s, base, n, base + n)[i];
            && (e.End() <= s[k].base || s[k].End() <= e.base)
            && (e.End() == s[k].base ==> base + n == s[k].base)
            && (e.base == s[k].End() ==> base == s[k].End())
            && (Meets(e, s[k]) ==> i < |s|)
  {
    var i := FindTouch(s, base, base + n, 0);
    SideOf(s, base, n, k);
    if i < |s| {
      SideOf(s, base, n, i);
      if k < i { assert Apart(s[k], s[i]); } else { assert Apart(s[i], s[k]); }
    }
  }

  lemma MergedCanonical(s: seq<Entry>, base: nat, n: nat)
    requires Canonical(s) && base > 0 && n > 0
    requires Block(base, n) !! FreeSet(s)
    ensures Canonical(Freed(s, base, n, base + n))
    ensures var i := FindTouch(s, base, base + n, 0); FindMeet(Grown(s, base, n, base + n), i, 0) != i
  {
    var i := FindTouch(s, base, base + n, 0);
    var g := Grown(s, base, n, base + n);
    var j := FindMeet(g, i, 0);
    assert g[i].size > 0;
    if j == |g| {
      GrownCanonical(s, base, n);
    } else {
      GrownJoined(s, base, n, j);
    }
  }

  lemma GrownJoined(s: seq<Entry>, base: nat, n: nat, j: nat)
    requires Canonical(s) && base > 0 && n > 0
    requires Block(base, n) !! FreeSet(s)
    requires var i := FindTouch(s, base, base + n, 0); var g := Grown(s, base, n, base + n);
             j < |g| && j != i && Meets(g[i], g[j])
    ensures var i := FindTouch(s, base, base + n, 0); var g := Grown(s, base, n, base + n);
            Canonical(Removed(g[i := Joined(g[i], g[j])], j))
  {
    var i := FindTouch(s, base, base + n, 0);
    var g := Grown(s, base, n, base + n);
    GrownGaps(s, base, n, j);
    var e := Joined(g[i], g[j]);
    forall k | 0 <= k < |s| && k != i && k != j ensures Apart(e, s[k]) && Apart(s[k], e) {
      JoinedApart(s, base, n, j, k);
    }
    assert g[i := e] == s[i := e];
    JoinedCanonical(s, i, j, e);
  }

  lemma GrownCanonical(s: seq<Entry>, base: nat, n: nat)
    requires Canonical(s) && base > 0 && n > 0
    requires Block(base, n) !! FreeSet(s)
    requires var g := Grown(s, base, n, base + n);
             FindMeet(g, FindTouch(s, base, base + n, 0), 0) == |g|
    ensures Canonical(Grown(s, base, n, base + n))
  {
    var i := FindTouch(s, base, base + n, 0);
    var g := Grown(s, base, n, base + n);
    forall k | 0 <= k < |g| && k != i ensures g[k] == s[k] && Apart(g[i], g[k]) && Apart(g[k], g[i]) {
      assert !Meets(g[i], g[k]);
      GrownGaps(s, base, n, k);
    }
    PatchedCanonical(s, g, i);
  }

  lemma PatchedCanonical(s: seq<Entry>, g: seq<Entry>, i: nat)
    requires Canonical(s) && i <= |s| && |g| == (if i < |s| then |s| else |s| + 1)
    requires g[i].size > 0 && g[i].base > 0
    requires forall k :: 0 <= k < |s| && k != i ==> g[k] == s[k] && Apart(g[i], g[k]) && Apart(g[k], g[i])
    ensures Canonical(g)
  {
    forall a, b | 0 <= a < b < |g| ensures Apart(g[a], g[b]) {
      if a != i && b != i { assert Apart(s[a], s[b]); }
    }
  }

  lemma JoinedApart(s: seq<Entry>, base: nat, n: nat, j: nat, k: nat)
    requires Canonical(s) && base > 0 && n > 0
    requires Block(base, n) !! FreeSet(s)
    requires var i := FindTouch(s, base, base + n, 0);
             j < |s| && k < |s| && j != i && k != i && k != j && Meets(Grown(s, base, n, base + n)[i], s[j])
    ensures var e := Grown(s, base, n, base + n)[FindTouch(s, base, base + n, 0)];
            Apart(Joined(e, s[j]), s[k]) && Apart(s[k], Joined(e, s[j]))
  {
    GrownGaps(s, base, n, k);
    GrownGaps(s, base, n, j);
    var i := FindTouch(s, base, base + n, 0);
    assert Apart(s[j], s[k]) by { if j < k { assert Apart(s[j], s[k]); } else { assert Apart(s[k], s[j]); } }
    assert Apart(s[i], s[k]) by { if i < k { assert Apart(s[i], s[k]); } else { assert Apart(s[k], s[i]); } }
  }

  lemma JoinedCanonical(s: seq<Entry>, i: nat, j: nat, e: Entry)
    requires Canonical(s) && i < |s| && j < |s| && i != j && e.size > 0 && e.base > 0
    requires forall k :: 0 <= k < |s| && k != i && k != j ==> Apart(e, s[k]) && Apart(s[k], e)
    ensures Canonical(Removed(s[i := e], j))
  {
    var m := Removed(s[i := e], j);
    forall k | 0 <= k < |m| ensures m[k] == s[i := e][if k < j then k else k + 1] {}
    forall x, y | 0 <= x < y < |m| ensures Apart(m[x], m[y]) {
      var x', y' := if x < j then x else x + 1, if y < j then y else y + 1;
      if x' != i && y' != i { assert Apart(s[x'], s[y']); }
    }
  }

  /** Freeing frames that are not free keeps the list canonical with the one
      merge the code does, and adds exactly those frames. */
  lemma FreedKeeps(s: seq<Entry>, base: nat, n: nat)
    requires Canonical(s) && base > 0 && n > 0
    requires Block(base, n) !! FreeSet(s)
    ensures Canonical(Freed(s, base, n, base + n))
    ensures FreeSet(Freed(s, base, n, base + n)) == FreeSet(s) + Block(base, n)
  {
    GrownFree(s, base, n);
    MergedCanonical(s, base, n);
    MergedFree(Grown(s, base, n, base + n), FindTouch(s, base, base + n, 0));
  }

  // ---------------------------------------------------------------- what the calls do to the list

  /** pmm_alloc: the block handed out (0 if none) and the new list. */
  function AllocList(s: seq<Entry>, n: nat): (nat, seq<Entry>) {
    var i := FindFit(s, n, 0);
    if n == 0 || i == |s| then (0, s) else (s[i].base, TakeFront(s, i, n))
  }

  /** pmm_allocslot: the slot handed out (0 if none) and the new list. */
  function SlotList(s: seq<Entry>): (nat, seq<Entry>) {
    var i := FindSlot(s, 0);
    if i == |s| then (0, s) else (AlignUp(s[i].base), TakeSlot(s, i))
  }

  predicate SlotLoses(s: seq<Entry>) {
    var i := FindSlot(s, 0);
    i < |s| && LosesFront(s[i])
  }

  /** Frame 0 is never taken back: the block pmm_free really handles. */
  function FreedBase(base: nat, n: nat): nat {
    if base == 0 && n > 0 then 1 else base
  }

  function FreedCount(base: nat, n: nat): nat {
    if base == 0 && n > 0 then n - 1 else n
  }

  /** pmm_free: the new list.  The frame behind the block is computed from the
      size before frame 0 is left out. */
  function FreedList(s: seq<Entry>, base: nat, n: nat): seq<Entry> {
    if FreedCount(base, n) == 0 then s
    else Freed(s, FreedBase(base, n), FreedCount(base, n), FreedBase(base, n) + n)
  }

  /** Freeing a block that starts at frame 0 works exactly when no run starts
      one frame behind it. */
  lemma FreeFromZero(s: seq<Entry>, n: nat)
    requires Canonical(s) && n >= 2
    requires Block(1, n - 1) !! FreeSet(s)
    ensures var r := FreedList(s, 0, n);
            (Canonical(r) && FreeSet(r) == FreeSet(s) + Block(1, n - 1))
            <==> !exists k :: 0 <= k < |s| && s[k].base == n + 1
  {
    if k :| 0 <= k < |s| && s[k].base == n + 1 {
      FreeFromZeroFails(s, n, k);
    } else {
      FreeFromZeroHolds(s, n);
    }
  }

  lemma FreeFromZeroFails(s: seq<Entry>, n: nat, k: nat)
    requires Canonical(s) && n >= 2 && k < |s| && s[k].base == n + 1
    requires Block(1, n - 1) !! FreeSet(s)
    ensures n in FreeSet(FreedList(s, 0, n))
    ensures n !in FreeSet(s) + Block(1, n - 1)
  {
    BeforeRun(s, k);
    TouchIsStart(s, n + 1, k);
    FreedListFromZero(s, n);
    var g := Grown(s, 1, n - 1, n + 1);
    assert g[k] == Entry(1, s[k].size + n - 1);
    EntryFree(g, k);
    MergedFree(g, k);
  }

  lemma FreedListFromZero(s: seq<Entry>, n: nat)
    requires n >= 2
    ensures FreedList(s, 0, n) == Freed(s, 1, n - 1, n + 1)
  {
    hide Freed;
  }

  lemma BeforeRun(s: seq<Entry>, k: nat)
    requires Canonical(s) && k < |s|
    ensures s[k].base - 1 !in FreeSet(s)
  {
    if s[k].base - 1 in FreeSet(s) {
      var j := FreeAt(s, s[k].base - 1);
      SameEntry(s, k, j, s[k].base);
      assert false;
    }
  }

  /** No run ends at frame 1, so only the run starting at `front` touches. */
  lemma TouchIsStart(s: seq<Entry>, front: nat, k: nat)
    requires Canonical(s) && k < |s| && s[k].base == front
    ensures FindTouch(s, 1, front, 0) == k
  {
    var i := FindTouch(s, 1, front, 0);
    if i < k { ApartPair(s, i, k); assert false; }
  }

  lemma ApartPair(s: seq<Entry>, i: nat, k: nat)
    requires Canonical(s) && i < |s| && k < |s| && i != k
    ensures Apart(s[i], s[k]) && Apart(s[k], s[i])
  {
    if i < k { assert Apart(s[i], s[k]); } else { assert Apart(s[k], s[i]); }
  }

  lemma NobodyTouches(s: seq<Entry>, front: nat)
    requires Canonical(s) && forall k :: 0 <= k < |s| ==> s[k].base != front
    ensures FindTouch(s, 1, front, 0) == |s|
  {
  }

  lemma FreedUntouched(s: seq<Entry>, n: nat)
    requires n >= 2
    requires FindTouch(s, 1, n, 0) == |s| && FindTouch(s, 1, n + 1, 0) == |s|
    ensures Freed(s, 1, n - 1, n) == Freed(s, 1, n - 1, n + 1)
  {
  }

  lemma FreeFromZeroHolds(s: seq<Entry>, n: nat)
    requires Canonical(s) && n >= 2
    requires forall k :: 0 <= k < |s| ==> s[k].base != n + 1
    requires Block(1, n - 1) !! FreeSet(s)
    ensures Canonical(FreedList(s, 0, n))
    ensures FreeSet(FreedList(s, 0, n)) == FreeSet(s) + Block(1, n - 1)
  {
    hide Freed, Canonical;
    FreedListFromZero(s, n);
    FreedKeeps(s, 1, n - 1);
    NobodyTouches(s, n + 1);
    var i := FindTouch(s, 1, n, 0);
    if i < |s| {
      FreedBoth(s, i, Entry(1, n - 1));
    } else {
      FreedUntouched(s, n);
    }
  }

  /** Only the run starting right behind e meets it, so appending e and merging
      gives the same runs as growing that run. */
  lemma FreedBoth(s: seq<Entry>, i: nat, e: Entry)
    requires Canonical(s) && i < |s| && e.base == 1 && e.size > 0 && s[i].base == e.End()
    requires FindTouch(s, 1, e.End() + 1, 0) == |s| && FindTouch(s, 1, e.End(), 0) == i
    requires Canonical(Freed(s, 1, e.size, e.End()))
    ensures Canonical(Freed(s, 1, e.size, e.End() + 1))
    ensures FreeSet(Freed(s, 1, e.size, e.End() + 1)) == FreeSet(Freed(s, 1, e.size, e.End()))
  {
    FreedInFront(s, i, e);
    FreedAppended(s, i, e);
    AppendedJoins(s, i, e);
  }

  lemma FreedInFront(s: seq<Entry>, i: nat, e: Entry)
    requires Canonical(s) && i < |s| && e.base == 1 && e.size > 0 && s[i].base == e.End()
    requires FindTouch(s, 1, e.End(), 0) == i
    ensures Freed(s, 1, e.size, e.End()) == s[i := Joined(e, s[i])]
  {
    var x := Joined(e, s[i]);
    var h := s[i := x];
    assert Grown(s, 1, e.size, e.End()) == h;
    var m := FindMeet(h, i, 0);
    if m < |h| { ApartPair(s, i, m); assert false; }
  }

  lemma FreedAppended(s: seq<Entry>, i: nat, e: Entry)
    requires Canonical(s) && i < |s| && e.base == 1 && e.size > 0 && s[i].base == e.End()
    requires FindTouch(s, 1, e.End() + 1, 0) == |s|
    ensures Freed(s, 1, e.size, e.End() + 1) == Removed(s, i) + [Joined(e, s[i])]
  {
    forall k | 0 <= k < |s| && k != i ensures !Meets(e, s[k]) { ApartPair(s, i, k); }
    AppendedMerges(s, i, e);
  }

  lemma AppendedMerges(s: seq<Entry>, i: nat, e: Entry)
    requires i < |s| && Meets(e, s[i])
    requires forall k :: 0 <= k < |s| && k != i ==> !Meets(e, s[k])
    ensures Merged(s + [e], |s|) == Removed(s, i) + [Joined(e, s[i])]
  {
    var g := s + [e];
    assert g[|s|] == e && g[i] == s[i];
    FirstMeets(s, i, e);
    hide Meets, FindMeet, Joined;
    var h := g[|s| := Joined(e, s[i])];
    assert h == s + [Joined(e, s[i])];
    assert h[..i] == s[..i] && h[i + 1..] == s[i + 1..] + [Joined(e, s[i])];
  }

  lemma FirstMeets(s: seq<Entry>, i: nat, e: Entry)
    requires i < |s| && Meets(e, s[i])
    requires forall k :: 0 <= k < |s| && k != i ==> !Meets(e, s[k])
    ensures FindMeet(s + [e], |s|, 0) == i
  {
    hide Meets;
    var g := s + [e];
    var j := FindMeet(g, |s|, 0);
    assert g[|s|] == e && g[i] == s[i];
    assert j <= i;
    assert g[j] == s[j];
  }

  lemma AppendedJoins(s: seq<Entry>, i: nat, e: Entry)
    requires i < |s| && Canonical(s[i := Joined(e, s[i])])
    ensures Canonical(Removed(s, i) + [Joined(e, s[i])])
    ensures FreeSet(Removed(s, i) + [Joined(e, s[i])]) == FreeSet(s[i := Joined(e, s[i])])
  {
    var x := Joined(e, s[i]);
    var t := s[i := x];
    var r := Removed(s, i) + [x];
    ConcatFree(Removed(s, i), [x]);
    SingleFree(x);
    UpdatedFree(s, i, x);
    MovedCanonical(t, i, r);
  }

  /** Moving entry i to the end of the list keeps the form. */
  lemma MovedCanonical(t: seq<Entry>, i: nat, r: seq<Entry>)
    requires Canonical(t) && i < |t| && r == Removed(t, i) + [t[i]]
    ensures Canonical(r)
  {
    RestIsClear(t, i);
    forall k | 0 <= k < |r| - 1 ensures Apart(r[k], t[i]) {
      ApartPair(t, if k < i then k else k + 1, i);
    }
    forall a, b | 0 <= a < b < |r| ensures Apart(r[a], r[b]) {
      if b < |r| - 1 { assert Apart(Removed(t, i)[a], Removed(t, i)[b]); }
    }
  }

  /** Frame 4 free, frames 0..2 given back: the list then offers frame 3, which
      nobody gave back, and no longer offers frame 4. */
  lemma FreeFromZeroExample()
    ensures FreedList([Entry(4, 1)], 0, 3) == [Entry(1, 3)]
  {
    var s := [Entry(4, 1)];
    assert FindTouch(s, 1, 4, 0) == 0;
    assert Grown(s, 1, 2, 4) == [Entry(1, 3)];
    assert FindMeet([Entry(1, 3)], 0, 0) == 1;
  }

  /** Giving a block straight back restores the free set, and with it the runs. */
  lemma AllocThenFree(s: seq<Entry>, n: nat)
    requires Canonical(s) && AllocList(s, n).0 != 0
    ensures Restored(s, FreedList(AllocList(s, n).1, AllocList(s, n).0, n))
  {
    TakeFrontFree(s, FindFit(s, n, 0), n);
    GivenBack(s, AllocList(s, n).1, AllocList(s, n).0, n);
  }

  ghost predicate Restored(s: seq<Entry>, r: seq<Entry>) {
    && Canonical(r)
    && FreeSet(r) == FreeSet(s)
    && |r| == |s|
    && forall e :: e in r <==> e in s
  }

  lemma GivenBack(s: seq<Entry>, t: seq<Entry>, b: nat, n: nat)
    requires Canonical(s) && Canonical(t) && b > 0 && n > 0
    requires Block(b, n) <= FreeSet(s) && FreeSet(t) == FreeSet(s) - Block(b, n)
    ensures Restored(s, FreedList(t, b, n))
  {
    FreedListKeeps(t, b, n);
    SameSetRestores(s, FreedList(t, b, n));
  }

  lemma FreedListOf(s: seq<Entry>, base: nat, n: nat)
    requires base > 0 && n > 0
    ensures FreedList(s, base, n) == Freed(s, base, n, base + n)
  {
    hide Freed;
  }

  lemma FreedListKeeps(s: seq<Entry>, base: nat, n: nat)
    requires Canonical(s) && base > 0 && n > 0
    requires Block(base, n) !! FreeSet(s)
    ensures Canonical(FreedList(s, base, n))
    ensures FreeSet(FreedList(s, base, n)) == FreeSet(s) + Block(base, n)
  {
    FreedListOf(s, base, n);
    FreedKeeps(s, base, n);
  }

  lemma SameSetRestores(s: seq<Entry>, r: seq<Entry>)
    requires Canonical(s) && Canonical(r) && FreeSet(r) == FreeSet(s)
    ensures Restored(s, r)
  {
    CanonicalUnique(r, s);
  }

  lemma SlotThenFree(s: seq<Entry>)
    requires Canonical(s) && SlotList(s).0 != 0 && !SlotLoses(s)
    ensures Restored(s, FreedList(SlotList(s).1, SlotList(s).0, SLOT))
  {
    TakeSlotKeeps(s, FindSlot(s, 0));
    GivenBack(s, SlotList(s).1, SlotList(s).0, SLOT);
  }
}
