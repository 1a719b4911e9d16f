/** What a caller asks of the allocator, one request after the other: when a run
    of requests makes it lose pages, and when it cannot. */
module Requests {
  import opened FreeList

  datatype Ask = One | Aligned

  function Reply(s: seq<Entry>, a: Ask): (nat, seq<Entry>) {
    if a.One? then AllocList(s, 1) else SlotList(s)
  }

  /** The list after the requests. */
  function After(s: seq<Entry>, asks: seq<Ask>): seq<Entry> {
    if asks == [] then s else Reply(After(s, asks[..|asks| - 1]), asks[|asks| - 1]).1
  }

  /** One of the requests is for a slot that makes the allocator lose pages. */
  predicate Loses(s: seq<Entry>, asks: seq<Ask>) {
    asks != [] && (Loses(s, asks[..|asks| - 1])
                   || (asks[|asks| - 1].Aligned? && SlotLoses(After(s, asks[..|asks| - 1]))))
  }

  predicate OnlyPages(asks: seq<Ask>) {
    forall i :: 0 <= i < |asks| ==> asks[i].One?
  }

  lemma {:induction false} AfterJoin(s: seq<Entry>, a: seq<Ask>, b: seq<Ask>)
    ensures After(s, a + b) == After(After(s, a), b)
    ensures Loses(s, a + b) <==> Loses(s, a) || Loses(After(s, a), b)
  {
    hide SlotLoses, Reply;
    if b == [] {
      assert a + b == a;
    } else {
      var n := |b| - 1;
      AfterJoin(s, a, b[..n]);
      assert (a + b)[..|a + b| - 1] == a + b[..n];
      assert (a + b)[|a + b| - 1] == b[n];
    }
  }

  lemma AfterSingle(s: seq<Entry>, a: Ask)
    ensures After(s, [a]) == Reply(s, a).1
    ensures Loses(s, [a]) <==> a.Aligned? && SlotLoses(s)
  {
    hide Reply, SlotLoses;
    assert [a][..|[a]| - 1] == [];
    assert After(s, []) == s && !Loses(s, []);
  }

  lemma {:induction false} PagesNeverLose(s: seq<Entry>, asks: seq<Ask>)
    requires OnlyPages(asks)
    ensures !Loses(s, asks)
  {
    if asks != [] { PagesNeverLose(s, asks[..|asks| - 1]); }
  }

  // ---------------------------------------------------------------- from one list to another

  /** The second list is what some requests make of the first, and the flag was
      raised exactly by those that lose pages.  Slots only where slots says so. */
  ghost predicate Leads(s0: seq<Entry>, lost0: bool, slots: bool, s1: seq<Entry>, lost1: bool) {
    exists asks :: Served(s0, lost0, slots, asks, s1, lost1)
  }

  ghost predicate Served(s0: seq<Entry>, lost0: bool, slots: bool, asks: seq<Ask>, s1: seq<Entry>, lost1: bool) {
    && (slots || OnlyPages(asks))
    && s1 == After(s0, asks)
    && lost1 == (lost0 || Loses(s0, asks))
  }

  lemma LeadsNowhere(s: seq<Entry>, lost: bool, slots: bool)
    ensures Leads(s, lost, slots, s, lost)
  {
    assert Served(s, lost, slots, [], s, lost);
  }

  lemma LeadsPage(s: seq<Entry>, lost: bool, slots: bool)
    ensures Leads(s, lost, slots, AllocList(s, 1).1, lost)
  {
    hide AllocList, After, Loses, SlotLoses;
    AfterSingle(s, One);
    assert Served(s, lost, slots, [One], AllocList(s, 1).1, lost);
  }

  lemma LeadsSlot(s: seq<Entry>, lost: bool)
    ensures Leads(s, lost, true, SlotList(s).1, lost || SlotLoses(s))
  {
    hide SlotList, After, Loses, SlotLoses;
    AfterSingle(s, Aligned);
    assert Served(s, lost, true, [Aligned], SlotList(s).1, lost || SlotLoses(s));
  }

  lemma LeadsJoin(s0: seq<Entry>, lost0: bool, slots0: bool, s1: seq<Entry>, lost1: bool, slots1: bool, s2: seq<Entry>,
                  lost2: bool, slots: bool)
    requires Leads(s0, lost0, slots0, s1, lost1) && Leads(s1, lost1, slots1, s2, lost2)
    requires slots0 || slots1 ==> slots
    ensures Leads(s0, lost0, slots, s2, lost2)
  {
    hide After, Loses;
    var a :| Served(s0, lost0, slots0, a, s1, lost1);
    var b :| Served(s1, lost1, slots1, b, s2, lost2);
    AfterJoin(s0, a, b);
    assert Served(s0, lost0, slots, a + b, s2, lost2);
  }

  /** Requests for pages never raise the flag, and nothing lowers it. */
  lemma LeadsKeeps(s0: seq<Entry>, lost0: bool, slots: bool, s1: seq<Entry>, lost1: bool)
    requires Leads(s0, lost0, slots, s1, lost1)
    ensures lost0 ==> lost1
    ensures !slots || Safe(s0) ==> lost1 == lost0
  {
    var asks :| Served(s0, lost0, slots, asks, s1, lost1);
    if !slots { PagesNeverLose(s0, asks); }
    if Safe(s0) { SafeNeverLoses(s0, asks); }
  }

  // ---------------------------------------------------------------- which lists can lose pages

  /** No run longer than a slot ends where a slot does. */
  predicate Safe(s: seq<Entry>) {
    forall i :: 0 <= i < |s| ==> SafeRun(s[i])
  }

  predicate SafeRun(e: Entry) { e.size <= SLOT || e.End() % SLOT != 0 }

  /** A run in place of another that it ends with, or none. */
  lemma SafeReplaced(s: seq<Entry>, i: nat, es: seq<Entry>)
    requires Safe(s) && i < |s| && forall k :: 0 <= k < |es| ==> SafeRun(es[k])
    ensures Safe(s[..i] + es + s[i + 1..])
  {
    hide SafeRun;
    var t := s[..i] + es + s[i + 1..];
    forall k | 0 <= k < |t| ensures SafeRun(t[k]) {
      if k >= i + |es| { assert t[k] == s[k - |es| + 1]; }
    }
  }

  lemma SafeFront(s: seq<Entry>, i: nat, n: nat)
    requires Safe(s) && i < |s| && s[i].size >= n
    ensures Safe(TakeFront(s, i, n))
  {
    assert SafeRun(s[i]);
    if s[i].size == n {
      SafeReplaced(s, i, []);
      assert TakeFront(s, i, n) == s[..i] + [] + s[i + 1..];
    } else {
      var e := Entry(s[i].base + n, s[i].size - n);
      SafeReplaced(s, i, [e]);
      assert TakeFront(s, i, n) == s[..i] + [e] + s[i + 1..];
    }
  }

  lemma SafeCut(s: seq<Entry>, i: nat)
    requires Safe(s) && i < |s| && SlotFits(s[i])
    ensures !LosesFront(s[i]) && Safe(TakeSlot(s, i))
  {
    assert SafeRun(s[i]);
    var b := AlignUp(s[i].base);
    if b == s[i].base {
      SafeFront(s, i, SLOT);
    } else {
      TakeSlotCuts(s, i);
      SafeReplaced(s, i, [Entry(s[i].base, b - s[i].base), Entry(b + SLOT, s[i].End() - (b + SLOT))]);
    }
  }

  lemma SafeSteps(s: seq<Entry>, a: Ask)
    requires Safe(s)
    ensures Safe(Reply(s, a).1) && !SlotLoses(s)
  {
    hide Safe, SafeRun, TakeFront, TakeSlot, LosesFront, SlotFits;
    var i, j := FindFit(s, 1, 0), FindSlot(s, 0);
    if i < |s| { SafeFront(s, i, 1); }
    if j < |s| { SafeCut(s, j); }
  }

  lemma {:induction false} SafeNeverLoses(s: seq<Entry>, asks: seq<Ask>)
    requires Safe(s)
    ensures !Loses(s, asks) && Safe(After(s, asks))
  {
    hide Reply, SafeRun, SlotLoses;
    if asks != [] {
      var n := |asks| - 1;
      SafeNeverLoses(s, asks[..n]);
      SafeSteps(After(s, asks[..n]), asks[n]);
    }
  }

  lemma {:induction false} LosesNow(s: seq<Entry>)
    requires s != [] && s[0].size == SLOT + 1 && !SafeRun(s[0])
    ensures Loses(s, [Aligned])
  {
    assert FindSlot(s, 0) == 0 && LosesFront(s[0]);
    hide Loses, LosesFront, SlotFits, SafeRun;
    AfterSingle(s, Aligned);
  }

  /** A page taken from the first run leaves the unsafe one unsafe. */
  lemma PageFirst(s: seq<Entry>, i: nat)
    requires Canonical(s) && i < |s| && !SafeRun(s[i]) && (i > 0 || s[0].size > SLOT + 1)
    ensures var t := AllocList(s, 1).1; var j := if s[0].size == 1 then i - 1 else i;
            && Canonical(t) && 0 <= j < |t| && !SafeRun(t[j])
            && (|t| < |s| || (|t| == |s| && t[0].size < s[0].size))
  {
    assert FindFit(s, 1, 0) == 0;
    hide Canonical;
    TakeFrontFree(s, 0, 1);
    if s[0].size == 1 {
      assert Removed(s, 0)[i - 1] == s[i];
    }
  }

  /** Pages are asked for until the run has one page more than the slot it ends with. */
  lemma {:induction false} UnsafeLoses(s: seq<Entry>, i: nat) returns (asks: seq<Ask>)
    requires Canonical(s) && i < |s| && !SafeRun(s[i])
    ensures Loses(s, asks)
    decreases |s|, s[0].size
  {
    hide Canonical, Loses, After, AllocList, SlotLoses;
    if i == 0 && s[0].size == SLOT + 1 {
      asks := [Aligned];
      LosesNow(s);
    } else {
      OfRun(s[i]);
      hide SafeRun;
      PageFirst(s, i);
      var rest := UnsafeLoses(AllocList(s, 1).1, if s[0].size == 1 then i - 1 else i);
      asks := [One] + rest;
      AfterSingle(s, One);
      AfterJoin(s, [One], rest);
    }
  }

  lemma OfRun(e: Entry)
    requires !SafeRun(e)
    ensures e.size > SLOT
  {
  }

  /** Some requests make the allocator lose pages if and only if a run longer than
      a slot ends where a slot does. */
  lemma LossExact(s: seq<Entry>)
    requires Canonical(s)
    ensures (exists t :: Leads(s, false, true, t, true)) <==> !Safe(s)
  {
    hide Loses, After, SafeRun, Leads;
    if t :| Leads(s, false, true, t, true) {
      LeadsKeeps(s, false, true, t, true);
    }
    if !Safe(s) {
      var i :| 0 <= i < |s| && !SafeRun(s[i]);
      var asks := UnsafeLoses(s, i);
      LeadsBy(s, asks);
      assert Leads(s, false, true, After(s, asks), true);
    }
  }

  lemma LeadsBy(s: seq<Entry>, asks: seq<Ask>)
    ensures Leads(s, false, true, After(s, asks), Loses(s, asks))
  {
    assert Served(s, false, true, asks, After(s, asks), Loses(s, asks));
  }

  // ---------------------------------------------------------------- refusals

  /** A page is refused exactly when none is free. */
  lemma PageRefused(s: seq<Entry>)
    requires Canonical(s)
    ensures AllocList(s, 1).0 == 0 <==> FreeSet(s) == {}
  {
    if s != [] {
      assert FindFit(s, 1, 0) == 0;
      EntryFree(s, 0);
      assert s[0].base in Block(s[0].base, s[0].size);
    }
  }

  /** 1022 pages free and no slot among them. */
  lemma SlotRefusedExample()
    ensures var s := [Entry(1, 1022)];
            Canonical(s) && SlotList(s).0 == 0 && AllocList(s, SLOT).0 == 1 && |FreeSet(s)| == 1022
  {
    var s := [Entry(1, 1022)];
    assert AlignUp(1) == 512;
    assert FindSlot(s, 0) == 1;
    assert FindFit(s, SLOT, 0) == 0;
    SingleFree(s[0]);
    BlockSize(1, 1022);
  }

  // ---------------------------------------------------------------- no run starts at frame 0

  /** What is left of the form of the list once pages are lost. */
  predicate Based(s: seq<Entry>) {
    forall i :: 0 <= i < |s| ==> s[i].base > 0
  }

  lemma BasedReplaced(s: seq<Entry>, i: nat, es: seq<Entry>)
    requires Based(s) && i < |s| && Based(es)
    ensures Based(s[..i] + es + s[i + 1..])
  {
    var t := s[..i] + es + s[i + 1..];
    forall k | 0 <= k < |t| ensures t[k].base > 0 {
      if k >= i + |es| { assert t[k] == s[k - |es| + 1]; }
    }
  }

  lemma BasedFront(s: seq<Entry>, i: nat, n: nat)
    requires Based(s) && i < |s| && s[i].size >= n
    ensures Based(TakeFront(s, i, n))
  {
    if s[i].size == n {
      BasedReplaced(s, i, []);
      assert TakeFront(s, i, n) == s[..i] + [] + s[i + 1..];
    }
  }

  lemma BasedCut(s: seq<Entry>, i: nat)
    requires Based(s) && i < |s| && SlotFits(s[i])
    ensures Based(TakeSlot(s, i)) && AlignUp(s[i].base) > 0
  {
    var b := AlignUp(s[i].base);
    if b == s[i].base {
      BasedFront(s, i, SLOT);
    } else if LosesFront(s[i]) {
      LoseFrontEntries(s, i);
    } else {
      TakeSlotCuts(s, i);
      BasedReplaced(s, i, [Entry(s[i].base, b - s[i].base), Entry(b + SLOT, s[i].End() - (b + SLOT))]);
    }
  }

  lemma BasedReply(s: seq<Entry>, a: Ask)
    requires Based(s)
    ensures Based(Reply(s, a).1)
    ensures Reply(s, a).0 == 0 <==> if a.One? then FindFit(s, 1, 0) == |s| else FindSlot(s, 0) == |s|
    ensures Reply(s, a).0 == 0 ==> Reply(s, a).1 == s
  {
    hide TakeFront, TakeSlot, LosesFront, SlotFits;
    var i, j := FindFit(s, 1, 0), FindSlot(s, 0);
    if i < |s| { BasedFront(s, i, 1); }
    if j < |s| { BasedCut(s, j); }
  }

  lemma BasedFreed(s: seq<Entry>, base: nat, n: nat)
    requires Based(s) && base > 0
    ensures Based(FreedList(s, base, n))
  {
    hide Joined, FindMeet, FindTouch;
    if n > 0 {
      FreedListOf(s, base, n);
      BasedMerged(Grown(s, base, n, base + n), FindTouch(s, base, base + n, 0));
    }
  }

  lemma BasedMerged(g: seq<Entry>, i: nat)
    requires Based(g) && i < |g|
    ensures Based(Merged(g, i))
  {
    var j := FindMeet(g, i, 0);
    if j < |g| {
      var h := g[i := Joined(g[i], g[j])];
      assert Based(h);
      BasedReplaced(h, j, []);
      assert Removed(h, j) == h[..j] + [] + h[j + 1..];
    }
  }
}
