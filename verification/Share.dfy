/** While the queues stay as they are and no alarm is due, sched_pick turns the
    cursors like an odometer, so every task gets an exact share of the picks. */
module Share {
  import opened Queues
  import opened Sched
  import opened Odometer
  import opened Pick

  /** The ready queues of CPU c, one per level above the idle level. */
  ghost function Ready(m: Mem, ls: Lists, c: nat): (q: seq<seq<nat>>)
    requires Inv(m, ls, 0) && c < |m.ccb|
    ensures |q| == PRI_IDLE
    ensures forall i :: 0 <= i < PRI_IDLE ==> Active(c, i) in ls && q[i] == ls[Active(c, i)]
  {
    seq(PRI_IDLE, i requires 0 <= i < PRI_IDLE => ls[Active(c, i)])
  }

  function Counts(q: seq<seq<nat>>): (n: seq<nat>)
    ensures |n| == |q| && forall i :: 0 <= i < |q| ==> n[i] == |q[i]|
  {
    seq(|q|, i requires 0 <= i < |q| => |q[i]|)
  }

  /** Where a cursor stands: |s| when it is null. */
  function Digit(s: seq<nat>, r: nat): (d: nat)
    ensures d <= |s|
  {
    if r in s then IndexOf(s, r) else |s|
  }

  function Cursors(q: seq<seq<nat>>, b: Ccb): (d: seq<nat>)
    requires |q| <= |b.cursor|
    ensures |d| == |q| && forall i :: 0 <= i < |q| ==> d[i] == Digit(q[i], b.cursor[i])
  {
    seq(|q|, i requires 0 <= i < |q| => Digit(q[i], b.cursor[i]))
  }

  ghost predicate Fits(q: seq<seq<nat>>, b: Ccb) {
    && |q| == PRI_IDLE && |b.active| == LEVELS && |b.cursor| == LEVELS
    && forall i :: 0 <= i < PRI_IDLE ==> FitsAt(q[i], b.active[i], b.cursor[i])
  }

  ghost predicate FitsAt(s: seq<nat>, head: nat, r: nat) {
    head == At(s, 0) && (r == 0 || r in s) && NoDup(s) && 0 !in s
  }

  lemma {:induction false} IndexOfUnique(s: seq<nat>, k: nat)
    requires NoDup(s) && k < |s|
    ensures IndexOf(s, s[k]) == k
  {
  }

  /** The cursor of level i moved on by one. */
  function Turned(q: seq<seq<nat>>, b: Ccb, i: nat): Ccb
    requires i < |q| && i < |b.cursor| && b.cursor[i] in q[i]
  {
    b.(cursor := b.cursor[i := At(q[i], IndexOf(q[i], b.cursor[i]) + 1)])
  }

  lemma TurnedDigit(s: seq<nat>, r: nat)
    requires r in s && NoDup(s) && 0 !in s
    ensures Digit(s, At(s, IndexOf(s, r) + 1)) == IndexOf(s, r) + 1
    ensures var r' := At(s, IndexOf(s, r) + 1); r' == 0 || r' in s
  {
    var k := IndexOf(s, r) + 1;
    if k < |s| { IndexOfUnique(s, k); }
  }

  lemma HeadDigit(s: seq<nat>)
    requires NoDup(s) && 0 !in s
    ensures Digit(s, At(s, 0)) == 0
    ensures At(s, 0) == 0 <==> s == []
    ensures Digit(s, 0) == |s|
  {
    if s != [] { assert s[0] in s; IndexOfUnique(s, 0); }
  }

  /** The odometer's view of the block after a sweep from level i: only digits
      from i on move, and they move as Advance says. */
  ghost predicate Advanced(q: seq<seq<nat>>, b: Ccb, i: nat, b': Ccb)
    requires |q| == PRI_IDLE && |b.cursor| == LEVELS && |b'.cursor| == LEVELS && i <= PRI_IDLE
  {
    && Cursors(q, b')[..i] == Cursors(q, b)[..i]
    && Cursors(q, b')[i..] == Advance(Counts(q)[i..], Cursors(q, b)[i..]).1
  }

  lemma {:induction false} SweepIsAdvance(q: seq<seq<nat>>, b: Ccb, i: nat)
    requires Fits(q, b) && i <= PRI_IDLE
    ensures var (f, b') := Sweep(b, None, i); var (l, e) := Advance(Counts(q)[i..], Cursors(q, b)[i..]);
            && Fits(q, b')
            && (f.None? <==> l.None?)
            && (f.Some? ==> f.value == l.value + i && b'.cursor[f.value] in q[f.value])
            && (f.None? ==> Advanced(q, b, i, b'))
            && (f.Some? ==> Advanced(q, b, i, Turned(q, b', f.value)))
    decreases PRI_IDLE - i
  {
    hide Digit, IndexOf, NoDup;
    if i < PRI_IDLE {
      assert FitsAt(q[i], b.active[i], b.cursor[i]);
      HeadDigit(q[i]);
      if b.active[i] != 0 && b.cursor[i] != 0 {
        StopAt(q, b, i);
      } else {
        var b1 := if b.active[i] == 0 then b else b.(cursor := b.cursor[i := b.active[i]]);
        SweepIsAdvance(q, b1, i + 1);
        PassOver(q, b, b1, i);
      }
    }
  }

  lemma StopAt(q: seq<seq<nat>>, b: Ccb, i: nat)
    requires Fits(q, b) && i < PRI_IDLE && b.active[i] != 0 && b.cursor[i] != 0
    ensures b.cursor[i] in q[i]
    ensures Advance(Counts(q)[i..], Cursors(q, b)[i..]).0 == Some(0)
    ensures Advanced(q, b, i, Turned(q, b, i))
  {
    assert FitsAt(q[i], b.active[i], b.cursor[i]);
    TurnedDigit(q[i], b.cursor[i]);
  }

  lemma PassOver(q: seq<seq<nat>>, b: Ccb, b1: Ccb, i: nat)
    requires Fits(q, b) && i < PRI_IDLE && (b.active[i] == 0 || b.cursor[i] == 0)
    requires b1 == if b.active[i] == 0 then b else b.(cursor := b.cursor[i := b.active[i]])
    ensures Advance(Counts(q)[i..], Cursors(q, b)[i..])
         == var (l, e) := Advance(Counts(q)[i + 1..], Cursors(q, b1)[i + 1..]);
            (if l.Some? then Some(l.value + 1) else None, [0] + e)
    ensures forall b': Ccb :: |b'.cursor| == LEVELS && Advanced(q, b1, i + 1, b') ==> Advanced(q, b, i, b')
  {
    DigitReset(q, b, b1, i);
    var n, d, d1 := Counts(q), Cursors(q, b), Cursors(q, b1);
    hide Digit, Fits, FitsAt, IndexOf, NoDup, Cursors, Counts;
    AdvanceOver(n, d, i);
    forall b': Ccb | |b'.cursor| == LEVELS && Advanced(q, b1, i + 1, b') ensures Advanced(q, b, i, b') {
      PastDigit(d, d1, Cursors(q, b'), i);
    }
  }

  /** Only digit i changes: it was at its end, and is back at the front. */
  lemma DigitReset(q: seq<seq<nat>>, b: Ccb, b1: Ccb, i: nat)
    requires Fits(q, b) && i < PRI_IDLE && (b.active[i] == 0 || b.cursor[i] == 0)
    requires b1 == if b.active[i] == 0 then b else b.(cursor := b.cursor[i := b.active[i]])
    ensures Counts(q)[i] <= Cursors(q, b)[i] && Cursors(q, b1) == Cursors(q, b)[i := 0]
  {
    FitsLevel(q, b, i);
    HeadDigit(q[i]);
    hide Digit, Fits, IndexOf, NoDup;
  }

  lemma AdvanceOver(n: seq<nat>, d: seq<nat>, i: nat)
    requires |n| == |d| && i < |n| && n[i] <= d[i]
    ensures Advance(n[i..], d[i..])
         == var (l, e) := Advance(n[i + 1..], d[i := 0][i + 1..]);
            (if l.Some? then Some(l.value + 1) else None, [0] + e)
  {
    assert n[i..][1..] == n[i + 1..];
    assert d[i..][1..] == d[i := 0][i + 1..];
  }

  lemma PastDigit(d: seq<nat>, d1: seq<nat>, d': seq<nat>, i: nat)
    requires i < |d| && |d'| == |d| && d1 == d[i := 0] && d'[..i + 1] == d1[..i + 1]
    ensures d'[..i] == d[..i] && d'[i..] == [0] + d'[i + 1..]
  {
    assert d'[i] == d'[..i + 1][i] == d1[i];
    assert d'[..i] == d'[..i + 1][..i] == d1[..i + 1][..i] == d[..i];
  }

  // ---------------------------------------------------------------- one pick

  ghost predicate Quiet(m: Mem, ls: Lists, c: nat)
    requires Inv(m, ls, 0) && c < |m.ccb|
  {
    TimerMapped(m, ls, c);
    Due(m, c).None?
  }

  /** With no alarm due nobody is woken. */
  lemma QuietSteady(m: Mem, ls: Lists, c: nat)
    requires Inv(m, ls, 0) && c < |m.ccb| && Quiet(m, ls, c)
    ensures !Slips(m, c)
  {
  }

  lemma ReadyFits(m: Mem, ls: Lists, c: nat)
    requires Inv(m, ls, 0) && c < |m.ccb|
    ensures Fits(Ready(m, ls, c), m.ccb[c])
    ensures Digits(Counts(Ready(m, ls, c)), Cursors(Ready(m, ls, c), m.ccb[c]))
  {
    forall i | 0 <= i < PRI_IDLE
      ensures FitsAt(Ready(m, ls, c)[i], m.ccb[c].active[i], m.ccb[c].cursor[i])
    {
      assert Holds(m, Active(c, i), ls[Active(c, i)], 0);
    }
  }

  lemma {:induction false} SizeOfEmpty(n: seq<nat>)
    requires forall i :: 0 <= i < |n| ==> n[i] == 0
    ensures Size(n) == 1
  {
    if n != [] { SizeOfEmpty(n[1..]); }
  }

  /** A pick with no alarm due is one pick of the odometer, and the task under
      the digit that moved is the one that runs. */
  lemma PickTurns(m: Mem, ls: Lists, c: nat)
    requires Inv(m, ls, 0) && c < |m.ccb| && Quiet(m, ls, c)
    requires Size(Counts(Ready(m, ls, c))) > 1
    ensures var q := Ready(m, ls, c); var n := Counts(q); var d := Cursors(q, m.ccb[c]); var m' := PickMem(m, ls, c);
            var (l, d') := Odometer.Pick(n, d);
            && PickLists(m, ls, c) == ls
            && Inv(m', ls, 0) && |m'.ccb| == |m.ccb| && Quiet(m', ls, c) && Ready(m', ls, c) == q
            && Cursors(q, m'.ccb[c]) == d'
            && l.Some? && l.value < |q| && 0 < d'[l.value] <= |q[l.value]|
            && m'.ccb[c].current == q[l.value][d'[l.value] - 1]
  {
    hide Inv, Found, Chosen, PickMem, PickLists, Ready, Size, Odometer.Pick, Advance, Fits, NoDup, Cursors, Counts, Turned, Quiet, Slips;
    QuietSteady(m, ls, c);
    var q := Ready(m, ls, c);
    IsShaped(m, ls, 0);
    FoundTurns(m, ls, c);
    QuietDispatch(m, ls, c);
    QuietKeeps(m, ls, c);
    var (f, b) := Found(m.ccb[c], None);
    TurnedTask(q, b, f.value);
  }

  /** The digit that moved is one more than the place of the task that runs. */
  lemma TurnedTask(q: seq<seq<nat>>, b: Ccb, i: nat)
    requires Fits(q, b) && i < PRI_IDLE && b.cursor[i] in q[i]
    ensures var b' := Turned(q, b, i); var t := b.cursor[i];
            && Cursors(q, b'.(current := t)) == Cursors(q, b')
            && 0 < Cursors(q, b')[i] <= |q[i]| && t == q[i][Cursors(q, b')[i] - 1]
  {
    FitsLevel(q, b, i);
    TurnedDigit(q[i], b.cursor[i]);
  }

  lemma QuietKeeps(m: Mem, ls: Lists, c: nat)
    requires Inv(m, ls, 0) && c < |m.ccb| && Quiet(m, ls, c)
    requires var (f, b) := Found(m.ccb[c], None); f.Some? && b.cursor[f.value] in Ready(m, ls, c)[f.value]
    ensures var m' := PickMem(m, ls, c);
            && Inv(m', ls, 0) && |m'.ccb| == |m.ccb| && Quiet(m', ls, c) && Ready(m', ls, c) == Ready(m, ls, c)
  {
    hide Inv, Found, Chosen, PickMem, PickLists, Ready, Quiet, Slips;
    QuietSteady(m, ls, c);
    PickKeeps(m, ls, c);
    QuietDispatch(m, ls, c);
    SameQueues(m, PickMem(m, ls, c), ls, c);
  }

  lemma FitsLevel(q: seq<seq<nat>>, b: Ccb, i: nat)
    requires Fits(q, b) && i < PRI_IDLE
    ensures FitsAt(q[i], b.active[i], b.cursor[i])
  {
  }

  lemma SameQueues(m: Mem, m': Mem, ls: Lists, c: nat)
    requires Inv(m, ls, 0) && Inv(m', ls, 0) && c < |m.ccb| == |m'.ccb| && Quiet(m, ls, c)
    requires m'.tcb == m.tcb && m'.ccb[c].timer == m.ccb[c].timer && m'.ccb[c].ticks == m.ccb[c].ticks
    ensures Quiet(m', ls, c) && Ready(m', ls, c) == Ready(m, ls, c)
  {
    hide Holds;
  }

  lemma FoundTurns(m: Mem, ls: Lists, c: nat)
    requires Inv(m, ls, 0) && c < |m.ccb|
    requires Size(Counts(Ready(m, ls, c))) > 1
    ensures var q := Ready(m, ls, c); var n := Counts(q); var d := Cursors(q, m.ccb[c]);
            var (l, d') := Odometer.Pick(n, d);
            var (f, b) := Found(m.ccb[c], None);
            && f == l && f.Some? && f.value < PRI_IDLE && b.cursor[f.value] in q[f.value]
            && Fits(q, b)
            && Cursors(q, Turned(q, b, f.value)) == d'
  {
    hide Ready, Found, Odometer.Pick, Size, Cursors, Counts, Turned, Fits;
    ReadyFits(m, ls, c);
    FitsShape(Ready(m, ls, c), m.ccb[c]);
    FoundIsPick(Ready(m, ls, c), m.ccb[c]);
  }

  lemma FitsShape(q: seq<seq<nat>>, b: Ccb)
    requires Fits(q, b)
    ensures |q| == PRI_IDLE && |b.active| == LEVELS && |b.cursor| == LEVELS
  {
  }

  lemma SweepFromTop(q: seq<seq<nat>>, b: Ccb)
    requires Fits(q, b)
    ensures var (f, b') := Sweep(b, None, 0); var (l, e) := Advance(Counts(q), Cursors(q, b));
            && Fits(q, b') && f == l
            && (f.Some? ==> b'.cursor[f.value] in q[f.value] && Cursors(q, Turned(q, b', f.value)) == e)
            && (f.None? ==> Cursors(q, b') == e)
  {
    FitsShape(q, b);
    hide Fits, Sweep, Cursors, Counts, Advance, Turned;
    var n, d := Counts(q), Cursors(q, b);
    SweepIsAdvance(q, b, 0);
    assert n[0..] == n && d[0..] == d;
    var (f, b') := Sweep(b, None, 0);
    if f.None? {
      var x := Cursors(q, b');
      assert x[0..] == x;
    } else {
      var x := Cursors(q, Turned(q, b', f.value));
      assert x[0..] == x;
    }
  }

  lemma FoundIsPick(q: seq<seq<nat>>, b: Ccb)
    requires Fits(q, b) && Size(Counts(q)) > 1
    ensures var (l, d') := Odometer.Pick(Counts(q), Cursors(q, b)); var (f, b') := Found(b, None);
            && f == l && f.Some? && b'.cursor[f.value] in q[f.value]
            && Fits(q, b')
            && Cursors(q, Turned(q, b', f.value)) == d'
  {
    FitsShape(q, b);
    hide Fits, Sweep, Cursors, Counts, Advance, Turned, Size, NonEmpty;
    SweepFromTop(q, b);
    SweepFromTop(q, Sweep(b, None, 0).1);
    SomeLevel(q, b);
    TwoPasses(b, None);
  }

  lemma SomeLevel(q: seq<seq<nat>>, b: Ccb)
    requires Fits(q, b) && Size(Counts(q)) > 1
    ensures NonEmpty(b)
  {
    var n := Counts(q);
    if !NonEmpty(b) {
      forall i | 0 <= i < |n| ensures n[i] == 0 {
        assert FitsAt(q[i], b.active[i], b.cursor[i]);
        HeadDigit(q[i]);
      }
      SizeOfEmpty(n);
      assert false;
    }
  }

  lemma QuietDispatch(m: Mem, ls: Lists, c: nat)
    requires Inv(m, ls, 0) && c < |m.ccb| && Quiet(m, ls, c)
    requires var (f, b) := Found(m.ccb[c], None); f.Some? && b.cursor[f.value] in Ready(m, ls, c)[f.value]
    ensures var q := Ready(m, ls, c); var (f, b) := Found(m.ccb[c], None); var m' := PickMem(m, ls, c);
            && PickLists(m, ls, c) == ls && m'.tcb == m.tcb && |m'.ccb| == |m.ccb|
            && m'.ccb[c] == Turned(q, b, f.value).(current := b.cursor[f.value])
  {
    hide Holds, Found, InOneList;
    TimerMapped(m, ls, c);
    ChosenKeeps(m, ls, c);
    var (f, b) := Found(m.ccb[c], None);
    FoundKeeps(m, ls, c, None);
    var m0 := WithCcb(m, c, b);
    var i := f.value;
    assert Chosen(m, ls, c) == (i, m0, ls);
    hide Inv, Chosen;
    CursorInList(m0, ls, c, i);
    NextInList(m0, ls, Active(c, i), b.cursor[i]);
    assert PickMem(m, ls, c) == Dispatched(m0, c, i);
  }

  // ---------------------------------------------------------------- runs of picks

  /** The tasks run by `steps` picks in a row. */
  ghost function Picks(m: Mem, ls: Lists, c: nat, steps: nat): (r: seq<nat>)
    requires Inv(m, ls, 0) && c < |m.ccb| && Quiet(m, ls, c) && Size(Counts(Ready(m, ls, c))) > 1
    ensures |r| == steps
    decreases steps
  {
    if steps == 0 then []
    else
      PickTurns(m, ls, c);
      var m' := PickMem(m, ls, c);
      [m'.ccb[c].current] + Picks(m', ls, c, steps - 1)
  }

  lemma SeatsDiffer(m: Mem, ls: Lists, c: nat, i: nat, j: nat, x: nat, y: nat)
    requires Inv(m, ls, 0) && c < |m.ccb| && i < PRI_IDLE && j < PRI_IDLE
    requires x < |Ready(m, ls, c)[i]| && y < |Ready(m, ls, c)[j]|
    ensures Ready(m, ls, c)[i][x] == Ready(m, ls, c)[j][y] <==> i == j && x == y
  {
    var t := ls[Active(c, i)][x];
    assert t in ls[Active(c, i)];
    assert Holds(m, Active(c, i), ls[Active(c, i)], 0);
    if t == ls[Active(c, j)][y] { assert t in ls[Active(c, j)]; }
  }

  lemma {:induction false} PicksAreTurns(m: Mem, ls: Lists, c: nat, j: nat, k: nat, steps: nat)
    requires Inv(m, ls, 0) && c < |m.ccb| && Quiet(m, ls, c) && Size(Counts(Ready(m, ls, c))) > 1
    requires j < PRI_IDLE && k < |Ready(m, ls, c)[j]|
    ensures var q := Ready(m, ls, c); var n := Counts(q);
            multiset(Picks(m, ls, c, steps))[q[j][k]] == Turns(n, j, k, Value(n, Cursors(q, m.ccb[c])), steps)
    decreases steps
  {
    hide Inv, PickMem, PickLists, Ready, Size, Odometer.Pick, Value, Turn, Quiet, Cursors, Counts, Slips;
    QuietSteady(m, ls, c);
    IsShaped(m, ls, 0);
    if steps > 0 {
      var q := Ready(m, ls, c);
      var n, d := Counts(q), Cursors(q, m.ccb[c]);
      PickTurns(m, ls, c);
      ReadyFits(m, ls, c);
      PickIsNext(n, d);
      var (l, d') := Odometer.Pick(n, d);
      SeatsDiffer(m, ls, c, l.value, j, d'[l.value] - 1, k);
      PicksAreTurns(PickMem(m, ls, c), ls, c, j, k, steps - 1);
      PicksUnfold(m, ls, c, steps, q[j][k]);
    }
  }

  lemma PicksUnfold(m: Mem, ls: Lists, c: nat, steps: nat, t: nat)
    requires Inv(m, ls, 0) && c < |m.ccb| && Quiet(m, ls, c) && Size(Counts(Ready(m, ls, c))) > 1
    requires steps > 0
    ensures var m' := PickMem(m, ls, c);
            && |m'.ccb| == |m.ccb| && Inv(m', ls, 0) && Quiet(m', ls, c) && Ready(m', ls, c) == Ready(m, ls, c)
            && multiset(Picks(m, ls, c, steps))[t]
            == One(m'.ccb[c].current == t) + multiset(Picks(m', ls, c, steps - 1))[t]
  {
    hide Inv, PickMem, PickLists, Ready, Size, Odometer.Pick, Quiet, Cursors, Counts, Slips;
    QuietSteady(m, ls, c);
    PickTurns(m, ls, c);
    var m' := PickMem(m, ls, c);
    var rest := Picks(m', ls, c, steps - 1);
    assert Picks(m, ls, c, steps) == [m'.ccb[c].current] + rest;
    assert multiset([m'.ccb[c].current] + rest) == multiset{m'.ccb[c].current} + multiset(rest);
  }

  lemma SizeAbove(n: seq<nat>, j: nat)
    requires j < |n| && n[j] > 0
    ensures Size(n) > 1
  {
    hide Size;
    if Size(n) == 1 { SizeOne(n); }
  }

  /** Exact shares: with n_i tasks at level i, over any prod(n_i + 1) - 1
      consecutive picks each task of level j runs prod over l > j of (n_l + 1)
      times. */
  lemma ExactShares(m: Mem, ls: Lists, c: nat, j: nat, k: nat)
    requires Inv(m, ls, 0) && c < |m.ccb| && Quiet(m, ls, c)
    requires j < PRI_IDLE && k < |Ready(m, ls, c)[j]|
    ensures var q := Ready(m, ls, c); var n := Counts(q);
            && Size(n) > 1
            && multiset(Picks(m, ls, c, Size(n) - 1))[q[j][k]] == Size(n[j + 1..])
  {
    var q := Ready(m, ls, c);
    var n := Counts(q);
    hide Inv, Size, Ready, Quiet, Turn, Value, Cursors, Counts, Turns, Picks;
    SizeAbove(n, j);
    ReadyFits(m, ls, c);
    FitsShape(q, m.ccb[c]);
    ValueBound(n, Cursors(q, m.ccb[c]));
    PicksAreTurns(m, ls, c, j, k, Size(n) - 1);
    ExactShare(n, j, k, Value(n, Cursors(q, m.ccb[c])));
  }

  /** Nobody starves: every ready task runs within that many picks. */
  lemma NobodyStarves(m: Mem, ls: Lists, c: nat, j: nat, k: nat)
    requires Inv(m, ls, 0) && c < |m.ccb| && Quiet(m, ls, c)
    requires j < PRI_IDLE && k < |Ready(m, ls, c)[j]|
    ensures Size(Counts(Ready(m, ls, c))) > 1
    ensures Ready(m, ls, c)[j][k] in Picks(m, ls, c, Size(Counts(Ready(m, ls, c))) - 1)
  {
    ExactShares(m, ls, c, j, k);
    assert multiset(Picks(m, ls, c, Size(Counts(Ready(m, ls, c))) - 1))[Ready(m, ls, c)[j][k]] > 0;
  }
}
