/** The cursors of the priority queues as the digits of a mixed-radix counter.
    Level i holds n[i] tasks; its digit is the position of its cursor, and n[i]
    when the cursor has run off the end of the queue. */
module Odometer {
  datatype Option<T> = None | Some(value: T)

  /** A task's seat: its level, and its place in the queue of that level. */
  datatype Seat = Seat(level: nat, place: nat)

  ghost predicate Digits(n: seq<nat>, d: seq<nat>) {
    |d| == |n| && forall i :: 0 <= i < |n| ==> d[i] <= n[i]
  }

  /** Number of digit settings. */
  function Size(n: seq<nat>): (r: nat)
    ensures r >= 1
  {
    if n == [] then 1 else
      var s := Size(n[1..]);
      MulPos(n[0] + 1, s);
      (n[0] + 1) * s
  }

  lemma MulPos(a: nat, b: nat)
    requires a >= 1 && b >= 1
    ensures a * b >= 1
  {
  }

  function Value(n: seq<nat>, d: seq<nat>): nat
    requires |d| == |n|
  {
    if n == [] then 0 else
      MulNat(n[0] + 1, Value(n[1..], d[1..]));
      d[0] + (n[0] + 1) * Value(n[1..], d[1..])
  }

  lemma MulNat(a: nat, b: nat)
    ensures a * b >= 0
  {
  }

  /** One sweep over the levels: exhausted cursors go back to the head of their
      queue, and the first level with a task left gives its turn. */
  function Advance(n: seq<nat>, d: seq<nat>): (r: (Option<nat>, seq<nat>))
    requires |d| == |n|
    ensures |r.1| == |n|
    ensures r.0.Some? ==> r.0.value < |n|
  {
    if n == [] then (None, [])
    else if d[0] < n[0] then (Some(0), d[0 := d[0] + 1])
    else
      var (l, d') := Advance(n[1..], d[1..]);
      (if l.Some? then Some(l.value + 1) else None, [0] + d')
  }

  /** Which task has its turn when the counter reaches v > 0: its level and its
      place in the queue of that level. */
  function Turn(n: seq<nat>, v: nat): Option<Seat> {
    if n == [] || v == 0 then None
    else if v % (n[0] + 1) != 0 then Some(Seat(0, v % (n[0] + 1) - 1))
    else
      var t := Turn(n[1..], v / (n[0] + 1));
      if t.Some? then Some(Seat(t.value.level + 1, t.value.place)) else None
  }

  lemma DivMod(m: nat, w: nat, r: nat)
    requires r < m
    ensures m * w + r >= 0
    ensures (m * w + r) / m == w && (m * w + r) % m == r
  {
    var v := m * w + r;
    assert v == m * (v / m) + v % m;
    if v / m < w { Step(m, v / m + 1, w); }
    if v / m > w { Step(m, w + 1, v / m); }
  }

  lemma Step(m: nat, a: nat, b: nat)
    requires a <= b
    ensures m * a <= m * b
    ensures m * (a + 1) == m * a + m
  {
    assert m * b == m * a + m * (b - a);
  }

  lemma {:induction false} ValueBound(n: seq<nat>, d: seq<nat>)
    requires Digits(n, d)
    ensures Value(n, d) < Size(n)
  {
    if n != [] {
      assert Digits(n[1..], d[1..]);
      ValueBound(n[1..], d[1..]);
      Step(n[0] + 1, Value(n[1..], d[1..]) + 1, Size(n[1..]));
      Step(n[0] + 1, Value(n[1..], d[1..]), Value(n[1..], d[1..]));
    }
  }

  /** A sweep is one increment of the counter; it finds nobody only at the top. */
  lemma {:induction false} AdvanceIncrements(n: seq<nat>, d: seq<nat>)
    requires Digits(n, d)
    ensures var (l, d') := Advance(n, d);
            && Digits(n, d')
            && (l.Some? ==> Value(n, d') == Value(n, d) + 1
                            && Turn(n, Value(n, d')) == Some(Seat(l.value, d[l.value])))
            && (l.None? ==> Value(n, d) == Size(n) - 1 && Value(n, d') == 0)
  {
    if n != [] {
      var m := n[0] + 1;
      var (l, d') := Advance(n, d);
      var w := Value(n[1..], d[1..]);
      if d[0] < n[0] {
        assert d'[1..] == d[1..];
        DivMod(m, w, d[0] + 1);
      } else {
        var (l1, d1) := Advance(n[1..], d[1..]);
        assert Digits(n[1..], d[1..]);
        AdvanceIncrements(n[1..], d[1..]);
        assert d' == [0] + d1 && d'[1..] == d1;
        Step(m, w, w);
        DivMod(m, Value(n[1..], d1), 0);
      }
    }
  }

  // ---------------------------------------------------------------- counting turns

  function One(b: bool): nat { if b then 1 else 0 }

  /** How many of the values a <= v < b give level j, place k its turn. */
  function Count(n: seq<nat>, j: nat, k: nat, a: nat, b: nat): nat
    decreases b - a
  {
    if a >= b then 0 else Count(n, j, k, a, b - 1) + One(Turn(n, b - 1) == Some(Seat(j, k)))
  }

  lemma {:induction false} CountSplit(n: seq<nat>, j: nat, k: nat, a: nat, b: nat, c: nat)
    requires a <= b <= c
    ensures Count(n, j, k, a, c) == Count(n, j, k, a, b) + Count(n, j, k, b, c)
    decreases c
  {
    if b < c { CountSplit(n, j, k, a, b, c - 1); }
  }

  /** Within one revolution of digit 0, starting at m * w. */
  lemma {:induction false} CountBlock(n: seq<nat>, j: nat, k: nat, w: nat, r: nat)
    requires n != [] && j < |n| && k < n[j] && r <= n[0]
    requires (n[0] + 1) * w >= 0
    ensures var base := (n[0] + 1) * w;
            Count(n, j, k, base, base + r + 1)
            == if j == 0 then One(k < r) else One(Turn(n[1..], w) == Some(Seat(j - 1, k)))
  {
    var m := n[0] + 1;
    DivMod(m, w, r);
    if r == 0 {
      TurnAtCarry(n, w);
      assert Count(n, j, k, m * w, m * w + 1) == Count(n, j, k, m * w, m * w) + One(Turn(n, m * w) == Some(Seat(j, k)));
    } else {
      CountBlock(n, j, k, w, r - 1);
      assert m * w + r > 0;
      assert Turn(n, m * w + r) == Some(Seat(0, r - 1));
    }
  }

  lemma TurnAtCarry(n: seq<nat>, w: nat)
    requires n != []
    ensures (n[0] + 1) * w >= 0
    ensures Turn(n, (n[0] + 1) * w)
            == var t := Turn(n[1..], w); if t.Some? then Some(Seat(t.value.level + 1, t.value.place)) else None
  {
    DivMod(n[0] + 1, w, 0);
    if w > 0 { MulPos(n[0] + 1, w); }
  }

  /** Over w revolutions of digit 0. */
  lemma {:induction false} CountBlocks(n: seq<nat>, j: nat, k: nat, w: nat)
    requires n != [] && j < |n| && k < n[j]
    ensures (n[0] + 1) * w >= 0
    ensures Count(n, j, k, 0, (n[0] + 1) * w) == if j == 0 then w else Count(n[1..], j - 1, k, 0, w)
  {
    MulNat(n[0] + 1, w);
    if w > 0 {
      var m := n[0] + 1;
      CountBlocks(n, j, k, w - 1);
      MulNat(m, w - 1);
      var a := m * (w - 1);
      assert m * w == a + m by { Step(m, w - 1, w - 1); }
      CountBlock(n, j, k, w - 1, n[0]);
      CountSplit(n, j, k, 0, a, a + m);
    }
  }

  /** In one full revolution, place k of level j has as many turns as the lower
      levels have settings. */
  lemma {:induction false} CountFull(n: seq<nat>, j: nat, k: nat)
    requires j < |n| && k < n[j]
    ensures Count(n, j, k, 1, Size(n)) == Size(n[j + 1..])
  {
    CountFromZero(n, j, k);
    CountSplit(n, j, k, 0, 1, Size(n));
    assert Count(n, j, k, 0, 1) == 0;
  }

  lemma {:induction false} CountFromZero(n: seq<nat>, j: nat, k: nat)
    requires j < |n| && k < n[j]
    ensures Count(n, j, k, 0, Size(n)) == Size(n[j + 1..])
  {
    CountBlocks(n, j, k, Size(n[1..]));
    if j > 0 {
      CountFromZero(n[1..], j - 1, k);
      assert n[1..][j..] == n[j + 1..];
    }
  }

  // ---------------------------------------------------------------- the scheduler's turns

  /** Two sweeps find somebody unless every level is empty. */
  function Pick(n: seq<nat>, d: seq<nat>): (r: (Option<nat>, seq<nat>))
    requires |d| == |n|
    ensures |r.1| == |n|
  {
    var (l, d') := Advance(n, d);
    if l.Some? then (l, d') else Advance(n, d')
  }

  /** The value after a pick: the top counts as zero. */
  function Next(size: nat, v: nat): nat {
    if v + 1 >= size then 1 else v + 1
  }

  lemma {:induction false} SizeOne(n: seq<nat>)
    requires Size(n) == 1
    ensures forall i :: 0 <= i < |n| ==> n[i] == 0
  {
    if n != [] {
      if n[0] > 0 { Step(Size(n[1..]), 2, n[0] + 1); }
      SizeOne(n[1..]);
      forall i | 0 <= i < |n| ensures n[i] == 0 { if i > 0 { assert n[i] == n[1..][i - 1]; } }
    }
  }

  lemma PickIsNext(n: seq<nat>, d: seq<nat>)
    requires Digits(n, d) && Size(n) > 1
    ensures var (l, d') := Pick(n, d);
            && Digits(n, d')
            && Value(n, d') == Next(Size(n), Value(n, d))
            && l.Some? && l.value < |n|
            && (exists k: nat :: Turn(n, Value(n, d')) == Some(Seat(l.value, k)) && k < n[l.value] && d'[l.value] == k + 1)
  {
    AdvanceIncrements(n, d);
    var (l, d') := Advance(n, d);
    ValueBound(n, d');
    if l.None? {
      AdvanceIncrements(n, d');
      AdvanceDigit(n, d');
      ValueBound(n, Advance(n, d').1);
    } else {
      AdvanceDigit(n, d);
    }
  }

  lemma {:induction false} AdvanceDigit(n: seq<nat>, d: seq<nat>)
    requires Digits(n, d)
    ensures var (l, d') := Advance(n, d);
            l.Some? ==> d[l.value] < n[l.value] && d'[l.value] == d[l.value] + 1
  {
    if n != [] && d[0] >= n[0] {
      assert Digits(n[1..], d[1..]);
      AdvanceDigit(n[1..], d[1..]);
      var (l, d') := Advance(n[1..], d[1..]);
      if l.Some? { assert ([0] + d')[l.value + 1] == d'[l.value]; }
    }
  }

  /** Turns of place k of level j among the next `steps` values after v. */
  function Turns(n: seq<nat>, j: nat, k: nat, v: nat, steps: nat): nat
    decreases steps
  {
    if steps == 0 then 0
    else
      var v' := Next(Size(n), v);
      One(Turn(n, v') == Some(Seat(j, k))) + Turns(n, j, k, v', steps - 1)
  }

  lemma {:induction false} TurnsStraight(n: seq<nat>, j: nat, k: nat, v: nat, steps: nat)
    requires v + steps < Size(n)
    ensures Turns(n, j, k, v, steps) == Count(n, j, k, v + 1, v + 1 + steps)
    decreases steps
  {
    if steps > 0 {
      TurnsStraight(n, j, k, v + 1, steps - 1);
      CountSplit(n, j, k, v + 1, v + 2, v + 1 + steps);
      assert Count(n, j, k, v + 1, v + 2) == Count(n, j, k, v + 1, v + 1) + One(Turn(n, v + 1) == Some(Seat(j, k)));
    }
  }

  lemma {:induction false} TurnsSplit(n: seq<nat>, j: nat, k: nat, v: nat, a: nat, b: nat)
    requires v + a < Size(n)
    ensures Turns(n, j, k, v, a + b) == Turns(n, j, k, v, a) + Turns(n, j, k, v + a, b)
    decreases a
  {
    if a > 0 {
      assert Next(Size(n), v) == v + 1;
      TurnsSplit(n, j, k, v + 1, a - 1, b);
    }
  }

  /** From the top the counter goes on as from zero. */
  lemma TurnsFromTop(n: seq<nat>, j: nat, k: nat, b: nat)
    requires Size(n) > 1
    ensures Turns(n, j, k, Size(n) - 1, b) == Turns(n, j, k, 0, b)
  {
  }

  /** Exact shares: over any Size(n) - 1 consecutive turns, from any setting. */
  lemma ExactShare(n: seq<nat>, j: nat, k: nat, v: nat)
    requires j < |n| && k < n[j] && v < Size(n) && Size(n) > 1
    ensures Turns(n, j, k, v, Size(n) - 1) == Size(n[j + 1..])
  {
    var s := Size(n);
    CountFull(n, j, k);
    if v == 0 {
      TurnsStraight(n, j, k, 0, s - 1);
    } else {
      TurnsSplit(n, j, k, v, s - 1 - v, v);
      TurnsStraight(n, j, k, v, s - 1 - v);
      TurnsFromTop(n, j, k, v);
      TurnsStraight(n, j, k, 0, v);
      CountSplit(n, j, k, 1, v + 1, s);
    }
  }
}
