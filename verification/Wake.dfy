/** When sched_pick wakes the sleeper at the head of the alarm queue: at which pick, and
    for which sleepers never. */
module Wake {
  import opened Queues
  import opened Sched
  import opened Odometer
  import opened Pick
  import opened Share

  // ---------------------------------------------------------------- one pick

  /** No level above p has a task that has not had its turn. */
  predicate Exhausted(b: Ccb, i: nat, p: nat)
    requires |b.active| == LEVELS && |b.cursor| == LEVELS && i <= p <= PRI_IDLE
  {
    forall j :: i <= j < p ==> b.active[j] == 0 || b.cursor[j] == 0
  }

  /** The sweep reaches the level of the due sleeper exactly when the levels above it
      are exhausted; otherwise it goes as if nobody were due. */
  lemma {:induction false} SweepWakes(b: Ccb, p: nat, i: nat)
    requires |b.active| == LEVELS && |b.cursor| == LEVELS && i <= p < PRI_IDLE
    ensures Sweep(b, Some(p), i).0.Some?
    ensures Exhausted(b, i, p) ==> Sweep(b, Some(p), i).0 == Some(p)
    ensures !Exhausted(b, i, p) ==> Sweep(b, Some(p), i) == Sweep(b, None, i) && Sweep(b, None, i).0.Some?
                                    && Sweep(b, None, i).0.value < p
    decreases p - i
  {
    if i < p && (b.active[i] == 0 || b.cursor[i] == 0) {
      var b1 := if b.active[i] == 0 then b else b.(cursor := b.cursor[i := b.active[i]]);
      assert Exhausted(b, i, p) <==> Exhausted(b1, i + 1, p);
      SweepWakes(b1, p, i + 1);
    }
  }

  /** The sleeper at the head is due, not of the idle level, and nobody above it is left. */
  predicate Wakes(m: Mem, c: nat)
    requires c < |m.ccb| && Shaped(m.ccb) && m.ccb[c].timer in m.tcb
  {
    var h := m.tcb[m.ccb[c].timer];
    h.alarm <= m.ccb[c].ticks && h.priority < PRI_IDLE && Exhausted(m.ccb[c], 0, h.priority)
  }

  lemma FoundDue(m: Mem, c: nat)
    requires c < |m.ccb| && Shaped(m.ccb) && m.ccb[c].timer in m.tcb && m.ccb[c].timer != 0
    ensures var due := Due(m, c);
            if Wakes(m, c) then due.Some? && Found(m.ccb[c], due).0 == due else due.None? || Found(m.ccb[c], due).0 != due
  {
    var h, due := m.tcb[m.ccb[c].timer], Due(m, c);
    if due.Some? && h.priority < PRI_IDLE { SweepWakes(m.ccb[c], h.priority, 0); }
  }

  lemma NoWakeNoSlip(m: Mem, c: nat)
    requires c < |m.ccb| && Shaped(m.ccb) && m.ccb[c].timer in m.tcb && m.ccb[c].timer != 0
    ensures Slips(m, c) ==> Wakes(m, c)
  {
    hide Wakes, Found, Due;
    FoundDue(m, c);
  }

  /** A pick wakes and runs the sleeper at the head if Wakes says so; otherwise it leaves
      all queues as they are. */
  lemma WakesExact(m: Mem, ls: Lists, c: nat)
    requires Inv(m, ls, 0) && c < |m.ccb| && m.ccb[c].timer != 0 && !Slips(m, c)
    ensures Shaped(m.ccb) && m.ccb[c].timer in m.tcb && Sleeping(c) in ls
    ensures var h, m', ls' := m.ccb[c].timer, PickMem(m, ls, c), PickLists(m, ls, c);
            h in m'.tcb && c < |m'.ccb|
            && (m'.tcb[h].state.Running? <==> Wakes(m, c))
            && if Wakes(m, c) then
                 m'.ccb[c].current == h && Home(m.tcb[h]) in ls && ls' == AwakeLists(m, ls, h)
               else
                 ls' == ls && m'.tcb == m.tcb
                 && m'.ccb[c].timer == m.ccb[c].timer && m'.ccb[c].ticks == m.ccb[c].ticks
  {
    IsShaped(m, ls, 0);
    HeadSleeper(m, ls, c);
    hide Inv, AwakeMem, AwakeLists, Wakes, Behind;
    FoundDue(m, c);
    hide Found, Due;
    var h, due := m.ccb[c].timer, Due(m, c);
    var (f, b) := Found(m.ccb[c], due);
    FoundKeeps(m, ls, c, due);
    var m0 := WithCcb(m, c, b);
    if Wakes(m, c) {
      HeadSleeper(m0, ls, c);
      AwakeKeeps(m0, ls, h);
      AwakeCursor(m0, ls, h);
      DueIsPriority(m, c);
      WokenRuns(AwakeMem(m0, h), c, m.tcb[h].priority, h);
      PickIs(m, ls, c, m.tcb[h].priority, AwakeMem(m0, h), AwakeLists(m0, ls, h));
      SameAwake(m, m0, ls, h);
    } else {
      NobodyWoken(m, ls, c);
    }
  }

  lemma WokenRuns(m: Mem, c: nat, i: nat, h: nat)
    requires c < |m.ccb| && |m.ccb[c].cursor| == LEVELS && i < LEVELS && m.ccb[c].cursor[i] == h != 0 && h in m.tcb
    ensures var m' := RunAt(m, c, i);
            m'.tcb == m.tcb && c < |m'.ccb| && m'.ccb[c].current == h
  {
  }

  lemma SameAwake(m: Mem, m0: Mem, ls: Lists, h: nat)
    requires h in m.tcb && m0.tcb == m.tcb && Home(m.tcb[h]) in ls
    ensures AwakeLists(m0, ls, h) == AwakeLists(m, ls, h)
  {
  }

  lemma NobodyWoken(m: Mem, ls: Lists, c: nat)
    requires Inv(m, ls, 0) && c < |m.ccb| && (m.ccb[c].timer == 0 || m.ccb[c].timer in m.tcb)
    requires Due(m, c).None? || Found(m.ccb[c], Due(m, c)).0 != Due(m, c)
    ensures var m' := PickMem(m, ls, c);
            PickLists(m, ls, c) == ls && m'.tcb == m.tcb && |m'.ccb| == |m.ccb|
            && m'.ccb[c].timer == m.ccb[c].timer && m'.ccb[c].ticks == m.ccb[c].ticks
  {
    IsShaped(m, ls, 0);
    hide Inv, Found, Due, AwakeMem, AwakeLists, Chosen, RunAt, Holds;
    ChosenAsIs(m, ls, c);
    var (i, m1, ls1) := Chosen(m, ls, c);
    ChosenKeeps(m, ls, c);
    PickIs(m, ls, c, i, m1, ls1);
    RunLeaves(m1, c, i);
  }

  lemma ChosenAsIs(m: Mem, ls: Lists, c: nat)
    requires Inv(m, ls, 0) && c < |m.ccb| && (m.ccb[c].timer == 0 || m.ccb[c].timer in m.tcb)
    requires Due(m, c).None? || Found(m.ccb[c], Due(m, c)).0 != Due(m, c)
    ensures var (i, m1, ls1) := Chosen(m, ls, c);
            ls1 == ls && m1.tcb == m.tcb && |m1.ccb| == |m.ccb|
            && m1.ccb[c].timer == m.ccb[c].timer && m1.ccb[c].ticks == m.ccb[c].ticks
  {
    IsShaped(m, ls, 0);
    NotSlipped(m, c);
    hide Inv, Found, Due, Chosen, AwakeMem, AwakeLists, Slips, Wakes;
    var (f, b) := Found(m.ccb[c], Due(m, c));
    assert b.timer == m.ccb[c].timer && b.ticks == m.ccb[c].ticks;
    ChosenIs(m, ls, c, f, b);
  }

  lemma NotSlipped(m: Mem, c: nat)
    requires c < |m.ccb| && Shaped(m.ccb) && (m.ccb[c].timer == 0 || m.ccb[c].timer in m.tcb)
    requires Due(m, c).None? || Found(m.ccb[c], Due(m, c)).0 != Due(m, c)
    ensures !Slips(m, c)
  {
  }

  lemma RunLeaves(m: Mem, c: nat, i: nat)
    requires c < |m.ccb| && |m.ccb[c].cursor| == LEVELS && i < LEVELS
    requires m.ccb[c].cursor[i] == 0 || m.ccb[c].cursor[i] in m.tcb
    ensures var m' := RunAt(m, c, i);
            m'.tcb == m.tcb && |m'.ccb| == |m.ccb| && m'.ccb[c].timer == m.ccb[c].timer && m'.ccb[c].ticks == m.ccb[c].ticks
  {
  }

  // ---------------------------------------------------------------- how many picks it takes

  lemma {:induction false} AdvanceNone(n: seq<nat>, d: seq<nat>)
    requires |d| == |n|
    ensures Advance(n, d).0.None? <==> forall i :: 0 <= i < |n| ==> n[i] <= d[i]
  {
    if n != [] {
      AdvanceNone(n[1..], d[1..]);
      forall i | 1 <= i < |n| ensures n[i] == n[1..][i - 1] && d[i] == d[1..][i - 1] {}
      assert forall i :: 0 <= i < |n| - 1 ==> n[1..][i] == n[i + 1] && d[1..][i] == d[i + 1];
    }
  }

  /** The upper digits of the odometer are an odometer. */
  lemma {:induction false} AdvancePrefix(n: seq<nat>, d: seq<nat>, p: nat)
    requires |d| == |n| && p <= |n|
    ensures var (l, e) := Advance(n, d);
            Advance(n[..p], d[..p]) == (if l.Some? && l.value < p then l else None, e[..p])
  {
    if n != [] && p > 0 {
      assert n[..p][1..] == n[1..][..p - 1] && d[..p][1..] == d[1..][..p - 1];
      AdvancePrefix(n[1..], d[1..], p - 1);
      var e := Advance(n[1..], d[1..]).1;
      assert ([0] + e)[..p] == [0] + e[..p - 1];
      assert d[0 := d[0] + 1][..p] == d[..p][0 := d[0] + 1];
    } else {
      assert n[..p] == [] && d[..p] == [];
    }
  }

  /** The picks that go to the levels above p before all of them are exhausted. */
  ghost function Left(m: Mem, ls: Lists, c: nat, p: nat): (r: nat)
    requires Inv(m, ls, 0) && c < |m.ccb| && p <= PRI_IDLE
    ensures r < Size(Counts(Ready(m, ls, c))[..p])
  {
    var q := Ready(m, ls, c);
    var n, d := Counts(q)[..p], (ReadyFits(m, ls, c); Cursors(q, m.ccb[c])[..p]);
    PrefixDigits(Counts(q), Cursors(q, m.ccb[c]), p);
    ValueBound(n, d);
    Size(n) - 1 - Value(n, d)
  }

  lemma PrefixDigits(n: seq<nat>, d: seq<nat>, p: nat)
    requires Digits(n, d) && p <= |n|
    ensures Digits(n[..p], d[..p])
  {
  }

  lemma ExhaustedLeft(m: Mem, ls: Lists, c: nat, p: nat)
    requires Inv(m, ls, 0) && c < |m.ccb| && p <= PRI_IDLE
    ensures |m.ccb[c].active| == LEVELS && |m.ccb[c].cursor| == LEVELS
    ensures Exhausted(m.ccb[c], 0, p) <==> Advance(Counts(Ready(m, ls, c))[..p], Cursors(Ready(m, ls, c), m.ccb[c])[..p]).0.None?
  {
    var q, b := Ready(m, ls, c), m.ccb[c];
    ReadyFits(m, ls, c);
    FitsShape(q, b);
    hide Inv, Fits, Ready, NoDup;
    var n, d := Counts(q), Cursors(q, b);
    AdvanceNone(n[..p], d[..p]);
    forall j | 0 <= j < p ensures (b.active[j] == 0 || b.cursor[j] == 0) <==> n[j] <= d[j] {
      FitsLevel(q, b, j);
      LevelExhausted(q[j], b.active[j], b.cursor[j]);
    }
    assert forall j :: 0 <= j < p ==> n[..p][j] == n[j] && d[..p][j] == d[j];
  }

  lemma LevelExhausted(s: seq<nat>, head: nat, r: nat)
    requires FitsAt(s, head, r)
    ensures (head == 0 || r == 0) <==> |s| <= Digit(s, r)
  {
    HeadDigit(s);
    if r != 0 { assert r in s && Digit(s, r) < |s|; }
  }

  /** The head of the alarm queue is due and of level p, above the idle level. */
  ghost predicate DueAt(m: Mem, c: nat, p: nat)
    requires c < |m.ccb|
  {
    && m.ccb[c].timer != 0 && m.ccb[c].timer in m.tcb && p < PRI_IDLE
    && m.tcb[m.ccb[c].timer].priority == p && m.tcb[m.ccb[c].timer].alarm <= m.ccb[c].ticks
  }

  lemma WakesDue(m: Mem, c: nat, p: nat)
    requires c < |m.ccb| && Shaped(m.ccb) && DueAt(m, c, p)
    ensures Wakes(m, c) <==> Exhausted(m.ccb[c], 0, p)
  {
  }

  /** What the upper digits of an odometer say about the picks that are left. */
  lemma LeftDigits(n: seq<nat>, d: seq<nat>, p: nat)
    requires Digits(n, d) && p <= |n|
    ensures Digits(n[..p], d[..p]) && Digits(n, Advance(n, d).1)
    ensures Advance(n[..p], d[..p]).0.None? <==> Size(n[..p]) - 1 == Value(n[..p], d[..p])
    ensures Advance(n[..p], d[..p]).0.Some? ==> Value(n[..p], Advance(n, d).1[..p]) == Value(n[..p], d[..p]) + 1
  {
    hide Size, Value, Advance, Turn;
    PrefixDigits(n, d, p);
    AdvanceIncrements(n, d);
    AdvanceIncrements(n[..p], d[..p]);
    AdvancePrefix(n, d, p);
    PrefixDigits(n, Advance(n, d).1, p);
    ValueBound(n[..p], Advance(n, d).1[..p]);
  }

  /** With a due sleeper of level p at the head, a pick wakes it exactly when no picks are
      left for the levels above, and otherwise takes one of those. */
  lemma LeftDecreases(m: Mem, ls: Lists, c: nat, p: nat)
    requires Inv(m, ls, 0) && c < |m.ccb| && DueAt(m, c, p)
    ensures Shaped(m.ccb)
    ensures Wakes(m, c) <==> Left(m, ls, c, p) == 0
    ensures !Wakes(m, c) ==>
              !Slips(m, c)
              && var m' := PickMem(m, ls, c);
                 Inv(m', ls, 0) && c < |m'.ccb| && Left(m', ls, c, p) == Left(m, ls, c, p) - 1
  {
    IsShaped(m, ls, 0);
    NoWakeNoSlip(m, c);
    hide Inv, Exhausted, Wakes, Ready, PickMem, PickLists, Size, Value, Counts, Cursors, Advance, Digits, Fits, DueAt, Slips;
    WakesDue(m, c, p);
    ExhaustedLeft(m, ls, c, p);
    ReadyFits(m, ls, c);
    LeftDigits(Counts(Ready(m, ls, c)), Cursors(Ready(m, ls, c), m.ccb[c]), p);
    if !Wakes(m, c) { AboveRuns(m, ls, c, p); }
  }

  /** A pick that goes to a level above the due sleeper. */
  lemma AboveRuns(m: Mem, ls: Lists, c: nat, p: nat)
    requires Inv(m, ls, 0) && c < |m.ccb| && Shaped(m.ccb) && DueAt(m, c, p) && !Wakes(m, c)
    ensures !Slips(m, c)
    ensures var q := Ready(m, ls, c); var m' := PickMem(m, ls, c);
            Inv(m', ls, 0) && c < |m'.ccb| && Ready(m', ls, c) == q
            && Fits(q, m'.ccb[c]) && |m'.ccb[c].cursor| == LEVELS
            && Cursors(q, m'.ccb[c]) == Advance(Counts(q), Cursors(q, m.ccb[c])).1
  {
    NoWakeNoSlip(m, c);
    var q, m' := Ready(m, ls, c), PickMem(m, ls, c);
    ReadyFits(m, ls, c);
    FitsShape(q, m.ccb[c]);
    PickKeeps(m, ls, c);
    hide Inv, Ready, PickMem, PickLists, Fits, Sweep, Turned, Slips;
    SweepWakes(m.ccb[c], p, 0);
    SweepFromTop(q, m.ccb[c]);
    var (f, b) := Sweep(m.ccb[c], None, 0);
    AboveDispatch(m, ls, c, p, f.value, b);
    SameReady(m, m', ls, c);
    ReadyFits(m', ls, c);
    FitsShape(q, m'.ccb[c]);
  }

  lemma SameReady(m: Mem, m': Mem, ls: Lists, c: nat)
    requires Inv(m, ls, 0) && Inv(m', ls, 0) && c < |m.ccb| == |m'.ccb|
    ensures Ready(m', ls, c) == Ready(m, ls, c)
  {
    hide Holds;
  }

  lemma AboveFound(m: Mem, c: nat, p: nat)
    requires c < |m.ccb| && Shaped(m.ccb) && DueAt(m, c, p) && !Wakes(m, c)
    ensures Due(m, c) == Some(p) && Found(m.ccb[c], Some(p)) == Sweep(m.ccb[c], None, 0)
  {
    SweepWakes(m.ccb[c], p, 0);
  }

  lemma AboveDispatch(m: Mem, ls: Lists, c: nat, p: nat, i: nat, b: Ccb)
    requires Inv(m, ls, 0) && c < |m.ccb| && Shaped(m.ccb) && DueAt(m, c, p) && !Wakes(m, c)
    requires Sweep(m.ccb[c], None, 0) == (Some(i), b) && i < p && b.cursor[i] in Ready(m, ls, c)[i]
    ensures !Slips(m, c) && PickLists(m, ls, c) == ls && |PickMem(m, ls, c).ccb| == |m.ccb|
    ensures PickMem(m, ls, c).ccb[c] == Turned(Ready(m, ls, c), b, i).(current := b.cursor[i])
  {
    NoWakeNoSlip(m, c);
    hide Inv, Chosen, Found, Due, Wakes, Slips, Sweep, PickMem, PickLists, Ready, Turned, RunAt;
    AboveChosen(m, ls, c, p);
    PickIs(m, ls, c, i, WithCcb(m, c, b), ls);
    AboveKept(m, ls, c, p, i, b);
    DispatchTurns(WithCcb(m, c, b), ls, c, i, Ready(m, ls, c));
  }

  lemma AboveKept(m: Mem, ls: Lists, c: nat, p: nat, i: nat, b: Ccb)
    requires Inv(m, ls, 0) && c < |m.ccb| && Shaped(m.ccb) && DueAt(m, c, p) && !Wakes(m, c)
    requires Sweep(m.ccb[c], None, 0) == (Some(i), b) && i < p
    ensures var m0 := WithCcb(m, c, b); Inv(m0, ls, 0) && |m0.ccb| == |m.ccb| && m0.ccb[c] == b
  {
    hide Inv, Wakes, Sweep;
    AboveFound(m, c, p);
    FoundKeeps(m, ls, c, Some(p));
  }

  lemma DispatchTurns(m: Mem, ls: Lists, c: nat, i: nat, q: seq<seq<nat>>)
    requires Inv(m, ls, 0) && c < |m.ccb| && i < PRI_IDLE && |m.ccb[c].cursor| == LEVELS
    requires i < |q| && Active(c, i) in ls && q[i] == ls[Active(c, i)] && m.ccb[c].cursor[i] in q[i]
    ensures m.ccb[c].cursor[i] in m.tcb && |RunAt(m, c, i).ccb| == |m.ccb|
    ensures RunAt(m, c, i).ccb[c] == Turned(q, m.ccb[c], i).(current := m.ccb[c].cursor[i])
  {
    CursorInList(m, ls, c, i);
    NextInList(m, ls, Active(c, i), m.ccb[c].cursor[i]);
    InListedTask(m, ls, 0, Active(c, i), IndexOf(q[i], m.ccb[c].cursor[i]));
    hide Inv;
  }

  lemma AboveChosen(m: Mem, ls: Lists, c: nat, p: nat)
    requires Inv(m, ls, 0) && c < |m.ccb| && Shaped(m.ccb) && DueAt(m, c, p) && !Wakes(m, c) && !Slips(m, c)
    requires var f := Sweep(m.ccb[c], None, 0).0; f.Some? && f.value < p
    ensures var (f, b) := Sweep(m.ccb[c], None, 0); Chosen(m, ls, c) == (f.value, WithCcb(m, c, b), ls)
  {
    AboveFound(m, c, p);
    hide Holds, InOneList, Wakes, Exhausted, Slips, Found, Sweep, Due, Inv;
    FoundKeeps(m, ls, c, Some(p));
  }

  // ---------------------------------------------------------------- clock interrupts

  /** The clock of CPU c set. */
  function Clocked(m: Mem, c: nat, ticks: nat): Mem
    requires c < |m.ccb|
  {
    WithCcb(m, c, m.ccb[c].(ticks := ticks))
  }

  lemma ClockKeeps(m: Mem, ls: Lists, c: nat, ticks: nat, p: nat)
    requires Inv(m, ls, 0) && c < |m.ccb| && p <= PRI_IDLE
    ensures Inv(Clocked(m, c, ticks), ls, 0) && Left(Clocked(m, c, ticks), ls, c, p) == Left(m, ls, c, p)
  {
    hide Left;
    ClockInv(m, ls, c, ticks);
    hide Inv;
    SameReady(m, Clocked(m, c, ticks), ls, c);
    LeftOf(m, Clocked(m, c, ticks), ls, c, p);
  }

  lemma ClockInv(m: Mem, ls: Lists, c: nat, ticks: nat)
    requires Inv(m, ls, 0) && c < |m.ccb|
    ensures Inv(Clocked(m, c, ticks), ls, 0)
  {
    var m' := Clocked(m, c, ticks);
    forall q | q in ls ensures Holds(m', q, ls[q], 0) { assert Holds(m, q, ls[q], 0); }
  }

  lemma LeftOf(m: Mem, m': Mem, ls: Lists, c: nat, p: nat)
    requires Inv(m, ls, 0) && Inv(m', ls, 0) && c < |m.ccb| == |m'.ccb| && p <= PRI_IDLE
    requires Ready(m', ls, c) == Ready(m, ls, c) && m'.ccb[c].cursor == m.ccb[c].cursor
    ensures Left(m', ls, c, p) == Left(m, ls, c, p)
  {
    hide Inv, Ready, Size, Value, Fits;
    ReadyFits(m, ls, c);
    FitsShape(Ready(m, ls, c), m.ccb[c]);
    assert Cursors(Ready(m, ls, c), m'.ccb[c]) == Cursors(Ready(m, ls, c), m.ccb[c]);
  }

  datatype State = State(m: Mem, ls: Lists)

  /** Nobody sleeps behind a head that can be woken. */
  predicate Steady(m: Mem, c: nat)
    requires c < |m.ccb|
  {
    var h := m.ccb[c].timer;
    h != 0 && h in m.tcb ==> m.tcb[h].next == 0 || m.tcb[h].priority >= PRI_IDLE
  }

  /** The last sleeper woken leaves the alarm queue empty. */
  lemma LastWoken(m: Mem, ls: Lists, c: nat)
    requires Inv(m, ls, 0) && c < |m.ccb| && m.ccb[c].timer != 0 && m.ccb[c].timer in m.tcb
    requires m.tcb[m.ccb[c].timer].next == 0 && !m.tcb[m.ccb[c].timer].state.Running?
    requires Home(m.tcb[m.ccb[c].timer]) in ls
    ensures var w := AwakeLists(m, ls, m.ccb[c].timer); Sleeping(c) in w && w[Sleeping(c)] == []
  {
    var p, h := Sleeping(c), m.ccb[c].timer;
    HeadInList(m, ls, 0, p);
    InListedTask(m, ls, 0, p, 0);
    hide Inv, Cut;
    OnlyOne(ls[p], h);
  }

  lemma TimerGone(m: Mem, ls: Lists, c: nat)
    requires Inv(m, ls, 0) && c < |m.ccb| && Sleeping(c) in ls && ls[Sleeping(c)] == []
    ensures m.ccb[c].timer == 0
  {
    HeadInList(m, ls, 0, Sleeping(c));
  }

  lemma OnlyOne(s: seq<nat>, h: nat)
    requires |s| == 1 && s[0] == h
    ensures Cut(s, h) == []
  {
  }

  lemma SteadyHolds(m: Mem, ls: Lists, c: nat)
    requires Inv(m, ls, 0) && c < |m.ccb| && Steady(m, c)
    ensures !Slips(m, c)
    ensures c < |PickMem(m, ls, c).ccb| && Steady(PickMem(m, ls, c), c)
  {
    IsShaped(m, ls, 0);
    PickKeeps(m, ls, c);
    if m.ccb[c].timer == 0 {
      NobodyWoken(m, ls, c);
    } else {
      HeadSleeper(m, ls, c);
      WakesExact(m, ls, c);
      hide Inv, PickMem, PickLists, AwakeLists, Wakes, Slips;
      if Wakes(m, c) {
        LastWoken(m, ls, c);
        TimerGone(PickMem(m, ls, c), PickLists(m, ls, c), c);
      }
    }
  }

  /** One clock interrupt after the other: the clock moves on and somebody is picked. */
  ghost function Interrupts(m: Mem, ls: Lists, c: nat, ticks: seq<nat>): State
    requires Inv(m, ls, 0) && c < |m.ccb| && Steady(m, c)
    decreases |ticks|
  {
    if ticks == [] then State(m, ls)
    else
      ClockInv(m, ls, c, ticks[0]);
      SteadyHolds(Clocked(m, c, ticks[0]), ls, c);
      PickKeeps(Clocked(m, c, ticks[0]), ls, c);
      Interrupts(PickMem(Clocked(m, c, ticks[0]), ls, c), PickLists(Clocked(m, c, ticks[0]), ls, c), c, ticks[1..])
  }

  /** A due sleeper of a level above the idle level sleeps on for as many interrupts as
      there are picks left for the levels above its own, and the next interrupt runs it. */
  lemma {:induction false} DueIsWoken(m: Mem, ls: Lists, c: nat, ticks: seq<nat>)
    requires Inv(m, ls, 0) && c < |m.ccb| && m.ccb[c].timer != 0 && m.ccb[c].timer in m.tcb
    requires m.tcb[m.ccb[c].timer].priority < PRI_IDLE && m.tcb[m.ccb[c].timer].next == 0
    requires forall i :: 0 <= i < |ticks| ==> m.tcb[m.ccb[c].timer].alarm <= ticks[i]
    ensures var h, end := m.ccb[c].timer, Interrupts(m, ls, c, ticks); var left := Left(m, ls, c, m.tcb[h].priority);
            && (|ticks| <= left ==> end.ls == ls && h in end.m.tcb && !end.m.tcb[h].state.Running?)
            && (|ticks| == left + 1 ==> c < |end.m.ccb| && end.m.ccb[c].current == h)
    decreases |ticks|
  {
    hide Left, PickMem, PickLists, Wakes, Behind, AwakeLists, Holds;
    HeadSleeper(m, ls, c);
    hide Inv;
    if ticks != [] {
      var h, p, m1 := m.ccb[c].timer, m.tcb[m.ccb[c].timer].priority, Clocked(m, c, ticks[0]);
      ClockKeeps(m, ls, c, ticks[0], p);
      assert m1.ccb[c].timer == h && m1.tcb == m.tcb && DueAt(m1, c, p) && |m1.ccb| == |m.ccb|;
      hide Clocked, DueAt;
      WakesExact(m1, ls, c);
      LeftDecreases(m1, ls, c, p);
      if !Wakes(m1, c) {
        assert forall i :: 0 <= i < |ticks| - 1 ==> ticks[1..][i] == ticks[i + 1];
        DueIsWoken(PickMem(m1, ls, c), ls, c, ticks[1..]);
      }
    }
  }

  /** sched_delay takes tasks of the idle level, but no interrupt ever wakes one: at the
      head of the alarm queue it keeps everyone behind it asleep, whatever the clock says. */
  lemma {:induction false} IdleSleeperBlocks(m: Mem, ls: Lists, c: nat, ticks: seq<nat>)
    requires Inv(m, ls, 0) && c < |m.ccb| && m.ccb[c].timer != 0 && m.ccb[c].timer in m.tcb
    requires m.tcb[m.ccb[c].timer].priority >= PRI_IDLE
    ensures Interrupts(m, ls, c, ticks).ls == ls
    decreases |ticks|
  {
    hide PickMem, PickLists;
    if ticks != [] {
      var m1 := Clocked(m, c, ticks[0]);
      ClockInv(m, ls, c, ticks[0]);
      hide Inv;
      PickKeeps(m1, ls, c);
      WakesExact(m1, ls, c);
      IdleSleeperBlocks(PickMem(m1, ls, c), PickLists(m1, ls, c), c, ticks[1..]);
    }
  }

  /** Two sleepers of level 4, the first of them due: its alarm slips to the second, and
      whatever the pick goes on to run, no lists describe the memory it leaves. */
  lemma SlipExample()
    ensures var m, ls := Clocked(TwoSleepers(4), 0, 10), AlarmOnly([1, 2]);
            && Inv(m, ls, 0) && Levels(m) && Slips(m, 0)
            && (exists m' :: Leaves(m, ls, 0, m')) && forall m' :: Leaves(m, ls, 0, m') ==> !Described(m')
  {
    var m, ls := Clocked(TwoSleepers(4), 0, 10), AlarmOnly([1, 2]);
    TwoSleepersHold(4);
    ClockInv(TwoSleepers(4), ls, 0, 10);
    IsShaped(m, ls, 0);
    hide Inv, Found, AlarmOnly, Described;
    assert Wakes(m, 0) && Due(m, 0) == Some(4);
    FoundDue(m, 0);
    hide Slips, Wakes;
    SlippedLeaves(m, ls, 0);
    hide Leaves;
    forall m' | Leaves(m, ls, 0, m') ensures !Described(m') { PickExact(m, ls, 0, m'); }
  }

  lemma SlippedLeaves(m: Mem, ls: Lists, c: nat)
    requires Inv(m, ls, 0) && Levels(m) && Slips(m, c)
    ensures Leaves(m, ls, c, Slipped(m, ls, c))
  {
    SlippedHead(m, ls, c);
    hide Inv, Slipped;
  }

  /** A sleeper of the idle level in front of one of level 4, both long due: three
      interrupts later both are still asleep. */
  lemma IdleSleeperExample()
    ensures var m := TwoSleepers(PRI_IDLE);
            && Inv(m, AlarmOnly([1, 2]), 0) && Steady(m, 0)
            && Interrupts(m, AlarmOnly([1, 2]), 0, [100, 200, 300]).ls == AlarmOnly([1, 2])
  {
    TwoSleepersHold(PRI_IDLE);
    hide Inv, AlarmOnly;
    IdleSleeperBlocks(TwoSleepers(PRI_IDLE), AlarmOnly([1, 2]), 0, [100, 200, 300]);
  }
}
