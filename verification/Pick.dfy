/** sched_pick: the sweep over the levels, the alarm at the head of the queue,
    and the exact share every task gets. */
module Pick {
  import opened Queues
  import opened Sched
  import opened Odometer

  /** The level at which the head of the alarm queue asks to be woken, if it is due. */
  function Due(m: Mem, c: nat): Option<nat>
    requires c < |m.ccb| && (m.ccb[c].timer == 0 || m.ccb[c].timer in m.tcb)
  {
    var h := m.ccb[c].timer;
    if h != 0 && m.tcb[h].alarm <= m.ccb[c].ticks then Some(m.tcb[h].priority) else None
  }

  /** One pass over the levels from i on: the level to run, and the CPU block
      with the exhausted cursors put back. */
  function Sweep(b: Ccb, due: Option<nat>, i: nat): (r: (Option<nat>, Ccb))
    requires |b.active| == LEVELS && |b.cursor| == LEVELS && i <= PRI_IDLE
    ensures r.1.(cursor := b.cursor) == b && |r.1.cursor| == LEVELS
    ensures r.0.Some? ==> r.0.value < PRI_IDLE && (due == r.0 || r.1.cursor[r.0.value] != 0)
    decreases PRI_IDLE - i
  {
    if i == PRI_IDLE then (None, b)
    else if due == Some(i) then (Some(i), b)
    else if b.active[i] == 0 then Sweep(b, due, i + 1)
    else if b.cursor[i] != 0 then (Some(i), b)
    else Sweep(b.(cursor := b.cursor[i := b.active[i]]), due, i + 1)
  }

  predicate NonEmpty(b: Ccb)
    requires |b.active| == LEVELS
  {
    exists i :: 0 <= i < PRI_IDLE && b.active[i] != 0
  }

  /** Passes are repeated as long as some level has tasks. */
  function Found(b: Ccb, due: Option<nat>): (r: (Option<nat>, Ccb))
    requires |b.active| == LEVELS && |b.cursor| == LEVELS
    ensures r.1.(cursor := b.cursor) == b && |r.1.cursor| == LEVELS
    ensures r.0.Some? ==> r.0.value < PRI_IDLE && (due == r.0 || r.1.cursor[r.0.value] != 0)
  {
    var (f, b1) := Sweep(b, due, 0);
    if f.Some? || !NonEmpty(b) then (f, b1) else Sweep(b1, due, 0)
  }

  /** A pass that finds nobody leaves no cursor of a level with tasks null, so
      the next pass finds somebody. */
  lemma {:induction false} SweepRefills(b: Ccb, due: Option<nat>, i: nat)
    requires |b.active| == LEVELS && |b.cursor| == LEVELS && i <= PRI_IDLE
    requires Sweep(b, due, i).0.None?
    ensures forall j :: i <= j < PRI_IDLE && b.active[j] != 0 ==> Sweep(b, due, i).1.cursor[j] != 0
    ensures forall j :: 0 <= j < i ==> Sweep(b, due, i).1.cursor[j] == b.cursor[j]
    decreases PRI_IDLE - i
  {
    if i < PRI_IDLE && due != Some(i) {
      SweepRefills(if b.active[i] == 0 then b else b.(cursor := b.cursor[i := b.active[i]]), due, i + 1);
    }
  }

  lemma {:induction false} SweepFinds(b: Ccb, due: Option<nat>, i: nat, j: nat)
    requires |b.active| == LEVELS && |b.cursor| == LEVELS && i <= j < PRI_IDLE
    requires b.active[j] != 0 && b.cursor[j] != 0
    ensures Sweep(b, due, i).0.Some?
    decreases PRI_IDLE - i
  {
    if due != Some(i) && !(b.active[i] != 0 && b.cursor[i] != 0) {
      SweepFinds(if b.active[i] == 0 then b else b.(cursor := b.cursor[i := b.active[i]]), due, i + 1, j);
    }
  }

  /** Two passes are enough. */
  lemma TwoPasses(b: Ccb, due: Option<nat>)
    requires |b.active| == LEVELS && |b.cursor| == LEVELS
    ensures NonEmpty(b) ==> Found(b, due).0.Some?
    ensures due.Some? && due.value < PRI_IDLE ==> Found(b, due).0.Some?
  {
    if Sweep(b, due, 0).0.None? && NonEmpty(b) {
      var j :| 0 <= j < PRI_IDLE && b.active[j] != 0;
      SweepRefills(b, due, 0);
      SweepFinds(Sweep(b, due, 0).1, due, 0, j);
    }
    if due.Some? && due.value < PRI_IDLE { SweepStopsAtDue(b, due, 0); }
  }

  lemma {:induction false} SweepStopsAtDue(b: Ccb, due: Option<nat>, i: nat)
    requires |b.active| == LEVELS && |b.cursor| == LEVELS && due.Some? && i <= due.value < PRI_IDLE
    ensures Sweep(b, due, i).0.Some? && Sweep(b, due, i).0.value <= due.value
    decreases PRI_IDLE - i
  {
    if i < due.value && !(b.active[i] != 0 && b.cursor[i] != 0) {
      SweepStopsAtDue(if b.active[i] == 0 then b else b.(cursor := b.cursor[i := b.active[i]]), due, i + 1);
    }
  }

  // ---------------------------------------------------------------- the pick

  function WithCcb(m: Mem, c: nat, b: Ccb): Mem
    requires c < |m.ccb|
  {
    Mem(m.tcb, m.ccb[c := b])
  }

  lemma IsShaped(m: Mem, ls: Lists, f: nat)
    requires Inv(m, ls, f)
    ensures Shaped(m.ccb)
    ensures forall p :: p in ls <==> IsPlace(|m.ccb|, p)
  {
  }

  lemma {:induction false} SweepKeeps(m: Mem, ls: Lists, c: nat, due: Option<nat>, i: nat)
    requires Inv(m, ls, 0) && c < |m.ccb| && i <= PRI_IDLE
    ensures Shaped(m.ccb)
    ensures Inv(WithCcb(m, c, Sweep(m.ccb[c], due, i).1), ls, 0)
    decreases PRI_IDLE - i
  {
    hide Inv;
    IsShaped(m, ls, 0);
    var b := m.ccb[c];
    assert m.ccb[c := b] == m.ccb;
    if i < PRI_IDLE && due != Some(i) {
      if b.active[i] == 0 {
        SweepKeeps(m, ls, c, due, i + 1);
      } else if b.cursor[i] == 0 {
        HeadInList(m, ls, 0, Active(c, i));
        CursorKeeps(m, ls, c, i, b.active[i]);
        var m1 := Mem(m.tcb, WithCursor(m.ccb, c, i, b.active[i]));
        SweepKeeps(m1, ls, c, due, i + 1);
        assert m1.ccb[c := Sweep(m1.ccb[c], due, i + 1).1] == m.ccb[c := Sweep(m1.ccb[c], due, i + 1).1];
      }
    }
  }

  lemma FoundKeeps(m: Mem, ls: Lists, c: nat, due: Option<nat>)
    requires Inv(m, ls, 0) && c < |m.ccb|
    ensures Shaped(m.ccb)
    ensures Inv(WithCcb(m, c, Found(m.ccb[c], due).1), ls, 0)
  {
    SweepKeeps(m, ls, c, due, 0);
    var b1 := Sweep(m.ccb[c], due, 0).1;
    SweepKeeps(WithCcb(m, c, b1), ls, c, due, 0);
    assert m.ccb[c := b1][c := Sweep(b1, due, 0).1] == m.ccb[c := Sweep(b1, due, 0).1];
  }

  /** Run the task under the cursor of level i and move the cursor on.  A null
      cursor stands for the idle task. */
  function Dispatched(m: Mem, c: nat, i: nat): Mem
    requires c < |m.ccb| && |m.ccb[c].cursor| == LEVELS && i < LEVELS
    requires m.ccb[c].cursor[i] in m.tcb
  {
    var t := m.ccb[c].cursor[i];
    WithCcb(m, c, m.ccb[c].(cursor := m.ccb[c].cursor[i := m.tcb[t].next], current := t))
  }

  lemma CurrentKeeps(m: Mem, ls: Lists, c: nat, t: nat)
    requires Inv(m, ls, 0) && c < |m.ccb|
    ensures Inv(WithCcb(m, c, m.ccb[c].(current := t)), ls, 0)
  {
    var m' := WithCcb(m, c, m.ccb[c].(current := t));
    forall p | p in ls ensures Holds(m', p, ls[p], 0) {
      assert Holds(m, p, ls[p], 0);
    }
  }

  lemma NextInList(m: Mem, ls: Lists, p: Place, t: nat)
    requires Inv(m, ls, 0) && p in ls && t in ls[p]
    ensures t in m.tcb && (m.tcb[t].next == 0 || m.tcb[t].next in ls[p])
    ensures m.tcb[t].next == At(ls[p], IndexOf(ls[p], t) + 1)
  {
    InListedTask(m, ls, 0, p, IndexOf(ls[p], t));
  }

  lemma CursorInList(m: Mem, ls: Lists, c: nat, i: nat)
    requires Inv(m, ls, 0) && Active(c, i) in ls
    ensures c < |m.ccb| && i < LEVELS && Shaped(m.ccb)
    ensures m.ccb[c].cursor[i] != 0 ==> m.ccb[c].cursor[i] in ls[Active(c, i)] && m.ccb[c].cursor[i] in m.tcb
  {
    assert Holds(m, Active(c, i), ls[Active(c, i)], 0);
  }

  lemma DispatchKeeps(m: Mem, ls: Lists, c: nat, i: nat)
    requires Inv(m, ls, 0) && Active(c, i) in ls && c < |m.ccb| && i < LEVELS && Shaped(m.ccb)
    requires m.ccb[c].cursor[i] != 0
    ensures m.ccb[c].cursor[i] in ls[Active(c, i)] && m.ccb[c].cursor[i] in m.tcb
    ensures Inv(Dispatched(m, c, i), ls, 0)
  {
    CursorInList(m, ls, c, i);
    hide Inv, WithCcb, Dispatched, WithCursor;
    var t := m.ccb[c].cursor[i];
    NextInList(m, ls, Active(c, i), t);
    CursorKeeps(m, ls, c, i, m.tcb[t].next);
    CurrentKeeps(Mem(m.tcb, WithCursor(m.ccb, c, i, m.tcb[t].next)), ls, c, t);
    TwoWrites(m, c, i);
  }

  /** The cursor written, then the current task. */
  lemma TwoWrites(m: Mem, c: nat, i: nat)
    requires Shaped(m.ccb) && c < |m.ccb| && i < LEVELS && m.ccb[c].cursor[i] in m.tcb
    ensures var t := m.ccb[c].cursor[i]; var m1 := Mem(m.tcb, WithCursor(m.ccb, c, i, m.tcb[t].next));
            Dispatched(m, c, i) == WithCcb(m1, c, m1.ccb[c].(current := t))
  {
    var t := m.ccb[c].cursor[i];
    assert WithCursor(m.ccb, c, i, m.tcb[t].next)[c := Dispatched(m, c, i).ccb[c]] == Dispatched(m, c, i).ccb;
  }

  /** The head of an alarm queue is asleep on that CPU and has no sleeper before it. */
  lemma HeadSleeper(m: Mem, ls: Lists, c: nat)
    requires Inv(m, ls, 0) && c < |m.ccb| && m.ccb[c].timer != 0
    ensures var h := m.ccb[c].timer;
            && h in m.tcb && m.tcb[h].cpuid == c && !m.tcb[h].state.Running? && !Behind(ls, h)
  {
    var p := Sleeping(c);
    assert Holds(m, p, ls[p], 0);
  }

  lemma TimerMapped(m: Mem, ls: Lists, c: nat)
    requires Inv(m, ls, 0) && c < |m.ccb|
    ensures m.ccb[c].timer == 0 || m.ccb[c].timer in m.tcb
  {
    if m.ccb[c].timer != 0 { HeadSleeper(m, ls, c); }
  }

  // ---------------------------------------------------------------- the window onto the sleeper

  /** sched_pick hands sched_awake the window in which it looks at the head of the alarm
      queue, and sched_awake turns that window to the next sleeper half way through: the
      head is marked and leaves the queue, the rest is done to the task in the window. */
  function WindowWake(m: Mem, c: nat): Mem
    requires c < |m.ccb| && Shaped(m.ccb) && m.ccb[c].timer in m.tcb
    requires var n := m.tcb[m.ccb[c].timer].next; n == 0 || (Valid(m, n) && m.tcb[n].cpuid == c)
    requires Valid(m, m.ccb[c].timer) && m.tcb[m.ccb[c].timer].cpuid == c
    requires var n := m.tcb[m.ccb[c].timer].next; Mapped(m.tcb, if n == 0 then m.ccb[c].timer else n)
    requires forall l :: 0 <= l < LEVELS ==> m.ccb[c].active[l] == 0 || m.ccb[c].active[l] in m.tcb
  {
    var h := m.ccb[c].timer;
    var n := m.tcb[h].next;
    var w := if n == 0 then h else n;
    var a := m.tcb[h];
    var tcb := m.tcb[h := a.(alarm := 0, state := if a.state.Hybernated? then Blocked else a.state)];
    var b := m.ccb[c];
    var m1 := Mem(Bypassed(tcb, w), m.ccb[c := b.(timer := n, blocked := if b.blocked == h then a.next else b.blocked)]);
    var m2 := AddMem(m1, w);
    Mem(m2.tcb, WithCursor(m2.ccb, c, m.tcb[w].priority, w))
  }

  /** Some lists describe the memory. */
  ghost predicate Described(m: Mem) {
    exists ls :: Inv(m, ls, 0)
  }

  /** Every task has a level. */
  ghost predicate Levels(m: Mem) {
    forall x :: x in m.tcb ==> m.tcb[x].priority <= PRI_IDLE
  }

  lemma HeadAndNext(m: Mem, ls: Lists, c: nat)
    requires Inv(m, ls, 0) && c < |m.ccb| && m.ccb[c].timer != 0 && Levels(m)
    ensures Shaped(m.ccb) && m.ccb[c].timer in m.tcb && Sleeping(c) in ls
    ensures var h := m.ccb[c].timer; var n := m.tcb[h].next;
            && Valid(m, h) && m.tcb[h].cpuid == c && Mapped(m.tcb, h)
            && (n != 0 ==> Valid(m, n) && m.tcb[n].cpuid == c && Mapped(m.tcb, n) && n != h && m.tcb[n].prev == 0
                           && !m.tcb[n].state.Running?)
            && (n == 0 <==> |ls[Sleeping(c)]| == 1)
    ensures forall l :: 0 <= l < LEVELS ==> m.ccb[c].active[l] == 0 || m.ccb[c].active[l] in m.tcb
  {
    var p := Sleeping(c);
    assert Holds(m, p, ls[p], 0);
    InListedTask(m, ls, 0, p, 0);
    LinksMapped(m, ls, 0, m.ccb[c].timer);
    if |ls[p]| > 1 {
      InListedTask(m, ls, 0, p, 1);
      LinksMapped(m, ls, 0, ls[p][1]);
    }
    forall l | 0 <= l < LEVELS ensures m.ccb[c].active[l] == 0 || m.ccb[c].active[l] in m.tcb {
      HeadInList(m, ls, 0, Active(c, l));
    }
  }

  /** With nobody behind the head this is sched_awake on the head.  Otherwise the head is
      in no queue and the next sleeper in two, so no lists describe the memory. */
  lemma WindowExact(m: Mem, ls: Lists, c: nat)
    requires Inv(m, ls, 0) && c < |m.ccb| && m.ccb[c].timer != 0 && Levels(m)
    ensures Shaped(m.ccb) && m.ccb[c].timer in m.tcb && Sleeping(c) in ls
    ensures var h := m.ccb[c].timer; var n := m.tcb[h].next;
            && Valid(m, h) && m.tcb[h].cpuid == c && Mapped(m.tcb, h)
            && (n != 0 ==> Valid(m, n) && m.tcb[n].cpuid == c && Mapped(m.tcb, n))
            && (forall l :: 0 <= l < LEVELS ==> m.ccb[c].active[l] == 0 || m.ccb[c].active[l] in m.tcb)
            && AwakeReady(m, h)
            && (|ls[Sleeping(c)]| == 1 ==> WindowWake(m, c) == AwakeMem(m, h))
            && (Described(WindowWake(m, c)) <==> |ls[Sleeping(c)]| == 1)
  {
    HeadAndNext(m, ls, c);
    HeadSleeper(m, ls, c);
    var h := m.ccb[c].timer;
    AwakeIsReady(m, ls, h);
    if m.tcb[h].next == 0 {
      AwakeKeeps(m, ls, h);
      hide Inv;
      WindowAlone(m, c);
      assert Inv(WindowWake(m, c), AwakeLists(m, ls, h), 0);
    } else {
      hide Inv;
      SlipState(m, c);
      forall ls' ensures !Inv(WindowWake(m, c), ls', 0) {
        if Inv(WindowWake(m, c), ls', 0) { HeadSleeper(WindowWake(m, c), ls', c); }
      }
    }
  }

  lemma WindowAlone(m: Mem, c: nat)
    requires c < |m.ccb| && Shaped(m.ccb) && m.ccb[c].timer in m.tcb && m.ccb[c].timer != 0
    requires var h := m.ccb[c].timer; AwakeReady(m, h) && m.tcb[h].cpuid == c && m.tcb[h].next == 0 && !m.tcb[h].state.Running?
    requires forall l :: 0 <= l < LEVELS ==> m.ccb[c].active[l] == 0 || m.ccb[c].active[l] in m.tcb
    ensures WindowWake(m, c) == AwakeMem(m, m.ccb[c].timer)
  {
    var h := m.ccb[c].timer;
    var a := m.tcb[h];
    var tcb := m.tcb[h := a.(alarm := 0, state := if a.state.Hybernated? then Blocked else a.state)];
    var b := m.ccb[c];
    var m1 := Mem(Bypassed(tcb, h), m.ccb[c := b.(timer := 0, blocked := if b.blocked == h then 0 else b.blocked)]);
    assert m1.ccb == WokenMem(m, h).ccb;
    PushedForgets(m.tcb, Marked(m1, h, Running, m1.tcb[h].alarm).tcb, Marked(WokenMem(m, h), h, Running, WokenMem(m, h).tcb[h].alarm).tcb,
                  h, m.ccb[c].active[a.priority]);
  }

  /** The sleeper now at the head is a running task. */
  lemma SlipState(m: Mem, c: nat)
    requires c < |m.ccb| && Shaped(m.ccb) && m.ccb[c].timer in m.tcb
    requires var h := m.ccb[c].timer; var n := m.tcb[h].next;
             Valid(m, h) && m.tcb[h].cpuid == c && n != 0 && n != h && Valid(m, n) && m.tcb[n].cpuid == c && Mapped(m.tcb, n)
    requires forall l :: 0 <= l < LEVELS ==> m.ccb[c].active[l] == 0 || m.ccb[c].active[l] in m.tcb
    ensures var n, x := m.tcb[m.ccb[c].timer].next, WindowWake(m, c);
            |x.ccb| == |m.ccb| && x.ccb[c].timer == n && n in x.tcb && x.tcb[n].state.Running?
  {
  }

  /** A pick whose wake-up slips to the next sleeper. */
  predicate Slips(m: Mem, c: nat) {
    && c < |m.ccb| && |m.ccb[c].active| == LEVELS && |m.ccb[c].cursor| == LEVELS
    && m.ccb[c].timer != 0 && m.ccb[c].timer in m.tcb && m.tcb[m.ccb[c].timer].next != 0
    && Due(m, c).Some? && Found(m.ccb[c], Due(m, c)).0 == Due(m, c)
  }

  /** The memory after the exhausted cursors are put back and a due sleeper of
      the chosen level is woken; and the chosen level. */
  ghost function Chosen(m: Mem, ls: Lists, c: nat): (r: (nat, Mem, Lists))
    requires Inv(m, ls, 0) && c < |m.ccb| && !Slips(m, c)
  {
    TimerMapped(m, ls, c);
    var due := Due(m, c);
    var (f, b) := Found(m.ccb[c], due);
    FoundKeeps(m, ls, c, due);
    var m0 := WithCcb(m, c, b);
    if f.None? then
      (PRI_IDLE, if b.cursor[PRI_IDLE] == 0 then Mem(m.tcb, WithCursor(m0.ccb, c, PRI_IDLE, b.active[PRI_IDLE])) else m0, ls)
    else if due == f then
      HeadSleeper(m0, ls, c);
      AwakeKeeps(m0, ls, b.timer);
      (f.value, AwakeMem(m0, b.timer), AwakeLists(m0, ls, b.timer))
    else
      (f.value, m0, ls)
  }

  lemma ChosenKeeps(m: Mem, ls: Lists, c: nat)
    requires Inv(m, ls, 0) && c < |m.ccb| && !Slips(m, c)
    ensures var (i, m1, ls1) := Chosen(m, ls, c);
            && Inv(m1, ls1, 0) && |m1.ccb| == |m.ccb| && i < LEVELS && Shaped(m1.ccb) && Active(c, i) in ls1
            && (i < PRI_IDLE ==> m1.ccb[c].cursor[i] != 0)
  {
    IsShaped(m, ls, 0);
    hide Inv, Found, Due, AwakeMem, AwakeLists;
    TimerMapped(m, ls, c);
    var due := Due(m, c);
    var (f, b) := Found(m.ccb[c], due);
    FoundKeeps(m, ls, c, due);
    var m0 := WithCcb(m, c, b);
    IsShaped(m0, ls, 0);
    if f.None? {
      HeadInList(m0, ls, 0, Active(c, PRI_IDLE));
      CursorKeeps(m0, ls, c, PRI_IDLE, b.active[PRI_IDLE]);
    } else if due == f {
      HeadSleeper(m0, ls, c);
      AwakeKeeps(m0, ls, b.timer);
      DueIsPriority(m, c);
      AwakeCursor(m0, ls, b.timer);
    }
  }

  /** The three ways a pick goes on when its sweeps are done. */
  lemma ChosenIs(m: Mem, ls: Lists, c: nat, f: Option<nat>, b: Ccb)
    requires Inv(m, ls, 0) && c < |m.ccb| && !Slips(m, c) && (m.ccb[c].timer == 0 || m.ccb[c].timer in m.tcb)
    requires |m.ccb[c].active| == LEVELS && |m.ccb[c].cursor| == LEVELS && Found(m.ccb[c], Due(m, c)) == (f, b)
    ensures |b.active| == LEVELS && |b.cursor| == LEVELS && Shaped(WithCcb(m, c, b).ccb)
    ensures Inv(WithCcb(m, c, b), ls, 0) && b.timer == m.ccb[c].timer
    ensures f.None? ==>
              Chosen(m, ls, c) == (PRI_IDLE,
                                   if b.cursor[PRI_IDLE] == 0
                                   then Mem(m.tcb, WithCursor(WithCcb(m, c, b).ccb, c, PRI_IDLE, b.active[PRI_IDLE]))
                                   else WithCcb(m, c, b),
                                   ls)
    ensures f.Some? && Due(m, c) != f ==> Chosen(m, ls, c) == (f.value, WithCcb(m, c, b), ls)
    ensures f.Some? && Due(m, c) == f ==> ChosenWakes(m, ls, c, f.value, WithCcb(m, c, b), b.timer)
  {
    IsShaped(m, ls, 0);
    hide Inv, Found, Due, AwakeMem, AwakeLists, Behind, Holds;
    FoundKeeps(m, ls, c, Due(m, c));
    IsShaped(WithCcb(m, c, b), ls, 0);
    DueIsPriority(m, c);
    if f.Some? && Due(m, c) == f {
      HeadSleeper(WithCcb(m, c, b), ls, c);
      AwakeKeeps(WithCcb(m, c, b), ls, b.timer);
    }
  }

  ghost predicate ChosenWakes(m: Mem, ls: Lists, c: nat, i: nat, m0: Mem, h: nat)
    requires Inv(m, ls, 0) && c < |m.ccb| && !Slips(m, c)
  {
    && AwakeReady(m0, h) && Home(m0.tcb[h]) in ls && !Behind(ls, h) && !m0.tcb[h].state.Running?
    && Chosen(m, ls, c) == (i, AwakeMem(m0, h), AwakeLists(m0, ls, h))
  }

  lemma DueIsPriority(m: Mem, c: nat)
    requires c < |m.ccb| && (m.ccb[c].timer == 0 || m.ccb[c].timer in m.tcb)
    ensures Due(m, c).Some? ==> m.ccb[c].timer != 0 && Due(m, c).value == m.tcb[m.ccb[c].timer].priority
  {
  }

  lemma AwakeCursor(m: Mem, ls: Lists, t: nat)
    requires AwakeReady(m, t) && Home(m.tcb[t]) in ls
    ensures var x := AwakeMem(m, t);
            |x.ccb| == |m.ccb| && Shaped(x.ccb) && x.ccb[m.tcb[t].cpuid].cursor[m.tcb[t].priority] == t
    ensures AwakeLists(m, ls, t).Keys == ls.Keys
  {
  }

  function RunAt(m: Mem, c: nat, i: nat): Mem
    requires c < |m.ccb| && |m.ccb[c].cursor| == LEVELS && i < LEVELS
    requires m.ccb[c].cursor[i] == 0 || m.ccb[c].cursor[i] in m.tcb
  {
    if m.ccb[c].cursor[i] == 0 then WithCcb(m, c, m.ccb[c].(current := 0)) else Dispatched(m, c, i)
  }

  ghost function PickMem(m: Mem, ls: Lists, c: nat): Mem
    requires Inv(m, ls, 0) && c < |m.ccb| && !Slips(m, c)
  {
    ChosenKeeps(m, ls, c);
    var (i, m1, ls1) := Chosen(m, ls, c);
    CursorInList(m1, ls1, c, i);
    RunAt(m1, c, i)
  }

  ghost function PickLists(m: Mem, ls: Lists, c: nat): Lists
    requires Inv(m, ls, 0) && c < |m.ccb| && !Slips(m, c)
  {
    Chosen(m, ls, c).2
  }

  lemma PickIs(m: Mem, ls: Lists, c: nat, i: nat, m1: Mem, ls1: Lists)
    requires Inv(m, ls, 0) && c < |m.ccb| && !Slips(m, c) && Chosen(m, ls, c) == (i, m1, ls1)
    ensures c < |m1.ccb| && |m1.ccb[c].cursor| == LEVELS && i < LEVELS
    ensures m1.ccb[c].cursor[i] == 0 || m1.ccb[c].cursor[i] in m1.tcb
    ensures PickMem(m, ls, c) == RunAt(m1, c, i) && PickLists(m, ls, c) == ls1
    ensures Inv(PickMem(m, ls, c), PickLists(m, ls, c), 0)
  {
    hide Inv, RunAt, Chosen;
    ChosenKeeps(m, ls, c);
    CursorInList(m1, ls1, c, i);
    PickInv(m, ls, c);
  }

  lemma DispatchedIs(m: Mem, c: nat, i: nat)
    requires c < |m.ccb| && |m.ccb[c].cursor| == LEVELS && i < LEVELS && m.ccb[c].cursor[i] in m.tcb
    ensures |Dispatched(m, c, i).ccb| == |m.ccb| && Dispatched(m, c, i).ccb[c].current == m.ccb[c].cursor[i]
  {
  }

  lemma PickInv(m: Mem, ls: Lists, c: nat)
    requires Inv(m, ls, 0) && c < |m.ccb| && !Slips(m, c)
    ensures |PickMem(m, ls, c).ccb| == |m.ccb| && Inv(PickMem(m, ls, c), PickLists(m, ls, c), 0)
  {
    hide Inv, Dispatched, Chosen;
    ChosenKeeps(m, ls, c);
    var (i, m1, ls1) := Chosen(m, ls, c);
    if m1.ccb[c].cursor[i] == 0 {
      CurrentKeeps(m1, ls1, c, 0);
    } else {
      DispatchKeeps(m1, ls1, c, i);
      DispatchedIs(m1, c, i);
    }
  }

  lemma PickRuns(m: Mem, ls: Lists, c: nat) returns (i: nat)
    requires Inv(m, ls, 0) && c < |m.ccb| && !Slips(m, c)
    ensures |PickMem(m, ls, c).ccb| == |m.ccb|
    ensures var ls' := PickLists(m, ls, c); var t := PickMem(m, ls, c).ccb[c].current;
            && (t == 0 ==> AllEmpty(ls, c))
            && (t != 0 ==> i < LEVELS && Active(c, i) in ls' && t in ls'[Active(c, i)])
  {
    hide Inv, Dispatched, Chosen, AllEmpty;
    ChosenKeeps(m, ls, c);
    var (l, m1, ls1) := Chosen(m, ls, c);
    i := l;
    if m1.ccb[c].cursor[i] == 0 {
      IdleMeansEmpty(m, ls, c);
    } else {
      DispatchKeeps(m1, ls1, c, i);
      DispatchedIs(m1, c, i);
      CursorInList(m1, ls1, c, i);
    }
  }

  ghost predicate AllEmpty(ls: Lists, c: nat) {
    forall i :: 0 <= i < LEVELS ==> Active(c, i) in ls && ls[Active(c, i)] == []
  }

  /** sched_pick keeps every queue and runs a task of this CPU's queues, the
      idle task only when they are all empty. */
  lemma PickKeeps(m: Mem, ls: Lists, c: nat)
    requires Inv(m, ls, 0) && c < |m.ccb| && !Slips(m, c)
    ensures |PickMem(m, ls, c).ccb| == |m.ccb|
    ensures var m' := PickMem(m, ls, c); var ls' := PickLists(m, ls, c); var t := m'.ccb[c].current;
            && Inv(m', ls', 0)
            && (t == 0 ==> AllEmpty(ls, c))
            && (t != 0 ==> exists i :: 0 <= i < LEVELS && Active(c, i) in ls' && t in ls'[Active(c, i)])
  {
    hide Inv, PickMem, PickLists, AllEmpty;
    PickInv(m, ls, c);
    var i := PickRuns(m, ls, c);
  }

  lemma IdleMeansEmpty(m: Mem, ls: Lists, c: nat)
    requires Inv(m, ls, 0) && c < |m.ccb| && !Slips(m, c)
    requires var (i, m1, ls1) := Chosen(m, ls, c); i < LEVELS && c < |m1.ccb| && |m1.ccb[c].cursor| == LEVELS && m1.ccb[c].cursor[i] == 0
    ensures AllEmpty(ls, c)
  {
    ChosenKeeps(m, ls, c);
    TimerMapped(m, ls, c);
    TwoPasses(m.ccb[c], Due(m, c));
    forall j | 0 <= j < LEVELS ensures Active(c, j) in ls && ls[Active(c, j)] == [] {
      HeadInList(m, ls, 0, Active(c, j));
      assert Holds(m, Active(c, j), ls[Active(c, j)], 0);
    }
  }

  // ---------------------------------------------------------------- picks that slip

  /** A slipped pick after the wake-up. */
  ghost function Slipped(m: Mem, ls: Lists, c: nat): Mem
    requires Inv(m, ls, 0) && Levels(m) && Slips(m, c)
  {
    var b := Found(m.ccb[c], Due(m, c)).1;
    FoundKeeps(m, ls, c, Due(m, c));
    HeadAndNext(WithCcb(m, c, b), ls, c);
    WindowWake(WithCcb(m, c, b), c)
  }

  /** What memory a pick may leave.  The cursor a slipped pick goes by may be null, so the
      cursors and the running task are then anything. */
  ghost predicate Leaves(m: Mem, ls: Lists, c: nat, m': Mem)
    requires Inv(m, ls, 0) && Levels(m) && c < |m.ccb|
  {
    if !Slips(m, c) then m' == PickMem(m, ls, c)
    else
      var x := Slipped(m, ls, c);
      |m'.ccb| == |x.ccb| == |m.ccb| && m' == WithCcb(x, c, x.ccb[c].(cursor := m'.ccb[c].cursor, current := m'.ccb[c].current))
  }

  /** sched_pick leaves memory that lists describe if and only if its alarm does not slip
      to the next sleeper. */
  lemma PickExact(m: Mem, ls: Lists, c: nat, m': Mem)
    requires Inv(m, ls, 0) && Levels(m) && c < |m.ccb| && Leaves(m, ls, c, m')
    ensures Described(m') <==> !Slips(m, c)
  {
    hide Inv, PickMem, PickLists, Slipped, Due, Found;
    if Slips(m, c) {
      SlippedHead(m, ls, c);
      forall ls' ensures !Inv(m', ls', 0) {
        if Inv(m', ls', 0) { HeadSleeper(m', ls', c); }
      }
    } else {
      PickInv(m, ls, c);
      assert Inv(m', PickLists(m, ls, c), 0);
    }
  }

  lemma SlippedHead(m: Mem, ls: Lists, c: nat)
    requires Inv(m, ls, 0) && Levels(m) && Slips(m, c)
    ensures var x := Slipped(m, ls, c);
            |x.ccb| == |m.ccb| && x.ccb[c].timer in x.tcb && x.ccb[c].timer != 0 && x.tcb[x.ccb[c].timer].state.Running?
  {
    hide Inv, Found, Due, WindowWake, Mapped;
    var b := Found(m.ccb[c], Due(m, c)).1;
    FoundKeeps(m, ls, c, Due(m, c));
    HeadAndNext(WithCcb(m, c, b), ls, c);
    SlipState(WithCcb(m, c, b), c);
  }
}
