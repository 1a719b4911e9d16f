/** How long sched_delay puts a task to sleep: on the clock of its CPU, over any run of
    calls. */
module Sleepers {
  import opened Queues
  import opened Sched
  import opened Pick
  import opened SchedRun
  import Odometer
  import Wake

  // ---------------------------------------------------------------- the alarm

  /** The clock a task put to sleep on CPU c starts from. */
  function Start(m: Mem, c: nat): nat
    requires c < |m.ccb|
  {
    if m.ccb[c].timer == 0 then 0 else m.ccb[c].ticks
  }

  /** Task t sleeps in the alarm queue of CPU c until `due`; the clock stands at `now`. */
  ghost predicate SleepsUntil(m: Mem, ls: Lists, c: nat, t: nat, due: nat, now: nat) {
    && Sleeping(c) in ls && t in ls[Sleeping(c)]
    && t in m.tcb && m.tcb[t].alarm == due && !m.tcb[t].state.Running?
    && c < |m.ccb| && m.ccb[c].ticks == now
  }

  lemma RemovedClock(m: Mem, t: nat, c: nat)
    requires Valid(m, t) && Mapped(m.tcb, t) && Shaped(m.ccb) && c < |m.ccb|
    ensures c < |RemoveMem(m, t).ccb| && RemoveMem(m, t).ccb[c].ticks == m.ccb[c].ticks
  {
    hide Bypassed;
  }

  lemma SleepClock(m: Mem, s: seq<nat>, t: nat, usec: nat, c: nat)
    requires Valid(m, t) && Shaped(m.ccb) && (forall x :: x in s ==> x in m.tcb) && c < |m.ccb|
    ensures var m' := SleepMem(m, s, t, usec);
            c < |m'.ccb| && m'.ccb[c].ticks == if c == m.tcb[t].cpuid then Start(m, c) else m.ccb[c].ticks
  {
    hide Inserted, LaterThan, WakeTime;
  }

  /** A task put to sleep wakes usec after the clock it starts from, in 64 bits: from 0
      when nobody sleeps on its CPU, and otherwise from the clock as it stands. */
  lemma DelaySleeps(m: Mem, ls: Lists, t: nat, usec: nat)
    requires Inv(m, ls, 0) && Valid(m, t) && m.tcb[t].state.Running?
    ensures Shaped(m.ccb) && Mapped(m.tcb, t) && Sleeping(m.tcb[t].cpuid) in ls
    ensures Valid(RemoveMem(Marked(m, t, Blocked, m.tcb[t].alarm), t), t)
    ensures forall x :: x in ls[Sleeping(m.tcb[t].cpuid)] ==> x in m.tcb
    ensures var c := m.tcb[t].cpuid;
            SleepsUntil(DelayMem(m, ls, t, usec), DelayLists(m, ls, t, usec), c, t, (Start(m, c) + usec) % WORD, Start(m, c))
  {
    hide Inv, RemoveMem, SleepMem, DropLists, Spliced;
    DelayKeeps(m, ls, t, usec);
    NotAsleep(m, ls, t);
    var c, m1 := m.tcb[t].cpuid, Marked(m, t, Blocked, m.tcb[t].alarm);
    RetiredTask(m, ls, t);
    RemovedClock(m1, t, c);
    DelayedPlace(m, ls, t, usec);
    SleepClock(RemoveMem(m1, t), ls[Sleeping(c)], t, usec, c);
    DelayKeys(m, ls, t, usec);
    StartsAt(m, c, usec);
  }

  lemma StartsAt(m: Mem, c: nat, usec: nat)
    requires c < |m.ccb|
    ensures WakeTime(Rewound(m.ccb, c)[c], usec) == (Start(m, c) + usec) % WORD
  {
  }

  lemma DelayStepSleeps(st: State, t: nat, usec: nat)
    requires Sound(st) && Valid(st.m, t) && st.m.tcb[t].state.Running?
    requires Start(st.m, st.m.tcb[t].cpuid) + usec < WORD
    ensures var c, next := st.m.tcb[t].cpuid, Step(st, Delay(t, usec));
            SleepsUntil(next.m, next.ls, c, t, Start(st.m, c) + usec, Start(st.m, c))
  {
    hide Inv, DelayLists, DelayMem, Levels;
    DelaySleeps(st.m, st.ls, t, usec);
  }

  lemma RetiredTask(m: Mem, ls: Lists, t: nat)
    requires Inv(m, ls, 0) && Valid(m, t) && m.tcb[t].state.Running?
    ensures var m1 := Marked(m, t, Blocked, m.tcb[t].alarm);
            Shaped(m.ccb) && Mapped(m1.tcb, t) && t in RemoveMem(m1, t).tcb
            && RemoveMem(m1, t).tcb[t].cpuid == m.tcb[t].cpuid && Shaped(RemoveMem(m1, t).ccb)
            && RemoveMem(m1, t).tcb.Keys == m.tcb.Keys && |RemoveMem(m1, t).ccb| == |m.ccb| && Valid(RemoveMem(m1, t), t)
  {
    hide Inv, RemoveMem, DropLists, Listed;
    RetiredKeeps(m, ls, t);
    ShapeOf(RemoveMem(Marked(m, t, Blocked, m.tcb[t].alarm), t), DropLists(ls, t), t);
  }

  lemma DelayedPlace(m: Mem, ls: Lists, t: nat, usec: nat)
    requires Valid(m, t) && Sleeping(m.tcb[t].cpuid) in ls
    requires forall x :: x in ls[Sleeping(m.tcb[t].cpuid)] ==> x in m.tcb
    ensures var p := Sleeping(m.tcb[t].cpuid); var w := DelayLists(m, ls, t, usec);
            p in w && t in w[p]
  {
    hide DropLists, SleepPlace;
    var s, k := ls[Sleeping(m.tcb[t].cpuid)], SleepPlace(m, ls[Sleeping(m.tcb[t].cpuid)], t, usec);
    assert Spliced(s, k, t)[k] == t;
  }

  // ---------------------------------------------------------------- one call

  /** How far a call moves the clock of CPU c on. */
  function Passed(call: Call, c: nat): nat {
    if call.Tick? && call.c == c then call.delta else 0
  }

  /** The call does not itself take t out of its queue. */
  predicate Leaves(call: Call, t: nat) {
    call != Awake(t) && call != Remove(t)
  }

  /** What holds a sleeper: its list, its wake time and the clock of its CPU. */
  ghost predicate Untouched(m: Mem, ls: Lists, m': Mem, ls': Lists, c: nat, t: nat)
    requires t in m.tcb && c < |m.ccb|
  {
    && Sleeping(c) in ls' && t in ls'[Sleeping(c)]
    && t in m'.tcb && m'.tcb[t].alarm == m.tcb[t].alarm && m'.tcb[t].state == m.tcb[t].state
    && c < |m'.ccb| && m'.ccb[c].ticks == m.ccb[c].ticks
  }

  lemma StaysIn(s: seq<nat>, x: nat, t: nat)
    requires t in s && x != t
    ensures t in Cut(s, x)
  {
    var i :| 0 <= i < |s| && s[i] == t;
    if x in s {
      var k := IndexOf(s, x);
      assert Cut(s, x)[if i < k then i else i - 1] == t;
    }
  }

  lemma AddLeaves(m: Mem, ls: Lists, x: nat, c: nat, t: nat)
    requires Inv(m, ls, 0) && Valid(m, x) && AwakeReady(m, x) && Home(m.tcb[x]) in ls && x != t
    requires Sleeping(c) in ls && t in ls[Sleeping(c)] && t in m.tcb && c < |m.ccb|
    ensures Untouched(m, ls, AddMem(m, x), PushLists(ls, Home(m.tcb[x]), x), c, t)
  {
    hide Inv;
  }

  lemma RemoveLeaves(m: Mem, ls: Lists, x: nat, c: nat, t: nat)
    requires Valid(m, x) && Shaped(m.ccb) && Mapped(m.tcb, x) && x != t
    requires Sleeping(c) in ls && t in ls[Sleeping(c)] && t in m.tcb && c < |m.ccb|
    ensures Untouched(m, ls, RemoveMem(m, x), DropLists(ls, x), c, t)
  {
    hide Bypassed, Cut;
    BypassedAt(m.tcb, x, t);
    StaysIn(ls[Sleeping(c)], x, t);
    RemovedClock(m, x, c);
  }

  lemma WokenLeaves(m: Mem, x: nat, c: nat, t: nat)
    requires AwakeReady(m, x) && x != t && t in m.tcb && c < |m.ccb|
    ensures var w := WokenMem(m, x);
            t in w.tcb && w.tcb[t].alarm == m.tcb[t].alarm && w.tcb[t].state == m.tcb[t].state
            && c < |w.ccb| && w.ccb[c].ticks == m.ccb[c].ticks
  {
    hide Bypassed;
    BypassedAt(m.tcb, x, t);
  }

  lemma AddedLeaves(m: Mem, x: nat, c: nat, t: nat)
    requires Valid(m, x) && Shaped(m.ccb) && x != t && t in m.tcb && c < |m.ccb|
    requires var h := Head(m.ccb, Home(m.tcb[x])); h == 0 || h in m.tcb
    ensures var w := AddMem(m, x);
            t in w.tcb && w.tcb[t].alarm == m.tcb[t].alarm && w.tcb[t].state == m.tcb[t].state
            && c < |w.ccb| && w.ccb[c].ticks == m.ccb[c].ticks
  {
  }

  lemma AwakeLeaves(m: Mem, ls: Lists, x: nat, c: nat, t: nat)
    requires AwakeReady(m, x) && Home(m.tcb[x]) in ls && x != t
    requires Sleeping(c) in ls && t in ls[Sleeping(c)] && t in m.tcb && c < |m.ccb|
    ensures Untouched(m, ls, AwakeMem(m, x), AwakeLists(m, ls, x), c, t)
  {
    hide WokenMem, AddMem, Cut;
    StaysIn(ls[Sleeping(c)], x, t);
    if !m.tcb[x].state.Running? {
      WokenReady(m, x);
      WokenLeaves(m, x, c, t);
      AddedLeaves(WokenMem(m, x), x, c, t);
    }
  }

  lemma BlockLeaves(m: Mem, ls: Lists, x: nat, c: nat, t: nat)
    requires Inv(m, ls, 0) && Valid(m, x) && m.tcb[x].state.Running? && x != t
    requires Sleeping(c) in ls && t in ls[Sleeping(c)] && t in m.tcb && c < |m.ccb|
    ensures Shaped(m.ccb) && Mapped(m.tcb, x) && Waiting(m.tcb[x].cpuid) in ls
    ensures var r := RemoveMem(Marked(m, x, Blocked, m.tcb[x].alarm), x); var h := Head(r.ccb, Waiting(m.tcb[x].cpuid));
            h == 0 || h in m.tcb
    ensures Untouched(m, ls, BlockMem(m, x), BlockLists(m, ls, x), c, t)
  {
    hide Inv, RemoveMem, Cut;
    BlockKeeps(m, ls, x);
    StaysIn(ls[Sleeping(c)], x, t);
    var m1 := Marked(m, x, Blocked, m.tcb[x].alarm);
    RetiredTask(m, ls, x);
    RemovedClock(m1, x, c);
    HomeOf(m, ls, x);
    PushClock(RemoveMem(m1, x), Waiting(m.tcb[x].cpuid), x, c);
  }

  lemma HomeOf(m: Mem, ls: Lists, x: nat)
    requires Inv(m, ls, 0) && Valid(m, x)
    ensures IsPlace(|m.ccb|, Waiting(m.tcb[x].cpuid))
  {
  }

  lemma PushClock(m: Mem, p: Place, x: nat, c: nat)
    requires Shaped(m.ccb) && IsPlace(|m.ccb|, p) && x in m.tcb && (Head(m.ccb, p) == 0 || Head(m.ccb, p) in m.tcb)
    requires c < |m.ccb|
    ensures var m' := PushMem(m, p, x); c < |m'.ccb| && m'.ccb[c].ticks == m.ccb[c].ticks
  {
    hide Pushed;
  }

  /** The clock is not turned back while somebody sleeps. */
  lemma NotRewound(m: Mem, ls: Lists, c: nat, t: nat)
    requires Inv(m, ls, 0) && Sleeping(c) in ls && t in ls[Sleeping(c)] && c < |m.ccb|
    ensures m.ccb[c].timer != 0 && Start(m, c) == m.ccb[c].ticks && Shaped(m.ccb) && Sleeping(c) in ls
  {
    assert Holds(m, Sleeping(c), ls[Sleeping(c)], 0);
    assert ls[Sleeping(c)][0] in ls[Sleeping(c)];
  }

  lemma DelayLeaves(m: Mem, ls: Lists, x: nat, usec: nat, c: nat, t: nat)
    requires Inv(m, ls, 0) && Valid(m, x) && m.tcb[x].state.Running? && x != t
    requires Sleeping(c) in ls && t in ls[Sleeping(c)] && t in m.tcb && c < |m.ccb|
    ensures Shaped(m.ccb) && Mapped(m.tcb, x) && Sleeping(m.tcb[x].cpuid) in ls
    ensures Valid(RemoveMem(Marked(m, x, Blocked, m.tcb[x].alarm), x), x)
    ensures forall y :: y in ls[Sleeping(m.tcb[x].cpuid)] ==> y in m.tcb
    ensures Untouched(m, ls, DelayMem(m, ls, x, usec), DelayLists(m, ls, x, usec), c, t)
  {
    hide Inv, RemoveMem, SleepMem, Cut, SleepPlace, Spliced;
    DelayKeeps(m, ls, x, usec);
    NotRewound(m, ls, c, t);
    NotAsleep(m, ls, x);
    StaysIn(ls[Sleeping(c)], x, t);
    var d, m1 := m.tcb[x].cpuid, Marked(m, x, Blocked, m.tcb[x].alarm);
    RetiredTask(m, ls, x);
    RemovedClock(m1, x, c);
    SleepClock(RemoveMem(m1, x), ls[Sleeping(d)], x, usec, c);
    DelayKeys(m, ls, x, usec);
    if c == d { SplicedIn(ls[Sleeping(c)], SleepPlace(m, ls[Sleeping(c)], x, usec), x, t); }
  }

  lemma SplicedIn(s: seq<nat>, k: nat, x: nat, t: nat)
    requires k <= |s| && t in s
    ensures t in Spliced(s, k, x)
  {
    var i :| 0 <= i < |s| && s[i] == t;
    assert Spliced(s, k, x)[if i < k then i else i + 1] == t;
  }

  /** A pick that does not wake t leaves it, and the clocks, as they are. */
  lemma PickSpares(m: Mem, ls: Lists, d: nat, c: nat, t: nat)
    requires Inv(m, ls, 0) && d < |m.ccb| && !Slips(m, d) && (m.ccb[d].timer == 0 || m.ccb[d].timer in m.tcb) && Shaped(m.ccb)
    requires Sleeping(c) in ls && t in ls[Sleeping(c)] && t in m.tcb && c < |m.ccb|
    requires Due(m, d).Some? && Found(m.ccb[d], Due(m, d)).0 == Due(m, d) ==> m.ccb[d].timer != t
    ensures Untouched(m, ls, PickMem(m, ls, d), PickLists(m, ls, d), c, t)
  {
    hide Inv, Found, Due, Chosen, AwakeMem, AwakeLists, Slips, Behind, PickMem, PickLists, RunAt;
    var (f, b) := Found(m.ccb[d], Due(m, d));
    ChosenIs(m, ls, d, f, b);
    var (i, m1, ls1) := Chosen(m, ls, d);
    if f.Some? && Due(m, d) == f { ChosenWoken(m, ls, d, f, b, c, t); }
    assert Untouched(m, ls, m1, ls1, c, t);
    PickIs(m, ls, d, i, m1, ls1);
    RunClock(m1, d, i, c);
  }

  lemma PickLeaves(m: Mem, ls: Lists, d: nat, c: nat, t: nat)
    requires Inv(m, ls, 0) && d < |m.ccb| && !Slips(m, d)
    requires Sleeping(c) in ls && t in ls[Sleeping(c)] && t in m.tcb && c < |m.ccb|
    requires d == c ==> m.ccb[c].ticks < m.tcb[t].alarm
    ensures Untouched(m, ls, PickMem(m, ls, d), PickLists(m, ls, d), c, t)
  {
    IsShaped(m, ls, 0);
    TimerMapped(m, ls, d);
    if Due(m, d).Some? { WokenIsDue(m, ls, d, c, t); }
    hide Inv, Found, Due, PickMem, PickLists, Slips;
    PickSpares(m, ls, d, c, t);
  }

  lemma WokenIsDue(m: Mem, ls: Lists, d: nat, c: nat, t: nat)
    requires Inv(m, ls, 0) && d < |m.ccb| && (m.ccb[d].timer == 0 || m.ccb[d].timer in m.tcb) && Due(m, d).Some?
    requires Sleeping(c) in ls && t in ls[Sleeping(c)] && t in m.tcb && c < |m.ccb|
    requires d == c ==> m.ccb[c].ticks < m.tcb[t].alarm
    ensures m.ccb[d].timer != t
  {
    hide Inv;
    HeadSleeper(m, ls, d);
    SleeperCpu(m, ls, c, t);
  }

  lemma SleeperCpu(m: Mem, ls: Lists, c: nat, t: nat)
    requires Inv(m, ls, 0) && Sleeping(c) in ls && t in ls[Sleeping(c)] && t in m.tcb
    ensures m.tcb[t].cpuid == c && !m.tcb[t].state.Running? && Listed(ls, t)
  {
    assert Holds(m, Sleeping(c), ls[Sleeping(c)], 0);
  }

  lemma ChosenWoken(m: Mem, ls: Lists, d: nat, f: Odometer.Option<nat>, b: Ccb, c: nat, t: nat)
    requires Inv(m, ls, 0) && d < |m.ccb| && !Slips(m, d) && (m.ccb[d].timer == 0 || m.ccb[d].timer in m.tcb)
    requires Shaped(m.ccb) && Found(m.ccb[d], Due(m, d)) == (f, b) && f.Some? && Due(m, d) == f
    requires Sleeping(c) in ls && t in ls[Sleeping(c)] && t in m.tcb && c < |m.ccb| && m.ccb[d].timer != t
    ensures var (i, m1, ls1) := Chosen(m, ls, d); Untouched(m, ls, m1, ls1, c, t)
  {
    hide Inv, Found, Due, Chosen, AwakeMem, AwakeLists, Slips, Behind;
    ChosenIs(m, ls, d, f, b);
    AwakeLeaves(WithCcb(m, d, b), ls, b.timer, c, t);
  }

  lemma RunClock(m: Mem, d: nat, i: nat, c: nat)
    requires d < |m.ccb| && |m.ccb[d].cursor| == LEVELS && i < LEVELS && c < |m.ccb|
    requires m.ccb[d].cursor[i] == 0 || m.ccb[d].cursor[i] in m.tcb
    ensures var m' := RunAt(m, d, i); m'.tcb == m.tcb && c < |m'.ccb| && m'.ccb[c].ticks == m.ccb[c].ticks
  {
  }

  /** A sleeper that is not due sleeps on through any call but one that wakes or removes
      it by name. */
  lemma StepSleeps(st: State, call: Call, c: nat, t: nat, due: nat, now: nat)
    requires Sound(st) && Allowed(st.m, st.ls, call) && Leaves(call, t)
    requires SleepsUntil(st.m, st.ls, c, t, due, now) && now < due && now + Passed(call, c) < WORD
    ensures SleepsUntil(Step(st, call).m, Step(st, call).ls, c, t, due, now + Passed(call, c))
  {
    hide Inv, Behind, Listed, AddMem, RemoveMem, AwakeMem, BlockMem, DelayMem, PickMem, PickLists, AwakeLists, DropLists,
      PushLists, BlockLists, DelayLists, Levels, Slips, Slipped;
    var m, ls := st.m, st.ls;
    SleeperCpu(m, ls, c, t);
    match call
    case Add(x) => if Valid(m, x) { AwakeIsReady(m, ls, x); AddLeaves(m, ls, x, c, t); }
    case Remove(x) => if Valid(m, x) { AwakeIsReady(m, ls, x); RemoveLeaves(m, ls, x, c, t); }
    case Awake(x) => if Valid(m, x) { AwakeIsReady(m, ls, x); AwakeLeaves(m, ls, x, c, t); }
    case Block(x) => if Valid(m, x) && m.tcb[x].state.Running? { BlockLeaves(m, ls, x, c, t); }
    case Delay(x, usec) => if Valid(m, x) && m.tcb[x].state.Running? { DelayLeaves(m, ls, x, usec, c, t); }
    case PickNext(d, _, _) => if d < |m.ccb| { PickLeaves(m, ls, d, c, t); }
    case Tick(d, delta) =>
  }

  lemma Gone(ls: Lists, m: Mem, t: nat, c: nat)
    requires Sleeping(c) in ls && NoDup(ls[Sleeping(c)])
    ensures t !in Cut(ls[Sleeping(c)], t)
  {
    if t in ls[Sleeping(c)] { CutMisses(ls[Sleeping(c)], t); }
  }

  /** A pick after which t still sleeps has not woken it. */
  lemma PickPasses(m: Mem, ls: Lists, d: nat, c: nat, t: nat)
    requires Inv(m, ls, 0) && d < |m.ccb| && !Slips(m, d)
    requires Sleeping(c) in ls && t in ls[Sleeping(c)] && t in m.tcb && c < |m.ccb|
    requires Sleeping(c) in PickLists(m, ls, d) && t in PickLists(m, ls, d)[Sleeping(c)]
    ensures Untouched(m, ls, PickMem(m, ls, d), PickLists(m, ls, d), c, t)
  {
    IsShaped(m, ls, 0);
    TimerMapped(m, ls, d);
    if Due(m, d).Some? && Found(m.ccb[d], Due(m, d)).0 == Due(m, d) { PickWakes(m, ls, d, c, t); }
    hide Inv, Found, Due, PickMem, PickLists, Slips;
    PickSpares(m, ls, d, c, t);
  }

  lemma PickWakes(m: Mem, ls: Lists, d: nat, c: nat, t: nat)
    requires Inv(m, ls, 0) && d < |m.ccb| && !Slips(m, d) && (m.ccb[d].timer == 0 || m.ccb[d].timer in m.tcb) && Shaped(m.ccb)
    requires Sleeping(c) in ls && t in ls[Sleeping(c)] && t in m.tcb && c < |m.ccb|
    requires Due(m, d).Some? && Found(m.ccb[d], Due(m, d)).0 == Due(m, d)
    requires Sleeping(c) in PickLists(m, ls, d) && t in PickLists(m, ls, d)[Sleeping(c)]
    ensures m.ccb[d].timer != t
  {
    hide Inv, Found, Due, Chosen, AwakeMem, AwakeLists, Slips, Behind, PickMem, PickLists, RunAt;
    var (f, b) := Found(m.ccb[d], Due(m, d));
    ChosenIs(m, ls, d, f, b);
    var (i, m1, ls1) := Chosen(m, ls, d);
    PickIs(m, ls, d, i, m1, ls1);
    if b.timer == t { WokenLeft(WithCcb(m, d, b), ls, c, t); }
  }

  lemma WokenLeft(m: Mem, ls: Lists, c: nat, t: nat)
    requires Inv(m, ls, 0) && Sleeping(c) in ls && t in ls[Sleeping(c)] && t in m.tcb && Home(m.tcb[t]) in ls
    ensures Sleeping(c) in AwakeLists(m, ls, t) && t !in AwakeLists(m, ls, t)[Sleeping(c)]
  {
    hide Inv, Cut;
    SleepersDiffer(m, ls, c);
    SleeperCpu(m, ls, c, t);
    Gone(ls, m, t, c);
  }

  /** For as long as it sleeps, its wake time stays and the clock of its CPU moves on with
      the ticks alone. */
  lemma StepPasses(st: State, call: Call, c: nat, t: nat, due: nat, now: nat)
    requires Sound(st) && Allowed(st.m, st.ls, call)
    requires SleepsUntil(st.m, st.ls, c, t, due, now) && now + Passed(call, c) < WORD
    requires Sleeping(c) in Step(st, call).ls && t in Step(st, call).ls[Sleeping(c)]
    ensures SleepsUntil(Step(st, call).m, Step(st, call).ls, c, t, due, now + Passed(call, c))
  {
    hide Inv, Behind, Listed, AddMem, RemoveMem, AwakeMem, BlockMem, DelayMem, PickMem, PickLists, AwakeLists, Cut,
      PushLists, BlockLists, DelayLists, Levels, Slips, Slipped;
    var m, ls := st.m, st.ls;
    SleeperCpu(m, ls, c, t);
    SleepersDiffer(m, ls, c);
    Gone(ls, m, t, c);
    match call
    case Add(x) => if Valid(m, x) { AwakeIsReady(m, ls, x); AddLeaves(m, ls, x, c, t); }
    case Remove(x) => if Valid(m, x) { AwakeIsReady(m, ls, x); RemoveLeaves(m, ls, x, c, t); }
    case Awake(x) =>
      if Valid(m, x) {
        AwakeIsReady(m, ls, x);
        if x == t { WokenLeft(m, ls, c, t); }
        AwakeLeaves(m, ls, x, c, t);
      }
    case Block(x) => if Valid(m, x) && m.tcb[x].state.Running? { BlockLeaves(m, ls, x, c, t); }
    case Delay(x, usec) => if Valid(m, x) && m.tcb[x].state.Running? { DelayLeaves(m, ls, x, usec, c, t); }
    case PickNext(d, _, _) => if d < |m.ccb| { PickPasses(m, ls, d, c, t); }
    case Tick(d, delta) =>
  }

  // ---------------------------------------------------------------- runs

  /** t sleeps on CPU c from the start to the end of the calls. */
  ghost predicate Dozes(st: State, calls: seq<Call>, c: nat, t: nat)
    requires Sound(st) && AllowedRun(st, calls)
    decreases |calls|
  {
    Sleeping(c) in st.ls && t in st.ls[Sleeping(c)] &&
    (calls != [] ==> (StepKeeps(st, calls[0]); Dozes(Step(st, calls[0]), calls[1..], c, t)))
  }

  function Elapsed(calls: seq<Call>, c: nat): nat {
    if calls == [] then 0 else Passed(calls[0], c) + Elapsed(calls[1..], c)
  }

  lemma {:induction false} RunSleeps(st: State, calls: seq<Call>, c: nat, t: nat, due: nat, now: nat)
    requires Sound(st) && AllowedRun(st, calls) && forall i :: 0 <= i < |calls| ==> Leaves(calls[i], t)
    requires SleepsUntil(st.m, st.ls, c, t, due, now) && now + Elapsed(calls, c) < due < WORD
    ensures var end := Run(st, calls); SleepsUntil(end.m, end.ls, c, t, due, now + Elapsed(calls, c))
    decreases |calls|
  {
    hide Inv, Levels, Step, Allowed, SleepsUntil, Leaves, Passed;
    if calls != [] {
      StepKeeps(st, calls[0]);
      StepSleeps(st, calls[0], c, t, due, now);
      assert forall i :: 0 <= i < |calls| - 1 ==> calls[1..][i] == calls[i + 1];
      RunSleeps(Step(st, calls[0]), calls[1..], c, t, due, now + Passed(calls[0], c));
    }
  }

  lemma {:induction false} RunPasses(st: State, calls: seq<Call>, c: nat, t: nat, due: nat, now: nat)
    requires Sound(st) && AllowedRun(st, calls) && Dozes(st, calls, c, t)
    requires SleepsUntil(st.m, st.ls, c, t, due, now) && now + Elapsed(calls, c) < WORD
    ensures var end := Run(st, calls); SleepsUntil(end.m, end.ls, c, t, due, now + Elapsed(calls, c))
    decreases |calls|
  {
    hide Inv, Levels, Step, Allowed, SleepsUntil, Passed;
    if calls != [] {
      StepKeeps(st, calls[0]);
      StepPasses(st, calls[0], c, t, due, now);
      RunPasses(Step(st, calls[0]), calls[1..], c, t, due, now + Passed(calls[0], c));
    }
  }

  /** A sleeper is due from the moment the clock of its CPU has moved on by usec. */
  lemma DueOnTime(st: State, t: nat, usec: nat, calls: seq<Call>)
    requires Sound(st) && Valid(st.m, t) && st.m.tcb[t].state.Running?
    requires var c := st.m.tcb[t].cpuid; Start(st.m, c) + usec < WORD && Start(st.m, c) + Elapsed(calls, c) < WORD
    requires var next := Step(st, Delay(t, usec));
             Sound(next) && AllowedRun(next, calls) && Dozes(next, calls, st.m.tcb[t].cpuid, t)
    ensures var end, c := Run(Step(st, Delay(t, usec)), calls), st.m.tcb[t].cpuid;
            && t in end.m.tcb && c < |end.m.ccb|
            && (end.m.tcb[t].alarm <= end.m.ccb[c].ticks <==> usec <= Elapsed(calls, c))
  {
    hide Inv, Step, Levels;
    var c := st.m.tcb[t].cpuid;
    DelayStepSleeps(st, t, usec);
    RunPasses(Step(st, Delay(t, usec)), calls, c, t, Start(st.m, c) + usec, Start(st.m, c));
  }

  /** Nobody is woken early: whatever is called on whatever CPU, a task put to sleep for
      usec sleeps while the clock of its CPU has moved on by less than usec, unless it is
      woken or removed by name. */
  lemma NeverEarly(st: State, t: nat, usec: nat, calls: seq<Call>)
    requires Sound(st) && Valid(st.m, t) && st.m.tcb[t].state.Running?
    requires Start(st.m, st.m.tcb[t].cpuid) + usec < WORD
    requires var next := Step(st, Delay(t, usec)); Sound(next) && AllowedRun(next, calls)
    requires (forall i :: 0 <= i < |calls| ==> Leaves(calls[i], t)) && Elapsed(calls, st.m.tcb[t].cpuid) < usec
    ensures var end, c := Run(Step(st, Delay(t, usec)), calls), st.m.tcb[t].cpuid;
            && Sleeping(c) in end.ls && t in end.ls[Sleeping(c)]
            && t in end.m.tcb && !end.m.tcb[t].state.Running? && c < |end.m.ccb|
            && end.m.tcb[t].alarm == end.m.ccb[c].ticks + (usec - Elapsed(calls, c))
  {
    hide Inv, Step, Levels;
    var c := st.m.tcb[t].cpuid;
    DelayStepSleeps(st, t, usec);
    RunSleeps(Step(st, Delay(t, usec)), calls, c, t, Start(st.m, c) + usec, Start(st.m, c));
  }

  // ---------------------------------------------------------------- on an empty alarm queue

  /** Interrupts before the head of the alarm queue is due leave it asleep. */
  lemma {:induction false} EarlyInterrupts(m: Mem, ls: Lists, c: nat, ticks: seq<nat>)
    requires Inv(m, ls, 0) && c < |m.ccb| && Wake.Steady(m, c) && m.ccb[c].timer != 0 && m.ccb[c].timer in m.tcb
    requires forall i :: 0 <= i < |ticks| ==> ticks[i] < m.tcb[m.ccb[c].timer].alarm
    ensures var end := Wake.Interrupts(m, ls, c, ticks);
            && Inv(end.m, end.ls, 0) && end.ls == ls && end.m.tcb == m.tcb
            && c < |end.m.ccb| && end.m.ccb[c].timer == m.ccb[c].timer
    decreases |ticks|
  {
    hide Inv, PickMem, PickLists, AwakeLists, Behind, Slips;
    if ticks != [] {
      var m1 := Wake.Clocked(m, c, ticks[0]);
      Wake.ClockInv(m, ls, c, ticks[0]);
      Wake.SteadyHolds(m1, ls, c);
      PickKeeps(m1, ls, c);
      Wake.WakesExact(m1, ls, c);
      assert forall i :: 0 <= i < |ticks| - 1 ==> ticks[1..][i] == ticks[i + 1];
      EarlyInterrupts(PickMem(m1, ls, c), PickLists(m1, ls, c), c, ticks[1..]);
    }
  }

  /** A task put to sleep when nobody sleeps on its CPU: no interrupt before usec wakes
      it, and from usec on it waits for the turns the levels above it have left, and runs
      at the interrupt behind those. */
  lemma DelayThenRuns(m: Mem, ls: Lists, t: nat, usec: nat, early: seq<nat>, late: seq<nat>)
    requires Inv(m, ls, 0) && Valid(m, t) && m.tcb[t].state.Running? && m.tcb[t].priority < PRI_IDLE
    requires m.ccb[m.tcb[t].cpuid].timer == 0 && usec < WORD
    requires (forall i :: 0 <= i < |early| ==> early[i] < usec) && forall i :: 0 <= i < |late| ==> usec <= late[i]
    ensures Shaped(m.ccb) && Mapped(m.tcb, t) && Sleeping(m.tcb[t].cpuid) in ls
    ensures Valid(RemoveMem(Marked(m, t, Blocked, m.tcb[t].alarm), t), t)
    ensures forall x :: x in ls[Sleeping(m.tcb[t].cpuid)] ==> x in m.tcb
    ensures var c, m', ls' := m.tcb[t].cpuid, DelayMem(m, ls, t, usec), DelayLists(m, ls, t, usec);
            && Inv(m', ls', 0) && c < |m'.ccb| && Wake.Steady(m', c)
            && var mid := Wake.Interrupts(m', ls', c, early);
               && mid.ls == ls' && t in mid.m.tcb && !mid.m.tcb[t].state.Running?
               && Inv(mid.m, mid.ls, 0) && c < |mid.m.ccb| && Wake.Steady(mid.m, c)
               && var left, end := Wake.Left(mid.m, mid.ls, c, m.tcb[t].priority), Wake.Interrupts(mid.m, mid.ls, c, late);
                  && (|late| <= left ==> end.ls == ls' && t in end.m.tcb && !end.m.tcb[t].state.Running?)
                  && (|late| == left + 1 ==> c < |end.m.ccb| && end.m.ccb[c].current == t)
  {
    DelayKeeps(m, ls, t, usec);
    DelaySleeps(m, ls, t, usec);
    AloneAsleep(m, ls, t, usec);
    hide Inv, DelayMem, DelayLists, Wake.Left;
    var c, m', ls' := m.tcb[t].cpuid, DelayMem(m, ls, t, usec), DelayLists(m, ls, t, usec);
    EarlyInterrupts(m', ls', c, early);
    var mid := Wake.Interrupts(m', ls', c, early);
    Wake.DueIsWoken(mid.m, mid.ls, c, late);
  }

  lemma AloneAsleep(m: Mem, ls: Lists, t: nat, usec: nat)
    requires Inv(m, ls, 0) && Valid(m, t) && m.tcb[t].state.Running? && m.ccb[m.tcb[t].cpuid].timer == 0
    ensures Shaped(m.ccb) && Mapped(m.tcb, t) && Sleeping(m.tcb[t].cpuid) in ls
    ensures Valid(RemoveMem(Marked(m, t, Blocked, m.tcb[t].alarm), t), t)
    ensures forall x :: x in ls[Sleeping(m.tcb[t].cpuid)] ==> x in m.tcb
    ensures var c, m' := m.tcb[t].cpuid, DelayMem(m, ls, t, usec);
            c < |m'.ccb| && m'.ccb[c].timer == t && t in m'.tcb && m'.tcb[t].next == 0
            && m'.tcb[t].priority == m.tcb[t].priority && (usec < WORD ==> m'.tcb[t].alarm == usec)
  {
    hide Inv, DelayMem, DelayLists, WakeTime, Rewound, RemoveMem, Shaped, Mapped;
    DelayKeeps(m, ls, t, usec);
    DelayKeys(m, ls, t, usec);
    var p := Sleeping(m.tcb[t].cpuid);
    StartsAt(m, p.cpu, usec);
    TimerList(m, ls, p.cpu);
    OnlySleeper(m, ls, t, usec);
    TimerList(DelayMem(m, ls, t, usec), DelayLists(m, ls, t, usec), p.cpu);
  }

  lemma OnlySleeper(m: Mem, ls: Lists, t: nat, usec: nat)
    requires Valid(m, t) && Sleeping(m.tcb[t].cpuid) in ls && ls[Sleeping(m.tcb[t].cpuid)] == []
    ensures var p := Sleeping(m.tcb[t].cpuid); var w := DelayLists(m, ls, t, usec);
            p in w && w[p] == [t]
  {
    hide DropLists, SleepPlace;
    assert SleepPlace(m, [], t, usec) == 0;
  }

  lemma TimerList(m: Mem, ls: Lists, c: nat)
    requires Inv(m, ls, 0) && Sleeping(c) in ls
    ensures c < |m.ccb| && (m.ccb[c].timer == 0 ==> ls[Sleeping(c)] == [])
    ensures |ls[Sleeping(c)]| == 1 ==> var t := ls[Sleeping(c)][0]; m.ccb[c].timer == t && t in m.tcb && m.tcb[t].next == 0
  {
    var s := ls[Sleeping(c)];
    assert Holds(m, Sleeping(c), s, 0);
    if s != [] { InListedTask(m, ls, 0, Sleeping(c), 0); }
  }
}
