/** Whole runs of the scheduler: any sequence of its calls on any CPU. */
module SchedRun {
  import opened Queues
  import opened Sched
  import opened Pick

  /** Found and runs stand for what a slipped pick finds under the cursors and runs. */
  datatype Call =
    | Add(t: nat)
    | Remove(t: nat)
    | Awake(t: nat)
    | Block(t: nat)
    | Delay(t: nat, usec: nat)
    | PickNext(c: nat, found: seq<nat>, runs: nat)
    | Tick(c: nat, delta: nat)

  /** A task is added only when it is in no queue, woken only when it is not a
      removed running task, and never taken out from behind another sleeper.  An alarm
      goes off only for a sleeper with nobody behind it. */
  ghost predicate Allowed(m: Mem, ls: Lists, call: Call) {
    match call
    case Add(t) => Valid(m, t) ==> !Listed(ls, t)
    case Remove(t) => Valid(m, t) ==> !Behind(ls, t)
    case Awake(t) => Valid(m, t) ==> !Behind(ls, t) && (m.tcb[t].state.Running? ==> Listed(ls, t))
    case PickNext(c, _, _) => !Slips(m, c)
    case _ => true
  }

  datatype State = State(m: Mem, ls: Lists)

  ghost predicate Sound(st: State) { Inv(st.m, st.ls, 0) && Levels(st.m) }

  /** The memory after a call, and the lists it should then hold. */
  ghost function Step(st: State, call: Call): State
    requires Sound(st)
  {
    var m, ls := st.m, st.ls;
    match call
    case Add(t) =>
      if !Valid(m, t) then st else
        AwakeIsReady(m, ls, t);
        State(AddMem(m, t), PushLists(ls, Home(m.tcb[t]), t))
    case Remove(t) =>
      if !Valid(m, t) then st else
        AwakeIsReady(m, ls, t);
        State(RemoveMem(m, t), DropLists(ls, t))
    case Awake(t) =>
      if !Valid(m, t) then st else
        AwakeIsReady(m, ls, t);
        State(AwakeMem(m, t), AwakeLists(m, ls, t))
    case Block(t) =>
      if !Valid(m, t) || !m.tcb[t].state.Running? then st else
        BlockKeeps(m, ls, t);
        State(BlockMem(m, t), BlockLists(m, ls, t))
    case Delay(t, usec) =>
      if !Valid(m, t) || !m.tcb[t].state.Running? then st else
        DelayKeeps(m, ls, t, usec);
        State(DelayMem(m, ls, t, usec), DelayLists(m, ls, t, usec))
    case PickNext(c, found, runs) =>
      if c >= |m.ccb| then st
      else if Slips(m, c) then
        SlippedHead(m, ls, c);
        var x := Slipped(m, ls, c);
        State(WithCcb(x, c, x.ccb[c].(cursor := found, current := runs)), ls)
      else State(PickMem(m, ls, c), PickLists(m, ls, c))
    case Tick(c, delta) =>
      if c >= |m.ccb| then st
      else State(WithCcb(m, c, m.ccb[c].(ticks := (m.ccb[c].ticks + delta) % WORD)), ls)
  }

  lemma TickKeeps(m: Mem, ls: Lists, c: nat, ticks: nat)
    requires Inv(m, ls, 0) && c < |m.ccb|
    ensures Inv(WithCcb(m, c, m.ccb[c].(ticks := ticks)), ls, 0)
  {
    var m' := WithCcb(m, c, m.ccb[c].(ticks := ticks));
    forall p | p in ls ensures Holds(m', p, ls[p], 0) {
      assert Holds(m, p, ls[p], 0);
    }
  }

  /** A task added while it is in a queue is in two, or twice in one. */
  lemma AddStep(m: Mem, ls: Lists, t: nat)
    requires Inv(m, ls, 0) && Valid(m, t) && AwakeReady(m, t) && Home(m.tcb[t]) in ls
    ensures Inv(AddMem(m, t), PushLists(ls, Home(m.tcb[t]), t), 0) <==> !Listed(ls, t)
  {
    hide Inv, AddMem;
    var p, w := Home(m.tcb[t]), PushLists(ls, Home(m.tcb[t]), t);
    if q :| q in ls && t in ls[q] {
      if Inv(AddMem(m, t), w, 0) { OncePlaced(AddMem(m, t), w, p, q, t); Repeated(ls[p], t); }
    } else {
      Unsettle(m, ls, t);
      AddKeeps(m, ls, t);
    }
  }

  lemma OncePlaced(m: Mem, ls: Lists, p: Place, q: Place, t: nat)
    requires Inv(m, ls, 0) && p in ls && q in ls && t in ls[p] && t in ls[q]
    ensures p == q && NoDup(ls[p])
  {
    assert Holds(m, p, ls[p], 0);
  }

  lemma Repeated(s: seq<nat>, t: nat)
    requires t in s
    ensures !NoDup([t] + s)
  {
    var i :| 0 <= i < |s| && s[i] == t;
    assert ([t] + s)[0] == ([t] + s)[i + 1];
  }

  lemma RemoveStep(m: Mem, ls: Lists, t: nat)
    requires Inv(m, ls, 0) && Valid(m, t) && Shaped(m.ccb) && Mapped(m.tcb, t)
    ensures Inv(RemoveMem(m, t), DropLists(ls, t), 0) <==> !Behind(ls, t)
  {
    hide Inv, RemoveMem, DropLists;
    RemoveExact(m, ls, t);
    if Behind(ls, t) {
      if Inv(RemoveMem(m, t), DropLists(ls, t), 0) { Unsettle(RemoveMem(m, t), DropLists(ls, t), t); }
    } else {
      TakenOut(m, ls, t);
      Settle(RemoveMem(m, t), DropLists(ls, t), t);
    }
  }

  /** A call keeps the queues if and only if it is allowed. */
  lemma StepExact(st: State, call: Call)
    requires Sound(st)
    ensures Inv(Step(st, call).m, Step(st, call).ls, 0) <==> Allowed(st.m, st.ls, call)
  {
    hide Inv, Levels, Behind, Listed, Slips, AddMem, RemoveMem, AwakeMem, BlockMem, DelayMem, PickMem, PickLists, Slipped,
      PushLists, DropLists, AwakeLists, BlockLists, DelayLists;
    match call
    case Add(t) => if Valid(st.m, t) { AwakeIsReady(st.m, st.ls, t); AddStep(st.m, st.ls, t); }
    case Remove(t) => if Valid(st.m, t) { AwakeIsReady(st.m, st.ls, t); RemoveStep(st.m, st.ls, t); }
    case Awake(t) => if Valid(st.m, t) { AwakeExact(st.m, st.ls, t); }
    case Block(t) => if Valid(st.m, t) && st.m.tcb[t].state.Running? { BlockKeeps(st.m, st.ls, t); }
    case Delay(t, usec) => if Valid(st.m, t) && st.m.tcb[t].state.Running? { DelayKeeps(st.m, st.ls, t, usec); }
    case PickNext(c, found, runs) => if c < |st.m.ccb| { PickStep(st, c, found, runs); } else { NoSlip(st.m, c); }
    case Tick(c, delta) => if c < |st.m.ccb| { TickKeeps(st.m, st.ls, c, (st.m.ccb[c].ticks + delta) % WORD); }
  }

  lemma NoSlip(m: Mem, c: nat)
    requires c >= |m.ccb|
    ensures !Slips(m, c)
  {
  }

  lemma PickStep(st: State, c: nat, found: seq<nat>, runs: nat)
    requires Sound(st) && c < |st.m.ccb|
    ensures var next := Step(st, PickNext(c, found, runs)); Inv(next.m, next.ls, 0) <==> !Slips(st.m, c)
  {
    hide Inv, Levels, Slips, PickMem, PickLists, Slipped;
    var next := Step(st, PickNext(c, found, runs));
    if Slips(st.m, c) {
      SlippedHead(st.m, st.ls, c);
      PickExact(st.m, st.ls, c, next.m);
    } else {
      PickInv(st.m, st.ls, c);
    }
  }

  // ---------------------------------------------------------------- levels stay

  ghost predicate SameLevels(m: Mem, m': Mem) {
    forall x :: x in m'.tcb ==> x in m.tcb && m'.tcb[x].priority == m.tcb[x].priority
  }

  lemma AddLevels(m: Mem, t: nat)
    requires Valid(m, t) && Shaped(m.ccb)
    requires var h := Head(m.ccb, Home(m.tcb[t])); h == 0 || h in m.tcb
    ensures SameLevels(m, AddMem(m, t))
  {
  }

  lemma RemoveLevels(m: Mem, t: nat)
    requires Valid(m, t) && Shaped(m.ccb) && Mapped(m.tcb, t)
    ensures SameLevels(m, RemoveMem(m, t))
  {
    hide Bypassed;
    var r := RemoveMem(m, t).tcb;
    forall x | x in r ensures x in m.tcb && r[x].priority == m.tcb[x].priority {
      BypassedAt(m.tcb, t, x);
    }
  }

  lemma WokenLevels(m: Mem, t: nat)
    requires Valid(m, t) && Shaped(m.ccb) && Mapped(m.tcb, t)
    ensures SameLevels(m, WokenMem(m, t))
  {
    hide Bypassed;
    var r := WokenMem(m, t).tcb;
    forall x | x in r ensures x in m.tcb && r[x].priority == m.tcb[x].priority {
      BypassedAt(m.tcb, t, x);
    }
  }

  lemma AwakeLevels(m: Mem, ls: Lists, t: nat)
    requires Inv(m, ls, 0) && AwakeReady(m, t)
    ensures SameLevels(m, AwakeMem(m, t))
  {
    hide Inv, WokenMem, AddMem;
    if !m.tcb[t].state.Running? {
      WokenLevels(m, t);
      WokenTcb(m, t);
      WokenReady(m, t);
      AddLevels(WokenMem(m, t), t);
    }
  }

  lemma WokenReady(m: Mem, t: nat)
    requires AwakeReady(m, t)
    ensures var w := WokenMem(m, t);
            Valid(w, t) && Shaped(w.ccb) && var h := Head(w.ccb, Home(w.tcb[t])); h == 0 || h in w.tcb
  {
    hide Bypassed;
    BypassedAt(m.tcb, t, t);
  }

  lemma BlockLevels(m: Mem, t: nat)
    requires Valid(m, t) && Shaped(m.ccb) && Mapped(m.tcb, t)
    requires var r := RemoveMem(Marked(m, t, Blocked, m.tcb[t].alarm), t); var h := Head(r.ccb, Waiting(m.tcb[t].cpuid));
             h == 0 || h in m.tcb
    ensures SameLevels(m, BlockMem(m, t))
  {
    hide RemoveMem;
    var m1 := Marked(m, t, Blocked, m.tcb[t].alarm);
    RemoveLevels(m1, t);
    RemovedKeys(m1, t);
    PushLevels(RemoveMem(m1, t), Waiting(m.tcb[t].cpuid), t);
  }

  lemma RemovedKeys(m: Mem, t: nat)
    requires Valid(m, t) && Shaped(m.ccb) && Mapped(m.tcb, t)
    ensures var r := RemoveMem(m, t); r.tcb.Keys == m.tcb.Keys && |r.ccb| == |m.ccb| && Shaped(r.ccb)
  {
    hide Bypassed;
  }

  lemma PushLevels(m: Mem, p: Place, t: nat)
    requires Shaped(m.ccb) && IsPlace(|m.ccb|, p) && t in m.tcb && (Head(m.ccb, p) == 0 || Head(m.ccb, p) in m.tcb)
    ensures SameLevels(m, PushMem(m, p, t))
  {
  }

  lemma DelayKeys(m: Mem, ls: Lists, t: nat, usec: nat)
    requires Inv(m, ls, 0) && Valid(m, t) && m.tcb[t].state.Running?
    ensures Shaped(m.ccb) && Mapped(m.tcb, t) && Sleeping(m.tcb[t].cpuid) in ls
    ensures Valid(RemoveMem(Marked(m, t, Blocked, m.tcb[t].alarm), t), t)
    ensures forall x :: x in ls[Sleeping(m.tcb[t].cpuid)] ==> x in m.tcb
    ensures DelayMem(m, ls, t, usec).tcb.Keys == m.tcb.Keys
  {
    hide Inv, RemoveMem, SleepMem;
    DelayKeeps(m, ls, t, usec);
    RemovedKeys(Marked(m, t, Blocked, m.tcb[t].alarm), t);
    SleepMemKeys(RemoveMem(Marked(m, t, Blocked, m.tcb[t].alarm), t), ls[Sleeping(m.tcb[t].cpuid)], t, usec);
  }

  /** Nothing changes the level of a task. */
  lemma StepLevels(st: State, call: Call)
    requires Sound(st) && Allowed(st.m, st.ls, call)
    ensures SameLevels(st.m, Step(st, call).m)
  {
    hide Inv, Levels, Behind, Listed, Slips, AddMem, RemoveMem, AwakeMem, BlockMem, DelayMem, PickMem, PickLists, Slipped,
      PushLists, DropLists, AwakeLists, BlockLists, DelayLists;
    match call
    case Add(t) => if Valid(st.m, t) { AwakeIsReady(st.m, st.ls, t); AddLevels(st.m, t); }
    case Remove(t) => if Valid(st.m, t) { AwakeIsReady(st.m, st.ls, t); RemoveLevels(st.m, t); }
    case Awake(t) => if Valid(st.m, t) { AwakeIsReady(st.m, st.ls, t); AwakeLevels(st.m, st.ls, t); }
    case Block(t) =>
      if Valid(st.m, t) && st.m.tcb[t].state.Running? {
        BlockKeeps(st.m, st.ls, t);
        BlockLevels(st.m, t);
      }
    case Delay(t, usec) =>
      if Valid(st.m, t) && st.m.tcb[t].state.Running? {
        DelayKeeps(st.m, st.ls, t, usec);
        DelayKeys(st.m, st.ls, t, usec);
      }
    case PickNext(c, _, _) => if c < |st.m.ccb| { PickLevels(st.m, st.ls, c); }
    case Tick(c, delta) =>
  }

  lemma PickLevels(m: Mem, ls: Lists, c: nat)
    requires Inv(m, ls, 0) && c < |m.ccb| && !Slips(m, c)
    ensures SameLevels(m, PickMem(m, ls, c))
  {
    hide Inv, Found, Due, AwakeMem, AwakeLists, Slips;
    ChosenLevels(m, ls, c);
    ChosenKeeps(m, ls, c);
    var (i, m1, ls1) := Chosen(m, ls, c);
    hide Chosen;
    PickIs(m, ls, c, i, m1, ls1);
  }

  lemma ChosenLevels(m: Mem, ls: Lists, c: nat)
    requires Inv(m, ls, 0) && c < |m.ccb| && !Slips(m, c)
    ensures SameLevels(m, Chosen(m, ls, c).1)
  {
    IsShaped(m, ls, 0);
    TimerMapped(m, ls, c);
    hide Inv, Found, Due, Chosen, AwakeMem, AwakeLists, Slips, Behind;
    var (f, b) := Found(m.ccb[c], Due(m, c));
    ChosenIs(m, ls, c, f, b);
    if f.Some? && Due(m, c) == f { AwakeLevels(WithCcb(m, c, b), ls, b.timer); }
  }

  lemma StepKeeps(st: State, call: Call)
    requires Sound(st) && Allowed(st.m, st.ls, call)
    ensures Sound(Step(st, call))
  {
    hide Inv, Step, Allowed;
    StepExact(st, call);
    StepLevels(st, call);
  }

  // ---------------------------------------------------------------- runs

  ghost predicate AllowedRun(st: State, calls: seq<Call>)
    requires Sound(st)
    decreases |calls|
  {
    calls == [] ||
    (Allowed(st.m, st.ls, calls[0]) &&
     (StepKeeps(st, calls[0]); AllowedRun(Step(st, calls[0]), calls[1..])))
  }

  ghost function Run(st: State, calls: seq<Call>): State
    requires Sound(st) && AllowedRun(st, calls)
    decreases |calls|
  {
    if calls == [] then st
    else
      StepKeeps(st, calls[0]);
      Run(Step(st, calls[0]), calls[1..])
  }

  /** The queues are kept from the start to the end of the calls. */
  ghost predicate Kept(st: State, calls: seq<Call>)
    decreases |calls|
  {
    Sound(st) && (calls != [] ==> Kept(Step(st, calls[0]), calls[1..]))
  }

  /** Over any run the queues are kept, at every moment, if and only if every call is
      allowed. */
  lemma {:induction false} RunExact(st: State, calls: seq<Call>)
    requires Sound(st)
    ensures Kept(st, calls) <==> AllowedRun(st, calls)
    decreases |calls|
  {
    if calls != [] {
      hide Sound, Inv, Step, Allowed;
      StepSound(st, calls[0]);
      if Sound(Step(st, calls[0])) { RunExact(Step(st, calls[0]), calls[1..]); }
    }
  }

  lemma StepSound(st: State, call: Call)
    requires Sound(st)
    ensures Sound(Step(st, call)) <==> Allowed(st.m, st.ls, call)
  {
    hide Inv, Step, Allowed;
    StepExact(st, call);
    if Allowed(st.m, st.ls, call) { StepKeeps(st, call); }
  }

  /** Queue integrity over every run: the chains in memory are the lists, every
      task sits in at most one of them, in the one its state, CPU and level say,
      and the alarm queues are sorted. */
  lemma {:induction false} RunKeepsQueues(st: State, calls: seq<Call>)
    requires Sound(st) && AllowedRun(st, calls)
    ensures var end := Run(st, calls);
            && Inv(end.m, end.ls, 0)
            && (forall p, q, t :: p in end.ls && q in end.ls && t in end.ls[p] && t in end.ls[q] ==> p == q)
            && (forall p, t :: p in end.ls && t in end.ls[p] ==> t in end.m.tcb && AtHome(end.m.tcb[t], p))
            && (forall c :: Sleeping(c) in end.ls ==>
                  (forall t :: t in end.ls[Sleeping(c)] ==> t in end.m.tcb) && Sorted(end.m.tcb, end.ls[Sleeping(c)]))
    decreases |calls|
  {
    if calls == [] {
      forall p | p in st.ls ensures Holds(st.m, p, st.ls[p], 0) {}
      forall p, t | p in st.ls && t in st.ls[p] ensures t in st.m.tcb && t != 0 && AtHome(st.m.tcb[t], p) {
        assert Holds(st.m, p, st.ls[p], 0);
      }
    } else {
      hide Inv, Step, Sound, Allowed;
      StepKeeps(st, calls[0]);
      RunKeepsQueues(Step(st, calls[0]), calls[1..]);
    }
  }

  // ---------------------------------------------------------------- who sleeps in front of whom

  ghost predicate Precedes(s: seq<nat>, x: nat, y: nat) {
    exists i, j :: 0 <= i < j < |s| && s[i] == x && s[j] == y
  }

  lemma CutOrder(s: seq<nat>, t: nat, x: nat, y: nat)
    requires NoDup(s) && Precedes(s, x, y) && x in Cut(s, t) && y in Cut(s, t)
    ensures Precedes(Cut(s, t), x, y)
  {
    var w := Cut(s, t);
    var i, j :| 0 <= i < j < |s| && s[i] == x && s[j] == y;
    if t in s {
      var k := IndexOf(s, t);
      CutMisses(s, t);
      assert i != k && j != k;
      assert w[if i < k then i else i - 1] == x && w[if j < k then j else j - 1] == y;
    }
  }

  lemma CutMisses(s: seq<nat>, t: nat)
    requires NoDup(s) && t in s
    ensures t !in Cut(s, t)
  {
  }

  lemma SplicedOrder(s: seq<nat>, k: nat, t: nat, x: nat, y: nat)
    requires k <= |s| && Precedes(s, x, y)
    ensures Precedes(Spliced(s, k, t), x, y)
  {
    var w := Spliced(s, k, t);
    var i, j :| 0 <= i < j < |s| && s[i] == x && s[j] == y;
    assert w[if i < k then i else i + 1] == x && w[if j < k then j else j + 1] == y;
  }

  /** What a call does to an alarm queue. */
  ghost predicate Shifted(s: seq<nat>, w: seq<nat>) {
    || s == w
    || (exists t :: w == Cut(s, t))
    || (exists k: nat, t :: k <= |s| && w == Spliced(s, k, t))
  }

  lemma ShiftedOrder(s: seq<nat>, w: seq<nat>, x: nat, y: nat)
    requires NoDup(s) && Shifted(s, w) && Precedes(s, x, y) && x in w && y in w
    ensures Precedes(w, x, y)
  {
    hide Cut, Spliced, NoDup, Precedes;
    if t :| w == Cut(s, t) {
      CutOrder(s, t, x, y);
    } else if k: nat, t :| k <= |s| && w == Spliced(s, k, t) {
      SplicedOrder(s, k, t, x, y);
    }
  }

  lemma StepShifts(st: State, call: Call, c: nat)
    requires Sound(st) && Allowed(st.m, st.ls, call) && Sleeping(c) in st.ls
    ensures Sleeping(c) in Step(st, call).ls && Shifted(st.ls[Sleeping(c)], Step(st, call).ls[Sleeping(c)])
  {
    hide Inv, Behind, Listed, AddMem, RemoveMem, AwakeMem, BlockMem, DelayMem, PickMem, PickLists, Cut, Spliced, SleepPlace;
    var m, ls, p := st.m, st.ls, Sleeping(c);
    match call
    case Add(t) => if Valid(m, t) { AwakeIsReady(m, ls, t); }
    case Remove(t) => if Valid(m, t) { AwakeIsReady(m, ls, t); assert Step(st, call).ls[p] == Cut(ls[p], t); }
    case Awake(t) => if Valid(m, t) { AwakeIsReady(m, ls, t); AwakeShifts(m, ls, t, p); }
    case Block(t) =>
      if Valid(m, t) && m.tcb[t].state.Running? {
        BlockKeeps(m, ls, t);
        assert Step(st, call).ls[p] == Cut(ls[p], t);
      }
    case Delay(t, usec) =>
      if Valid(m, t) && m.tcb[t].state.Running? {
        DelayKeeps(m, ls, t, usec);
        DelayShifts(m, ls, t, usec, p);
      }
    case PickNext(d, _, _) => if d < |m.ccb| { PickShifts(m, ls, d, p); }
    case Tick(d, delta) =>
  }

  lemma AwakeShifts(m: Mem, ls: Lists, t: nat, p: Place)
    requires t in m.tcb && Home(m.tcb[t]) in ls && p in ls && p.Sleeping?
    ensures p in AwakeLists(m, ls, t) && Shifted(ls[p], AwakeLists(m, ls, t)[p])
  {
    hide Cut, Spliced;
    if !m.tcb[t].state.Running? { assert AwakeLists(m, ls, t)[p] == Cut(ls[p], t); }
  }

  lemma DelayShifts(m: Mem, ls: Lists, t: nat, usec: nat, p: Place)
    requires Valid(m, t) && Sleeping(m.tcb[t].cpuid) in ls && p in ls
    requires forall x :: x in ls[Sleeping(m.tcb[t].cpuid)] ==> x in m.tcb
    ensures p in DelayLists(m, ls, t, usec) && Shifted(ls[p], DelayLists(m, ls, t, usec)[p])
  {
    hide Cut, Spliced, SleepPlace;
    if p == Sleeping(m.tcb[t].cpuid) {
      assert DelayLists(m, ls, t, usec)[p] == Spliced(ls[p], SleepPlace(m, ls[p], t, usec), t);
    } else {
      assert DelayLists(m, ls, t, usec)[p] == Cut(ls[p], t);
    }
  }

  lemma PickShifts(m: Mem, ls: Lists, c: nat, p: Place)
    requires Inv(m, ls, 0) && c < |m.ccb| && !Slips(m, c) && p in ls && p.Sleeping?
    ensures p in PickLists(m, ls, c) && Shifted(ls[p], PickLists(m, ls, c)[p])
  {
    IsShaped(m, ls, 0);
    hide Inv, Found, Due, Shifted, AwakeLists, AwakeMem;
    TimerMapped(m, ls, c);
    var due := Due(m, c);
    var (f, b) := Found(m.ccb[c], due);
    FoundKeeps(m, ls, c, due);
    var m0 := WithCcb(m, c, b);
    IsShaped(m0, ls, 0);
    StaysShifted(ls[p]);
    DueIsPriority(m, c);
    if f.Some? && due == f {
      HeadSleeper(m0, ls, c);
      AwakeKeeps(m0, ls, b.timer);
      AwakeShifts(m0, ls, b.timer, p);
    }
  }

  lemma StaysShifted(s: seq<nat>)
    ensures Shifted(s, s)
  {
  }

  /** x and y sleep on CPU c from the start to the end of the calls. */
  ghost predicate Asleep(st: State, calls: seq<Call>, c: nat, x: nat, y: nat)
    requires Sound(st) && AllowedRun(st, calls)
    decreases |calls|
  {
    Sleeping(c) in st.ls && x in st.ls[Sleeping(c)] && y in st.ls[Sleeping(c)] &&
    (calls != [] ==> (StepKeeps(st, calls[0]); Asleep(Step(st, calls[0]), calls[1..], c, x, y)))
  }

  /** Sleepers never overtake each other. */
  lemma {:induction false} NobodyOvertakes(st: State, calls: seq<Call>, c: nat, x: nat, y: nat)
    requires Sound(st) && AllowedRun(st, calls) && Asleep(st, calls, c, x, y)
    requires Precedes(st.ls[Sleeping(c)], x, y)
    ensures Sleeping(c) in Run(st, calls).ls && Precedes(Run(st, calls).ls[Sleeping(c)], x, y)
    decreases |calls|
  {
    if calls != [] {
      SleepersDiffer(st.m, st.ls, c);
      hide Inv, Step, Precedes, Allowed, Shifted;
      StepKeeps(st, calls[0]);
      StepShifts(st, calls[0], c);
      ShiftedOrder(st.ls[Sleeping(c)], Step(st, calls[0]).ls[Sleeping(c)], x, y);
      NobodyOvertakes(Step(st, calls[0]), calls[1..], c, x, y);
    }
  }

  lemma SleepersDiffer(m: Mem, ls: Lists, c: nat)
    requires Inv(m, ls, 0) && Sleeping(c) in ls
    ensures NoDup(ls[Sleeping(c)])
  {
    assert Holds(m, Sleeping(c), ls[Sleeping(c)], 0);
  }

  /** A task put to sleep stands behind every sleeper due no later, those due at the
      same time included, and in front of the others. */
  lemma DelayTakesPlace(m: Mem, ls: Lists, t: nat, usec: nat, x: nat)
    requires Inv(m, ls, 0) && Valid(m, t) && m.tcb[t].state.Running?
    ensures var p := Sleeping(m.tcb[t].cpuid);
            p in ls && (forall z :: z in ls[p] ==> z in m.tcb)
            && var w := DelayLists(m, ls, t, usec)[p];
               var a := WakeTime(Rewound(m.ccb, p.cpu)[p.cpu], usec);
               x in ls[p] ==> if m.tcb[x].alarm <= a then Precedes(w, x, t) else Precedes(w, t, x)
  {
    hide Inv, WakeTime, Rewound, Cut, Spliced, Precedes, Sorted, Shaped, Mapped, RemoveMem, LaterThan;
    NotAsleep(m, ls, t);
    var p := Sleeping(m.tcb[t].cpuid);
    SleepersSorted(m, ls, p.cpu);
    if x in ls[p] { PlaceAmong(m.tcb, ls[p], t, x, WakeTime(Rewound(m.ccb, p.cpu)[p.cpu], usec)); }
  }

  lemma PlaceAmong(tcb: map<nat, Task>, s: seq<nat>, t: nat, x: nat, a: nat)
    requires (forall z :: z in s ==> z in tcb) && Sorted(tcb, s) && x in s
    ensures var w := Spliced(s, LaterThan(tcb, s, a, 0), t);
            if tcb[x].alarm <= a then Precedes(w, x, t) else Precedes(w, t, x)
  {
    var k := LaterThan(tcb, s, a, 0);
    var i :| 0 <= i < |s| && s[i] == x;
    if k < i { assert tcb[s[k]].alarm <= tcb[s[i]].alarm; }
    hide LaterThan, Sorted;
    SplicedAmong(s, k, t, i);
  }

  lemma SplicedAmong(s: seq<nat>, k: nat, t: nat, i: nat)
    requires k <= |s| && i < |s|
    ensures if i < k then Precedes(Spliced(s, k, t), s[i], t) else Precedes(Spliced(s, k, t), t, s[i])
  {
    var w := Spliced(s, k, t);
    assert w[k] == t && w[if i < k then i else i + 1] == s[i];
  }

  lemma SleepersSorted(m: Mem, ls: Lists, c: nat)
    requires Inv(m, ls, 0) && Sleeping(c) in ls
    ensures (forall x :: x in ls[Sleeping(c)] ==> x in m.tcb) && Sorted(m.tcb, ls[Sleeping(c)])
  {
    assert Holds(m, Sleeping(c), ls[Sleeping(c)], 0);
  }

  lemma DelayStep(st: State, t: nat, usec: nat)
    requires Sound(st) && Valid(st.m, t) && st.m.tcb[t].state.Running?
    ensures var p := Sleeping(st.m.tcb[t].cpuid);
            p in st.ls && (forall z :: z in st.ls[p] ==> z in st.m.tcb)
            && Step(st, Delay(t, usec)).ls == DelayLists(st.m, st.ls, t, usec)
  {
    hide Inv, DelayLists, DelayMem;
    DelayKeeps(st.m, st.ls, t, usec);
  }

  /** First come, first served: whoever sleeps when another is put to sleep, and is due
      no later, is in front of it for as long as both sleep. */
  lemma FirstComeFirst(st: State, t: nat, usec: nat, next: State, calls: seq<Call>, x: nat)
    requires Sound(st) && Valid(st.m, t) && st.m.tcb[t].state.Running?
    requires next == Step(st, Delay(t, usec)) && Sound(next) && AllowedRun(next, calls)
    requires var c := st.m.tcb[t].cpuid;
             && Sleeping(c) in st.ls && x in st.ls[Sleeping(c)] && x in st.m.tcb
             && st.m.tcb[x].alarm <= WakeTime(Rewound(st.m.ccb, c)[c], usec)
             && Asleep(next, calls, c, x, t)
    ensures var c, end := st.m.tcb[t].cpuid, Run(next, calls);
            Sleeping(c) in end.ls && Precedes(end.ls[Sleeping(c)], x, t)
  {
    hide Inv, DelayLists, DelayMem, WakeTime, Rewound, Precedes, Sorted, NoDup, Listed, SameButLinks, Shaped, Mapped;
    DelayTakesPlace(st.m, st.ls, t, usec, x);
    DelayStep(st, t, usec);
    NobodyOvertakes(next, calls, st.m.tcb[t].cpuid, x, t);
  }
}
