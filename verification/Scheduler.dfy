/** The scheduler calls as the kernel runs them: links, heads and cursors
    written one after the other. */
module Scheduler {
  import opened Queues
  import opened Sched
  import opened Odometer
  import opened Pick
  import Sleepers

  /** One step along a list. */
  lemma WalkOn(m: Mem, ls: Lists, f: nat, p: Place, k: nat)
    requires Inv(m, ls, f) && p in ls && k < |ls[p]|
    ensures ls[p][k] in m.tcb && m.tcb[ls[p][k]].next == At(ls[p], k + 1)
    ensures At(ls[p], k + 1) != 0 ==> k + 1 < |ls[p]| && At(ls[p], k + 1) in ls[p]
  {
    InListedTask(m, ls, f, p, k);
  }

  lemma EndOfWalk(m: Mem, ls: Lists, f: nat, p: Place, k: nat)
    requires Inv(m, ls, f) && p in ls && k <= |ls[p]|
    ensures At(ls[p], k) == 0 <==> k == |ls[p]|
    ensures At(ls[p], k - 1) == 0 <==> k == 0
  {
    if k < |ls[p]| { InListedTask(m, ls, f, p, k); }
    if k > 0 { InListedTask(m, ls, f, p, k - 1); }
  }

  lemma EmptyHolds(cpus: nat, tasks: map<nat, Task>, p: Place)
    requires IsPlace(cpus, p)
    ensures var z := seq(LEVELS, _ => 0);
            var m := Mem(tasks, seq(cpus, _ => Ccb(z, z, 0, 0, 0, 0)));
            Shaped(m.ccb) && Holds(m, p, [], 0)
  {
  }

  function NoLists(cpus: nat): (ls: Lists)
    ensures forall p :: p in ls <==> IsPlace(cpus, p)
    ensures forall p :: p in ls ==> ls[p] == []
  {
    var active := map c, l | 0 <= c < cpus && 0 <= l < LEVELS :: Active(c, l) := [];
    var waiting := map c | 0 <= c < cpus :: Waiting(c) := [];
    var sleeping := map c | 0 <= c < cpus :: Sleeping(c) := [];
    active + waiting + sleeping
  }

  lemma NothingQueued(cpus: nat, tasks: map<nat, Task>)
    requires 0 !in tasks && forall t :: t in tasks ==> tasks[t].prev == 0 && tasks[t].next == 0
    ensures var z := seq(LEVELS, _ => 0);
            Inv(Mem(tasks, seq(cpus, _ => Ccb(z, z, 0, 0, 0, 0))), NoLists(cpus), 0)
  {
    hide NoLists, Holds;
    var z := seq(LEVELS, _ => 0);
    var m, ls := Mem(tasks, seq(cpus, _ => Ccb(z, z, 0, 0, 0, 0))), NoLists(cpus);
    assert |m.ccb| == cpus && Shaped(m.ccb);
    forall p | p in ls ensures Holds(m, p, ls[p], 0) { EmptyHolds(cpus, tasks, p); }
  }

  ghost predicate SomeBelow(b: Ccb, i: nat)
    requires |b.active| == LEVELS && i <= PRI_IDLE
  {
    exists j :: 0 <= j < i && b.active[j] != 0
  }

  lemma NoneYet(b: Ccb)
    requires |b.active| == LEVELS
    ensures !SomeBelow(b, 0)
  {
  }

  lemma SomeNext(b: Ccb, i: nat)
    requires |b.active| == LEVELS && i < PRI_IDLE
    ensures SomeBelow(b, i + 1) <==> SomeBelow(b, i) || b.active[i] != 0
  {
  }

  lemma SomeAtAll(b: Ccb)
    requires |b.active| == LEVELS
    ensures SomeBelow(b, PRI_IDLE) <==> NonEmpty(b)
  {
  }

  lemma SweepUnfold(b: Ccb, due: Option<nat>, i: nat)
    requires |b.active| == LEVELS && |b.cursor| == LEVELS && i < PRI_IDLE
    ensures Sweep(b, due, i)
         == if due == Some(i) then (Some(i), b)
            else if b.active[i] == 0 then Sweep(b, due, i + 1)
            else if b.cursor[i] != 0 then (Some(i), b)
            else Sweep(b.(cursor := b.cursor[i := b.active[i]]), due, i + 1)
  {
  }

  lemma SweepEnd(b: Ccb, due: Option<nat>)
    requires |b.active| == LEVELS && |b.cursor| == LEVELS
    ensures Sweep(b, due, PRI_IDLE) == (None, b)
  {
  }

  lemma DelayAlarm(m: Mem, ls: Lists, t: nat, usec: nat)
    requires Inv(m, ls, 0) && Valid(m, t) && m.tcb[t].state.Running?
    ensures Shaped(m.ccb) && Mapped(Marked(m, t, Blocked, m.tcb[t].alarm).tcb, t)
    ensures var p := Sleeping(m.tcb[t].cpuid); var r := RemoveMem(Marked(m, t, Blocked, m.tcb[t].alarm), t);
            && p in DropLists(ls, t)
            && Valid(r, t) && Shaped(r.ccb) && (forall x :: x in DropLists(ls, t)[p] ==> x in r.tcb)
            && var m' := SleepMem(r, DropLists(ls, t)[p], t, usec);
               t in m'.tcb && m'.tcb[t].alarm == (Sleepers.Start(m, p.cpu) + usec) % WORD
               && p.cpu < |m'.ccb| && m'.ccb[p.cpu].ticks == Sleepers.Start(m, p.cpu)
  {
    hide Inv, RemoveMem, SleepMem, DropLists, DelayLists, Delayed;
    DelayEffect(m, ls, t, usec);
    NotAsleep(m, ls, t);
    Sleepers.DelaySleeps(m, ls, t, usec);
  }

  class Scheduler {
    var tcb: map<nat, Task>
    var ccb: seq<Ccb>
    ghost var ls: Lists

    ghost function Memory(): Mem
      reads this
    {
      Mem(tcb, ccb)
    }

    ghost predicate Ok()
      reads this
    {
      Inv(Memory(), ls, 0)
    }

    /** Freshly started CPUs with empty queues, and tasks in no queue yet. */
    constructor (cpus: nat, tasks: map<nat, Task>)
      requires 0 !in tasks
      requires forall t :: t in tasks ==> tasks[t].prev == 0 && tasks[t].next == 0
      ensures Ok() && tcb == tasks && |ccb| == cpus
      ensures forall p :: p in ls ==> ls[p] == []
    {
      var z := seq(LEVELS, _ => 0);
      tcb := tasks;
      ccb := seq(cpus, _ => Ccb(z, z, 0, 0, 0, 0));
      ls := NoLists(cpus);
      new;
      NothingQueued(cpus, tasks);
    }

    method SetPrev(t: nat, v: nat)
      requires t in tcb
      modifies this`tcb
      ensures tcb == WithPrev(old(tcb), t, v)
    {
      tcb := tcb[t := tcb[t].(prev := v)];
    }

    method SetNext(t: nat, v: nat)
      requires t in tcb
      modifies this`tcb
      ensures tcb == WithNext(old(tcb), t, v)
    {
      tcb := tcb[t := tcb[t].(next := v)];
    }

    /** The lines of sched_add after its parameter check. */
    method Enqueue(t: nat)
      requires Valid(Memory(), t) && Shaped(ccb)
      requires var h := Head(ccb, Home(tcb[t])); h == 0 || h in tcb
      modifies this`tcb, this`ccb
      ensures Memory() == AddMem(old(Memory()), t)
      ensures |ccb| == |old(ccb)| && Shaped(ccb)
    {
      var c, l := tcb[t].cpuid, tcb[t].priority;
      tcb := tcb[t := tcb[t].(state := Running)];
      SetPrev(t, 0);
      SetNext(t, ccb[c].active[l]);
      ccb := ccb[c := ccb[c].(active := ccb[c].active[l := t])];
      if tcb[t].next != 0 {
        SetPrev(tcb[t].next, t);
      }
    }

    method Add(t: nat)
      requires Ok() && t in tcb && !Listed(ls, t)
      modifies this
      ensures Ok()
      ensures !Valid(old(Memory()), t) ==> Memory() == old(Memory()) && ls == old(ls)
      ensures Valid(old(Memory()), t) ==>
                && AwakeReady(old(Memory()), t) && Home(old(tcb)[t]) in old(ls)
                && Memory() == AddMem(old(Memory()), t)
                && ls == PushLists(old(ls), Home(old(tcb)[t]), t)
    {
      hide Inv, AddMem, PushLists, Listed, Mapped;
      if tcb[t].priority > PRI_IDLE || tcb[t].cpuid >= |ccb| { return; }
      ghost var m, l0 := Memory(), ls;
      AwakeIsReady(m, l0, t);
      Unsettle(m, l0, t);
      AddKeeps(m, l0, t);
      Enqueue(t);
      ls := PushLists(l0, Home(m.tcb[t]), t);
    }

    /** The links of t's neighbours pointed past it. */
    method Unlink(t: nat)
      requires Mapped(tcb, t)
      modifies this`tcb
      ensures tcb == Bypassed(old(tcb), t)
    {
      if tcb[t].prev != 0 {
        SetNext(tcb[t].prev, tcb[t].next);
      }
      if tcb[t].next != 0 {
        SetPrev(tcb[t].next, tcb[t].prev);
      }
    }

    /** The lines of sched_remove after its parameter check. */
    method Dequeue(t: nat)
      requires Valid(Memory(), t) && Shaped(ccb) && Mapped(tcb, t)
      modifies this`tcb, this`ccb
      ensures Memory() == RemoveMem(old(Memory()), t)
    {
      var c, l, x := tcb[t].cpuid, tcb[t].priority, tcb[t].next;
      if ccb[c].active[l] == t { ccb := ccb[c := ccb[c].(active := ccb[c].active[l := x])]; }
      if ccb[c].cursor[l] == t { ccb := ccb[c := ccb[c].(cursor := ccb[c].cursor[l := x])]; }
      if ccb[c].blocked == t { ccb := ccb[c := ccb[c].(blocked := x)]; }
      if ccb[c].timer == t { ccb := ccb[c := ccb[c].(timer := x)]; }
      Unlink(t);
      tcb := tcb[t := tcb[t].(prev := 0, next := 0)];
    }

    method Remove(t: nat)
      requires Ok() && t in tcb && !Behind(ls, t)
      modifies this
      ensures Ok()
      ensures !Valid(old(Memory()), t) ==> Memory() == old(Memory()) && ls == old(ls)
      ensures Valid(old(Memory()), t) ==>
                Shaped(old(ccb)) && Mapped(old(tcb), t) && Memory() == RemoveMem(old(Memory()), t)
                && ls == DropLists(old(ls), t) && !Listed(ls, t)
    {
      if tcb[t].priority > PRI_IDLE || tcb[t].cpuid >= |ccb| { return; }
      ghost var m, l0 := Memory(), ls;
      TakenOut(m, l0, t);
      Dequeue(t);
      ls := DropLists(l0, t);
      Settle(Memory(), ls, t);
    }

    method Awake(t: nat)
      requires Ok() && t in tcb && !Behind(ls, t)
      requires Valid(Memory(), t) && tcb[t].state.Running? ==> Listed(ls, t)
      modifies this
      ensures Ok()
      ensures !Valid(old(Memory()), t) ==> Memory() == old(Memory()) && ls == old(ls)
      ensures Valid(old(Memory()), t) ==>
                && AwakeReady(old(Memory()), t) && Home(old(tcb)[t]) in old(ls)
                && Memory() == AwakeMem(old(Memory()), t)
                && ls == AwakeLists(old(Memory()), old(ls), t)
    {
      hide Inv, AddMem, Listed, Behind, PushLists, DropLists;
      if tcb[t].priority > PRI_IDLE || tcb[t].cpuid >= |ccb| { return; }
      ghost var m, l0 := Memory(), ls;
      AwakeKeeps(m, l0, t);
      var c, l := tcb[t].cpuid, tcb[t].priority;
      if tcb[t].state != Running {
        Rouse(t);
        hide WokenMem;
        Enqueue(t);
      }
      ccb := ccb[c := ccb[c].(cursor := ccb[c].cursor[l := t])];
      ls := AwakeLists(m, l0, t);
    }

    /** The lines of sched_awake that take t out of the blocked or alarm queue. */
    method Rouse(t: nat)
      requires Valid(Memory(), t) && Shaped(ccb) && Mapped(tcb, t)
      modifies this`tcb, this`ccb
      ensures Memory() == WokenMem(old(Memory()), t)
    {
      var c, x := tcb[t].cpuid, tcb[t].next;
      var first := ccb[c].timer == t;
      if ccb[c].blocked == t { ccb := ccb[c := ccb[c].(blocked := x)]; }
      if ccb[c].timer == t { ccb := ccb[c := ccb[c].(timer := x)]; }
      Unlink(t);
      if first { tcb := tcb[t := tcb[t].(alarm := 0)]; }
    }

    method Block(t: nat)
      requires Ok() && t in tcb
      modifies this
      ensures Ok()
      ensures !(Valid(old(Memory()), t) && old(tcb)[t].state.Running?) ==> Memory() == old(Memory()) && ls == old(ls)
      ensures Valid(old(Memory()), t) && old(tcb)[t].state.Running? ==>
                Halted(old(Memory()), old(ls), Memory(), ls, t)
    {
      hide Inv, RemoveMem, PushMem, BlockLists, Listed, Marked, Holds, Mapped, Halted;
      if tcb[t].priority > PRI_IDLE || tcb[t].cpuid >= |ccb| || tcb[t].state != Running { return; }
      ghost var m, l0 := Memory(), ls;
      BlockEffect(m, l0, t);
      Retire(t);
      PushWaiting(tcb[t].cpuid, t);
      ls := BlockLists(m, l0, t);
    }

    /** A running task marked blocked and taken out of its queue. */
    method Retire(t: nat)
      requires Ok() && Valid(Memory(), t) && tcb[t].state == Running
      modifies this`tcb, this`ccb
      ensures var m1 := Marked(old(Memory()), t, Blocked, old(tcb)[t].alarm);
              && Shaped(m1.ccb) && Mapped(m1.tcb, t) && Memory() == RemoveMem(m1, t)
              && Inv(Memory(), DropLists(old(ls), t), t)
              && !Listed(DropLists(old(ls), t), t)
      ensures Valid(Memory(), t) && tcb[t].cpuid == old(tcb)[t].cpuid && tcb[t].prev == 0
      ensures Shaped(ccb) && |ccb| == |old(ccb)| && tcb.Keys == old(tcb).Keys
    {
      hide Inv, DropLists, Listed, Bypassed;
      ghost var m := Memory();
      RetiredKeeps(m, ls, t);
      tcb := tcb[t := tcb[t].(state := Blocked)];
      assert Memory() == Marked(m, t, Blocked, m.tcb[t].alarm);
      Dequeue(t);
      IsShaped(Memory(), DropLists(ls, t), t);
    }

    method PushWaiting(c: nat, t: nat)
      requires c < |ccb| && Shaped(ccb) && t in tcb && tcb[t].prev == 0
      requires Head(ccb, Waiting(c)) == 0 || Head(ccb, Waiting(c)) in tcb
      modifies this`tcb, this`ccb
      ensures Memory() == PushMem(old(Memory()), Waiting(c), t)
    {
      SetNext(t, ccb[c].blocked);
      SetPrev(t, 0);
      assert tcb == WithNext(WithPrev(old(tcb), t, 0), t, ccb[c].blocked);
      if ccb[c].blocked != 0 {
        SetPrev(ccb[c].blocked, t);
      }
      ccb := ccb[c := ccb[c].(blocked := t)];
    }

    method Delay(t: nat, usec: nat)
      requires Ok() && t in tcb
      modifies this
      ensures Ok()
      ensures !(Valid(old(Memory()), t) && old(tcb)[t].state.Running?) ==> Memory() == old(Memory()) && ls == old(ls)
      ensures Valid(old(Memory()), t) && old(tcb)[t].state.Running? ==>
                Delayed(old(Memory()), old(ls), Memory(), ls, t, usec)
                && var c := old(tcb)[t].cpuid;
                   var start := if old(ccb)[c].timer == 0 then 0 else old(ccb)[c].ticks;
                   t in tcb && tcb[t].alarm == (start + usec) % WORD && c < |ccb| && ccb[c].ticks == start
    {
      hide Inv, RemoveMem, SleepMem, DelayLists, DropLists, Listed, Marked, Mapped, Delayed;
      if tcb[t].priority > PRI_IDLE || tcb[t].cpuid >= |ccb| || tcb[t].state != Running { return; }
      ghost var m, l0 := Memory(), ls;
      DelayEffect(m, l0, t, usec);
      DelayAlarm(m, l0, t, usec);
      Retire(t);
      SetAlarm(t, usec, DropLists(l0, t));
      ls := DelayLists(m, l0, t, usec);
    }

    /** The clock restarts when nobody waits for it. */
    method Rewind(c: nat)
      requires c < |ccb|
      modifies this`ccb
      ensures ccb == Rewound(old(ccb), c)
    {
      if ccb[c].timer == 0 { ccb := ccb[c := ccb[c].(ticks := 0)]; }
    }

    /** The lines of sched_delay that give t its wake time and chain it into the
        alarm queue. */
    method SetAlarm(t: nat, usec: nat, ghost l0: Lists)
      requires Inv(Memory(), l0, t) && Valid(Memory(), t) && !Listed(l0, t)
      requires Sleeping(tcb[t].cpuid) in l0 && Shaped(ccb)
      requires forall x :: x in l0[Sleeping(tcb[t].cpuid)] ==> x in tcb
      modifies this`tcb, this`ccb
      ensures Memory() == SleepMem(old(Memory()), l0[Sleeping(old(tcb)[t].cpuid)], t, usec)
    {
      hide Inv, Listed, Rewound, LaterThan;
      ghost var m := Memory();
      var c := tcb[t].cpuid;
      UnlistedAnywhere(l0, t);
      Rewind(c);
      RewoundKeeps(m, l0, t, c);
      var alarm := (ccb[c].ticks + usec) % WORD;
      var prev, next := FindPlace(c, t, alarm, l0);
      tcb := tcb[t := tcb[t].(alarm := alarm)];
      Chain(c, t, prev, next);
    }

    /** The new sleeper chained between its neighbours. */
    method Chain(c: nat, t: nat, prev: nat, next: nat)
      requires c < |ccb| && t in tcb && (prev == 0 || prev in tcb) && Shaped(ccb)
      modifies this`tcb, this`ccb
      ensures tcb == Inserted(old(tcb), t, prev, next)
      ensures ccb == if prev == 0 then WithHead(old(ccb), Sleeping(c), t) else old(ccb)
    {
      SetNext(t, next);
      if prev != 0 {
        SetNext(prev, t);
      } else {
        ccb := ccb[c := ccb[c].(timer := t)];
      }
    }

    /** The walk along the alarm queue, up to the first sleeper due later. */
    method FindPlace(c: nat, ghost t: nat, alarm: nat, ghost l0: Lists) returns (prev: nat, next: nat)
      requires Inv(Memory(), l0, t) && c < |ccb| && Sleeping(c) in l0
      requires forall x :: x in l0[Sleeping(c)] ==> x in tcb
      ensures var s := l0[Sleeping(c)]; var i := LaterThan(tcb, s, alarm, 0);
              && prev == At(s, i - 1) && next == At(s, i)
              && (prev == 0 <==> i == 0) && (prev != 0 ==> prev in s)
    {
      ghost var m, s := Memory(), l0[Sleeping(c)];
      HeadInList(m, l0, t, Sleeping(c));
      hide Inv;
      prev, next := 0, ccb[c].timer;
      ghost var k := 0;
      while next != 0
        invariant 0 <= k <= |s| && next == At(s, k) && prev == At(s, k - 1)
        invariant next != 0 ==> k < |s| && next in s
        invariant prev != 0 ==> k > 0 && prev in s
        invariant LaterThan(tcb, s, alarm, 0) == LaterThan(tcb, s, alarm, k)
        decreases |s| - k
      {
        if alarm < tcb[next].alarm { break; }
        assert alarm >= tcb[s[k]].alarm;
        WalkOn(m, l0, t, Sleeping(c), k);
        prev := next;
        next := tcb[next].next;
        k := k + 1;
      }
      EndOfWalk(m, l0, t, Sleeping(c), k);
      assert k == LaterThan(tcb, s, alarm, 0);
    }

    /** The clock of the alarm queue, advanced by the scheduler interrupt. */
    method Tick(c: nat, delta: nat)
      requires Ok() && c < |ccb|
      modifies this`ccb
      ensures Ok() && tcb == old(tcb) && ls == old(ls)
      ensures ccb == old(ccb)[c := old(ccb)[c].(ticks := (old(ccb)[c].ticks + delta) % WORD)]
    {
      ghost var m := Memory();
      ccb := ccb[c := ccb[c].(ticks := (ccb[c].ticks + delta) % WORD)];
      forall p | p in ls ensures Holds(Memory(), p, ls[p], 0) {
        assert Holds(m, p, ls[p], 0);
      }
    }

    /** One pass of the loop over the levels. */
    method Pass(c: nat, due: Option<nat>) returns (found: Option<nat>, nonempty: bool)
      requires c < |ccb| && Shaped(ccb)
      modifies this`ccb
      ensures ccb == old(ccb)[c := Sweep(old(ccb)[c], due, 0).1] && Shaped(ccb)
      ensures found == Sweep(old(ccb)[c], due, 0).0
      ensures found.None? ==> nonempty == NonEmpty(old(ccb)[c])
    {
      hide Sweep, NonEmpty;
      ghost var b := ccb[c];
      found, nonempty := None, false;
      var i := 0;
      NoneYet(b);
      while i < PRI_IDLE && found.None?
        invariant i <= PRI_IDLE && Shaped(ccb) && |ccb| == |old(ccb)| && ccb == old(ccb)[c := ccb[c]]
        invariant ccb[c].active == b.active
        invariant found.None? ==> Sweep(b, due, 0) == Sweep(ccb[c], due, i) && nonempty == SomeBelow(b, i)
        invariant found.Some? ==> Sweep(b, due, 0) == (found, ccb[c])
        decreases PRI_IDLE - i, found.None?
      {
        SweepUnfold(ccb[c], due, i);
        SomeNext(b, i);
        if due == Some(i) {
          found := Some(i);
        } else {
          if ccb[c].active[i] != 0 {
            nonempty := true;
            if ccb[c].cursor[i] != 0 {
              found := Some(i);
            } else {
              ccb := ccb[c := ccb[c].(cursor := ccb[c].cursor[i := ccb[c].active[i]])];
            }
          }
          if found.None? { i := i + 1; }
        }
      }
      SweepEnd(ccb[c], due);
      SomeAtAll(b);
    }

    /** The passes of sched_pick: none is needed after the second. */
    method Search(c: nat, due: Option<nat>) returns (found: Option<nat>)
      requires c < |ccb| && Shaped(ccb)
      modifies this`ccb
      ensures ccb == old(ccb)[c := Found(old(ccb)[c], due).1]
      ensures found == Found(old(ccb)[c], due).0
    {
      ghost var b := ccb[c];
      TwoPasses(b, due);
      var nonempty := true;
      found := None;
      ghost var pass := 0;
      while found.None? && nonempty
        invariant 0 <= pass <= 2 && Shaped(ccb) && |ccb| == |old(ccb)| && ccb == old(ccb)[c := ccb[c]]
        invariant pass == 0 ==> found.None? && nonempty && ccb[c] == b
        invariant pass == 1 ==> (found, ccb[c]) == Sweep(b, due, 0) && (found.None? ==> nonempty == NonEmpty(b))
        invariant pass == 2 ==> found.Some? && NonEmpty(b) && Sweep(b, due, 0).0.None?
                                && (found, ccb[c]) == Sweep(Sweep(b, due, 0).1, due, 0)
        decreases 2 - pass
      {
        found, nonempty := Pass(c, due);
        pass := pass + 1;
      }
    }

    /** For a pick that wakes a head with nobody behind it, or nobody at all. */
    method PickNext(c: nat)
      requires Ok() && c < |ccb| && !Slips(Memory(), c)
      modifies this
      ensures Ok()
      ensures Memory() == PickMem(old(Memory()), old(ls), c)
      ensures ls == PickLists(old(Memory()), old(ls), c)
    {
      ghost var m, l0 := Memory(), ls;
      hide Inv, Chosen, RunAt, PickMem, PickLists, Shaped;
      var i := Choose(c);
      PickIs(m, l0, c, i, Memory(), ls);
      Dispatch(c, i);
    }

    /** The task under the cursor of level i runs, and the cursor moves on. */
    method Dispatch(c: nat, i: nat)
      requires Ok() && c < |ccb| && i < LEVELS && Shaped(ccb) && Active(c, i) in ls
      modifies this`ccb
      ensures old(ccb)[c].cursor[i] == 0 || old(ccb)[c].cursor[i] in tcb
      ensures Memory() == RunAt(old(Memory()), c, i)
    {
      hide Inv;
      if ccb[c].cursor[i] == 0 {
        ccb := ccb[c := ccb[c].(current := 0)];
      } else {
        DispatchKeeps(Memory(), ls, c, i);
        var t := ccb[c].cursor[i];
        ccb := ccb[c := ccb[c].(cursor := ccb[c].cursor[i := tcb[t].next])];
        ccb := ccb[c := ccb[c].(current := t)];
      }
    }

    /** The level to run; a due sleeper of that level is woken. */
    method Choose(c: nat) returns (i: nat)
      requires Ok() && c < |ccb| && !Slips(Memory(), c)
      modifies this
      ensures Ok() && c < |ccb| && i < LEVELS && Shaped(ccb) && Active(c, i) in ls
      ensures (i, Memory(), ls) == Chosen(old(Memory()), old(ls), c)
    {
      ghost var m, l0 := Memory(), ls;
      IsShaped(m, l0, 0);
      TimerMapped(m, l0, c);
      hide Inv, Found, Chosen, Slips;
      ChosenKeeps(m, l0, c);
      var h := ccb[c].timer;
      var due := if h != 0 && tcb[h].alarm <= ccb[c].ticks then Some(tcb[h].priority) else None;
      var found := Search(c, due);
      i := GoOn(c, h, due, found, m);
    }

    /** What follows when the sweeps over m are done. */
    method GoOn(c: nat, h: nat, due: Option<nat>, found: Option<nat>, ghost m: Mem) returns (i: nat)
      requires Inv(m, ls, 0) && c < |m.ccb| && Shaped(m.ccb) && !Slips(m, c) && (m.ccb[c].timer == 0 || m.ccb[c].timer in m.tcb)
      requires h == m.ccb[c].timer && due == Due(m, c) && found == Found(m.ccb[c], due).0
      requires Memory() == WithCcb(m, c, Found(m.ccb[c], due).1)
      modifies this
      ensures (i, Memory(), ls) == Chosen(m, old(ls), c)
    {
      hide Inv, Found, Due, Chosen, Slips, AwakeMem, AwakeLists, Behind, Mapped, Head, Listed;
      ChosenIs(m, ls, c, found, Found(m.ccb[c], due).1);
      i := PRI_IDLE;
      if found.Some? {
        i := found.value;
        if due == found {
          Awake(h);
        }
      } else {
        Refill(c, i);
      }
    }

    /** An exhausted cursor goes back to the head of its level. */
    method Refill(c: nat, i: nat)
      requires c < |ccb| && |ccb[c].cursor| == |ccb[c].active| == LEVELS && i < LEVELS && Shaped(ccb)
      modifies this`ccb
      ensures Memory() == if old(ccb)[c].cursor[i] == 0 then Mem(tcb, WithCursor(old(ccb), c, i, old(ccb)[c].active[i]))
                          else old(Memory())
    {
      if ccb[c].cursor[i] == 0 {
        ccb := ccb[c := ccb[c].(cursor := ccb[c].cursor[i := ccb[c].active[i]])];
      }
    }
  }
}
