/** What each scheduler call does to the task control blocks and the CPU
    blocks, and what that means for the lists they hold. */
module Sched {
  import opened Queues

  const WORD: nat := 0x1_0000_0000_0000_0000

  /** The parameter check every call starts with. */
  predicate Valid(m: Mem, t: nat) {
    t in m.tcb && m.tcb[t].priority <= PRI_IDLE && m.tcb[t].cpuid < |m.ccb|
  }

  function Home(k: Task): Place { Active(k.cpuid, k.priority) }

  function WithHead(ccb: seq<Ccb>, p: Place, v: nat): (r: seq<Ccb>)
    requires IsPlace(|ccb|, p) && Shaped(ccb)
    ensures |r| == |ccb| && Shaped(r)
    ensures forall q :: IsPlace(|ccb|, q) ==> Head(r, q) == if q == p then v else Head(ccb, q)
  {
    var b := ccb[p.cpu];
    match p
    case Active(c, l) => ccb[c := b.(active := b.active[l := v])]
    case Waiting(c) => ccb[c := b.(blocked := v)]
    case Sleeping(c) => ccb[c := b.(timer := v)]
  }

  function WithCursor(ccb: seq<Ccb>, c: nat, l: nat, v: nat): (r: seq<Ccb>)
    requires c < |ccb| && l < LEVELS && Shaped(ccb)
    ensures |r| == |ccb| && Shaped(r)
  {
    ccb[c := ccb[c].(cursor := ccb[c].cursor[l := v])]
  }

  // ---------------------------------------------------------------- the calls on memory

  /** Task t chained in front of list p. */
  function PushMem(m: Mem, p: Place, t: nat): Mem
    requires Shaped(m.ccb) && IsPlace(|m.ccb|, p) && t in m.tcb
    requires Head(m.ccb, p) == 0 || Head(m.ccb, p) in m.tcb
  {
    Mem(Pushed(m.tcb, t, Head(m.ccb, p)), WithHead(m.ccb, p, t))
  }

  /** Task t's state and wake time changed. */
  function Marked(m: Mem, t: nat, st: RunState, alarm: nat): Mem
    requires t in m.tcb
  {
    Mem(m.tcb[t := m.tcb[t].(state := st, alarm := alarm)], m.ccb)
  }

  function AddMem(m: Mem, t: nat): Mem
    requires Valid(m, t) && Shaped(m.ccb)
    requires var h := Head(m.ccb, Home(m.tcb[t])); h == 0 || h in m.tcb
  {
    PushMem(Marked(m, t, Running, m.tcb[t].alarm), Home(m.tcb[t]), t)
  }

  /** Every head and cursor that is t moved on to x. */
  function Dropped(b: Ccb, l: nat, t: nat, x: nat): (r: Ccb)
    requires |b.active| == LEVELS && |b.cursor| == LEVELS && l < LEVELS
    ensures |r.active| == LEVELS && |r.cursor| == LEVELS
  {
    Ccb(if b.active[l] == t then b.active[l := x] else b.active,
        if b.cursor[l] == t then b.cursor[l := x] else b.cursor,
        if b.blocked == t then x else b.blocked,
        if b.timer == t then x else b.timer,
        b.ticks, b.current)
  }

  function RemoveMem(m: Mem, t: nat): Mem
    requires Valid(m, t) && Shaped(m.ccb) && Mapped(m.tcb, t)
  {
    var k := m.tcb[t];
    var r := Bypassed(m.tcb, t);
    Mem(r[t := r[t].(prev := 0, next := 0)],
        m.ccb[k.cpuid := Dropped(m.ccb[k.cpuid], k.priority, t, k.next)])
  }

  /** The first half of sched_awake: t taken out of the blocked or alarm queue. */
  function WokenMem(m: Mem, t: nat): Mem
    requires Valid(m, t) && Shaped(m.ccb) && Mapped(m.tcb, t)
  {
    var k := m.tcb[t];
    var b := m.ccb[k.cpuid];
    var r := Bypassed(m.tcb, t);
    Mem(r[t := r[t].(alarm := if b.timer == t then 0 else k.alarm)],
        m.ccb[k.cpuid := b.(blocked := if b.blocked == t then k.next else b.blocked,
                            timer := if b.timer == t then k.next else b.timer)])
  }

  function AwakeMem(m: Mem, t: nat): Mem
    requires Valid(m, t) && Shaped(m.ccb) && Mapped(m.tcb, t)
    requires var h := Head(m.ccb, Home(m.tcb[t])); h == 0 || h in m.tcb
  {
    var k := m.tcb[t];
    var m1 := if k.state.Running? then m else AddMem(WokenMem(m, t), t);
    Mem(m1.tcb, WithCursor(m1.ccb, k.cpuid, k.priority, t))
  }

  function BlockMem(m: Mem, t: nat): Mem
    requires Valid(m, t) && Shaped(m.ccb) && Mapped(m.tcb, t)
    requires var r := RemoveMem(Marked(m, t, Blocked, m.tcb[t].alarm), t); var h := Head(r.ccb, Waiting(m.tcb[t].cpuid));
             h == 0 || h in m.tcb
  {
    PushMem(RemoveMem(Marked(m, t, Blocked, m.tcb[t].alarm), t), Waiting(m.tcb[t].cpuid), t)
  }

  /** The alarm clock restarts when nobody is waiting for it. */
  function Rewound(ccb: seq<Ccb>, c: nat): (r: seq<Ccb>)
    requires c < |ccb|
    ensures |r| == |ccb| && (Shaped(ccb) ==> Shaped(r))
  {
    if ccb[c].timer == 0 then ccb[c := ccb[c].(ticks := 0)] else ccb
  }

  /** The wake time, in the 64-bit counter of the alarm queue. */
  function WakeTime(b: Ccb, usec: nat): nat {
    (b.ticks + usec) % WORD
  }

  /** First entry of the alarm queue due later than `alarm`, or |s|. */
  function LaterThan(tcb: map<nat, Task>, s: seq<nat>, alarm: nat, i: nat): (r: nat)
    requires i <= |s| && forall x :: x in s ==> x in tcb
    ensures i <= r <= |s|
    ensures forall j :: i <= j < r ==> tcb[s[j]].alarm <= alarm
    ensures r < |s| ==> alarm < tcb[s[r]].alarm
    decreases |s| - i
  {
    if i == |s| || alarm < tcb[s[i]].alarm then i else LaterThan(tcb, s, alarm, i + 1)
  }

  /** Task t, already taken out of its queue, put to sleep among the sleepers s. */
  function SleepMem(m: Mem, s: seq<nat>, t: nat, usec: nat): Mem
    requires Valid(m, t) && Shaped(m.ccb)
    requires forall x :: x in s ==> x in m.tcb
  {
    var c := m.tcb[t].cpuid;
    var ccb := Rewound(m.ccb, c);
    var alarm := WakeTime(ccb[c], usec);
    var i := LaterThan(m.tcb, s, alarm, 0);
    assert i > 0 ==> s[i - 1] in s;
    var tcb := m.tcb[t := m.tcb[t].(alarm := alarm)];
    Mem(Inserted(tcb, t, At(s, i - 1), At(s, i)),
        if i == 0 then WithHead(ccb, Sleeping(c), t) else ccb)
  }

  // ---------------------------------------------------------------- the calls on lists

  function IndexOf(s: seq<nat>, t: nat): (k: nat)
    requires t in s
    ensures k < |s| && s[k] == t
  {
    if s[0] == t then 0 else IndexOf(s[1..], t) + 1
  }

  function Cut(s: seq<nat>, t: nat): seq<nat> {
    if t in s then Without(s, IndexOf(s, t)) else s
  }

  /** Task t taken out of whatever list it is in. */
  function DropLists(ls: Lists, t: nat): Lists {
    map p | p in ls :: Cut(ls[p], t)
  }

  function PushLists(ls: Lists, p: Place, t: nat): Lists
    requires p in ls
  {
    ls[p := [t] + ls[p]]
  }

  /** A sleeper that is not at the head of its alarm queue. */
  ghost predicate Behind(ls: Lists, t: nat) {
    exists p :: p in ls && p.Sleeping? && t in ls[p] && ls[p][0] != t
  }

  // ---------------------------------------------------------------- what the calls keep

  ghost predicate Seated(m: Mem, ls: Lists, t: nat)
    requires t in m.tcb
  {
    forall p :: p in ls && t in ls[p] ==>
      p.cpu == m.tcb[t].cpuid && (p.Active? ==> p.level == m.tcb[t].priority)
  }

  lemma HeadInList(m: Mem, ls: Lists, f: nat, p: Place)
    requires Inv(m, ls, f) && p in ls
    ensures IsPlace(|m.ccb|, p) && Shaped(m.ccb)
    ensures Head(m.ccb, p) == At(ls[p], 0)
    ensures Head(m.ccb, p) == 0 || (Head(m.ccb, p) in ls[p] && Head(m.ccb, p) in m.tcb)
  {
    assert Holds(m, p, ls[p], f);
  }

  lemma MarkKeeps(m: Mem, ls: Lists, t: nat, st: RunState, alarm: nat)
    requires Inv(m, ls, t) && t in m.tcb
    requires forall p :: p in ls && t in ls[p] ==> !p.Sleeping?
    ensures Inv(Marked(m, t, st, alarm), ls, t)
  {
    var m' := Marked(m, t, st, alarm);
    forall p | p in ls ensures Holds(m', p, ls[p], t) {
      assert Holds(m, p, ls[p], t);
      forall i | 0 <= i < |ls[p]| ensures Link(m'.tcb, p, ls[p], i) {
        assert Link(m.tcb, p, ls[p], i);
      }
    }
  }

  lemma PushKeeps(m: Mem, ls: Lists, p: Place, t: nat)
    requires Inv(m, ls, t) && t in m.tcb && p in ls && !p.Sleeping? && !Listed(ls, t)
    ensures Head(m.ccb, p) == 0 || Head(m.ccb, p) in m.tcb
    ensures Inv(PushMem(m, p, t), PushLists(ls, p, t), t)
    ensures forall x :: x in m.tcb ==> SameButLinks(m.tcb[x], PushMem(m, p, t).tcb[x])
  {
    HeadInList(m, ls, t, p);
    PushHolds(m, ls, p, t);
    PushTasks(m, ls, p, t);
    hide Holds, Pushed, SameButLinks, Linked;
    PushedOthers(m, ls, p, t);
    hide PushMem, NoDup;
    Relist(m, ls, p, t, [t] + ls[p], PushMem(m, p, t));
  }

  lemma PushedOthers(m: Mem, ls: Lists, p: Place, t: nat)
    requires Shaped(m.ccb) && IsPlace(|m.ccb|, p) && t in m.tcb && (Head(m.ccb, p) == 0 || Head(m.ccb, p) in m.tcb)
    requires forall q :: q in ls ==> IsPlace(|m.ccb|, q)
    ensures var m' := PushMem(m, p, t);
            m'.tcb.Keys == m.tcb.Keys && |m'.ccb| == |m.ccb| && Shaped(m'.ccb)
            && (forall q :: q in ls && q != p ==> Head(m'.ccb, q) == Head(m.ccb, q))
            && (forall q :: q in ls && q != p && q.Active?
                 ==> m'.ccb[q.cpu].cursor[q.level] == m.ccb[q.cpu].cursor[q.level])
  {
    hide Pushed;
  }

  lemma PushFrame(m: Mem, p: Place, t: nat)
    requires Shaped(m.ccb) && IsPlace(|m.ccb|, p) && t in m.tcb && (Head(m.ccb, p) == 0 || Head(m.ccb, p) in m.tcb)
    ensures var m' := PushMem(m, p, t);
            && m'.tcb == Pushed(m.tcb, t, Head(m.ccb, p)) && |m'.ccb| == |m.ccb| && Shaped(m'.ccb) && Head(m'.ccb, p) == t
            && (p.Active? ==> m'.ccb[p.cpu].cursor[p.level] == m.ccb[p.cpu].cursor[p.level])
  {
    hide Pushed;
  }

  lemma PushTasks(m: Mem, ls: Lists, p: Place, t: nat)
    requires Inv(m, ls, t) && t in m.tcb && p in ls && !p.Sleeping? && t !in ls[p]
    requires IsPlace(|m.ccb|, p) && Shaped(m.ccb) && Head(m.ccb, p) == At(ls[p], 0)
    requires Head(m.ccb, p) == 0 || Head(m.ccb, p) in m.tcb
    ensures forall x :: x in m.tcb && x !in ls[p] && x != t ==> PushMem(m, p, t).tcb[x] == m.tcb[x]
    ensures forall x :: x in m.tcb ==> SameButLinks(m.tcb[x], PushMem(m, p, t).tcb[x])
    ensures Linked(PushMem(m, p, t).tcb, p, [t] + ls[p]) && NoDup([t] + ls[p]) && t != 0
    ensures PushMem(m, p, t).tcb.Keys == m.tcb.Keys
  {
    assert Holds(m, p, ls[p], t) && t != 0;
    PushFrame(m, p, t);
    hide Inv, Pushed, Linked, NoDup, PushMem, Head, Shaped;
    PushedLinked(m.tcb, p, ls[p], t);
  }

  lemma PushHolds(m: Mem, ls: Lists, p: Place, t: nat)
    requires Inv(m, ls, t) && t in m.tcb && p in ls && !p.Sleeping? && t !in ls[p]
    requires IsPlace(|m.ccb|, p) && Shaped(m.ccb) && Head(m.ccb, p) == At(ls[p], 0)
    requires Head(m.ccb, p) == 0 || Head(m.ccb, p) in m.tcb
    ensures Holds(PushMem(m, p, t), p, [t] + ls[p], t)
  {
    var s, m' := ls[p], PushMem(m, p, t);
    assert Holds(m, p, s, t);
    PushFrame(m, p, t);
    hide Inv, Pushed, Linked, NoDup, PushMem, Head, Shaped;
    PushTasks(m, ls, p, t);
    forall x | x in [t] + s ensures x in m'.tcb && x != 0 && (x != t ==> AtHome(m'.tcb[x], p)) {
      assert x != t ==> x in s && SameButLinks(m.tcb[x], m'.tcb[x]);
    }
  }

  lemma CutLists(ls: Lists, p: Place, t: nat)
    requires InOneList(ls) && p in ls && t in ls[p]
    ensures DropLists(ls, t) == ls[p := Without(ls[p], IndexOf(ls[p], t))]
  {
  }

  lemma CutNothing(ls: Lists, t: nat)
    requires !Listed(ls, t)
    ensures DropLists(ls, t) == ls
  {
  }

  lemma CutUnlists(m: Mem, ls: Lists, f: nat, t: nat)
    requires Inv(m, ls, f)
    ensures !Listed(DropLists(ls, t), t)
    ensures forall p, x :: p in ls && x in DropLists(ls, t)[p] ==> x in ls[p]
  {
    forall p | p in ls ensures t !in Cut(ls[p], t) && forall x :: x in Cut(ls[p], t) ==> x in ls[p] {
      assert Holds(m, p, ls[p], f);
      CutMembers(ls[p], t);
    }
  }

  lemma CutMembers(s: seq<nat>, t: nat)
    requires NoDup(s)
    ensures forall x :: x in Cut(s, t) <==> x in s && x != t
  {
    if t in s {
      forall x ensures x in Cut(s, t) <==> x in s && x != t {
        WithoutMember(s, IndexOf(s, t), x);
      }
    }
  }

  lemma WithoutMember(s: seq<nat>, k: nat, x: nat)
    requires NoDup(s) && k < |s|
    ensures x in Without(s, k) <==> x in s && x != s[k]
  {
    var w := Without(s, k);
    if x in s && x != s[k] {
      var i :| 0 <= i < |s| && s[i] == x;
      assert w[if i < k then i else i - 1] == x;
    }
    if x in w {
      var i :| 0 <= i < |w| && w[i] == x;
      assert s[if i < k then i else i + 1] == x;
    }
  }

  lemma LinksMapped(m: Mem, ls: Lists, f: nat, t: nat)
    requires Inv(m, ls, f) && t in m.tcb
    requires !Listed(ls, t) ==> m.tcb[t].prev == 0 && m.tcb[t].next == 0
    ensures Mapped(m.tcb, t)
  {
    if p :| p in ls && t in ls[p] {
      var s, k := ls[p], IndexOf(ls[p], t);
      InListedTask(m, ls, f, p, k);
      if k > 0 { InListedTask(m, ls, f, p, k - 1); }
      if k + 1 < |s| { InListedTask(m, ls, f, p, k + 1); }
    }
  }

  /** A task in no list: its heads and cursors are elsewhere. */
  lemma NoHeadIs(m: Mem, ls: Lists, f: nat, t: nat, p: Place)
    requires Inv(m, ls, f) && p in ls && t !in ls[p] && t != 0
    ensures Head(m.ccb, p) != t
    ensures p.Active? ==> m.ccb[p.cpu].cursor[p.level] != t
  {
    assert Holds(m, p, ls[p], f);
  }

  lemma DroppedHeads(m: Mem, ls: Lists, f: nat, t: nat, c: nat, l: nat, x: nat, q: Place)
    requires Inv(m, ls, f) && q in ls && t != 0 && c < |m.ccb| && l < LEVELS
    requires t !in ls[q]
    ensures var ccb := m.ccb[c := Dropped(m.ccb[c], l, t, x)];
            && Head(ccb, q) == Head(m.ccb, q)
            && (q.Active? ==> ccb[q.cpu].cursor[q.level] == m.ccb[q.cpu].cursor[q.level])
  {
    NoHeadIs(m, ls, f, t, q);
  }

  lemma RemoveListed(m: Mem, ls: Lists, p: Place, t: nat)
    requires Inv(m, ls, t) && Valid(m, t) && Seated(m, ls, t)
    requires p in ls && t in ls[p] && (p.Sleeping? ==> ls[p][0] == t)
    ensures Mapped(m.tcb, t)
    ensures Inv(RemoveMem(m, t), DropLists(ls, t), t)
    ensures forall x :: x in m.tcb ==> SameButLinks(m.tcb[x], RemoveMem(m, t).tcb[x])
  {
    var s := ls[p];
    var k := IndexOf(s, t);
    assert Holds(m, p, s, t);
    assert k > 0 ==> s[0] != t;
    BypassedLinked(m.tcb, p, s, k);
    CutLists(ls, p, t);
    CutMembers(s, t);
    InListedTask(m, ls, t, p, k);
    RemovedOthers(m, ls, p, t);
    RemovedFrame(m, t);
    RemovedTasks(m, ls, p, t);
    RemovedHolds(m, ls, p, t);
    hide RemoveMem, Without, Holds;
    Relist(m, ls, p, t, Without(s, k), RemoveMem(m, t));
  }

  /** The other lists keep their heads and cursors. */
  lemma RemovedOthers(m: Mem, ls: Lists, p: Place, t: nat)
    requires Inv(m, ls, t) && Valid(m, t) && p in ls && t in ls[p] && Mapped(m.tcb, t) && t != 0
    ensures var ccb := RemoveMem(m, t).ccb; |ccb| == |m.ccb| && Shaped(ccb)
    ensures forall q :: q in ls && q != p ==>
              t !in ls[q] && Head(RemoveMem(m, t).ccb, q) == Head(m.ccb, q)
    ensures forall q :: q in ls && q != p && q.Active? ==>
              RemoveMem(m, t).ccb[q.cpu].cursor[q.level] == m.ccb[q.cpu].cursor[q.level]
  {
    RemovedFrame(m, t);
    hide RemoveMem, Holds, Mapped, Head, InOneList;
    var ccb := RemoveMem(m, t).ccb;
    forall q | q in ls && q != p ensures t !in ls[q] && Head(ccb, q) == Head(m.ccb, q) { RemovedAt(m, ls, p, t, q); }
    forall q | q in ls && q != p && q.Active? ensures ccb[q.cpu].cursor[q.level] == m.ccb[q.cpu].cursor[q.level] {
      RemovedAt(m, ls, p, t, q);
    }
  }

  /** Removing t leaves the head and the cursor of another list. */
  lemma RemovedAt(m: Mem, ls: Lists, p: Place, t: nat, q: Place)
    requires Inv(m, ls, t) && Valid(m, t) && p in ls && t in ls[p] && Mapped(m.tcb, t) && t != 0
    requires q in ls && q != p
    ensures t !in ls[q] && IsPlace(|m.ccb|, q) && Shaped(m.ccb)
    ensures var ccb := RemoveMem(m, t).ccb;
            |ccb| == |m.ccb| && Shaped(ccb) && Head(ccb, q) == Head(m.ccb, q)
            && (q.Active? ==> ccb[q.cpu].cursor[q.level] == m.ccb[q.cpu].cursor[q.level])
  {
    hide Bypassed, Holds;
    assert Shaped(m.ccb) && t !in ls[q] && IsPlace(|m.ccb|, q);
    DroppedHeads(m, ls, t, t, m.tcb[t].cpuid, m.tcb[t].priority, m.tcb[t].next, q);
  }

  lemma RemovedTasks(m: Mem, ls: Lists, p: Place, t: nat)
    requires Inv(m, ls, t) && Valid(m, t) && p in ls && t in ls[p] && Mapped(m.tcb, t)
    ensures forall x :: x in m.tcb ==> SameButLinks(m.tcb[x], RemoveMem(m, t).tcb[x])
    ensures forall x :: x in m.tcb && x != t && x !in ls[p] ==> RemoveMem(m, t).tcb[x] == m.tcb[x]
  {
    hide Bypassed;
    var k := IndexOf(ls[p], t);
    InListedTask(m, ls, t, p, k);
    forall x | x in m.tcb
      ensures SameButLinks(m.tcb[x], RemoveMem(m, t).tcb[x])
      ensures x != t && x !in ls[p] ==> RemoveMem(m, t).tcb[x] == m.tcb[x]
    {
      BypassedAt(m.tcb, t, x);
    }
  }

  lemma RemovedHolds(m: Mem, ls: Lists, p: Place, t: nat)
    requires Inv(m, ls, t) && p in ls && t in ls[p]
    requires Valid(m, t) && Seated(m, ls, t) && Mapped(m.tcb, t)
    requires p.Sleeping? ==> ls[p][0] == t
    ensures Shaped(RemoveMem(m, t).ccb)
    ensures Holds(RemoveMem(m, t), p, Without(ls[p], IndexOf(ls[p], t)), t)
  {
    var k := IndexOf(ls[p], t);
    HomeIsPlace(m, ls, t, t);
    assert Holds(m, p, ls[p], t);
    hide Inv, RemoveMem, Linked, Sorted, Without;
    RemovedFrame(m, t);
    RemovedChain(m, p, ls[p], k);
    RemovedHead(m, ls, p, t);
  }

  lemma RemovedChain(m: Mem, p: Place, s: seq<nat>, k: nat)
    requires Linked(m.tcb, p, s) && NoDup(s) && k < |s| && (p.Sleeping? ==> k == 0)
    requires Valid(m, s[k]) && Mapped(m.tcb, s[k]) && Shaped(m.ccb)
    requires p.Sleeping? ==> (forall x :: x in s ==> x in m.tcb) && Sorted(m.tcb, s)
    ensures Linked(RemoveMem(m, s[k]).tcb, p, Without(s, k))
    ensures forall x :: x in m.tcb ==> SameButLinks(m.tcb[x], RemoveMem(m, s[k]).tcb[x])
    ensures NoDup(Without(s, k)) && forall x :: x in Without(s, k) ==> x in s && x in m.tcb && x != s[k]
    ensures p.Sleeping? ==> Sorted(RemoveMem(m, s[k]).tcb, Without(s, k))
  {
    hide Bypassed;
    BypassedLinked(m.tcb, p, s, k);
    var r, w := Bypassed(m.tcb, s[k]), Without(s, k);
    forall x | x in w ensures x in s && x != s[k] && x in m.tcb {
      WithoutMember(s, k, x);
      InChain(m.tcb, p, s, x);
    }
    forall i | 0 <= i < |w| ensures Link(RemoveMem(m, s[k]).tcb, p, w, i) {
      assert Link(r, p, w, i);
      assert w[i] in w;
    }
    if p.Sleeping? { TailSorted(m.tcb, RemoveMem(m, s[k]).tcb, s); }
  }

  lemma TailSorted(tcb: map<nat, Task>, r: map<nat, Task>, s: seq<nat>)
    requires (forall x :: x in s ==> x in tcb) && Sorted(tcb, s) && s != []
    requires r.Keys == tcb.Keys && forall x :: x in tcb ==> SameButLinks(tcb[x], r[x])
    ensures forall x :: x in Without(s, 0) ==> x in r
    ensures Sorted(r, Without(s, 0))
  {
    var w := Without(s, 0);
    assert w == s[1..];
    forall i, j | 0 <= i < j < |w| ensures r[w[i]].alarm <= r[w[j]].alarm {
      assert w[i] == s[i + 1] && w[j] == s[j + 1];
      assert s[i + 1] in s && s[j + 1] in s;
    }
  }

  lemma RemovedHead(m: Mem, ls: Lists, p: Place, t: nat)
    requires Inv(m, ls, t) && p in ls && t in ls[p]
    requires Valid(m, t) && Seated(m, ls, t) && Mapped(m.tcb, t)
    ensures var w := Without(ls[p], IndexOf(ls[p], t)); var ccb := RemoveMem(m, t).ccb;
            && Head(ccb, p) == At(w, 0)
            && (p.Active? ==> var c := ccb[p.cpu].cursor[p.level]; c == 0 || c in w)
  {
    hide Bypassed;
    var s := ls[p];
    var k := IndexOf(s, t);
    var w := Without(s, k);
    assert Holds(m, p, s, t);
    assert Link(m.tcb, p, s, k);
    assert k > 0 ==> s[0] != t && w[0] == s[0];
    assert k + 1 < |s| ==> w[k] == s[k + 1];
    CutMembers(s, t);
  }

  lemma RemoveUnlisted(m: Mem, ls: Lists, t: nat)
    requires Inv(m, ls, t) && Valid(m, t) && !Listed(ls, t)
    requires m.tcb[t].prev == 0 && m.tcb[t].next == 0
    ensures RemoveMem(m, t) == m
  {
    var c, l := m.tcb[t].cpuid, m.tcb[t].priority;
    NoHeadIs(m, ls, t, t, Active(c, l));
    NoHeadIs(m, ls, t, t, Waiting(c));
    NoHeadIs(m, ls, t, t, Sleeping(c));
    assert Dropped(m.ccb[c], l, t, 0) == m.ccb[c];
  }

  /** sched_remove takes t out of its list and leaves every other list alone. */
  lemma RemoveKeeps(m: Mem, ls: Lists, t: nat)
    requires Inv(m, ls, t) && Valid(m, t) && Seated(m, ls, t) && !Behind(ls, t)
    requires !Listed(ls, t) ==> m.tcb[t].prev == 0 && m.tcb[t].next == 0
    ensures Mapped(m.tcb, t)
    ensures Inv(RemoveMem(m, t), DropLists(ls, t), t)
    ensures !Listed(DropLists(ls, t), t)
    ensures RemoveMem(m, t).tcb[t] == m.tcb[t].(prev := 0, next := 0)
    ensures forall x :: x in m.tcb ==> SameButLinks(m.tcb[x], RemoveMem(m, t).tcb[x])
  {
    LinksMapped(m, ls, t, t);
    CutUnlists(m, ls, t, t);
    RemovedSelf(m, t);
    if p :| p in ls && t in ls[p] {
      RemoveListed(m, ls, p, t);
    } else {
      CutNothing(ls, t);
      RemoveUnlisted(m, ls, t);
    }
  }

  lemma RemovedSelf(m: Mem, t: nat)
    requires Valid(m, t) && Mapped(m.tcb, t) && Shaped(m.ccb)
    ensures RemoveMem(m, t).tcb[t] == m.tcb[t].(prev := 0, next := 0)
  {
    hide Bypassed;
    BypassedAt(m.tcb, t, t);
  }

  lemma HomeIsPlace(m: Mem, ls: Lists, f: nat, t: nat)
    requires Inv(m, ls, f) && Valid(m, t)
    ensures Home(m.tcb[t]) in ls && Waiting(m.tcb[t].cpuid) in ls && Sleeping(m.tcb[t].cpuid) in ls
    ensures t != 0 && Shaped(m.ccb)
  {
  }

  lemma AddKeeps(m: Mem, ls: Lists, t: nat)
    requires Inv(m, ls, t) && Valid(m, t) && !Listed(ls, t)
    ensures Shaped(m.ccb) && Home(m.tcb[t]) in ls
    ensures var h := Head(m.ccb, Home(m.tcb[t])); h == 0 || h in m.tcb
    ensures Inv(AddMem(m, t), PushLists(ls, Home(m.tcb[t]), t), 0)
    ensures forall x :: x in m.tcb && x != t ==> SameButLinks(m.tcb[x], AddMem(m, t).tcb[x])
    ensures SameButLinks(AddMem(m, t).tcb[t], m.tcb[t].(state := Running))
  {
    hide Inv, PushLists, PushMem;
    HomeIsPlace(m, ls, t, t);
    var p := Home(m.tcb[t]);
    HeadInList(m, ls, t, p);
    var m1 := Marked(m, t, Running, m.tcb[t].alarm);
    MarkKeeps(m, ls, t, Running, m.tcb[t].alarm);
    assert !Listed(ls, t);
    HomeIsPlace(m1, ls, t, t);
    PushKeeps(m1, ls, p, t);
    PushedOnly(ls, p, t);
    PushedTask(m1, p, t);
    SettleAt(PushMem(m1, p, t), PushLists(ls, p, t), t, p);
  }

  lemma SettleAt(m: Mem, ls: Lists, t: nat, p: Place)
    requires Inv(m, ls, t) && t in m.tcb && AtHome(m.tcb[t], p)
    requires Listed(ls, t) && forall q :: q in ls && t in ls[q] ==> q == p
    ensures Inv(m, ls, 0)
  {
    Settle(m, ls, t);
  }

  lemma PushedTask(m: Mem, p: Place, t: nat)
    requires Shaped(m.ccb) && IsPlace(|m.ccb|, p) && t in m.tcb
    requires Head(m.ccb, p) == 0 || Head(m.ccb, p) in m.tcb
    ensures PushMem(m, p, t).tcb.Keys == m.tcb.Keys
    ensures SameButLinks(m.tcb[t], PushMem(m, p, t).tcb[t])
  {
  }

  lemma PushedOnly(ls: Lists, p: Place, t: nat)
    requires p in ls && !Listed(ls, t)
    ensures Listed(PushLists(ls, p, t), t)
    ensures forall q :: q in PushLists(ls, p, t) && t in PushLists(ls, p, t)[q] ==> q == p
  {
    assert t in PushLists(ls, p, t)[p];
  }

  /** A settled task sits on its own CPU and level. */
  lemma SettledSeat(m: Mem, ls: Lists, t: nat)
    requires Inv(m, ls, 0) && t in m.tcb
    ensures Seated(m, ls, t)
    ensures m.tcb[t].state.Running? ==> forall p :: p in ls && t in ls[p] ==> p.Active?
    ensures !m.tcb[t].state.Running? ==> forall p :: p in ls && t in ls[p] ==> !p.Active?
  {
    forall p | p in ls && t in ls[p] ensures AtHome(m.tcb[t], p) {
      assert Holds(m, p, ls[p], 0);
    }
  }

  // ---------------------------------------------------------------- sched_block

  function BlockLists(m: Mem, ls: Lists, t: nat): Lists
    requires t in m.tcb && Waiting(m.tcb[t].cpuid) in ls
  {
    PushLists(DropLists(ls, t), Waiting(m.tcb[t].cpuid), t)
  }

  lemma BlockKeeps(m: Mem, ls: Lists, t: nat)
    requires Inv(m, ls, 0) && Valid(m, t) && m.tcb[t].state.Running?
    ensures Shaped(m.ccb) && Mapped(m.tcb, t) && Waiting(m.tcb[t].cpuid) in ls
    ensures var r := RemoveMem(Marked(m, t, Blocked, m.tcb[t].alarm), t); var h := Head(r.ccb, Waiting(m.tcb[t].cpuid));
             h == 0 || h in m.tcb
    ensures Inv(BlockMem(m, t), BlockLists(m, ls, t), 0)
    ensures forall x :: x in m.tcb && x != t ==> SameButLinks(m.tcb[x], BlockMem(m, t).tcb[x])
    ensures SameButLinks(BlockMem(m, t).tcb[t], m.tcb[t].(state := Blocked))
  {
    hide Inv, Listed, PushLists, PushMem, DropLists, RemoveMem;
    var m1 := Marked(m, t, Blocked, m.tcb[t].alarm);
    RetiredKeeps(m, ls, t);
    var m2, ls2, p := RemoveMem(m1, t), DropLists(ls, t), Waiting(m.tcb[t].cpuid);
    HomeIsPlace(m2, ls2, t, t);
    PushKeeps(m2, ls2, p, t);
    PushedOnly(ls2, p, t);
    PushedTask(m2, p, t);
    SettleAt(PushMem(m2, p, t), PushLists(ls2, p, t), t, p);
  }

  /** A running task marked blocked and taken out of its queue, as sched_block
      and sched_delay begin. */
  lemma RetiredKeeps(m: Mem, ls: Lists, t: nat)
    requires Inv(m, ls, 0) && Valid(m, t) && m.tcb[t].state.Running?
    ensures Shaped(m.ccb) && Mapped(m.tcb, t) && Waiting(m.tcb[t].cpuid) in ls
    ensures var m1 := Marked(m, t, Blocked, m.tcb[t].alarm);
            && Mapped(m1.tcb, t)
            && Inv(RemoveMem(m1, t), DropLists(ls, t), t)
            && !Listed(DropLists(ls, t), t)
            && Valid(RemoveMem(m1, t), t)
            && RemoveMem(m1, t).tcb[t] == m.tcb[t].(state := Blocked, prev := 0, next := 0)
            && RemoveMem(m1, t).tcb.Keys == m.tcb.Keys
            && |RemoveMem(m1, t).ccb| == |m.ccb|
            && forall x :: x in m.tcb && x != t ==> SameButLinks(m.tcb[x], RemoveMem(m1, t).tcb[x])
  {
    hide Holds, RemoveMem;
    SettledSeat(m, ls, t);
    Unsettle(m, ls, t);
    MarkKeeps(m, ls, t, Blocked, m.tcb[t].alarm);
    var m1 := Marked(m, t, Blocked, m.tcb[t].alarm);
    assert !Listed(ls, t) ==> m1.tcb[t].prev == 0 && m1.tcb[t].next == 0;
    LinksMapped(m, ls, 0, t);
    assert Seated(m1, ls, t);
    assert !Behind(ls, t);
    hide Inv, Behind, Listed, DropLists;
    RemoveKeeps(m1, ls, t);
    RemovedFrame(m1, t);
  }

  lemma RemovedFrame(m: Mem, t: nat)
    requires Valid(m, t) && Mapped(m.tcb, t) && Shaped(m.ccb)
    ensures RemoveMem(m, t).tcb.Keys == m.tcb.Keys && |RemoveMem(m, t).ccb| == |m.ccb|
    ensures Shaped(RemoveMem(m, t).ccb)
  {
  }

  // ---------------------------------------------------------------- sched_awake

  function AwakeLists(m: Mem, ls: Lists, t: nat): Lists
    requires t in m.tcb && Home(m.tcb[t]) in ls
  {
    if m.tcb[t].state.Running? then ls else PushLists(DropLists(ls, t), Home(m.tcb[t]), t)
  }

  lemma CursorKeeps(m: Mem, ls: Lists, c: nat, l: nat, v: nat)
    requires Inv(m, ls, 0) && Active(c, l) in ls
    requires v == 0 || v in ls[Active(c, l)]
    ensures Shaped(m.ccb) && c < |m.ccb| && l < LEVELS
    ensures Inv(Mem(m.tcb, WithCursor(m.ccb, c, l, v)), ls, 0)
  {
    var m' := Mem(m.tcb, WithCursor(m.ccb, c, l, v));
    forall p | p in ls ensures Holds(m', p, ls[p], 0) {
      assert Holds(m, p, ls[p], 0);
    }
  }

  function WokenAlarm(m: Mem, t: nat): nat
    requires Valid(m, t)
  {
    if m.ccb[m.tcb[t].cpuid].timer == t then 0 else m.tcb[t].alarm
  }

  ghost predicate AwakeReady(m: Mem, t: nat) {
    && Valid(m, t) && Shaped(m.ccb) && Mapped(m.tcb, t)
    && var h := Head(m.ccb, Home(m.tcb[t])); h == 0 || h in m.tcb
  }

  /** A task that does not run taken out of its queue and added to its level. */
  ghost function Woken(m: Mem, t: nat): Mem
    requires AwakeReady(m, t)
  {
    AddMem(WokenMem(m, t), t)
  }

  /** The same by sched_remove and sched_add. */
  ghost function Readded(m: Mem, t: nat): Mem
    requires AwakeReady(m, t) && Head(RemoveMem(m, t).ccb, Home(m.tcb[t])) == Head(m.ccb, Home(m.tcb[t]))
  {
    AddMem(Marked(RemoveMem(m, t), t, m.tcb[t].state, WokenAlarm(m, t)), t)
  }

  /** Only the heads of the blocked and alarm queues can be a task that is not
      running, so the two ways of taking it out agree once it is added again. */
  lemma AwakeIsRemoveAndAdd(m: Mem, ls: Lists, t: nat)
    requires Inv(m, ls, 0) && AwakeReady(m, t) && !m.tcb[t].state.Running?
    ensures Head(RemoveMem(m, t).ccb, Home(m.tcb[t])) == Head(m.ccb, Home(m.tcb[t]))
    ensures Woken(m, t) == Readded(m, t)
  {
    HomeIsPlace(m, ls, 0, t);
    WokenCcb(m, ls, t);
    WokenTcb(m, t);
    hide Inv, AddMem, WokenMem, RemoveMem, Shaped, Mapped;
    AddForgets(WokenMem(m, t), Marked(RemoveMem(m, t), t, m.tcb[t].state, WokenAlarm(m, t)), t);
  }

  /** Adding a task forgets its links and its state. */
  lemma AddForgets(a: Mem, b: Mem, t: nat)
    requires Shaped(a.ccb) && a.ccb == b.ccb && a.tcb.Keys == b.tcb.Keys && Valid(a, t)
    requires forall x :: x in a.tcb && x != t ==> a.tcb[x] == b.tcb[x]
    requires SameButLinks(a.tcb[t], b.tcb[t])
    requires var h := Head(a.ccb, Home(a.tcb[t])); h == 0 || h in a.tcb
    ensures AddMem(a, t) == AddMem(b, t)
  {
    hide Pushed;
    var x := Marked(a, t, Running, a.tcb[t].alarm);
    var y := Marked(b, t, Running, b.tcb[t].alarm);
    PushedForgets(a.tcb, x.tcb, y.tcb, t, Head(a.ccb, Home(a.tcb[t])));
  }

  lemma WokenTcb(m: Mem, t: nat)
    requires AwakeReady(m, t)
    ensures var w, r := WokenMem(m, t), Marked(RemoveMem(m, t), t, m.tcb[t].state, WokenAlarm(m, t));
            && w.tcb.Keys == r.tcb.Keys == m.tcb.Keys
            && (forall x :: x in m.tcb && x != t ==> w.tcb[x] == r.tcb[x])
            && SameButLinks(w.tcb[t], r.tcb[t])
            && w.tcb[t].priority == m.tcb[t].priority && w.tcb[t].cpuid == m.tcb[t].cpuid
            && |w.ccb| == |m.ccb| && Shaped(w.ccb)
  {
    hide Bypassed, Dropped;
    BypassedAt(m.tcb, t, t);
  }

  lemma WokenCcb(m: Mem, ls: Lists, t: nat)
    requires Inv(m, ls, 0) && Valid(m, t) && !m.tcb[t].state.Running? && Mapped(m.tcb, t)
    ensures RemoveMem(m, t).ccb == WokenMem(m, t).ccb
    ensures Head(RemoveMem(m, t).ccb, Home(m.tcb[t])) == Head(m.ccb, Home(m.tcb[t]))
  {
    hide Bypassed;
    SettledSeat(m, ls, t);
    HomeIsPlace(m, ls, 0, t);
    NoHeadIs(m, ls, 0, t, Home(m.tcb[t]));
  }

  /** Pushing a task forgets the links it had. */
  lemma PushedForgets(r: map<nat, Task>, a: map<nat, Task>, b: map<nat, Task>, t: nat, h: nat)
    requires t in r && (h == 0 || h in r) && a.Keys == b.Keys == r.Keys
    requires forall x :: x in r && x != t ==> a[x] == b[x]
    requires SameButLinks(a[t], b[t])
    ensures Pushed(a, t, h) == Pushed(b, t, h)
  {
  }

  /** sched_awake makes t the next task of its level, and first moves it there
      from the blocked queue or the head of the alarm queue. */
  lemma AwakeKeeps(m: Mem, ls: Lists, t: nat)
    requires Inv(m, ls, 0) && Valid(m, t) && !Behind(ls, t)
    requires m.tcb[t].state.Running? ==> Listed(ls, t)
    ensures AwakeReady(m, t) && Home(m.tcb[t]) in ls
    ensures Inv(AwakeMem(m, t), AwakeLists(m, ls, t), 0)
    ensures AwakeMem(m, t).ccb[m.tcb[t].cpuid].cursor[m.tcb[t].priority] == t
    ensures SameButLinks(AwakeMem(m, t).tcb[t],
                         m.tcb[t].(state := Running,
                                   alarm := if m.tcb[t].state.Running? then m.tcb[t].alarm else WokenAlarm(m, t)))
  {
    hide AddMem, RemoveMem, Holds, InOneList;
    AwakeIsReady(m, ls, t);
    var p := Home(m.tcb[t]);
    SettledSeat(m, ls, t);
    if m.tcb[t].state.Running? {
      assert t in ls[p];
      CursorKeeps(m, ls, p.cpu, p.level, t);
    } else {
      WokenKeeps(m, ls, t);
      CursorKeeps(AddMem(WokenMem(m, t), t), AwakeLists(m, ls, t), p.cpu, p.level, t);
    }
  }

  lemma AwakeIsReady(m: Mem, ls: Lists, t: nat)
    requires Inv(m, ls, 0) && Valid(m, t)
    ensures AwakeReady(m, t) && Home(m.tcb[t]) in ls
  {
    hide Holds;
    LinksMapped(m, ls, 0, t);
    HomeIsPlace(m, ls, 0, t);
    HeadInList(m, ls, 0, Home(m.tcb[t]));
  }

  lemma WokenKeeps(m: Mem, ls: Lists, t: nat)
    requires Inv(m, ls, 0) && Valid(m, t) && !Behind(ls, t) && !m.tcb[t].state.Running?
    ensures AwakeReady(m, t) && Home(m.tcb[t]) in ls
    ensures Inv(Woken(m, t), PushLists(DropLists(ls, t), Home(m.tcb[t]), t), 0)
    ensures t in Woken(m, t).tcb && SameButLinks(Woken(m, t).tcb[t], m.tcb[t].(state := Running, alarm := WokenAlarm(m, t)))
  {
    hide Holds, Inv, AddMem, WokenMem, RemoveMem, Behind, InOneList;
    AwakeIsReady(m, ls, t);
    TakenOut(m, ls, t);
    AwakeIsRemoveAndAdd(m, ls, t);
    var m2 := Marked(RemoveMem(m, t), t, m.tcb[t].state, WokenAlarm(m, t));
    MarkKeeps(RemoveMem(m, t), DropLists(ls, t), t, m.tcb[t].state, WokenAlarm(m, t));
    AddKeeps(m2, DropLists(ls, t), t);
    AddHas(m2, t);
  }

  lemma AddHas(m: Mem, t: nat)
    requires Valid(m, t) && Shaped(m.ccb)
    requires var h := Head(m.ccb, Home(m.tcb[t])); h == 0 || h in m.tcb
    ensures AddMem(m, t).tcb.Keys == m.tcb.Keys
  {
  }

  lemma TakenOut(m: Mem, ls: Lists, t: nat)
    requires Inv(m, ls, 0) && Valid(m, t) && !Behind(ls, t)
    ensures Shaped(m.ccb) && Mapped(m.tcb, t)
    ensures Inv(RemoveMem(m, t), DropLists(ls, t), t) && !Listed(DropLists(ls, t), t)
    ensures Valid(RemoveMem(m, t), t)
    ensures RemoveMem(m, t).tcb[t] == m.tcb[t].(prev := 0, next := 0)
  {
    hide Holds, RemoveMem;
    SettledSeat(m, ls, t);
    Unsettle(m, ls, t);
    LinksMapped(m, ls, 0, t);
    RemoveKeeps(m, ls, t);
    RemovedFrame(m, t);
  }

  // ---------------------------------------------------------------- sleepers behind the head

  /** A chain in which the entry before t still points at t cannot be the list
      without t. */
  lemma StillChained(m': Mem, ls: Lists, p: Place, t: nat)
    requires p in ls && t in ls[p] && NoDup(ls[p]) && ls[p][0] != t
    requires var u := ls[p][IndexOf(ls[p], t) - 1]; u in m'.tcb && m'.tcb[u].next == t && t != 0
    ensures !Linked(m'.tcb, p, Cut(ls[p], t))
  {
    var s := ls[p];
    var k := IndexOf(s, t);
    var w := Cut(s, t);
    assert w[k - 1] == s[k - 1];
    assert k < |w| ==> w[k] == s[k + 1];
    assert !Link(m'.tcb, p, w, k - 1);
  }

  lemma BrokenChain(m: Mem, ls: Lists, p: Place, f: nat)
    requires p in ls && !Linked(m.tcb, p, ls[p])
    ensures !Inv(m, ls, f)
  {
  }

  /** The entry before a sleeper keeps pointing at it when it is bypassed. */
  lemma BypassMissesSleeper(m: Mem, ls: Lists, p: Place, t: nat)
    requires Inv(m, ls, 0) && p in ls && p.Sleeping? && t in ls[p] && ls[p][0] != t && Mapped(m.tcb, t)
    ensures var u := ls[p][IndexOf(ls[p], t) - 1];
            u in m.tcb && u != t && Bypassed(m.tcb, t)[u].next == t
    ensures NoDup(ls[p]) && t != 0
  {
    hide Bypassed;
    var k := IndexOf(ls[p], t);
    assert Holds(m, p, ls[p], 0);
    InListedTask(m, ls, 0, p, k);
    InListedTask(m, ls, 0, p, k - 1);
    BypassedAt(m.tcb, t, ls[p][k - 1]);
  }

  /** sched_remove really removes t exactly when t is not such a sleeper. */
  lemma RemoveExact(m: Mem, ls: Lists, t: nat)
    requires Inv(m, ls, 0) && Valid(m, t)
    ensures Shaped(m.ccb) && Mapped(m.tcb, t)
    ensures Inv(RemoveMem(m, t), DropLists(ls, t), t) <==> !Behind(ls, t)
  {
    AwakeIsReady(m, ls, t);
    hide Inv, RemoveMem, Bypassed, Linked, Cut, NoDup, Head, DropLists;
    if Behind(ls, t) {
      RemoveMisses(m, ls, t);
    } else {
      TakenOut(m, ls, t);
    }
  }

  lemma RemoveMisses(m: Mem, ls: Lists, t: nat)
    requires Inv(m, ls, 0) && Valid(m, t) && Behind(ls, t) && Shaped(m.ccb) && Mapped(m.tcb, t)
    ensures !Inv(RemoveMem(m, t), DropLists(ls, t), t)
  {
    hide Inv, RemoveMem, Bypassed, Linked, Cut;
    var p :| p in ls && p.Sleeping? && t in ls[p] && ls[p][0] != t;
    BypassMissesSleeper(m, ls, p, t);
    RemoveSparesNext(m, t, ls[p][IndexOf(ls[p], t) - 1]);
    StillChained(RemoveMem(m, t), ls, p, t);
    BrokenChain(RemoveMem(m, t), DropLists(ls, t), p, t);
  }

  lemma RemoveSparesNext(m: Mem, t: nat, u: nat)
    requires Valid(m, t) && Shaped(m.ccb) && Mapped(m.tcb, t)
    requires u in m.tcb && u != t && Bypassed(m.tcb, t)[u].next == t
    ensures u in RemoveMem(m, t).tcb && RemoveMem(m, t).tcb[u].next == t
  {
  }

  /** sched_awake keeps the queues exactly when t is not such a sleeper, nor a running
      task in no queue: that one is not put into its level, only its cursor is. */
  lemma AwakeExact(m: Mem, ls: Lists, t: nat)
    requires Inv(m, ls, 0) && Valid(m, t)
    ensures AwakeReady(m, t) && Home(m.tcb[t]) in ls
    ensures Inv(AwakeMem(m, t), AwakeLists(m, ls, t), 0)
       <==> !Behind(ls, t) && (m.tcb[t].state.Running? ==> Listed(ls, t))
  {
    AwakeIsReady(m, ls, t);
    if m.tcb[t].state.Running? && !Listed(ls, t) {
      AwakeStray(m, ls, t);
    } else if Behind(ls, t) {
      AwakeBreaks(m, ls, t);
    } else {
      AwakeKeeps(m, ls, t);
    }
  }

  /** The cursor of the level is then outside the level. */
  lemma AwakeStray(m: Mem, ls: Lists, t: nat)
    requires Inv(m, ls, 0) && AwakeReady(m, t) && Home(m.tcb[t]) in ls && m.tcb[t].state.Running? && !Listed(ls, t)
    ensures !Inv(AwakeMem(m, t), AwakeLists(m, ls, t), 0)
  {
    var p, m' := Home(m.tcb[t]), AwakeMem(m, t);
    assert m'.ccb[p.cpu].cursor[p.level] == t && t != 0 && t !in ls[p];
    hide Holds, AwakeMem;
    if Inv(m', ls, 0) { CursorStands(m', ls, p); }
  }

  lemma CursorStands(m: Mem, ls: Lists, p: Place)
    requires Inv(m, ls, 0) && p in ls && p.Active?
    ensures var r := m.ccb[p.cpu].cursor[p.level]; r == 0 || r in ls[p]
  {
    assert Holds(m, p, ls[p], 0);
  }

  lemma AwakeBreaks(m: Mem, ls: Lists, t: nat)
    requires Inv(m, ls, 0) && AwakeReady(m, t) && Behind(ls, t) && Home(m.tcb[t]) in ls
    ensures !Inv(AwakeMem(m, t), AwakeLists(m, ls, t), 0)
  {
    hide Holds, Shaped, Mapped;
    var p :| p in ls && p.Sleeping? && t in ls[p] && ls[p][0] != t;
    SettledSeat(m, ls, t);
    BypassMissesSleeper(m, ls, p, t);
    hide Inv, Bypassed, AwakeMem, Linked, Pushed;
    AddSparesNext(m, t, ls[p][IndexOf(ls[p], t) - 1]);
    StillChained(AwakeMem(m, t), ls, p, t);
    assert AwakeLists(m, ls, t)[p] == Cut(ls[p], t);
    BrokenChain(AwakeMem(m, t), AwakeLists(m, ls, t), p, 0);
  }

  lemma AddSparesNext(m: Mem, t: nat, u: nat)
    requires AwakeReady(m, t) && !m.tcb[t].state.Running? && u in m.tcb && u != t
    ensures AwakeMem(m, t).tcb[u].next == Bypassed(m.tcb, t)[u].next
    ensures u in AwakeMem(m, t).tcb
  {
    hide Bypassed;
  }

  /** Two sleepers on one CPU, the second of them of level 4. */
  function TwoSleepers(level: nat): Mem {
    var z := seq(LEVELS, _ => 0);
    Mem(map[1 := Task(level, 0, Blocked, 0, 2, 10), 2 := Task(4, 0, Blocked, 0, 0, 20)], [Ccb(z, z, 0, 1, 0, 0)])
  }

  /** One CPU with nothing but an alarm queue. */
  function AlarmOnly(s: seq<nat>): Lists {
    var places := (set l | 0 <= l < LEVELS :: Active(0, l)) + {Waiting(0), Sleeping(0)};
    map p | p in places :: if p.Sleeping? then s else []
  }

  lemma TwoSleepersHold(level: nat)
    ensures Inv(TwoSleepers(level), AlarmOnly([1, 2]), 0) && Behind(AlarmOnly([1, 2]), 2)
  {
    var m, ls := TwoSleepers(level), AlarmOnly([1, 2]);
    AlarmOnlyPlaces([1, 2]);
    TwoChained(level);
    hide AlarmOnly;
    assert Shaped(m.ccb) && Sleeping(0) in ls;
    forall q | q in ls ensures Holds(m, q, ls[q], 0) {
      if !q.Sleeping? { NobodyThere(m, q); }
    }
    assert 1 in ls[Sleeping(0)] && 2 in ls[Sleeping(0)];
  }

  lemma AlarmOnlyPlaces(s: seq<nat>)
    ensures var ls := AlarmOnly(s);
            (forall q :: q in ls <==> IsPlace(1, q)) && forall q :: q in ls ==> ls[q] == if q == Sleeping(0) then s else []
  {
  }

  lemma TwoChained(level: nat)
    ensures Shaped(TwoSleepers(level).ccb) && Holds(TwoSleepers(level), Sleeping(0), [1, 2], 0)
  {
    var m, s := TwoSleepers(level), [1, 2];
    assert Link(m.tcb, Sleeping(0), s, 0) && Link(m.tcb, Sleeping(0), s, 1);
  }

  lemma NobodyThere(m: Mem, q: Place)
    requires Shaped(m.ccb) && IsPlace(|m.ccb|, q) && !q.Sleeping? && Head(m.ccb, q) == 0
    requires q.Active? ==> m.ccb[q.cpu].cursor[q.level] == 0
    ensures Holds(m, q, [], 0)
  {
  }

  /** A message for the second of two sleepers: it ends up in the ready queue and in the
      alarm queue at once. */
  lemma AwakeBehindExample()
    ensures var m := TwoSleepers(4);
            && Inv(m, AlarmOnly([1, 2]), 0) && AwakeReady(m, 2)
            && AwakeMem(m, 2).ccb[0].active[4] == 2
            && AwakeMem(m, 2).ccb[0].timer == 1 && AwakeMem(m, 2).tcb[1].next == 2
  {
    TwoSleepersHold(4);
    hide Inv;
  }

  /** The second of two sleepers removed: the alarm queue still goes on to it. */
  lemma RemoveBehindExample()
    ensures var m := TwoSleepers(4);
            && Inv(m, AlarmOnly([1, 2]), 0) && Valid(m, 2) && Shaped(m.ccb) && Mapped(m.tcb, 2)
            && RemoveMem(m, 2).ccb[0].timer == 1 && RemoveMem(m, 2).tcb[1].next == 2
            && !Inv(RemoveMem(m, 2), DropLists(AlarmOnly([1, 2]), 2), 2)
  {
    TwoSleepersHold(4);
    RemoveExact(TwoSleepers(4), AlarmOnly([1, 2]), 2);
    hide Inv;
  }

  /** A running task that is in no queue. */
  function Stray(): Mem {
    var z := seq(LEVELS, _ => 0);
    Mem(map[1 := Task(4, 0, Running, 0, 0, 0)], [Ccb(z, z, 0, 0, 0, 0)])
  }

  /** Woken it is under the cursor of its level, and still not in it. */
  lemma AwakeStrayExample()
    ensures var m := Stray();
            && Inv(m, AlarmOnly([]), 0) && AwakeReady(m, 1)
            && AwakeMem(m, 1).ccb[0].cursor[4] == 1 && AwakeMem(m, 1).ccb[0].active[4] == 0
            && Home(m.tcb[1]) in AlarmOnly([]) && !Inv(AwakeMem(m, 1), AwakeLists(m, AlarmOnly([]), 1), 0)
  {
    var m, ls := Stray(), AlarmOnly([]);
    StrayHolds();
    AwakeExact(m, ls, 1);
    AlarmOnlyPlaces([]);
    hide Inv, AlarmOnly;
  }

  lemma StrayHolds()
    ensures Inv(Stray(), AlarmOnly([]), 0) && !Listed(AlarmOnly([]), 1) && Valid(Stray(), 1)
  {
    var m, ls := Stray(), AlarmOnly([]);
    AlarmOnlyPlaces([]);
    hide AlarmOnly;
    assert Shaped(m.ccb);
    forall q | q in ls ensures Holds(m, q, ls[q], 0) {
      if q.Sleeping? { assert Head(m.ccb, q) == 0; } else { NobodyThere(m, q); }
    }
  }

  // ---------------------------------------------------------------- sched_delay

  function DelayMem(m: Mem, ls: Lists, t: nat, usec: nat): Mem
    requires Valid(m, t) && Shaped(m.ccb) && Mapped(m.tcb, t) && Sleeping(m.tcb[t].cpuid) in ls
    requires Valid(RemoveMem(Marked(m, t, Blocked, m.tcb[t].alarm), t), t)
    requires forall x :: x in ls[Sleeping(m.tcb[t].cpuid)] ==> x in m.tcb
  {
    SleepMem(RemoveMem(Marked(m, t, Blocked, m.tcb[t].alarm), t), ls[Sleeping(m.tcb[t].cpuid)], t, usec)
  }

  /** Where the new sleeper goes: behind every sleeper due no later. */
  function SleepPlace(m: Mem, s: seq<nat>, t: nat, usec: nat): (r: nat)
    requires Valid(m, t) && forall x :: x in s ==> x in m.tcb
    ensures r <= |s|
  {
    LaterThan(m.tcb, s, WakeTime(Rewound(m.ccb, m.tcb[t].cpuid)[m.tcb[t].cpuid], usec), 0)
  }

  function DelayLists(m: Mem, ls: Lists, t: nat, usec: nat): Lists
    requires Valid(m, t) && Sleeping(m.tcb[t].cpuid) in ls
    requires forall x :: x in ls[Sleeping(m.tcb[t].cpuid)] ==> x in m.tcb
  {
    var p := Sleeping(m.tcb[t].cpuid);
    DropLists(ls, t)[p := Spliced(ls[p], SleepPlace(m, ls[p], t, usec), t)]
  }

  lemma RewoundKeeps(m: Mem, ls: Lists, f: nat, c: nat)
    requires Inv(m, ls, f) && c < |m.ccb|
    ensures Inv(Mem(m.tcb, Rewound(m.ccb, c)), ls, f)
  {
    var m' := Mem(m.tcb, Rewound(m.ccb, c));
    forall p | p in ls ensures Holds(m', p, ls[p], f) {
      assert Holds(m, p, ls[p], f);
    }
  }

  /** The new sleeper stands behind everyone due no later and in front of everyone due
      later: with equal wake times it is first come, first served. */
  lemma SplicedSorted(tcb: map<nat, Task>, r: map<nat, Task>, s: seq<nat>, t: nat)
    requires (forall x :: x in s ==> x in tcb) && Sorted(tcb, s) && t in tcb && t !in s
    requires r.Keys == tcb.Keys && forall x :: x in tcb && x != t ==> SameButLinks(tcb[x], r[x])
    ensures var k := LaterThan(tcb, s, r[t].alarm, 0); var w := Spliced(s, k, t);
            && (forall x :: x in w ==> x in r) && Sorted(r, w)
            && w[k] == t && |w| == |s| + 1
            && (forall i :: 0 <= i < |s| && tcb[s[i]].alarm <= r[t].alarm ==> i < k && w[i] == s[i])
            && (forall i :: 0 <= i < |s| && r[t].alarm < tcb[s[i]].alarm ==> k < i + 1 < |w| && w[i + 1] == s[i])
  {
    var k := LaterThan(tcb, s, r[t].alarm, 0);
    var w := Spliced(s, k, t);
    forall x | x in w ensures x in r { SplicedMember(s, k, t, x); }
    LaterAll(tcb, s, r[t].alarm);
    hide LaterThan, Sorted, SameButLinks;
    SplicedInOrder(tcb, r, s, k, t);
    SplicedEntries(s, k, t);
    hide Spliced;
  }

  lemma SplicedEntries(s: seq<nat>, k: nat, t: nat)
    requires k <= |s|
    ensures var w := Spliced(s, k, t);
            && |w| == |s| + 1 && w[k] == t
            && (forall i :: 0 <= i < k ==> w[i] == s[i]) && forall i :: k <= i < |s| ==> w[i + 1] == s[i]
  {
  }

  /** Behind the first later sleeper everyone is later. */
  lemma LaterAll(tcb: map<nat, Task>, s: seq<nat>, a: nat)
    requires (forall x :: x in s ==> x in tcb) && Sorted(tcb, s)
    ensures var k := LaterThan(tcb, s, a, 0); forall i :: 0 <= i < |s| ==> (i < k <==> tcb[s[i]].alarm <= a)
  {
    var k := LaterThan(tcb, s, a, 0);
    forall i | k <= i < |s| ensures a < tcb[s[i]].alarm {
      if k < i { assert tcb[s[k]].alarm <= tcb[s[i]].alarm; }
    }
  }

  lemma SplicedInOrder(tcb: map<nat, Task>, r: map<nat, Task>, s: seq<nat>, k: nat, t: nat)
    requires (forall x :: x in s ==> x in tcb) && Sorted(tcb, s) && t in tcb && t !in s && k <= |s|
    requires r.Keys == tcb.Keys && forall x :: x in tcb && x != t ==> SameButLinks(tcb[x], r[x])
    requires forall i :: 0 <= i < |s| ==> (i < k <==> tcb[s[i]].alarm <= r[t].alarm)
    requires forall x :: x in Spliced(s, k, t) ==> x in r
    ensures Sorted(r, Spliced(s, k, t))
  {
    var w := Spliced(s, k, t);
    forall i, j | 0 <= i < j < |w| ensures r[w[i]].alarm <= r[w[j]].alarm {
      SplicedAt(tcb, r, s, k, t, i);
      SplicedAt(tcb, r, s, k, t, j);
      PairInOrder(tcb, s, k, i, j);
    }
  }

  /** Entries i and j of the longer list, as far as they are entries of the shorter one. */
  lemma PairInOrder(tcb: map<nat, Task>, s: seq<nat>, k: nat, i: nat, j: nat)
    requires (forall x :: x in s ==> x in tcb) && Sorted(tcb, s) && k <= |s| && i < j <= |s|
    ensures i != k && j != k ==>
              var a, b := s[if i < k then i else i - 1], s[if j < k then j else j - 1];
              a in tcb && b in tcb && tcb[a].alarm <= tcb[b].alarm
  {
    if i != k && j != k {
      var a, b := if i < k then i else i - 1, if j < k then j else j - 1;
      assert s[a] in s && s[b] in s;
      if a < b { assert tcb[s[a]].alarm <= tcb[s[b]].alarm; }
    }
  }

  lemma SplicedAt(tcb: map<nat, Task>, r: map<nat, Task>, s: seq<nat>, k: nat, t: nat, i: nat)
    requires (forall x :: x in s ==> x in tcb) && t in tcb && t !in s && k <= |s| && i <= |s|
    requires r.Keys == tcb.Keys && forall x :: x in tcb && x != t ==> SameButLinks(tcb[x], r[x])
    ensures Spliced(s, k, t)[i] == if i < k then s[i] else if i == k then t else s[i - 1]
    ensures Spliced(s, k, t)[i] in r
    ensures i < k ==> r[Spliced(s, k, t)[i]].alarm == tcb[s[i]].alarm
    ensures i > k ==> r[Spliced(s, k, t)[i]].alarm == tcb[s[i - 1]].alarm
  {
    if i < k { assert s[i] in s; }
    if i > k { assert s[i - 1] in s; }
  }

  lemma SplicedMember(s: seq<nat>, k: nat, t: nat, x: nat)
    requires k <= |s|
    ensures x in Spliced(s, k, t) <==> x in s || x == t
  {
    var w := Spliced(s, k, t);
    assert w[k] == t;
    if x in s {
      var i :| 0 <= i < |s| && s[i] == x;
      assert w[if i < k then i else i + 1] == x;
    }
    if x in w {
      var i :| 0 <= i < |w| && w[i] == x;
      if i != k { assert s[if i < k then i else i - 1] == x; }
    }
  }

  lemma SleepKeeps(m: Mem, ls: Lists, t: nat, usec: nat)
    requires Inv(m, ls, t) && Valid(m, t) && !Listed(ls, t) && m.tcb[t].prev == 0 && !m.tcb[t].state.Running?
    ensures Shaped(m.ccb) && Sleeping(m.tcb[t].cpuid) in ls
    ensures forall x :: x in ls[Sleeping(m.tcb[t].cpuid)] ==> x in m.tcb
    ensures var p := Sleeping(m.tcb[t].cpuid); var m' := SleepMem(m, ls[p], t, usec);
            && Inv(m', ls[p := Spliced(ls[p], SleepPlace(m, ls[p], t, usec), t)], 0)
            && (forall x :: x in m.tcb && x != t ==> SameButLinks(m.tcb[x], m'.tcb[x]))
            && SameButLinks(m'.tcb[t], m.tcb[t].(alarm := WakeTime(Rewound(m.ccb, p.cpu)[p.cpu], usec)))
  {
    hide Inserted, Spliced, Rewound, WakeTime, Inv, Listed, Holds;
    var p := Sleeping(m.tcb[t].cpuid);
    HomeIsPlace(m, ls, t, t);
    ListedMapped(m, ls, t, p);
    UnlistedAnywhere(ls, t);
    SleepIsInsert(m, ls[p], t, usec);
    var a := WakeTime(Rewound(m.ccb, p.cpu)[p.cpu], usec);
    var m0 := Mem(m.tcb, Rewound(m.ccb, p.cpu));
    RewoundKeeps(m, ls, t, p.cpu);
    MarkKeeps(m0, ls, t, m.tcb[t].state, a);
    InsertKeeps(Marked(m0, t, m.tcb[t].state, a), ls, t);
  }

  lemma ListedMapped(m: Mem, ls: Lists, f: nat, p: Place)
    requires Inv(m, ls, f) && p in ls
    ensures forall x :: x in ls[p] ==> x in m.tcb
  {
    assert Holds(m, p, ls[p], f);
  }

  lemma SleepIsInsert(m: Mem, s: seq<nat>, t: nat, usec: nat)
    requires Valid(m, t) && Shaped(m.ccb)
    requires (forall x :: x in s ==> x in m.tcb) && t !in s
    ensures var c := m.tcb[t].cpuid;
            var m1 := Marked(Mem(m.tcb, Rewound(m.ccb, c)), t, m.tcb[t].state, WakeTime(Rewound(m.ccb, c)[c], usec));
            && SleepMem(m, s, t, usec) == InsertMem(m1, Sleeping(c), s, t)
            && SleepPlace(m, s, t, usec) == LaterThan(m1.tcb, s, m1.tcb[t].alarm, 0)
  {
    hide Inserted, Rewound, WakeTime;
    var c := m.tcb[t].cpuid;
    var a := WakeTime(Rewound(m.ccb, c)[c], usec);
    var m1 := Marked(Mem(m.tcb, Rewound(m.ccb, c)), t, m.tcb[t].state, a);
    SameLater(m.tcb, m1.tcb, s, a, 0);
    assert m1.tcb == m.tcb[t := m.tcb[t].(alarm := a)];
  }

  lemma UnlistedAnywhere(ls: Lists, t: nat)
    requires !Listed(ls, t)
    ensures forall p :: p in ls ==> t !in ls[p]
  {
  }

  lemma {:induction false} SameLater(tcb: map<nat, Task>, r: map<nat, Task>, s: seq<nat>, a: nat, i: nat)
    requires i <= |s| && forall x :: x in s ==> x in tcb && x in r && r[x].alarm == tcb[x].alarm
    ensures LaterThan(tcb, s, a, i) == LaterThan(r, s, a, i)
    decreases |s| - i
  {
    if i < |s| {
      assert s[i] in s;
      SameLater(tcb, r, s, a, i + 1);
    }
  }

  /** Task t, already given its wake time, chained into the alarm queue. */
  function InsertMem(m: Mem, p: Place, s: seq<nat>, t: nat): Mem
    requires Shaped(m.ccb) && IsPlace(|m.ccb|, p) && t in m.tcb
    requires forall x :: x in s ==> x in m.tcb
  {
    var i := LaterThan(m.tcb, s, m.tcb[t].alarm, 0);
    assert i > 0 ==> s[i - 1] in s;
    Mem(Inserted(m.tcb, t, At(s, i - 1), At(s, i)), if i == 0 then WithHead(m.ccb, p, t) else m.ccb)
  }

  lemma InsertKeeps(m: Mem, ls: Lists, t: nat)
    requires Inv(m, ls, t) && Valid(m, t) && !Listed(ls, t) && m.tcb[t].prev == 0 && !m.tcb[t].state.Running?
    ensures var p := Sleeping(m.tcb[t].cpuid);
            && Shaped(m.ccb) && p in ls && (forall x :: x in ls[p] ==> x in m.tcb)
            && var s := ls[p];
            && Inv(InsertMem(m, p, s, t), ls[p := Spliced(s, LaterThan(m.tcb, s, m.tcb[t].alarm, 0), t)], 0)
            && forall x :: x in m.tcb ==> SameButLinks(m.tcb[x], InsertMem(m, p, s, t).tcb[x])
  {
    var p := Sleeping(m.tcb[t].cpuid);
    HomeIsPlace(m, ls, t, t);
    assert Holds(m, p, ls[p], t);
    var s := ls[p];
    UnlistedAnywhere(ls, t);
    InsertHolds(m, p, s, t);
    hide Holds, Inserted, Spliced;
    InsertCcb(m, p, s, t);
    var w := Spliced(s, LaterThan(m.tcb, s, m.tcb[t].alarm, 0), t);
    var m' := InsertMem(m, p, s, t);
    hide InsertMem, Inv, Listed;
    Relist(m, ls, p, t, w, m');
    ReplacedOnly(ls, p, t, w, ls[p := w]);
    SettleAt(m', ls[p := w], t, p);
  }

  lemma InsertCcb(m: Mem, p: Place, s: seq<nat>, t: nat)
    requires Shaped(m.ccb) && IsPlace(|m.ccb|, p) && t in m.tcb && p.Sleeping?
    requires forall x :: x in s ==> x in m.tcb
    ensures var ccb := InsertMem(m, p, s, t).ccb;
            && |ccb| == |m.ccb| && Shaped(ccb)
            && (forall q :: IsPlace(|m.ccb|, q) && q != p ==> Head(ccb, q) == Head(m.ccb, q))
            && (forall q :: IsPlace(|m.ccb|, q) && q.Active? ==>
                  ccb[q.cpu].cursor[q.level] == m.ccb[q.cpu].cursor[q.level])
    ensures InsertMem(m, p, s, t).tcb.Keys == m.tcb.Keys
  {
  }

  lemma InsertHead(m: Mem, p: Place, s: seq<nat>, t: nat)
    requires Shaped(m.ccb) && IsPlace(|m.ccb|, p) && t in m.tcb && p.Sleeping?
    requires Head(m.ccb, p) == At(s, 0) && forall x :: x in s ==> x in m.tcb
    ensures var w := Spliced(s, LaterThan(m.tcb, s, m.tcb[t].alarm, 0), t);
            var ccb := InsertMem(m, p, s, t).ccb;
            |ccb| == |m.ccb| && Shaped(ccb) && Head(ccb, p) == At(w, 0)
  {
  }

  lemma InsertHolds(m: Mem, p: Place, s: seq<nat>, t: nat)
    requires Shaped(m.ccb) && IsPlace(|m.ccb|, p) && p.Sleeping? && t in m.tcb && t != 0 && t !in s
    requires Holds(m, p, s, t) && m.tcb[t].prev == 0
    ensures var w := Spliced(s, LaterThan(m.tcb, s, m.tcb[t].alarm, 0), t); var m' := InsertMem(m, p, s, t);
            && Shaped(m'.ccb) && |m'.ccb| == |m.ccb| && Holds(m', p, w, t)
            && (forall x :: x in w ==> x in s || x == t)
            && (forall x :: x in s ==> x in w) && t in w
            && (forall x :: x in m.tcb ==> SameButLinks(m.tcb[x], m'.tcb[x]))
            && (forall x :: x in m.tcb && x != t && x !in s ==> m'.tcb[x] == m.tcb[x])
  {
    hide Inserted, Spliced, Linked, NoDup, Sorted;
    var i := LaterThan(m.tcb, s, m.tcb[t].alarm, 0);
    InsertedLinked(m.tcb, p, s, i, t);
    InsertHead(m, p, s, t);
    var m' := InsertMem(m, p, s, t);
    var w := Spliced(s, i, t);
    SplicedSorted(m.tcb, m'.tcb, s, t);
    forall x | x in w ensures x in s || x == t { SplicedMember(s, i, t, x); }
    forall x | x in s ensures x in w { SplicedMember(s, i, t, x); }
    SplicedMember(s, i, t, t);
  }

  lemma ReplacedOnly(ls: Lists, p: Place, t: nat, w: seq<nat>, r: Lists)
    requires p in ls && !Listed(ls, t) && t in w && r == ls[p := w]
    ensures Listed(r, t)
    ensures forall q :: q in r && t in r[q] ==> q == p
  {
    assert t in r[p];
  }

  lemma DelayKeeps(m: Mem, ls: Lists, t: nat, usec: nat)
    requires Inv(m, ls, 0) && Valid(m, t) && m.tcb[t].state.Running?
    ensures Shaped(m.ccb) && Mapped(m.tcb, t) && Sleeping(m.tcb[t].cpuid) in ls
    ensures Valid(RemoveMem(Marked(m, t, Blocked, m.tcb[t].alarm), t), t)
    ensures forall x :: x in ls[Sleeping(m.tcb[t].cpuid)] ==> x in m.tcb
    ensures Inv(DelayMem(m, ls, t, usec), DelayLists(m, ls, t, usec), 0)
    ensures forall x :: x in m.tcb && x != t ==> SameButLinks(m.tcb[x], DelayMem(m, ls, t, usec).tcb[x])
    ensures SameButLinks(DelayMem(m, ls, t, usec).tcb[t],
                         m.tcb[t].(state := Blocked,
                                   alarm := WakeTime(Rewound(m.ccb, m.tcb[t].cpuid)[m.tcb[t].cpuid], usec)))
  {
    hide Holds, Inv, SleepMem, Listed, RemoveMem, DropLists, Spliced, Rewound, WakeTime, LaterThan;
    RetiredKeeps(m, ls, t);
    NotAsleep(m, ls, t);
    var m2, ls2, p := RemoveMem(Marked(m, t, Blocked, m.tcb[t].alarm), t), DropLists(ls, t), Sleeping(m.tcb[t].cpuid);
    SleepKeeps(m2, ls2, t, usec);
    SameClock(m.ccb, m2.ccb, p.cpu, usec);
    SameLater(m.tcb, m2.tcb, ls[p], WakeTime(Rewound(m.ccb, p.cpu)[p.cpu], usec), 0);
  }

  /** The tasks of m and m' differ in their links and, for t, as k says. */
  ghost predicate OnlyTask(m: Mem, m': Mem, t: nat, k: Task) {
    && m'.tcb.Keys == m.tcb.Keys && t in m.tcb
    && SameButLinks(m'.tcb[t], k)
    && forall x :: x in m.tcb && x != t ==> SameButLinks(m.tcb[x], m'.tcb[x])
  }

  /** sched_delay puts a running task to sleep until ticks + usec. */
  ghost predicate Delayed(m: Mem, ls: Lists, m': Mem, ls': Lists, t: nat, usec: nat)
    requires Valid(m, t)
  {
    var c := m.tcb[t].cpuid;
    && Sleeping(c) in ls && (forall x :: x in ls[Sleeping(c)] ==> x in m.tcb)
    && ls' == DelayLists(m, ls, t, usec)
    && OnlyTask(m, m', t, m.tcb[t].(state := Blocked, alarm := WakeTime(Rewound(m.ccb, c)[c], usec)))
  }

  /** sched_block moves a running task to the front of the blocked queue. */
  ghost predicate Halted(m: Mem, ls: Lists, m': Mem, ls': Lists, t: nat)
    requires Valid(m, t)
  {
    && Waiting(m.tcb[t].cpuid) in ls
    && ls' == BlockLists(m, ls, t)
    && OnlyTask(m, m', t, m.tcb[t].(state := Blocked))
  }

  lemma DelayEffect(m: Mem, ls: Lists, t: nat, usec: nat)
    requires Inv(m, ls, 0) && Valid(m, t) && m.tcb[t].state.Running?
    ensures Shaped(m.ccb) && Mapped(Marked(m, t, Blocked, m.tcb[t].alarm).tcb, t)
    ensures var p := Sleeping(m.tcb[t].cpuid); var r := RemoveMem(Marked(m, t, Blocked, m.tcb[t].alarm), t);
            && p in ls && p in DropLists(ls, t)
            && Valid(r, t) && Shaped(r.ccb) && (forall x :: x in DropLists(ls, t)[p] ==> x in r.tcb)
            && (forall x :: x in ls[p] ==> x in m.tcb)
            && Inv(SleepMem(r, DropLists(ls, t)[p], t, usec), DelayLists(m, ls, t, usec), 0)
            && Delayed(m, ls, SleepMem(r, DropLists(ls, t)[p], t, usec), DelayLists(m, ls, t, usec), t, usec)
  {
    hide Inv, SleepMem, RemoveMem, DropLists, Holds, Listed, WakeTime, Rewound, Spliced;
    DelayKeeps(m, ls, t, usec);
    NotAsleep(m, ls, t);
    RetiredKeeps(m, ls, t);
    HomeIsPlace(RemoveMem(Marked(m, t, Blocked, m.tcb[t].alarm), t), DropLists(ls, t), t, t);
    ShapeOf(RemoveMem(Marked(m, t, Blocked, m.tcb[t].alarm), t), DropLists(ls, t), t);
    SleepMemKeys(RemoveMem(Marked(m, t, Blocked, m.tcb[t].alarm), t), ls[Sleeping(m.tcb[t].cpuid)], t, usec);
  }

  lemma SleepMemKeys(m: Mem, s: seq<nat>, t: nat, usec: nat)
    requires Valid(m, t) && Shaped(m.ccb)
    requires forall x :: x in s ==> x in m.tcb
    ensures SleepMem(m, s, t, usec).tcb.Keys == m.tcb.Keys
  {
  }

  lemma ShapeOf(m: Mem, ls: Lists, f: nat)
    requires Inv(m, ls, f)
    ensures Shaped(m.ccb)
  {
  }

  lemma BlockEffect(m: Mem, ls: Lists, t: nat)
    requires Inv(m, ls, 0) && Valid(m, t) && m.tcb[t].state.Running?
    ensures var p := Waiting(m.tcb[t].cpuid); var m1 := Marked(m, t, Blocked, m.tcb[t].alarm);
            && Shaped(m.ccb) && Mapped(m1.tcb, t) && p in ls
            && var r := RemoveMem(m1, t);
            && t in r.tcb && Shaped(r.ccb) && IsPlace(|r.ccb|, p)
            && (Head(r.ccb, p) == 0 || Head(r.ccb, p) in r.tcb)
            && Inv(PushMem(r, p, t), BlockLists(m, ls, t), 0)
            && Halted(m, ls, PushMem(r, p, t), BlockLists(m, ls, t), t)
  {
    hide Inv, RemoveMem, DropLists, Holds, Listed, Pushed;
    BlockKeeps(m, ls, t);
    RetiredKeeps(m, ls, t);
    ShapeOf(RemoveMem(Marked(m, t, Blocked, m.tcb[t].alarm), t), DropLists(ls, t), t);
  }

  lemma SameClock(a: seq<Ccb>, b: seq<Ccb>, c: nat, usec: nat)
    requires c < |a| && c < |b| && a[c].timer == b[c].timer && a[c].ticks == b[c].ticks
    ensures WakeTime(Rewound(a, c)[c], usec) == WakeTime(Rewound(b, c)[c], usec)
  {
  }

  /** A running task is no sleeper, so taking it out leaves the alarm queue and
      its clock alone. */
  lemma NotAsleep(m: Mem, ls: Lists, t: nat)
    requires Inv(m, ls, 0) && Valid(m, t) && m.tcb[t].state.Running?
    ensures var p := Sleeping(m.tcb[t].cpuid);
            && p in ls && DropLists(ls, t)[p] == ls[p] && t !in ls[p]
            && (forall x :: x in ls[p] ==> x in m.tcb)
            && Shaped(m.ccb) && Mapped(Marked(m, t, Blocked, m.tcb[t].alarm).tcb, t)
            && var r := RemoveMem(Marked(m, t, Blocked, m.tcb[t].alarm), t).ccb;
               r[p.cpu].timer == m.ccb[p.cpu].timer && r[p.cpu].ticks == m.ccb[p.cpu].ticks
               && |r| == |m.ccb|
  {
    var p := Sleeping(m.tcb[t].cpuid);
    HomeIsPlace(m, ls, 0, t);
    SettledSeat(m, ls, t);
    LinksMapped(m, ls, 0, t);
    assert Holds(m, p, ls[p], 0);
    NoHeadIs(m, ls, 0, t, p);
  }

  /** If the sleeper at the head is not due, none is: looking at the head is enough. */
  lemma HeadDecides(m: Mem, ls: Lists, c: nat, x: nat)
    requires Inv(m, ls, 0) && c < |m.ccb| && Sleeping(c) in ls && x in ls[Sleeping(c)]
    ensures m.ccb[c].timer in m.tcb && x in m.tcb
    ensures m.tcb[m.ccb[c].timer].alarm <= m.tcb[x].alarm
  {
    assert Holds(m, Sleeping(c), ls[Sleeping(c)], 0);
    var s := ls[Sleeping(c)];
    assert s[0] in s;
    var i :| 0 <= i < |s| && s[i] == x;
    if i > 0 { assert m.tcb[s[0]].alarm <= m.tcb[s[i]].alarm; }
  }
}
