/** The scheduler's queues: task control blocks chained through `prev` and
    `next`, the list heads and cursors of every CPU, and what the chains mean.
    A pid names a task control block; pid 0 is the null link. */
module Queues {
  const LEVELS: nat := 8
  const PRI_IDLE: nat := 7

  datatype RunState = Hybernated | Blocked | Running

  datatype Task = Task(priority: nat, cpuid: nat, state: RunState, prev: nat, next: nat, alarm: nat)

  /** Per-CPU data: list heads, one cursor per level, the clock of the alarm
      queue and the running task. */
  datatype Ccb = Ccb(active: seq<nat>, cursor: seq<nat>, blocked: nat, timer: nat, ticks: nat, current: nat)

  datatype Mem = Mem(tcb: map<nat, Task>, ccb: seq<Ccb>)

  /** The lists of the system. */
  datatype Place =
    | Active(cpu: nat, level: nat)
    | Waiting(cpu: nat)
    | Sleeping(cpu: nat)

  type Lists = map<Place, seq<nat>>

  predicate IsPlace(cpus: nat, p: Place) {
    p.cpu < cpus && (p.Active? ==> p.level < LEVELS)
  }

  // ---------------------------------------------------------------- one list

  function At(s: seq<nat>, i: int): nat {
    if 0 <= i < |s| then s[i] else 0
  }

  ghost predicate NoDup(s: seq<nat>) {
    forall i, j :: 0 <= i < j < |s| ==> s[i] != s[j]
  }

  /** Entry i of the chain.  The alarm queue is chained forwards only: its
      `prev` links stay null. */
  ghost predicate Link(tcb: map<nat, Task>, p: Place, s: seq<nat>, i: nat)
    requires i < |s|
  {
    && s[i] in tcb
    && s[i] != 0
    && tcb[s[i]].next == At(s, i + 1)
    && tcb[s[i]].prev == if p.Sleeping? then 0 else At(s, i - 1)
  }

  ghost predicate Linked(tcb: map<nat, Task>, p: Place, s: seq<nat>) {
    forall i :: 0 <= i < |s| ==> Link(tcb, p, s, i)
  }

  lemma InChain(tcb: map<nat, Task>, p: Place, s: seq<nat>, x: nat)
    requires Linked(tcb, p, s) && x in s
    ensures x in tcb && x != 0
  {
    var i :| 0 <= i < |s| && s[i] == x;
    assert Link(tcb, p, s, i);
  }

  function Head(ccb: seq<Ccb>, p: Place): nat
    requires IsPlace(|ccb|, p)
    requires |ccb[p.cpu].active| == LEVELS
  {
    match p
    case Active(c, l) => ccb[c].active[l]
    case Waiting(c) => ccb[c].blocked
    case Sleeping(c) => ccb[c].timer
  }

  predicate AtHome(t: Task, p: Place) {
    && t.cpuid == p.cpu
    && (t.state.Running? <==> p.Active?)
    && (p.Active? ==> t.priority == p.level)
  }

  ghost predicate Sorted(tcb: map<nat, Task>, s: seq<nat>)
    requires forall x :: x in s ==> x in tcb
  {
    forall i, j :: 0 <= i < j < |s| ==> tcb[s[i]].alarm <= tcb[s[j]].alarm
  }

  predicate Shaped(ccb: seq<Ccb>) {
    forall c :: 0 <= c < |ccb| ==> |ccb[c].active| == LEVELS && |ccb[c].cursor| == LEVELS
  }

  /** List s is what the memory holds at place p.  Task f is on the move and may
      not be at home. */
  ghost predicate Holds(m: Mem, p: Place, s: seq<nat>, f: nat)
    requires IsPlace(|m.ccb|, p) && Shaped(m.ccb)
  {
    && Linked(m.tcb, p, s)
    && NoDup(s)
    && Head(m.ccb, p) == At(s, 0)
    && (forall x :: x in s ==> x in m.tcb && x != 0)
    && (forall x :: x in s && x != f ==> AtHome(m.tcb[x], p))
    && (p.Active? ==> var r := m.ccb[p.cpu].cursor[p.level]; r == 0 || r in s)
    && (p.Sleeping? ==> Sorted(m.tcb, s))
  }

  // ---------------------------------------------------------------- all lists

  ghost predicate Listed(ls: Lists, t: nat) {
    exists p :: p in ls && t in ls[p]
  }

  ghost predicate InOneList(ls: Lists) {
    forall p, q, x :: p in ls && q in ls && x in ls[p] && x in ls[q] ==> p == q
  }

  /** The memory holds exactly the lists `ls`: every list is chained and headed
      as it should be, every task in it belongs there and nowhere else, and a
      task in no list has null links.  Task f is exempt. */
  ghost predicate Inv(m: Mem, ls: Lists, f: nat) {
    && Shaped(m.ccb)
    && (forall p :: p in ls <==> IsPlace(|m.ccb|, p))
    && (forall p :: p in ls ==> Holds(m, p, ls[p], f))
    && InOneList(ls)
    && (forall t :: t in m.tcb && t != f && !Listed(ls, t) ==> m.tcb[t].prev == 0 && m.tcb[t].next == 0)
    && 0 !in m.tcb
  }

  ghost predicate SameButLinks(a: Task, b: Task) {
    a.(prev := 0, next := 0) == b.(prev := 0, next := 0)
  }

  lemma InListedTask(m: Mem, ls: Lists, f: nat, p: Place, k: nat)
    requires Inv(m, ls, f) && p in ls && k < |ls[p]|
    ensures ls[p][k] in m.tcb && ls[p][k] != 0
    ensures ls[p][k] != f ==> AtHome(m.tcb[ls[p][k]], p)
    ensures m.tcb[ls[p][k]].next == At(ls[p], k + 1)
    ensures m.tcb[ls[p][k]].prev == if p.Sleeping? then 0 else At(ls[p], k - 1)
  {
    assert Holds(m, p, ls[p], f);
    assert Link(m.tcb, p, ls[p], k);
  }

  /** One list changes, and only task t enters or leaves it. */
  lemma Relist(m: Mem, ls: Lists, p: Place, t: nat, s: seq<nat>, m': Mem)
    requires Inv(m, ls, t) && p in ls && t in m.tcb
    requires forall q :: q in ls && q != p ==> t !in ls[q]
    requires forall x :: x in s ==> x in ls[p] || x == t
    requires forall x :: x in ls[p] ==> x in s || x == t
    requires m'.tcb.Keys == m.tcb.Keys
    requires forall x :: x in m.tcb && x != t ==> SameButLinks(m.tcb[x], m'.tcb[x])
    requires forall x :: x in m.tcb && x != t && x !in ls[p] ==> m'.tcb[x] == m.tcb[x]
    requires |m'.ccb| == |m.ccb| && Shaped(m'.ccb)
    requires forall q :: q in ls && q != p ==> Head(m'.ccb, q) == Head(m.ccb, q)
    requires forall q :: q in ls && q != p && q.Active?
               ==> m'.ccb[q.cpu].cursor[q.level] == m.ccb[q.cpu].cursor[q.level]
    requires Holds(m', p, s, t)
    ensures Inv(m', ls[p := s], t)
  {
    hide Holds;
    var ls' := ls[p := s];
    forall q | q in ls' ensures Holds(m', q, ls'[q], t) {
      if q != p { OtherListHolds(m, ls, p, t, m', q); }
    }
    RelistUnique(ls, p, t, s);
    forall x | x in m'.tcb && x != t && !Listed(ls', x) ensures m'.tcb[x].prev == 0 && m'.tcb[x].next == 0 {
      StillUnlisted(ls, p, t, s, x);
    }
  }

  lemma StillUnlisted(ls: Lists, p: Place, t: nat, s: seq<nat>, x: nat)
    requires p in ls && x != t
    requires forall y :: y in ls[p] ==> y in s || y == t
    requires !Listed(ls[p := s], x)
    ensures !Listed(ls, x) && x !in ls[p]
  {
    forall q | q in ls ensures x !in ls[q] {
      assert x !in ls[p := s][q];
    }
  }

  lemma OtherListHolds(m: Mem, ls: Lists, p: Place, t: nat, m': Mem, q: Place)
    requires Inv(m, ls, t) && p in ls && q in ls && q != p && t !in ls[q]
    requires m'.tcb.Keys == m.tcb.Keys
    requires forall x :: x in m.tcb && x != t && x !in ls[p] ==> m'.tcb[x] == m.tcb[x]
    requires |m'.ccb| == |m.ccb| && Shaped(m'.ccb)
    requires Head(m'.ccb, q) == Head(m.ccb, q)
    requires q.Active? ==> m'.ccb[q.cpu].cursor[q.level] == m.ccb[q.cpu].cursor[q.level]
    ensures Holds(m', q, ls[q], t)
  {
    var s := ls[q];
    assert Holds(m, q, s, t);
    forall x | x in s ensures m'.tcb[x] == m.tcb[x] {
      assert x in ls[q];
    }
    forall i | 0 <= i < |s| ensures Link(m'.tcb, q, s, i) {
      assert Link(m.tcb, q, s, i);
      assert s[i] in s;
    }
  }

  lemma RelistUnique(ls: Lists, p: Place, t: nat, s: seq<nat>)
    requires InOneList(ls) && p in ls
    requires forall q :: q in ls && q != p ==> t !in ls[q]
    requires forall x :: x in s ==> x in ls[p] || x == t
    ensures InOneList(ls[p := s])
  {
  }

  /** A task on the move has arrived. */
  lemma Settle(m: Mem, ls: Lists, t: nat)
    requires Inv(m, ls, t) && t in m.tcb
    requires forall p :: p in ls && t in ls[p] ==> AtHome(m.tcb[t], p)
    requires !Listed(ls, t) ==> m.tcb[t].prev == 0 && m.tcb[t].next == 0
    ensures Inv(m, ls, 0)
  {
    forall p | p in ls ensures Holds(m, p, ls[p], 0) {
      assert Holds(m, p, ls[p], t);
    }
  }

  lemma Unsettle(m: Mem, ls: Lists, t: nat)
    requires Inv(m, ls, 0)
    ensures Inv(m, ls, t)
  {
    forall p | p in ls ensures Holds(m, p, ls[p], t) {
      assert Holds(m, p, ls[p], 0);
    }
  }

  // ---------------------------------------------------------------- chaining

  function WithNext(tcb: map<nat, Task>, x: nat, v: nat): map<nat, Task>
    requires x in tcb
  {
    tcb[x := tcb[x].(next := v)]
  }

  function WithPrev(tcb: map<nat, Task>, x: nat, v: nat): map<nat, Task>
    requires x in tcb
  {
    tcb[x := tcb[x].(prev := v)]
  }

  ghost predicate Mapped(tcb: map<nat, Task>, t: nat) {
    && t in tcb
    && (tcb[t].prev == 0 || tcb[t].prev in tcb)
    && (tcb[t].next == 0 || tcb[t].next in tcb)
  }

  /** The neighbours of t pointed at each other. */
  function Bypassed(tcb: map<nat, Task>, t: nat): (r: map<nat, Task>)
    requires Mapped(tcb, t)
    ensures r.Keys == tcb.Keys
  {
    var a := if tcb[t].prev != 0 then WithNext(tcb, tcb[t].prev, tcb[t].next) else tcb;
    if tcb[t].next != 0 then WithPrev(a, tcb[t].next, tcb[t].prev) else a
  }

  /** Task t chained in front of the list that starts with h. */
  function Pushed(tcb: map<nat, Task>, t: nat, h: nat): (r: map<nat, Task>)
    requires t in tcb && (h == 0 || h in tcb)
    ensures r.Keys == tcb.Keys
  {
    var a := WithNext(WithPrev(tcb, t, 0), t, h);
    if h != 0 then WithPrev(a, h, t) else a
  }

  function Without(s: seq<nat>, k: nat): seq<nat>
    requires k < |s|
  {
    s[..k] + s[k + 1..]
  }

  lemma BypassedAt(tcb: map<nat, Task>, t: nat, x: nat)
    requires Mapped(tcb, t) && x in tcb
    ensures var a, b := tcb[t].prev, tcb[t].next;
            Bypassed(tcb, t)[x] == tcb[x].(next := if a != 0 && x == a then b else tcb[x].next,
                                           prev := if b != 0 && x == b then a else tcb[x].prev)
  {
  }

  lemma BypassedLinked(tcb: map<nat, Task>, p: Place, s: seq<nat>, k: nat)
    requires Linked(tcb, p, s) && NoDup(s) && k < |s|
    requires p.Sleeping? ==> k == 0
    ensures Mapped(tcb, s[k])
    ensures Linked(Bypassed(tcb, s[k]), p, Without(s, k))
    ensures NoDup(Without(s, k))
    ensures forall x :: x in tcb && x !in s ==> Bypassed(tcb, s[k])[x] == tcb[x]
    ensures forall x :: x in tcb ==> SameButLinks(tcb[x], Bypassed(tcb, s[k])[x])
  {
    hide Bypassed;
    assert Link(tcb, p, s, k);
    assert k > 0 ==> Link(tcb, p, s, k - 1);
    assert k + 1 < |s| ==> Link(tcb, p, s, k + 1);
    forall x | x in tcb
      ensures SameButLinks(tcb[x], Bypassed(tcb, s[k])[x])
      ensures x !in s ==> Bypassed(tcb, s[k])[x] == tcb[x]
    {
      BypassedAt(tcb, s[k], x);
    }
    BypassedChain(tcb, p, s, k);
  }

  lemma BypassedChain(tcb: map<nat, Task>, p: Place, s: seq<nat>, k: nat)
    requires Linked(tcb, p, s) && NoDup(s) && k < |s| && Mapped(tcb, s[k])
    requires p.Sleeping? ==> k == 0
    ensures Linked(Bypassed(tcb, s[k]), p, Without(s, k))
  {
    hide Bypassed;
    var r := Bypassed(tcb, s[k]);
    var w := Without(s, k);
    forall i | 0 <= i < |w| ensures Link(r, p, w, i) {
      BypassedLink(tcb, p, s, k, if i < k then i else i + 1);
    }
  }

  /** What becomes of entry j of the chain when entry k is bypassed. */
  lemma BypassedLink(tcb: map<nat, Task>, p: Place, s: seq<nat>, k: nat, j: nat)
    requires Linked(tcb, p, s) && NoDup(s) && k < |s| && Mapped(tcb, s[k]) && j < |s| && j != k
    requires p.Sleeping? ==> k == 0
    ensures s[j] in tcb && s[j] != 0
    ensures Bypassed(tcb, s[k])[s[j]].next == if j + 1 == k then At(s, k + 1) else At(s, j + 1)
    ensures Bypassed(tcb, s[k])[s[j]].prev
            == if p.Sleeping? then 0 else if j == k + 1 then At(s, k - 1) else At(s, j - 1)
  {
    hide Bypassed;
    assert Link(tcb, p, s, k);
    assert Link(tcb, p, s, j);
    BypassedAt(tcb, s[k], s[j]);
  }

  lemma PushedLinked(tcb: map<nat, Task>, p: Place, s: seq<nat>, t: nat)
    requires Linked(tcb, p, s) && NoDup(s) && t in tcb && t != 0 && t !in s && !p.Sleeping?
    ensures At(s, 0) == 0 || At(s, 0) in tcb
    ensures Linked(Pushed(tcb, t, At(s, 0)), p, [t] + s)
    ensures NoDup([t] + s)
    ensures forall x :: x in tcb && x !in s && x != t ==> Pushed(tcb, t, At(s, 0))[x] == tcb[x]
    ensures forall x :: x in tcb ==> SameButLinks(tcb[x], Pushed(tcb, t, At(s, 0))[x])
  {
    assert |s| > 0 ==> Link(tcb, p, s, 0);
    var r := Pushed(tcb, t, At(s, 0));
    var w := [t] + s;
    forall i | 0 <= i < |w| ensures Link(r, p, w, i) {
      if i > 0 {
        assert w[i] == s[i - 1];
        assert Link(tcb, p, s, i - 1);
      }
    }
  }

  /** Task t chained between `prev` and `next` in the alarm queue. */
  function Inserted(tcb: map<nat, Task>, t: nat, prev: nat, next: nat): (r: map<nat, Task>)
    requires t in tcb && (prev == 0 || prev in tcb)
    ensures r.Keys == tcb.Keys
  {
    var a := WithNext(tcb, t, next);
    if prev != 0 then WithNext(a, prev, t) else a
  }

  function Spliced(s: seq<nat>, k: nat, t: nat): seq<nat>
    requires k <= |s|
  {
    s[..k] + [t] + s[k..]
  }

  lemma InsertedLinked(tcb: map<nat, Task>, p: Place, s: seq<nat>, k: nat, t: nat)
    requires Linked(tcb, p, s) && NoDup(s) && t in tcb && t != 0 && t !in s && p.Sleeping? && k <= |s|
    requires tcb[t].prev == 0
    ensures At(s, k - 1) == 0 || At(s, k - 1) in tcb
    ensures Linked(Inserted(tcb, t, At(s, k - 1), At(s, k)), p, Spliced(s, k, t))
    ensures NoDup(Spliced(s, k, t))
    ensures forall x :: x in tcb && x !in s && x != t ==> Inserted(tcb, t, At(s, k - 1), At(s, k))[x] == tcb[x]
    ensures forall x :: x in tcb ==> SameButLinks(tcb[x], Inserted(tcb, t, At(s, k - 1), At(s, k))[x])
  {
    assert k > 0 ==> Link(tcb, p, s, k - 1);
    var r := Inserted(tcb, t, At(s, k - 1), At(s, k));
    var w := Spliced(s, k, t);
    forall i | 0 <= i < |w| ensures Link(r, p, w, i) {
      if i < k { assert w[i] == s[i]; assert Link(tcb, p, s, i); }
      if i > k { assert w[i] == s[i - 1]; assert Link(tcb, p, s, i - 1); }
    }
  }
}
