/** The address spaces of several tasks on one allocator: none takes a frame of another,
    and what one gives back the others can have. */
module Spaces {
  import opened FreeList
  import opened Requests
  import opened PageTable
  import opened Vmm
  import opened TextSegment
  import opened Unmap

  /** The tables of a task and its counters, with what the counters stood at when it had
      no tables. */
  datatype Task = Task(tree: Tree, allocmem: int, linkmem: int, alloc0: int, link0: int)

  function Books(k: Task, list: seq<Entry>): Mem { Mem(k.tree, list, k.allocmem, k.linkmem) }

  ghost predicate Booked(k: Task, list: seq<Entry>) {
    Shaped(k.tree) && Counted(Books(k, list), k.alloc0, k.link0)
  }

  /** The frames of all tasks. */
  function Held(tasks: seq<Task>): set<nat> {
    set i, f | 0 <= i < |tasks| && f in AllFrames(tasks[i].tree) :: f
  }

  ghost predicate OwnsApart(tasks: seq<Task>, i: nat, j: nat)
    requires i < |tasks| && j < |tasks|
  {
    i != j ==> AllFrames(tasks[i].tree) !! AllFrames(tasks[j].tree)
  }

  /** Every frame is free or belongs to one entry of one task. */
  ghost predicate Shared(tasks: seq<Task>, list: seq<Entry>, all: set<nat>) {
    && Canonical(list)
    && (forall i :: 0 <= i < |tasks| ==> Owning(tasks[i].tree, FreeSet(list)))
    && (forall i, j :: 0 <= i < |tasks| && 0 <= j < |tasks| ==> OwnsApart(tasks, i, j))
    && FreeSet(list) + Held(tasks) == all
  }

  // ---------------------------------------------------------------- one task at work

  lemma OwnsNothingFree(t: Tree, free: set<nat>)
    requires Owning(t, free)
    ensures AllFrames(t) !! free
  {
    hide Frames;
    forall f | f in AllFrames(t) ensures f !in free {
      var k :| k in t && f in Frames(t[k]);
    }
  }

  lemma OwningElse(t: Tree, free: set<nat>, free': set<nat>)
    requires Owning(t, free) && AllFrames(t) !! free'
    ensures Owning(t, free')
  {
    hide Frames;
    forall k | k in t ensures Frames(t[k]) !! free' {
      forall f | f in Frames(t[k]) ensures f !in free' { assert f in AllFrames(t); }
    }
  }

  lemma HeldMember(tasks: seq<Task>, f: nat)
    ensures f in Held(tasks) <==> exists i :: 0 <= i < |tasks| && f in AllFrames(tasks[i].tree)
  {
    hide AllFrames;
  }

  /** What a task does with the free frames and its own leaves the others alone. */
  lemma OthersUntouched(tasks: seq<Task>, list: seq<Entry>, all: set<nat>, i: nat, k: Task, list': seq<Entry>)
    requires Shared(tasks, list, all) && i < |tasks| && Canonical(list') && Owning(k.tree, FreeSet(list'))
    requires FreeSet(list') + AllFrames(k.tree) == FreeSet(list) + AllFrames(tasks[i].tree)
    ensures Shared(tasks[i := k], list', all)
  {
    hide Canonical, FreeSet, Owning, AllFrames, Held;
    var now := tasks[i := k];
    OwnsNothingFree(k.tree, FreeSet(list'));
    forall j | 0 <= j < |now| && j != i
      ensures Owning(now[j].tree, FreeSet(list')) && AllFrames(now[j].tree) !! AllFrames(k.tree)
    {
      assert OwnsApart(tasks, i, j);
      OwnsNothingFree(tasks[j].tree, FreeSet(list));
      assert AllFrames(tasks[j].tree) !! FreeSet(list') + AllFrames(k.tree);
      OwningElse(tasks[j].tree, FreeSet(list), FreeSet(list'));
    }
    forall a, b | 0 <= a < |now| && 0 <= b < |now| ensures OwnsApart(now, a, b) {
      assert OwnsApart(tasks, a, b);
    }
    forall f ensures f in FreeSet(list') + Held(now) <==> f in FreeSet(list) + Held(tasks) { SameFrames(tasks, list, i, k, list', f); }
  }

  lemma SameFrames(tasks: seq<Task>, list: seq<Entry>, i: nat, k: Task, list': seq<Entry>, f: nat)
    requires i < |tasks| && FreeSet(list') + AllFrames(k.tree) == FreeSet(list) + AllFrames(tasks[i].tree)
    ensures f in FreeSet(list') + Held(tasks[i := k]) <==> f in FreeSet(list) + Held(tasks)
  {
    hide FreeSet, AllFrames, Held;
    var now := tasks[i := k];
    HeldMember(tasks, f);
    HeldMember(now, f);
    assert f in FreeSet(list') + AllFrames(k.tree) <==> f in FreeSet(list) + AllFrames(tasks[i].tree);
    if j :| 0 <= j < |now| && f in AllFrames(now[j].tree) {
      if j != i { assert f in AllFrames(tasks[j].tree); }
    }
    if j :| 0 <= j < |tasks| && f in AllFrames(tasks[j].tree) {
      if j != i { assert f in AllFrames(now[j].tree); }
    }
    assert now[i] == k;
  }

  // ---------------------------------------------------------------- isolation

  /** A page that is not shared is translated to a frame of its own. */
  lemma OwnPage(t: Tree, v: nat)
    requires Translate(t, v).To? && !Translate(t, v).shared
    ensures Translate(t, v).frame in AllFrames(t)
  {
    hide AllFrames;
    var k := if L2(v / 512) in t && t[L2(v / 512)].Slot? then L2(v / 512) else L3(v);
    assert k in t && Translate(t, v).frame in Frames(t[k]);
    FrameOf(t, k, Translate(t, v).frame);
  }

  lemma FrameOf(t: Tree, k: Key, f: nat)
    requires k in t && f in Frames(t[k])
    ensures f in AllFrames(t)
  {
  }

  /** Two tasks never see the same frame through pages that neither of them shares, and
      nobody sees a free one so. */
  lemma Isolated(tasks: seq<Task>, list: seq<Entry>, all: set<nat>, i: nat, j: nat, v: nat, w: nat)
    requires Shared(tasks, list, all) && i < |tasks| && j < |tasks|
    requires Translate(tasks[i].tree, v).To? && !Translate(tasks[i].tree, v).shared
    requires Translate(tasks[j].tree, w).To? && !Translate(tasks[j].tree, w).shared
    ensures Translate(tasks[i].tree, v).frame !in FreeSet(list)
    ensures i != j ==> Translate(tasks[i].tree, v).frame != Translate(tasks[j].tree, w).frame
  {
    hide Canonical, FreeSet, AllFrames, Held, Translate, Owning;
    OwnPage(tasks[i].tree, v);
    OwnPage(tasks[j].tree, w);
    OwnsNothingFree(tasks[i].tree, FreeSet(list));
    assert OwnsApart(tasks, i, j);
  }

  // ---------------------------------------------------------------- the code

  /** The allocator and the tables of all tasks. */
  class Machine {
    var list: seq<Entry>
    var tasks: seq<Task>
    ghost var lost: bool
    ghost const all: set<nat>

    ghost predicate Sound()
      reads this
    {
      && Based(list)
      && (forall i :: 0 <= i < |tasks| ==> Booked(tasks[i], list))
      && (lost || Shared(tasks, list, all))
    }

    /** Tasks without tables. */
    constructor (list: seq<Entry>, counters: seq<(int, int)>)
      requires Canonical(list)
      ensures Sound() && !lost && all == FreeSet(list) && this.list == list && |tasks| == |counters|
      ensures forall i :: 0 <= i < |tasks| ==> tasks[i] == Task(map[], counters[i].0, counters[i].1, counters[i].0, counters[i].1)
    {
      this.list := list;
      tasks := seq(|counters|, i requires 0 <= i < |counters| => Task(map[], counters[i].0, counters[i].1, counters[i].0, counters[i].1));
      lost, all := false, FreeSet(list);
      new;
      NothingHeld(tasks, list);
    }

    /** Task i with the allocator in hand. */
    method Enter(i: nat) returns (s: Space)
      requires Sound() && i < |tasks|
      ensures fresh(s) && s.Sound() && s.View() == Books(tasks[i], list) && s.lost == lost
      ensures s.alloc0 == tasks[i].alloc0 && s.link0 == tasks[i].link0
      ensures s.all == FreeSet(list) + AllFrames(tasks[i].tree)
    {
      hide Shaped, Counted, Owning, Canonical, AllFrames, FreeSet, Held, Space.Sound;
      var k := tasks[i];
      s := new Space.Resume(k.tree, list, k.allocmem, k.linkmem, k.alloc0, k.link0, FreeSet(list) + AllFrames(k.tree), lost);
    }

    /** Back from task i. */
    method Leave(i: nat, s: Space)
      requires Sound() && i < |tasks| && s.Sound() && (lost ==> s.lost)
      requires s.alloc0 == tasks[i].alloc0 && s.link0 == tasks[i].link0
      requires s.all == FreeSet(list) + AllFrames(tasks[i].tree)
      modifies this
      ensures Sound() && list == s.list && lost == s.lost
      ensures tasks == old(tasks)[i := Task(s.tree, s.allocmem, s.linkmem, old(tasks[i]).alloc0, old(tasks[i]).link0)]
    {
      hide Canonical, FreeSet, Owning, AllFrames, Held, Shared, Shaped, Grounded, Based;
      var k := Task(s.tree, s.allocmem, s.linkmem, tasks[i].alloc0, tasks[i].link0);
      if !s.lost {
        OthersUntouched(tasks, list, all, i, k, s.list);
      }
      tasks, list, lost := tasks[i := k], s.list, s.lost;
    }

    /** vmm_map for task i: its pages are mapped, and the other tasks are left alone. */
    method Map(i: nat, bss0: nat, phys0: nat, n: nat, idle: bool, core: bool) returns (r: Result, ghost done: nat)
      requires Sound() && i < |tasks| && bss0 + n <= PAGES && Slotless(tasks[i].tree, bss0, bss0 + n)
      modifies this
      ensures Sound() && |tasks| == old(|tasks|) && forall j :: 0 <= j < |tasks| && j != i ==> tasks[j] == old(tasks[j])
      ensures done <= n && (r == Ok ==> done == n)
      ensures Mapped(Data(bss0, phys0, FreeSet(old(list))), old(tasks[i].tree), tasks[i].tree, bss0, bss0 + done, lost)
      ensures phys0 != 0 || n < SLOT || Safe(old(list)) ==> lost == old(lost)
    {
      hide Sound, Mapped, Slotless, Clear, Safe, Leads, Short, Plenty, Ample, Blocked, WantsSlot, Space.Sound, FreeSet, AllFrames;
      var s := Enter(i);
      r, done := s.Map(bss0, phys0, n, idle, core);
      Leave(i, s);
    }

    /** vmm_maptext for task i. */
    method MapText(i: nat, bss0: nat, frames: seq<nat>, n: nat) returns (r: Result, ghost done: nat)
      requires Sound() && i < |tasks| && bss0 + n <= PAGES && Slotless(tasks[i].tree, bss0, bss0 + n) && n <= |frames|
      modifies this
      ensures Sound() && |tasks| == old(|tasks|) && forall j :: 0 <= j < |tasks| && j != i ==> tasks[j] == old(tasks[j])
      ensures lost == old(lost) && done <= n && (r == Ok ==> done == n)
      ensures Mapped(Text(bss0, frames, FreeSet(old(list))), old(tasks[i].tree), tasks[i].tree, bss0, bss0 + done, lost)
    {
      hide Sound, Mapped, Slotless, Clear, Short, Roomy, Space.Sound, FreeSet, AllFrames;
      var s := Enter(i);
      r, done := TextSegment.MapText(s, bss0, frames, n);
      Leave(i, s);
    }

    /** vmm_free for task i. */
    method Free(i: nat, bss0: nat, n: nat, core: bool) returns (valid: bool)
      requires Sound() && i < |tasks| && bss0 + n <= PAGES
      modifies this
      ensures Sound() && |tasks| == old(|tasks|) && forall j :: 0 <= j < |tasks| && j != i ==> tasks[j] == old(tasks[j])
      ensures lost == old(lost) && valid == (n > 0)
      ensures valid ==> Unmap.Freed(old(tasks[i].tree), Reach(old(tasks[i].tree), bss0, n, core), tasks[i].tree)
    {
      hide Sound, Unmap.Freed, Reach, Space.Sound, FreeSet, AllFrames;
      var s := Enter(i);
      valid := Unmap.Free(s, bss0, n, core);
      Leave(i, s);
    }

    /** A task gone: its counters are back, and its frames are free for the others. */
    method Exit(i: nat)
      requires Sound() && i < |tasks|
      modifies this
      ensures Sound() && |tasks| == old(|tasks|) && forall j :: 0 <= j < |tasks| && j != i ==> tasks[j] == old(tasks[j])
      ensures tasks[i] == Task(map[], old(tasks[i]).alloc0, old(tasks[i]).link0, old(tasks[i]).alloc0, old(tasks[i]).link0)
      ensures lost == old(lost)
      ensures !lost ==> FreeSet(list) == FreeSet(old(list)) + AllFrames(old(tasks[i].tree))
    {
      hide Sound, Canonical, Space.Sound, FreeSet, AllFrames;
      var s := Enter(i);
      FreeAll(s);
      Leave(i, s);
    }
  }

  lemma NothingHeld(tasks: seq<Task>, list: seq<Entry>)
    requires Canonical(list)
    requires forall i :: 0 <= i < |tasks| ==> tasks[i].tree == map[] && tasks[i].allocmem == tasks[i].alloc0 && tasks[i].linkmem == tasks[i].link0
    ensures Based(list) && (forall i :: 0 <= i < |tasks| ==> Booked(tasks[i], list)) && Shared(tasks, list, FreeSet(list))
  {
    forall i | 0 <= i < |tasks| ensures AllFrames(tasks[i].tree) == {} {}
    assert Held(tasks) == {};
  }

  /** When all tasks are gone every frame is free again. */
  lemma NothingLeaks(tasks: seq<Task>, list: seq<Entry>, all: set<nat>)
    requires Shared(tasks, list, all) && forall i :: 0 <= i < |tasks| ==> tasks[i].tree == map[]
    ensures FreeSet(list) == all
  {
    forall i | 0 <= i < |tasks| ensures AllFrames(tasks[i].tree) == {} {}
    assert Held(tasks) == {};
  }
}
