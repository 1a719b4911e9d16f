/** The FS task's file table and the descriptors that refer to it. */
module Descriptors {
  datatype Path = Hole | Live(name: string)

  datatype Fcb = Fcb(path: Path, nopen: nat)

  /** Open files by fid, -1 where a slot is free; nfiles counts the others. */
  datatype Task = Task(rootdir: int, workdir: int, files: seq<int>, nfiles: int)

  /** Held are the references other than those of tasks: mounts and devices. */
  datatype State = State(fcb: seq<Fcb>, tasks: seq<Task>, held: multiset<int>)

  datatype Event =
    | Add(name: string)
    | Hold(fid: int)
    | Del(fid: int)
    | Open(t: nat, fid: int, refused: bool, slot: nat)
    | Close(t: nat, slot: nat, keep: bool)
    | RootDir(t: nat, fid: int)
    | WorkDir(t: nat, fid: int)

  // ---------------------------------------------------------------- the file table

  predicate IsLive(f: seq<Fcb>, fid: int) { 0 <= fid < |f| && f[fid].path.Live? }

  /** The first entry with a path, or the length. */
  function Find(f: seq<Fcb>, p: Path): (i: nat)
    ensures i <= |f|
    ensures i < |f| ==> f[i].path == p
    ensures forall k :: 0 <= k < i ==> f[k].path != p
  {
    if f == [] then 0 else if f[0].path == p then 0 else 1 + Find(f[1..], p)
  }

  /** fcb_add: an entry that is there, the first hole, or a new one. */
  function AddFcb(f: seq<Fcb>, name: string): (r: (nat, seq<Fcb>))
  {
    var i := Find(f, Live(name));
    if i < |f| then (i, f)
    else
      var h := Find(f, Hole);
      if h < |f| then (h, f[h := Fcb(Live(name), f[h].nopen)]) else (|f|, f + [Fcb(Live(name), 0)])
  }

  /** Holes at the end cut off. */
  function Trim(f: seq<Fcb>): (r: seq<Fcb>)
    ensures r <= f
    ensures r != [] ==> r[|r| - 1].path.Live?
    ensures forall k :: |r| <= k < |f| ==> f[k].path.Hole?
  {
    if f != [] && f[|f| - 1].path.Hole? then Trim(f[..|f| - 1]) else f
  }

  /** fcb_del: one reference less, and none left frees the entry. */
  function DelFcb(f: seq<Fcb>, fid: int): seq<Fcb> {
    if !IsLive(f, fid) then f
    else
      var n := if f[fid].nopen > 0 then f[fid].nopen - 1 else 0;
      if n == 0 then Trim(f[fid := Fcb(Hole, 0)]) else f[fid := Fcb(f[fid].path, n)]
  }

  // ---------------------------------------------------------------- descriptors

  function FreeSlot(files: seq<int>): (i: nat)
    ensures i <= |files|
    ensures i < |files| ==> files[i] == -1
    ensures forall k :: 0 <= k < i ==> files[k] != -1
  {
    if files == [] then 0 else if files[0] == -1 then 0 else 1 + FreeSlot(files[1..])
  }

  /** The slot a new descriptor gets: the one asked for when it is free, the first
      free one, or one more. */
  function SlotFor(files: seq<int>, slot: nat): nat {
    if 0 < slot <= |files| && files[slot - 1] == -1 then slot - 1 else FreeSlot(files)
  }

  function OpenIn(task: Task, fid: int, slot: nat): Task {
    var i := SlotFor(task.files, slot);
    task.(files := if i < |task.files| then task.files[i := fid] else task.files + [fid], nfiles := task.nfiles + 1)
  }

  function TrimFiles(files: seq<int>): (r: seq<int>)
    ensures r <= files
    ensures forall k :: |r| <= k < |files| ==> files[k] == -1
  {
    if files != [] && files[|files| - 1] == -1 then TrimFiles(files[..|files| - 1]) else files
  }

  predicate ValidSlot(f: seq<Fcb>, task: Task, slot: nat) {
    0 < slot <= |task.files| && task.files[slot - 1] != -1 && IsLive(f, task.files[slot - 1])
  }

  function CloseIn(task: Task, slot: nat, keep: bool): Task
    requires 0 < slot <= |task.files|
  {
    var files := task.files[slot - 1 := -1];
    task.(files := if keep then files else TrimFiles(files), nfiles := task.nfiles - 1)
  }

  /** One more reference, when the entry is still within the table. */
  function More(f: seq<Fcb>, fid: int): seq<Fcb> {
    if 0 <= fid < |f| then f[fid := Fcb(f[fid].path, f[fid].nopen + 1)] else f
  }

  function Step(s: State, e: Event): State {
    match e
    case Add(name) => s.(fcb := AddFcb(s.fcb, name).1)
    case Hold(fid) => if IsLive(s.fcb, fid) then s.(fcb := More(s.fcb, fid), held := s.held + multiset{fid}) else s
    case Del(fid) => s.(fcb := DelFcb(s.fcb, fid), held := s.held - multiset{fid})
    case Open(t, fid, refused, slot) =>
      if t < |s.tasks| && IsLive(s.fcb, fid) && !refused then
        s.(fcb := More(s.fcb, fid), tasks := s.tasks[t := OpenIn(s.tasks[t], fid, slot)])
      else s
    case Close(t, slot, keep) =>
      if t < |s.tasks| && ValidSlot(s.fcb, s.tasks[t], slot) then
        s.(fcb := DelFcb(s.fcb, s.tasks[t].files[slot - 1]), tasks := s.tasks[t := CloseIn(s.tasks[t], slot, keep)])
      else s
    case RootDir(t, fid) =>
      if t < |s.tasks| && IsLive(s.fcb, fid) then
        s.(fcb := More(DelFcb(s.fcb, s.tasks[t].rootdir), fid), tasks := s.tasks[t := s.tasks[t].(rootdir := fid)])
      else s
    case WorkDir(t, fid) =>
      if t < |s.tasks| && IsLive(s.fcb, fid) then
        s.(fcb := More(DelFcb(s.fcb, s.tasks[t].workdir), fid), tasks := s.tasks[t := s.tasks[t].(workdir := fid)])
      else s
  }

  // ---------------------------------------------------------------- the invariant

  /** The fids of the open slots. */
  function Opened(files: seq<int>): multiset<int> { multiset(files)[-1 := 0] }

  function TaskRefs(task: Task): multiset<int> {
    Opened(task.files) + multiset{task.rootdir, task.workdir}
  }

  function AllRefs(tasks: seq<Task>): multiset<int> {
    if tasks == [] then multiset{} else AllRefs(tasks[..|tasks| - 1]) + TaskRefs(tasks[|tasks| - 1])
  }

  function Refs(s: State): multiset<int> { AllRefs(s.tasks) + s.held }

  /** Counts are right, nothing dangles, live paths are distinct and the table ends
      with a live entry. */
  ghost predicate Sound(f: seq<Fcb>, refs: multiset<int>) {
    Counted(f, refs) && (f != [] ==> f[|f| - 1].path.Live?)
  }

  ghost predicate Counted(f: seq<Fcb>, refs: multiset<int>) {
    && (forall fid :: 0 <= fid < |f| ==> f[fid].nopen == refs[fid])
    && (forall r :: r in refs ==> IsLive(f, r))
    && (forall i, j :: 0 <= i < j < |f| && f[i].path.Live? ==> f[i].path != f[j].path)
  }

  predicate Tallied(task: Task) {
    task.nfiles == |task.files| - multiset(task.files)[-1]
  }

  ghost predicate Inv(s: State) {
    Sound(s.fcb, Refs(s)) && forall t :: 0 <= t < |s.tasks| ==> Tallied(s.tasks[t])
  }

  // ---------------------------------------------------------------- the table keeps it

  lemma AddSound(f: seq<Fcb>, refs: multiset<int>, name: string)
    requires Sound(f, refs)
    ensures var (i, g) := AddFcb(f, name);
            Sound(g, refs) && i < |g| && g[i].path == Live(name)
            && (forall k :: 0 <= k < |f| && f[k].path.Live? ==> k < |g| && g[k] == f[k])
  {
    var (i, g) := AddFcb(f, name);
    var n := |f|;
    assert n !in refs;
    forall r | r in refs ensures IsLive(g, r) { assert IsLive(f, r); }
  }

  lemma MoreSound(f: seq<Fcb>, refs: multiset<int>, fid: int)
    requires Sound(f, refs) && IsLive(f, fid)
    ensures Sound(More(f, fid), refs + multiset{fid})
  {
    var g := More(f, fid);
    forall r | r in refs + multiset{fid} ensures IsLive(g, r) {
      if r != fid { assert r in refs; }
    }
  }

  lemma DelSound(f: seq<Fcb>, refs: multiset<int>, fid: int)
    requires Sound(f, refs) && IsLive(f, fid) && fid in refs
    ensures Sound(DelFcb(f, fid), refs - multiset{fid})
    ensures forall k :: IsLive(f, k) && (k != fid || refs[fid] > 1) ==> IsLive(DelFcb(f, fid), k)
    ensures refs[fid] == 1 ==> !IsLive(DelFcb(f, fid), fid)
  {
    hide Counted, Trim;
    Dropped(f, refs, fid);
    if refs[fid] == 1 {
      TrimCounted(f[fid := Fcb(Hole, 0)], refs - multiset{fid});
    }
  }

  /** The entry with one reference less, before the end of the table is cut. */
  lemma Dropped(f: seq<Fcb>, refs: multiset<int>, fid: int)
    requires Counted(f, refs) && IsLive(f, fid) && fid in refs
    ensures f[fid].nopen == refs[fid] > 0
    ensures refs[fid] == 1 ==> Counted(f[fid := Fcb(Hole, 0)], refs - multiset{fid})
    ensures refs[fid] > 1 ==> Counted(f[fid := Fcb(f[fid].path, f[fid].nopen - 1)], refs - multiset{fid})
  {
    var left := refs - multiset{fid};
    forall r | r in left ensures IsLive(f, r) && (r == fid ==> refs[fid] > 1) { assert r in refs; }
  }

  lemma TrimCounted(f: seq<Fcb>, refs: multiset<int>)
    requires Counted(f, refs)
    ensures Sound(Trim(f), refs)
    ensures forall k :: IsLive(f, k) <==> IsLive(Trim(f), k)
  {
    var g := Trim(f);
    forall k ensures IsLive(f, k) <==> IsLive(g, k) {
      if 0 <= k < |g| { assert g[k] == f[k]; }
    }
    forall i | 0 <= i < |g| ensures g[i] == f[i] {}
    assert forall r :: r in refs ==> IsLive(f, r);
  }

  // ---------------------------------------------------------------- the tasks keep it

  lemma {:induction false} RefsPart(tasks: seq<Task>, t: nat)
    requires t < |tasks|
    ensures TaskRefs(tasks[t]) <= AllRefs(tasks)
  {
    hide TaskRefs;
    var n := |tasks| - 1;
    if t < n { RefsPart(tasks[..n], t); }
  }

  lemma {:induction false} RefsSet(tasks: seq<Task>, t: nat, x: Task)
    requires t < |tasks|
    ensures AllRefs(tasks[t := x]) == AllRefs(tasks) - TaskRefs(tasks[t]) + TaskRefs(x)
  {
    hide TaskRefs;
    var n := |tasks| - 1;
    RefsPart(tasks, t);
    if t < n {
      RefsSet(tasks[..n], t, x);
      RefsPart(tasks[..n], t);
      assert tasks[t := x][..n] == tasks[..n][t := x];
    } else {
      assert tasks[t := x][..n] == tasks[..n];
    }
  }

  /** One reference more in one task. */
  lemma RefsMore(s: State, t: nat, x: Task, fid: int)
    requires t < |s.tasks| && TaskRefs(x) == TaskRefs(s.tasks[t]) + multiset{fid}
    ensures AllRefs(s.tasks[t := x]) + s.held == Refs(s) + multiset{fid}
  {
    hide TaskRefs;
    RefsSet(s.tasks, t, x);
    RefsPart(s.tasks, t);
  }

  /** One less. */
  lemma RefsLess(s: State, t: nat, x: Task, fid: int)
    requires t < |s.tasks| && fid in TaskRefs(s.tasks[t]) && TaskRefs(x) == TaskRefs(s.tasks[t]) - multiset{fid}
    ensures fid in Refs(s) && AllRefs(s.tasks[t := x]) + s.held == Refs(s) - multiset{fid}
  {
    hide TaskRefs;
    RefsSet(s.tasks, t, x);
    RefsPart(s.tasks, t);
  }

  lemma OpenRefs(task: Task, fid: int, slot: nat)
    requires Tallied(task) && fid != -1
    ensures TaskRefs(OpenIn(task, fid, slot)) == TaskRefs(task) + multiset{fid}
    ensures Tallied(OpenIn(task, fid, slot))
  {
    var i := SlotFor(task.files, slot);
    var was := multiset(task.files);
    if i < |task.files| {
      assert multiset(task.files[i := fid]) == was - multiset{-1} + multiset{fid};
      assert -1 in was;
      assert (was - multiset{-1} + multiset{fid})[-1 := 0] == was[-1 := 0] + multiset{fid};
    } else {
      assert multiset(task.files + [fid]) == was + multiset{fid};
      assert (was + multiset{fid})[-1 := 0] == was[-1 := 0] + multiset{fid};
    }
  }

  lemma {:induction false} TrimmedFiles(files: seq<int>)
    ensures Opened(TrimFiles(files)) == Opened(files)
    ensures |TrimFiles(files)| - multiset(TrimFiles(files))[-1] == |files| - multiset(files)[-1]
  {
    if files != [] && files[|files| - 1] == -1 {
      var less := files[..|files| - 1];
      TrimmedFiles(less);
      assert files == less + [-1];
      assert multiset(files)[-1 := 0] == multiset(less)[-1 := 0];
    }
  }

  lemma CloseRefs(task: Task, slot: nat, keep: bool)
    requires Tallied(task) && 0 < slot <= |task.files| && task.files[slot - 1] != -1
    ensures var fid := task.files[slot - 1];
            fid in TaskRefs(task) && TaskRefs(CloseIn(task, slot, keep)) == TaskRefs(task) - multiset{fid}
    ensures Tallied(CloseIn(task, slot, keep))
  {
    var fid, was := task.files[slot - 1], multiset(task.files);
    var files := task.files[slot - 1 := -1];
    assert fid in was;
    assert multiset(files) == was - multiset{fid} + multiset{-1};
    assert multiset(files)[-1 := 0] == was[-1 := 0] - multiset{fid};
    assert Opened(files) + multiset{task.rootdir, task.workdir} == TaskRefs(task) - multiset{fid};
    TrimmedFiles(files);
  }

  lemma DirRefs(task: Task, fid: int)
    ensures TaskRefs(task.(rootdir := fid)) == TaskRefs(task) - multiset{task.rootdir} + multiset{fid}
    ensures TaskRefs(task.(workdir := fid)) == TaskRefs(task) - multiset{task.workdir} + multiset{fid}
    ensures task.rootdir in TaskRefs(task) && task.workdir in TaskRefs(task)
  {
    hide Opened;
    Swapped(Opened(task.files), task.rootdir, task.workdir, fid);
    Swapped(Opened(task.files), task.workdir, task.rootdir, fid);
    assert multiset{task.workdir, task.rootdir} == multiset{task.rootdir, task.workdir};
    assert multiset{task.rootdir, fid} == multiset{fid, task.rootdir};
  }

  lemma Swapped(o: multiset<int>, a: int, b: int, c: int)
    ensures o + multiset{c, b} == o + multiset{a, b} - multiset{a} + multiset{c}
    ensures a in o + multiset{a, b}
  {
    assert multiset{a, b} == multiset{a} + multiset{b} && multiset{c, b} == multiset{c} + multiset{b};
  }

  /** A directory reference moved: first dropped, then taken. */
  lemma Replaced(s: State, t: nat, x: Task, was: int, fid: int)
    requires Inv(s) && t < |s.tasks| && Tallied(x) && was in TaskRefs(s.tasks[t]) && IsLive(s.fcb, fid)
    requires TaskRefs(x) == TaskRefs(s.tasks[t]) - multiset{was} + multiset{fid}
    ensures Inv(s.(fcb := More(DelFcb(s.fcb, was), fid), tasks := s.tasks[t := x]))
       <==> !(was == fid && s.fcb[fid].nopen == 1)
  {
    hide TaskRefs, Tallied, Sound, More, DelFcb, IsLive, AllRefs;
    var f, left := DelFcb(s.fcb, was), Refs(s) - multiset{was};
    var s' := s.(fcb := More(f, fid), tasks := s.tasks[t := x]);
    RefsPart(s.tasks, t);
    assert was in Refs(s);
    LiveRef(s.fcb, Refs(s), was);
    CountOf(s.fcb, Refs(s), was);
    DelSound(s.fcb, Refs(s), was);
    RefsSet(s.tasks, t, x);
    assert Refs(s') == left + multiset{fid};
    if was == fid && s.fcb[fid].nopen == 1 {
      StillDead(f, fid, Refs(s'));
    } else {
      MoreSound(f, left, fid);
    }
  }

  lemma CountOf(f: seq<Fcb>, refs: multiset<int>, fid: int)
    requires Sound(f, refs) && IsLive(f, fid)
    ensures f[fid].nopen == refs[fid]
  {
  }

  lemma StillDead(f: seq<Fcb>, fid: int, refs: multiset<int>)
    requires !IsLive(f, fid) && fid in refs
    ensures !Sound(More(f, fid), refs)
  {
    assert !IsLive(More(f, fid), fid);
  }

  // ---------------------------------------------------------------- every step

  /** A released reference was held; a directory is not moved to itself when that is
      its only reference. */
  ghost predicate Allowed(s: State, e: Event) {
    match e
    case Del(fid) => fid in s.held
    case RootDir(t, fid) =>
      t < |s.tasks| && IsLive(s.fcb, fid) ==> !(s.tasks[t].rootdir == fid && s.fcb[fid].nopen == 1)
    case WorkDir(t, fid) =>
      t < |s.tasks| && IsLive(s.fcb, fid) ==> !(s.tasks[t].workdir == fid && s.fcb[fid].nopen == 1)
    case _ => true
  }

  lemma OpenKeeps(s: State, t: nat, fid: int, slot: nat)
    requires Inv(s) && t < |s.tasks| && IsLive(s.fcb, fid)
    ensures Inv(s.(fcb := More(s.fcb, fid), tasks := s.tasks[t := OpenIn(s.tasks[t], fid, slot)]))
  {
    hide Sound, TaskRefs, Tallied, OpenIn, More;
    OpenRefs(s.tasks[t], fid, slot);
    RefsMore(s, t, OpenIn(s.tasks[t], fid, slot), fid);
    MoreSound(s.fcb, Refs(s), fid);
  }

  lemma CloseKeeps(s: State, t: nat, slot: nat, keep: bool)
    requires Inv(s) && t < |s.tasks| && ValidSlot(s.fcb, s.tasks[t], slot)
    ensures Inv(s.(fcb := DelFcb(s.fcb, s.tasks[t].files[slot - 1]), tasks := s.tasks[t := CloseIn(s.tasks[t], slot, keep)]))
  {
    hide Sound, TaskRefs, Tallied, CloseIn, DelFcb;
    CloseRefs(s.tasks[t], slot, keep);
    RefsLess(s, t, CloseIn(s.tasks[t], slot, keep), s.tasks[t].files[slot - 1]);
    DelSound(s.fcb, Refs(s), s.tasks[t].files[slot - 1]);
  }

  lemma TallyOf(s: State, t: nat)
    requires Inv(s) && t < |s.tasks|
    ensures Tallied(s.tasks[t])
  {
  }

  lemma HeldKeeps(s: State, fid: int)
    requires Inv(s)
    ensures IsLive(s.fcb, fid) ==> Inv(s.(fcb := More(s.fcb, fid), held := s.held + multiset{fid}))
    ensures fid in s.held ==> Inv(s.(fcb := DelFcb(s.fcb, fid), held := s.held - multiset{fid}))
  {
    hide Sound, Tallied, More, DelFcb, AllRefs;
    if IsLive(s.fcb, fid) {
      MoreSound(s.fcb, Refs(s), fid);
      assert AllRefs(s.tasks) + (s.held + multiset{fid}) == Refs(s) + multiset{fid};
    }
    if fid in s.held {
      LiveRef(s.fcb, Refs(s), fid);
      DelSound(s.fcb, Refs(s), fid);
      assert AllRefs(s.tasks) + (s.held - multiset{fid}) == Refs(s) - multiset{fid};
    }
  }

  /** Descriptors never dangle: every allowed call keeps the counts, the tallies and
      the live entries under every reference. */
  lemma StepKeeps(s: State, e: Event)
    requires Inv(s) && Allowed(s, e)
    ensures Inv(Step(s, e))
  {
    hide Inv, OpenIn, CloseIn, DelFcb, More, AddFcb, ValidSlot, IsLive;
    match e
    case Add(name) => AddKeeps(s, name);
    case Hold(fid) => HeldKeeps(s, fid);
    case Del(fid) => HeldKeeps(s, fid);
    case Open(t, fid, refused, slot) =>
      if t < |s.tasks| && IsLive(s.fcb, fid) { OpenKeeps(s, t, fid, slot); }
    case Close(t, slot, keep) =>
      if t < |s.tasks| && ValidSlot(s.fcb, s.tasks[t], slot) { CloseKeeps(s, t, slot, keep); }
    case RootDir(t, fid) =>
      if t < |s.tasks| && IsLive(s.fcb, fid) { WorkDirExact(s, t, fid); }
    case WorkDir(t, fid) =>
      if t < |s.tasks| && IsLive(s.fcb, fid) { WorkDirExact(s, t, fid); }
  }

  lemma AddKeeps(s: State, name: string)
    requires Inv(s)
    ensures Inv(s.(fcb := AddFcb(s.fcb, name).1))
  {
    hide Sound, Tallied, AllRefs, AddFcb;
    AddSound(s.fcb, Refs(s), name);
  }

  lemma LiveRef(f: seq<Fcb>, refs: multiset<int>, fid: int)
    requires Sound(f, refs) && fid in refs
    ensures IsLive(f, fid)
  {
  }

  lemma DirTallied(task: Task, fid: int)
    requires Tallied(task)
    ensures Tallied(task.(rootdir := fid)) && Tallied(task.(workdir := fid))
  {
  }

  /** Moving a task to the directory it is in frees that directory under it exactly
      when nobody else refers to it. */
  lemma WorkDirExact(s: State, t: nat, fid: int)
    requires Inv(s) && t < |s.tasks| && IsLive(s.fcb, fid)
    ensures Inv(Step(s, WorkDir(t, fid))) <==> !(s.tasks[t].workdir == fid && s.fcb[fid].nopen == 1)
    ensures Inv(Step(s, RootDir(t, fid))) <==> !(s.tasks[t].rootdir == fid && s.fcb[fid].nopen == 1)
  {
    hide Inv, TaskRefs, Tallied, More, DelFcb, IsLive;
    TallyOf(s, t);
    DirRefs(s.tasks[t], fid);
    DirTallied(s.tasks[t], fid);
    Replaced(s, t, s.tasks[t].(workdir := fid), s.tasks[t].workdir, fid);
    Replaced(s, t, s.tasks[t].(rootdir := fid), s.tasks[t].rootdir, fid);
  }

  /** A task alone in its directory. */
  function Alone(): State {
    State([Fcb(Live("/"), 1), Fcb(Live("/home"), 1)], [Task(0, 1, [], 0)], multiset{})
  }

  lemma AloneHolds()
    ensures Inv(Alone()) && IsLive(Alone().fcb, 1)
  {
    var s := Alone();
    assert s.tasks[..0] == [];
    assert AllRefs(s.tasks) == multiset{} + TaskRefs(s.tasks[0]);
    assert Refs(s) == multiset{0, 1};
  }

  lemma AloneFreed()
    ensures DelFcb(Alone().fcb, 1) == [Fcb(Live("/"), 1)]
  {
    var f := Alone().fcb[1 := Fcb(Hole, 0)];
    assert f[..1] == [Fcb(Live("/"), 1)];
    assert Trim(f) == Trim(f[..1]) == f[..1];
  }

  /** Moved there again its entry is freed, and the task refers to nothing. */
  lemma WorkDirExample()
    ensures var s := Alone();
            Inv(s) && !IsLive(Step(s, WorkDir(0, 1)).fcb, 1) && Step(s, WorkDir(0, 1)).tasks[0].workdir == 1
            && !Inv(Step(s, WorkDir(0, 1)))
  {
    AloneHolds();
    AloneFreed();
    WorkDirExact(Alone(), 0, 1);
    hide Inv, DelFcb;
  }

  function Run(s: State, events: seq<Event>): State {
    if events == [] then s else Step(Run(s, events[..|events| - 1]), events[|events| - 1])
  }

  /** Over any run a valid descriptor stays valid until it is closed: every open
      slot of every task names a live entry, and the number of references is the
      count of that entry. */
  lemma {:induction false} RunKeeps(s: State, events: seq<Event>)
    requires Inv(s) && forall i :: 0 <= i < |events| ==> Allowed(Run(s, events[..i]), events[i])
    ensures Inv(Run(s, events))
  {
    hide Inv, Step, Allowed;
    if events != [] {
      var n := |events| - 1;
      var init := events[..n];
      forall i | 0 <= i < n ensures Allowed(Run(s, init[..i]), init[i]) {
        assert init[..i] == events[..i];
        assert Allowed(Run(s, events[..i]), events[i]);
      }
      RunKeeps(s, init);
      assert Allowed(Run(s, events[..n]), events[n]);
      StepKeeps(Run(s, init), events[n]);
    }
  }

  lemma OpenSlotsLive(s: State, t: nat, i: nat)
    requires Inv(s) && t < |s.tasks| && i < |s.tasks[t].files| && s.tasks[t].files[i] != -1
    ensures IsLive(s.fcb, s.tasks[t].files[i]) && ValidSlot(s.fcb, s.tasks[t], i + 1)
  {
    RefsPart(s.tasks, t);
    assert s.tasks[t].files[i] in multiset(s.tasks[t].files);
    LiveRef(s.fcb, Refs(s), s.tasks[t].files[i]);
  }

  // ---------------------------------------------------------------- what open and close do

  /** What slot i + 1 of task t names, -1 when it is free or there is none. */
  function Names(s: State, t: nat, i: nat): int {
    if t < |s.tasks| && i < |s.tasks[t].files| then s.tasks[t].files[i] else -1
  }

  /** The references an entry counts, none when it is gone. */
  function Count(f: seq<Fcb>, fid: int): nat { if IsLive(f, fid) then f[fid].nopen else 0 }

  /** Every entry but fid is as it was. */
  ghost predicate OtherEntries(f: seq<Fcb>, g: seq<Fcb>, fid: int) {
    forall k :: k != fid ==> (IsLive(f, k) <==> IsLive(g, k)) && (IsLive(f, k) ==> g[k] == f[k])
  }

  /** Nothing but the open slots of task t and their number changes. */
  ghost predicate OtherFields(s: State, s': State, t: nat)
    requires t < |s.tasks|
  {
    && |s'.tasks| == |s.tasks| && s'.held == s.held
    && s'.tasks[t].rootdir == s.tasks[t].rootdir && s'.tasks[t].workdir == s.tasks[t].workdir
    && forall u :: 0 <= u < |s.tasks| && u != t ==> s'.tasks[u] == s.tasks[u]
  }

  /** Every slot but the one names what it named. */
  ghost predicate OtherSlots(s: State, s': State, t: nat, i: nat) {
    forall u: nat, k: nat :: (u != t || k != i) ==> Names(s', u, k) == Names(s, u, k)
  }

  /** A descriptor closed: its slot is free, the task has one open file less and its entry
      one reference less, and everything else is as it was. */
  ghost predicate Closed(s: State, s': State, t: nat, slot: nat, keep: bool)
    requires t < |s.tasks| && slot > 0
  {
    var fid := Names(s, t, slot - 1);
    && OtherFields(s, s', t) && OtherSlots(s, s', t, slot - 1) && OtherEntries(s.fcb, s'.fcb, fid)
    && Names(s', t, slot - 1) == -1 && !ValidSlot(s'.fcb, s'.tasks[t], slot)
    && s'.tasks[t].nfiles == s.tasks[t].nfiles - 1
    && (Count(s.fcb, fid) > 0 ==> Count(s'.fcb, fid) == Count(s.fcb, fid) - 1)
    && var files := s'.tasks[t].files;
       if keep then |files| == |s.tasks[t].files| else files == [] || files[|files| - 1] != -1
  }

  lemma DelCounts(f: seq<Fcb>, fid: int)
    requires IsLive(f, fid)
    ensures OtherEntries(f, DelFcb(f, fid), fid)
    ensures Count(DelFcb(f, fid), fid) == if f[fid].nopen > 0 then f[fid].nopen - 1 else 0
  {
    if f[fid].nopen <= 1 {
      var g := f[fid := Fcb(Hole, 0)];
      TrimLive(g);
    }
  }

  lemma {:induction false} TrimLive(f: seq<Fcb>)
    ensures forall k :: (IsLive(f, k) <==> IsLive(Trim(f), k)) && (IsLive(f, k) ==> Trim(f)[k] == f[k])
  {
    forall k ensures (IsLive(f, k) <==> IsLive(Trim(f), k)) && (IsLive(f, k) ==> Trim(f)[k] == f[k]) {
      if 0 <= k < |Trim(f)| { assert Trim(f)[k] == f[k]; }
    }
  }

  lemma {:induction false} TrimEnd(files: seq<int>)
    ensures var r := TrimFiles(files); r == [] || r[|r| - 1] != -1
  {
    if files != [] && files[|files| - 1] == -1 { TrimEnd(files[..|files| - 1]); }
  }

  lemma CloseDrops(s: State, t: nat, slot: nat, keep: bool)
    requires t < |s.tasks|
    ensures var s' := Step(s, Close(t, slot, keep));
            if ValidSlot(s.fcb, s.tasks[t], slot) then Closed(s, s', t, slot, keep) else s' == s
  {
    hide DelFcb, TrimFiles;
    if ValidSlot(s.fcb, s.tasks[t], slot) {
      DelCounts(s.fcb, s.tasks[t].files[slot - 1]);
      TrimEnd(s.tasks[t].files[slot - 1 := -1]);
      SlotsClosed(s.tasks[t].files, slot - 1, keep);
    }
  }

  lemma SlotsClosed(files: seq<int>, i: nat, keep: bool)
    requires i < |files|
    ensures var cut := files[i := -1]; var r := if keep then cut else TrimFiles(cut);
            |r| <= |files| && (i < |r| ==> r[i] == -1)
            && forall k :: 0 <= k < |files| && k != i ==> files[k] == if k < |r| then r[k] else -1
  {
    hide TrimFiles;
    var cut := files[i := -1];
    var r := if keep then cut else TrimFiles(cut);
    forall k | 0 <= k < |files| && k != i ensures files[k] == if k < |r| then r[k] else -1 {
      assert cut[k] == files[k];
    }
  }

  /** A descriptor opened in slot r: the one asked for when it is free, and otherwise the
      lowest free one, or a new one when none is. */
  ghost predicate Opens(s: State, s': State, t: nat, fid: int, slot: nat, r: nat)
    requires t < |s.tasks|
  {
    && 0 < r <= |s.tasks[t].files| + 1
    && OtherFields(s, s', t) && OtherSlots(s, s', t, r - 1) && OtherEntries(s.fcb, s'.fcb, fid)
    && Names(s, t, r - 1) == -1 && Names(s', t, r - 1) == fid && ValidSlot(s'.fcb, s'.tasks[t], r)
    && s'.tasks[t].nfiles == s.tasks[t].nfiles + 1 && Count(s'.fcb, fid) == Count(s.fcb, fid) + 1
    && if 0 < slot <= |s.tasks[t].files| && Names(s, t, slot - 1) == -1 then r == slot
       else forall k: nat :: k < r - 1 ==> Names(s, t, k) != -1
  }

  lemma OpenTakes(s: State, t: nat, fid: int, refused: bool, slot: nat)
    requires t < |s.tasks|
    ensures var s' := Step(s, Open(t, fid, refused, slot));
            if IsLive(s.fcb, fid) && !refused then Opens(s, s', t, fid, slot, SlotFor(s.tasks[t].files, slot) + 1) else s' == s
  {
    hide FreeSlot;
  }

  /** Moving a task to a directory changes that directory of the task and nothing else of
      any task. */
  lemma DirsMove(s: State, t: nat, fid: int)
    requires t < |s.tasks| && IsLive(s.fcb, fid)
    ensures var s' := Step(s, RootDir(t, fid));
            s'.tasks == s.tasks[t := s.tasks[t].(rootdir := fid)] && s'.held == s.held
    ensures var s' := Step(s, WorkDir(t, fid));
            s'.tasks == s.tasks[t := s.tasks[t].(workdir := fid)] && s'.held == s.held
  {
    hide DelFcb, More;
  }

  // ---------------------------------------------------------------- the code

  lemma TrimStep(f: seq<Fcb>, idx: nat)
    requires 0 < idx <= |f| && f[idx - 1].path.Hole?
    ensures Trim(f[..idx]) == Trim(f[..idx - 1])
  {
    assert f[..idx][..idx - 1] == f[..idx - 1];
  }

  lemma TrimEnds(f: seq<Fcb>, idx: nat)
    requires idx <= |f| && (idx > 0 ==> f[idx - 1].path.Live?)
    ensures Trim(f[..idx]) == f[..idx]
  {
  }

  lemma DelIs(f: seq<Fcb>, fid: int)
    ensures DelFcb(f, fid) ==
            if fid < 0 || fid >= |f| || f[fid].path.Hole? then f
            else if f[fid].nopen > 1 then f[fid := Fcb(f[fid].path, f[fid].nopen - 1)]
            else Trim(f[fid := Fcb(Hole, 0)])
  {
  }

  class FileTable {
    var fcb: seq<Fcb>
    var tasks: seq<Task>
    ghost var held: multiset<int>

    ghost function View(): State
      reads this
    {
      State(fcb, tasks, held)
    }

    constructor (fcb: seq<Fcb>, tasks: seq<Task>, ghost held: multiset<int>)
      ensures View() == State(fcb, tasks, held)
    {
      this.fcb, this.tasks, this.held := fcb, tasks, held;
    }

    /** One pass that looks for the path and remembers the first hole. */
    method Add(name: string) returns (fid: nat)
      modifies `fcb
      ensures View() == Step(old(View()), Event.Add(name))
      ensures fid == AddFcb(old(fcb), name).0
    {
      var i, hole := 0, -1;
      while i < |fcb|
        invariant 0 <= i <= |fcb| && fcb == old(fcb)
        invariant forall k :: 0 <= k < i ==> fcb[k].path != Live(name)
        invariant if hole == -1 then forall k :: 0 <= k < i ==> fcb[k].path.Live?
                  else 0 <= hole < i && fcb[hole].path.Hole? && forall k :: 0 <= k < hole ==> fcb[k].path.Live?
      {
        if fcb[i].path == Live(name) {
          return i;
        }
        if fcb[i].path.Hole? && hole == -1 {
          hole := i;
        }
        i := i + 1;
      }
      if hole == -1 {
        fcb := fcb + [Fcb(Live(name), 0)];
        fid := |fcb| - 1;
      } else {
        fcb := fcb[hole := Fcb(Live(name), fcb[hole].nopen)];
        fid := hole;
      }
    }

    /** A reference dropped; the table shrinks over holes at its end. */
    method Drop(fid: int)
      modifies `fcb
      ensures fcb == DelFcb(old(fcb), fid)
    {
      hide Trim, DelFcb, IsLive;
      DelIs(fcb, fid);
      if fid < 0 || fid >= |fcb| || fcb[fid].path.Hole? {
        return;
      }
      var n := if fcb[fid].nopen > 0 then fcb[fid].nopen - 1 else 0;
      if n != 0 {
        fcb := fcb[fid := Fcb(fcb[fid].path, n)];
        return;
      }
      fcb := fcb[fid := Fcb(Hole, 0)];
      ghost var f := fcb;
      var idx := |fcb|;
      assert f[..idx] == f;
      while idx > 0 && fcb[idx - 1].path.Hole?
        invariant 0 <= idx <= |f| && fcb == f && Trim(f[..idx]) == Trim(f)
      {
        TrimStep(f, idx);
        idx := idx - 1;
      }
      TrimEnds(f, idx);
      fcb := fcb[..idx];
    }

    method Open(t: nat, fid: int, refused: bool, slot: nat) returns (r: nat)
      requires t < |tasks|
      modifies `fcb, `tasks
      ensures View() == Step(old(View()), Event.Open(t, fid, refused, slot))
      ensures r == if IsLive(old(fcb), fid) && !refused then SlotFor(old(tasks)[t].files, slot) + 1 else 0
      ensures if IsLive(old(fcb), fid) && !refused then Opens(old(View()), View(), t, fid, slot, r) else View() == old(View())
    {
      OpenTakes(View(), t, fid, refused, slot);
      if fid < 0 || fid >= |fcb| || fcb[fid].path.Hole? || refused {
        return 0;
      }
      var task := tasks[t];
      var i: nat;
      if slot != 0 && slot <= |task.files| && task.files[slot - 1] == -1 {
        i := slot - 1;
      } else {
        i := 0;
        while i < |task.files| && task.files[i] != -1
          invariant 0 <= i <= |task.files| && forall k :: 0 <= k < i ==> task.files[k] != -1
        {
          i := i + 1;
        }
      }
      tasks := tasks[t := task.(files := if i < |task.files| then task.files[i := fid] else task.files + [fid],
                                nfiles := task.nfiles + 1)];
      fcb := fcb[fid := Fcb(fcb[fid].path, fcb[fid].nopen + 1)];
      r := i + 1;
    }

    /** The slot is freed; unless asked not to, the list shrinks over free slots at
        its end. */
    method Close(t: nat, slot: nat, keep: bool) returns (ok: bool)
      requires t < |tasks|
      modifies `fcb, `tasks
      ensures View() == Step(old(View()), Event.Close(t, slot, keep))
      ensures ok == ValidSlot(old(fcb), old(tasks)[t], slot)
      ensures if ok then slot > 0 && Closed(old(View()), View(), t, slot, keep) else View() == old(View())
    {
      CloseDrops(View(), t, slot, keep);
      hide DelFcb, TrimFiles;
      var task := tasks[t];
      if !ValidSlot(fcb, task, slot) {
        return false;
      }
      Drop(task.files[slot - 1]);
      var files := task.files[slot - 1 := -1];
      ok := true;
      if !keep {
        files := Shrink(files);
      }
      tasks := tasks[t := task.(files := files, nfiles := task.nfiles - 1)];
    }

    method Shrink(files: seq<int>) returns (r: seq<int>)
      ensures r == TrimFiles(files)
    {
      var idx := |files|;
      assert files[..idx] == files;
      while idx > 0 && files[idx - 1] == -1
        invariant 0 <= idx <= |files| && TrimFiles(files[..idx]) == TrimFiles(files)
      {
        assert files[..idx][..idx - 1] == files[..idx - 1];
        idx := idx - 1;
      }
      assert TrimFiles(files[..idx]) == files[..idx];
      r := files[..idx];
    }

    method WorkDir(t: nat, fid: int)
      requires t < |tasks|
      modifies `fcb, `tasks
      ensures View() == Step(old(View()), Event.WorkDir(t, fid))
    {
      if fid < 0 || fid >= |fcb| || fcb[fid].path.Hole? {
        return;
      }
      Drop(tasks[t].workdir);
      tasks := tasks[t := tasks[t].(workdir := fid)];
      if fid < |fcb| {
        fcb := fcb[fid := Fcb(fcb[fid].path, fcb[fid].nopen + 1)];
      }
    }
  }
}
