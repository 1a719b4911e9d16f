/** A pipe of the FS task: bytes are buffered, or handed straight to a reader that
    waits.  One pipe, and the suspended read of every task. */
module Pipe {
  type Byte = bv8

  /** The size that marks a direct hand-off. */
  const MARK: nat := 0xFFFF_FFFF

  datatype Buffer = None | Some(bytes: seq<Byte>)

  /** A suspended read: how much it wants, and whether from this pipe. */
  datatype Request = Request(n: nat, here: bool)

  /** Bytes a task got, and whether the read was for this pipe. */
  datatype Delivery = Delivery(pid: nat, bytes: seq<Byte>, here: bool)

  datatype State = State(reader: nat, rd: nat, size: nat, data: Buffer, pending: map<nat, Request>,
                         written: seq<Byte>, got: seq<Delivery>)

  /** Calls, and a task's read of something else being suspended and finished.
      Tasks are numbered from 1. */
  datatype Event = Write(bytes: seq<Byte>) | Read(pid: nat, n: nat) | Elsewhere(pid: nat, n: nat) | Finish(pid: nat)

  function Flat(got: seq<Delivery>): seq<Byte> {
    if got == [] then [] else Flat(got[..|got| - 1]) + got[|got| - 1].bytes
  }

  function Unread(s: State): seq<Byte> {
    if s.data.Some? && s.rd <= |s.data.bytes| then s.data.bytes[s.rd..] else []
  }

  function Give(s: State, pid: nat, bytes: seq<Byte>, here: bool): State {
    s.(got := s.got + [Delivery(pid, bytes, here)])
  }

  /** The waiting reader a write would serve: whatever read of it is suspended. */
  predicate Served(s: State) { s.reader != 0 && s.reader in s.pending }

  /** pipe_read once the lock is held: the bytes, or nothing when the buffer is
      empty. */
  datatype Took = Empty(state: State) | Bytes(state: State)

  function Take(s0: State, pid: nat, n: nat, here: bool): Took {
    var size := if s0.size == MARK then 0 else s0.size;
    var rd := if s0.rd > size then size else s0.rd;
    var spent := s0.data.Some? && rd == size;
    var s := if spent then s0.(data := None, size := 0, rd := 0) else s0.(size := size, rd := rd);
    if s.data.None? then Empty(s)
    else if s.size > |s.data.bytes| then Empty(s)
    else if s.rd + n < s.size then Bytes(Give(s, pid, s.data.bytes[s.rd..s.rd + n], here).(rd := s.rd + n, reader := 0))
    else Bytes(Give(s, pid, s.data.bytes[s.rd..s.size], here).(rd := 0, size := 0, data := None, reader := 0))
  }

  function Lock(s: State, pid: nat): State { if s.reader == 0 then s.(reader := pid) else s }

  function ReadStep(s0: State, pid: nat, n: nat): State {
    var s := Lock(s0, pid);
    if s.reader != pid then s0
    else
      match Take(s, pid, n, true)
      case Bytes(t) => t
      case Empty(t) => t.(pending := t.pending[pid := Request(n, true)])
  }

  /** What the buffer holds after a write appended to it. */
  function Appended(s: State, bytes: seq<Byte>): State {
    var size := if s.size == MARK then 0 else s.size;
    var old_ := if s.data.Some? && size <= |s.data.bytes| then s.data.bytes[..size] else [];
    s.(data := Some(old_ + bytes), size := size + |bytes|)
  }

  function WriteStep(s0: State, bytes: seq<Byte>): State {
    var s := s0.(written := s0.written + bytes);
    if Served(s) && s.pending[s.reader].n >= |bytes| && s.data.None? && s.size == 0 then
      Give(s, s.reader, bytes, s.pending[s.reader].here).(size := MARK, pending := s.pending - {s.reader})
    else if Served(s) then
      Take(Appended(s, bytes), s.reader, s.pending[s.reader].n, s.pending[s.reader].here).state
        .(pending := s.pending - {s.reader})
    else Appended(s, bytes)
  }

  /** A task whose read is suspended makes no calls. */
  function Step(s: State, e: Event): State {
    match e
    case Write(bytes) => WriteStep(s, bytes)
    case Read(pid, n) => if pid == 0 || pid in s.pending then s else ReadStep(s, pid, n)
    case Elsewhere(pid, n) => if pid == 0 || pid in s.pending then s else s.(pending := s.pending[pid := Request(n, false)])
    case Finish(pid) => if pid in s.pending && !s.pending[pid].here then s.(pending := s.pending - {pid}) else s
  }

  function Run(s: State, events: seq<Event>): State {
    if events == [] then s else Step(Run(s, events[..|events| - 1]), events[|events| - 1])
  }

  const FRESH: State := State(0, 0, 0, None, map[], [], [])

  // ---------------------------------------------------------------- first in, first out

  ghost predicate Formed(s: State) {
    match s.data
    case Some(d) => |d| == s.size && s.rd <= s.size && s.size != MARK
    case None => s.rd == 0 && (s.size == 0 || s.size == MARK)
  }

  /** Delivered and unread bytes together are the bytes written, in order. */
  ghost predicate Fifo(s: State) { Flat(s.got) + Unread(s) == s.written }

  /** A read suspended here holds the lock over an empty buffer. */
  ghost predicate Waits(s: State) {
    forall pid :: pid in s.pending && s.pending[pid].here ==> s.reader == pid != 0 && s.data.None? && s.size == 0
  }

  ghost predicate Inv(s: State) { Formed(s) && Fifo(s) && Waits(s) }

  /** The buffer does not grow to the marking size. */
  predicate BelowMark(s: State, e: Event) {
    e.Write? ==> (if s.data.Some? then s.size else 0) + |e.bytes| != MARK
                 || (Served(s) && s.pending[s.reader].n >= |e.bytes| && s.data.None? && s.size == 0)
  }

  lemma FlatGive(got: seq<Delivery>, d: Delivery)
    ensures Flat(got + [d]) == Flat(got) + d.bytes
  {
    assert (got + [d])[..|got|] == got;
  }

  /** A served or locked read of a well formed buffer. */
  lemma TakeKeeps(s: State, pid: nat, n: nat, here: bool)
    requires Formed(s) && Fifo(s)
    ensures var t := Take(s, pid, n, here).state;
            Formed(t) && Fifo(t) && t.pending == s.pending && t.size != MARK
    ensures Take(s, pid, n, here).Empty? ==> Take(s, pid, n, here).state == s.(data := None, size := 0, rd := 0) && Unread(s) == []
    ensures Take(s, pid, n, here).Bytes? ==> Take(s, pid, n, here).state.reader == 0 && s.data.Some?
  {
    hide Fifo, Unread, Flat;
    if s.data.Some? && s.rd != s.size {
      var stop := if s.rd + n < s.size then s.rd + n else s.size;
      var t := Take(s, pid, n, here).state;
      assert t == (if s.rd + n < s.size then Give(s, pid, s.data.bytes[s.rd..stop], here).(rd := stop, reader := 0)
                   else Give(s, pid, s.data.bytes[s.rd..stop], here).(rd := 0, size := 0, data := None, reader := 0));
      PartTaken(s, pid, stop, here, t);
    } else {
      NothingUnread(s, s.(data := None, size := 0, rd := 0));
    }
  }

  lemma PartTaken(s: State, pid: nat, stop: nat, here: bool, t: State)
    requires Formed(s) && Fifo(s) && s.data.Some? && s.rd <= stop <= s.size
    requires t.got == s.got + [Delivery(pid, s.data.bytes[s.rd..stop], here)] && t.written == s.written
    requires if t.data.Some? then t.data == s.data && t.rd == stop else stop == s.size
    ensures Fifo(t)
  {
    var d := s.data.bytes;
    FlatGive(s.got, Delivery(pid, d[s.rd..stop], here));
    assert d[s.rd..] == d[s.rd..stop] + d[stop..];
    Regroup(Flat(s.got), d[s.rd..stop], d[stop..]);
    assert Unread(t) == d[stop..];
  }

  lemma NothingUnread(s: State, t: State)
    requires Formed(s) && Fifo(s) && (s.data.None? || s.rd == s.size)
    requires t.got == s.got && t.written == s.written && t.data.None?
    ensures Unread(s) == [] && Fifo(t)
  {
  }

  lemma Regroup(a: seq<Byte>, b: seq<Byte>, c: seq<Byte>)
    ensures a + (b + c) == a + b + c
  {
  }

  lemma AppendKeeps(s: State, bytes: seq<Byte>)
    requires Formed(s) && Fifo(s) && (if s.data.Some? then s.size else 0) + |bytes| != MARK
    ensures var t := Appended(s.(written := s.written + bytes), bytes);
            Formed(t) && Fifo(t)
  {
    var t := Appended(s.(written := s.written + bytes), bytes);
    if s.data.Some? {
      assert s.data.bytes[..s.size] == s.data.bytes;
      assert Unread(t) == Unread(s) + bytes;
    } else {
      assert Unread(t) == bytes;
    }
    Regroup(Flat(s.got), Unread(s), bytes);
  }

  /** Lock and suspended reads do not enter into the buffer. */
  lemma OtherFields(s: State, t: State)
    requires Formed(s) && Fifo(s) && t.(reader := s.reader, pending := s.pending) == s
    ensures Formed(t) && Fifo(t)
  {
  }

  lemma ReadKeeps(s: State, pid: nat, n: nat)
    requires Inv(s) && pid != 0 && pid !in s.pending
    ensures Inv(ReadStep(s, pid, n))
  {
    hide Take, Fifo, Formed;
    var l := Lock(s, pid);
    OtherFields(s, l);
    if l.reader == pid {
      TakeKeeps(l, pid, n, true);
      var t := Take(l, pid, n, true).state;
      assert t.pending == s.pending;
      if Take(l, pid, n, true).Empty? {
        var u := t.(pending := t.pending[pid := Request(n, true)]);
        OtherFields(t, u);
      }
    }
  }

  lemma WriteKeeps(s: State, bytes: seq<Byte>)
    requires Inv(s) && BelowMark(s, Write(bytes))
    ensures Inv(WriteStep(s, bytes))
  {
    var w := s.(written := s.written + bytes);
    if Served(s) && s.pending[s.reader].n >= |bytes| && s.data.None? && s.size == 0 {
      FlatGive(s.got, Delivery(s.reader, bytes, s.pending[s.reader].here));
    } else {
      AppendKeeps(s, bytes);
      if Served(s) {
        TakeKeeps(Appended(w, bytes), s.reader, s.pending[s.reader].n, s.pending[s.reader].here);
      }
    }
  }

  /** A write that brings the buffer to the marking size loses it. */
  lemma WriteLoses(s: State, bytes: seq<Byte>)
    requires Inv(s) && !BelowMark(s, Write(bytes))
    ensures !Inv(WriteStep(s, bytes))
  {
    var t := WriteStep(s, bytes);
    if Served(s) {
      assert t.got == s.got && Unread(t) == [] && |t.written| > |s.written|;
    }
  }

  /** An event keeps the order of the bytes, and leaves no reader waiting over unread
      ones, if and only if it does not bring the buffer to the marking size. */
  lemma StepKeeps(s: State, e: Event)
    requires Inv(s)
    ensures Inv(Step(s, e)) <==> BelowMark(s, e)
  {
    hide WriteStep, ReadStep;
    match e
    case Write(bytes) => if BelowMark(s, e) { WriteKeeps(s, bytes); } else { WriteLoses(s, bytes); }
    case Read(pid, n) => if pid != 0 && pid !in s.pending { ReadKeeps(s, pid, n); }
    case Elsewhere(pid, n) =>
    case Finish(pid) =>
  }

  /** A buffer of exactly the marking size is taken for a hand-off: the next read
      finds nothing and the next write overwrites everything. */
  lemma MarkLoses(s: State, pid: nat, n: nat, bytes: seq<Byte>)
    requires s.data.Some? && s.size == MARK == |s.data.bytes| && s.rd == 0
    ensures Unread(s) == s.data.bytes
    ensures Take(s, pid, n, true).Empty? && Unread(Take(s, pid, n, true).state) == []
    ensures Unread(Appended(s, bytes)) == bytes
  {
  }

  ghost predicate AlwaysBelow(events: seq<Event>) {
    forall i :: 0 <= i < |events| ==> BelowMark(Run(FRESH, events[..i]), events[i])
  }

  ghost predicate AlwaysInv(events: seq<Event>) {
    forall i :: 0 <= i <= |events| ==> Inv(Run(FRESH, events[..i]))
  }

  lemma RunNext(events: seq<Event>, i: nat)
    requires i < |events|
    ensures Run(FRESH, events[..i + 1]) == Step(Run(FRESH, events[..i]), events[i])
  {
    hide Step;
    assert events[..i + 1][..i] == events[..i];
  }

  /** Over any run the bytes keep their order, at every moment, if and only if no
      write brings the buffer to the marking size. */
  lemma RunKeeps(events: seq<Event>)
    ensures AlwaysInv(events) <==> AlwaysBelow(events)
  {
    hide Step, BelowMark, Inv, Run;
    if AlwaysInv(events) {
      forall i | 0 <= i < |events| ensures BelowMark(Run(FRESH, events[..i]), events[i]) {
        var j := i + 1;
        assert Inv(Run(FRESH, events[..i])) && Inv(Run(FRESH, events[..j]));
        RunNext(events, i);
        StepKeeps(Run(FRESH, events[..i]), events[i]);
      }
    }
    if AlwaysBelow(events) {
      forall i | 0 <= i <= |events| ensures Inv(Run(FRESH, events[..i])) { InvUpTo(events, i); }
    }
  }

  lemma {:induction false} InvUpTo(events: seq<Event>, i: nat)
    requires AlwaysBelow(events) && i <= |events|
    ensures Inv(Run(FRESH, events[..i]))
  {
    hide Step, BelowMark;
    if i > 0 {
      hide Inv;
      InvUpTo(events, i - 1);
      RunNext(events, i - 1);
      assert BelowMark(Run(FRESH, events[..i - 1]), events[i - 1]);
      StepKeeps(Run(FRESH, events[..i - 1]), events[i - 1]);
    }
  }

  /** Whatever is written, read, handed over or woken: the bytes delivered are then a
      prefix of the bytes written, and the rest is in the buffer. */
  lemma DeliveredInOrder(events: seq<Event>)
    requires AlwaysBelow(events)
    ensures var s := Run(FRESH, events);
            Flat(s.got) + Unread(s) == s.written && Flat(s.got) <= s.written
  {
    hide Run, Flat, Unread, BelowMark;
    InvUpTo(events, |events|);
    assert events[..|events|] == events;
  }

  // ---------------------------------------------------------------- the lock that stays

  /** Who holds the lock has no read of something else suspended. */
  ghost predicate Proper(s: State) {
    && (forall pid :: pid in s.pending && !s.pending[pid].here ==> pid != s.reader)
    && (forall i :: 0 <= i < |s.got| ==> s.got[i].here)
    && 0 !in s.pending
  }

  /** The task that holds the lock gets stuck in a read of something else. */
  predicate Strays(s: State, e: Event) {
    e.Elsewhere? && e.pid == s.reader && e.pid != 0 && e.pid !in s.pending
  }

  /** Bytes go only to reads of this pipe, and the lock to nobody who waits elsewhere,
      if and only if the task that was handed bytes directly does not get stuck in
      another read before it reads again. */
  lemma StepProper(s: State, e: Event)
    requires Inv(s) && Proper(s) && BelowMark(s, e)
    ensures Proper(Step(s, e)) <==> !Strays(s, e)
  {
    hide Fifo, Unread, Flat;
    match e
    case Write(bytes) =>
      if Served(s) { assert s.pending[s.reader].here; }
    case Read(pid, n) =>
      if pid != 0 && pid !in s.pending { TakeProper(Lock(s, pid), pid, n); }
    case Elsewhere(pid, n) =>
      if Strays(s, e) { assert Step(s, e).pending[pid] == Request(n, false); }
    case Finish(pid) =>
  }

  ghost predicate AlwaysProper(events: seq<Event>) {
    forall i :: 0 <= i <= |events| ==> Proper(Run(FRESH, events[..i]))
  }

  ghost predicate NeverStrays(events: seq<Event>) {
    forall i :: 0 <= i < |events| ==> !Strays(Run(FRESH, events[..i]), events[i])
  }

  /** The same over any run. */
  lemma RunProper(events: seq<Event>)
    requires AlwaysBelow(events)
    ensures AlwaysProper(events) <==> NeverStrays(events)
  {
    hide Step, BelowMark, Inv, Run, Proper, Strays;
    if AlwaysProper(events) {
      forall i | 0 <= i < |events| ensures !Strays(Run(FRESH, events[..i]), events[i]) {
        var j := i + 1;
        assert Proper(Run(FRESH, events[..i])) && Proper(Run(FRESH, events[..j]));
        ProperNext(events, i);
      }
    }
    if NeverStrays(events) {
      forall i | 0 <= i <= |events| ensures Proper(Run(FRESH, events[..i])) { ProperUpTo(events, i); }
    }
  }

  lemma ProperNext(events: seq<Event>, i: nat)
    requires AlwaysBelow(events) && i < |events| && Proper(Run(FRESH, events[..i]))
    ensures Proper(Run(FRESH, events[..i + 1])) <==> !Strays(Run(FRESH, events[..i]), events[i])
  {
    hide Step, Inv, Run, Proper, Strays;
    InvUpTo(events, i);
    RunNext(events, i);
    assert BelowMark(Run(FRESH, events[..i]), events[i]);
    StepProper(Run(FRESH, events[..i]), events[i]);
  }

  lemma {:induction false} ProperUpTo(events: seq<Event>, i: nat)
    requires AlwaysBelow(events) && NeverStrays(events) && i <= |events|
    ensures Proper(Run(FRESH, events[..i]))
  {
    if i > 0 {
      hide Run, Strays, BelowMark, Proper;
      ProperUpTo(events, i - 1);
      assert !Strays(Run(FRESH, events[..i - 1]), events[i - 1]);
      ProperNext(events, i - 1);
    }
  }

  lemma TakeProper(s: State, pid: nat, n: nat)
    requires Proper(s)
    ensures Proper(Take(s, pid, n, true).state)
  {
  }

  /** Otherwise it gets them in the wrong place: a direct hand-off keeps the lock. */
  lemma StrayExample()
    ensures var s := Run(FRESH, [Read(1, 4), Write([7]), Elsewhere(1, 4), Write([8])]);
            s.got == [Delivery(1, [7], true), Delivery(1, [8], false)]
  {
    var e := [Read(1, 4), Write([7]), Elsewhere(1, 4), Write([8])];
    assert e[..3][..2][..1][..0] == [];
    assert Run(FRESH, e[..3][..2][..1]) == Step(FRESH, Read(1, 4));
    assert Run(FRESH, e[..3][..2]) == Step(Step(FRESH, Read(1, 4)), Write([7]));
    assert Run(FRESH, e[..3]) == Step(Step(Step(FRESH, Read(1, 4)), Write([7])), Elsewhere(1, 4));
    StrayStates();
  }

  lemma StrayStates()
    ensures Step(Step(Step(Step(FRESH, Read(1, 4)), Write([7])), Elsewhere(1, 4)), Write([8])).got
         == [Delivery(1, [7], true), Delivery(1, [8], false)]
  {
    var a := Step(FRESH, Read(1, 4));
    assert a == State(1, 0, 0, None, map[1 := Request(4, true)], [], []);
    var b := Step(a, Write([7]));
    assert b == State(1, 0, MARK, None, map[1 := Request(4, true)] - {1}, [7], [Delivery(1, [7], true)]);
    var c := Step(b, Elsewhere(1, 4));
    assert c.pending[1] == Request(4, false);
    var w := Appended(c.(written := c.written + [8]), [8]);
    assert w.data == Some([8]) && w.size == 1;
    assert [8][0..1] == [8 as Byte];
  }

  // ---------------------------------------------------------------- how much a read gets

  function Min(a: nat, b: nat): nat { if a < b then a else b }

  /** The buffer after k of its unread bytes went to a read. */
  ghost predicate Handed(s: State, t: State, pid: nat, here: bool, total: seq<Byte>, n: nat) {
    var k := Min(n, |total|);
    t.got == s.got + [Delivery(pid, total[..k], here)] && Unread(t) == total[k..]
  }

  lemma TakeHands(s: State, pid: nat, n: nat, here: bool)
    requires Formed(s)
    ensures var t := Take(s, pid, n, here);
            if Unread(s) == [] then t.Empty? && t.state.got == s.got && Unread(t.state) == [] && t.state.reader == s.reader
            else t.Bytes? && Handed(s, t.state, pid, here, Unread(s), n) && t.state.reader == 0
    ensures Take(s, pid, n, here).state.pending == s.pending && Take(s, pid, n, here).state.written == s.written
  {
    if s.data.Some? && s.rd != s.size {
      var k := Min(n, s.size - s.rd);
      assert Unread(s)[..k] == s.data.bytes[s.rd..s.rd + k];
    }
  }

  /** A read that gets the lock and finds unread bytes gets as many of the first as it
      asks for, and the rest stays unread; if there are none it waits with the lock.
      Without the lock nothing happens. */
  lemma ReadGets(s: State, pid: nat, n: nat)
    requires Formed(s) && pid != 0 && pid !in s.pending
    ensures var t := Step(s, Read(pid, n));
            if s.reader != 0 && s.reader != pid then t == s
            else if Unread(s) == [] then
              t.got == s.got && Unread(t) == [] && t.pending == s.pending[pid := Request(n, true)] && t.reader == pid
            else Handed(s, t, pid, true, Unread(s), n) && t.pending == s.pending && t.reader == 0
  {
    hide Take;
    TakeHands(Lock(s, pid), pid, n, true);
  }

  lemma AppendedUnread(s: State, bytes: seq<Byte>)
    requires Formed(s) && (if s.data.Some? then s.size else 0) + |bytes| != MARK
    ensures Formed(Appended(s, bytes)) && Unread(Appended(s, bytes)) == Unread(s) + bytes
  {
    if s.data.Some? { assert s.data.bytes[..s.size] == s.data.bytes; }
  }

  /** A write gives a reader that waits as many of the unread bytes and those written as
      it asked for, handed over directly or through the buffer; the rest stays unread.
      With nobody waiting all of them do. */
  lemma WriteGives(s: State, bytes: seq<Byte>)
    requires Formed(s) && BelowMark(s, Write(bytes)) && (bytes != [] || !Served(s))
    ensures var t := Step(s, Write(bytes));
            && t.written == s.written + bytes
            && if Served(s) then
                 var q := s.pending[s.reader];
                 Handed(s, t, s.reader, q.here, Unread(s) + bytes, q.n) && t.pending == s.pending - {s.reader}
               else t.got == s.got && Unread(t) == Unread(s) + bytes && t.pending == s.pending
  {
    hide Take;
    var w := s.(written := s.written + bytes);
    if Served(s) && s.pending[s.reader].n >= |bytes| && s.data.None? && s.size == 0 {
      assert Unread(s) + bytes == bytes && bytes[..|bytes|] == bytes;
    } else {
      AppendedUnread(w, bytes);
      assert Unread(w) == Unread(s);
      if Served(s) { TakeHands(Appended(w, bytes), s.reader, s.pending[s.reader].n, s.pending[s.reader].here); }
    }
  }

  // ---------------------------------------------------------------- who gets how much, over a run

  function WrittenBy(events: seq<Event>): seq<Byte> {
    if events == [] then []
    else var e := events[|events| - 1]; WrittenBy(events[..|events| - 1]) + if e.Write? then e.bytes else []
  }

  /** The bytes that count as written are those of the write calls. */
  lemma {:induction false} WrittenIs(events: seq<Event>)
    ensures Run(FRESH, events).written == WrittenBy(events)
  {
    if events != [] {
      hide Run;
      WrittenIs(events[..|events| - 1]);
      RunLast(events);
      WrittenStep(Run(FRESH, events[..|events| - 1]), events[|events| - 1]);
    }
  }

  lemma RunLast(events: seq<Event>)
    requires events != []
    ensures Run(FRESH, events) == Step(Run(FRESH, events[..|events| - 1]), events[|events| - 1])
  {
    hide Step;
  }

  lemma WrittenStep(s: State, e: Event)
    ensures Step(s, e).written == s.written + if e.Write? then e.bytes else []
  {
  }

  /** Some call of the task asked for at least as many bytes, of this pipe if `here`. */
  ghost predicate Asked(events: seq<Event>, pid: nat, n: nat, here: bool) {
    exists e :: e in events && Asks(e, pid, n, here)
  }

  predicate Asks(e: Event, pid: nat, n: nat, here: bool) {
    if here then e.Read? && e.pid == pid && n <= e.n else e.Elsewhere? && e.pid == pid && n <= e.n
  }

  /** Suspended reads and deliveries go back to calls of their tasks, and no delivery is
      longer than its call asked for. */
  ghost predicate Fair(s: State, events: seq<Event>) {
    && (forall pid :: pid in s.pending ==> Asked(events, pid, s.pending[pid].n, s.pending[pid].here))
    && (forall i :: 0 <= i < |s.got| ==> Asked(events, s.got[i].pid, |s.got[i].bytes|, s.got[i].here))
  }

  lemma AskedMore(events: seq<Event>, e: Event, pid: nat, n: nat, m: nat, here: bool)
    requires Asked(events, pid, n, here) && m <= n
    ensures Asked(events + [e], pid, m, here)
  {
    var x :| x in events && Asks(x, pid, n, here);
    assert x in events + [e] && Asks(x, pid, m, here);
  }

  lemma AskedNow(events: seq<Event>, e: Event, pid: nat, n: nat, here: bool)
    requires Asks(e, pid, n, here)
    ensures Asked(events + [e], pid, n, here)
  {
    assert (events + [e])[|events|] == e;
  }

  /** One delivery at most, no longer than the read it answers asked for. */
  lemma StepDelivers(s: State, e: Event)
    requires Formed(s)
    ensures var t := Step(s, e);
            || t.got == s.got
            || (exists d :: t.got == s.got + [d] && if e.Read? then Asks(e, d.pid, |d.bytes|, d.here)
                   else e.Write? && d.pid in s.pending && d.here == s.pending[d.pid].here && |d.bytes| <= s.pending[d.pid].n)
  {
    hide Take;
    match e
    case Read(pid, n) =>
      if pid != 0 && pid !in s.pending {
        ReadGets(s, pid, n);
        TakeHands(Lock(s, pid), pid, n, true);
      }
    case Write(bytes) =>
      if Served(s) {
        var w := s.(written := s.written + bytes);
        TakeBounded(Appended(w, bytes), s.reader, s.pending[s.reader].n, s.pending[s.reader].here);
      }
    case Elsewhere(pid, n) =>
    case Finish(pid) =>
  }

  lemma TakeBounded(s: State, pid: nat, n: nat, here: bool)
    ensures var t := Take(s, pid, n, here).state;
            t.got == s.got || exists d :: t.got == s.got + [d] && d.pid == pid && d.here == here && |d.bytes| <= n
  {
  }

  lemma StepPending(s: State, e: Event, pid: nat)
    requires pid in Step(s, e).pending
    ensures var q := Step(s, e).pending[pid];
            (pid in s.pending && s.pending[pid] == q) || Asks(e, pid, q.n, q.here)
  {
    hide Take;
    match e
    case Write(bytes) =>
      if Served(s) {
        TakePending(Appended(s.(written := s.written + bytes), bytes), s.reader, s.pending[s.reader].n, s.pending[s.reader].here);
      }
    case Read(x, n) => TakePending(Lock(s, x), x, n, true);
    case Elsewhere(_, _) =>
    case Finish(_) =>
  }

  lemma FairStep(s: State, events: seq<Event>, e: Event)
    requires Formed(s) && Fair(s, events)
    ensures Fair(Step(s, e), events + [e])
  {
    hide Step, Formed, Asked, Asks;
    var t := Step(s, e);
    forall pid | pid in t.pending ensures Asked(events + [e], pid, t.pending[pid].n, t.pending[pid].here) {
      StepPending(s, e, pid);
      if Asks(e, pid, t.pending[pid].n, t.pending[pid].here) {
        AskedNow(events, e, pid, t.pending[pid].n, t.pending[pid].here);
      } else {
        AskedMore(events, e, pid, s.pending[pid].n, t.pending[pid].n, s.pending[pid].here);
      }
    }
    StepDelivers(s, e);
    forall i | 0 <= i < |t.got| ensures Asked(events + [e], t.got[i].pid, |t.got[i].bytes|, t.got[i].here) {
      var d := t.got[i];
      if i < |s.got| {
        assert d == s.got[i];
        AskedMore(events, e, d.pid, |d.bytes|, |d.bytes|, d.here);
      } else if e.Read? {
        AskedNow(events, e, d.pid, |d.bytes|, d.here);
      } else {
        AskedMore(events, e, d.pid, s.pending[d.pid].n, |d.bytes|, d.here);
      }
    }
  }

  /** Over any run every delivery, from the buffer, through a write or handed over
      directly, goes to a task that asked, and is no longer than it asked for. */
  lemma {:induction false} NeverTooMuch(events: seq<Event>)
    requires AlwaysBelow(events)
    ensures Fair(Run(FRESH, events), events)
  {
    hide Step, BelowMark, Fair;
    if events == [] {
      assert Fair(FRESH, []) by { StartsFair(); }
    } else {
      hide Run;
      var n := |events| - 1;
      assert forall i :: 0 <= i < n ==> events[..n][..i] == events[..i] && events[..n][i] == events[i];
      NeverTooMuch(events[..n]);
      InvUpTo(events, n);
      RunLast(events);
      FairStep(Run(FRESH, events[..n]), events[..n], events[n]);
      assert events[..n] + [events[n]] == events;
    }
  }

  lemma StartsFair()
    ensures Fair(FRESH, [])
  {
  }

  // ---------------------------------------------------------------- the code

  lemma TakePending(s: State, pid: nat, n: nat, here: bool)
    ensures Take(s, pid, n, here).state.pending == s.pending
  {
  }

  /** The record of a pipe, and the suspended reads of the tasks. */
  class Channel {
    var reader: nat
    var rd: nat
    var size: nat
    var data: Buffer
    var pending: map<nat, Request>
    ghost var written: seq<Byte>
    ghost var got: seq<Delivery>

    ghost function View(): State
      reads this
    {
      State(reader, rd, size, data, pending, written, got)
    }

    constructor ()
      ensures View() == FRESH
    {
      reader, rd, size, data, pending := 0, 0, 0, None, map[];
      written, got := [], [];
    }

    /** From the lock on: true when there were bytes. */
    method TakeOut(pid: nat, s: nat, ghost here: bool) returns (any: bool, bytes: seq<Byte>)
      requires data.Some? ==> |data.bytes| == size || size == MARK
      modifies this
      ensures any == Take(old(View()), pid, s, here).Bytes?
      ensures View() == Take(old(View()), pid, s, here).state
      ensures if any then got == old(got) + [Delivery(pid, bytes, here)] else bytes == []
    {
      bytes := [];
      if size == MARK {
        size := 0;
      }
      if rd > size {
        rd := size;
      }
      if data.Some? && rd == size {
        size, rd, data := 0, 0, None;
      }
      if data.None? {
        return false, [];
      }
      if rd + s < size {
        bytes := data.bytes[rd..rd + s];
        rd := rd + s;
      } else {
        bytes := data.bytes[rd..size];
        size, rd, data := 0, 0, None;
      }
      got := got + [Delivery(pid, bytes, here)];
      reader := 0;
      any := true;
    }

    /** pipe_read, called by a task that has no read suspended. */
    method Read(pid: nat, s: nat) returns (bytes: seq<Byte>)
      requires pid != 0 && pid !in pending && Formed(View())
      modifies this
      ensures View() == Step(old(View()), Event.Read(pid, s))
      ensures var u := old(Unread(View()));
              if old(reader) == 0 || old(reader) == pid
              then bytes == u[..Min(s, |u|)] && Unread(View()) == u[Min(s, |u|)..]
              else bytes == [] && View() == old(View())
    {
      ReadGets(View(), pid, s);
      bytes := [];
      if reader == 0 {
        reader := pid;
      }
      if reader != pid {
        return;
      }
      var any;
      any, bytes := TakeOut(pid, s, true);
      if !any {
        pending := pending[pid := Request(s, true)];
      } else {
        assert got[|got| - 1].bytes == bytes;
      }
    }

    /** The bytes behind those of the buffer. */
    method Append(bytes: seq<Byte>)
      requires Formed(View())
      modifies this`data, this`size
      ensures View() == Appended(old(View()), bytes) && data.Some? && |data.bytes| == size
    {
      if size == MARK {
        size := 0;
      }
      data := Some((if data.Some? then data.bytes[..size] else []) + bytes);
      size := size + |bytes|;
    }

    /** pipe_write; bytes for a waiting reader are its answer. */
    method Write(bytes: seq<Byte>)
      requires Formed(View())
      modifies this
      ensures View() == Step(old(View()), Event.Write(bytes))
    {
      hide Take, Fifo, Unread;
      written := written + bytes;
      var waits := reader != 0 && reader in pending;
      if waits && pending[reader].n >= |bytes| && data.None? && size == 0 && size != MARK {
        got := got + [Delivery(reader, bytes, pending[reader].here)];
        size := MARK;
        pending := pending - {reader};
        return;
      }
      Append(bytes);
      if waits {
        var pid := reader;
        TakePending(View(), pid, pending[pid].n, pending[pid].here);
        var any, out := TakeOut(pid, pending[pid].n, pending[pid].here);
        pending := pending - {pid};
      }
    }
  }
}
