/** The run-time linker: relocations of every loaded object collected, then
    resolved against the symbols of every object in load order.  Starts from
    decoded tables. */
module Linker {
  /** A relocation: nameless ones move with their object. */
  datatype Rela = Rela(offset: int, name: string, addend: int)

  datatype Sym = Sym(name: string, value: nat)

  /** A loaded object.  The two relocation tables are address ranges; at decodes the
      entry at an address. */
  datatype Object = Object(
    exec: bool, addr: nat, end: nat,
    rela: nat, relasz: nat, jmprel: nat, jmpsz: nat, relaent: nat, at: nat -> Rela,
    syms: seq<Sym>)

  const BUF: nat := 0x7F_0000_0000

  function Wrap(x: int): nat { x % 0x1_0000_0000_0000_0000 }

  // ---------------------------------------------------------------- the merged table

  datatype Extent = Extent(start: nat, size: nat)

  /** From the lower start to the higher end; a table at 0 does not exist. */
  function Merged(o: Object): Extent {
    var rela := if o.rela == 0 && o.jmprel != 0 && o.jmpsz != 0 then o.jmprel else o.rela;
    var relasz := if o.rela == 0 && o.jmprel != 0 && o.jmpsz != 0 then o.jmpsz else o.relasz;
    var end := rela + relasz;
    var start := if o.jmprel != 0 && o.jmprel < rela then o.jmprel else rela;
    var stop := if o.jmprel + o.jmpsz > end then o.jmprel + o.jmpsz else end;
    Extent(start, stop - start)
  }

  /** How many entries fit, and whether a distance is a whole number of them. */
  function Count(size: nat, ent: nat): nat
    requires ent > 0
  {
    size / ent
  }

  predicate Whole(size: nat, ent: nat)
    requires ent > 0
  {
    size % ent == 0
  }

  predicate InTable(a: nat, start: nat, size: nat, ent: nat)
    requires ent > 0
  {
    start <= a && a + ent <= start + size && Whole(a - start, ent)
  }

  /** The merged table has the entries of both tables and no others. */
  ghost predicate IsUnion(o: Object)
    requires o.relaent > 0
  {
    forall a: nat :: UnionAt(o, a)
  }

  ghost predicate UnionAt(o: Object, a: nat)
    requires o.relaent > 0
  {
    InTable(a, Merged(o).start, Merged(o).size, o.relaent)
    <==> InTable(a, o.rela, o.relasz, o.relaent) || InTable(a, o.jmprel, o.jmpsz, o.relaent)
  }

  /** The later table goes on where the earlier one stands: its first entry is a whole
      number of entries away, and not past the end of the earlier one.  A later table
      with no entry must not reach far enough to make room for one. */
  predicate Adjoin(ent: nat, start: nat, size: nat, start2: nat, size2: nat)
    requires ent > 0 && start <= start2
  {
    if Count(size2, ent) == 0 then Count(start2 + size2 - start, ent) <= Count(size, ent)
    else Whole(start2 - start, ent) && Count(start2 - start, ent) <= Count(size, ent)
  }

  /** The merged table is the union of the two exactly when the later one adjoins the
      earlier one; padding between them would be taken for relocations, or the entries
      behind it read from the wrong place. */
  lemma MergedIsUnion(o: Object)
    requires o.relaent > 0 && o.rela != 0 && o.jmprel != 0
    ensures IsUnion(o) <==> if o.rela <= o.jmprel then Adjoin(o.relaent, o.rela, o.relasz, o.jmprel, o.jmpsz)
                            else Adjoin(o.relaent, o.jmprel, o.jmpsz, o.rela, o.relasz)
  {
    hide InTable, Adjoin;
    var ent := o.relaent;
    if o.rela <= o.jmprel {
      assert Merged(o) == Extent(o.rela, Reach(o.rela, o.relasz, o.jmprel, o.jmpsz));
      PairUnion(ent, o.rela, o.relasz, o.jmprel, o.jmpsz);
      forall a: nat ensures UnionAt(o, a) <==> PairAt(ent, o.rela, o.relasz, o.jmprel, o.jmpsz, a) {}
    } else {
      assert Merged(o) == Extent(o.jmprel, Reach(o.jmprel, o.jmpsz, o.rela, o.relasz));
      PairUnion(ent, o.jmprel, o.jmpsz, o.rela, o.relasz);
      forall a: nat ensures UnionAt(o, a) <==> PairAt(ent, o.jmprel, o.jmpsz, o.rela, o.relasz, a) {}
    }
  }

  /** 24 bytes of entries at 240 and at 272: the second entry is looked for at 264. */
  lemma PaddedTablesExample(at: nat -> Rela)
    ensures var o := Object(false, 0, 4096, 240, 24, 272, 24, 24, at, []);
            Merged(o) == Extent(240, 56) && InTable(264, 240, 56, 24) && InTable(272, 272, 24, 24)
            && !InTable(272, 240, 56, 24) && !IsUnion(o)
  {
    var o := Object(false, 0, 4096, 240, 24, 272, 24, 24, at, []);
    MergedIsUnion(o);
  }

  /** Entries of a table by their number. */
  lemma Numbered(a: nat, start: nat, size: nat, ent: nat)
    requires ent > 0
    ensures InTable(a, start, size, ent) <==> start <= a && Whole(a - start, ent) && Count(a - start, ent) < Count(size, ent)
  {
    if start <= a && Whole(a - start, ent) {
      var q := (a - start) / ent;
      assert a - start == q * ent;
      assert (q + 1) * ent == q * ent + ent;
      Fits(q + 1, size, ent);
    }
  }

  lemma Fits(q: nat, size: nat, ent: nat)
    requires ent > 0
    ensures q * ent <= size <==> q <= size / ent
  {
    var n := size / ent;
    assert n * ent <= size < n * ent + ent;
    if q <= n { Times(q, n, ent); } else { Times(n + 1, q, ent); assert (n + 1) * ent == n * ent + ent; }
  }

  lemma Times(a: nat, b: nat, ent: nat)
    requires a <= b
    ensures a * ent <= b * ent
  {
  }

  lemma Ordered(a: nat, b: nat, ent: nat)
    requires ent > 0 && a <= b
    ensures Count(a, ent) <= Count(b, ent)
  {
    assert a / ent * ent <= a;
    Fits(a / ent, b, ent);
  }

  lemma Split(x: nat, q: nat, r: nat, ent: nat)
    requires ent > 0 && r < ent && x == q * ent + r
    ensures x / ent == q && x % ent == r
  {
    Fits(q, x, ent);
    Fits(q + 1, x, ent);
    assert (q + 1) * ent == q * ent + ent;
  }

  /** Numbers counted from an earlier start on the same grid. */
  lemma Shifted(d: nat, gap: nat, ent: nat)
    requires ent > 0 && Whole(gap, ent)
    ensures Whole(gap + d, ent) <==> Whole(d, ent)
    ensures Count(gap + d, ent) == Count(d, ent) + Count(gap, ent)
  {
    var n, r, q := d / ent, d % ent, gap / ent;
    assert (n + q) * ent == n * ent + q * ent;
    Split(gap + d, n + q, r, ent);
  }

  /** The first place behind n entries. */
  lemma Behind(n: nat, ent: nat)
    requires ent > 0
    ensures Whole(n * ent, ent) && Count(n * ent, ent) == n
  {
    Split(n * ent, n, 0, ent);
  }

  /** Short of a whole distance the number is lower. */
  lemma Below(d: nat, gap: nat, ent: nat)
    requires ent > 0 && d < gap && Whole(gap, ent)
    ensures Count(d, ent) < Count(gap, ent)
  {
    assert gap == gap / ent * ent;
    Fits(gap / ent, d, ent);
  }

  function Reach(start: nat, size: nat, start2: nat, size2: nat): nat
    requires start <= start2
  {
    if start2 + size2 > start + size then start2 + size2 - start else size
  }

  ghost predicate PairAt(ent: nat, start: nat, size: nat, start2: nat, size2: nat, a: nat)
    requires ent > 0 && start <= start2
  {
    InTable(a, start, Reach(start, size, start2, size2), ent) <==> InTable(a, start, size, ent) || InTable(a, start2, size2, ent)
  }

  lemma PairUnion(ent: nat, start: nat, size: nat, start2: nat, size2: nat)
    requires ent > 0 && start <= start2
    ensures (forall a: nat :: PairAt(ent, start, size, start2, size2, a)) <==> Adjoin(ent, start, size, start2, size2)
  {
    hide InTable, PairAt;
    if Adjoin(ent, start, size, start2, size2) {
      forall a: nat ensures PairAt(ent, start, size, start2, size2, a) { PairHolds(ent, start, size, start2, size2, a); }
    } else {
      var a := PairFails(ent, start, size, start2, size2);
    }
  }

  lemma ReachCount(ent: nat, start: nat, size: nat, start2: nat, size2: nat)
    requires ent > 0 && start <= start2
    ensures var n, n2 := Count(size, ent), Count(start2 + size2 - start, ent);
            Count(Reach(start, size, start2, size2), ent) == if n2 > n then n2 else n
  {
    Ordered(size, Reach(start, size, start2, size2), ent);
    Ordered(start2 + size2 - start, Reach(start, size, start2, size2), ent);
    hide Count;
  }

  lemma PairHolds(ent: nat, start: nat, size: nat, start2: nat, size2: nat, a: nat)
    requires ent > 0 && start <= start2 && Adjoin(ent, start, size, start2, size2)
    ensures PairAt(ent, start, size, start2, size2, a)
  {
    hide InTable, Count, Whole, Reach;
    ReachCount(ent, start, size, start2, size2);
    Numbered(a, start, size, ent);
    Numbered(a, start2, size2, ent);
    Numbered(a, start, Reach(start, size, start2, size2), ent);
    if Count(size2, ent) > 0 {
      Shifted(size2, start2 - start, ent);
      assert start2 - start + size2 == start2 + size2 - start;
      if start2 <= a {
        Shifted(a - start2, start2 - start, ent);
        assert start2 - start + (a - start2) == a - start;
      } else if start <= a {
        Below(a - start, start2 - start, ent);
      }
    }
  }

  lemma PairFails(ent: nat, start: nat, size: nat, start2: nat, size2: nat) returns (a: nat)
    requires ent > 0 && start <= start2 && !Adjoin(ent, start, size, start2, size2)
    ensures !PairAt(ent, start, size, start2, size2, a)
  {
    hide InTable, Count, Whole, Reach;
    ReachCount(ent, start, size, start2, size2);
    var off := Count(size2, ent) > 0 && !Whole(start2 - start, ent);
    a := if off then start2 else start + Count(size, ent) * ent;
    Behind(Count(size, ent), ent);
    assert !off ==> a - start == Count(size, ent) * ent;
    Behind(0, ent);
    Numbered(a, start, size, ent);
    Numbered(a, start2, size2, ent);
    Numbered(a, start, Reach(start, size, start2, size2), ent);
    if Count(size2, ent) > 0 && !off {
      Shifted(size2, start2 - start, ent);
      assert start2 - start + size2 == start2 + size2 - start;
      if start2 <= a { Ordered(start2 - start, a - start, ent); }
    }
  }

  /** The entries that are looked at. */
  function Table(o: Object): seq<Rela> {
    var m := Merged(o);
    if o.relaent == 0 || m.size == 0 || m.start == 0 then []
    else seq(m.size / o.relaent, i requires 0 <= i < m.size / o.relaent => o.at(m.start + i * o.relaent))
  }

  lemma TableIs(o: Object)
    ensures var m := Merged(o);
            |Table(o)| == (if o.relaent == 0 || m.size == 0 || m.start == 0 then 0 else m.size / o.relaent)
            && forall i :: 0 <= i < |Table(o)| ==> Table(o)[i] == o.at(m.start + i * o.relaent)
  {
    hide Merged;
  }

  // ---------------------------------------------------------------- what linking should do

  /** A relocation at its place. */
  datatype Item = Item(slot: int, inside: bool, name: string, moved: nat)

  function ItemOf(o: Object, r: Rela): Item {
    var slot := BUF + o.addr + r.offset;
    Item(slot, BUF + o.addr <= slot <= BUF + o.end, r.name, Wrap(o.addr + r.addend))
  }

  function ItemsOf(o: Object): (s: seq<Item>)
    ensures |s| == |Table(o)|
  {
    seq(|Table(o)|, i requires 0 <= i < |Table(o)| => ItemOf(o, Table(o)[i]))
  }

  function Items(objects: seq<Object>): seq<Item> {
    if objects == [] then [] else Items(objects[..|objects| - 1]) + ItemsOf(objects[|objects| - 1])
  }

  datatype Def = Def(name: string, address: nat)

  /** A symbol with a value and a name. */
  predicate Defines(s: Sym) { s.value != 0 && s.name != "" }

  function DefsOf(addr: nat, syms: seq<Sym>): seq<Def> {
    if syms == [] then []
    else
      var n := |syms| - 1;
      DefsOf(addr, syms[..n]) + if Defines(syms[n]) then [Def(syms[n].name, Wrap(addr + syms[n].value))] else []
  }

  function Defs(objects: seq<Object>): seq<Def> {
    if objects == [] then [] else Defs(objects[..|objects| - 1]) + DefsOf(objects[|objects| - 1].addr, objects[|objects| - 1].syms)
  }

  /** The index of the first definition of a name, or the length. */
  function First(defs: seq<Def>, name: string): (i: nat)
    ensures i <= |defs|
    ensures i < |defs| ==> defs[i].name == name
    ensures forall k :: 0 <= k < i ==> defs[k].name != name
  {
    if defs == [] then 0 else if defs[0].name == name then 0 else 1 + First(defs[1..], name)
  }

  /** What belongs into a slot: for a name the address of its first definition in
      load order, then symbol order. */
  function Value(defs: seq<Def>, item: Item): nat {
    if item.name == "" then item.moved
    else if First(defs, item.name) < |defs| then defs[First(defs, item.name)].address
    else 0
  }

  predicate Resolvable(defs: seq<Def>, item: Item) {
    item.name == "" || First(defs, item.name) < |defs|
  }

  // ---------------------------------------------------------------- eight bytes at a time

  /** Memory by bytes. */
  type Memory = map<int, nat>

  /** Byte k of a number, the lowest first. */
  function ByteOf(v: nat, k: nat): nat {
    if k == 0 then v % 256 else ByteOf(v / 256, k - 1)
  }

  predicate Spans(slot: int, a: int) { slot <= a < slot + 8 }

  function Store(mem: Memory, slot: int, v: nat): Memory {
    mem[slot := ByteOf(v, 0)][slot + 1 := ByteOf(v, 1)][slot + 2 := ByteOf(v, 2)][slot + 3 := ByteOf(v, 3)]
       [slot + 4 := ByteOf(v, 4)][slot + 5 := ByteOf(v, 5)][slot + 6 := ByteOf(v, 6)][slot + 7 := ByteOf(v, 7)]
  }

  lemma StoreAt(mem: Memory, slot: int, v: nat, a: int)
    ensures a in Store(mem, slot, v) <==> a in mem || Spans(slot, a)
    ensures Spans(slot, a) ==> Store(mem, slot, v)[a] == ByteOf(v, a - slot)
    ensures !Spans(slot, a) && a in mem ==> Store(mem, slot, v)[a] == mem[a]
  {
    hide ByteOf;
  }

  /** The number read from n bytes. */
  function Load(mem: Memory, a: int, n: nat): nat
    requires forall b :: a <= b < a + n ==> b in mem
    decreases n
  {
    if n == 0 then 0 else mem[a] + 256 * Load(mem, a + 1, n - 1)
  }

  /** The bytes of a number read back make the number. */
  lemma {:induction false} BytesLoad(mem: Memory, a: int, n: nat, v: nat)
    requires forall b :: a <= b < a + n ==> b in mem
    requires forall k :: 0 <= k < n ==> mem[a + k] == ByteOf(v, k)
    requires v < Power(n)
    ensures Load(mem, a, n) == v
    decreases n
  {
    if n > 0 {
      assert mem[a + 0] == ByteOf(v, 0);
      forall k | 0 <= k < n - 1 ensures mem[a + 1 + k] == ByteOf(v / 256, k) {
        var j := k + 1;
        assert mem[a + j] == ByteOf(v, j);
      }
      BytesLoad(mem, a + 1, n - 1, v / 256);
    }
  }

  function Power(n: nat): nat { if n == 0 then 1 else 256 * Power(n - 1) }

  /** The byte a relocation wants at an address it spans. */
  function Wants(item: Item, defs: seq<Def>, a: int): nat
    requires Spans(item.slot, a)
  {
    ByteOf(Value(defs, item), a - item.slot)
  }

  ghost predicate AgreeAt(x: Item, y: Item, defs: seq<Def>, a: int) {
    Spans(x.slot, a) && Spans(y.slot, a) ==> Wants(x, defs, a) == Wants(y, defs, a)
  }

  /** Any two relocations want the same of every byte they share. */
  ghost predicate Agree(items: seq<Item>, defs: seq<Def>) {
    forall i, j, a :: 0 <= i < |items| && 0 <= j < |items| ==> AgreeAt(items[i], items[j], defs, a)
  }

  /** Every relocation holds its value. */
  ghost predicate Linked(items: seq<Item>, defs: seq<Def>, mem: Memory) {
    forall i :: 0 <= i < |items| ==> Holds(items[i], defs, mem)
  }

  ghost predicate Holds(item: Item, defs: seq<Def>, mem: Memory) {
    forall a :: Spans(item.slot, a) ==> HoldsAt(item, defs, mem, a)
  }

  ghost predicate HoldsAt(item: Item, defs: seq<Def>, mem: Memory, a: int)
    requires Spans(item.slot, a)
  {
    a in mem && mem[a] == Wants(item, defs, a)
  }

  /** Nothing changed but bytes that relocations span. */
  ghost predicate Elsewhere(items: seq<Item>, was: Memory, now: Memory) {
    forall a :: ElsewhereAt(items, was, now, a)
  }

  ghost predicate ElsewhereAt(items: seq<Item>, was: Memory, now: Memory, a: int) {
    (exists i :: 0 <= i < |items| && Spans(items[i].slot, a))
    || ((a in was <==> a in now) && (a in was ==> now[a] == was[a]))
  }

  /** Reading the eight bytes of a linked slot gives the value. */
  lemma HoldsLoad(item: Item, defs: seq<Def>, mem: Memory)
    requires Holds(item, defs, mem) && Value(defs, item) < Power(8)
    ensures forall a :: item.slot <= a < item.slot + 8 ==> a in mem
    ensures Load(mem, item.slot, 8) == Value(defs, item)
  {
    hide Value, ByteOf;
    forall a | item.slot <= a < item.slot + 8 ensures a in mem { assert Spans(item.slot, a) && HoldsAt(item, defs, mem, a); }
    forall k | 0 <= k < 8 ensures mem[item.slot + k] == ByteOf(Value(defs, item), k) {
      var a := item.slot + k;
      assert Spans(item.slot, a) && HoldsAt(item, defs, mem, a);
    }
    BytesLoad(mem, item.slot, 8, Value(defs, item));
  }

  /** Addresses are 64 bits wide. */
  lemma {:induction false} ItemsFit(objects: seq<Object>, i: nat)
    requires i < |Items(objects)|
    ensures Items(objects)[i].moved < Power(8)
  {
    hide Table;
    var n := |objects| - 1;
    assert Power(8) == 0x1_0000_0000_0000_0000;
    if i < |Items(objects[..n])| { ItemsFit(objects[..n], i); }
  }

  lemma {:induction false} SymbolsFit(addr: nat, syms: seq<Sym>, i: nat)
    requires i < |DefsOf(addr, syms)|
    ensures DefsOf(addr, syms)[i].address < Power(8)
  {
    var n := |syms| - 1;
    assert Power(8) == 0x1_0000_0000_0000_0000;
    if i < |DefsOf(addr, syms[..n])| { SymbolsFit(addr, syms[..n], i); }
  }

  lemma {:induction false} DefsFit(objects: seq<Object>, i: nat)
    requires i < |Defs(objects)|
    ensures Defs(objects)[i].address < Power(8)
  {
    hide DefsOf;
    var n := |objects| - 1;
    if i < |Defs(objects[..n])| {
      DefsFit(objects[..n], i);
    } else {
      SymbolsFit(objects[n].addr, objects[n].syms, i - |Defs(objects[..n])|);
    }
  }

  /** In a linked process every slot, read as a number, is the value of its relocation. */
  lemma LinkedLoads(objects: seq<Object>, mem: Memory, i: nat)
    requires Linked(Items(objects), Defs(objects), mem) && i < |Items(objects)|
    ensures var item := Items(objects)[i];
            (forall a :: item.slot <= a < item.slot + 8 ==> a in mem)
            && Load(mem, item.slot, 8) == Value(Defs(objects), item)
  {
    hide Holds, Items, Defs;
    var item, defs := Items(objects)[i], Defs(objects);
    ItemsFit(objects, i);
    assert Power(8) > 0;
    if item.name != "" && First(defs, item.name) < |defs| { DefsFit(objects, First(defs, item.name)); }
    HoldsLoad(item, defs, mem);
  }

  // ---------------------------------------------------------------- the values, by object and index

  /** Symbol k of the table defines the name. */
  predicate DefinesName(syms: seq<Sym>, k: nat, name: string)
    requires k < |syms|
  {
    syms[k].value != 0 && syms[k].name == name
  }

  /** Symbol k of object d is the first in load order, then symbol order, that defines the
      name. */
  ghost predicate FirstSym(objects: seq<Object>, name: string, d: nat, k: nat) {
    && d < |objects| && k < |objects[d].syms| && DefinesName(objects[d].syms, k, name)
    && (forall j :: 0 <= j < k ==> !DefinesName(objects[d].syms, j, name))
    && forall e :: 0 <= e < d ==> Undefined(objects[e].syms, name)
  }

  ghost predicate Undefined(syms: seq<Sym>, name: string) {
    forall j :: 0 <= j < |syms| ==> !DefinesName(syms, j, name)
  }

  lemma {:induction false} FirstJoin(a: seq<Def>, b: seq<Def>, name: string)
    ensures First(a + b, name) == if First(a, name) < |a| then First(a, name) else |a| + First(b, name)
  {
    if a == [] {
      assert a + b == b;
    } else {
      assert (a + b)[1..] == a[1..] + b;
      FirstJoin(a[1..], b, name);
    }
  }

  lemma {:induction false} NotInSyms(addr: nat, syms: seq<Sym>, name: string)
    requires Undefined(syms, name) && name != ""
    ensures First(DefsOf(addr, syms), name) == |DefsOf(addr, syms)|
  {
    if syms != [] {
      var n := |syms| - 1;
      assert forall j :: 0 <= j < n ==> DefinesName(syms[..n], j, name) == DefinesName(syms, j, name);
      NotInSyms(addr, syms[..n], name);
      assert !DefinesName(syms, n, name);
      FirstJoin(DefsOf(addr, syms[..n]), if Defines(syms[n]) then [Def(syms[n].name, Wrap(addr + syms[n].value))] else [], name);
    }
  }

  lemma {:induction false} InSyms(addr: nat, syms: seq<Sym>, name: string, k: nat)
    requires k < |syms| && DefinesName(syms, k, name) && name != ""
    requires forall j :: 0 <= j < k ==> !DefinesName(syms, j, name)
    ensures var defs := DefsOf(addr, syms); var i := First(defs, name);
            i < |defs| && defs[i].address == (addr + syms[k].value) % 0x1_0000_0000_0000_0000
  {
    hide First, Wrap;
    var n := |syms| - 1;
    var last := if Defines(syms[n]) then [Def(syms[n].name, Wrap(addr + syms[n].value))] else [];
    assert forall j :: 0 <= j < n ==> DefinesName(syms[..n], j, name) == DefinesName(syms, j, name);
    FirstJoin(DefsOf(addr, syms[..n]), last, name);
    if k < n {
      InSyms(addr, syms[..n], name, k);
    } else {
      NotInSyms(addr, syms[..n], name);
      OnlyDef(Def(syms[n].name, Wrap(addr + syms[n].value)));
      Wrapped(addr + syms[n].value);
    }
  }

  lemma OnlyDef(d: Def)
    ensures First([d], d.name) == 0
  {
  }

  lemma Wrapped(x: int)
    ensures Wrap(x) == x % 0x1_0000_0000_0000_0000
  {
  }

  lemma {:induction false} NotInObjects(objects: seq<Object>, name: string)
    requires name != "" && forall e :: 0 <= e < |objects| ==> Undefined(objects[e].syms, name)
    ensures First(Defs(objects), name) == |Defs(objects)|
  {
    hide DefsOf, Undefined;
    if objects != [] {
      var n := |objects| - 1;
      NotInObjects(objects[..n], name);
      NotInSyms(objects[n].addr, objects[n].syms, name);
      FirstJoin(Defs(objects[..n]), DefsOf(objects[n].addr, objects[n].syms), name);
    }
  }

  lemma {:induction false} InObjects(objects: seq<Object>, name: string, d: nat, k: nat)
    requires FirstSym(objects, name, d, k) && name != ""
    ensures var defs := Defs(objects); var i := First(defs, name);
            i < |defs| && defs[i].address == (objects[d].addr + objects[d].syms[k].value) % 0x1_0000_0000_0000_0000
  {
    hide DefsOf, Undefined, DefinesName, First;
    var n := |objects| - 1;
    FirstJoin(Defs(objects[..n]), DefsOf(objects[n].addr, objects[n].syms), name);
    if d < n {
      InObjects(objects[..n], name, d, k);
    } else {
      NotInObjects(objects[..n], name);
      InSyms(objects[n].addr, objects[n].syms, name, k);
    }
  }

  lemma {:induction false} ItemIn(objects: seq<Object>, e: nat, i: nat) returns (p: nat)
    requires e < |objects| && i < |Table(objects[e])|
    ensures p < |Items(objects)| && Items(objects)[p] == ItemOf(objects[e], Table(objects[e])[i])
  {
    hide Table;
    var n := |objects| - 1;
    if e < n {
      p := ItemIn(objects[..n], e, i);
    } else {
      p := |Items(objects[..n])| + i;
    }
  }

  /** In a linked process the slot of relocation i of object e holds, in eight bytes, the
      address its object moved the addend to when it is nameless, and otherwise the address
      of the symbol that defines its name first. */
  lemma SlotsHold(objects: seq<Object>, mem: Memory, e: nat, i: nat)
    requires Linked(Items(objects), Defs(objects), mem) && e < |objects| && i < |Table(objects[e])|
    ensures var o, r := objects[e], Table(objects[e])[i];
            var slot := BUF + o.addr + r.offset;
            && (forall a :: slot <= a < slot + 8 ==> a in mem)
            && (r.name == "" ==> Load(mem, slot, 8) == (o.addr + r.addend) % 0x1_0000_0000_0000_0000)
            && (forall d: nat, k: nat :: r.name != "" && FirstSym(objects, r.name, d, k) ==>
                  Load(mem, slot, 8) == (objects[d].addr + objects[d].syms[k].value) % 0x1_0000_0000_0000_0000)
  {
    hide Table, Items, Defs, Linked, First, FirstSym, Load;
    var p := ItemIn(objects, e, i);
    LinkedLoads(objects, mem, p);
    var r := Table(objects[e])[i];
    forall d: nat, k: nat | r.name != "" && FirstSym(objects, r.name, d, k)
      ensures d < |objects| && k < |objects[d].syms|
              && Load(mem, BUF + objects[e].addr + r.offset, 8) == (objects[d].addr + objects[d].syms[k].value) % 0x1_0000_0000_0000_0000
    {
      InRange(objects, r.name, d, k);
      InObjects(objects, r.name, d, k);
    }
  }

  lemma InRange(objects: seq<Object>, name: string, d: nat, k: nat)
    requires FirstSym(objects, name, d, k)
    ensures d < |objects| && k < |objects[d].syms|
  {
  }

  // ---------------------------------------------------------------- slots that overlap

  lemma StoreHolds(item: Item, defs: seq<Def>, mem: Memory)
    ensures Holds(item, defs, Store(mem, item.slot, Value(defs, item)))
  {
    hide Value, ByteOf, Store;
    var mem' := Store(mem, item.slot, Value(defs, item));
    forall a | Spans(item.slot, a) ensures HoldsAt(item, defs, mem', a) { StoreAt(mem, item.slot, Value(defs, item), a); }
  }

  /** A store for one relocation does no harm to another that agrees with it. */
  lemma StoreKeeps(items: seq<Item>, defs: seq<Def>, i: nat, j: nat, mem: Memory)
    requires Agree(items, defs) && i < |items| && j < |items| && Holds(items[i], defs, mem)
    ensures Holds(items[i], defs, Store(mem, items[j].slot, Value(defs, items[j])))
  {
    hide Value, ByteOf, Store;
    var v := Value(defs, items[j]);
    var mem' := Store(mem, items[j].slot, v);
    forall a | Spans(items[i].slot, a) ensures HoldsAt(items[i], defs, mem', a) {
      StoreAt(mem, items[j].slot, v, a);
      assert AgreeAt(items[i], items[j], defs, a) && HoldsAt(items[i], defs, mem, a);
    }
  }

  lemma StoreElsewhere(items: seq<Item>, was: Memory, mem: Memory, j: nat, v: nat)
    requires Elsewhere(items, was, mem) && j < |items|
    ensures Elsewhere(items, was, Store(mem, items[j].slot, v))
  {
    hide ByteOf, Store;
    var mem' := Store(mem, items[j].slot, v);
    forall a ensures ElsewhereAt(items, was, mem', a) {
      StoreAt(mem, items[j].slot, v, a);
      assert ElsewhereAt(items, was, mem, a);
    }
  }

  /** What is linked agrees. */
  lemma LinkedAgree(items: seq<Item>, defs: seq<Def>, mem: Memory)
    requires Linked(items, defs, mem)
    ensures Agree(items, defs)
  {
    hide Value, ByteOf;
    forall i, j, a | 0 <= i < |items| && 0 <= j < |items| ensures AgreeAt(items[i], items[j], defs, a) {
      if Spans(items[i].slot, a) && Spans(items[j].slot, a) {
        assert Holds(items[i], defs, mem) && Holds(items[j], defs, mem);
        assert HoldsAt(items[i], defs, mem, a) && HoldsAt(items[j], defs, mem, a);
      }
    }
  }

  /** Slots are compared with the bounds of their object by their first byte: one less
      than eight bytes before the end passes and is written past it. */
  lemma WrittenInside(o: Object, r: Rela)
    requires ItemOf(o, r).inside
    ensures (forall a :: Spans(ItemOf(o, r).slot, a) ==> BUF + o.addr <= a < BUF + o.end) <==> o.addr + r.offset + 8 <= o.end
  {
    var slot := ItemOf(o, r).slot;
    assert Spans(slot, slot + 7);
  }

  /** A slot right at the end of its object. */
  lemma PastEndExample(at: nat -> Rela)
    ensures var o, r := Object(true, 0, 4096, 0, 0, 0, 0, 24, at, []), Rela(4096, "", 1);
            ItemOf(o, r).inside && Spans(ItemOf(o, r).slot, BUF + o.end)
  {
  }

  /** Two slots four bytes apart: whatever memory they are written to, one of them does
      not hold its value. */
  lemma OverlapExample(mem: Memory)
    ensures var items := [Item(BUF + 8, true, "", 1), Item(BUF + 12, true, "", 1)];
            !Agree(items, []) && !Linked(items, [], mem)
  {
    var items := [Item(BUF + 8, true, "", 1), Item(BUF + 12, true, "", 1)];
    assert ByteOf(1, 4) == 0 by { assert ByteOf(0, 3) == 0; }
    assert !AgreeAt(items[0], items[1], [], BUF + 12);
    if Linked(items, [], mem) { LinkedAgree(items, [], mem); }
  }

  /** The file types: one program, then libraries. */
  predicate Kinds(objects: seq<Object>) {
    forall e :: 0 <= e < |objects| ==> (objects[e].exec <==> e == 0)
  }

  // ---------------------------------------------------------------- elf_rtlink

  /** A relocation that waits for its symbol; its slot becomes 0 when it has it. */
  datatype Pending = Pending(offs: nat, name: string)

  function Waiting(items: seq<Item>): seq<Pending> {
    if items == [] then []
    else
      var n := |items| - 1;
      Waiting(items[..n]) + if items[n].name != "" && items[n].slot > 0 then [Pending(items[n].slot, items[n].name)] else []
  }

  lemma {:induction false} WaitingItem(items: seq<Item>, k: nat) returns (i: nat)
    requires k < |Waiting(items)|
    ensures i < |items| && items[i].name != "" && items[i].slot > 0 && Waiting(items)[k] == Pending(items[i].slot, items[i].name)
  {
    var n := |items| - 1;
    if k < |Waiting(items[..n])| {
      i := WaitingItem(items[..n], k);
    } else {
      i := n;
    }
  }

  lemma {:induction false} ItemWaiting(items: seq<Item>, i: nat) returns (k: nat)
    requires i < |items| && items[i].name != "" && items[i].slot > 0
    ensures k < |Waiting(items)| && Waiting(items)[k] == Pending(items[i].slot, items[i].name)
  {
    var n := |items| - 1;
    if i < n {
      k := ItemWaiting(items[..n], i);
    } else {
      k := |Waiting(items[..n])|;
    }
  }

  ghost predicate NamelessHold(items: seq<Item>, defs: seq<Def>, mem: Memory) {
    forall i :: 0 <= i < |items| && items[i].name == "" ==> Holds(items[i], defs, mem)
  }

  /** What a waiting relocation is for. */
  function Awaited(w: Pending): Item { Item(w.offs, true, w.name, 0) }

  lemma SameHolds(item: Item, w: Pending, defs: seq<Def>, mem: Memory)
    requires item.name == w.name != "" && item.slot == w.offs
    ensures Value(defs, item) == Value(defs, Awaited(w))
    ensures Holds(item, defs, mem) <==> Holds(Awaited(w), defs, mem)
  {
    hide ByteOf;
    if Holds(item, defs, mem) {
      forall a | Spans(w.offs, a) ensures HoldsAt(Awaited(w), defs, mem, a) { assert HoldsAt(item, defs, mem, a); }
    }
    if Holds(Awaited(w), defs, mem) {
      forall a | Spans(w.offs, a) ensures HoldsAt(item, defs, mem, a) { assert HoldsAt(Awaited(w), defs, mem, a); }
    }
  }

  /** A nameless relocation written. */
  lemma NamelessWritten(items: seq<Item>, defs: seq<Def>, mem: Memory, all: seq<Item>, item: Item, was: Memory)
    requires items + [item] <= all && item.name == ""
    requires Elsewhere(all, was, mem)
    requires Agree(all, defs) ==> NamelessHold(items, defs, mem)
    ensures Elsewhere(all, was, Store(mem, item.slot, item.moved))
    ensures Agree(all, defs) ==> NamelessHold(items + [item], defs, Store(mem, item.slot, item.moved))
  {
    hide Holds, Agree, Elsewhere, Store;
    var n := |items|;
    assert all[n] == item;
    StoreElsewhere(all, was, mem, n, item.moved);
    if Agree(all, defs) {
      forall i | 0 <= i < n + 1 && (items + [item])[i].name == ""
        ensures Holds((items + [item])[i], defs, Store(mem, item.slot, item.moved))
      {
        assert all[i] == (items + [item])[i];
        if i < n {
          assert Holds(items[i], defs, mem);
          StoreKeeps(all, defs, i, n, mem);
        } else {
          StoreHolds(item, defs, mem);
        }
      }
    }
  }

  lemma SymbolicNoted(items: seq<Item>, defs: seq<Def>, mem: Memory, item: Item)
    requires item.name != "" && NamelessHold(items, defs, mem)
    ensures NamelessHold(items + [item], defs, mem)
  {
    forall i | 0 <= i < |items| + 1 && (items + [item])[i].name == "" ensures Holds((items + [item])[i], defs, mem) {
      assert Holds(items[i], defs, mem);
    }
  }

  /** Pass two so far: relocation k is resolved when its name is defined among the
      first d definitions, or by the next one and k is below j. */
  ghost predicate Resolving(orig: seq<Pending>, defs: seq<Def>, now: seq<Pending>, d: nat, j: nat) {
    |now| == |orig| && forall k :: 0 <= k < |orig| ==> ResolvedAt(orig, defs, now, d, j, k)
  }

  ghost predicate ResolvedAt(orig: seq<Pending>, defs: seq<Def>, now: seq<Pending>, d: nat, j: nat, k: nat)
    requires k < |orig| == |now|
  {
    && now[k].name == orig[k].name
    && now[k].offs == if First(defs, orig[k].name) < d + (if k < j then 1 else 0) then 0 else orig[k].offs
  }

  /** The resolved ones and the nameless ones hold, provided nobody disagrees. */
  ghost predicate Holding(items: seq<Item>, defs: seq<Def>, orig: seq<Pending>, now: seq<Pending>, mem: Memory) {
    |now| == |orig| &&
    (Agree(items, defs) ==>
       NamelessHold(items, defs, mem) && forall k :: 0 <= k < |orig| && now[k].offs == 0 ==> Holds(Awaited(orig[k]), defs, mem))
  }

  lemma WriteHolds(items: seq<Item>, defs: seq<Def>, orig: seq<Pending>, now: seq<Pending>, mem: Memory, j: nat, value: nat)
    requires orig == Waiting(items) && Holding(items, defs, orig, now, mem) && j < |orig|
    requires value == Value(defs, Awaited(orig[j]))
    ensures Holding(items, defs, orig, now[j := now[j].(offs := 0)], Store(mem, orig[j].offs, value))
  {
    hide Value, Holds, Agree, Store;
    var mem', now' := Store(mem, orig[j].offs, value), now[j := now[j].(offs := 0)];
    if Agree(items, defs) {
      var x := WaitingItem(items, j);
      SameHolds(items[x], orig[j], defs, mem');
      forall i | 0 <= i < |items| && items[i].name == "" ensures Holds(items[i], defs, mem') {
        assert Holds(items[i], defs, mem);
        StoreKeeps(items, defs, i, x, mem);
      }
      forall k | 0 <= k < |orig| && now'[k].offs == 0 ensures Holds(Awaited(orig[k]), defs, mem') {
        if k == j {
          StoreHolds(Awaited(orig[j]), defs, mem);
        } else {
          var y := WaitingItem(items, k);
          SameHolds(items[y], orig[k], defs, mem);
          SameHolds(items[y], orig[k], defs, mem');
          StoreKeeps(items, defs, y, x, mem);
        }
      }
    }
  }

  lemma WriteElsewhere(items: seq<Item>, was: Memory, mem: Memory, j: nat, value: nat)
    requires Elsewhere(items, was, mem) && j < |Waiting(items)|
    ensures Elsewhere(items, was, Store(mem, Waiting(items)[j].offs, value))
  {
    hide Elsewhere, Store;
    var x := WaitingItem(items, j);
    StoreElsewhere(items, was, mem, x, value);
  }

  lemma ResolveStep(orig: seq<Pending>, defs: seq<Def>, now: seq<Pending>, d: nat, j: nat)
    requires Resolving(orig, defs, now, d, j) && d < |defs| && j < |orig| && orig[j].offs > 0
    ensures var hit := now[j].offs != 0 && defs[d].name == now[j].name;
            Resolving(orig, defs, if hit then now[j := now[j].(offs := 0)] else now, d, j + 1)
            && (hit ==> defs[d].address == Value(defs, Awaited(orig[j])) || orig[j].name == "")
            && now[j].name == orig[j].name
  {
    assert ResolvedAt(orig, defs, now, d, j, j);
    var hit := now[j].offs != 0 && defs[d].name == now[j].name;
    var now' := if hit then now[j := now[j].(offs := 0)] else now;
    var j' := j + 1;
    forall k | 0 <= k < |orig| ensures ResolvedAt(orig, defs, now', d, j', k) {
      assert ResolvedAt(orig, defs, now, d, j, k);
    }
  }

  lemma NextDef(orig: seq<Pending>, defs: seq<Def>, now: seq<Pending>, d: nat)
    requires Resolving(orig, defs, now, d, |orig|)
    ensures Resolving(orig, defs, now, d + 1, 0)
  {
    var d' := d + 1;
    forall k | 0 <= k < |orig| ensures ResolvedAt(orig, defs, now, d', 0, k) {
      assert ResolvedAt(orig, defs, now, d, |orig|, k);
    }
  }

  /** Nothing is left unresolved: every name has a definition, and the memory holds
      what it should exactly when the relocations agree. */
  lemma {:induction false} AllResolved(items: seq<Item>, defs: seq<Def>, now: seq<Pending>, mem: Memory)
    requires Resolving(Waiting(items), defs, now, |defs|, 0) && Holding(items, defs, Waiting(items), now, mem)
    requires forall i :: 0 <= i < |items| ==> items[i].slot > 0
    ensures (forall k :: 0 <= k < |now| ==> now[k].offs == 0) <==> (forall i :: 0 <= i < |items| ==> Resolvable(defs, items[i]))
    ensures (forall k :: 0 <= k < |now| ==> now[k].offs == 0) ==> (Agree(items, defs) <==> Linked(items, defs, mem))
  {
    hide Holds, Agree;
    var orig := Waiting(items);
    forall k | 0 <= k < |orig| ensures now[k].offs == 0 <==> First(defs, orig[k].name) < |defs| {
      var i := WaitingItem(items, k);
      assert ResolvedAt(orig, defs, now, |defs|, 0, k);
    }
    if forall k :: 0 <= k < |now| ==> now[k].offs == 0 {
      forall i | 0 <= i < |items| ensures Resolvable(defs, items[i]) {
        if items[i].name != "" {
          var k := ItemWaiting(items, i);
        }
      }
    }
    if forall i :: 0 <= i < |items| ==> Resolvable(defs, items[i]) {
      forall k | 0 <= k < |now| ensures now[k].offs == 0 {
        var i := WaitingItem(items, k);
        assert Resolvable(defs, items[i]);
      }
    }
    if forall k :: 0 <= k < |now| ==> now[k].offs == 0 {
      if Agree(items, defs) {
        forall i | 0 <= i < |items| ensures Holds(items[i], defs, mem) {
          if items[i].name != "" {
            var k := ItemWaiting(items, i);
            assert Holds(Awaited(orig[k]), defs, mem);
            SameHolds(items[i], orig[k], defs, mem);
          }
        }
      }
      if Linked(items, defs, mem) { LinkedAgree(items, defs, mem); }
    }
  }

  lemma {:induction false} ItemsPrefix(objects: seq<Object>, e: nat, i: nat)
    requires e < |objects| && i < |Table(objects[e])|
    ensures Items(objects[..e]) + ItemsOf(objects[e])[..i] + [ItemOf(objects[e], Table(objects[e])[i])] <= Items(objects)
    decreases |objects|
  {
    hide Table, ItemOf;
    var n := |objects| - 1;
    var o := objects[e];
    assert ItemsOf(o)[..i] + [ItemOf(o, Table(o)[i])] <= ItemsOf(o);
    if e < n {
      ItemsPrefix(objects[..n], e, i);
      assert objects[..n][..e] == objects[..e] && objects[..n][e] == o;
    }
  }

  ghost predicate Inside(items: seq<Item>) {
    forall i :: 0 <= i < |items| ==> items[i].inside && items[i].slot > 0
  }

  /** Where pass one stands after a stretch of the relocations. */
  ghost predicate Collected(all: seq<Item>, defs: seq<Def>, part: seq<Item>, pending: seq<Pending>, was: Memory, mem: Memory) {
    && part <= all && Inside(part) && pending == Waiting(part)
    && Elsewhere(all, was, mem)
    && (Agree(all, defs) ==> NamelessHold(part, defs, mem))
  }

  /** One more relocation collected. */
  lemma CollectOne(all: seq<Item>, defs: seq<Def>, part: seq<Item>, pending: seq<Pending>, was: Memory, mem: Memory, item: Item)
    requires Collected(all, defs, part, pending, was, mem) && part + [item] <= all && item.inside && item.slot > 0
    ensures item.name != "" ==> Collected(all, defs, part + [item], pending + [Pending(item.slot, item.name)], was, mem)
    ensures item.name == "" ==> Collected(all, defs, part + [item], pending, was, Store(mem, item.slot, item.moved))
  {
    hide Agree, Elsewhere, NamelessHold, Store;
    assert (part + [item])[..|part|] == part;
    if item.name == "" {
      NamelessWritten(part, defs, mem, all, item, was);
    } else if Agree(all, defs) {
      SymbolicNoted(part, defs, mem, item);
    }
  }

  class Process {
    var mem: Memory

    constructor (mem: Memory)
      ensures this.mem == mem
    {
      this.mem := mem;
    }

    /** Pass one over one object: nameless relocations done at once, the others
        noted; one outside its object stops everything. */
    method Collect(objects: seq<Object>, e: nat, pending0: seq<Pending>, ghost defs: seq<Def>, ghost was: Memory)
      returns (ok: bool, pending: seq<Pending>)
      requires e < |objects|
      requires Collected(Items(objects), defs, Items(objects[..e]), pending0, was, mem)
      modifies this
      ensures ok ==> Collected(Items(objects), defs, Items(objects[..e + 1]), pending, was, mem)
      ensures !ok ==> !Inside(Items(objects)) && Elsewhere(Items(objects), was, mem)
    {
      hide Collected, Inside, Elsewhere, Items, ItemsOf, Store, Table, Merged, Waiting;
      var o := objects[e];
      pending := pending0;
      var m := Merged(o);
      ghost var all, before := Items(objects), Items(objects[..e]);
      ghost var table := Table(o);
      assert before + ItemsOf(o)[..0] == before;
      TableIs(o);
      var rela := m.start;
      var i, n := 0, if o.relaent == 0 || m.size == 0 || m.start == 0 then 0 else m.size / o.relaent;
      while i < n
        invariant 0 <= i <= n == |table| && (i < n ==> rela == m.start + i * o.relaent)
        invariant Collected(all, defs, before + ItemsOf(o)[..i], pending, was, mem)
      {
        var r := o.at(rela);
        var slot := BUF + o.addr + r.offset;
        ghost var item := ItemOf(o, r);
        NextItem(objects, e, i, r);
        if slot < BUF + o.addr || slot > BUF + o.end {
          OutsideItem(all, before + ItemsOf(o)[..i], item);
          CollectedElsewhere(all, defs, before + ItemsOf(o)[..i], pending, was, mem);
          return false, pending;
        }
        CollectOne(all, defs, before + ItemsOf(o)[..i], pending, was, mem, item);
        assert before + ItemsOf(o)[..i] + [item] == before + ItemsOf(o)[..i + 1];
        if r.name != "" {
          pending := pending + [Pending(slot, r.name)];
        } else {
          mem := Store(mem, slot, Wrap(o.addr + r.addend));
        }
        i := i + 1;
        rela := rela + o.relaent;
      }
      assert ItemsOf(o)[..i] == ItemsOf(o);
      ItemsNext(objects, e);
      ok := true;
    }

    /** One definition offered to every relocation that waits. */
    method Offer(d: Def, pending0: seq<Pending>, ghost at: nat, ghost items: seq<Item>, ghost defs: seq<Def>, ghost was: Memory)
      returns (pending: seq<Pending>)
      requires at < |defs| && defs[at] == d
      requires forall k :: 0 <= k < |Waiting(items)| ==> Waiting(items)[k].offs > 0 && Waiting(items)[k].name != ""
      requires Resolving(Waiting(items), defs, pending0, at, 0) && Holding(items, defs, Waiting(items), pending0, mem)
      requires Elsewhere(items, was, mem)
      modifies this
      ensures Resolving(Waiting(items), defs, pending, at + 1, 0) && Holding(items, defs, Waiting(items), pending, mem)
      ensures Elsewhere(items, was, mem)
    {
      hide Resolving, Holding, Elsewhere, Value, Store;
      ghost var orig := Waiting(items);
      pending := pending0;
      ResolvingSize(orig, defs, pending, at, 0);
      var j := 0;
      while j < |pending|
        invariant 0 <= j <= |pending| == |orig|
        invariant Resolving(orig, defs, pending, at, j) && Holding(items, defs, orig, pending, mem)
        invariant Elsewhere(items, was, mem)
      {
        ResolveStep(orig, defs, pending, at, j);
        if pending[j].offs != 0 && d.name == pending[j].name {
          WaitsAt(orig, defs, pending, at, j);
          WriteHolds(items, defs, orig, pending, mem, j, d.address);
          WriteElsewhere(items, was, mem, j, d.address);
          mem := Store(mem, pending[j].offs, d.address);
          pending := pending[j := pending[j].(offs := 0)];
        }
        j := j + 1;
      }
      NextDef(orig, defs, pending, at);
    }

    /** elf_rtlink: it fails exactly when a file has the wrong type, a relocation
        lies outside its object or a name has no definition; otherwise memory holds
        every value if and only if relocations agree on the bytes they share. */
    method Link(objects: seq<Object>) returns (ok: bool)
      modifies this
      ensures ok <==> objects != [] && Kinds(objects) && Inside(Items(objects))
                      && forall i :: 0 <= i < |Items(objects)| ==> Resolvable(Defs(objects), Items(objects)[i])
      ensures ok ==> (Agree(Items(objects), Defs(objects)) <==> Linked(Items(objects), Defs(objects), mem))
      ensures Elsewhere(Items(objects), old(mem), mem)
    {
      hide Collected, Inside, Elsewhere, Items, Resolving, Holding, Agree, Linked, Resolvable, Defs;
      ghost var items, defs := Items(objects), Defs(objects);
      NothingElsewhere(items, mem);
      if objects == [] {
        return false;
      }
      var pending: seq<Pending> := [];
      NothingCollected(objects, defs, mem);
      var e := 0;
      while e < |objects|
        invariant 0 <= e <= |objects|
        invariant forall k :: 0 <= k < e ==> (objects[k].exec <==> k == 0)
        invariant Collected(items, defs, Items(objects[..e]), pending, old(mem), mem)
        invariant Elsewhere(items, old(mem), mem)
      {
        if objects[e].exec != (e == 0) {
          return false;
        }
        ok, pending := Collect(objects, e, pending, defs, old(mem));
        if !ok {
          return false;
        }
        CollectedElsewhere(items, defs, Items(objects[..e + 1]), pending, old(mem), mem);
        e := e + 1;
      }
      assert objects[..e] == objects;
      StartResolving(items, defs, pending, old(mem), mem);
      pending := Resolve(objects, pending, old(mem));
      AllResolved(items, defs, pending, mem);
      var j := 0;
      while j < |pending|
        invariant 0 <= j <= |pending| && forall k :: 0 <= k < j ==> pending[k].offs == 0
      {
        if pending[j].offs != 0 {
          return false;
        }
        j := j + 1;
      }
      ok := true;
    }

    /** Pass two: the symbols of every object in load order. */
    method Resolve(objects: seq<Object>, pending0: seq<Pending>, ghost was: Memory) returns (pending: seq<Pending>)
      requires Inside(Items(objects))
      requires Resolving(Waiting(Items(objects)), Defs(objects), pending0, 0, 0)
      requires Holding(Items(objects), Defs(objects), Waiting(Items(objects)), pending0, mem)
      requires Elsewhere(Items(objects), was, mem)
      modifies this
      ensures Resolving(Waiting(Items(objects)), Defs(objects), pending, |Defs(objects)|, 0)
      ensures Holding(Items(objects), Defs(objects), Waiting(Items(objects)), pending, mem)
      ensures Elsewhere(Items(objects), was, mem)
    {
      hide Inside, Elsewhere, Items, Resolving, Holding, Waiting, Defs, DefsOf;
      ghost var items, defs := Items(objects), Defs(objects);
      WaitingNamed(items);
      pending := pending0;
      var e := 0;
      NoDefs(objects);
      while e < |objects|
        invariant 0 <= e <= |objects|
        invariant Resolving(Waiting(items), defs, pending, |Defs(objects[..e])|, 0)
        invariant Holding(items, defs, Waiting(items), pending, mem) && Elsewhere(items, was, mem)
      {
        var o := objects[e];
        var i := 0;
        NoSymbols(o.addr, o.syms);
        while i < |o.syms|
          invariant 0 <= i <= |o.syms|
          invariant Resolving(Waiting(items), defs, pending, |Defs(objects[..e])| + |DefsOf(o.addr, o.syms[..i])|, 0)
          invariant Holding(items, defs, Waiting(items), pending, mem) && Elsewhere(items, was, mem)
        {
          NextSymbol(objects, e, i);
          if Defines(o.syms[i]) {
            pending := Offer(Def(o.syms[i].name, Wrap(o.addr + o.syms[i].value)), pending,
                             |Defs(objects[..e])| + |DefsOf(o.addr, o.syms[..i])|, items, defs, was);
          }
          i := i + 1;
        }
        assert o.syms[..i] == o.syms;
        NextObject(objects, e);
        e := e + 1;
      }
      assert objects[..e] == objects;
    }
  }

  lemma NothingElsewhere(items: seq<Item>, mem: Memory)
    ensures Elsewhere(items, mem, mem)
  {
  }

  lemma NothingCollected(objects: seq<Object>, defs: seq<Def>, mem: Memory)
    ensures Collected(Items(objects), defs, Items(objects[..0]), [], mem, mem)
  {
    assert Items(objects[..0]) == [];
  }

  lemma StartResolving(items: seq<Item>, defs: seq<Def>, pending: seq<Pending>, was: Memory, mem: Memory)
    requires Collected(items, defs, items, pending, was, mem)
    ensures Inside(items) && forall i :: 0 <= i < |items| ==> items[i].slot > 0
    ensures Resolving(Waiting(items), defs, pending, 0, 0) && Holding(items, defs, Waiting(items), pending, mem)
  {
    hide Agree, Elsewhere, NamelessHold;
    WaitingNamed(items);
    forall k | 0 <= k < |Waiting(items)| ensures ResolvedAt(Waiting(items), defs, pending, 0, 0, k) {}
  }

  lemma WaitingNamed(items: seq<Item>)
    ensures forall k :: 0 <= k < |Waiting(items)| ==> Waiting(items)[k].offs > 0 && Waiting(items)[k].name != ""
  {
    forall k | 0 <= k < |Waiting(items)| ensures Waiting(items)[k].offs > 0 && Waiting(items)[k].name != "" {
      var i := WaitingItem(items, k);
    }
  }

  lemma NoDefs(objects: seq<Object>)
    ensures Defs(objects[..0]) == []
  {
  }

  lemma NoSymbols(addr: nat, syms: seq<Sym>)
    ensures DefsOf(addr, syms[..0]) == []
  {
  }

  lemma NextObject(objects: seq<Object>, e: nat)
    requires e < |objects|
    ensures Defs(objects[..e + 1]) == Defs(objects[..e]) + DefsOf(objects[e].addr, objects[e].syms)
  {
    assert objects[..e + 1][..e] == objects[..e];
  }

  lemma {:induction false} DefsPrefix(objects: seq<Object>, e: nat)
    requires e <= |objects|
    ensures Defs(objects[..e]) <= Defs(objects)
    decreases |objects|
  {
    hide DefsOf;
    if e < |objects| {
      DefsPrefix(objects[..|objects| - 1], e);
      assert objects[..|objects| - 1][..e] == objects[..e];
    } else {
      assert objects[..e] == objects;
    }
  }

  lemma {:induction false} SymbolsPrefix(addr: nat, syms: seq<Sym>, i: nat)
    requires i <= |syms|
    ensures DefsOf(addr, syms[..i]) <= DefsOf(addr, syms)
    decreases |syms|
  {
    if i < |syms| {
      SymbolsPrefix(addr, syms[..|syms| - 1], i);
      assert syms[..|syms| - 1][..i] == syms[..i];
    } else {
      assert syms[..i] == syms;
    }
  }

  lemma NextSymbol(objects: seq<Object>, e: nat, i: nat)
    requires e < |objects| && i < |objects[e].syms|
    ensures var o := objects[e];
            var at := |Defs(objects[..e])| + |DefsOf(o.addr, o.syms[..i])|;
            if Defines(o.syms[i]) then
              |DefsOf(o.addr, o.syms[..i + 1])| == |DefsOf(o.addr, o.syms[..i])| + 1
              && at < |Defs(objects)| && Defs(objects)[at] == Def(o.syms[i].name, Wrap(o.addr + o.syms[i].value))
            else |DefsOf(o.addr, o.syms[..i + 1])| == |DefsOf(o.addr, o.syms[..i])|
  {
    var o := objects[e];
    assert o.syms[..i + 1][..i] == o.syms[..i];
    SymbolsPrefix(o.addr, o.syms, i + 1);
    NextObject(objects, e);
    DefsPrefix(objects, e + 1);
    if Defines(o.syms[i]) {
      var at := |Defs(objects[..e])| + |DefsOf(o.addr, o.syms[..i])|;
      assert Defs(objects)[at] == Defs(objects[..e + 1])[at];
    }
  }

  lemma NextItem(objects: seq<Object>, e: nat, i: nat, r: Rela)
    requires e < |objects| && i < |Table(objects[e])| && r == Table(objects[e])[i]
    ensures Items(objects[..e]) + ItemsOf(objects[e])[..i] + [ItemOf(objects[e], r)] <= Items(objects)
    ensures ItemsOf(objects[e])[i] == ItemOf(objects[e], r)
    ensures ItemOf(objects[e], r).inside ==> ItemOf(objects[e], r).slot > 0
  {
    hide Items, Table;
    ItemsPrefix(objects, e, i);
  }

  lemma OutsideItem(all: seq<Item>, part: seq<Item>, item: Item)
    requires part + [item] <= all && !item.inside
    ensures !Inside(all)
  {
    assert all[|part|] == item;
  }

  lemma CollectedElsewhere(all: seq<Item>, defs: seq<Def>, part: seq<Item>, pending: seq<Pending>, was: Memory, mem: Memory)
    requires Collected(all, defs, part, pending, was, mem)
    ensures Elsewhere(all, was, mem)
  {
  }

  lemma ItemsNext(objects: seq<Object>, e: nat)
    requires e < |objects|
    ensures Items(objects[..e + 1]) == Items(objects[..e]) + ItemsOf(objects[e])
  {
    hide ItemsOf;
    assert objects[..e + 1][..e] == objects[..e];
  }

  lemma ResolvingSize(orig: seq<Pending>, defs: seq<Def>, now: seq<Pending>, d: nat, j: nat)
    requires Resolving(orig, defs, now, d, j)
    ensures |now| == |orig|
  {
  }

  lemma WaitsAt(orig: seq<Pending>, defs: seq<Def>, now: seq<Pending>, d: nat, j: nat)
    requires Resolving(orig, defs, now, d, j) && j < |orig| && now[j].offs != 0
    ensures now[j] == orig[j]
  {
    assert ResolvedAt(orig, defs, now, d, j, j);
  }
}
