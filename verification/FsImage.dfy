/** An FS/Z image as a list of logical sectors: files added by mkfs, read through
    the FUSE driver, and located by the core before it has a file system. */
module FsImage {
  type Byte = x: int | 0 <= x < 256

  /** The sector sizes mkfs takes; an image has one of them. */
  type Size = x: nat | x == 2048 || x == 4096 || x == 8192 witness 4096

  const SEC: Size
  const INLINE: nat := SEC - 1024

  datatype Translation = Inline | Direct | SdInline | Sd

  /** Of an inode only the fields that lead to the data. */
  datatype Sector =
    | Inode(sec: nat, trans: Translation, size: nat, inl: seq<Byte>)
    | Raw(bytes: seq<Byte>)

  /** The sector of a file that byte p is in, and its place there. */
  function Nr(p: nat): nat { p / SEC }

  function Off(p: nat): (o: nat)
    ensures o < SEC
  {
    p % SEC
  }

  lemma InSector(p: nat, i: nat, o: nat)
    requires p == i * SEC + o && o < SEC
    ensures Nr(p) == i && Off(p) == o
  {
    if SEC == 2048 { } else if SEC == 4096 { } else { }
  }

  lemma InSmall(p: nat)
    requires p < SEC
    ensures Nr(p) == 0 && Off(p) == p
  {
    InSector(p, 0, p);
  }

  lemma OfSector(p: nat)
    ensures p == Nr(p) * SEC + Off(p)
  {
    if SEC == 2048 { } else if SEC == 4096 { } else { }
  }

  /** The sectors from i on begin at i times the size. */
  lemma FromSector(p: nat, i: nat)
    ensures i <= Nr(p) <==> i * SEC <= p
  {
    if SEC == 2048 { } else if SEC == 4096 { } else { }
  }

  /** Further on in the same sector, and at the start of the next. */
  lemma Along(p: nat, x: nat)
    ensures Off(p) + x < SEC ==> Nr(p + x) == Nr(p) && Off(p + x) == Off(p) + x
    ensures Off(p) + x == SEC ==> Nr(p + x) == Nr(p) + 1 && Off(p + x) == 0
    ensures Nr(p) <= Nr(p + x)
  {
    if SEC == 2048 { } else if SEC == 4096 { } else { }
  }

  lemma Scaled(a: nat, b: nat)
    requires a <= b
    ensures a * SEC <= b * SEC
  {
    if SEC == 2048 { } else if SEC == 4096 { } else { }
  }

  lemma NextStart(i: nat)
    ensures (i + 1) * SEC == i * SEC + SEC
  {
    if SEC == 2048 { } else if SEC == 4096 { } else { }
  }

  /** Sector i is there when its first byte is. */
  lemma SectorCount(data: seq<Byte>, i: nat)
    ensures i < Sectors(data) <==> i * SEC < |data|
  {
    if SEC == 2048 { } else if SEC == 4096 { } else { }
  }

  /** Room for the sector numbers of one more file in four bytes. */
  predicate Numbers(n: nat) { n + SEC / 16 + 2 < 0x1_0000_0000 }

  /** Bytes with zeros behind. */
  function Filled(data: seq<Byte>, length: nat): (r: seq<Byte>)
    ensures |r| == length
  {
    seq(length, x requires 0 <= x < length => if x < |data| then data[x] else 0)
  }

  function Empty(): (e: seq<Byte>)
    ensures |e| == SEC
  {
    Filled([], SEC)
  }

  // ---------------------------------------------------------------- sector directories

  /** Byte n of a sixteen byte entry for sector k. */
  function EntryByte(k: nat, n: nat): Byte {
    if n == 0 then k % 0x100
    else if n == 1 then k / 0x100 % 0x100
    else if n == 2 then k / 0x1_0000 % 0x100
    else if n == 3 then k / 0x100_0000 % 0x100
    else 0
  }

  function Directory(entries: seq<nat>, length: nat): (d: seq<Byte>)
    ensures |d| == length
  {
    seq(length, x requires 0 <= x < length => if x / 16 < |entries| then EntryByte(entries[x / 16], x % 16) else 0)
  }

  /** The sector number of entry i: eight bytes, the least significant first. */
  function EntryAt(d: seq<Byte>, i: nat): nat
    requires 16 * i + 8 <= |d|
  {
    var x := 16 * i;
    Four(d[x], d[x + 1], d[x + 2], d[x + 3]) + 0x1_0000_0000 * Four(d[x + 4], d[x + 5], d[x + 6], d[x + 7])
  }

  function Four(a: nat, b: nat, c: nat, d: nat): nat { a + 0x100 * b + 0x1_0000 * c + 0x100_0000 * d }

  lemma DirectoryByte(entries: seq<nat>, length: nat, i: nat, n: nat)
    requires i < |entries| && 16 * i + 16 <= length && n < 16
    ensures Directory(entries, length)[16 * i + n] == EntryByte(entries[i], n)
  {
    hide EntryByte;
    assert (16 * i + n) / 16 == i && (16 * i + n) % 16 == n;
  }

  /** What was put into a directory is found there. */
  lemma DirectoryEntry(entries: seq<nat>, length: nat, i: nat)
    requires i < |entries| && 16 * i + 16 <= length && entries[i] < 0x1_0000_0000
    ensures EntryAt(Directory(entries, length), i) == entries[i]
  {
    hide EntryByte, Directory, Four;
    var k := entries[i];
    DirectoryByte(entries, length, i, 0);
    DirectoryByte(entries, length, i, 1);
    DirectoryByte(entries, length, i, 2);
    DirectoryByte(entries, length, i, 3);
    DirectoryByte(entries, length, i, 4);
    DirectoryByte(entries, length, i, 5);
    DirectoryByte(entries, length, i, 6);
    DirectoryByte(entries, length, i, 7);
    FourBytes(k);
  }

  lemma FourBytes(k: nat)
    requires k < 0x1_0000_0000
    ensures Four(EntryByte(k, 0), EntryByte(k, 1), EntryByte(k, 2), EntryByte(k, 3)) == k
    ensures Four(EntryByte(k, 4), EntryByte(k, 5), EntryByte(k, 6), EntryByte(k, 7)) == 0
  {
    var q := k / 0x100;
    var r := q / 0x100;
    assert k == 0x100 * q + EntryByte(k, 0);
    assert q == 0x100 * r + EntryByte(k, 1);
    assert k / 0x1_0000 == r && k / 0x100_0000 == r / 0x100;
    assert r == 0x100 * EntryByte(k, 3) + EntryByte(k, 2);
  }

  // ---------------------------------------------------------------- add_file

  /** Sector i of a file, the end filled up with zeros. */
  function Chunk(data: seq<Byte>, i: nat): (c: seq<Byte>)
    ensures |c| == SEC
  {
    seq(SEC, o requires 0 <= o < SEC => if i * SEC + o < |data| then data[i * SEC + o] else 0)
  }

  function Sectors(data: seq<Byte>): nat { (|data| + SEC - 1) / SEC }

  /** Holes are left out except in an initial ramdisk. */
  predicate Stored(initrd: bool, data: seq<Byte>, i: nat) { initrd || Chunk(data, i) != Empty() }

  function Count(initrd: bool, data: seq<Byte>, n: nat): (c: nat)
    ensures c <= n
  {
    if n == 0 then 0 else Count(initrd, data, n - 1) + if Stored(initrd, data, n - 1) then 1 else 0
  }

  function EntryFor(initrd: bool, data: seq<Byte>, base: nat, i: nat): nat {
    if Stored(initrd, data, i) then base + Count(initrd, data, i) else 0
  }

  function Entries(initrd: bool, data: seq<Byte>, base: nat, n: nat): (e: seq<nat>)
    ensures |e| == n
  {
    seq(n, i requires 0 <= i < n => EntryFor(initrd, data, base, i))
  }

  /** Where the data go: every sector at its own place, holes or not. */
  function Placed(initrd: bool, data: seq<Byte>, i: nat): Sector {
    Raw(if Stored(initrd, data, i) then Chunk(data, i) else Empty())
  }

  function Area(initrd: bool, data: seq<Byte>, n: nat): (a: seq<Sector>)
    ensures |a| == n
  {
    seq(n, i requires 0 <= i < n => Placed(initrd, data, i))
  }

  datatype Outcome = TooBig | Done(image: seq<Sector>)

  /** The image with a file behind it.  A sector directory counts the sectors that
      are stored, but the data are cut off at that count where they lie. */
  function Added(image: seq<Sector>, data: seq<Byte>, initrd: bool): Outcome {
    var inode, j := |image|, Sectors(data);
    if |data| <= INLINE then
      Done(image + [Inode(inode, Inline, |data|, Filled(data, INLINE))])
    else if |data| <= SEC then
      var zero := Chunk(data, 0) == Empty();
      Done(image + [Inode(if zero then 0 else inode + 1, Direct, |data|, Filled([], INLINE)), Raw(Chunk(data, 0))])
    else if 16 * j > SEC then TooBig
    else if 16 * j <= INLINE then
      Done(image
           + [Inode(inode + 1, SdInline, |data|, Directory(Entries(initrd, data, inode + 1, j), INLINE))]
           + Area(initrd, data, j)[..Count(initrd, data, j)])
    else
      Done(image
           + [Inode(inode + 1, Sd, |data|, Filled([], INLINE)), Raw(Directory(Entries(initrd, data, inode + 2, j), SEC))]
           + Area(initrd, data, j)[..Count(initrd, data, j)])
  }

  // ---------------------------------------------------------------- fsZ_read

  function SectorBytes(image: seq<Sector>, n: nat): (b: seq<Byte>) {
    if n < |image| && image[n].Raw? && |image[n].bytes| == SEC then image[n].bytes else Empty()
  }

  /** The byte a directory entry leads to; entry 0 is a hole. */
  function Through(image: seq<Sector>, e: nat, o: nat): Byte
    requires o < SEC
  {
    if e == 0 then 0 else SectorBytes(image, e)[o]
  }

  /** Byte p of a file, by its translation. */
  function ByteAt(image: seq<Sector>, ino: Sector, p: nat): Byte
    requires ino.Inode? && |ino.inl| == INLINE
  {
    match ino.trans
    case Inline => if p < INLINE then ino.inl[p] else 0
    case Direct => if p < SEC then Through(image, ino.sec, p) else 0
    case SdInline => if 16 * Nr(p) + 8 <= INLINE then Through(image, EntryAt(ino.inl, Nr(p)), Off(p)) else 0
    case Sd =>
      if 16 * Nr(p) + 8 <= SEC then Through(image, EntryAt(SectorBytes(image, ino.sec), Nr(p)), Off(p)) else 0
  }

  // ---------------------------------------------------------------- reading back

  /** No stored sector follows a hole. */
  ghost predicate Gapless(data: seq<Byte>) {
    forall i, j :: 0 <= i < j < Sectors(data) && Chunk(data, i) == Empty() ==> Chunk(data, j) == Empty()
  }

  lemma ChunkByte(data: seq<Byte>, p: nat)
    requires p < |data|
    ensures Nr(p) < Sectors(data) && Chunk(data, Nr(p))[Off(p)] == data[p]
  {
    hide Nr, Off, Sectors;
    OfSector(p);
    SectorCount(data, Nr(p));
  }

  lemma {:induction false} CountGrows(initrd: bool, data: seq<Byte>, i: nat, n: nat)
    requires i < n && Stored(initrd, data, i)
    ensures Count(initrd, data, i) < Count(initrd, data, n)
  {
    hide Nr, Off, Sectors, Stored;
    if i < n - 1 { CountGrows(initrd, data, i, n - 1); }
  }

  /** Without a gap every stored sector lies where its entry says. */
  lemma StoredInOrder(initrd: bool, data: seq<Byte>, i: nat)
    requires (initrd || Gapless(data)) && i < Sectors(data) && Stored(initrd, data, i)
    ensures Count(initrd, data, i) == i < Count(initrd, data, Sectors(data))
  {
    hide Nr, Off, Sectors, Chunk;
    forall k | 0 <= k < i ensures Stored(initrd, data, k) {}
    AllBefore(initrd, data, i);
    CountGrows(initrd, data, i, Sectors(data));
  }

  lemma {:induction false} AllBefore(initrd: bool, data: seq<Byte>, n: nat)
    requires forall i :: 0 <= i < n ==> Stored(initrd, data, i)
    ensures Count(initrd, data, n) == n
  {
    hide Nr, Off, Sectors, Stored;
    if n > 0 { AllBefore(initrd, data, n - 1); }
  }

  /** A file of more than a sector in an image: its bytes are found through the
      entries, and the kept part of its area starts at base. */
  ghost predicate Linked(d: seq<Sector>, ino: Sector, data: seq<Byte>, initrd: bool, base: nat) {
    && base > 0 && ino.Inode? && |ino.inl| == INLINE
    && (forall p :: 0 <= p < |data| ==> LinkedByte(d, ino, data, initrd, base, p))
    && (forall x :: 0 <= x < Count(initrd, data, Sectors(data)) ==> LinkedSector(d, data, initrd, base, x))
  }

  ghost predicate LinkedByte(d: seq<Sector>, ino: Sector, data: seq<Byte>, initrd: bool, base: nat, p: nat)
    requires ino.Inode? && |ino.inl| == INLINE
  {
    ByteAt(d, ino, p) == Through(d, EntryFor(initrd, data, base, Nr(p)), Off(p))
  }

  ghost predicate LinkedSector(d: seq<Sector>, data: seq<Byte>, initrd: bool, base: nat, x: nat) {
    base + x < |d| && d[base + x] == Placed(initrd, data, x)
  }

  /** Where the area of a file begins. */
  function Base(image: seq<Sector>, data: seq<Byte>): nat {
    |image| + if 16 * Sectors(data) <= INLINE then 1 else 2
  }

  lemma AddedLinked(image: seq<Sector>, data: seq<Byte>, initrd: bool, more: seq<Sector>)
    requires |data| > SEC && Added(image, data, initrd).Done? && Numbers(|image|)
    ensures var d := Added(image, data, initrd).image + more;
            |image| < |d| && Linked(d, d[|image|], data, initrd, Base(image, data))
  {
    hide Nr, Off, Sectors, Chunk, Directory, EntryAt, EntryFor, Stored, Placed;
    var d, j, base := Added(image, data, initrd).image + more, Sectors(data), Base(image, data);
    var ino := d[|image|];
    var n := Count(initrd, data, j);
    forall x | 0 <= x < n ensures LinkedSector(d, data, initrd, base, x) {}
    forall p | 0 <= p < |data| ensures LinkedByte(d, ino, data, initrd, base, p) {
      var i := Nr(p);
      ChunkByte(data, p);
      EntrySmall(initrd, data, base, i);
      DirectoryEntry(Entries(initrd, data, base, j), if 16 * j <= INLINE then INLINE else SEC, i);
    }
  }

  lemma EntrySmall(initrd: bool, data: seq<Byte>, base: nat, i: nat)
    ensures EntryFor(initrd, data, base, i) <= base + i
  {
    hide Nr, Off, Sectors, Stored;
  }

  /** Entry i leads to sector i when there is no gap before it. */
  lemma ThroughRight(d: seq<Sector>, ino: Sector, data: seq<Byte>, initrd: bool, base: nat, i: nat, o: nat)
    requires Linked(d, ino, data, initrd, base) && i < Sectors(data) && o < SEC
    requires initrd || Gapless(data)
    ensures Through(d, EntryFor(initrd, data, base, i), o) == Chunk(data, i)[o]
  {
    hide Nr, Off, Sectors, Chunk, Gapless;
    if Stored(initrd, data, i) {
      StoredInOrder(initrd, data, i);
      assert LinkedSector(d, data, initrd, base, i);
    }
  }

  /** The first stored sector behind the first hole is read from the hole's place. */
  lemma ThroughWrong(d: seq<Sector>, ino: Sector, data: seq<Byte>, base: nat) returns (p: nat)
    requires Linked(d, ino, data, false, base) && !Gapless(data)
    ensures p < |data| && ByteAt(d, ino, p) != data[p]
  {
    hide Nr, Off, Sectors, Chunk;
    var z, i := FirstHole(data);
    CountAfterHoles(data, z, i);
    CountGrows(false, data, i, Sectors(data));
    assert LinkedSector(d, data, false, base, z);
    var o := NonZero(data, i);
    p := i * SEC + o;
    InSector(p, i, o);
    ChunkByte(data, p);
    assert LinkedByte(d, ino, data, false, base, p);
  }

  lemma FirstHole(data: seq<Byte>) returns (z: nat, i: nat)
    requires !Gapless(data)
    ensures z < i < Sectors(data) && Stored(false, data, i)
    ensures forall k :: 0 <= k < z ==> Stored(false, data, k)
    ensures forall k :: z <= k < i ==> !Stored(false, data, k)
  {
    hide Nr, Off, Sectors, Chunk;
    var i0, j0 :| 0 <= i0 < j0 < Sectors(data) && Chunk(data, i0) == Empty() && Chunk(data, j0) != Empty();
    z := 0;
    while Stored(false, data, z)
      invariant z <= i0 && forall k :: 0 <= k < z ==> Stored(false, data, k)
      decreases i0 - z
    {
      z := z + 1;
    }
    i := z;
    while !Stored(false, data, i)
      invariant z <= i <= j0 && forall k :: z <= k < i ==> !Stored(false, data, k)
      decreases j0 - i
    {
      i := i + 1;
    }
  }

  lemma {:induction false} CountAfterHoles(data: seq<Byte>, z: nat, i: nat)
    requires z <= i
    requires forall k :: 0 <= k < z ==> Stored(false, data, k)
    requires forall k :: z <= k < i ==> !Stored(false, data, k)
    ensures Count(false, data, i) == z
  {
    hide Nr, Off, Sectors, Chunk;
    if i == z { AllBefore(false, data, z); } else { CountAfterHoles(data, z, i - 1); }
  }

  lemma NonZero(data: seq<Byte>, i: nat) returns (o: nat)
    requires Chunk(data, i) != Empty()
    ensures o < SEC && i * SEC + o < |data| && Chunk(data, i)[o] != 0
  {
    hide Nr, Off, Sectors;
    o :| 0 <= o < SEC && Chunk(data, i)[o] != Empty()[o];
  }

  ghost predicate ReadsBack(d: seq<Sector>, ino: Sector, data: seq<Byte>)
    requires ino.Inode? && |ino.inl| == INLINE
  {
    forall p :: 0 <= p < |data| ==> ByteAt(d, ino, p) == data[p]
  }

  /** Every byte of an added file is read back, whatever is added behind it, if and
      only if the image has no holes or no stored sector follows one. */
  lemma ReadBackExact(image: seq<Sector>, data: seq<Byte>, initrd: bool, more: seq<Sector>)
    requires Added(image, data, initrd).Done? && Numbers(|image|)
    ensures var d := Added(image, data, initrd).image + more;
            |image| < |d| && d[|image|].Inode? && d[|image|].size == |data| && |d[|image|].inl| == INLINE
            && (ReadsBack(d, d[|image|], data) <==> initrd || |data| <= SEC || Gapless(data))
  {
    hide Nr, Off, Sectors, Chunk, Gapless;
    var d := Added(image, data, initrd).image + more;
    var ino := d[|image|];
    if |data| <= SEC {
      SmallReadsBack(image, data, initrd, more);
    } else {
      var base := Base(image, data);
      AddedLinked(image, data, initrd, more);
      if initrd || Gapless(data) {
        forall p | 0 <= p < |data| ensures ByteAt(d, ino, p) == data[p] {
          ChunkByte(data, p);
          ThroughRight(d, ino, data, initrd, base, Nr(p), Off(p));
          assert LinkedByte(d, ino, data, initrd, base, p);
        }
      } else {
        var p := ThroughWrong(d, ino, data, base);
      }
    }
  }

  /** A sector of zeros and a byte behind it: two sectors, the first a hole. */
  function HoleFirst(): seq<Byte> { seq(SEC + 1, i => if i < SEC then 0 else 1) }

  lemma HoleFirstSectors()
    ensures Sectors(HoleFirst()) == 2 && |HoleFirst()| == SEC + 1 && HoleFirst()[SEC] == 1
    ensures Chunk(HoleFirst(), 0) == Empty() && Chunk(HoleFirst(), 1) != Empty()
    ensures Count(false, HoleFirst(), 1) == 0 && Count(false, HoleFirst(), 2) == 1
  {
    hide Nr, Off, Sectors;
    SectorCount(HoleFirst(), 1);
    SectorCount(HoleFirst(), 2);
    assert Chunk(HoleFirst(), 1)[0] == 1;
  }

  /** The byte behind the hole is read as 0 in every image. */
  lemma ReadBackExample(image: seq<Sector>, more: seq<Sector>)
    requires Numbers(|image|)
    ensures Added(image, HoleFirst(), false).Done?
    ensures var d := Added(image, HoleFirst(), false).image + more;
            |image| < |d| && d[|image|].Inode? && |d[|image|].inl| == INLINE
            && ByteAt(d, d[|image|], SEC) == 0 && !ReadsBack(d, d[|image|], HoleFirst())
  {
    hide Nr, Off, Sectors;
    HoleFirstSectors();
    hide HoleFirst, Chunk, Directory, Stored, Linked, Entries, Area;
    InSector(SEC, 1, 0);
    AddedLinked(image, HoleFirst(), false, more);
    var d := Added(image, HoleFirst(), false).image + more;
    HoleFirstRead(d, d[|image|], Base(image, HoleFirst()));
  }

  lemma HoleFirstRead(d: seq<Sector>, ino: Sector, base: nat)
    requires Linked(d, ino, HoleFirst(), false, base)
    ensures ByteAt(d, ino, SEC) == 0 && !ReadsBack(d, ino, HoleFirst())
  {
    hide Nr, Off, Sectors, Chunk, ByteAt;
    HoleFirstSectors();
    InSector(SEC, 1, 0);
    assert LinkedByte(d, ino, HoleFirst(), false, base, SEC);
    assert LinkedSector(d, HoleFirst(), false, base, 0);
    hide HoleFirst;
    assert HoleFirst()[SEC] != ByteAt(d, ino, SEC);
  }

  lemma SmallReadsBack(image: seq<Sector>, data: seq<Byte>, initrd: bool, more: seq<Sector>)
    requires |data| <= SEC
    ensures var d := Added(image, data, initrd).image + more;
            |image| < |d| && d[|image|].Inode? && |d[|image|].inl| == INLINE && ReadsBack(d, d[|image|], data)
  {
    hide Nr, Off, Sectors;
    var d := Added(image, data, initrd).image + more;
    forall p | 0 <= p < |data| ensures ByteAt(d, d[|image|], p) == data[p] {
      if |data| > INLINE {
        InSector(p, 0, p);
        ChunkByte(data, p);
      }
    }
  }

  // ---------------------------------------------------------------- fs_locate

  /** The sector a file is taken to begin at, and to run on from without a break. */
  function StartSector(image: seq<Sector>, ino: Sector): nat
    requires ino.Inode? && |ino.inl| == INLINE
  {
    match ino.trans
    case Inline => 0
    case Direct => ino.sec
    case SdInline => EntryAt(ino.inl, 0)
    case Sd => EntryAt(SectorBytes(image, ino.sec), 0) % 0x1_0000_0000
  }

  ghost predicate CoversAt(image: seq<Sector>, ino: Sector, data: seq<Byte>, p: nat)
    requires ino.Inode? && |ino.inl| == INLINE && p < |data|
  {
    if ino.trans.Inline? then p < INLINE && ino.inl[p] == data[p]
    else
      var n := StartSector(image, ino) + Nr(p);
      n < |image| && image[n].Raw? && |image[n].bytes| == SEC && image[n].bytes[Off(p)] == data[p]
  }

  /** The pointer the core finds covers the whole file. */
  ghost predicate Covers(image: seq<Sector>, ino: Sector, data: seq<Byte>)
    requires ino.Inode? && |ino.inl| == INLINE
  {
    forall p :: 0 <= p < |data| ==> CoversAt(image, ino, data, p)
  }

  /** Sector 0 with the mark of the file system. */
  ghost predicate Super(s: Sector) {
    s.Raw? && |s.bytes| == SEC && s.bytes[512] == 70
  }

  ghost predicate AllStored(data: seq<Byte>, initrd: bool) {
    forall i :: 0 <= i < Sectors(data) ==> Stored(initrd, data, i)
  }

  /** What mkfs puts behind a file begins with the next inode. */
  predicate Follows(more: seq<Sector>) { more == [] || more[0].Inode? }

  /** Whatever is added behind it, the core finds a whole file exactly when it has no
      holes; a file of a single sector of zeros has no place of its own even in an
      initial ramdisk. */
  lemma LocateExact(image: seq<Sector>, data: seq<Byte>, initrd: bool, more: seq<Sector>)
    requires Added(image, data, initrd).Done? && 0 < |image| && Numbers(|image|) && Super(image[0]) && Follows(more)
    ensures var d := Added(image, data, initrd).image + more;
            |image| < |d| && d[|image|].Inode? && |d[|image|].inl| == INLINE
            && (Covers(d, d[|image|], data)
                <==> if |data| <= INLINE then true
                     else if |data| <= SEC then Chunk(data, 0) != Empty()
                     else AllStored(data, initrd))
  {
    hide Nr, Off, Sectors, Chunk;
    if |data| <= SEC {
      LocateSmall(image, data, initrd, more);
    } else {
      hide Added, Covers, Super, Follows;
      StartIs(image, data, initrd, more);
      if AllStored(data, initrd) {
        AllCovered(image, data, initrd, more);
      } else {
        var i :| 0 <= i < Sectors(data) && !Stored(initrd, data, i);
        NotCovered(image, data, initrd, more, i);
      }
    }
  }

  /** A file that begins with a hole is looked for in the superblock, whatever is added
      behind it. */
  lemma LocateExample(more: seq<Sector>)
    requires Follows(more)
    ensures var super := Raw(seq(SEC, i => if i == 512 then 70 else 0));
            && Super(super) && Added([super], HoleFirst(), false).Done?
            && var d := Added([super], HoleFirst(), false).image + more;
               |d| > 1 && d[1].Inode? && |d[1].inl| == INLINE && StartSector(d, d[1]) == 0 && !Covers(d, d[1], HoleFirst())
  {
    hide Nr, Off, Sectors;
    var super := Raw(seq(SEC, i => if i == 512 then 70 else 0));
    HoleFirstSectors();
    hide HoleFirst, Chunk, Directory, EntryAt;
    assert !Stored(false, HoleFirst(), 0);
    StartIs([super], HoleFirst(), false, more);
    LocateExact([super], HoleFirst(), false, more);
  }

  lemma LocateSmall(image: seq<Sector>, data: seq<Byte>, initrd: bool, more: seq<Sector>)
    requires |data| <= SEC && |image| > 0 && Super(image[0])
    ensures var d := Added(image, data, initrd).image + more;
            |image| < |d| && d[|image|].Inode? && |d[|image|].inl| == INLINE
            && (Covers(d, d[|image|], data) <==> |data| <= INLINE || Chunk(data, 0) != Empty())
  {
    hide Nr, Off, Sectors;
    var d := Added(image, data, initrd).image + more;
    if |data| > INLINE && Chunk(data, 0) == Empty() {
      InSmall(512);
      ChunkByte(data, 512);
      assert !CoversAt(d, d[|image|], data, 512);
    } else {
      forall p | 0 <= p < |data| ensures CoversAt(d, d[|image|], data, p) {
        if |data| > INLINE {
          InSmall(p);
          ChunkByte(data, p);
        }
      }
    }
  }

  lemma StartIs(image: seq<Sector>, data: seq<Byte>, initrd: bool, more: seq<Sector>)
    requires |data| > SEC && Added(image, data, initrd).Done? && Numbers(|image|)
    ensures var d := Added(image, data, initrd).image + more;
            |image| < |d| && d[|image|].Inode? && !d[|image|].trans.Inline? && |d[|image|].inl| == INLINE
            && StartSector(d, d[|image|]) == EntryFor(initrd, data, Base(image, data), 0)
  {
    hide Nr, Off, Sectors, Chunk, Directory, EntryAt, EntryFor, Stored;
    var j, base := Sectors(data), Base(image, data);
    SectorCount(data, 0);
    EntrySmall(initrd, data, base, 0);
    DirectoryEntry(Entries(initrd, data, base, j), if 16 * j <= INLINE then INLINE else SEC, 0);
  }

  lemma StoredThere(data: seq<Byte>, initrd: bool, i: nat)
    requires AllStored(data, initrd) && i < Sectors(data)
    ensures Placed(initrd, data, i) == Raw(Chunk(data, i))
  {
    hide Nr, Off, Sectors;
    assert Stored(initrd, data, i);
  }

  lemma AllCovered(image: seq<Sector>, data: seq<Byte>, initrd: bool, more: seq<Sector>)
    requires |data| > SEC && Added(image, data, initrd).Done? && Numbers(|image|) && AllStored(data, initrd)
    ensures var d := Added(image, data, initrd).image + more;
            |image| < |d| && d[|image|].Inode? && |d[|image|].inl| == INLINE && Covers(d, d[|image|], data)
  {
    hide Nr, Off, Sectors, Added, Chunk, Linked, Stored, StartSector;
    var d, base := Added(image, data, initrd).image + more, Base(image, data);
    StartIs(image, data, initrd, more);
    AddedLinked(image, data, initrd, more);
    SectorCount(data, 0);
    AllInPlace(d, d[|image|], data, initrd, base);
  }

  lemma AllInPlace(d: seq<Sector>, ino: Sector, data: seq<Byte>, initrd: bool, base: nat)
    requires Linked(d, ino, data, initrd, base) && AllStored(data, initrd) && 0 < Sectors(data) && !ino.trans.Inline?
    requires StartSector(d, ino) == EntryFor(initrd, data, base, 0)
    ensures Covers(d, ino, data)
  {
    hide Nr, Off, Sectors, Chunk, StartSector, Count, ByteAt;
    AllBefore(initrd, data, Sectors(data));
    AllBefore(initrd, data, 0);
    assert Stored(initrd, data, 0);
    forall p | 0 <= p < |data| ensures CoversAt(d, ino, data, p) {
      ChunkByte(data, p);
      StoredThere(data, initrd, Nr(p));
      assert LinkedSector(d, data, initrd, base, Nr(p));
    }
  }

  lemma {:induction false} CountLess(initrd: bool, data: seq<Byte>, i: nat, n: nat)
    requires i < n && !Stored(initrd, data, i)
    ensures Count(initrd, data, n) < n
  {
    hide Nr, Off, Sectors, Stored;
    if i < n - 1 { CountLess(initrd, data, i, n - 1); }
  }

  /** The data are cut off at the count of stored sectors. */
  lemma AddedLength(image: seq<Sector>, data: seq<Byte>, initrd: bool)
    requires |data| > SEC && Added(image, data, initrd).Done?
    ensures |Added(image, data, initrd).image| == Base(image, data) + Count(initrd, data, Sectors(data))
    ensures image <= Added(image, data, initrd).image
  {
    hide Nr, Off, Sectors, Area, Directory, Entries, Count, Stored;
  }

  /** The first sector cut off is looked for where the next inode is. */
  lemma NotCovered(image: seq<Sector>, data: seq<Byte>, initrd: bool, more: seq<Sector>, i: nat)
    requires |data| > SEC && Added(image, data, initrd).Done? && 0 < |image| && Numbers(|image|) && Super(image[0])
    requires i < Sectors(data) && !Stored(initrd, data, i) && Follows(more)
    ensures var d := Added(image, data, initrd).image + more;
            |image| < |d| && d[|image|].Inode? && |d[|image|].inl| == INLINE && !Covers(d, d[|image|], data)
  {
    hide Nr, Off, Sectors, StartSector, Stored, Added, Chunk;
    var d, n := Added(image, data, initrd).image + more, Count(initrd, data, Sectors(data));
    StartIs(image, data, initrd, more);
    AddedLength(image, data, initrd);
    CountLess(initrd, data, i, Sectors(data));
    if Stored(initrd, data, 0) {
      assert EntryFor(initrd, data, Base(image, data), 0) == Base(image, data);
      SectorCount(data, n);
      InSector(n * SEC, n, 0);
      assert !CoversAt(d, d[|image|], data, n * SEC);
    } else {
      InSmall(512);
      Zero(data, initrd);
      assert d[0] == image[0];
      assert !CoversAt(d, d[|image|], data, 512);
    }
  }

  /** Byte 512 of a file that begins with a hole. */
  lemma Zero(data: seq<Byte>, initrd: bool)
    requires |data| > 512 && !Stored(initrd, data, 0)
    ensures data[512] == 0
  {
    hide Nr, Off, Sectors;
    InSmall(512);
    ChunkByte(data, 512);
  }
}
