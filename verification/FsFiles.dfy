/** The two sides of a file, step by step: mkfs laying it out sector by sector, and
    the FUSE driver copying a range of it out. */
module FsFiles {
  import opened FsImage

  // ---------------------------------------------------------------- mkfs

  /** Four bytes of a sector number written over the entry. */
  function Put(d: seq<Byte>, i: nat, k: nat): (r: seq<Byte>)
    requires 16 * i + 16 <= |d|
    ensures |r| == |d|
  {
    d[16 * i := EntryByte(k, 0)][16 * i + 1 := EntryByte(k, 1)][16 * i + 2 := EntryByte(k, 2)][16 * i + 3 := EntryByte(k, 3)]
  }

  lemma PutNext(initrd: bool, data: seq<Byte>, base: nat, length: nat, i: nat, d: seq<Byte>)
    requires 16 * i + 16 <= length && d == Directory(Entries(initrd, data, base, i), length)
    ensures var e := EntryFor(initrd, data, base, i);
            Directory(Entries(initrd, data, base, i + 1), length) == if e == 0 then d else Put(d, i, e)
  {
    hide EntryFor, EntryByte;
    var e := EntryFor(initrd, data, base, i);
    var x := Directory(Entries(initrd, data, base, i + 1), length);
    ZeroEntry();
    forall n | 0 <= n < length ensures x[n] == (if e == 0 then d else Put(d, i, e))[n] {
      if n / 16 == i {
        assert n == 16 * i + n % 16;
        HighBytes(e, n % 16);
      }
    }
  }

  lemma ZeroEntry()
    ensures forall n: nat :: EntryByte(0, n) == 0
  {
  }

  lemma HighBytes(k: nat, n: nat)
    ensures n >= 4 ==> EntryByte(k, n) == 0
  {
  }

  /** The end of the source buffer is zero for more than a sector. */
  function Padded(data: seq<Byte>): (p: seq<Byte>)
    ensures |p| == |data| + SEC + 1
  {
    data + Filled([], SEC + 1)
  }

  /** What is copied for sector i when the area begins l sectors behind. */
  function Copied(data: seq<Byte>, i: nat, l: nat): seq<Byte>
    requires i < Sectors(data)
  {
    var n := if (i + l) * SEC > |data| then Off(|data|) else SEC;
    Filled(Padded(data)[i * SEC..i * SEC + n], SEC)
  }

  /** The short copy of the last sector loses nothing. */
  lemma CopiedChunk(data: seq<Byte>, i: nat, l: nat)
    requires i < Sectors(data) && l <= 1
    ensures Copied(data, i, l) == Chunk(data, i)
  {
    hide Nr, Off, Sectors;
    SectorCount(data, i);
    NextStart(i);
    var b, n := i * SEC, if (i + l) * SEC > |data| then Off(|data|) else SEC;
    if (i + l) * SEC > |data| {
      assert l == 1;
      InSector(|data|, i, |data| - b);
    }
    assert n == SEC || b + n == |data|;
    CopiedFrom(data, b, n);
  }

  lemma CopiedFrom(data: seq<Byte>, b: nat, n: nat)
    requires b < |data| && n <= SEC && (n == SEC || b + n == |data|)
    ensures b + n <= |Padded(data)|
    ensures Filled(Padded(data)[b..b + n], SEC) == seq(SEC, o requires 0 <= o < SEC => if b + o < |data| then data[b + o] else 0)
  {
  }

  lemma LaidNothing(initrd: bool, data: seq<Byte>, base: nat, length: nat)
    ensures Filled([], length) == Directory(Entries(initrd, data, base, 0), length)
  {
  }

  class Writer {
    var image: seq<Sector>

    constructor (super: Sector)
      ensures image == [super]
    {
      image := [super];
    }

    /** The directory and the area of a file, and how many sectors of it are kept. */
    method Lay(data: seq<Byte>, initrd: bool, base: nat, length: nat, l: nat) returns (dir: seq<Byte>, area: seq<Sector>, kept: nat)
      requires base > 0 && l <= 1 && 16 * Sectors(data) <= length
      ensures dir == Directory(Entries(initrd, data, base, Sectors(data)), length)
      ensures area == Area(initrd, data, Sectors(data)) && kept == Count(initrd, data, Sectors(data))
    {
      hide Nr, Off, Sectors, Directory, EntryFor, Stored, Chunk, Placed, Copied, Put, Filled, Empty, Entries;
      var j := Sectors(data);
      var k := base;
      dir := Filled([], length);
      area := seq(j, _ => Raw(Empty()));
      kept := j;
      LaidNothing(initrd, data, base, length);
      for i := 0 to j
        invariant k == base + Count(initrd, data, i) && kept == j - i + Count(initrd, data, i)
        invariant dir == Directory(Entries(initrd, data, base, i), length)
        invariant |area| == j && forall x :: 0 <= x < j ==> area[x] == if x < i then Placed(initrd, data, x) else Raw(Empty())
      {
        PutNext(initrd, data, base, length, i, dir);
        CopiedChunk(data, i, l);
        EntryIs(initrd, data, base, i);
        if Stored(initrd, data, i) {
          dir := Put(dir, i, k);
          area := area[i := Raw(Copied(data, i, l))];
          k := k + 1;
        } else {
          kept := kept - 1;
        }
      }
    }

    /** add_file: the inode, then the data by the smallest translation that fits. */
    method AddFile(data: seq<Byte>, initrd: bool) returns (ok: bool)
      modifies this
      ensures ok == Added(old(image), data, initrd).Done?
      ensures ok ==> image == Added(old(image), data, initrd).image
    {
      hide Nr, Off, Sectors, Directory, Entries, Area, Count, Chunk;
      var inode := |image|;
      if |data| <= INLINE {
        image := image + [Inode(inode, Inline, |data|, Filled(data, INLINE))];
        return true;
      }
      if |data| > SEC {
        var j := Sectors(data);
        if 16 * j > SEC {
          return false;
        }
        if 16 * j <= INLINE {
          var dir, area, kept := Lay(data, initrd, inode + 1, INLINE, 0);
          image := image + [Inode(inode + 1, SdInline, |data|, dir)] + area[..kept];
        } else {
          var dir, area, kept := Lay(data, initrd, inode + 2, SEC, 1);
          image := image + [Inode(inode + 1, Sd, |data|, Filled([], INLINE)), Raw(dir)] + area[..kept];
        }
        return true;
      }
      if Chunk(data, 0) != Empty() {
        image := image + [Inode(inode + 1, Direct, |data|, Filled([], INLINE)), Raw(Chunk(data, 0))];
      } else {
        image := image + [Inode(0, Direct, |data|, Filled([], INLINE)), Raw(Empty())];
      }
      ok := true;
    }
  }

  lemma EntryIs(initrd: bool, data: seq<Byte>, base: nat, i: nat)
    requires base > 0
    ensures EntryFor(initrd, data, base, i) == if Stored(initrd, data, i) then base + Count(initrd, data, i) else 0
    ensures EntryFor(initrd, data, base, i) != 0 <==> Stored(initrd, data, i)
    ensures Placed(initrd, data, i) == Raw(if Stored(initrd, data, i) then Chunk(data, i) else Empty())
  {
    hide Nr, Off, Sectors;
  }

  // ---------------------------------------------------------------- fsZ_read

  /** Bytes offset.. of a file, n of them. */
  function Slice(image: seq<Sector>, ino: Sector, offset: nat, n: nat): (b: seq<Byte>)
    requires ino.Inode? && |ino.inl| == INLINE
    ensures |b| == n
  {
    if n == 0 then [] else Slice(image, ino, offset, n - 1) + [ByteAt(image, ino, offset + n - 1)]
  }

  lemma {:induction false} SliceAt(image: seq<Sector>, ino: Sector, offset: nat, n: nat, x: nat)
    requires ino.Inode? && |ino.inl| == INLINE && x < n
    ensures Slice(image, ino, offset, n)[x] == ByteAt(image, ino, offset + x)
  {
    hide Nr, Off, Sectors, ByteAt;
    if x < n - 1 { SliceAt(image, ino, offset, n - 1, x); }
  }

  lemma {:induction false} SliceJoin(image: seq<Sector>, ino: Sector, offset: nat, m: nat, n: nat)
    requires ino.Inode? && |ino.inl| == INLINE
    ensures Slice(image, ino, offset, m + n) == Slice(image, ino, offset, m) + Slice(image, ino, offset + m, n)
  {
    hide Nr, Off, Sectors, ByteAt;
    if n > 0 { SliceJoin(image, ino, offset, m, n - 1); }
  }

  function Clipped(total: nat, offset: nat, size: nat): nat {
    if offset >= total then 0 else if offset + size > total then total - offset else size
  }

  /** Byte p is found through the directory. */
  ghost predicate Listed(image: seq<Sector>, ino: Sector, dir: seq<Byte>, p: nat)
    requires ino.Inode? && |ino.inl| == INLINE
  {
    16 * Nr(p) + 8 <= |dir| && ByteAt(image, ino, p) == Through(image, EntryAt(dir, Nr(p)), Off(p))
  }

  function EntryBytes(image: seq<Sector>, e: nat): (b: seq<Byte>)
    ensures |b| == SEC
  {
    if e == 0 then Empty() else SectorBytes(image, e)
  }

  lemma PieceBytes(image: seq<Sector>, ino: Sector, dir: seq<Byte>, at: nat, s: nat)
    requires ino.Inode? && |ino.inl| == INLINE
    requires forall p :: at <= p < at + s ==> Listed(image, ino, dir, p)
    requires 0 < s && Off(at) + s <= SEC
    ensures 16 * Nr(at) + 8 <= |dir|
    ensures EntryBytes(image, EntryAt(dir, Nr(at)))[Off(at)..Off(at) + s] == Slice(image, ino, at, s)
  {
    hide Nr, Off, ByteAt, Slice, Listed, EntryAt, EntryBytes;
    PieceByte(image, ino, dir, at);
    var whole, piece := EntryBytes(image, EntryAt(dir, Nr(at))), Slice(image, ino, at, s);
    var b := whole[Off(at)..Off(at) + s];
    forall x | 0 <= x < s ensures b[x] == piece[x] {
      assert Listed(image, ino, dir, at + x);
      SliceAt(image, ino, at, s, x);
      Along(at, x);
      PieceByte(image, ino, dir, at + x);
      assert b[x] == whole[Off(at) + x];
    }
  }

  lemma PieceByte(image: seq<Sector>, ino: Sector, dir: seq<Byte>, p: nat)
    requires ino.Inode? && |ino.inl| == INLINE && Listed(image, ino, dir, p)
    ensures 16 * Nr(p) + 8 <= |dir| && EntryBytes(image, EntryAt(dir, Nr(p)))[Off(p)] == ByteAt(image, ino, p)
  {
    hide Nr, Off, ByteAt, EntryAt;
  }

  /** A range through a sector directory: the first piece from within its sector,
      then sector by sector. */
  method ReadSd(image: seq<Sector>, ino: Sector, dir: seq<Byte>, offset0: nat, size: nat) returns (buf: seq<Byte>)
    requires ino.Inode? && |ino.inl| == INLINE
    requires forall p :: offset0 <= p < offset0 + size ==> Listed(image, ino, dir, p)
    ensures buf == Slice(image, ino, offset0, size)
  {
    hide Nr, Off, Listed, EntryAt, ByteAt, EntryBytes, Slice;
    NoSlice(image, ino, offset0);
    var k := Nr(offset0);
    var v := if offset0 + size == 0 then -1 else Nr(offset0 + size - 1);
    var offset := Off(offset0);
    var r: nat := size;
    buf := [];
    var i := k;
    if size > 0 { Along(offset0, size - 1); }
    while i <= v && r > 0
      invariant r <= size && k <= i && buf == Slice(image, ino, offset0, size - r)
      invariant r > 0 ==> i <= v && i == Nr(offset0 + (size - r)) && Off(offset0 + (size - r)) == if i == k then offset else 0
      decreases v - i
    {
      var s: nat := if r > SEC then SEC else r;
      var start := if i == k then offset else 0;
      if i == k && s > SEC - offset {
        s := SEC - offset;
      }
      PieceBytes(image, ino, dir, offset0 + (size - r), s);
      SliceJoin(image, ino, offset0, size - r, s);
      Along(offset0 + (size - r), s);
      if r > s { Along(offset0 + (size - r) + s, r - s - 1); }
      var data := EntryBytes(image, EntryAt(dir, i));
      buf := buf + data[start..start + s];
      r := r - s;
      i := i + 1;
    }
  }

  /** fsZ_read for the translations mkfs writes. */
  method Read(image: seq<Sector>, ino: Sector, size0: nat, offset: nat) returns (buf: seq<Byte>)
    requires ino.Inode? && |ino.inl| == INLINE && Fits(ino)
    ensures buf == Slice(image, ino, offset, Clipped(ino.size, offset, size0))
    ensures |buf| == if offset >= ino.size then 0 else if offset + size0 <= ino.size then size0 else ino.size - offset
    ensures forall x :: 0 <= x < |buf| ==> buf[x] == ByteAt(image, ino, offset + x)
  {
    hide Nr, Off, Sectors, Slice, EntryAt;
    var size := size0;
    SliceBytes(image, ino, offset, Clipped(ino.size, offset, size0));
    if offset >= ino.size {
      NoSlice(image, ino, offset);
      return [];
    }
    if offset + size > ino.size {
      size := ino.size - offset;
    }
    match ino.trans {
      case Inline =>
        buf := ino.inl[offset..offset + size];
        WholeSlice(image, ino, offset, size, ino.inl);
      case SdInline =>
        DirectoryReaches(offset + size, INLINE);
        buf := ReadSd(image, ino, ino.inl, offset, size);
      case Direct =>
        var data := EntryBytes(image, ino.sec);
        buf := data[offset..offset + size];
        WholeSlice(image, ino, offset, size, data);
      case Sd =>
        DirectoryReaches(offset + size, SEC);
        buf := ReadSd(image, ino, SectorBytes(image, ino.sec), offset, size);
    }
  }

  lemma SliceBytes(image: seq<Sector>, ino: Sector, offset: nat, n: nat)
    requires ino.Inode? && |ino.inl| == INLINE
    ensures forall x :: 0 <= x < n ==> Slice(image, ino, offset, n)[x] == ByteAt(image, ino, offset + x)
  {
    hide ByteAt, Slice;
    forall x | 0 <= x < n ensures Slice(image, ino, offset, n)[x] == ByteAt(image, ino, offset + x) {
      SliceAt(image, ino, offset, n, x);
    }
  }

  /** A directory of so many bytes has an entry for every byte of the file. */
  lemma DirectoryReaches(end: nat, length: nat)
    requires end <= length / 16 * SEC
    ensures forall p :: 0 <= p < end ==> 16 * Nr(p) + 8 <= length
  {
    hide Nr, Off;
    forall p | 0 <= p < end ensures 16 * Nr(p) + 8 <= length { FromSector(p, length / 16); }
  }

  /** The size an inode may claim for its translation. */
  predicate Fits(ino: Sector)
    requires ino.Inode?
  {
    ino.size <= match ino.trans
                case Inline => INLINE
                case Direct => SEC
                case SdInline => INLINE / 16 * SEC
                case Sd => SEC / 16 * SEC
  }

  lemma NoSlice(image: seq<Sector>, ino: Sector, offset: nat)
    requires ino.Inode? && |ino.inl| == INLINE
    ensures Slice(image, ino, offset, 0) == []
  {
    hide Nr, Off, Sectors;
  }

  lemma WholeSlice(image: seq<Sector>, ino: Sector, offset: nat, n: nat, b: seq<Byte>)
    requires ino.Inode? && |ino.inl| == INLINE && offset + n <= |b|
    requires forall p :: offset <= p < offset + n ==> ByteAt(image, ino, p) == b[p]
    ensures b[offset..offset + n] == Slice(image, ino, offset, n)
  {
    hide Nr, Off, Sectors;
    forall x | 0 <= x < n ensures b[offset..offset + n][x] == Slice(image, ino, offset, n)[x] {
      SliceAt(image, ino, offset, n, x);
    }
  }

  /** Where a file reads back, any range of it is the range of the data. */
  lemma SliceOfData(image: seq<Sector>, ino: Sector, data: seq<Byte>, offset: nat, n: nat)
    requires ino.Inode? && |ino.inl| == INLINE && ReadsBack(image, ino, data) && offset + n <= |data|
    ensures Slice(image, ino, offset, n) == data[offset..offset + n]
  {
    hide Nr, Off, Sectors;
    WholeSlice(image, ino, offset, n, data);
  }

  lemma AddedOrNot(image: seq<Sector>, data: seq<Byte>, initrd: bool)
    ensures Added(image, data, initrd).Done? <==> 16 * Sectors(data) <= SEC
  {
    hide Nr, Off, Sectors, Chunk;
    SectorCount(data, 1);
  }

  lemma AddedFits(image: seq<Sector>, data: seq<Byte>, initrd: bool)
    requires Added(image, data, initrd).Done?
    ensures var d := Added(image, data, initrd).image;
            |image| < |d| && d[|image|].Inode? && Fits(d[|image|])
  {
    hide Nr, Off, Sectors, Chunk;
    var j := Sectors(data);
    SectorCount(data, j);
    if 16 * j <= SEC { Scaled(j, SEC / 16); }
    if 16 * j <= INLINE { Scaled(j, INLINE / 16); }
  }

  /** A file added to an image and read back through the driver, at any offset and
      size. */
  method AddThenRead(w: Writer, data: seq<Byte>, initrd: bool, size: nat, offset: nat) returns (ok: bool, buf: seq<Byte>)
    requires Numbers(|w.image|)
    requires initrd || |data| <= SEC || Gapless(data)
    modifies w
    ensures ok <==> 16 * Sectors(data) <= SEC
    ensures ok ==> buf == if offset >= |data| then [] else if offset + size <= |data| then data[offset..offset + size] else data[offset..]
  {
    hide Nr, Off, Sectors, Added, ReadsBack, Gapless, Slice;
    buf := [];
    ghost var image := w.image;
    var inode := |w.image|;
    ok := w.AddFile(data, initrd);
    AddedOrNot(image, data, initrd);
    if ok {
      ReadBackExact(image, data, initrd, []);
      assert w.image + [] == w.image;
      AddedFits(image, data, initrd);
      buf := Read(w.image, w.image[inode], size, offset);
      if offset < |data| {
        SliceOfData(w.image, w.image[inode], data, offset, Clipped(|data|, offset, size));
      }
    }
  }
}
