/** The SHA-256 compression function as mkfs computes it, section 6.2.2 of FIPS
    180-4.  Words wrap at 32 bits. */
module Compression {
  import opened Gf

  type Word = bv32

  const K: seq<Word> :=
    [0x428a2f98, 0x71374491, 0xb5c0fbcf, 0xe9b5dba5, 0x3956c25b, 0x59f111f1, 0x923f82a4, 0xab1c5ed5] +
    [0xd807aa98, 0x12835b01, 0x243185be, 0x550c7dc3, 0x72be5d74, 0x80deb1fe, 0x9bdc06a7, 0xc19bf174] +
    [0xe49b69c1, 0xefbe4786, 0x0fc19dc6, 0x240ca1cc, 0x2de92c6f, 0x4a7484aa, 0x5cb0a9dc, 0x76f988da] +
    [0x983e5152, 0xa831c66d, 0xb00327c8, 0xbf597fc7, 0xc6e00bf3, 0xd5a79147, 0x06ca6351, 0x14292967] +
    [0x27b70a85, 0x2e1b2138, 0x4d2c6dfc, 0x53380d13, 0x650a7354, 0x766a0abb, 0x81c2c92e, 0x92722c85] +
    [0xa2bfe8a1, 0xa81a664b, 0xc24b8b70, 0xc76c51a3, 0xd192e819, 0xd6990624, 0xf40e3585, 0x106aa070] +
    [0x19a4c116, 0x1e376c08, 0x2748774c, 0x34b0bcb5, 0x391c0cb3, 0x4ed8aa4a, 0x5b9cca4f, 0x682e6ff3] +
    [0x748f82ee, 0x78a5636f, 0x84c87814, 0x8cc70208, 0x90befffa, 0xa4506ceb, 0xbef9a3f7, 0xc67178f2]

  function RotR(x: Word, n: Word): Word
    requires 0 < n < 32
  {
    (x >> n) | (x << (32 - n))
  }

  /** Addition modulo 2^32. */
  function Plus(x: Word, y: Word): Word { x + y }

  function Ch(x: Word, y: Word, z: Word): Word { (x & y) ^ (!x & z) }
  function Maj(x: Word, y: Word, z: Word): Word { (x & y) ^ (x & z) ^ (y & z) }
  function Ep0(x: Word): Word { RotR(x, 2) ^ RotR(x, 13) ^ RotR(x, 22) }
  function Ep1(x: Word): Word { RotR(x, 6) ^ RotR(x, 11) ^ RotR(x, 25) }
  function Sig0(x: Word): Word { RotR(x, 7) ^ RotR(x, 18) ^ (x >> 3) }
  function Sig1(x: Word): Word { RotR(x, 17) ^ RotR(x, 19) ^ (x >> 10) }

  function Join(a: Byte, b: Byte, c: Byte, d: Byte): Word {
    ((a as Word) << 24) | ((b as Word) << 16) | ((c as Word) << 8) | (d as Word)
  }

  /** Word t of the message schedule of a block. */
  function Schedule(block: seq<Byte>, t: nat): Word
    requires |block| == 64
  {
    if t < 16 then Head(block, t)
    else Plus(Plus(Plus(Sig1(Schedule(block, t - 2)), Schedule(block, t - 7)), Sig0(Schedule(block, t - 15))), Schedule(block, t - 16))
  }

  datatype Work = Work(a: Word, b: Word, c: Word, d: Word, e: Word, f: Word, g: Word, h: Word)

  function Round(w: Work, k: Word, m: Word): Work {
    var t1 := Plus(Plus(Plus(Plus(w.h, Ep1(w.e)), Ch(w.e, w.f, w.g)), k), m);
    var t2 := Plus(Ep0(w.a), Maj(w.a, w.b, w.c));
    Work(Plus(t1, t2), w.a, w.b, w.c, Plus(w.d, t1), w.e, w.f, w.g)
  }

  /** The working variables after t rounds. */
  function Rounds(w: Work, block: seq<Byte>, t: nat): Work
    requires |block| == 64 && t <= 64
  {
    if t == 0 then w else Round(Rounds(w, block, t - 1), K[t - 1], Schedule(block, t - 1))
  }

  function Add(s: Work, w: Work): Work {
    Work(Plus(s.a, w.a), Plus(s.b, w.b), Plus(s.c, w.c), Plus(s.d, w.d),
         Plus(s.e, w.e), Plus(s.f, w.f), Plus(s.g, w.g), Plus(s.h, w.h))
  }

  /** The intermediate hash value after one more block. */
  function Compress(s: Work, block: seq<Byte>): Work
    requires |block| == 64
  {
    Add(s, Rounds(s, block, 64))
  }

  function AsWork(s: seq<Word>): Work
    requires |s| == 8
  {
    Work(s[0], s[1], s[2], s[3], s[4], s[5], s[6], s[7])
  }

  function Head(block: seq<Byte>, t: nat): Word
    requires |block| == 64 && t < 16
  {
    Join(block[4 * t], block[4 * t + 1], block[4 * t + 2], block[4 * t + 3])
  }

  method Fill(d: array<Byte>) returns (m: array<Word>)
    requires d.Length == 64
    ensures fresh(m) && m.Length == 64 && forall t :: 0 <= t < 64 ==> m[t] == Schedule(d[..], t)
  {
    hide Plus, Join, Sig0, Sig1;
    m := new Word[64](_ => 0);
    ghost var block := d[..];
    for i := 0 to 16
      invariant forall t :: 0 <= t < i ==> m[t] == Schedule(block, t)
    {
      m[i] := Join(d[4 * i], d[4 * i + 1], d[4 * i + 2], d[4 * i + 3]);
      assert d[..] == block;
      assert m[i] == Head(block, i);
      assert m[i] == Schedule(block, i);
    }
    Extend(m, block);
  }

  /** The words behind the first sixteen. */
  method Extend(m: array<Word>, ghost block: seq<Byte>)
    requires m.Length == 64 && |block| == 64
    requires forall t :: 0 <= t < 16 ==> m[t] == Schedule(block, t)
    modifies m
    ensures forall t :: 0 <= t < 64 ==> m[t] == Schedule(block, t)
  {
    hide Plus, Head, Sig0, Sig1;
    for i := 16 to 64
      invariant forall t :: 0 <= t < i ==> m[t] == Schedule(block, t)
    {
      m[i] := Plus(Plus(Plus(Sig1(m[i - 2]), m[i - 7]), Sig0(m[i - 15])), m[i - 16]);
    }
  }

  /** The rounds over a sixty-four word schedule that is filled first. */
  method Transform(s: array<Word>, d: array<Byte>)
    requires s.Length == 8 && d.Length == 64 && s as object != d
    modifies s
    ensures AsWork(s[..]) == Compress(AsWork(old(s[..])), d[..])
  {
    hide Round, Add, Schedule;
    ghost var block := d[..];
    var m := Fill(d);
    var start := Work(s[0], s[1], s[2], s[3], s[4], s[5], s[6], s[7]);
    var w := start;
    for i := 0 to 64
      invariant s[..] == old(s[..]) && forall t :: 0 <= t < 64 ==> m[t] == Schedule(block, t)
      invariant w == Rounds(start, block, i)
    {
      w := Turn(w, K[i], m[i]);
    }
    Finish(s, w);
  }

  /** One round on variables that shift down by one. */
  method Turn(w: Work, k: Word, m: Word) returns (r: Work)
    ensures r == Round(w, k, m)
  {
    hide Plus, Ep0, Ep1, Ch, Maj;
    var a, b, c, d, e, f, g, h := w.a, w.b, w.c, w.d, w.e, w.f, w.g, w.h;
    var t1 := Plus(Plus(Plus(Plus(h, Ep1(e)), Ch(e, f, g)), k), m);
    var t2 := Plus(Ep0(a), Maj(a, b, c));
    h := g;
    g := f;
    f := e;
    e := Plus(d, t1);
    d := c;
    c := b;
    b := a;
    a := Plus(t1, t2);
    r := Work(a, b, c, d, e, f, g, h);
  }

  method Finish(s: array<Word>, w: Work)
    requires s.Length == 8
    modifies s
    ensures AsWork(s[..]) == Add(AsWork(old(s[..])), w)
  {
    hide Plus;
    s[0], s[1], s[2], s[3] := Plus(s[0], w.a), Plus(s[1], w.b), Plus(s[2], w.c), Plus(s[3], w.d);
    s[4], s[5], s[6], s[7] := Plus(s[4], w.e), Plus(s[5], w.f), Plus(s[6], w.g), Plus(s[7], w.h);
  }
}

/** Streaming SHA-256: a context that is fed a message in pieces. */
module Sha256 {
  import opened Gf
  import opened Compression

  const H0: Work := Work(0x6a09e667, 0xbb67ae85, 0x3c6ef372, 0xa54ff53a, 0x510e527f, 0x9b05688c, 0x1f83d9ab, 0x5be0cd19)

  const U32: nat := 0x1_0000_0000
  const U64: nat := 0x1_0000_0000_0000_0000

  /** The compression function folded over whole blocks; a shorter tail is not
      consumed. */
  function Fold(s: Work, m: seq<Byte>): Work
    decreases |m|
  {
    if |m| < 64 then s else Fold(Compress(s, m[..64]), m[64..])
  }

  function Zeros(n: nat): (z: seq<Byte>)
    ensures |z| == n
  {
    seq(n, _ => 0)
  }

  /** The byte of a number at the place of the given weight. */
  function Digit(n: nat, weight: nat): Byte
    requires weight > 0
  {
    (n / weight % 0x100) as Byte
  }

  function Big32(n: nat): (b: seq<Byte>)
    ensures |b| == 4
  {
    [Digit(n, 0x100_0000), Digit(n, 0x1_0000), Digit(n, 0x100), Digit(n, 1)]
  }

  /** A number in eight bytes, the most significant first. */
  function Big64(n: nat): (b: seq<Byte>)
    ensures |b| == 8
  {
    Big32(n / U32) + Big32(n % U32)
  }

  /** The bit length of m as the last eight bytes. */
  function Length(m: seq<Byte>): (b: seq<Byte>)
    ensures |b| == 8
  {
    Big64(8 * |m| % U64)
  }

  /** The smallest number of zeros behind the 0x80 that leaves room for the
      length at the end of a block: section 5.1.1 of FIPS 180-4. */
  function Gap(n: nat): (k: nat)
    ensures k < 64 && (n + 1 + k) % 64 == 56
  {
    (119 - n % 64) % 64
  }

  function Assembled(m: seq<Byte>, gap: nat, length: seq<Byte>): (p: seq<Byte>)
    requires |length| == 8
    ensures |p| == |m| + 1 + gap + 8 && m <= p
  {
    m + [0x80] + Zeros(gap) + length
  }

  /** The padded message.  The bit length is taken modulo 2^64, which is the bit
      length itself for every message shorter than 2^61 bytes. */
  function Padded(m: seq<Byte>): (p: seq<Byte>)
    ensures |p| == |m| + 9 + Gap(|m|) && m <= p
  {
    Assembled(m, Gap(|m|), Length(m))
  }

  lemma PaddedWhole(m: seq<Byte>)
    ensures |Padded(m)| % 64 == 0
  {
    hide Padded, Gap;
  }

  function Sha(m: seq<Byte>): Work { Fold(H0, Padded(m)) }

  /** The hash value as bytes, the most significant of each word first. */
  function WordBytes(w: Word): (b: seq<Byte>)
    ensures |b| == 4
  {
    [(w >> 24) as Byte, ((w >> 16) & 0xff) as Byte, ((w >> 8) & 0xff) as Byte, (w & 0xff) as Byte]
  }

  function Digest(s: Work): (b: seq<Byte>)
    ensures |b| == 32
  {
    WordBytes(s.a) + WordBytes(s.b) + WordBytes(s.c) + WordBytes(s.d)
    + WordBytes(s.e) + WordBytes(s.f) + WordBytes(s.g) + WordBytes(s.h)
  }

  // ---------------------------------------------------------------- folding

  lemma {:induction false} FoldAppend(s: Work, a: seq<Byte>, b: seq<Byte>)
    requires |a| % 64 == 0
    ensures Fold(s, a + b) == Fold(Fold(s, a), b)
    decreases |a|
  {
    hide Compress;
    if a == [] {
      assert a + b == b;
    } else {
      assert (a + b)[..64] == a[..64] && (a + b)[64..] == a[64..] + b;
      FoldAppend(Compress(s, a[..64]), a[64..], b);
    }
  }

  lemma FoldBlock(s: Work, a: seq<Byte>, block: seq<Byte>)
    requires |a| % 64 == 0 && |block| == 64
    ensures Fold(s, a + block) == Compress(Fold(s, a), block)
  {
    hide Compress;
    FoldAppend(s, a, block);
    assert block[..64] == block && block[64..] == [];
  }

  // ---------------------------------------------------------------- padding, block by block

  /** The last block when the tail leaves room for the length. */
  function OneBlock(tail: seq<Byte>, length: seq<Byte>): (b: seq<Byte>)
    requires |tail| < 56 && |length| == 8
    ensures |b| == 64
  {
    tail + [0x80] + Zeros(55 - |tail|) + length
  }

  /** The last two blocks when it does not. */
  function FullBlock(tail: seq<Byte>): (b: seq<Byte>)
    requires |tail| < 64
    ensures |b| == 64
  {
    tail + [0x80] + Zeros(63 - |tail|)
  }

  function LengthBlock(length: seq<Byte>): (b: seq<Byte>)
    requires |length| == 8
    ensures |b| == 64
  {
    Zeros(56) + length
  }

  lemma PaddedShort(head: seq<Byte>, tail: seq<Byte>)
    requires |head| % 64 == 0 && |tail| < 56
    ensures var m := head + tail;
            Padded(m) == head + OneBlock(tail, Length(m))
  {
    hide Big64;
    assert Gap(|head + tail|) == 55 - |tail|;
  }

  lemma PaddedLong(head: seq<Byte>, tail: seq<Byte>)
    requires |head| % 64 == 0 && 56 <= |tail| < 64
    ensures var m := head + tail;
            Padded(m) == head + FullBlock(tail) + LengthBlock(Length(m))
  {
    hide Big64;
    assert Gap(|head + tail|) == 119 - |tail|;
    assert Zeros(119 - |tail|) == Zeros(63 - |tail|) + Zeros(56);
  }

  // ---------------------------------------------------------------- the context

  /** Whole blocks are hashed and counted in bits modulo 2^64, the rest waits at
      the front of the buffer. */
  ghost predicate Fed(d: seq<Byte>, l: nat, s: Work, bits: nat, m: seq<Byte>) {
    && |d| == 64 && l == |m| % 64
    && d[..l] == m[|m| - l..]
    && s == Fold(H0, m[..|m| - l])
    && bits == 8 * (|m| - l) % U64
  }

  lemma FoldShort(s: Work, m: seq<Byte>)
    requires |m| < 64
    ensures Fold(s, m) == s
  {
  }

  lemma FedRoom(d: seq<Byte>, l: nat, s: Work, bits: nat, m: seq<Byte>)
    requires Fed(d, l, s, bits, m)
    ensures l < 64 && |d| == 64
  {
  }

  lemma NextMod(n: nat, k: nat)
    requires n % 64 + k <= 64
    ensures (n + k) % 64 == if n % 64 + k == 64 then 0 else n % 64 + k
  {
  }

  /** A byte that does not fill the buffer. */
  lemma FedMore(d: seq<Byte>, l: nat, s: Work, bits: nat, m: seq<Byte>, x: Byte)
    requires Fed(d, l, s, bits, m) && l < 63
    ensures Fed(d[l := x], l + 1, s, bits, m + [x])
  {
    hide Fold;
    var n := m + [x];
    NextMod(|m|, 1);
    assert n[..|n| - (l + 1)] == m[..|m| - l];
    assert n[|n| - (l + 1)..] == m[|m| - l..] + [x];
    assert d[l := x][..l + 1] == d[..l] + [x];
  }

  /** The byte that does. */
  lemma FedFull(d: seq<Byte>, s: Work, bits: nat, m: seq<Byte>, x: Byte)
    requires Fed(d, 63, s, bits, m)
    ensures Fed(d[63 := x], 0, Compress(s, d[63 := x]), (bits + 512) % U64, m + [x])
  {
    hide Fold, Compress;
    var n, head := m + [x], m[..|m| - 63];
    FoldBlock(H0, head, d[63 := x]);
    assert n == head + d[63 := x] by { assert m == head + m[|m| - 63..]; }
    assert n[..|n|] == n;
    Wrap64(8 * |head|, 512);
  }

  lemma ClosingShort(head: seq<Byte>, tail: seq<Byte>)
    requires |head| % 64 == 0 && |tail| < 56
    ensures Sha(head + tail) == Compress(Fold(H0, head), OneBlock(tail, Length(head + tail)))
  {
    hide Fold, Compress, OneBlock, Padded, H0, Length;
    PaddedShort(head, tail);
    FoldBlock(H0, head, OneBlock(tail, Length(head + tail)));
  }

  lemma ClosingLong(head: seq<Byte>, tail: seq<Byte>)
    requires |head| % 64 == 0 && 56 <= |tail| < 64
    ensures Sha(head + tail) == Compress(Compress(Fold(H0, head), FullBlock(tail)), LengthBlock(Length(head + tail)))
  {
    hide Fold, Compress, FullBlock, LengthBlock, Padded, H0, Length;
    PaddedLong(head, tail);
    var first, last := head + FullBlock(tail), LengthBlock(Length(head + tail));
    FoldBlock(H0, head, FullBlock(tail));
    NextMod(|head|, 64);
    FoldBlock(H0, first, last);
    assert Padded(head + tail) == first + last;
  }

  lemma LengthIs(bits: nat, whole: nat, l: nat)
    requires bits == 8 * whole % U64
    ensures (bits + 8 * l) % U64 == 8 * (whole + l) % U64
  {
    Wrap64(8 * whole, 8 * l);
  }

  /** The hash of the whole message from a context: one more block or two. */
  lemma Closing(d: seq<Byte>, l: nat, s: Work, bits: nat, m: seq<Byte>)
    requires Fed(d, l, s, bits, m)
    ensures var length := Big64((bits + 8 * l) % U64);
            Sha(m) == if l < 56 then Compress(s, OneBlock(d[..l], length))
                      else Compress(Compress(s, FullBlock(d[..l])), LengthBlock(length))
  {
    hide Fold, Compress, Big64, OneBlock, FullBlock, LengthBlock, Sha, H0, Length;
    var head, tail := m[..|m| - l], m[|m| - l..];
    Parts(d, l, s, bits, m);
    hide Fed;
    if l < 56 {
      ClosingShort(head, tail);
    } else {
      ClosingLong(head, tail);
    }
  }

  lemma Parts(d: seq<Byte>, l: nat, s: Work, bits: nat, m: seq<Byte>)
    requires Fed(d, l, s, bits, m)
    ensures l < 64 && l <= |m| && |d| == 64 && d[..l] == m[|m| - l..] && s == Fold(H0, m[..|m| - l])
    ensures m == m[..|m| - l] + m[|m| - l..] && |m[..|m| - l]| % 64 == 0
    ensures Length(m) == Big64((bits + 8 * l) % U64)
  {
    hide Fold, Big64, H0;
    var n := |m|;
    assert l == n % 64 && bits == 8 * (n - l) % U64;
    hide Fed;
    Whole(n, l);
    LengthIs(bits, n - l, l);
  }

  lemma Whole(n: nat, l: nat)
    requires l == n % 64
    ensures l <= n && (n - l) % 64 == 0
  {
  }

  lemma OneBlockIs(d: seq<Byte>, tail: seq<Byte>, length: seq<Byte>)
    requires |tail| < 56 && |d| == 64 && |length| == 8
    requires d[..56] == tail + [0x80] + Zeros(55 - |tail|)
    ensures d[..56] + length == OneBlock(tail, length)
  {
  }

  lemma FullBlockIs(d: seq<Byte>, tail: seq<Byte>)
    requires |tail| < 64 && |d| == 64
    requires d[..] == tail + [0x80] + Zeros(63 - |tail|)
    ensures d == FullBlock(tail)
  {
  }

  lemma LengthBlockIs(d: seq<Byte>, length: seq<Byte>)
    requires |d| == 64 && |length| == 8
    requires d[..56] == Zeros(56)
    ensures d[..56] + length == LengthBlock(length)
  {
  }

  class Context {
    const d: array<Byte>
    const s: array<Word>
    var l: nat
    var b0: nat
    var b1: nat

    ghost predicate Shaped()
      reads this
    {
      d.Length == 64 && s.Length == 8 && s as object != d && b0 < U32 && b1 < U32
    }

    /** The bytes fed so far are m. */
    ghost predicate Holds(m: seq<Byte>)
      reads this, d, s
    {
      Shaped() && Fed(d[..], l, AsWork(s[..]), b1 * U32 + b0, m)
    }

    constructor ()
      ensures Holds([]) && fresh(d) && fresh(s)
    {
      hide H0, AsWork, Fold;
      d := new Byte[64](_ => 0);
      s := new Word[8](_ => 0);
      l, b0, b1 := 0, 0, 0;
      new;
      Start(s);
      FoldShort(H0, []);
    }

    static method Start(s: array<Word>)
      requires s.Length == 8
      modifies s
      ensures AsWork(s[..]) == H0
    {
      s[0], s[1], s[2], s[3] := 0x6a09e667, 0xbb67ae85, 0x3c6ef372, 0xa54ff53a;
      s[4], s[5], s[6], s[7] := 0x510e527f, 0x9b05688c, 0x1f83d9ab, 0x5be0cd19;
    }

    /** The two-word counter: the carry is found before the low word wraps. */
    method Count(c: nat)
      requires b0 < U32 && b1 < U32 && c < U32
      modifies `b0, `b1
      ensures b0 < U32 && b1 < U32
      ensures b1 * U32 + b0 == (old(b1) * U32 + old(b0) + c) % U64
    {
      if b0 > U32 - 1 - c {
        b1 := (b1 + 1) % U32;
      }
      b0 := (b0 + c) % U32;
    }

    /** One more byte. */
    method Push(x: Byte, ghost m: seq<Byte>)
      requires Holds(m)
      modifies this, d, s
      ensures Holds(m + [x])
    {
      hide Compress, Fed, AsWork;
      ghost var was, w, bits := d[..], AsWork(s[..]), b1 * U32 + b0;
      FedRoom(was, l, w, bits, m);
      d[l] := x;
      assert d[..] == was[l := x];
      l := l + 1;
      if l == 64 {
        FedFull(was, w, bits, m, x);
        Transform(s, d);
        Count(512);
        l := 0;
      } else {
        FedMore(was, l - 1, w, bits, m, x);
      }
    }

    /** A message may come in any number of pieces. */
    method Update(data: seq<Byte>, ghost m: seq<Byte>)
      requires Holds(m)
      modifies this, d, s
      ensures Holds(m + data)
    {
      hide Holds;
      var i := 0;
      assert m + data[..0] == m;
      while i < |data|
        invariant 0 <= i <= |data|
        invariant Holds(m + data[..i])
      {
        Push(data[i], m + data[..i]);
        assert m + data[..i] + [data[i]] == m + data[..i + 1];
        i := i + 1;
      }
      assert data[..i] == data;
    }

    /** The padding of section 5.1.1 of FIPS 180-4, in one block or two. */
    method Final(ghost m: seq<Byte>) returns (h: seq<Byte>)
      requires Holds(m)
      modifies this, d, s
      ensures h == Digest(Sha(m))
    {
      hide Compress, AsWork, Digest, Big64, FullBlock, OneBlock, LengthBlock, Fed, Sha;
      ghost var w, bits := AsWork(s[..]), b1 * U32 + b0;
      FedRoom(d[..], l, w, bits, m);
      ghost var tail, length := d[..l], Big64((bits + 8 * l) % U64);
      Closing(d[..], l, w, bits, m);
      hide Holds;
      d[l] := 0x80;
      assert d[..l + 1] == tail + [0x80];
      if l < 56 {
        PadShort(tail, length);
      } else {
        PadLong(tail, length);
      }
      Count(l * 8);
      PutLength();
      assert d[..] == d[..56] + d[56..];
      Transform(s, d);
      h := Digest(AsWork(s[..]));
    }

    /** Room for the length in the same block. */
    method PadShort(ghost tail: seq<Byte>, ghost length: seq<Byte>)
      requires Shaped() && l < 56 && |tail| == l && d[..l + 1] == tail + [0x80] && |length| == 8
      modifies d
      ensures d[..56] + length == OneBlock(tail, length)
    {
      ZeroFrom(l + 1, 56);
      OneBlockIs(d[..], tail, length);
    }

    /** The length in a block of its own. */
    method PadLong(ghost tail: seq<Byte>, ghost length: seq<Byte>)
      requires Shaped() && 56 <= l < 64 && |tail| == l && d[..l + 1] == tail + [0x80] && |length| == 8
      modifies d, s
      ensures AsWork(s[..]) == Compress(old(AsWork(s[..])), FullBlock(tail))
      ensures d[..56] + length == LengthBlock(length)
    {
      hide Compress, AsWork, FullBlock, LengthBlock;
      ZeroFrom(l + 1, 64);
      FullBlockIs(d[..], tail);
      Transform(s, d);
      ZeroFrom(0, 56);
      LengthBlockIs(d[..], length);
    }

    /** The two counter words at the end of the buffer, the most significant byte
        first. */
    method PutLength()
      requires Shaped()
      modifies d
      ensures d[..56] == old(d[..56]) && d[56..] == Big64(b1 * U32 + b0)
    {
      hide Big32, Big64;
      PutWord(60, b0);
      assert d[60..] == Big32(b0);
      PutWord(56, b1);
      TwoWords(b1, b0);
      assert d[56..] == d[56..60] + d[60..];
      assert d[..56] == old(d[..60])[..56];
    }

    method PutWord(at: nat, w: nat)
      requires d.Length == 64 && at + 4 <= 64
      modifies d
      ensures d[..at] == old(d[..at]) && d[at..at + 4] == Big32(w) && d[at + 4..] == old(d[at + 4..])
    {
      hide Digit;
      d[at + 3], d[at + 2], d[at + 1], d[at] := Digit(w, 1), Digit(w, 0x100), Digit(w, 0x1_0000), Digit(w, 0x100_0000);
    }

    method ZeroFrom(from: nat, to: nat)
      requires d.Length == 64 && from <= to <= 64
      modifies d
      ensures d[..] == old(d[..from]) + Zeros(to - from) + old(d[to..])
    {
      for i := from to to
        invariant d[..] == old(d[..from]) + Zeros(i - from) + old(d[i..])
      {
        d[i] := 0;
      }
    }
  }

  function Joined(pieces: seq<seq<Byte>>): seq<Byte> {
    if pieces == [] then [] else Joined(pieces[..|pieces| - 1]) + pieces[|pieces| - 1]
  }

  /** However a message is cut into pieces, the context computes the hash of the
      whole. */
  method HashPieces(pieces: seq<seq<Byte>>) returns (h: seq<Byte>)
    ensures h == Digest(Sha(Joined(pieces)))
  {
    hide Digest, Sha, Context.Holds, Fed, Fold;
    var ctx := new Context();
    var i := 0;
    while i < |pieces|
      invariant 0 <= i <= |pieces|
      invariant ctx.Holds(Joined(pieces[..i]))
      invariant fresh(ctx) && fresh(ctx.d) && fresh(ctx.s)
    {
      ctx.Update(pieces[i], Joined(pieces[..i]));
      assert pieces[..i + 1][..i] == pieces[..i];
      i := i + 1;
    }
    assert pieces[..i] == pieces;
    h := ctx.Final(Joined(pieces));
  }

  /** Below 2^61 bytes the length field is the bit length itself. */
  lemma LengthField(m: seq<Byte>)
    requires |m| < 0x2000_0000_0000_0000
    ensures Padded(m) == Assembled(m, Gap(|m|), Big64(8 * |m|))
  {
    hide Assembled, Gap, Big64;
  }

  lemma TwoWords(hi: nat, lo: nat)
    requires lo < U32
    ensures Big64(hi * U32 + lo) == Big32(hi) + Big32(lo)
  {
    hide Big32;
    assert (hi * U32 + lo) / U32 == hi && (hi * U32 + lo) % U32 == lo;
  }

  lemma Wrap64(a: nat, c: nat)
    ensures (a % U64 + c) % U64 == (a + c) % U64
  {
  }
}
