/** What the tables and rounds of AES are, over the field GF(2^8). */
module AesLaws {
  import opened Gf
  import opened Sbox
  import opened Aes
  import opened Cbc

  // ---------------------------------------------------------------- key schedule

  lemma RconIs()
    ensures Rcon(0) == 1 && Rcon(1) == 2 && Rcon(2) == 4 && Rcon(3) == 8 && Rcon(4) == 16 && Rcon(5) == 32 && Rcon(6) == 64
  {
  }

  /** Four words of the schedule. */
  function Four(key: seq<Word>, i: nat): State
    requires |key| == 8
  {
    State(KeyWord(key, 4 * i), KeyWord(key, 4 * i + 1), KeyWord(key, 4 * i + 2), KeyWord(key, 4 * i + 3))
  }

  function Chained(k: State, n: Word): State {
    var n1 := WXor(k.s1, n);
    var n2 := WXor(k.s2, n1);
    State(n, n1, n2, WXor(k.s3, n2))
  }

  function FirstFour(k: State, last: Word, c: Byte): State {
    Chained(k, WXor(k.s0, WXor(SubWord(RotWord(last)), Word(c, 0, 0, 0))))
  }

  function SecondFour(k: State, last: Word): State { Chained(k, WXor(k.s0, SubWord(last))) }

  lemma NextFirst(key: seq<Word>, r: nat)
    requires |key| == 8
    ensures Four(key, 2 * r + 2) == FirstFour(Four(key, 2 * r), Four(key, 2 * r + 1).s3, Rcon(r))
  {
    hide KeyWord, SubWord, RotWord, WXor, Rcon;
    NextWord(key, 8 * r, 0);
    NextWord(key, 8 * r, 1);
    NextWord(key, 8 * r, 2);
    NextWord(key, 8 * r, 3);
  }

  lemma NextSecond(key: seq<Word>, r: nat)
    requires |key| == 8
    ensures Four(key, 2 * r + 3) == SecondFour(Four(key, 2 * r + 1), Four(key, 2 * r + 2).s3)
  {
    hide KeyWord, SubWord, RotWord, WXor, Rcon;
    NextWord(key, 8 * r, 4);
    NextWord(key, 8 * r, 5);
    NextWord(key, 8 * r, 6);
    NextWord(key, 8 * r, 7);
  }

  // ---------------------------------------------------------------- rounds

  lemma RoundKeyIs(pass: seq<Byte>, r: nat)
    requires |pass| == 32 && r <= 14
    ensures RoundKey(EncKeys(pass), r) == Four(KeyWords(pass), r)
  {
    hide KeyWord, KeyWords;
  }

  function SubBytes(s: State): State { State(SubWord(s.s0), SubWord(s.s1), SubWord(s.s2), SubWord(s.s3)) }

  /** Row r of column c comes from column c + r. */
  function ShiftRows(s: State): State {
    State(Word(s.s0.b0, s.s1.b1, s.s2.b2, s.s3.b3), Word(s.s1.b0, s.s2.b1, s.s3.b2, s.s0.b3),
          Word(s.s2.b0, s.s3.b1, s.s0.b2, s.s1.b3), Word(s.s3.b0, s.s0.b1, s.s1.b2, s.s2.b3))
  }

  function Entry(s: State, r: nat, c: nat): Byte
    requires r < 4 && c < 4
  {
    var w := if c == 0 then s.s0 else if c == 1 then s.s1 else if c == 2 then s.s2 else s.s3;
    Coefficient(w, r)
  }

  lemma ShiftRowsMoves(s: State, r: nat, c: nat)
    requires r < 4 && c < 4
    ensures Entry(ShiftRows(s), r, c) == Entry(s, r, (c + r) % 4)
  {
  }

  /** The steps of section 5.1 of FIPS 197. */
  lemma EncRoundSteps(s: State, k: State)
    ensures EncRound(s, k) == SXor(MixState(ShiftRows(SubBytes(s))), k)
    ensures LastEncRound(s, k) == SXor(ShiftRows(SubBytes(s)), k)
  {
    hide EncRound, LastEncRound, Sub, SXor, MixState;
    EncRoundIs(s, k);
    assert SubShift(s) == ShiftRows(SubBytes(s));
  }

  // ---------------------------------------------------------------- the field

  /** The product of two polynomials over the field with two elements. */
  function Product(a: Byte, b: Byte): bv16 {
    var p := a as bv16;
    (if b & 1 != 0 then p else 0) ^ (if b & 2 != 0 then p << 1 else 0) ^ (if b & 4 != 0 then p << 2 else 0)
    ^ (if b & 8 != 0 then p << 3 else 0) ^ (if b & 16 != 0 then p << 4 else 0) ^ (if b & 32 != 0 then p << 5 else 0)
    ^ (if b & 64 != 0 then p << 6 else 0) ^ (if b & 128 != 0 then p << 7 else 0)
  }

  /** The term of degree 8 + i taken off with x^8 + x^4 + x^3 + x + 1. */
  function Reduced(p: bv16, i: bv16): bv16
    requires i < 7
  {
    if (p >> (8 + i)) & 1 == 1 then p ^ (0x11b << i) else p
  }

  /** The product in GF(2^8), section 4.2 of FIPS 197. */
  function Mul(a: Byte, b: Byte): Byte {
    var p := Reduced(Reduced(Reduced(Reduced(Product(a, b), 6), 5), 4), 3);
    (Reduced(Reduced(Reduced(p, 2), 1), 0) & 0xff) as Byte
  }

  lemma Times1(b: Byte)
    ensures Mul(1, b) == b
  {
  }

  lemma Times2(b: Byte)
    ensures Mul(2, b) == X2(b)
  {
  }

  lemma Times3(b: Byte)
    ensures Mul(3, b) == X3(b)
  {
  }

  lemma Times9(b: Byte)
    ensures Mul(9, b) == X9(b)
  {
  }

  lemma Times11(b: Byte)
    ensures Mul(11, b) == X11(b)
  {
  }

  lemma Times13(b: Byte)
    ensures Mul(13, b) == X13(b)
  {
  }

  lemma Times14(b: Byte)
    ensures Mul(14, b) == X14(b)
  {
  }

  lemma Products(b: Byte)
    ensures Mul(1, b) == b && Mul(2, b) == X2(b) && Mul(3, b) == X3(b)
    ensures Mul(9, b) == X9(b) && Mul(11, b) == X11(b) && Mul(13, b) == X13(b) && Mul(14, b) == X14(b)
  {
    hide *;
    Times1(b);
    Times2(b);
    Times3(b);
    Times9(b);
    Times11(b);
    Times13(b);
    Times14(b);
  }

  // ---------------------------------------------------------------- the S-box

  function RotL(b: Byte, n: Byte): Byte
    requires n < 8
  {
    (b << n) | (b >> (8 - n))
  }

  /** The affine map of section 5.1.1 of FIPS 197: bit i of the image is the sum of
      the bits i, i + 4, i + 5, i + 6 and i + 7 of b, and of bit i of 0x63. */
  function Affine(b: Byte): Byte { b ^ RotL(b, 1) ^ RotL(b, 2) ^ RotL(b, 3) ^ RotL(b, 4) ^ 0x63 }

  lemma AffineBits(b: Byte, i: Byte)
    requires i < 8
    ensures (Affine(b) >> i) & 1
         == ((b >> i) ^ (b >> ((i + 4) % 8)) ^ (b >> ((i + 5) % 8)) ^ (b >> ((i + 6) % 8)) ^ (b >> ((i + 7) % 8)) ^ (0x63 >> i)) & 1
  {
  }

  /** Its inverse. */
  function Unaffine(b: Byte): Byte { RotL(b, 1) ^ RotL(b, 3) ^ RotL(b, 6) ^ 0x05 }

  predicate Inverts(x: Byte) { Mul(x, Unaffine(Sub(x))) == 1 && Affine(Unaffine(Sub(x))) == Sub(x) }

  lemma Inverts0(x: Byte)
    requires 0x00 < x <= 0x0f
    ensures Inverts(x)
  {
  }

  lemma Inverts1(x: Byte)
    requires 0x10 <= x <= 0x1f
    ensures Inverts(x)
  {
  }

  lemma Inverts2(x: Byte)
    requires 0x20 <= x <= 0x2f
    ensures Inverts(x)
  {
  }

  lemma Inverts3(x: Byte)
    requires 0x30 <= x <= 0x3f
    ensures Inverts(x)
  {
  }

  lemma Inverts4(x: Byte)
    requires 0x40 <= x <= 0x4f
    ensures Inverts(x)
  {
  }

  lemma Inverts5(x: Byte)
    requires 0x50 <= x <= 0x5f
    ensures Inverts(x)
  {
  }

  lemma Inverts6(x: Byte)
    requires 0x60 <= x <= 0x6f
    ensures Inverts(x)
  {
  }

  lemma Inverts7(x: Byte)
    requires 0x70 <= x <= 0x7f
    ensures Inverts(x)
  {
  }

  lemma Inverts8(x: Byte)
    requires 0x80 <= x <= 0x8f
    ensures Inverts(x)
  {
  }

  lemma Inverts9(x: Byte)
    requires 0x90 <= x <= 0x9f
    ensures Inverts(x)
  {
  }

  lemma Inverts10(x: Byte)
    requires 0xa0 <= x <= 0xaf
    ensures Inverts(x)
  {
  }

  lemma Inverts11(x: Byte)
    requires 0xb0 <= x <= 0xbf
    ensures Inverts(x)
  {
  }

  lemma Inverts12(x: Byte)
    requires 0xc0 <= x <= 0xcf
    ensures Inverts(x)
  {
  }

  lemma Inverts13(x: Byte)
    requires 0xd0 <= x <= 0xdf
    ensures Inverts(x)
  {
  }

  lemma Inverts14(x: Byte)
    requires 0xe0 <= x <= 0xef
    ensures Inverts(x)
  {
  }

  lemma Inverts15(x: Byte)
    requires 0xf0 <= x <= 0xff
    ensures Inverts(x)
  {
  }


  /** The S-box takes the inverse in the field, 0 to 0, and then the affine map. */
  lemma SubIsAffineInverse(x: Byte)
    ensures x == 0 ==> Sub(x) == Affine(0)
    ensures x != 0 ==> exists y :: Mul(x, y) == 1 && Sub(x) == Affine(y)
  {
    hide Sub, Affine, Unaffine, Mul, Inverts;
    if x == 0 {
      SubZero();
    } else {
      AllInvert(x);
      InvertsIs(x);
    }
  }

  lemma SubZero()
    ensures Sub(0) == Affine(0)
  {
  }

  lemma InvertsIs(x: Byte)
    requires Inverts(x)
    ensures Mul(x, Unaffine(Sub(x))) == 1 && Sub(x) == Affine(Unaffine(Sub(x)))
  {
    hide Sub, Affine, Unaffine, Mul;
  }

  lemma AllInvert(x: Byte)
    requires x != 0
    ensures Inverts(x)
  {
    hide Inverts;
    if x < 0x80 {
      if x <= 0x0f { Inverts0(x); } else if x <= 0x1f { Inverts1(x); } else if x <= 0x2f { Inverts2(x); } else if x <= 0x3f { Inverts3(x); }
      else if x <= 0x4f { Inverts4(x); } else if x <= 0x5f { Inverts5(x); } else if x <= 0x6f { Inverts6(x); } else { Inverts7(x); }
    } else {
      if x <= 0x8f { Inverts8(x); } else if x <= 0x9f { Inverts9(x); } else if x <= 0xaf { Inverts10(x); } else if x <= 0xbf { Inverts11(x); }
      else if x <= 0xcf { Inverts12(x); } else if x <= 0xdf { Inverts13(x); } else if x <= 0xef { Inverts14(x); } else { Inverts15(x); }
    }
  }

  // ---------------------------------------------------------------- columns

  /** The coefficient of x^i of a column read as a polynomial. */
  function Coefficient(w: Word, i: nat): Byte
    requires i < 4
  {
    match i
    case 0 => w.b0
    case 1 => w.b1
    case 2 => w.b2
    case _ => w.b3
  }

  /** The coefficient of x^i of the product of two columns modulo x^4 + 1: the
      products of the pairs whose degrees add up to i or i + 4. */
  function ProductAt(c: Word, a: Word, i: nat): Byte
    requires i < 4
  {
    Xor(Xor(Xor(Mul(Coefficient(c, i), a.b0), Mul(Coefficient(c, (i + 3) % 4), a.b1)),
            Mul(Coefficient(c, (i + 2) % 4), a.b2)), Mul(Coefficient(c, (i + 1) % 4), a.b3))
  }

  /** MixColumns multiplies by 3x^3 + x^2 + x + 2, section 5.1.3 of FIPS 197, and
      its inverse by 11x^3 + 13x^2 + 9x + 14, section 5.3.3. */
  lemma MixIsProduct(w: Word, i: nat)
    requires i < 4
    ensures Coefficient(Mix(w), i) == ProductAt(Word(2, 1, 1, 3), w, i)
    ensures Coefficient(InvMix(w), i) == ProductAt(Word(14, 9, 13, 11), w, i)
  {
    hide Mul, Xor, X2, X3, X9, X11, X13, X14;
    Products(w.b0);
    Products(w.b1);
    Products(w.b2);
    Products(w.b3);
  }

  // ---------------------------------------------------------------- chaining

  /** Block k of a buffer. */
  function Block(d: seq<Byte>, k: nat): (b: seq<Byte>)
    requires 16 * k + 16 <= |d|
    ensures |b| == 16
  {
    d[16 * k..16 * k + 16]
  }

  /** What block k is masked with: the vector or the cipher block before it. */
  function Before(iv: seq<Byte>, d: seq<Byte>, k: nat): (b: seq<Byte>)
    requires |iv| == 16 && 16 * k + 16 <= |d|
    ensures |b| == 16
  {
    if k == 0 then iv else Block(d, k - 1)
  }

  /** Section 6.2 of NIST SP 800-38A, block by block; an incomplete last block
      stays as it is. */
  lemma {:induction false} CbcBlocks(rk: seq<Word>, iv: seq<Byte>, data: seq<Byte>, k: nat)
    requires |rk| == WORDS && |iv| == 16 && 16 * k + 16 <= |data|
    ensures var e := Encrypted(rk, iv, data);
            Block(e, k) == ToBytes(EncBlock(rk, ToState(XorBytes(Block(data, k), Before(iv, e, k)))))
    decreases k
  {
    hide EncBlock, ToState, ToBytes, XorBytes;
    var e := Encrypted(rk, iv, data);
    var c := ToBytes(EncBlock(rk, ToState(XorBytes(data[..16], iv))));
    var rest := Encrypted(rk, c, data[16..]);
    assert e == c + rest;
    if k > 0 {
      CbcBlocks(rk, c, data[16..], k - 1);
      assert Block(e, k) == Block(rest, k - 1) && Block(data, k) == Block(data[16..], k - 1);
      assert Before(iv, e, k) == Before(c, rest, k - 1);
    }
  }

  lemma {:induction false} CbcTail(rk: seq<Word>, iv: seq<Byte>, data: seq<Byte>)
    requires |rk| == WORDS && |iv| == 16
    ensures var n := |data| - |data| % 16;
            Encrypted(rk, iv, data)[n..] == data[n..]
    decreases |data|
  {
    hide EncBlock, ToState, ToBytes, XorBytes;
    if |data| >= 16 {
      var c := ToBytes(EncBlock(rk, ToState(XorBytes(data[..16], iv))));
      CbcTail(rk, c, data[16..]);
      assert |data[16..]| % 16 == |data| % 16;
    }
  }

  /** The vector is cut out of the key at an offset its first byte gives. */
  lemma VectorIs(pass: seq<Byte>, i: nat)
    requires |pass| == 32 && i < 16
    ensures var o := (pass[0] % 16) as nat;
            o + i < 32 && Vector(pass)[i] == pass[o + i]
  {
    LowNibble(pass[0]);
    LowBits(pass[0]);
  }

  lemma LowBits(b: Byte)
    ensures b & 0xf == b % 16
  {
  }
}
