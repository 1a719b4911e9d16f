/** AES-256 as mkfs computes it: on 32-bit words through tables, with the
    reversed key schedule for decryption.  The tables are given by the S-box and
    multiplication in GF(2^8).  A word is written as its four bytes, the most
    significant first. */
module Aes {
  import opened Gf
  import opened Sbox

  datatype Word = Word(b0: Byte, b1: Byte, b2: Byte, b3: Byte)

  function WXor(v: Word, w: Word): Word {
    Word(Xor(v.b0, w.b0), Xor(v.b1, w.b1), Xor(v.b2, w.b2), Xor(v.b3, w.b3))
  }

  // ---------------------------------------------------------------- the tables

  function Te0(x: Byte): Word { Word(X2(Sub(x)), Sub(x), Sub(x), X3(Sub(x))) }
  function Te1(x: Byte): Word { Word(X3(Sub(x)), X2(Sub(x)), Sub(x), Sub(x)) }
  function Te2(x: Byte): Word { Word(Sub(x), X3(Sub(x)), X2(Sub(x)), Sub(x)) }
  function Te3(x: Byte): Word { Word(Sub(x), Sub(x), X3(Sub(x)), X2(Sub(x))) }

  function Ti0(b: Byte): Word { Word(X14(b), X9(b), X13(b), X11(b)) }
  function Ti1(b: Byte): Word { Word(X11(b), X14(b), X9(b), X13(b)) }
  function Ti2(b: Byte): Word { Word(X13(b), X11(b), X14(b), X9(b)) }
  function Ti3(b: Byte): Word { Word(X9(b), X13(b), X11(b), X14(b)) }

  function Td0(x: Byte): Word { Ti0(InvSub(x)) }
  function Td1(x: Byte): Word { Ti1(InvSub(x)) }
  function Td2(x: Byte): Word { Ti2(InvSub(x)) }
  function Td3(x: Byte): Word { Ti3(InvSub(x)) }
  function Td4(x: Byte): Byte { InvSub(x) }

  function XorFour(a: Word, b: Word, c: Word, d: Word): Word {
    WXor(WXor(WXor(a, b), c), d)
  }

  /** One byte out of each of four words, in place. */
  function Masked(a: Word, b: Word, c: Word, d: Word): Word {
    Word(a.b0, b.b1, c.b2, d.b3)
  }

  // ---------------------------------------------------------------- columns

  /** MixColumns on one column, section 5.1.3 of FIPS 197. */
  function Mix(w: Word): Word {
    Word(Xor(Xor(Xor(X2(w.b0), X3(w.b1)), w.b2), w.b3),
         Xor(Xor(Xor(w.b0, X2(w.b1)), X3(w.b2)), w.b3),
         Xor(Xor(Xor(w.b0, w.b1), X2(w.b2)), X3(w.b3)),
         Xor(Xor(Xor(X3(w.b0), w.b1), w.b2), X2(w.b3)))
  }

  /** InvMixColumns on one column, section 5.3.3 of FIPS 197, as the Td tables
      compute it. */
  function InvMix(w: Word): Word {
    XorFour(Ti0(w.b0), Ti1(w.b1), Ti2(w.b2), Ti3(w.b3))
  }

  lemma WXorSwap(a: Word, b: Word, c: Word, d: Word)
    ensures WXor(WXor(a, b), WXor(c, d)) == WXor(WXor(a, c), WXor(b, d))
  {
    hide Xor;
    XorSwap(a.b0, b.b0, c.b0, d.b0);
    XorSwap(a.b1, b.b1, c.b1, d.b1);
    XorSwap(a.b2, b.b2, c.b2, d.b2);
    XorSwap(a.b3, b.b3, c.b3, d.b3);
  }

  lemma WXorCancel(a: Word, b: Word)
    ensures WXor(WXor(a, b), b) == a
    ensures WXor(a, b) == WXor(b, a)
  {
    hide Xor;
    XorCancel(a.b0, b.b0);
    XorCancel(a.b1, b.b1);
    XorCancel(a.b2, b.b2);
    XorCancel(a.b3, b.b3);
  }

  lemma TiLinear(x: Byte, y: Byte)
    ensures Ti0(Xor(x, y)) == WXor(Ti0(x), Ti0(y)) && Ti1(Xor(x, y)) == WXor(Ti1(x), Ti1(y))
    ensures Ti2(Xor(x, y)) == WXor(Ti2(x), Ti2(y)) && Ti3(Xor(x, y)) == WXor(Ti3(x), Ti3(y))
  {
    hide Xor, X9, X11, X13, X14;
    X9Linear(x, y);
    X11Linear(x, y);
    X13Linear(x, y);
    X14Linear(x, y);
  }

  lemma InvMixLinear(v: Word, w: Word)
    ensures InvMix(WXor(v, w)) == WXor(InvMix(v), InvMix(w))
  {
    hide Xor, Ti0, Ti1, Ti2, Ti3;
    TiLinear(v.b0, w.b0);
    TiLinear(v.b1, w.b1);
    TiLinear(v.b2, w.b2);
    TiLinear(v.b3, w.b3);
    XorFourSwap(Ti0(v.b0), Ti0(w.b0), Ti1(v.b1), Ti1(w.b1), Ti2(v.b2), Ti2(w.b2), Ti3(v.b3), Ti3(w.b3));
  }

  lemma XorFourSwap(a: Word, a': Word, b: Word, b': Word, c: Word, c': Word, d: Word, d': Word)
    ensures XorFour(WXor(a, a'), WXor(b, b'), WXor(c, c'), WXor(d, d'))
         == WXor(XorFour(a, b, c, d), XorFour(a', b', c', d'))
  {
    hide WXor;
    WXorSwap(a, a', b, b');
    WXorSwap(WXor(a, b), WXor(a', b'), c, c');
    WXorSwap(WXor(WXor(a, b), c), WXor(WXor(a', b'), c'), d, d');
  }

  /** What one byte of a column becomes, and that InvMix takes it back. */
  function Col0(a: Byte): Word { Word(X2(a), a, a, X3(a)) }
  function Col1(b: Byte): Word { Word(X3(b), X2(b), b, b) }
  function Col2(c: Byte): Word { Word(c, X3(c), X2(c), c) }
  function Col3(d: Byte): Word { Word(d, d, X3(d), X2(d)) }

  lemma MixIsSum(w: Word)
    ensures Mix(w) == XorFour(Col0(w.b0), Col1(w.b1), Col2(w.b2), Col3(w.b3))
  {
    hide Xor, X2, X3;
  }

  lemma Inverse0(a: Byte)
    ensures InvMix(Col0(a)) == Word(a, 0, 0, 0)
  {
  }

  lemma Inverse1(b: Byte)
    ensures InvMix(Col1(b)) == Word(0, b, 0, 0)
  {
  }

  lemma Inverse2(c: Byte)
    ensures InvMix(Col2(c)) == Word(0, 0, c, 0)
  {
  }

  lemma Inverse3(d: Byte)
    ensures InvMix(Col3(d)) == Word(0, 0, 0, d)
  {
  }

  lemma MixInverse(w: Word)
    ensures InvMix(Mix(w)) == w
  {
    hide InvMix, Mix, Col0, Col1, Col2, Col3, Xor;
    var a, b, c, d := Col0(w.b0), Col1(w.b1), Col2(w.b2), Col3(w.b3);
    MixIsSum(w);
    InvMixLinear(WXor(WXor(a, b), c), d);
    InvMixLinear(WXor(a, b), c);
    InvMixLinear(a, b);
    Inverse0(w.b0);
    Inverse1(w.b1);
    Inverse2(w.b2);
    Inverse3(w.b3);
    XorCancel(w.b0, 0);
    XorCancel(w.b1, 0);
    XorCancel(w.b2, 0);
    XorCancel(w.b3, 0);
    XorCancel(0, 0);
  }

  // ---------------------------------------------------------------- rounds

  datatype State = State(s0: Word, s1: Word, s2: Word, s3: Word)

  function SXor(s: State, k: State): State {
    State(WXor(s.s0, k.s0), WXor(s.s1, k.s1), WXor(s.s2, k.s2), WXor(s.s3, k.s3))
  }

  const WORDS: nat := 60

  function RoundKey(rk: seq<Word>, r: nat): State
    requires |rk| == WORDS && r <= 14
  {
    State(rk[4 * r], rk[4 * r + 1], rk[4 * r + 2], rk[4 * r + 3])
  }

  function EncRound(s: State, k: State): State {
    SXor(State(XorFour(Te0(s.s0.b0), Te1(s.s1.b1), Te2(s.s2.b2), Te3(s.s3.b3)),
               XorFour(Te0(s.s1.b0), Te1(s.s2.b1), Te2(s.s3.b2), Te3(s.s0.b3)),
               XorFour(Te0(s.s2.b0), Te1(s.s3.b1), Te2(s.s0.b2), Te3(s.s1.b3)),
               XorFour(Te0(s.s3.b0), Te1(s.s0.b1), Te2(s.s1.b2), Te3(s.s2.b3))), k)
  }

  function LastEncRound(s: State, k: State): State {
    SXor(State(Masked(Te2(s.s0.b0), Te3(s.s1.b1), Te0(s.s2.b2), Te1(s.s3.b3)),
               Masked(Te2(s.s1.b0), Te3(s.s2.b1), Te0(s.s3.b2), Te1(s.s0.b3)),
               Masked(Te2(s.s2.b0), Te3(s.s3.b1), Te0(s.s0.b2), Te1(s.s1.b3)),
               Masked(Te2(s.s3.b0), Te3(s.s0.b1), Te0(s.s1.b2), Te1(s.s2.b3))), k)
  }

  function DecRound(s: State, k: State): State {
    SXor(State(XorFour(Td0(s.s0.b0), Td1(s.s3.b1), Td2(s.s2.b2), Td3(s.s1.b3)),
               XorFour(Td0(s.s1.b0), Td1(s.s0.b1), Td2(s.s3.b2), Td3(s.s2.b3)),
               XorFour(Td0(s.s2.b0), Td1(s.s1.b1), Td2(s.s0.b2), Td3(s.s3.b3)),
               XorFour(Td0(s.s3.b0), Td1(s.s2.b1), Td2(s.s1.b2), Td3(s.s0.b3))), k)
  }

  function LastDecRound(s: State, k: State): State {
    SXor(State(Word(Td4(s.s0.b0), Td4(s.s3.b1), Td4(s.s2.b2), Td4(s.s1.b3)),
               Word(Td4(s.s1.b0), Td4(s.s0.b1), Td4(s.s3.b2), Td4(s.s2.b3)),
               Word(Td4(s.s2.b0), Td4(s.s1.b1), Td4(s.s0.b2), Td4(s.s3.b3)),
               Word(Td4(s.s3.b0), Td4(s.s2.b1), Td4(s.s1.b2), Td4(s.s0.b3))), k)
  }

  /** The state after round r of encryption. */
  function EncRounds(rk: seq<Word>, s: State, r: nat): State
    requires |rk| == WORDS && r <= 13
  {
    if r == 0 then SXor(s, RoundKey(rk, 0)) else EncRound(EncRounds(rk, s, r - 1), RoundKey(rk, r))
  }

  function EncBlock(rk: seq<Word>, s: State): State
    requires |rk| == WORDS
  {
    LastEncRound(EncRounds(rk, s, 13), RoundKey(rk, 14))
  }

  function DecRounds(dk: seq<Word>, s: State, r: nat): State
    requires |dk| == WORDS && r <= 13
  {
    if r == 0 then SXor(s, RoundKey(dk, 0)) else DecRound(DecRounds(dk, s, r - 1), RoundKey(dk, r))
  }

  function DecBlock(dk: seq<Word>, s: State): State
    requires |dk| == WORDS
  {
    LastDecRound(DecRounds(dk, s, 13), RoundKey(dk, 14))
  }

  // ---------------------------------------------------------------- why decryption inverts

  /** ShiftRows after SubBytes, sections 5.1.1 and 5.1.2 of FIPS 197. */
  function SubShift(s: State): State {
    State(Word(Sub(s.s0.b0), Sub(s.s1.b1), Sub(s.s2.b2), Sub(s.s3.b3)),
          Word(Sub(s.s1.b0), Sub(s.s2.b1), Sub(s.s3.b2), Sub(s.s0.b3)),
          Word(Sub(s.s2.b0), Sub(s.s3.b1), Sub(s.s0.b2), Sub(s.s1.b3)),
          Word(Sub(s.s3.b0), Sub(s.s0.b1), Sub(s.s1.b2), Sub(s.s2.b3)))
  }

  function MixState(s: State): State { State(Mix(s.s0), Mix(s.s1), Mix(s.s2), Mix(s.s3)) }
  function InvMixState(s: State): State { State(InvMix(s.s0), InvMix(s.s1), InvMix(s.s2), InvMix(s.s3)) }

  lemma TeIsMix(a: Byte, b: Byte, c: Byte, d: Byte)
    ensures XorFour(Te0(a), Te1(b), Te2(c), Te3(d)) == Mix(Word(Sub(a), Sub(b), Sub(c), Sub(d)))
  {
    hide Xor, X2, X3, Sub;
  }

  /** The table round is the round of section 5.1 of FIPS 197. */
  lemma EncRoundIs(s: State, k: State)
    ensures EncRound(s, k) == SXor(MixState(SubShift(s)), k)
    ensures LastEncRound(s, k) == SXor(SubShift(s), k)
  {
    hide Xor, Mix, Sub, WXor, X2, X3, XorFour;
    TeIsMix(s.s0.b0, s.s1.b1, s.s2.b2, s.s3.b3);
    TeIsMix(s.s1.b0, s.s2.b1, s.s3.b2, s.s0.b3);
    TeIsMix(s.s2.b0, s.s3.b1, s.s0.b2, s.s1.b3);
    TeIsMix(s.s3.b0, s.s0.b1, s.s1.b2, s.s2.b3);
  }

  lemma WordSubInverse(w: Word)
    ensures Word(InvSub(Sub(w.b0)), InvSub(Sub(w.b1)), InvSub(Sub(w.b2)), InvSub(Sub(w.b3))) == w
  {
    hide Sub, InvSub;
    SubInverse(w.b0);
    SubInverse(w.b1);
    SubInverse(w.b2);
    SubInverse(w.b3);
  }

  /** The table decryption round undoes ShiftRows and SubBytes and mixes back. */
  lemma DecRoundIs(s: State, k: State)
    ensures DecRound(SubShift(s), k) == SXor(InvMixState(s), k)
    ensures LastDecRound(SubShift(s), k) == SXor(s, k)
  {
    hide Sub, InvSub, WXor, XorFour, Ti0, Ti1, Ti2, Ti3;
    WordSubInverse(s.s0);
    WordSubInverse(s.s1);
    WordSubInverse(s.s2);
    WordSubInverse(s.s3);
  }

  lemma InvMixRound(s: State, k: State)
    ensures SXor(InvMixState(SXor(MixState(s), k)), InvMixState(k)) == s
  {
    hide InvMix, Mix, WXor;
    InvMixWord(s.s0, k.s0);
    InvMixWord(s.s1, k.s1);
    InvMixWord(s.s2, k.s2);
    InvMixWord(s.s3, k.s3);
  }

  lemma InvMixWord(s: Word, k: Word)
    ensures WXor(InvMix(WXor(Mix(s), k)), InvMix(k)) == s
  {
    hide InvMix, Mix, WXor;
    InvMixLinear(Mix(s), k);
    MixInverse(s);
    WXorCancel(s, InvMix(k));
  }

  /** One decryption round with the mixed key undoes one encryption round. */
  lemma RoundInverse(s: State, k: State)
    ensures DecRound(SubShift(EncRound(s, k)), InvMixState(k)) == SubShift(s)
  {
    hide SubShift, InvMixState, MixState, SXor, EncRound, DecRound;
    EncRoundIs(s, k);
    DecRoundIs(EncRound(s, k), InvMixState(k));
    InvMixRound(SubShift(s), k);
  }

  lemma SXorCancel(s: State, k: State)
    ensures SXor(SXor(s, k), k) == s
  {
    hide WXor;
    WXorCancel(s.s0, k.s0);
    WXorCancel(s.s1, k.s1);
    WXorCancel(s.s2, k.s2);
    WXorCancel(s.s3, k.s3);
  }

  /** dk is the schedule of section 5.3.5 of FIPS 197: reversed by rounds, and
      mixed back in rounds 1 to 13. */
  ghost predicate Reversed(rk: seq<Word>, dk: seq<Word>) {
    && |rk| == WORDS && |dk| == WORDS
    && forall r :: 0 <= r <= 14 ==>
         RoundKey(dk, r) == if r == 0 || r == 14 then RoundKey(rk, 14 - r) else InvMixState(RoundKey(rk, 14 - r))
  }

  lemma {:induction false} DecFollowsEnc(rk: seq<Word>, dk: seq<Word>, s: State, j: nat)
    requires Reversed(rk, dk) && j <= 13
    ensures DecRounds(dk, EncBlock(rk, s), j) == SubShift(EncRounds(rk, s, 13 - j))
  {
    hide SubShift, SXor, EncRound, DecRound, LastEncRound, InvMixState, RoundKey;
    if j == 0 {
      EncRoundIs(EncRounds(rk, s, 13), RoundKey(rk, 14));
      SXorCancel(SubShift(EncRounds(rk, s, 13)), RoundKey(rk, 14));
    } else {
      DecFollowsEnc(rk, dk, s, j - 1);
      RoundInverse(EncRounds(rk, s, 13 - j), RoundKey(rk, 14 - j));
    }
  }

  /** Decrypting an encrypted block gives the block back, for every key schedule. */
  lemma BlockRoundTrip(rk: seq<Word>, dk: seq<Word>, s: State)
    requires Reversed(rk, dk)
    ensures DecBlock(dk, EncBlock(rk, s)) == s
  {
    hide SubShift, SXor, LastDecRound, EncBlock, DecRounds, InvMixState, RoundKey;
    DecFollowsEnc(rk, dk, s, 13);
    DecRoundIs(SXor(s, RoundKey(rk, 0)), RoundKey(rk, 0));
    SXorCancel(s, RoundKey(rk, 0));
  }
}
