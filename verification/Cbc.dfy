/** Cipher block chaining over a buffer, and the key schedules. */
module Cbc {
  import opened Gf
  import opened Sbox
  import opened Aes

  // ---------------------------------------------------------------- key schedule

  function SubWord(w: Word): Word { Word(Sub(w.b0), Sub(w.b1), Sub(w.b2), Sub(w.b3)) }
  function RotWord(w: Word): Word { Word(w.b1, w.b2, w.b3, w.b0) }

  /** x to the power i in GF(2^8). */
  function Rcon(i: nat): Byte {
    if i == 0 then 1 else X2(Rcon(i - 1))
  }

  /** Word i of the key expansion, section 5.2 of FIPS 197 with Nk = 8. */
  function KeyWord(key: seq<Word>, i: nat): Word
    requires |key| == 8
  {
    if i < 8 then key[i]
    else if i % 8 == 0 then
      WXor(KeyWord(key, i - 8), WXor(SubWord(RotWord(KeyWord(key, i - 1))), Word(Rcon(i / 8 - 1), 0, 0, 0)))
    else if i % 8 == 4 then WXor(KeyWord(key, i - 8), SubWord(KeyWord(key, i - 1)))
    else WXor(KeyWord(key, i - 8), KeyWord(key, i - 1))
  }

  lemma TablesSub(t: Word)
    ensures Masked(Te2(t.b0), Te3(t.b1), Te0(t.b2), Te1(t.b3)) == SubWord(t)
    ensures Masked(Te2(t.b1), Te3(t.b2), Te0(t.b3), Te1(t.b0)) == SubWord(RotWord(t))
  {
    hide Sub, X2, X3;
  }

  /** The step of the key expansion from one word to the next, by position. */
  lemma NextWord(key: seq<Word>, b: nat, j: nat)
    requires |key| == 8 && b % 8 == 0 && j < 8
    ensures j == 0 ==> KeyWord(key, b + 8) == WXor(KeyWord(key, b), WXor(SubWord(RotWord(KeyWord(key, b + 7))), Word(Rcon(b / 8), 0, 0, 0)))
    ensures j == 4 ==> KeyWord(key, b + 12) == WXor(KeyWord(key, b + 4), SubWord(KeyWord(key, b + 11)))
    ensures j % 4 != 0 ==> KeyWord(key, b + 8 + j) == WXor(KeyWord(key, b + j), KeyWord(key, b + 7 + j))
  {
    hide SubWord, RotWord, WXor, Rcon;
    Position(b, j);
  }

  lemma Position(b: nat, j: nat)
    requires b % 8 == 0 && j < 8
    ensures (b + 8 + j) % 8 == j && (b + 8) / 8 - 1 == b / 8
  {
  }

  ghost predicate Expanded(key: seq<Word>, rk: seq<Word>) {
    |key| == 8 && |rk| == WORDS && forall i :: 0 <= i < WORDS ==> rk[i] == KeyWord(key, i)
  }

  // ---------------------------------------------------------------- blocks

  function WordAt(b: seq<Byte>, i: nat): Word
    requires i + 4 <= |b|
  {
    Word(b[i], b[i + 1], b[i + 2], b[i + 3])
  }

  function Bytes(w: Word): (b: seq<Byte>)
    ensures |b| == 4
  {
    [w.b0, w.b1, w.b2, w.b3]
  }

  function ToState(b: seq<Byte>): State
    requires |b| == 16
  {
    State(WordAt(b, 0), WordAt(b, 4), WordAt(b, 8), WordAt(b, 12))
  }

  function ToBytes(s: State): (b: seq<Byte>)
    ensures |b| == 16
  {
    Bytes(s.s0) + Bytes(s.s1) + Bytes(s.s2) + Bytes(s.s3)
  }

  lemma StateBytes(s: State)
    ensures ToState(ToBytes(s)) == s
  {
  }

  lemma BytesState(b: seq<Byte>)
    requires |b| == 16
    ensures ToBytes(ToState(b)) == b
  {
  }

  function XorBytes(a: seq<Byte>, b: seq<Byte>): (r: seq<Byte>)
    requires |a| == |b|
    ensures |r| == |a| && forall i :: 0 <= i < |a| ==> r[i] == Xor(a[i], b[i])
  {
    seq(|a|, i requires 0 <= i < |a| => Xor(a[i], b[i]))
  }

  lemma XorBytesCancel(a: seq<Byte>, b: seq<Byte>)
    requires |a| == |b|
    ensures XorBytes(XorBytes(a, b), b) == a
  {
    forall i | 0 <= i < |a| ensures XorBytes(XorBytes(a, b), b)[i] == a[i] { XorCancel(a[i], b[i]); }
  }

  // ---------------------------------------------------------------- chaining

  /** Section 6.2 of NIST SP 800-38A; a tail shorter than a block is left alone. */
  function Encrypted(rk: seq<Word>, iv: seq<Byte>, data: seq<Byte>): (r: seq<Byte>)
    requires |rk| == WORDS && |iv| == 16
    ensures |r| == |data|
    decreases |data|
  {
    if |data| < 16 then data
    else
      var c := ToBytes(EncBlock(rk, ToState(XorBytes(data[..16], iv))));
      c + Encrypted(rk, c, data[16..])
  }

  function Decrypted(dk: seq<Word>, iv: seq<Byte>, data: seq<Byte>): (r: seq<Byte>)
    requires |dk| == WORDS && |iv| == 16
    ensures |r| == |data|
    decreases |data|
  {
    if |data| < 16 then data
    else
      XorBytes(ToBytes(DecBlock(dk, ToState(data[..16]))), iv) + Decrypted(dk, data[..16], data[16..])
  }

  lemma EncryptedStep(rk: seq<Word>, vec: seq<Byte>, d: seq<Byte>, out: nat)
    requires |rk| == WORDS && |vec| == 16 && out + 16 <= |d|
    ensures var c := ToBytes(EncBlock(rk, ToState(XorBytes(d[out..out + 16], vec))));
            Encrypted(rk, vec, d[out..]) == c + Encrypted(rk, c, d[out + 16..])
  {
    assert d[out..][..16] == d[out..out + 16] && d[out..][16..] == d[out + 16..];
  }

  lemma DecryptedStep(dk: seq<Word>, vec: seq<Byte>, d: seq<Byte>, out: nat)
    requires |dk| == WORDS && |vec| == 16 && out + 16 <= |d|
    ensures var c := d[out..out + 16];
            Decrypted(dk, vec, d[out..]) == XorBytes(ToBytes(DecBlock(dk, ToState(c))), vec) + Decrypted(dk, c, d[out + 16..])
  {
    assert d[out..][..16] == d[out..out + 16] && d[out..][16..] == d[out + 16..];
  }

  lemma ShortTail(rk: seq<Word>, dk: seq<Word>, vec: seq<Byte>, d: seq<Byte>)
    requires |rk| == WORDS && |dk| == WORDS && |vec| == 16 && |d| < 16
    ensures Encrypted(rk, vec, d) == d && Decrypted(dk, vec, d) == d
  {
  }

  lemma Chunk(a: seq<Byte>, b: seq<Byte>, c: seq<Byte>)
    ensures a + (b + c) == a + b + c
  {
  }

  /** Decryption restores every buffer, whatever the key and the initial vector. */
  lemma {:induction false} CbcRoundTrip(rk: seq<Word>, dk: seq<Word>, iv: seq<Byte>, data: seq<Byte>)
    requires Reversed(rk, dk) && |iv| == 16
    ensures Decrypted(dk, iv, Encrypted(rk, iv, data)) == data
    decreases |data|
  {
    hide EncBlock, DecBlock, ToState, ToBytes, XorBytes, RoundKey;
    if |data| >= 16 {
      var x := XorBytes(data[..16], iv);
      var c := ToBytes(EncBlock(rk, ToState(x)));
      var rest := Encrypted(rk, c, data[16..]);
      assert (c + rest)[..16] == c && (c + rest)[16..] == rest;
      CbcRoundTrip(rk, dk, c, data[16..]);
      BlockBytesRoundTrip(rk, dk, x);
      XorBytesCancel(data[..16], iv);
      assert data == data[..16] + data[16..];
    }
  }

  lemma BlockBytesRoundTrip(rk: seq<Word>, dk: seq<Word>, x: seq<Byte>)
    requires Reversed(rk, dk) && |x| == 16
    ensures ToBytes(DecBlock(dk, ToState(ToBytes(EncBlock(rk, ToState(x)))))) == x
  {
    hide DecBlock, EncBlock, RoundKey;
    StateBytes(EncBlock(rk, ToState(x)));
    BlockRoundTrip(rk, dk, ToState(x));
    BytesState(x);
  }

  // ---------------------------------------------------------------- the code

  /** Te1 ends in the S-box and the Td begin with its inverse. */
  lemma TablesInvMix(w: Word)
    ensures XorFour(Td0(Te1(w.b0).b3), Td1(Te1(w.b1).b3), Td2(Te1(w.b2).b3), Td3(Te1(w.b3).b3)) == InvMix(w)
  {
    hide Sub, InvSub, X2, X3, Ti0, Ti1, Ti2, Ti3, XorFour;
    WordSubInverse(w);
  }

  /** Word m of the schedule with the rounds taken from the end. */
  function Mirror(m: nat): (r: nat)
    requires m < WORDS
    ensures r < WORDS
  {
    4 * (14 - m / 4) + m % 4
  }

  /** The first i words and as many at the end in their final place. */
  ghost predicate Turned(enc: seq<Word>, dec: seq<Word>, i: nat) {
    |enc| == WORDS && |dec| == WORDS && i % 4 == 0 && i <= 28
    && forall m :: 0 <= m < WORDS ==> dec[m] == enc[if i <= m < 60 - i then m else Mirror(m)]
  }

  ghost predicate Swapped(was: seq<Word>, now: seq<Word>, i: nat, j: nat) {
    |was| == WORDS && |now| == WORDS && i + 4 <= j && j + 4 <= WORDS
    && forall m :: 0 <= m < WORDS ==> now[m] == was[SwapIndex(m, i, j)]
  }

  function SwapIndex(m: nat, i: nat, j: nat): (r: nat)
    requires i + 4 <= j && j + 4 <= WORDS && m < WORDS
    ensures r < WORDS
  {
    if i <= m < i + 4 then m - i + j else if j <= m < j + 4 then m - j + i else m
  }

  lemma MiddleMirror()
    ensures forall m :: 28 <= m < 32 ==> Mirror(m) == m
  {
  }

  lemma NothingTurned(enc: seq<Word>, dec: seq<Word>)
    requires |enc| == WORDS && enc == dec
    ensures Turned(enc, dec, 0)
  {
  }

  lemma TurnStep(enc: seq<Word>, was: seq<Word>, now: seq<Word>, i: nat)
    requires Turned(enc, was, i) && i < 28 && Swapped(was, now, i, 56 - i)
    ensures Turned(enc, now, i + 4)
  {
    hide Mirror, SwapIndex;
    forall m | 0 <= m < WORDS
      ensures now[m] == enc[if i + 4 <= m < 56 - i then m else Mirror(m)]
    {
      var p := SwapIndex(m, i, 56 - i);
      assert now[m] == was[p];
      assert was[p] == enc[if i <= p < 60 - i then p else Mirror(p)];
      TurnIndex(m, i);
    }
  }

  lemma TurnIndex(m: nat, i: nat)
    requires m < WORDS && i % 4 == 0 && i < 28
    ensures var p := SwapIndex(m, i, 56 - i);
            (if i <= p < 60 - i then p else Mirror(p)) == if i + 4 <= m < 56 - i then m else Mirror(m)
  {
  }

  /** dk by words instead of rounds. */
  ghost predicate MixedBack(rk: seq<Word>, dk: seq<Word>) {
    |rk| == WORDS && |dk| == WORDS
    && forall m :: 0 <= m < WORDS ==> dk[m] == if 4 <= m < 56 then InvMix(rk[Mirror(m)]) else rk[Mirror(m)]
  }

  lemma MirrorRound(r: nat)
    requires r <= 14
    ensures Mirror(4 * r) == 56 - 4 * r && Mirror(4 * r + 1) == 57 - 4 * r
    ensures Mirror(4 * r + 2) == 58 - 4 * r && Mirror(4 * r + 3) == 59 - 4 * r
  {
  }

  /** The schedules a key gives, as functions of it. */
  function KeyWords(pass: seq<Byte>): (key: seq<Word>)
    requires |pass| == 32
    ensures |key| == 8
  {
    seq(8, i requires 0 <= i < 8 => WordAt(pass, 4 * i))
  }

  function EncKeys(pass: seq<Byte>): (rk: seq<Word>)
    requires |pass| == 32
    ensures |rk| == WORDS
  {
    seq(WORDS, i requires 0 <= i < WORDS => KeyWord(KeyWords(pass), i))
  }

  function DecKeys(rk: seq<Word>): (dk: seq<Word>)
    requires |rk| == WORDS
    ensures |dk| == WORDS
    ensures MixedBack(rk, dk)
  {
    seq(WORDS, m requires 0 <= m < WORDS => if 4 <= m < 56 then InvMix(rk[Mirror(m)]) else rk[Mirror(m)])
  }

  lemma MixedBackUnique(rk: seq<Word>, dk: seq<Word>)
    requires MixedBack(rk, dk)
    ensures dk == DecKeys(rk)
  {
    hide InvMix;
  }

  lemma ExpandedUnique(pass: seq<Byte>, rk: seq<Word>)
    requires |pass| == 32 && Expanded(KeyWords(pass), rk)
    ensures rk == EncKeys(pass)
  {
    hide KeyWord;
  }

  function Vector(pass: seq<Byte>): (iv: seq<Byte>)
    requires |pass| == 32
    ensures |iv| == 16
  {
    LowNibble(pass[0]);
    var o := (pass[0] & 0xf) as nat;
    pass[o..o + 16]
  }

  lemma MixedBackReversed(rk: seq<Word>, dk: seq<Word>)
    requires MixedBack(rk, dk)
    ensures Reversed(rk, dk)
  {
    hide InvMix;
    forall r | 0 <= r <= 14
      ensures RoundKey(dk, r) == if r == 0 || r == 14 then RoundKey(rk, 14 - r) else InvMixState(RoundKey(rk, 14 - r))
    {
      hide Mirror;
      MirrorRound(r);
      assert dk[4 * r] == if 1 <= r <= 13 then InvMix(rk[56 - 4 * r]) else rk[56 - 4 * r];
      assert dk[4 * r + 1] == if 1 <= r <= 13 then InvMix(rk[57 - 4 * r]) else rk[57 - 4 * r];
      assert dk[4 * r + 2] == if 1 <= r <= 13 then InvMix(rk[58 - 4 * r]) else rk[58 - 4 * r];
      assert dk[4 * r + 3] == if 1 <= r <= 13 then InvMix(rk[59 - 4 * r]) else rk[59 - 4 * r];
    }
  }

  lemma SameTail(a: seq<Byte>, d: seq<Byte>, out: nat)
    requires |a| == |d| && out + 16 <= |a| && a[out..] == d[out..]
    ensures a[out..out + 16] == d[out..out + 16] && a[out + 16..] == d[out + 16..]
  {
    assert a[out..][..16] == d[out..][..16] && a[out..][16..] == d[out..][16..];
  }

  class Cipher {
    const encrd: array<Word>
    const decrd: array<Word>
    const iv: array<Byte>

    ghost predicate Valid()
      reads this
    {
      encrd.Length == WORDS && decrd.Length == WORDS && iv.Length == 16
      && encrd as object != decrd && encrd as object != iv && decrd as object != iv
    }

    constructor ()
      ensures Valid() && fresh(encrd) && fresh(decrd) && fresh(iv)
    {
      var zero := Word(0, 0, 0, 0);
      encrd := new Word[WORDS](_ => zero);
      decrd := new Word[WORDS](_ => zero);
      iv := new Byte[16](_ => 0);
    }

    /** The schedules for both directions and the initial vector, cut out of the
        key at an offset the key itself gives. */
    method Init(pass: seq<Byte>)
      requires Valid() && |pass| == 32
      modifies encrd, decrd, iv
      ensures encrd[..] == EncKeys(pass)
      ensures decrd[..] == DecKeys(encrd[..]) && Reversed(encrd[..], decrd[..])
      ensures iv[..] == Vector(pass)
    {
      hide KeyWords, DecKeys, EncKeys, Reversed, MixedBack, Expanded;
      var o := (pass[0] & 0xf) as nat;
      LowNibble(pass[0]);
      for n := 0 to 16
        invariant forall k :: 0 <= k < n ==> iv[k] == pass[o + k]
      {
        iv[n] := pass[o + n];
      }
      Expand(pass);
      Reverse();
      MixBack();
      ExpandedUnique(pass, encrd[..]);
      MixedBackUnique(encrd[..], decrd[..]);
      MixedBackReversed(encrd[..], decrd[..]);
      assert iv[..] == Vector(pass);
    }

    method Expand(pass: seq<Byte>)
      requires Valid() && |pass| == 32
      modifies encrd
      ensures Expanded(KeyWords(pass), encrd[..])
    {
      ghost var key := KeyWords(pass);
      for n := 0 to 8
        invariant forall k :: 0 <= k < n ==> encrd[k] == KeyWord(key, k)
      {
        encrd[n] := WordAt(pass, 4 * n);
      }
      var i, rcon: Byte := 0, 1;
      while true
        invariant 0 <= i <= 6 && rcon == Rcon(i)
        invariant forall k :: 0 <= k < 8 * i + 8 ==> encrd[k] == KeyWord(key, k)
        decreases 7 - i
      {
        FirstHalf(8 * i, rcon, key);
        i := i + 1;
        rcon := X2(rcon);
        if i == 7 { break; }
        SecondHalf(8 * (i - 1), key);
      }
    }

    /** The next word of the schedule written. */
    method Put(n: nat, w: Word, ghost key: seq<Word>)
      requires Valid() && |key| == 8 && n < WORDS && w == KeyWord(key, n)
      requires forall k :: 0 <= k < n ==> encrd[k] == KeyWord(key, k)
      modifies encrd
      ensures forall k :: 0 <= k <= n ==> encrd[k] == KeyWord(key, k)
    {
      hide KeyWord;
      encrd[n] := w;
    }

    /** Words 8..11 behind the current base, the first through the S-box,
        rotated, with the round constant. */
    method FirstHalf(b: nat, rcon: Byte, ghost key: seq<Word>)
      requires Valid() && |key| == 8 && b % 8 == 0 && b <= 48 && rcon == Rcon(b / 8)
      requires forall k :: 0 <= k < b + 8 ==> encrd[k] == KeyWord(key, k)
      modifies encrd
      ensures forall k :: 0 <= k < b + 12 ==> encrd[k] == KeyWord(key, k)
    {
      hide Sub, WXor, KeyWord, SubWord, RotWord, Rcon, Te0, Te1, Te2, Te3, Masked;
      NextWord(key, b, 0);
      NextWord(key, b, 1);
      NextWord(key, b, 2);
      NextWord(key, b, 3);
      var t := encrd[b + 7];
      TablesSub(t);
      var w := WXor(encrd[b], WXor(Masked(Te2(t.b1), Te3(t.b2), Te0(t.b3), Te1(t.b0)), Word(rcon, 0, 0, 0)));
      Put(b + 8, w, key);
      Put(b + 9, WXor(encrd[b + 1], encrd[b + 8]), key);
      Put(b + 10, WXor(encrd[b + 2], encrd[b + 9]), key);
      Put(b + 11, WXor(encrd[b + 3], encrd[b + 10]), key);
    }

    method SecondHalf(b: nat, ghost key: seq<Word>)
      requires Valid() && |key| == 8 && b % 8 == 0 && b < 48
      requires forall k :: 0 <= k < b + 12 ==> encrd[k] == KeyWord(key, k)
      modifies encrd
      ensures forall k :: 0 <= k < b + 16 ==> encrd[k] == KeyWord(key, k)
    {
      hide Sub, WXor, KeyWord, SubWord, RotWord, Rcon, Te0, Te1, Te2, Te3, Masked;
      NextWord(key, b, 4);
      NextWord(key, b, 5);
      NextWord(key, b, 6);
      NextWord(key, b, 7);
      var t := encrd[b + 11];
      TablesSub(t);
      Put(b + 12, WXor(encrd[b + 4], Masked(Te2(t.b0), Te3(t.b1), Te0(t.b2), Te1(t.b3))), key);
      Put(b + 13, WXor(encrd[b + 5], encrd[b + 12]), key);
      Put(b + 14, WXor(encrd[b + 6], encrd[b + 13]), key);
      Put(b + 15, WXor(encrd[b + 7], encrd[b + 14]), key);
    }

    method Copy()
      requires Valid()
      modifies decrd
      ensures forall m :: 0 <= m < WORDS ==> decrd[m] == encrd[m]
    {
      for n := 0 to WORDS
        invariant forall k :: 0 <= k < n ==> decrd[k] == encrd[k]
      {
        decrd[n] := encrd[n];
      }
    }

    /** The rounds copied and swapped end for end. */
    method Reverse()
      requires Valid()
      modifies decrd
      ensures Turned(encrd[..], decrd[..], 28)
    {
      hide Turned, Swapped;
      Copy();
      NothingTurned(encrd[..], decrd[..]);
      var i, j := 0, 56;
      while i < j
        invariant 0 <= i <= 28 && i % 4 == 0 && j == 56 - i
        invariant Turned(encrd[..], decrd[..], i)
      {
        ghost var was := decrd[..];
        SwapRound(i, j);
        TurnStep(encrd[..], was, decrd[..], i);
        i, j := i + 4, j - 4;
      }
    }

    method SwapRound(i: nat, j: nat)
      requires Valid() && i + 4 <= j && j + 4 <= WORDS
      modifies decrd
      ensures Swapped(old(decrd[..]), decrd[..], i, j)
    {
      for k := 0 to 4
        invariant forall m :: 0 <= m < WORDS ==>
                    decrd[m] == old(decrd[..])[if i <= m < i + k || j <= m < j + k then SwapIndex(m, i, j) else m]
      {
        decrd[i + k], decrd[j + k] := decrd[j + k], decrd[i + k];
      }
    }

    /** InvMixColumns on the inner rounds, through Td and the S-box. */
    method MixBack()
      requires Valid()
      requires Turned(encrd[..], decrd[..], 28)
      modifies decrd
      ensures MixedBack(encrd[..], decrd[..])
    {
      hide InvMix, Td0, Td1, Td2, Td3, Te1, XorFour, RoundKey, InvMixState;
      ghost var was := decrd[..];
      assert forall m :: 0 <= m < WORDS ==> was[m] == encrd[Mirror(m)] by { MiddleMirror(); }
      for i := 1 to 14
        invariant forall k :: 0 <= k < WORDS ==>
                    decrd[k] == if 4 <= k < 4 * i then InvMix(was[k]) else was[k]
      {
        for k := 0 to 4
          invariant forall m :: 0 <= m < WORDS ==>
                      decrd[m] == if 4 <= m < 4 * i + k then InvMix(was[m]) else was[m]
        {
          var w := decrd[4 * i + k];
          decrd[4 * i + k] := XorFour(Td0(Te1(w.b0).b3), Td1(Te1(w.b1).b3), Td2(Te1(w.b2).b3), Td3(Te1(w.b3).b3));
          TablesInvMix(w);
        }
      }
    }

    /** Every whole block of the buffer encrypted in place. */
    method Enc(data: array<Byte>)
      requires Valid() && data != iv && data as object != encrd && data as object != decrd
      modifies data
      ensures data[..] == Encrypted(encrd[..], iv[..], old(data[..]))
    {
      hide Encrypted, EncBlock, XorBytes, ToState, ToBytes;
      ghost var d, rk, start := data[..], encrd[..], iv[..];
      var vec := iv[..];
      var out: nat, l: int := 0, data.Length;
      assert data[..0] + Encrypted(rk, vec, d[0..]) == Encrypted(rk, start, d) by { assert d[0..] == d; }
      while l >= 16
        invariant 0 <= l && out + l == data.Length && |vec| == 16
        invariant rk == encrd[..] && start == iv[..]
        invariant data[out..] == d[out..]
        invariant Encrypted(rk, start, d) == data[..out] + Encrypted(rk, vec, d[out..])
      {
        ghost var before := data[..out];
        EncryptedStep(rk, vec, d, out);
        SameTail(data[..], d, out);
        var block := XorBytes(data[out..out + 16], vec);
        var s := EncryptBlock(ToState(block));
        vec := ToBytes(s);
        Store(data, out, vec);
        Chunk(before, vec, Encrypted(rk, vec, d[out + 16..]));
        l := l - 16;
        out := out + 16;
      }
      ShortTail(rk, rk, vec, d[out..]);
      assert data[..] == data[..out] + data[out..];
    }

    method Store(data: array<Byte>, out: nat, block: seq<Byte>)
      requires |block| == 16 && out + 16 <= data.Length
      modifies data
      ensures data[..out + 16] == old(data[..out]) + block && data[out + 16..] == old(data[out + 16..])
    {
      for n := 0 to 16
        invariant data[..out + n] == old(data[..out]) + block[..n] && data[out + n..] == old(data[out + n..])
      {
        data[out + n] := block[n];
      }
    }

    /** The fourteen rounds, two in each turn of the loop. */
    method EncryptBlock(start: State) returns (r: State)
      requires Valid()
      ensures r == EncBlock(encrd[..], start)
    {
      hide EncRound, LastEncRound, SXor;
      var s := SXor(start, RoundKey(encrd[..], 0));
      var n: nat, k: nat := 7, 0;
      var t := s;
      while true
        invariant 1 <= n <= 7 && 0 <= k && k == 14 - 2 * n && s == EncRounds(encrd[..], start, k)
        decreases n
      {
        t := EncRound(s, RoundKey(encrd[..], k + 1));
        k := k + 2;
        n := n - 1;
        if n == 0 { break; }
        s := EncRound(t, RoundKey(encrd[..], k));
      }
      r := LastEncRound(t, RoundKey(encrd[..], 14));
    }

    /** Every whole block decrypted in place, the cipher text kept for the next. */
    method Dec(data: array<Byte>)
      requires Valid() && data != iv && data as object != encrd && data as object != decrd
      modifies data
      ensures data[..] == Decrypted(decrd[..], iv[..], old(data[..]))
    {
      hide Decrypted, DecBlock, XorBytes, ToState, ToBytes;
      ghost var d, rk, start := data[..], decrd[..], iv[..];
      var vec := iv[..];
      var out: nat, l: int := 0, data.Length;
      assert data[..0] + Decrypted(rk, vec, d[0..]) == Decrypted(rk, start, d) by { assert d[0..] == d; }
      while l >= 16
        invariant 0 <= l && out + l == data.Length && |vec| == 16
        invariant rk == decrd[..] && start == iv[..]
        invariant data[out..] == d[out..]
        invariant Decrypted(rk, start, d) == data[..out] + Decrypted(rk, vec, d[out..])
      {
        ghost var before := data[..out];
        DecryptedStep(rk, vec, d, out);
        SameTail(data[..], d, out);
        var block := data[out..out + 16];
        var s := DecryptBlock(ToState(block));
        var plain := XorBytes(ToBytes(s), vec);
        Store(data, out, plain);
        vec := block;
        Chunk(before, plain, Decrypted(rk, vec, d[out + 16..]));
        l := l - 16;
        out := out + 16;
      }
      ShortTail(rk, rk, vec, d[out..]);
      assert data[..] == data[..out] + data[out..];
    }

    method DecryptBlock(start: State) returns (r: State)
      requires Valid()
      ensures r == DecBlock(decrd[..], start)
    {
      hide DecRound, LastDecRound, SXor;
      var s := SXor(start, RoundKey(decrd[..], 0));
      var n: nat, k: nat := 7, 0;
      var t := s;
      while true
        invariant 1 <= n <= 7 && 0 <= k && k == 14 - 2 * n && s == DecRounds(decrd[..], start, k)
        decreases n
      {
        t := DecRound(s, RoundKey(decrd[..], k + 1));
        k := k + 2;
        n := n - 1;
        if n == 0 { break; }
        s := DecRound(t, RoundKey(decrd[..], k));
      }
      r := LastDecRound(t, RoundKey(decrd[..], 14));
    }

    /** For every key and every buffer, decryption in place after encryption in
        place changes nothing. */
    method EncThenDec(pass: seq<Byte>, data: array<Byte>)
      requires Valid() && |pass| == 32 && data != iv && data as object != encrd && data as object != decrd
      modifies encrd, decrd, iv, data
      ensures data[..] == old(data[..])
    {
      Init(pass);
      Enc(data);
      Dec(data);
      CbcRoundTrip(encrd[..], decrd[..], iv[..], old(data[..]));
    }
  }

  lemma LowNibble(b: Byte)
    ensures b & 0xf < 16
  {
  }
}
