/** What the constants and the functions of the hash are, bit by bit. */
module ShaLaws {
  import opened Gf
  import opened Primes
  import opened Compression
  import opened Sha256

  // ---------------------------------------------------------------- constants

  const T64: nat := 0x1_0000_0000_0000_0000
  const T96: nat := 0x1_0000_0000_0000_0000_0000_0000

  function Square(n: nat): nat { n * n }
  function Cube(n: nat): nat { n * n * n }

  /** k is the first thirty-two bits behind the point of the cube root of p. */
  ghost predicate CubeRootBits(p: nat, k: Word) {
    exists n: nat :: n % U32 == k as nat && Cube(n) <= p * T96 < Cube(n + 1)
  }

  ghost predicate SquareRootBits(p: nat, k: Word) {
    exists n: nat :: n % U32 == k as nat && Square(n) <= p * T64 < Square(n + 1)
  }

  lemma CubeRoot(p: nat, whole: nat, k: Word)
    requires (k as nat) < U32 && Cube(whole * U32 + k as nat) <= p * T96 < Cube(whole * U32 + k as nat + 1)
    ensures CubeRootBits(p, k)
  {
    hide Cube, T96;
    Fraction(whole, k as nat);
  }

  lemma Fraction(whole: nat, k: nat)
    requires k < U32
    ensures (whole * U32 + k) % U32 == k
  {
  }

  lemma CubeRoots0()
    ensures forall i :: 0 <= i < 8 ==> CubeRootBits(PRIMES[i], K[i])
  {
    hide CubeRootBits;
    CubeRoot(2, 1, 0x428a2f98);
    CubeRoot(3, 1, 0x71374491);
    CubeRoot(5, 1, 0xb5c0fbcf);
    CubeRoot(7, 1, 0xe9b5dba5);
    CubeRoot(11, 2, 0x3956c25b);
    CubeRoot(13, 2, 0x59f111f1);
    CubeRoot(17, 2, 0x923f82a4);
    CubeRoot(19, 2, 0xab1c5ed5);
  }

  lemma CubeRoots1()
    ensures forall i :: 8 <= i < 16 ==> CubeRootBits(PRIMES[i], K[i])
  {
    hide CubeRootBits;
    CubeRoot(23, 2, 0xd807aa98);
    CubeRoot(29, 3, 0x12835b01);
    CubeRoot(31, 3, 0x243185be);
    CubeRoot(37, 3, 0x550c7dc3);
    CubeRoot(41, 3, 0x72be5d74);
    CubeRoot(43, 3, 0x80deb1fe);
    CubeRoot(47, 3, 0x9bdc06a7);
    CubeRoot(53, 3, 0xc19bf174);
  }

  lemma CubeRoots2()
    ensures forall i :: 16 <= i < 24 ==> CubeRootBits(PRIMES[i], K[i])
  {
    hide CubeRootBits;
    CubeRoot(59, 3, 0xe49b69c1);
    CubeRoot(61, 3, 0xefbe4786);
    CubeRoot(67, 4, 0x0fc19dc6);
    CubeRoot(71, 4, 0x240ca1cc);
    CubeRoot(73, 4, 0x2de92c6f);
    CubeRoot(79, 4, 0x4a7484aa);
    CubeRoot(83, 4, 0x5cb0a9dc);
    CubeRoot(89, 4, 0x76f988da);
  }

  lemma CubeRoots3()
    ensures forall i :: 24 <= i < 32 ==> CubeRootBits(PRIMES[i], K[i])
  {
    hide CubeRootBits;
    CubeRoot(97, 4, 0x983e5152);
    CubeRoot(101, 4, 0xa831c66d);
    CubeRoot(103, 4, 0xb00327c8);
    CubeRoot(107, 4, 0xbf597fc7);
    CubeRoot(109, 4, 0xc6e00bf3);
    CubeRoot(113, 4, 0xd5a79147);
    CubeRoot(127, 5, 0x06ca6351);
    CubeRoot(131, 5, 0x14292967);
  }

  lemma CubeRoots4()
    ensures forall i :: 32 <= i < 40 ==> CubeRootBits(PRIMES[i], K[i])
  {
    hide CubeRootBits;
    CubeRoot(137, 5, 0x27b70a85);
    CubeRoot(139, 5, 0x2e1b2138);
    CubeRoot(149, 5, 0x4d2c6dfc);
    CubeRoot(151, 5, 0x53380d13);
    CubeRoot(157, 5, 0x650a7354);
    CubeRoot(163, 5, 0x766a0abb);
    CubeRoot(167, 5, 0x81c2c92e);
    CubeRoot(173, 5, 0x92722c85);
  }

  lemma CubeRoots5()
    ensures forall i :: 40 <= i < 48 ==> CubeRootBits(PRIMES[i], K[i])
  {
    hide CubeRootBits;
    CubeRoot(179, 5, 0xa2bfe8a1);
    CubeRoot(181, 5, 0xa81a664b);
    CubeRoot(191, 5, 0xc24b8b70);
    CubeRoot(193, 5, 0xc76c51a3);
    CubeRoot(197, 5, 0xd192e819);
    CubeRoot(199, 5, 0xd6990624);
    CubeRoot(211, 5, 0xf40e3585);
    CubeRoot(223, 6, 0x106aa070);
  }

  lemma CubeRoots6()
    ensures forall i :: 48 <= i < 56 ==> CubeRootBits(PRIMES[i], K[i])
  {
    hide CubeRootBits;
    CubeRoot(227, 6, 0x19a4c116);
    CubeRoot(229, 6, 0x1e376c08);
    CubeRoot(233, 6, 0x2748774c);
    CubeRoot(239, 6, 0x34b0bcb5);
    CubeRoot(241, 6, 0x391c0cb3);
    CubeRoot(251, 6, 0x4ed8aa4a);
    CubeRoot(257, 6, 0x5b9cca4f);
    CubeRoot(263, 6, 0x682e6ff3);
  }

  lemma CubeRoots7()
    ensures forall i :: 56 <= i < 64 ==> CubeRootBits(PRIMES[i], K[i])
  {
    hide CubeRootBits;
    CubeRoot(269, 6, 0x748f82ee);
    CubeRoot(271, 6, 0x78a5636f);
    CubeRoot(277, 6, 0x84c87814);
    CubeRoot(281, 6, 0x8cc70208);
    CubeRoot(283, 6, 0x90befffa);
    CubeRoot(293, 6, 0xa4506ceb);
    CubeRoot(307, 6, 0xbef9a3f7);
    CubeRoot(311, 6, 0xc67178f2);
  }

  /** The round constants: section 4.2.2 of FIPS 180-4. */
  lemma ConstantsAreCubeRoots(i: nat)
    requires i < 64
    ensures CubeRootBits(PRIMES[i], K[i])
  {
    hide CubeRootBits, K, PRIMES;
    CubeRoots0();
    CubeRoots1();
    CubeRoots2();
    CubeRoots3();
    CubeRoots4();
    CubeRoots5();
    CubeRoots6();
    CubeRoots7();
  }

  lemma SquareRoot(p: nat, whole: nat, k: Word)
    requires (k as nat) < U32 && Square(whole * U32 + k as nat) <= p * T64 < Square(whole * U32 + k as nat + 1)
    ensures SquareRootBits(p, k)
  {
    hide Square, T64;
    Fraction(whole, k as nat);
  }

  /** The initial hash value: section 5.3.3 of FIPS 180-4. */
  lemma StartIsSquareRoots()
    ensures SquareRootBits(PRIMES[0], H0.a) && SquareRootBits(PRIMES[1], H0.b)
    ensures SquareRootBits(PRIMES[2], H0.c) && SquareRootBits(PRIMES[3], H0.d)
    ensures SquareRootBits(PRIMES[4], H0.e) && SquareRootBits(PRIMES[5], H0.f)
    ensures SquareRootBits(PRIMES[6], H0.g) && SquareRootBits(PRIMES[7], H0.h)
  {
    hide SquareRootBits;
    SquareRoot(2, 1, 0x6a09e667);
    SquareRoot(3, 1, 0xbb67ae85);
    SquareRoot(5, 2, 0x3c6ef372);
    SquareRoot(7, 2, 0xa54ff53a);
    SquareRoot(11, 3, 0x510e527f);
    SquareRoot(13, 3, 0x9b05688c);
    SquareRoot(17, 4, 0x1f83d9ab);
    SquareRoot(19, 4, 0x5be0cd19);
  }

  // ---------------------------------------------------------------- bits

  /** Bit j of a word, the least significant being bit 0. */
  predicate Bit(x: Word, j: Word)
    requires j < 32
  {
    (x >> j) & 1 == 1
  }

  lemma Rotated(x: Word, r: Word, n: Word, j: Word)
    requires 0 < n < 32 && j < 32 && r == (x >> n) | (x << (32 - n))
    ensures Bit(r, j) == Bit(x, (j + n) % 32)
  {
  }

  lemma RotRIs(x: Word, n: Word)
    requires 0 < n < 32
    ensures RotR(x, n) == (x >> n) | (x << (32 - n))
  {
  }

  lemma RotBits(x: Word, n: Word, j: Word)
    requires 0 < n < 32 && j < 32
    ensures Bit(RotR(x, n), j) == Bit(x, (j + n) % 32)
  {
    hide *;
    RotRIs(x, n);
    Rotated(x, RotR(x, n), n, j);
  }

  function Ones(p: bool, q: bool, r: bool): nat {
    (if p then 1 else 0) + (if q then 1 else 0) + (if r then 1 else 0)
  }

  /** Whether an odd number of the three holds. */
  predicate Odd(p: bool, q: bool, r: bool) { Ones(p, q, r) % 2 == 1 }

  lemma Choice(r: Word, x: Word, y: Word, z: Word, j: Word)
    requires j < 32 && r == (x & y) ^ (!x & z)
    ensures Bit(r, j) == if Bit(x, j) then Bit(y, j) else Bit(z, j)
  {
  }

  lemma Majority(r: Word, x: Word, y: Word, z: Word, j: Word)
    requires j < 32 && r == (x & y) ^ (x & z) ^ (y & z)
    ensures Bit(r, j) == (Ones(Bit(x, j), Bit(y, j), Bit(z, j)) >= 2)
  {
  }

  lemma Parity(r: Word, x: Word, y: Word, z: Word, j: Word)
    requires j < 32 && r == x ^ y ^ z
    ensures Bit(r, j) == Odd(Bit(x, j), Bit(y, j), Bit(z, j))
  {
  }

  lemma Shifted(x: Word, r: Word, n: Word, j: Word)
    requires n < 32 && j < 32 && r == x >> n
    ensures Bit(r, j) == (j + n < 32 && Bit(x, j + n))
  {
  }

  function Shift(x: Word, n: Word): Word
    requires n < 32
  {
    x >> n
  }

  lemma ShiftIs(x: Word, n: Word)
    requires n < 32
    ensures Shift(x, n) == x >> n
  {
  }

  lemma ShiftBits(x: Word, n: Word, j: Word)
    requires n < 32 && j < 32
    ensures Bit(Shift(x, n), j) == (j + n < 32 && Bit(x, j + n))
  {
    hide *;
    ShiftIs(x, n);
    Shifted(x, Shift(x, n), n, j);
  }

  lemma Bodies(x: Word, y: Word, z: Word)
    ensures Ch(x, y, z) == (x & y) ^ (!x & z) && Maj(x, y, z) == (x & y) ^ (x & z) ^ (y & z)
  {
  }

  /** The choice follows the bit of x. */
  lemma ChBits(x: Word, y: Word, z: Word, j: Word)
    requires j < 32
    ensures Bit(Ch(x, y, z), j) == if Bit(x, j) then Bit(y, j) else Bit(z, j)
  {
    hide *;
    Bodies(x, y, z);
    Choice(Ch(x, y, z), x, y, z, j);
  }

  lemma MajBits(x: Word, y: Word, z: Word, j: Word)
    requires j < 32
    ensures Bit(Maj(x, y, z), j) == (Ones(Bit(x, j), Bit(y, j), Bit(z, j)) >= 2)
  {
    hide *;
    Bodies(x, y, z);
    Majority(Maj(x, y, z), x, y, z, j);
  }

  lemma Ep0Is(x: Word)
    ensures Ep0(x) == RotR(x, 2) ^ RotR(x, 13) ^ RotR(x, 22)
  {
    hide RotR;
  }

  lemma Ep0Parity(x: Word, j: Word)
    requires j < 32
    ensures Bit(Ep0(x), j) == Odd(Bit(RotR(x, 2), j), Bit(RotR(x, 13), j), Bit(RotR(x, 22), j))
  {
    hide *;
    Ep0Is(x);
    Parity(Ep0(x), RotR(x, 2), RotR(x, 13), RotR(x, 22), j);
  }

  lemma Ep0Bits(x: Word, j: Word)
    requires j < 32
    ensures Bit(Ep0(x), j) == Odd(Bit(x, (j + 2) % 32), Bit(x, (j + 13) % 32), Bit(x, (j + 22) % 32))
  {
    hide *;
    Ep0Parity(x, j);
    RotBits(x, 2, j);
    RotBits(x, 13, j);
    RotBits(x, 22, j);
  }

  lemma Ep1Is(x: Word)
    ensures Ep1(x) == RotR(x, 6) ^ RotR(x, 11) ^ RotR(x, 25)
  {
    hide RotR;
  }

  lemma Ep1Parity(x: Word, j: Word)
    requires j < 32
    ensures Bit(Ep1(x), j) == Odd(Bit(RotR(x, 6), j), Bit(RotR(x, 11), j), Bit(RotR(x, 25), j))
  {
    hide *;
    Ep1Is(x);
    Parity(Ep1(x), RotR(x, 6), RotR(x, 11), RotR(x, 25), j);
  }

  lemma Ep1Bits(x: Word, j: Word)
    requires j < 32
    ensures Bit(Ep1(x), j) == Odd(Bit(x, (j + 6) % 32), Bit(x, (j + 11) % 32), Bit(x, (j + 25) % 32))
  {
    hide *;
    Ep1Parity(x, j);
    RotBits(x, 6, j);
    RotBits(x, 11, j);
    RotBits(x, 25, j);
  }

  lemma Sig0Is(x: Word)
    ensures Sig0(x) == RotR(x, 7) ^ RotR(x, 18) ^ Shift(x, 3)
  {
    hide RotR;
  }

  lemma Sig0Parity(x: Word, j: Word)
    requires j < 32
    ensures Bit(Sig0(x), j) == Odd(Bit(RotR(x, 7), j), Bit(RotR(x, 18), j), Bit(Shift(x, 3), j))
  {
    hide *;
    Sig0Is(x);
    Parity(Sig0(x), RotR(x, 7), RotR(x, 18), Shift(x, 3), j);
  }

  lemma Sig0Bits(x: Word, j: Word)
    requires j < 32
    ensures Bit(Sig0(x), j) == Odd(Bit(x, (j + 7) % 32), Bit(x, (j + 18) % 32), j + 3 < 32 && Bit(x, j + 3))
  {
    hide *;
    Sig0Parity(x, j);
    RotBits(x, 7, j);
    RotBits(x, 18, j);
    ShiftBits(x, 3, j);
  }

  lemma Sig1Is(x: Word)
    ensures Sig1(x) == RotR(x, 17) ^ RotR(x, 19) ^ Shift(x, 10)
  {
    hide RotR;
  }

  lemma Sig1Parity(x: Word, j: Word)
    requires j < 32
    ensures Bit(Sig1(x), j) == Odd(Bit(RotR(x, 17), j), Bit(RotR(x, 19), j), Bit(Shift(x, 10), j))
  {
    hide *;
    Sig1Is(x);
    Parity(Sig1(x), RotR(x, 17), RotR(x, 19), Shift(x, 10), j);
  }

  lemma Sig1Bits(x: Word, j: Word)
    requires j < 32
    ensures Bit(Sig1(x), j) == Odd(Bit(x, (j + 17) % 32), Bit(x, (j + 19) % 32), j + 10 < 32 && Bit(x, j + 10))
  {
    hide *;
    Sig1Parity(x, j);
    RotBits(x, 17, j);
    RotBits(x, 19, j);
    ShiftBits(x, 10, j);
  }

  // ---------------------------------------------------------------- words

  /** Addition wraps at 2^32. */
  lemma PlusWraps(x: Word, y: Word)
    ensures Plus(x, y) as bv64 == (x as bv64 + y as bv64) % 0x1_0000_0000
  {
  }

  function Spelled(a: Word, b: Word, c: Word, d: Word): Word { a * 0x100_0000 + b * 0x1_0000 + c * 0x100 + d }

  lemma JoinIs(a: Byte, b: Byte, c: Byte, d: Byte)
    ensures Join(a, b, c, d) == Spelled(a as Word, b as Word, c as Word, d as Word)
  {
  }

  lemma WordBytesJoin(a: Byte, b: Byte, c: Byte, d: Byte)
    ensures WordBytes(Join(a, b, c, d)) == [a, b, c, d]
  {
  }

  lemma BytesOfWord(w: Word)
    ensures var b := WordBytes(w);
            w == Join(b[0], b[1], b[2], b[3])
  {
  }

  lemma PlusIs(x: Word, y: Word)
    ensures Plus(x, y) == x + y
  {
  }

  lemma OneMore(a: Word, h: Word, q: Word, c: Word)
    requires a == h + q
    ensures Plus(a, c) == h + q + c
  {
  }

  lemma TwoMore(a: Word, h: Word, q: Word, c: Word, k: Word)
    requires a == h + q + c
    ensures Plus(a, k) == h + q + c + k
  {
  }

  lemma ThreeMore(a: Word, h: Word, q: Word, c: Word, k: Word, m: Word)
    requires a == h + q + c + k
    ensures Plus(a, m) == h + q + c + k + m
  {
  }

  lemma ThreeSum(h: Word, q: Word, c: Word)
    ensures Plus(Plus(h, q), c) == h + q + c
  {
    hide *;
    PlusIs(h, q);
    OneMore(Plus(h, q), h, q, c);
  }

  lemma FourSum(h: Word, q: Word, c: Word, k: Word)
    ensures Plus(Plus(Plus(h, q), c), k) == h + q + c + k
  {
    hide *;
    ThreeSum(h, q, c);
    TwoMore(Plus(Plus(h, q), c), h, q, c, k);
  }

  lemma FiveSum(h: Word, q: Word, c: Word, k: Word, m: Word)
    ensures Plus(Plus(Plus(Plus(h, q), c), k), m) == h + q + c + k + m
  {
    hide *;
    FourSum(h, q, c, k);
    ThreeMore(Plus(Plus(Plus(h, q), c), k), h, q, c, k, m);
  }

  function Sum5(h: Word, q: Word, c: Word, k: Word, m: Word): Word { h + q + c + k + m }
  function Sum2(x: Word, y: Word): Word { x + y }

  lemma SumsAre(h: Word, q: Word, c: Word, k: Word, m: Word, r: Word)
    requires r == h + q + c + k + m
    ensures r == Sum5(h, q, c, k, m)
  {
  }

  lemma T1Is(h: Word, q: Word, c: Word, k: Word, m: Word)
    ensures Plus(Plus(Plus(Plus(h, q), c), k), m) == Sum5(h, q, c, k, m)
  {
    hide *;
    FiveSum(h, q, c, k, m);
    SumsAre(h, q, c, k, m, Plus(Plus(Plus(Plus(h, q), c), k), m));
  }

  lemma T2Is(x: Word, y: Word)
    ensures Plus(x, y) == Sum2(x, y)
  {
  }

  lemma RoundBody(w: Work, k: Word, m: Word)
    ensures var r, t := Round(w, k, m), Plus(Plus(Plus(Plus(w.h, Ep1(w.e)), Ch(w.e, w.f, w.g)), k), m);
            r == Work(Plus(t, Plus(Ep0(w.a), Maj(w.a, w.b, w.c))), w.a, w.b, w.c, Plus(w.d, t), w.e, w.f, w.g)
  {
    hide Ep0, Ep1, Ch, Maj, Plus;
  }

  /** A round moves six variables on and makes two new ones, from sums modulo
      2^32: section 6.2.2 of FIPS 180-4. */
  lemma RoundIs(w: Work, k: Word, m: Word)
    ensures var r := Round(w, k, m);
            var t1, t2 := Sum5(w.h, Ep1(w.e), Ch(w.e, w.f, w.g), k, m), Sum2(Ep0(w.a), Maj(w.a, w.b, w.c));
            && r.a == Sum2(t1, t2) && r.e == Sum2(w.d, t1)
            && r.b == w.a && r.c == w.b && r.d == w.c && r.f == w.e && r.g == w.f && r.h == w.g
  {
    hide *;
    RoundBody(w, k, m);
    var t1, t2 := Sum5(w.h, Ep1(w.e), Ch(w.e, w.f, w.g), k, m), Sum2(Ep0(w.a), Maj(w.a, w.b, w.c));
    T1Is(w.h, Ep1(w.e), Ch(w.e, w.f, w.g), k, m);
    T2Is(Ep0(w.a), Maj(w.a, w.b, w.c));
    T2Is(t1, t2);
    T2Is(w.d, t1);
  }

  // ---------------------------------------------------------------- padding

  function Power256(i: nat): (p: nat)
    ensures p > 0
  {
    if i == 0 then 1 else 0x100 * Power256(i - 1)
  }

  /** The byte of n that weighs 256 to the power i. */
  function ByteOf(n: nat, i: nat): Byte { (n / Power256(i) % 0x100) as Byte }

  lemma Nested(n: nat)
    ensures n / U32 / 0x100 == n / (U32 * 0x100)
    ensures n / U32 / 0x1_0000 == n / (U32 * 0x1_0000)
    ensures n / U32 / 0x100_0000 == n / (U32 * 0x100_0000)
  {
  }

  lemma Low(n: nat)
    ensures n % U32 / 0x100 == n / 0x100 - n / U32 * 0x100_0000
    ensures n % U32 / 0x1_0000 == n / 0x1_0000 - n / U32 * 0x1_0000
    ensures n % U32 / 0x100_0000 == n / 0x100_0000 - n / U32 * 0x100
    ensures n % U32 == n - n / U32 * U32
  {
  }

  lemma Same(a: int, k: int, v: int)
    requires v % 0x100 == 0
    ensures (a - k * v) % 0x100 == a % 0x100
  {
    var u := v / 0x100;
    assert k * v == 0x100 * (k * u) by { assert v == 0x100 * u; }
  }

  lemma Powers()
    ensures Power256(0) == 1 && Power256(1) == 0x100 && Power256(2) == 0x1_0000 && Power256(3) == 0x100_0000 && Power256(4) == U32
    ensures Power256(5) == U32 * 0x100 && Power256(6) == U32 * 0x1_0000 && Power256(7) == U32 * 0x100_0000
  {
  }

  lemma LowBytes(n: nat)
    ensures Big32(n % U32) == [ByteOf(n, 3), ByteOf(n, 2), ByteOf(n, 1), ByteOf(n, 0)]
  {
    hide Power256;
    Powers();
    LowDigits(n);
  }

  lemma LowDigits(n: nat)
    ensures n % U32 / 0x100_0000 % 0x100 == n / 0x100_0000 % 0x100 && n % U32 / 0x1_0000 % 0x100 == n / 0x1_0000 % 0x100
    ensures n % U32 / 0x100 % 0x100 == n / 0x100 % 0x100 && n % U32 % 0x100 == n % 0x100
  {
    Low(n);
    Same(n / 0x100_0000, n / U32, 0x100);
    Same(n / 0x1_0000, n / U32, 0x1_0000);
    Same(n / 0x100, n / U32, 0x100_0000);
    Same(n, n / U32, U32);
  }

  lemma HighBytes(n: nat)
    ensures Big32(n / U32) == [ByteOf(n, 7), ByteOf(n, 6), ByteOf(n, 5), ByteOf(n, 4)]
  {
    hide Power256;
    Powers();
    Nested(n);
  }

  function Bytes8(n: nat): seq<Byte> {
    [ByteOf(n, 7), ByteOf(n, 6), ByteOf(n, 5), ByteOf(n, 4), ByteOf(n, 3), ByteOf(n, 2), ByteOf(n, 1), ByteOf(n, 0)]
  }

  lemma LengthBytes(m: seq<Byte>)
    ensures Length(m) == Bytes8(8 * |m| % U64)
  {
    hide Big32, ByteOf;
    LowBytes(8 * |m| % U64);
    HighBytes(8 * |m| % U64);
  }

  /** Section 5.1.1 of FIPS 180-4: one bit, as few zeros as fill the last block,
      and the length in bits. */
  lemma PaddingIs(m: seq<Byte>)
    ensures var p := Padded(m);
            && |m| + 9 <= |p| < |m| + 73 && |p| % 64 == 0
            && p[..|m|] == m && p[|m|] == 0x80
            && (forall i :: |m| < i < |p| - 8 ==> p[i] == 0)
            && p[|p| - 8..] == Bytes8(8 * |m| % U64)
  {
    hide Big64, Gap, Bytes8;
    PaddedWhole(m);
    LengthBytes(m);
  }
}
