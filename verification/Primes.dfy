/** The first sixty-four prime numbers. */
module Primes {
  predicate Divides(d: nat, n: nat) { d > 0 && n % d == 0 }

  ghost predicate Prime(p: nat) { p >= 2 && forall d :: 2 <= d < p ==> !Divides(d, p) }

  const PRIMES: seq<nat> :=
    [2, 3, 5, 7, 11, 13, 17, 19] +
    [23, 29, 31, 37, 41, 43, 47, 53] +
    [59, 61, 67, 71, 73, 79, 83, 89] +
    [97, 101, 103, 107, 109, 113, 127, 131] +
    [137, 139, 149, 151, 157, 163, 167, 173] +
    [179, 181, 191, 193, 197, 199, 211, 223] +
    [227, 229, 233, 239, 241, 251, 257, 263] +
    [269, 271, 277, 281, 283, 293, 307, 311]

  /** No prime up to 17 divides n, except n itself. */
  predicate Trial(n: nat) {
    n >= 2 && Tried(n, 2) && Tried(n, 3) && Tried(n, 5) && Tried(n, 7) && Tried(n, 11) && Tried(n, 13) && Tried(n, 17)
  }

  predicate Tried(n: nat, p: nat)
    requires p > 0
  {
    n % p != 0 || n == p
  }


  lemma Composite(n: nat, d: nat, e: nat)
    requires 2 <= d <= e && n == d * e && n < 324
    ensures !Trial(n)
  {
    hide Trial;
    if d >= 18 {
      Large(d, e);
    }
    match d
    case 2 => Multiple(n, 2, e);
    case 3 => Multiple(n, 3, e);
    case 4 => Multiple(n, 2, 2 * e);
    case 5 => Multiple(n, 5, e);
    case 6 => Multiple(n, 2, 3 * e);
    case 7 => Multiple(n, 7, e);
    case 8 => Multiple(n, 2, 4 * e);
    case 9 => Multiple(n, 3, 3 * e);
    case 10 => Multiple(n, 2, 5 * e);
    case 11 => Multiple(n, 11, e);
    case 12 => Multiple(n, 2, 6 * e);
    case 13 => Multiple(n, 13, e);
    case 14 => Multiple(n, 2, 7 * e);
    case 15 => Multiple(n, 3, 5 * e);
    case 16 => Multiple(n, 2, 8 * e);
    case 17 => Multiple(n, 17, e);
    case _ =>
  }

  lemma Multiple(n: nat, p: nat, q: nat)
    requires q >= 2 && n == p * q && p in [2, 3, 5, 7, 11, 13, 17]
    ensures !Trial(n)
  {
    hide Tried;
    assert !Tried(n, p) by { NotTried(n, p, q); }
  }

  lemma NotTried(n: nat, p: nat, q: nat)
    requires q >= 2 && p >= 2 && n == p * q
    ensures !Tried(n, p)
  {
    var m, r := n / p, n % p;
    assert n == p * m + r;
    if m < q {
      Monotone(p, m + 1, q);
    } else if m > q {
      Monotone(p, q + 1, m);
    }
    Monotone(p, 2, q);
  }

  lemma Monotone(p: nat, a: nat, b: nat)
    requires a <= b
    ensures p * a <= p * b
  {
  }


  lemma Large(d: nat, e: nat)
    requires 18 <= d <= e
    ensures d * e >= 324
  {
  }

  lemma Untried(n: nat, d: nat)
    requires n < 324 && 2 <= d < n && Divides(d, n)
    ensures !Trial(n)
  {
    var e := n / d;
    assert n == d * e && e >= 2;
    hide Trial;
    if d <= e {
      Composite(n, d, e);
    } else {
      Composite(n, e, d);
    }
  }

  lemma Divisor(n: nat)
    requires n >= 2 && !Trial(n)
    ensures exists d :: 2 <= d < n && Divides(d, n)
  {
    var p :| p in [2, 3, 5, 7, 11, 13, 17] && !Tried(n, p);
    Smaller(n, p);
    assert Divides(p, n);
  }

  lemma Smaller(n: nat, p: nat)
    requires n > 0 && p > 0 && !Tried(n, p)
    ensures p < n
  {
  }

  /** Every number below 18 * 18 that is not prime has a divisor below 18. */
  lemma TrialDivision(n: nat)
    requires n < 324
    ensures Prime(n) <==> Trial(n)
  {
    if Trial(n) {
      forall d | 2 <= d < n
        ensures !Divides(d, n)
      {
        if Divides(d, n) {
          Untried(n, d);
        }
      }
    } else if n >= 2 {
      Divisor(n);
    }
  }

  /** No number from lo up to hi passes. */
  predicate NonePass(lo: nat, hi: nat)
    decreases hi - lo
  {
    lo >= hi || (!Trial(lo) && NonePass(lo + 1, hi))
  }

  lemma {:induction false} Fails(lo: nat, hi: nat)
    requires NonePass(lo, hi)
    ensures forall n :: lo <= n < hi ==> !Trial(n)
    decreases hi - lo
  {
    hide Trial;
    if lo < hi {
      Fails(lo + 1, hi);
    }
  }

  lemma Row0(n: nat)
    requires 0 <= n < 11
    ensures Trial(n) <==> n in [2, 3, 5, 7]
  {
    assert Trial(2) && Trial(3) && Trial(5) && Trial(7);
    Fails(0, 2);
    Fails(4, 5);
    Fails(6, 7);
    Fails(8, 11);
    hide Trial, NonePass;
  }

  lemma Row1(n: nat)
    requires 11 <= n < 23
    ensures Trial(n) <==> n in [11, 13, 17, 19]
  {
    assert Trial(11) && Trial(13) && Trial(17) && Trial(19);
    Fails(12, 13);
    Fails(14, 17);
    Fails(18, 19);
    Fails(20, 23);
    hide Trial, NonePass;
  }

  lemma Row2(n: nat)
    requires 23 <= n < 41
    ensures Trial(n) <==> n in [23, 29, 31, 37]
  {
    assert Trial(23) && Trial(29) && Trial(31) && Trial(37);
    Fails(24, 29);
    Fails(30, 31);
    Fails(32, 37);
    Fails(38, 41);
    hide Trial, NonePass;
  }

  lemma Row3(n: nat)
    requires 41 <= n < 59
    ensures Trial(n) <==> n in [41, 43, 47, 53]
  {
    assert Trial(41) && Trial(43) && Trial(47) && Trial(53);
    Fails(42, 43);
    Fails(44, 47);
    Fails(48, 53);
    Fails(54, 59);
    hide Trial, NonePass;
  }

  lemma Row4(n: nat)
    requires 59 <= n < 73
    ensures Trial(n) <==> n in [59, 61, 67, 71]
  {
    assert Trial(59) && Trial(61) && Trial(67) && Trial(71);
    Fails(60, 61);
    Fails(62, 67);
    Fails(68, 71);
    Fails(72, 73);
    hide Trial, NonePass;
  }

  lemma Row5(n: nat)
    requires 73 <= n < 97
    ensures Trial(n) <==> n in [73, 79, 83, 89]
  {
    assert Trial(73) && Trial(79) && Trial(83) && Trial(89);
    Fails(74, 79);
    Fails(80, 83);
    Fails(84, 89);
    Fails(90, 97);
    hide Trial, NonePass;
  }

  lemma Row6(n: nat)
    requires 97 <= n < 109
    ensures Trial(n) <==> n in [97, 101, 103, 107]
  {
    assert Trial(97) && Trial(101) && Trial(103) && Trial(107);
    Fails(98, 101);
    Fails(102, 103);
    Fails(104, 107);
    Fails(108, 109);
    hide Trial, NonePass;
  }

  lemma Row7(n: nat)
    requires 109 <= n < 137
    ensures Trial(n) <==> n in [109, 113, 127, 131]
  {
    assert Trial(109) && Trial(113) && Trial(127) && Trial(131);
    Fails(110, 113);
    Fails(114, 127);
    Fails(128, 131);
    Fails(132, 137);
    hide Trial, NonePass;
  }

  lemma Row8(n: nat)
    requires 137 <= n < 157
    ensures Trial(n) <==> n in [137, 139, 149, 151]
  {
    assert Trial(137) && Trial(139) && Trial(149) && Trial(151);
    Fails(138, 139);
    Fails(140, 149);
    Fails(150, 151);
    Fails(152, 157);
    hide Trial, NonePass;
  }

  lemma Row9(n: nat)
    requires 157 <= n < 179
    ensures Trial(n) <==> n in [157, 163, 167, 173]
  {
    assert Trial(157) && Trial(163) && Trial(167) && Trial(173);
    Fails(158, 163);
    Fails(164, 167);
    Fails(168, 173);
    Fails(174, 179);
    hide Trial, NonePass;
  }

  lemma Row10(n: nat)
    requires 179 <= n < 197
    ensures Trial(n) <==> n in [179, 181, 191, 193]
  {
    assert Trial(179) && Trial(181) && Trial(191) && Trial(193);
    Fails(180, 181);
    Fails(182, 191);
    Fails(192, 193);
    Fails(194, 197);
    hide Trial, NonePass;
  }

  lemma Row11(n: nat)
    requires 197 <= n < 227
    ensures Trial(n) <==> n in [197, 199, 211, 223]
  {
    assert Trial(197) && Trial(199) && Trial(211) && Trial(223);
    Fails(198, 199);
    Fails(200, 211);
    Fails(212, 223);
    Fails(224, 227);
    hide Trial, NonePass;
  }

  lemma Row12(n: nat)
    requires 227 <= n < 241
    ensures Trial(n) <==> n in [227, 229, 233, 239]
  {
    assert Trial(227) && Trial(229) && Trial(233) && Trial(239);
    Fails(228, 229);
    Fails(230, 233);
    Fails(234, 239);
    Fails(240, 241);
    hide Trial, NonePass;
  }

  lemma Row13(n: nat)
    requires 241 <= n < 269
    ensures Trial(n) <==> n in [241, 251, 257, 263]
  {
    assert Trial(241) && Trial(251) && Trial(257) && Trial(263);
    Fails(242, 251);
    Fails(252, 257);
    Fails(258, 263);
    Fails(264, 269);
    hide Trial, NonePass;
  }

  lemma Row14(n: nat)
    requires 269 <= n < 283
    ensures Trial(n) <==> n in [269, 271, 277, 281]
  {
    assert Trial(269) && Trial(271) && Trial(277) && Trial(281);
    Fails(270, 271);
    Fails(272, 277);
    Fails(278, 281);
    Fails(282, 283);
    hide Trial, NonePass;
  }

  lemma Row15(n: nat)
    requires 283 <= n < 312
    ensures Trial(n) <==> n in [283, 293, 307, 311]
  {
    assert Trial(283) && Trial(293) && Trial(307) && Trial(311);
    Fails(284, 293);
    Fails(294, 307);
    Fails(308, 311);
    hide Trial, NonePass;
  }

  lemma Listed(n: nat)
    ensures n in PRIMES
         <==> (n in [2, 3, 5, 7, 11, 13, 17, 19]
               || n in [23, 29, 31, 37, 41, 43, 47, 53]
               || n in [59, 61, 67, 71, 73, 79, 83, 89]
               || n in [97, 101, 103, 107, 109, 113, 127, 131]
               || n in [137, 139, 149, 151, 157, 163, 167, 173]
               || n in [179, 181, 191, 193, 197, 199, 211, 223]
               || n in [227, 229, 233, 239, 241, 251, 257, 263]
               || n in [269, 271, 277, 281, 283, 293, 307, 311])
  {
  }

  lemma Row(n: nat)
    requires n <= 311
    ensures Trial(n) <==> n in PRIMES
  {
    hide Trial, PRIMES;
    Listed(n);
    if n < 11 {
      Row0(n);
    } else if n < 23 {
      Row1(n);
    } else if n < 41 {
      Row2(n);
    } else if n < 59 {
      Row3(n);
    } else if n < 73 {
      Row4(n);
    } else if n < 97 {
      Row5(n);
    } else if n < 109 {
      Row6(n);
    } else if n < 137 {
      Row7(n);
    } else if n < 157 {
      Row8(n);
    } else if n < 179 {
      Row9(n);
    } else if n < 197 {
      Row10(n);
    } else if n < 227 {
      Row11(n);
    } else if n < 241 {
      Row12(n);
    } else if n < 269 {
      Row13(n);
    } else if n < 283 {
      Row14(n);
    } else {
      Row15(n);
    }
  }

  /** The table holds all the primes up to 311, in order. */
  lemma PrimesExact()
    ensures |PRIMES| == 64
    ensures forall i :: 0 < i < 64 ==> PRIMES[i - 1] < PRIMES[i]
    ensures forall p: nat :: p <= 311 ==> (Prime(p) <==> p in PRIMES)
  {
    forall p: nat | p <= 311
      ensures Prime(p) <==> p in PRIMES
    {
      hide Prime, Trial, PRIMES;
      TrialDivision(p);
      Row(p);
    }
    Increasing();
  }

  lemma Increasing()
    ensures forall i :: 0 < i < 64 ==> PRIMES[i - 1] < PRIMES[i]
  {
  }
}
