/** Bytes as elements of GF(2^8). */
module Gf {
  type Byte = bv8

  // ---------------------------------------------------------------- addition

  function Xor(a: Byte, b: Byte): Byte { a ^ b }

  lemma XorAssoc(a: Byte, b: Byte, c: Byte)
    ensures Xor(Xor(a, b), c) == Xor(a, Xor(b, c))
  {
  }

  lemma XorComm(a: Byte, b: Byte)
    ensures Xor(a, b) == Xor(b, a)
  {
  }

  lemma XorSwap(a: Byte, b: Byte, c: Byte, d: Byte)
    ensures Xor(Xor(a, b), Xor(c, d)) == Xor(Xor(a, c), Xor(b, d))
  {
    hide Xor;
    XorAssoc(a, b, Xor(c, d));
    XorAssoc(b, c, d);
    XorComm(b, c);
    XorAssoc(c, b, d);
    XorAssoc(a, c, Xor(b, d));
  }

  lemma XorCancel(a: Byte, b: Byte)
    ensures Xor(Xor(a, b), b) == a && Xor(a, b) == Xor(b, a)
    ensures Xor(a, 0) == a && Xor(0, a) == a
  {
  }

  // ---------------------------------------------------------------- multiplication

  /** Multiplication by x, section 4.2.1 of FIPS 197. */
  function X2(b: Byte): Byte {
    var t := b >> 7;
    (b << 1) ^ t ^ (t << 1) ^ (t << 3) ^ (t << 4)
  }

  lemma X2Reduces(b: Byte)
    ensures X2(b) == (b << 1) ^ (if b & 0x80 != 0 then 0x1b else 0)
  {
  }

  function X4(b: Byte): Byte { X2(X2(b)) }
  function X8(b: Byte): Byte { X2(X4(b)) }
  function X3(b: Byte): Byte { Xor(X2(b), b) }
  function X9(b: Byte): Byte { Xor(X8(b), b) }
  function X11(b: Byte): Byte { Xor(X9(b), X2(b)) }
  function X13(b: Byte): Byte { Xor(X9(b), X4(b)) }
  function X14(b: Byte): Byte { Xor(Xor(X8(b), X4(b)), X2(b)) }

  lemma X2Linear(x: Byte, y: Byte)
    ensures X2(Xor(x, y)) == Xor(X2(x), X2(y))
  {
  }

  lemma X4Linear(x: Byte, y: Byte)
    ensures X4(Xor(x, y)) == Xor(X4(x), X4(y))
  {
    hide X2, Xor;
    X2Linear(x, y);
    X2Linear(X2(x), X2(y));
  }

  lemma X8Linear(x: Byte, y: Byte)
    ensures X8(Xor(x, y)) == Xor(X8(x), X8(y))
  {
    hide X2, X4, Xor;
    X4Linear(x, y);
    X2Linear(X4(x), X4(y));
  }

  lemma X9Linear(x: Byte, y: Byte)
    ensures X9(Xor(x, y)) == Xor(X9(x), X9(y))
  {
    hide X8, Xor;
    X8Linear(x, y);
    XorSwap(X8(x), X8(y), x, y);
  }

  lemma X11Linear(x: Byte, y: Byte)
    ensures X11(Xor(x, y)) == Xor(X11(x), X11(y))
  {
    hide X2, X9, Xor;
    X9Linear(x, y);
    X2Linear(x, y);
    XorSwap(X9(x), X9(y), X2(x), X2(y));
  }

  lemma X13Linear(x: Byte, y: Byte)
    ensures X13(Xor(x, y)) == Xor(X13(x), X13(y))
  {
    hide X4, X9, Xor;
    X9Linear(x, y);
    X4Linear(x, y);
    XorSwap(X9(x), X9(y), X4(x), X4(y));
  }

  lemma X14Linear(x: Byte, y: Byte)
    ensures X14(Xor(x, y)) == Xor(X14(x), X14(y))
  {
    hide X2, X4, X8, Xor;
    X8Linear(x, y);
    X4Linear(x, y);
    X2Linear(x, y);
    XorSwap(X8(x), X8(y), X4(x), X4(y));
    XorSwap(Xor(X8(x), X4(x)), Xor(X8(y), X4(y)), X2(x), X2(y));
  }
}
