/** The compact form of big numbers, legacy/src/bignum.h: one byte of exponent, a sign bit and 23 bits of mantissa. */
module Compact {

  // -------------------------------------------------------------------------
  // Shifts by whole bytes
  // -------------------------------------------------------------------------

  function NumBytes(n: nat): nat {
    if n == 0 then 0 else 1 + NumBytes(n / 256)
  }

  function Shl(n: nat, k: nat): nat {
    if k == 0 then n else 256 * Shl(n, k - 1)
  }

  function Shr(n: nat, k: nat): nat {
    if k == 0 then n else Shr(n / 256, k - 1)
  }

  lemma {:induction false} ShrOfShl(n: nat, k: nat, j: nat)
    requires j <= k
    ensures Shr(Shl(n, k), j) == Shl(n, k - j)
  {
    if j > 0 {
      assert Shl(n, k) / 256 == Shl(n, k - 1);
      ShrOfShl(n, k - 1, j - 1);
    }
  }

  lemma {:induction false} BytesOfShl(n: nat, k: nat)
    requires n > 0
    ensures Shl(n, k) > 0 && NumBytes(Shl(n, k)) == NumBytes(n) + k
  {
    if k > 0 {
      BytesOfShl(n, k - 1);
      assert Shl(n, k) / 256 == Shl(n, k - 1);
    }
  }

  lemma {:induction false} BytesOfShr(n: nat, k: nat)
    requires k <= NumBytes(n)
    ensures NumBytes(Shr(n, k)) == NumBytes(n) - k
  {
    if k > 0 {
      BytesOfShr(n / 256, k - 1);
    }
  }

  lemma {:induction false} ShlOfShr(n: nat, k: nat)
    ensures Shl(Shr(n, k), k) <= n < Shl(Shr(n, k), k) + Shl(1, k)
  {
    if k > 0 {
      ShlOfShr(n / 256, k - 1);
    }
  }

  lemma {:induction false} ShrOnce(n: nat, k: nat)
    ensures Shr(n, k) / 256 == Shr(n, k + 1)
  {
    if k > 0 {
      ShrOnce(n / 256, k - 1);
    }
  }

  lemma {:induction false} ShrMonotone(a: nat, b: nat, k: nat)
    requires a <= b
    ensures Shr(a, k) <= Shr(b, k)
  {
    if k > 0 {
      ShrMonotone(a / 256, b / 256, k - 1);
    }
  }

  lemma {:induction false} ShlMonotone(a: nat, b: nat, k: nat)
    requires a <= b
    ensures Shl(a, k) <= Shl(b, k)
  {
    if k > 0 {
      ShlMonotone(a, b, k - 1);
    }
  }

  lemma {:induction false} BytesMonotone(a: nat, b: nat)
    requires a <= b
    ensures NumBytes(a) <= NumBytes(b)
  {
    if a > 0 {
      BytesMonotone(a / 256, b / 256);
    }
  }

  lemma {:induction false} ShlScales(c: nat, k: nat)
    ensures Shl(0x8000, k) == 0x8000 * Shl(1, k)
    ensures Shl(c, k) >= c
  {
    if k > 0 {
      ShlScales(c, k - 1);
    }
  }

  lemma ThreeBytes(w: nat)
    ensures NumBytes(w) == 3 <==> 0x1_0000 <= w < 0x100_0000
    ensures NumBytes(w) == 2 <==> 0x100 <= w < 0x1_0000
  {
    var a := w / 256;
    var b := a / 256;
    var c := b / 256;
    assert NumBytes(c) == 0 <==> c == 0;
    assert b > 0 ==> NumBytes(b) == 1 + NumBytes(c);
    assert a > 0 ==> NumBytes(a) == 1 + NumBytes(b);
    assert w > 0 ==> NumBytes(w) == 1 + NumBytes(a);
  }

  // -------------------------------------------------------------------------
  // The two conversions
  // -------------------------------------------------------------------------

  function Abs(n: int): nat { if n < 0 then -n else n }

  /** The three most significant bytes. */
  function Word(n: nat): nat {
    var size := NumBytes(n);
    if size <= 3 then Shl(n, 3 - size) else Shr(n, size - 3)
  }

  /** If the sign bit's place is taken, the mantissa gives way. */
  function Mantissa(n: nat): nat {
    if Word(n) >= 0x80_0000 then Word(n) / 256 else Word(n)
  }

  function Exponent(n: nat): nat {
    if Word(n) >= 0x80_0000 then NumBytes(n) + 1 else NumBytes(n)
  }

  /** The exponent byte holds eight bits. */
  function ToCompact(n: int): nat {
    Mantissa(Abs(n)) + (Exponent(Abs(n)) % 256) * 0x100_0000 + (if n < 0 then 0x80_0000 else 0)
  }

  function Magnitude(size: nat, word: nat): nat {
    if size <= 3 then Shr(word, 3 - size) else Shl(word, size - 3)
  }

  function FromCompact(c: nat): int {
    var magnitude := Magnitude(c / 0x100_0000, c % 0x80_0000);
    if c / 0x80_0000 % 2 == 1 then 0 - magnitude else magnitude
  }

  // -------------------------------------------------------------------------
  // Results
  // -------------------------------------------------------------------------

  lemma WordIs(n: nat)
    requires n > 0
    ensures 0x1_0000 <= Word(n) < 0x100_0000
  {
    var size := NumBytes(n);
    if size <= 3 {
      BytesOfShl(n, 3 - size);
    } else {
      BytesOfShr(n, size - 3);
    }
    ThreeBytes(Word(n));
  }

  lemma MantissaIs(n: nat)
    ensures Mantissa(n) < 0x80_0000
    ensures n > 0 ==> Mantissa(n) >= 0x8000
    ensures n > 0 ==> (Mantissa(n) < 0x1_0000 <==> Word(n) >= 0x80_0000)
  {
    if n > 0 {
      WordIs(n);
    } else {
      assert Shl(0, 3) == 0;
    }
  }

  lemma Fields(m: nat, e: nat, s: nat)
    requires m < 0x80_0000 && s <= 1
    ensures var c := m + e * 0x100_0000 + s * 0x80_0000;
      c / 0x100_0000 == e && c % 0x80_0000 == m && c / 0x80_0000 % 2 == s
  {
    var c := m + e * 0x100_0000 + s * 0x80_0000;
    assert c / 0x80_0000 == 2 * e + s;
  }

  /** A non-negative number never sets the sign bit, and its exponent and mantissa can be read off. */
  lemma CompactFields(n: nat)
    requires Exponent(n) <= 255
    ensures ToCompact(n) < 0x1_0000_0000
    ensures ToCompact(n) / 0x80_0000 % 2 == 0
    ensures ToCompact(n) / 0x100_0000 == Exponent(n) && ToCompact(n) % 0x80_0000 == Mantissa(n)
  {
    MantissaIs(n);
    Fields(Mantissa(n), Exponent(n), 0);
  }

  /** What is lost are the bytes below the mantissa. */
  lemma RoundTripIs(n: nat)
    requires Exponent(n) <= 255 && n > 0
    ensures var e := Exponent(n);
      FromCompact(ToCompact(n)) == if e <= 3 then n else Shl(Shr(n, e - 3), e - 3)
    ensures Exponent(n) > 3 ==> Mantissa(n) == Shr(n, Exponent(n) - 3)
    ensures Exponent(n) <= 3 ==> Mantissa(n) == Shl(n, 3 - Exponent(n))
  {
    CompactFields(n);
    var size, e := NumBytes(n), Exponent(n);
    if size <= 3 {
      if e == size {
        ShrOfShl(n, 3 - size, 3 - size);
      } else if size <= 2 {
        assert Shl(n, 3 - size) / 256 == Shl(n, 2 - size);
        ShrOfShl(n, 2 - size, 2 - size);
      } else {
        assert Shr(n, 1) == n / 256;
      }
    } else {
      ShrOnce(n, size - 3);
    }
  }

  /** Going to the compact form and back never increases a number and loses less than one part in 2^15. */
  lemma RoundTripError(n: nat)
    requires Exponent(n) <= 255 && n > 0
    ensures var r := FromCompact(ToCompact(n)); 0 < r <= n && (n - r) * 0x8000 < n
  {
    RoundTripIs(n);
    MantissaIs(n);
    var e := Exponent(n);
    if e > 3 {
      var k := e - 3;
      ShlOfShr(n, k);
      ShlScales(Shr(n, k), k);
      ShlMonotone(0x8000, Shr(n, k), k);
    }
  }

  lemma ZeroRoundTrip()
    ensures ToCompact(0) == 0 && FromCompact(0) == 0
  {
    assert Shl(0, 3) == 0 && Shr(0, 3) == 0;
  }

  /** Numbers of the form `w` followed by `k` zero bytes. */
  lemma CompactOfShl(w: nat, k: nat)
    requires 0x8000 <= w < 0x80_0000 && k >= 1
    ensures Mantissa(Shl(w, k)) == w && Exponent(Shl(w, k)) == k + 3
  {
    var r := Shl(w, k);
    BytesOfShl(w, k);
    ThreeBytes(w);
    if w >= 0x1_0000 {
      ShrOfShl(w, k, k);
    } else {
      assert NumBytes(r) == k + 2;
      ShrOfShl(w, k, k - 1);
      assert Shl(w, 1) == 256 * w;
      assert Word(r) == 256 * w;
    }
  }

  /** The compact form of what comes back is the same compact form. */
  lemma Idempotent(n: nat)
    requires Exponent(n) <= 255
    ensures ToCompact(FromCompact(ToCompact(n))) == ToCompact(n)
  {
    if n == 0 {
      ZeroRoundTrip();
    } else {
      RoundTripIs(n);
      MantissaIs(n);
      var e := Exponent(n);
      if e > 3 {
        CompactOfShl(Mantissa(n), e - 3);
      }
    }
  }

  lemma WordMonotone(a: nat, b: nat)
    requires 0 < a <= b && NumBytes(a) == NumBytes(b)
    ensures Word(a) <= Word(b)
  {
    var size := NumBytes(a);
    if size <= 3 {
      ShlMonotone(a, b, 3 - size);
    } else {
      ShrMonotone(a, b, size - 3);
    }
  }

  /** The exponent decides, then the mantissa. */
  lemma OrderOfFields(a: nat, b: nat)
    requires 0 < a <= b
    ensures Exponent(a) < Exponent(b) || (Exponent(a) == Exponent(b) && Mantissa(a) <= Mantissa(b))
  {
    MantissaIs(a);
    MantissaIs(b);
    BytesMonotone(a, b);
    if NumBytes(a) == NumBytes(b) {
      WordMonotone(a, b);
    }
  }

  /** Larger numbers have compact forms that are not smaller. */
  lemma Monotone(a: nat, b: nat)
    requires a <= b && Exponent(b) <= 255
    ensures Exponent(a) <= 255 && ToCompact(a) <= ToCompact(b)
  {
    ZeroRoundTrip();
    if a > 0 {
      OrderOfFields(a, b);
      MantissaIs(a);
    }
  }

  /** Negative numbers are treated as their magnitude, with the sign bit set. */
  lemma SignIsKept(n: nat)
    requires Exponent(n) <= 255 && n > 0
    ensures ToCompact(0 - n) == ToCompact(n) + 0x80_0000
    ensures FromCompact(ToCompact(0 - n)) == 0 - FromCompact(ToCompact(n))
  {
    SameFields(n);
    MantissaIs(n);
    SignedFields(Mantissa(n), Exponent(n));
  }

  lemma SameFields(n: nat)
    requires Exponent(n) <= 255 && n > 0
    ensures ToCompact(n) == Mantissa(n) + Exponent(n) * 0x100_0000
    ensures ToCompact(0 - n) == Mantissa(n) + Exponent(n) * 0x100_0000 + 0x80_0000
  {
    assert Abs(0 - n) == n && Abs(n) == n;
  }

  lemma SignedFields(m: nat, e: nat)
    requires m < 0x80_0000
    ensures FromCompact(m + e * 0x100_0000 + 0x80_0000) == 0 - FromCompact(m + e * 0x100_0000)
  {
    FromFields(m, e, 0);
    FromFields(m, e, 1);
  }

  lemma FromFields(m: nat, e: nat, s: nat)
    requires m < 0x80_0000 && s <= 1
    ensures FromCompact(m + e * 0x100_0000 + s * 0x80_0000) == if s == 1 then 0 - Magnitude(e, m) else Magnitude(e, m)
  {
    Fields(m, e, s);
  }

  /** The examples the format is documented with. */
  lemma DocumentedExamples()
    ensures ToCompact(0x12_3456_0000) == 0x0512_3456 && FromCompact(0x0512_3456) == 0x12_3456_0000
    ensures ToCompact(0xc0_de00_0000) == 0x0600_c0de && FromCompact(0x0600_c0de) == 0xc0_de00_0000
    ensures FromCompact(0x05c0_de00) == -0x40_de00_0000
  {
    assert Shl(0x12_3456, 2) == 256 * Shl(0x12_3456, 1) && Shl(0x12_3456, 1) == 256 * Shl(0x12_3456, 0);
    CompactOfShl(0x12_3456, 2);
    assert Shl(0xc0de, 3) == 256 * Shl(0xc0de, 2) && Shl(0xc0de, 2) == 256 * Shl(0xc0de, 1);
    assert Shl(0xc0de, 1) == 256 * Shl(0xc0de, 0);
    CompactOfShl(0xc0de, 3);
    assert Shl(0x40_de00, 2) == 256 * Shl(0x40_de00, 1) && Shl(0x40_de00, 1) == 256 * Shl(0x40_de00, 0);
  }

  // -------------------------------------------------------------------------
  // Which 32-bit values are compact forms
  // -------------------------------------------------------------------------

  /** Zero; or a mantissa of at least 2^15 that keeps all its bits when a small exponent cuts it short. */
  predicate Canonical(c: nat) {
    var size, word := c / 0x100_0000, c % 0x80_0000;
    || c == 0
    || (word >= 0x8000 && (size <= 3 ==> Shl(Shr(word, 3 - size), 3 - size) == word))
  }

  /** A mantissa with a small exponent that loses nothing. */
  lemma SmallFields(n: nat, size: nat)
    requires size <= 3 && n > 0 && 0x8000 <= Shl(n, 3 - size) < 0x80_0000
    ensures Mantissa(n) == Shl(n, 3 - size) && Exponent(n) == size
  {
    var k := 3 - size;
    var w := Shl(n, k);
    BytesOfShl(n, k);
    ThreeBytes(w);
    if w < 0x1_0000 {
      assert Shl(n, k + 1) == 256 * w;
    }
  }

  lemma {:induction false} ShlOfZero(k: nat)
    ensures Shl(0, k) == 0 && Shr(0, k) == 0
  {
    if k > 0 {
      ShlOfZero(k - 1);
    }
  }

  lemma CanonicalFields(c: nat)
    requires c != 0 && Canonical(c)
    ensures var n := Magnitude(c / 0x100_0000, c % 0x80_0000);
      n > 0 && Mantissa(n) == c % 0x80_0000 && Exponent(n) == c / 0x100_0000
  {
    var size, word := c / 0x100_0000, c % 0x80_0000;
    if size <= 3 {
      ShlOfZero(3 - size);
      SmallFields(Shr(word, 3 - size), size);
    } else {
      CompactOfShl(word, size - 3);
      BytesOfShl(word, size - 3);
    }
  }

  /** The exponent of what a 32-bit value stands for fits a byte. */
  lemma ExponentFits(c: nat)
    requires c < 0x1_0000_0000
    ensures Exponent(Magnitude(c / 0x100_0000, c % 0x80_0000)) <= 255
  {
    var size, word := c / 0x100_0000, c % 0x80_0000;
    var n := Magnitude(size, word);
    if size <= 3 {
      ShrMonotone(word, 0x7f_ffff, 3 - size);
      SmallShr(word, 3 - size);
      BytesMonotone(n, 0x7f_ffff);
      ThreeBytes(0x7f_ffff);
    } else if word > 0 {
      BytesOfShl(word, size - 3);
      BytesMonotone(word, 0x7f_ffff);
      ThreeBytes(0x7f_ffff);
      if NumBytes(word) == 3 {
        ShrOfShl(word, size - 3, size - 3);
      }
    } else {
      ShlOfZero(size - 3);
      ShlOfZero(3);
    }
  }

  lemma {:induction false} SmallShr(n: nat, k: nat)
    ensures Shr(n, k) <= n
  {
    if k > 0 {
      SmallShr(n / 256, k - 1);
    }
  }

  lemma StableIsCanonical(c: nat)
    requires c < 0x1_0000_0000 && ToCompact(FromCompact(c)) == c
    ensures Canonical(c)
  {
    var size, word := c / 0x100_0000, c % 0x80_0000;
    var n := Magnitude(size, word);
    ExponentFits(c);
    if n == 0 {
      ZeroRoundTrip();
    } else {
      assert Abs(FromCompact(c)) == n;
      FieldsOfForm(FromCompact(c));
      MantissaIs(n);
      RoundTripIs(n);
    }
  }

  lemma FieldsOfForm(x: int)
    requires x != 0 && Exponent(Abs(x)) <= 255
    ensures ToCompact(x) % 0x80_0000 == Mantissa(Abs(x)) && ToCompact(x) / 0x100_0000 == Exponent(Abs(x))
  {
    var n := Abs(x);
    MantissaIs(n);
    Fields(Mantissa(n), Exponent(n), if x < 0 then 1 else 0);
    SameFields(n);
    assert x == n || 0 - x == n;
  }

  /** A 32-bit value comes back from the number it stands for exactly when it is canonical. */
  lemma CanonicalIff(c: nat)
    requires c < 0x1_0000_0000
    ensures ToCompact(FromCompact(c)) == c <==> Canonical(c)
  {
    if ToCompact(FromCompact(c)) == c {
      StableIsCanonical(c);
    }
    if Canonical(c) {
      CanonicalIsStable(c);
    }
  }

  lemma CanonicalIsStable(c: nat)
    requires c < 0x1_0000_0000 && Canonical(c)
    ensures ToCompact(FromCompact(c)) == c
  {
    if c == 0 {
      ZeroRoundTrip();
    } else {
      CanonicalFields(c);
      SplitValue(c);
      var n := Magnitude(c / 0x100_0000, c % 0x80_0000);
      SameFields(n);
    }
  }

  lemma SplitValue(c: nat)
    ensures c == c % 0x80_0000 + c / 0x100_0000 * 0x100_0000 + (if c / 0x80_0000 % 2 == 1 then 0x80_0000 else 0)
    ensures c < 0x1_0000_0000 ==> c / 0x100_0000 <= 255
  {
  }

  // -------------------------------------------------------------------------
  // The object
  // -------------------------------------------------------------------------

  class BigNum {
    var n: int

    constructor ()
      ensures n == 0
    {
      n := 0;
    }

    method SetCompact(c: nat)
      requires c < 0x1_0000_0000
      modifies this
      ensures n == FromCompact(c)
    {
      var nSize := c / 0x100_0000;
      var negative := c / 0x80_0000 % 2 == 1;
      var nWord := c % 0x80_0000;
      if nSize <= 3 {
        n := Shr(nWord, 3 - nSize);
      } else {
        n := Shl(nWord, nSize - 3);
      }
      if negative {
        n := 0 - n;
      }
    }

    method GetCompact() returns (c: nat)
      ensures c == ToCompact(n) && c < 0x1_0000_0000
    {
      var nSize := NumBytes(Abs(n));
      if nSize <= 3 {
        c := Shl(Abs(n), 3 - nSize);
      } else {
        c := Shr(Abs(n), nSize - 3);
      }
      if c >= 0x80_0000 {
        c := c / 256;
        nSize := nSize + 1;
      }
      MantissaIs(Abs(n));
      c := c + nSize % 256 * 0x100_0000;
      if n < 0 {
        c := c + 0x80_0000;
      }
    }
  }
}
