/** Compression of amounts, legacy/src/core.cpp: amounts are usually round numbers, so trailing zeros become an
    exponent. */
module Amounts {

  const TWO_64: nat := 0x1_0000_0000_0000_0000

  /** A number with `e` zeros appended. */
  function Scale(m: nat, e: nat): (r: nat)
    ensures r >= m && (e > 0 ==> r >= 10 * m)
  {
    if e == 0 then m else 10 * Scale(m, e - 1)
  }

  /** An amount other than zero as significand and exponent: at most nine zeros are taken off. */
  ghost predicate Normal(m: nat, e: nat) {
    m > 0 && e <= 9 && (e < 9 ==> m % 10 != 0)
  }

  function Strip(n: nat, e: nat): (nat, nat)
    requires n > 0 && e <= 9
    decreases 9 - e
  {
    if n % 10 == 0 && e < 9 then Strip(n / 10, e + 1) else (n, e)
  }

  function Pack(m: nat, e: nat): int {
    if e < 9 then 1 + (m / 10 * 9 + m % 10 - 1) * 10 + e else 1 + (m - 1) * 10 + 9
  }

  function Unpack(x: nat): (nat, nat)
    requires x > 0
  {
    var e, y := (x - 1) % 10, (x - 1) / 10;
    (if e < 9 then y / 9 * 10 + y % 9 + 1 else y + 1, e)
  }

  function Compress(n: nat): int {
    if n == 0 then 0 else var (m, e) := Strip(n, 0); Pack(m, e)
  }

  function Decompress(x: nat): nat {
    if x == 0 then 0 else var (m, e) := Unpack(x); Scale(m, e)
  }

  // -------------------------------------------------------------------------
  // The two are inverse to each other
  // -------------------------------------------------------------------------

  lemma {:induction false} StripSplits(n: nat, e: nat)
    requires n > 0 && e <= 9
    ensures var (m, k) := Strip(n, e); Normal(m, k) && k >= e && Scale(m, k - e) == n
    decreases 9 - e
  {
    if n % 10 == 0 && e < 9 {
      StripSplits(n / 10, e + 1);
    }
  }

  lemma {:induction false} StripOf(m: nat, k: nat, e: nat)
    requires Normal(m, k) && e <= k
    ensures Scale(m, k - e) > 0 && Strip(Scale(m, k - e), e) == (m, k)
    decreases k - e
  {
    if e < k {
      StripOf(m, k, e + 1);
    }
  }

  lemma Tens(q: int, r: int)
    requires 0 <= r < 10
    ensures (q * 10 + r) / 10 == q && (q * 10 + r) % 10 == r
  {
  }

  lemma Nines(q: int, r: int)
    requires 0 <= r < 9
    ensures (q * 9 + r) / 9 == q && (q * 9 + r) % 9 == r
  {
  }

  lemma PackUnpack(m: nat, e: nat)
    requires Normal(m, e)
    ensures Pack(m, e) > 0 && Unpack(Pack(m, e)) == (m, e)
  {
    if e < 9 {
      Tens(m / 10 * 9 + m % 10 - 1, e);
      Nines(m / 10, m % 10 - 1);
    } else {
      Tens(m - 1, 9);
    }
  }

  lemma UnpackPack(x: nat)
    requires x > 0
    ensures var (m, e) := Unpack(x); Normal(m, e) && Pack(m, e) == x
  {
    var y := (x - 1) / 10;
    Tens(y / 9, y % 9 + 1);
  }

  lemma DecompressInvertsCompress(n: nat)
    ensures Compress(n) >= 0 && Decompress(Compress(n)) == n
  {
    if n > 0 {
      StripSplits(n, 0);
      var (m, e) := Strip(n, 0);
      PackUnpack(m, e);
    }
  }

  lemma CompressInvertsDecompress(x: nat)
    ensures Compress(Decompress(x)) == x
  {
    if x > 0 {
      UnpackPack(x);
      var (m, e) := Unpack(x);
      StripOf(m, e, 0);
    }
  }

  /** The compressed form of an amount that is not zero: with `e` zeros taken off, at most nine, the last digit that is
      left and the digits before it, or all of them if nine zeros were taken off. */
  lemma CompressIs(rest: nat, d: nat, e: nat)
    requires e <= 8 && 1 <= d <= 9
    ensures Compress(Scale(10 * rest + d, e)) == 1 + 10 * (9 * rest + d - 1) + e
    ensures rest > 0 ==> Compress(Scale(rest, 9)) == 10 * rest
    ensures Compress(0) == 0
  {
    Tens(rest, d);
    StripOf(10 * rest + d, e, 0);
    if rest > 0 {
      StripOf(rest, 9, 0);
    }
  }

  /** So 64 bits are enough for amounts up to a ninth of what 64 bits hold. */
  lemma CompressBound(n: nat)
    ensures 0 <= Compress(n) <= 9 * n
  {
    if n > 0 {
      StripSplits(n, 0);
      var (m, e) := Strip(n, 0);
      PackBound(m, e);
    }
  }

  lemma PackBound(m: nat, e: nat)
    requires Normal(m, e)
    ensures 0 < Pack(m, e) <= 9 * m + (if e < 9 then e else m)
  {
    assert m == m / 10 * 10 + m % 10;
  }

  // -------------------------------------------------------------------------
  // The 64-bit routines
  // -------------------------------------------------------------------------

  function Wrap(x: int): nat { x % TWO_64 }

  lemma WrapInside(a: int, b: int, k: nat)
    requires k <= 10
    ensures Wrap(k * Wrap(a) + b) == Wrap(k * a + b)
  {
    var q := a / TWO_64;
    assert a == q * TWO_64 + Wrap(a);
    WrapMore(k * Wrap(a) + b, k * q);
    assert k * a + b == k * Wrap(a) + b + k * q * TWO_64;
  }

  lemma WrapMore(x: int, q: int)
    ensures Wrap(x + q * TWO_64) == Wrap(x)
  {
    var d, r := x / TWO_64, x % TWO_64;
    assert x + q * TWO_64 == (d + q) * TWO_64 + r;
    WrapUnique(x + q * TWO_64, d + q, r);
  }

  lemma WrapUnique(y: int, d: int, r: int)
    requires y == d * TWO_64 + r && 0 <= r < TWO_64
    ensures y % TWO_64 == r
  {
    var e := y / TWO_64;
    assert y == e * TWO_64 + y % TWO_64;
  }

  method CompressAmount(amount: nat) returns (x: nat)
    requires amount < TWO_64
    ensures x == Wrap(Compress(amount))
    ensures amount <= (TWO_64 - 1) / 9 ==> x == Compress(amount)
  {
    CompressBound(amount);
    if amount == 0 {
      return 0;
    }
    StripSplits(amount, 0);
    var n, e := amount, 0;
    while n % 10 == 0 && e < 9
      invariant 0 < n < TWO_64 && e <= 9 && Strip(amount, 0) == Strip(n, e)
      decreases 9 - e
    {
      n := n / 10;
      e := e + 1;
    }
    x := PackWrapped(n, e);
  }

  method PackWrapped(m: nat, e: nat) returns (x: nat)
    requires Normal(m, e)
    ensures x == Wrap(Pack(m, e))
  {
    if e < 9 {
      var d, n := m % 10, m / 10;
      var y := Wrap(n * 9);
      WrapInside(n * 9, d - 1, 1);
      y := Wrap(y + d - 1);
      WrapInside(n * 9 + d - 1, 1 + e, 10);
      x := Wrap(y * 10 + 1 + e);
    } else {
      x := Wrap(1 + (m - 1) * 10 + 9);
    }
  }

  method DecompressAmount(packed: nat) returns (n: nat)
    requires packed < TWO_64
    ensures n == Wrap(Decompress(packed))
  {
    if packed == 0 {
      return 0;
    }
    var x := packed - 1;
    var e := x % 10;
    x := x / 10;
    n := 0;
    if e < 9 {
      var d := x % 9 + 1;
      x := x / 9;
      n := Wrap(x * 10 + d);
    } else {
      n := Wrap(x + 1);
    }
    n := AppendZeros(n, e, Unpack(packed).0);
  }

  method AppendZeros(start: nat, zeros: nat, ghost m: nat) returns (n: nat)
    requires start == Wrap(m)
    ensures n == Wrap(Scale(m, zeros))
  {
    n := start;
    var e := zeros;
    while e > 0
      invariant 0 <= e <= zeros && n == Wrap(Scale(m, zeros - e))
    {
      WrapInside(Scale(m, zeros - e), 0, 10);
      n := Wrap(n * 10);
      e := e - 1;
    }
  }

  /** Every amount up to a ninth of 2^64 comes back from 64-bit compression. */
  method RoundTrip(amount: nat) returns (back: nat)
    requires amount <= (TWO_64 - 1) / 9
    ensures back == amount
  {
    var x := CompressAmount(amount);
    DecompressInvertsCompress(amount);
    back := DecompressAmount(x);
    WrapUnique(amount, 0, amount);
  }
}
