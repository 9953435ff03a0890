/** Positional numbers, least significant digit first. */
module Digits {

  /** The bases that are needed. */
  type Base = b: int | b == 58 || b == 256 witness 58

  ghost predicate IsDigits(base: Base, ds: seq<nat>) {
    forall i :: 0 <= i < |ds| ==> ds[i] < base
  }

  /** No zeros at the most significant end. */
  predicate Minimal(ds: seq<nat>) {
    ds != [] ==> ds[|ds| - 1] != 0
  }

  function Value(base: Base, ds: seq<nat>): nat {
    if ds == [] then 0 else ds[0] + base * Value(base, ds[1..])
  }

  lemma Smaller(n: nat, base: Base)
    requires n > 0
    ensures 0 <= n / base < n && n % base < base && n == n % base + base * (n / base)
  {
    if base == 58 {
      assert n / 58 < n;
    } else {
      assert n / 256 < n;
    }
  }

  function Of(base: Base, n: nat): seq<nat>
    decreases n
  {
    if n == 0 then [] else
      Smaller(n, base);
      [n % base] + Of(base, n / base)
  }

  function Zeros(k: nat): seq<nat> { seq(k, i => 0) }

  lemma {:induction false} OfIsDigits(base: Base, n: nat)
    ensures IsDigits(base, Of(base, n)) && Minimal(Of(base, n))
    decreases n
  {
    if n > 0 {
      Smaller(n, base);
      OfIsDigits(base, n / base);
      if n / base == 0 {
        assert n == n % base + base * 0;
      } else {
        assert Of(base, n / base) != [];
      }
    }
  }

  lemma {:induction false} ValueOf(base: Base, n: nat)
    ensures Value(base, Of(base, n)) == n
    decreases n
  {
    if n > 0 {
      Smaller(n, base);
      ValueOf(base, n / base);
      assert Of(base, n)[1..] == Of(base, n / base);
    }
  }

  /** Minimal digits are determined by their value. */
  lemma {:induction false} OfValue(base: Base, ds: seq<nat>)
    requires IsDigits(base, ds) && Minimal(ds)
    ensures Of(base, Value(base, ds)) == ds
  {
    if ds != [] {
      var rest := ds[1..];
      OfValue(base, rest);
      var v := Value(base, rest);
      NonZero(base, ds);
      Split(base, ds[0], v);
      assert ds == [ds[0]] + rest;
    }
  }

  lemma Split(base: Base, r: nat, q: nat)
    requires r < base
    ensures (r + base * q) / base == q && (r + base * q) % base == r
  {
    if base == 58 {
      assert (r + 58 * q) / 58 == q;
    } else {
      assert (r + 256 * q) / 256 == q;
    }
  }

  lemma {:induction false} NonZero(base: Base, ds: seq<nat>)
    requires ds != [] && Minimal(ds)
    ensures Value(base, ds) > 0
  {
    if |ds| > 1 {
      NonZero(base, ds[1..]);
      assert base * Value(base, ds[1..]) > 0;
    }
  }

  /** Zeros at the most significant end do not count. */
  lemma {:induction false} ValueWithZeros(base: Base, ds: seq<nat>, k: nat)
    ensures Value(base, ds + Zeros(k)) == Value(base, ds)
  {
    if ds == [] {
      ValueOfZeros(base, k);
      assert ds + Zeros(k) == Zeros(k);
    } else {
      ValueWithZeros(base, ds[1..], k);
      assert (ds + Zeros(k))[1..] == ds[1..] + Zeros(k);
    }
  }

  lemma {:induction false} ValueOfZeros(base: Base, k: nat)
    ensures Value(base, Zeros(k)) == 0
  {
    if k > 0 {
      ValueOfZeros(base, k - 1);
      assert Zeros(k)[1..] == Zeros(k - 1);
    }
  }

  // -------------------------------------------------------------------------
  // Zeros at the front of a sequence that has its most significant digit first
  // -------------------------------------------------------------------------

  function Reverse<T>(s: seq<T>): seq<T> {
    seq(|s|, i requires 0 <= i < |s| => s[|s| - 1 - i])
  }

  lemma ReverseAppend<T>(a: seq<T>, b: seq<T>)
    ensures Reverse(a + b) == Reverse(b) + Reverse(a)
  {
  }

  lemma ReverseTwice<T>(a: seq<T>)
    ensures Reverse(Reverse(a)) == a
  {
  }

  lemma ReverseZeros(k: nat)
    ensures Reverse(Zeros(k)) == Zeros(k)
  {
  }

  function LeadingZeros(s: seq<nat>): (k: nat)
    ensures k <= |s|
    ensures forall i :: 0 <= i < k ==> s[i] == 0
    ensures k < |s| ==> s[k] != 0
  {
    if s == [] || s[0] != 0 then 0 else 1 + LeadingZeros(s[1..])
  }

  /** Big-endian: the value, and the digits after the leading zeros. */
  function BigValue(base: Base, s: seq<nat>): nat { Value(base, Reverse(s)) }

  lemma LeadingZerosUnique(s: seq<nat>, k: nat)
    requires k <= |s| && (forall i :: 0 <= i < k ==> s[i] == 0) && (k < |s| ==> s[k] != 0)
    ensures LeadingZeros(s) == k
  {
  }

  /** A big-endian digit string is its leading zeros followed by the minimal digits of its value. */
  lemma BigDigits(base: Base, s: seq<nat>)
    requires IsDigits(base, s)
    ensures s == Zeros(LeadingZeros(s)) + Reverse(Of(base, BigValue(base, s)))
  {
    var k := LeadingZeros(s);
    var rest := s[k..];
    assert s == Zeros(k) + rest;
    SameBigValue(base, k, rest);
    assert rest != [] ==> rest[0] == s[k];
    BigDigitsOf(base, rest);
  }

  lemma SameBigValue(base: Base, k: nat, rest: seq<nat>)
    ensures BigValue(base, Zeros(k) + rest) == BigValue(base, rest)
  {
    ReverseAppend(Zeros(k), rest);
    ReverseZeros(k);
    ValueWithZeros(base, Reverse(rest), k);
  }

  /** Without leading zeros the digits are the minimal ones. */
  lemma BigDigitsOf(base: Base, s: seq<nat>)
    requires IsDigits(base, s) && (s != [] ==> s[0] != 0)
    ensures s == Reverse(Of(base, BigValue(base, s)))
  {
    var ds := Reverse(s);
    forall i | 0 <= i < |ds|
      ensures ds[i] < base
    {
      assert ds[i] == s[|s| - 1 - i];
    }
    OfValue(base, ds);
    ReverseTwice(s);
  }

  /** Conversely, such a string has those leading zeros and that value. */
  lemma BigOf(base: Base, k: nat, n: nat)
    ensures var s := Zeros(k) + Reverse(Of(base, n)); IsDigits(base, s) && LeadingZeros(s) == k && BigValue(base, s) == n
  {
    var ds := Of(base, n);
    OfIsDigits(base, n);
    var s := Zeros(k) + Reverse(ds);
    ReverseAppend(Zeros(k), Reverse(ds));
    ReverseTwice(ds);
    ReverseZeros(k);
    ValueWithZeros(base, ds, k);
    ValueOf(base, n);
    assert ds != [] ==> s[k] == ds[|ds| - 1];
    LeadingZerosUnique(s, k);
  }
}
