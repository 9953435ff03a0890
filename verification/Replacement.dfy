/** Which of two transactions over the same inputs replaces the other: legacy/src/core.cpp, IsNewerThan. */
module Replacement {

  type OutPoint(==, !new)

  const MAX_SEQUENCE: nat := 0xffff_ffff

  datatype Input = Input(prevout: OutPoint, sequence: nat)

  /** Sequence numbers are 32 bits wide. */
  predicate Fits(vin: seq<Input>) {
    forall i :: 0 <= i < |vin| ==> vin[i].sequence <= MAX_SEQUENCE
  }

  predicate SamePrevouts(a: seq<Input>, b: seq<Input>) {
    |a| == |b| && forall i :: 0 <= i < |a| ==> a[i].prevout == b[i].prevout
  }

  /** The sequence numbers at a position differ. */
  predicate Differ(a: seq<Input>, b: seq<Input>, i: int)
    requires |a| == |b|
  {
    0 <= i < |a| && a[i].sequence != b[i].sequence
  }

  /** Where the sequence numbers differ, the lowest one of `b` is strictly below the lowest one of `a`. */
  ghost predicate Newer(a: seq<Input>, b: seq<Input>) {
    && SamePrevouts(a, b)
    && exists i :: Differ(a, b, i) && forall j :: Differ(a, b, j) ==> b[i].sequence < a[j].sequence
  }

  // -------------------------------------------------------------------------
  // The loop
  // -------------------------------------------------------------------------

  /** What is known after the positions below `k`: `lowest` is the lowest sequence number seen, and whether only
      `b` has it. */
  ghost predicate Seen(a: seq<Input>, b: seq<Input>, k: nat, lowest: nat, newer: bool)
    requires |a| == |b|
  {
    && (forall j :: Differ(a, b, j) && j < k ==> a[j].sequence >= lowest && b[j].sequence >= lowest)
    && (newer ==> (exists i :: Differ(a, b, i) && i < k && b[i].sequence == lowest)
                  && forall j :: Differ(a, b, j) && j < k ==> a[j].sequence > lowest)
    && (!newer ==> (lowest == MAX_SEQUENCE && forall j :: Differ(a, b, j) ==> j >= k)
                   || exists i :: Differ(a, b, i) && i < k && a[i].sequence == lowest)
  }

  method IsNewerThan(vin: seq<Input>, other: seq<Input>) returns (newer: bool)
    requires Fits(vin) && Fits(other)
    ensures newer <==> Newer(vin, other)
  {
    if |vin| != |other| {
      return false;
    }
    for i := 0 to |vin|
      invariant forall j :: 0 <= j < i ==> vin[j].prevout == other[j].prevout
    {
      if vin[i].prevout != other[i].prevout {
        return false;
      }
    }
    newer := false;
    var lowest := MAX_SEQUENCE;
    for i := 0 to |vin|
      invariant Seen(vin, other, i, lowest, newer)
    {
      ghost var was, low := newer, lowest;
      if vin[i].sequence != other[i].sequence {
        assert Differ(vin, other, i);
        if vin[i].sequence <= lowest {
          newer := false;
          lowest := vin[i].sequence;
        }
        if other[i].sequence < lowest {
          newer := true;
          lowest := other[i].sequence;
        }
      }
      SeenMore(vin, other, i, low, was, lowest, newer);
    }
    SeenAll(vin, other, lowest, newer);
  }

  lemma SeenMore(a: seq<Input>, b: seq<Input>, k: nat, low: nat, was: bool, lowest: nat, newer: bool)
    requires |a| == |b| && k < |a| && Seen(a, b, k, low, was) && Fits(a) && Fits(b)
    requires var x, y := a[k].sequence, b[k].sequence;
      if x == y then newer == was && lowest == low
      else if y < (if x <= low then x else low) then newer && lowest == y
      else if x <= low then !newer && lowest == x
      else newer == was && lowest == low
    ensures Seen(a, b, k + 1, lowest, newer)
  {
    if a[k].sequence != b[k].sequence {
      assert Differ(a, b, k);
    }
  }

  lemma SeenAll(a: seq<Input>, b: seq<Input>, lowest: nat, newer: bool)
    requires SamePrevouts(a, b) && Seen(a, b, |a|, lowest, newer)
    ensures newer <==> Newer(a, b)
  {
  }

  // -------------------------------------------------------------------------
  // A strict partial order
  // -------------------------------------------------------------------------

  /** Up to `m` nothing tells `a` and `b` apart, and at `m` only `b` has something that `a` has not. */
  ghost predicate NewerAt(a: seq<Input>, b: seq<Input>, m: nat)
    requires |a| == |b|
  {
    && (exists i :: Differ(a, b, i) && b[i].sequence == m)
    && (forall j :: Differ(a, b, j) ==> a[j].sequence > m && b[j].sequence >= m)
  }

  lemma {:induction false} LowestOf(a: seq<Input>, b: seq<Input>, k: nat) returns (i: int)
    requires |a| == |b| && k <= |a| && exists j :: Differ(a, b, j) && j < k
    ensures Differ(a, b, i) && i < k && forall j :: Differ(a, b, j) && j < k ==> b[i].sequence <= b[j].sequence
  {
    if exists j :: Differ(a, b, j) && j < k - 1 {
      i := LowestOf(a, b, k - 1);
      if Differ(a, b, k - 1) && b[k - 1].sequence < b[i].sequence {
        i := k - 1;
      }
    } else {
      i := k - 1;
    }
  }

  lemma NewerIsAt(a: seq<Input>, b: seq<Input>) returns (m: nat)
    requires Newer(a, b)
    ensures NewerAt(a, b, m)
  {
    var i :| Differ(a, b, i) && forall j :: Differ(a, b, j) ==> b[i].sequence < a[j].sequence;
    var k := LowestOf(a, b, |a|);
    m := b[k].sequence;
  }

  lemma AtIsNewer(a: seq<Input>, b: seq<Input>, m: nat)
    requires SamePrevouts(a, b) && NewerAt(a, b, m)
    ensures Newer(a, b)
  {
    var i :| Differ(a, b, i) && b[i].sequence == m;
  }

  lemma Irreflexive(a: seq<Input>)
    ensures !Newer(a, a)
  {
  }

  lemma Transitive(a: seq<Input>, b: seq<Input>, c: seq<Input>)
    requires Newer(c, b) && Newer(b, a)
    ensures Newer(c, a)
  {
    var m1 := NewerIsAt(c, b);
    var m2 := NewerIsAt(b, a);
    var m := if m2 <= m1 then m2 else m1;
    forall j | Differ(c, a, j)
      ensures c[j].sequence > m && a[j].sequence >= m
    {
      assert Differ(c, b, j) || Differ(b, a, j);
    }
    if m2 <= m1 {
      var i :| Differ(b, a, i) && a[i].sequence == m2;
      assert c[i].sequence == b[i].sequence || Differ(c, b, i);
      assert Differ(c, a, i);
    } else {
      var i :| Differ(c, b, i) && b[i].sequence == m1;
      assert !Differ(b, a, i);
      assert Differ(c, a, i);
    }
    AtIsNewer(c, a, m);
  }

  lemma Asymmetric(a: seq<Input>, b: seq<Input>)
    requires Newer(a, b)
    ensures !Newer(b, a)
  {
    if Newer(b, a) {
      Transitive(a, b, a);
      Irreflexive(a);
      assert false;
    }
  }

  /** A newer transaction spends the same outpoints, position by position. */
  lemma NewerSpendsTheSame(a: seq<Input>, b: seq<Input>)
    requires Newer(a, b)
    ensures |a| == |b| && forall i :: 0 <= i < |a| ==> a[i].prevout == b[i].prevout
  {
  }

  /** Changing one sequence number makes a transaction newer exactly when it raises it. */
  lemma RaisingIsNewer(b: seq<Input>, i: nat, sequence: nat)
    requires i < |b| && sequence != b[i].sequence
    ensures Newer(b[i := b[i].(sequence := sequence)], b) <==> sequence > b[i].sequence
  {
    var a := b[i := b[i].(sequence := sequence)];
    assert Differ(a, b, i) && forall j :: Differ(a, b, j) ==> j == i;
  }
}
