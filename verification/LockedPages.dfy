/** Counting locks per memory page, legacy/src/allocators.h. The operating system's page locks do not nest; the
    manager makes them do. Pages are named by their number rather than their base address. */
module LockedPages {

  /** A range of memory in use. */
  datatype Range = Range(base: nat, size: nat)

  /** The range has a byte on the page. */
  predicate Overlaps(r: Range, pageSize: nat, page: nat)
    requires pageSize > 0
  {
    r.size > 0 && r.base / pageSize <= page <= (r.base + r.size - 1) / pageSize
  }

  /** A page runs over a range exactly when some byte of the range is on it. */
  lemma OverlapsMeans(r: Range, pageSize: nat, page: nat)
    requires pageSize > 0
    ensures Overlaps(r, pageSize, page) <==> exists a: nat :: r.base <= a < r.base + r.size && a / pageSize == page
  {
    if Overlaps(r, pageSize, page) {
      var last := r.base + r.size - 1;
      if r.base / pageSize == page {
        assert r.base <= r.base < r.base + r.size;
      } else {
        var a := page * pageSize;
        PageStart(pageSize, page);
        Below(r.base, pageSize, page);
        AtMost(last, pageSize, page);
        assert r.base <= a < r.base + r.size && a / pageSize == page;
      }
    }
    if a: nat :| r.base <= a < r.base + r.size && a / pageSize == page {
      DivMonotone(r.base, a, pageSize);
      DivMonotone(a, r.base + r.size - 1, pageSize);
    }
  }

  lemma PageStart(pageSize: nat, page: nat)
    requires pageSize > 0
    ensures page * pageSize / pageSize == page
  {
    var q := page * pageSize / pageSize;
    assert page * pageSize == q * pageSize + page * pageSize % pageSize;
    Apart(page, q, pageSize);
  }

  /** Multiples that differ by less than the factor are the same. */
  lemma Apart(a: int, b: int, k: nat)
    requires k > 0 && 0 <= a * k - b * k < k
    ensures a == b
  {
    assert (a - b) * k == a * k - b * k;
    Small(a - b, k);
  }

  lemma Small(d: int, k: nat)
    requires k > 0 && 0 <= d * k < k
    ensures d == 0
  {
    assert d >= 1 ==> d * k >= k;
    assert d <= -1 ==> d * k < 0;
  }

  lemma Below(a: nat, k: nat, page: nat)
    requires k > 0 && a / k < page
    ensures a < page * k
  {
    var q := a / k;
    assert a == q * k + a % k;
    assert (q + 1) * k <= page * k;
    assert (q + 1) * k == q * k + k;
  }

  lemma AtMost(a: nat, k: nat, page: nat)
    requires k > 0 && page <= a / k
    ensures page * k <= a
  {
    var q := a / k;
    assert a == q * k + a % k;
    assert page * k <= q * k;
  }

  lemma DivMonotone(a: nat, b: nat, k: nat)
    requires k > 0 && a <= b
    ensures a / k <= b / k
  {
    if b / k < a / k {
      Below(b, k, a / k);
      AtMost(a, k, a / k);
      assert false;
    }
  }

  function One(b: bool): nat { if b then 1 else 0 }

  /** How many of the ranges overlap a page. */
  function Cover(live: seq<Range>, pageSize: nat, page: nat): nat
    requires pageSize > 0
  {
    if live == [] then 0
    else Cover(live[..|live| - 1], pageSize, page) + One(Overlaps(live[|live| - 1], pageSize, page))
  }

  lemma CoverMore(live: seq<Range>, r: Range, pageSize: nat, page: nat)
    requires pageSize > 0
    ensures Cover(live + [r], pageSize, page) == Cover(live, pageSize, page) + One(Overlaps(r, pageSize, page))
  {
    assert (live + [r])[..|live|] == live;
  }

  function Without(live: seq<Range>, i: nat): seq<Range>
    requires i < |live|
  {
    live[..i] + live[i + 1..]
  }

  lemma {:induction false} CoverWithout(live: seq<Range>, i: nat, pageSize: nat, page: nat)
    requires i < |live| && pageSize > 0
    ensures Cover(Without(live, i), pageSize, page) + One(Overlaps(live[i], pageSize, page)) == Cover(live, pageSize, page)
  {
    var n := |live| - 1;
    if i == n {
      assert Without(live, i) == live[..n];
    } else {
      CoverWithout(live[..n], i, pageSize, page);
      assert Without(live, i) == Without(live[..n], i) + [live[n]];
      CoverMore(Without(live[..n], i), live[n], pageSize, page);
    }
  }

  /** A page is covered exactly when some live range overlaps it. */
  lemma {:induction false} CoveredBySome(live: seq<Range>, pageSize: nat, page: nat)
    requires pageSize > 0
    ensures Cover(live, pageSize, page) > 0 <==> exists i :: 0 <= i < |live| && Overlaps(live[i], pageSize, page)
  {
    if live != [] {
      var n := |live| - 1;
      CoveredBySome(live[..n], pageSize, page);
      assert forall i :: 0 <= i < n ==> live[..n][i] == live[i];
      if i :| 0 <= i < |live| && Overlaps(live[i], pageSize, page) {
        assert i < n ==> Overlaps(live[..n][i], pageSize, page);
      }
    }
  }

  function Count(histogram: map<nat, nat>, page: nat): nat {
    if page in histogram then histogram[page] else 0
  }

  /** The counters are positive, and a page is locked exactly when it has one. */
  ghost predicate Tidy(histogram: map<nat, nat>, locked: set<nat>) {
    && (forall page :: page in histogram ==> histogram[page] > 0)
    && (forall page :: page in locked <==> page in histogram)
  }

  class LockedPageManager {
    const pageSize: nat
    var histogram: map<nat, nat>
    /** The pages the operating system holds locked. */
    var locked: set<nat>
    /** The ranges that were locked and not unlocked since. */
    ghost var live: seq<Range>

    ghost predicate Valid()
      reads this
    {
      && pageSize > 0
      && Tidy(histogram, locked)
      && (forall page: nat :: Count(histogram, page) == Cover(live, pageSize, page))
    }

    constructor (pageSize: nat)
      requires pageSize > 0
      ensures Valid() && this.pageSize == pageSize && live == []
    {
      this.pageSize := pageSize;
      histogram, locked, live := map[], {}, [];
    }

    /** Counts pages up, locking those that had no counter. */
    method CountUp(startPage: nat, endPage: nat)
      requires Tidy(histogram, locked)
      modifies this`histogram, this`locked
      ensures Tidy(histogram, locked)
      ensures forall q: nat :: Count(histogram, q) == Count(old(histogram), q) + (if startPage <= q <= endPage then 1 else 0)
    {
      var page := startPage;
      while page <= endPage
        invariant Tidy(histogram, locked) && startPage <= page
        invariant forall q: nat :: Count(histogram, q) == Count(old(histogram), q) + (if startPage <= q < page && q <= endPage then 1 else 0)
        decreases endPage + 1 - page
      {
        if page !in histogram {
          locked := locked + {page};
          histogram := histogram[page := 1];
        } else {
          histogram := histogram[page := histogram[page] + 1];
        }
        page := page + 1;
      }
    }

    /** Counts pages down, unlocking those whose counter reaches zero. There is always a counter. */
    method CountDown(startPage: nat, endPage: nat)
      requires Tidy(histogram, locked)
      requires forall q: nat :: startPage <= q <= endPage ==> Count(histogram, q) > 0
      modifies this`histogram, this`locked
      ensures Tidy(histogram, locked)
      ensures forall q: nat :: Count(old(histogram), q) == Count(histogram, q) + (if startPage <= q <= endPage then 1 else 0)
    {
      var page := startPage;
      while page <= endPage
        invariant Tidy(histogram, locked) && startPage <= page
        invariant forall q: nat :: Count(old(histogram), q) == Count(histogram, q) + (if startPage <= q < page && q <= endPage then 1 else 0)
        decreases endPage + 1 - page
      {
        assert Count(old(histogram), page) > 0;
        assert page in histogram;
        histogram := histogram[page := histogram[page] - 1];
        if histogram[page] == 0 {
          locked := locked - {page};
          histogram := histogram - {page};
        }
        page := page + 1;
      }
    }

    /** The number of live ranges over each page goes up; a page is locked when it gets its first. */
    method LockRange(r: Range)
      requires Valid()
      modifies this
      ensures Valid() && live == old(live) + [r]
    {
      live := live + [r];
      forall page: nat
        ensures Cover(live, pageSize, page) == Cover(old(live), pageSize, page) + One(Overlaps(r, pageSize, page))
      {
        CoverMore(old(live), r, pageSize, page);
      }
      if r.size != 0 {
        CountUp(r.base / pageSize, (r.base + r.size - 1) / pageSize);
      }
    }

    /** The number of live ranges over each page goes down; a page is unlocked when it loses its last. */
    method UnlockRange(r: Range, ghost i: nat)
      requires Valid() && i < |live| && live[i] == r
      modifies this
      ensures Valid() && live == Without(old(live), i)
    {
      live := Without(live, i);
      forall page: nat
        ensures Cover(live, pageSize, page) + One(Overlaps(r, pageSize, page)) == Cover(old(live), pageSize, page)
      {
        CoverWithout(old(live), i, pageSize, page);
      }
      if r.size != 0 {
        CountDown(r.base / pageSize, (r.base + r.size - 1) / pageSize);
      }
    }

    /** The number of pages that some live range overlaps. */
    method GetLockedPageCount() returns (n: nat)
      requires Valid()
      ensures n == |locked|
    {
      n := |histogram|;
      assert histogram.Keys == locked by {
        forall page
          ensures page in histogram.Keys <==> page in locked
        {
        }
        SamePages(histogram.Keys, locked);
      }
    }

    /** A page is locked exactly when some live range overlaps it, and it is counted once for each. */
    lemma LockedWhenCovered(page: nat)
      requires Valid()
      ensures page in locked <==> exists i :: 0 <= i < |live| && Overlaps(live[i], pageSize, page)
      ensures page in locked ==> histogram[page] == Cover(live, pageSize, page)
    {
      CoveredBySome(live, pageSize, page);
      assert Count(histogram, page) == Cover(live, pageSize, page);
    }
  }

  lemma SamePages(a: set<nat>, b: set<nat>)
    requires forall page :: page in a <==> page in b
    ensures a == b
  {
  }
}
