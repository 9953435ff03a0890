/** The address manager's self-check, legacy/src/addrman.cpp, Check_: what it decides, and that it passes in every
    reachable state. */
module AddrCheck {
  import opened Wrappers
  import opened Sets
  import opened AddrTables
  import opened AddrMan
  import AddrResults

  // -------------------------------------------------------------------------
  // Entries
  // -------------------------------------------------------------------------

  /** Looking up a missing key gives zero. */
  function LookUp(a: map<NetAddr, int>, x: NetAddr): int { if x in a then a[x] else 0 }

  /** What is wrong with an entry, zero if nothing. */
  function EntryCode(info: Info, id: int, a: map<NetAddr, int>, v: seq<int>): int {
    if info.inTried && info.lastSuccess == 0 then -1
    else if info.inTried && info.refCount != 0 then -2
    else if !info.inTried && (info.refCount < 0 || info.refCount > NEW_BUCKETS_PER_ADDRESS) then -3
    else if !info.inTried && info.refCount == 0 then -4
    else if LookUp(a, info.addr.service.net) != id then -5
    else if info.randomPos < 0 || info.randomPos >= |v| || v[info.randomPos] != id then -14
    else if info.lastTry < 0 then -6
    else if info.lastSuccess < 0 then -8
    else 0
  }

  ghost predicate EntriesPass(t: Tables) {
    forall id :: id in t.mapInfo ==> EntryCode(t.mapInfo[id], id, t.mapAddr, t.vRandom) == 0
  }

  // -------------------------------------------------------------------------
  // Buckets
  // -------------------------------------------------------------------------

  /** Takes the ids of a list out of a set, if each is there. */
  function Erase(xs: seq<int>, s: set<int>): Option<set<int>> {
    if xs == [] then Some(s)
    else
      var k := |xs| - 1;
      match Erase(xs[..k], s)
      case None => None
      case Some(rest) => if xs[k] in rest then Some(rest - {xs[k]}) else None
  }

  function EraseBuckets(vv: seq<seq<int>>, k: nat, s: set<int>): Option<set<int>>
    requires k <= |vv|
  {
    if k == 0 then Some(s)
    else
      match EraseBuckets(vv, k - 1, s)
      case None => None
      case Some(rest) => Erase(vv[k - 1], rest)
  }

  function Less(m: map<int, int>, x: int): map<int, int>
    requires x in m
  {
    if m[x] - 1 == 0 then m - {x} else m[x := m[x] - 1]
  }

  /** Counts the ids of a list down, if each still has a count. */
  function CountDown(xs: seq<int>, m: map<int, int>): Option<map<int, int>> {
    if xs == [] then Some(m)
    else
      var k := |xs| - 1;
      match CountDown(xs[..k], m)
      case None => None
      case Some(rest) => if xs[k] in rest then Some(Less(rest, xs[k])) else None
  }

  function CountBuckets(vv: seq<set<int>>, k: nat, m: map<int, int>): Option<map<int, int>>
    requires k <= |vv|
  {
    if k == 0 then Some(m)
    else
      match CountBuckets(vv, k - 1, m)
      case None => None
      case Some(rest) => CountDown(Ascending(vv[k - 1]), rest)
  }

  ghost function Counts(m: Infos): map<int, int> {
    map id | id in m && !m[id].inTried :: m[id].refCount
  }

  /** What the self-check asks for. */
  ghost predicate Passes(t: Tables) {
    && |t.vRandom| == t.nTried + t.nNew
    && EntriesPass(t)
    && |Tried(t.mapInfo)| == t.nTried && |Counts(t.mapInfo)| == t.nNew
    && EraseBuckets(t.vvTried, |t.vvTried|, Tried(t.mapInfo)) == Some({})
    && CountBuckets(t.vvNew, |t.vvNew|, Counts(t.mapInfo)) == Some(map[])
  }

  // -------------------------------------------------------------------------
  // Consistent tables pass
  // -------------------------------------------------------------------------

  lemma {:induction false} EraseIs(xs: seq<int>, s: set<int>)
    requires NoDup(xs) && forall x :: x in xs ==> x in s
    ensures Erase(xs, s).Some?
    ensures forall x :: x in Erase(xs, s).value <==> x in s && x !in xs
  {
    if xs != [] {
      var k := |xs| - 1;
      var front, last := xs[..k], xs[k];
      assert xs == front + [last];
      assert last in xs && last !in front;
      forall x | x in front
        ensures x in s
      {
        assert x in xs;
      }
      EraseIs(front, s);
    }
  }

  lemma {:induction false} TriedErased(n: Network, t: Tables, k: nat)
    requires TriedOk(n, t.key, t.mapInfo, t.vvTried) && k <= |t.vvTried|
    ensures EraseBuckets(t.vvTried, k, Tried(t.mapInfo)).Some?
    ensures forall x :: x in EraseBuckets(t.vvTried, k, Tried(t.mapInfo)).value <==>
      x in Tried(t.mapInfo) && TriedBucket(n, t.key, t.mapInfo[x].addr.service) >= k
  {
    if k > 0 {
      TriedErased(n, t, k - 1);
      var rest := EraseBuckets(t.vvTried, k - 1, Tried(t.mapInfo)).value;
      var xs := t.vvTried[k - 1];
      forall x | x in xs
        ensures x in rest
      {
        assert x in t.mapInfo;
      }
      EraseIs(xs, rest);
      forall x | x in rest
        ensures x in xs <==> TriedBucket(n, t.key, t.mapInfo[x].addr.service) == k - 1
      {
      }
    }
  }

  lemma {:induction false} CountDownIs(xs: seq<int>, m: map<int, int>)
    requires NoDup(xs) && (forall x :: x in xs ==> x in m) && (forall x :: x in m ==> m[x] >= 1)
    ensures CountDown(xs, m).Some?
    ensures forall x :: x in CountDown(xs, m).value <==> x in m && (x in xs ==> m[x] > 1)
    ensures forall x :: x in CountDown(xs, m).value ==>
      CountDown(xs, m).value[x] == m[x] - if x in xs then 1 else 0
  {
    if xs != [] {
      var k := |xs| - 1;
      var front, last := xs[..k], xs[k];
      assert xs == front + [last];
      assert last in xs && last !in front;
      forall x | x in front
        ensures x in m
      {
        assert x in xs;
      }
      CountDownIs(front, m);
    }
  }

  lemma IncreasingNoDup(xs: seq<int>)
    requires Increasing(xs)
    ensures NoDup(xs)
  {
  }

  ghost function HeldBelow(vv: seq<set<int>>, k: nat, x: int): nat
    requires k <= |vv|
  {
    |Holders(vv[..k], x)|
  }

  lemma HeldNext(vv: seq<set<int>>, k: nat, x: int)
    requires k < |vv|
    ensures HeldBelow(vv, k + 1, x) == HeldBelow(vv, k, x) + if x in vv[k] then 1 else 0
    ensures HeldBelow(vv, k + 1, x) <= |Holders(vv, x)|
  {
    HoldersPrefix(vv, k, x);
    SubsetCard(Holders(vv[..k + 1], x), Holders(vv, x));
  }

  /** The counts that are left after the buckets below `k`. */
  ghost predicate CountsLeft(m: Infos, vv: seq<set<int>>, k: nat, rest: map<int, int>)
    requires k <= |vv|
  {
    && (forall x :: x in rest <==> x in m && !m[x].inTried && HeldBelow(vv, k, x) < m[x].refCount)
    && (forall x :: x in rest ==> rest[x] == m[x].refCount - HeldBelow(vv, k, x))
  }

  lemma BucketHasCounts(m: Infos, vv: seq<set<int>>, k: nat, rest: map<int, int>, x: int)
    requires NewOk(m, vv, {}) && k < |vv| && CountsLeft(m, vv, k, rest) && x in vv[k]
    ensures x in rest
  {
    HeldNext(vv, k, x);
    assert x in m;
    assert k in Holders(vv, x);
  }

  lemma CountsLeftNext(m: Infos, vv: seq<set<int>>, k: nat, rest: map<int, int>, xs: seq<int>, rest': map<int, int>)
    requires k < |vv| && CountsLeft(m, vv, k, rest) && forall x :: x in xs <==> x in vv[k]
    requires forall x :: x in rest' <==> x in rest && (x in xs ==> rest[x] > 1)
    requires forall x :: x in rest' ==> rest'[x] == rest[x] - if x in xs then 1 else 0
    ensures CountsLeft(m, vv, k + 1, rest')
  {
    forall x
      ensures HeldBelow(vv, k + 1, x) == HeldBelow(vv, k, x) + if x in vv[k] then 1 else 0
    {
      HeldNext(vv, k, x);
    }
  }

  lemma AllCountsLeft(m: Infos, vv: seq<set<int>>)
    requires NewOk(m, vv, {})
    ensures CountsLeft(m, vv, 0, Counts(m))
  {
    forall x
      ensures HeldBelow(vv, 0, x) == 0
    {
      SameSet(Holders(vv[..0], x), {});
    }
  }

  lemma {:induction false} NewCounted(m: Infos, vv: seq<set<int>>, k: nat)
    requires NewOk(m, vv, {}) && k <= |vv|
    ensures CountBuckets(vv, k, Counts(m)).Some? && CountsLeft(m, vv, k, CountBuckets(vv, k, Counts(m)).value)
  {
    if k == 0 {
      AllCountsLeft(m, vv);
    } else {
      NewCounted(m, vv, k - 1);
      BucketCounted(m, vv, k - 1, CountBuckets(vv, k - 1, Counts(m)).value, Ascending(vv[k - 1]));
    }
  }

  lemma BucketCounted(m: Infos, vv: seq<set<int>>, k: nat, rest: map<int, int>, xs: seq<int>)
    requires NewOk(m, vv, {}) && k < |vv| && CountsLeft(m, vv, k, rest)
    requires Increasing(xs) && forall x :: x in xs <==> x in vv[k]
    ensures CountDown(xs, rest).Some? && CountsLeft(m, vv, k + 1, CountDown(xs, rest).value)
  {
    IncreasingNoDup(xs);
    forall x | x in xs
      ensures x in rest
    {
      BucketHasCounts(m, vv, k, rest, x);
    }
    CountDownIs(xs, rest);
    CountsLeftNext(m, vv, k, rest, xs, CountDown(xs, rest).value);
  }

  lemma NoKeys(m: map<int, int>)
    requires forall x :: x !in m
    ensures m == map[]
  {
    SameSet(m.Keys, {});
  }

  lemma NewPasses(m: Infos, vv: seq<set<int>>)
    requires NewOk(m, vv, {})
    ensures CountBuckets(vv, |vv|, Counts(m)) == Some(map[])
  {
    NewCounted(m, vv, |vv|);
    assert vv[..|vv|] == vv;
    NoKeys(CountBuckets(vv, |vv|, Counts(m)).value);
  }

  lemma TriedPasses(n: Network, t: Tables)
    requires TriedOk(n, t.key, t.mapInfo, t.vvTried)
    ensures EraseBuckets(t.vvTried, |t.vvTried|, Tried(t.mapInfo)) == Some({})
  {
    TriedErased(n, t, |t.vvTried|);
    SameSet(EraseBuckets(t.vvTried, |t.vvTried|, Tried(t.mapInfo)).value, {});
  }

  lemma CountsCard(m: Infos)
    ensures |Counts(m)| == |Untried(m)|
  {
    SameSet(Counts(m).Keys, Untried(m));
    assert |Counts(m)| == |Counts(m).Keys|;
  }

  lemma EntryPasses(n: Network, t: Tables, id: int)
    requires Consistent(n, t) && TimesOk(t) && id in t.mapInfo
    ensures EntryCode(t.mapInfo[id], id, t.mapAddr, t.vRandom) == 0
  {
  }

  /** Consistent tables with sane times pass the self-check. */
  lemma ConsistentPasses(n: Network, t: Tables)
    requires Consistent(n, t) && TimesOk(t)
    ensures Passes(t)
  {
    AddrResults.RandomCount(n, t);
    CountsCard(t.mapInfo);
    NewPasses(t.mapInfo, t.vvNew);
    TriedPasses(n, t);
    forall id | id in t.mapInfo
      ensures EntryCode(t.mapInfo[id], id, t.mapAddr, t.vRandom) == 0
    {
      EntryPasses(n, t, id);
    }
  }

  /** The self-check passes after any operations with sensible times. */
  lemma HistoryPasses(n: Network, states: seq<Tables>, ops: seq<Op>, i: nat)
    requires IsHistory(n, states, ops) && i <= |ops|
    requires forall j :: 0 <= j < i ==> AddrResults.TimelyOp(ops[j])
    ensures Passes(states[i])
  {
    AddrResults.HistoryIsTimely(n, states, ops, i);
    ConsistentPasses(n, states[i]);
  }

  // -------------------------------------------------------------------------
  // What passing means
  // -------------------------------------------------------------------------

  lemma {:induction false} ErasedMeans(xs: seq<int>, s: set<int>)
    requires Erase(xs, s).Some?
    ensures NoDup(xs) && forall x :: x in xs ==> x in s
    ensures forall x :: x in Erase(xs, s).value <==> x in s && x !in xs
  {
    if xs != [] {
      var k := |xs| - 1;
      var front, last := xs[..k], xs[k];
      assert xs == front + [last];
      ErasedMeans(front, s);
      assert forall i :: 0 <= i < k ==> xs[i] == front[i] && front[i] in front;
    }
  }

  /** The first `k` buckets are lists without repetition, of ids of `s`, no two sharing one. */
  ghost predicate Apart(vv: seq<seq<int>>, k: nat, s: set<int>)
    requires k <= |vv|
  {
    && (forall b :: 0 <= b < k ==> NoDup(vv[b]))
    && (forall b, x :: 0 <= b < k && x in vv[b] ==> x in s)
    && (forall b, c, x :: 0 <= b < k && 0 <= c < k && x in vv[b] && x in vv[c] ==> b == c)
  }

  ghost predicate InNone(vv: seq<seq<int>>, k: nat, x: int)
    requires k <= |vv|
  {
    forall b :: 0 <= b < k ==> x !in vv[b]
  }

  lemma {:induction false} BucketsErasedMean(vv: seq<seq<int>>, k: nat, s: set<int>)
    requires k <= |vv| && EraseBuckets(vv, k, s).Some?
    ensures Apart(vv, k, s)
    ensures forall x :: x in EraseBuckets(vv, k, s).value <==> x in s && InNone(vv, k, x)
  {
    if k > 0 {
      BucketsErasedMean(vv, k - 1, s);
      var rest := EraseBuckets(vv, k - 1, s).value;
      ErasedMeans(vv[k - 1], rest);
      OneMoreBucket(vv, k - 1, s, rest, EraseBuckets(vv, k, s).value);
    }
  }

  lemma OneMoreBucket(vv: seq<seq<int>>, k: nat, s: set<int>, rest: set<int>, rest': set<int>)
    requires k < |vv| && Apart(vv, k, s) && forall x :: x in rest <==> x in s && InNone(vv, k, x)
    requires NoDup(vv[k]) && forall x :: x in vv[k] ==> x in rest
    requires forall x :: x in rest' <==> x in rest && x !in vv[k]
    ensures Apart(vv, k + 1, s) && forall x :: x in rest' <==> x in s && InNone(vv, k + 1, x)
  {
    forall x
      ensures InNone(vv, k + 1, x) <==> InNone(vv, k, x) && x !in vv[k]
    {
    }
    forall b, c, x | 0 <= b < k + 1 && 0 <= c < k + 1 && x in vv[b] && x in vv[c]
      ensures b == c
    {
      if b == k {
        assert InNone(vv, k, x);
      }
      if c == k {
        assert InNone(vv, k, x);
      }
    }
  }

  lemma {:induction false} CountedDownMeans(xs: seq<int>, m: map<int, int>)
    requires CountDown(xs, m).Some? && NoDup(xs) && forall x :: x in m ==> m[x] >= 1
    ensures forall x :: x in xs ==> x in m
  {
    if xs != [] {
      var k := |xs| - 1;
      var front, last := xs[..k], xs[k];
      assert xs == front + [last];
      CountedDownMeans(front, m);
      CountDownIs(front, m);
    }
  }

  /** The counts `m` left after the buckets below `k`, all of whose ids are counted. */
  ghost predicate LeftOver(m: map<int, int>, vv: seq<set<int>>, k: nat, rest: map<int, int>)
    requires k <= |vv|
  {
    && (forall b, x :: 0 <= b < k && x in vv[b] ==> x in m)
    && (forall x :: x in rest <==> x in m && HeldBelow(vv, k, x) != m[x])
    && (forall x :: x in m ==> HeldBelow(vv, k, x) <= m[x])
    && (forall x :: x in rest ==> rest[x] == m[x] - HeldBelow(vv, k, x))
  }

  lemma LeftOverNext(m: map<int, int>, vv: seq<set<int>>, k: nat, rest: map<int, int>, xs: seq<int>)
    requires k < |vv| && LeftOver(m, vv, k, rest) && (forall x :: x in m ==> m[x] >= 1)
    requires Increasing(xs) && (forall x :: x in xs <==> x in vv[k]) && CountDown(xs, rest).Some?
    ensures LeftOver(m, vv, k + 1, CountDown(xs, rest).value)
  {
    IncreasingNoDup(xs);
    CountedDownMeans(xs, rest);
    CountDownIs(xs, rest);
    forall x
      ensures HeldBelow(vv, k + 1, x) == HeldBelow(vv, k, x) + if x in vv[k] then 1 else 0
    {
      HeldNext(vv, k, x);
    }
  }

  lemma NothingLeft(vv: seq<set<int>>, m: map<int, int>)
    requires forall x :: x in m ==> m[x] >= 1
    ensures LeftOver(m, vv, 0, m)
  {
    forall x
      ensures HeldBelow(vv, 0, x) == 0
    {
      SameSet(Holders(vv[..0], x), {});
    }
  }

  lemma {:induction false} BucketsCountedMean(vv: seq<set<int>>, k: nat, m: map<int, int>)
    requires k <= |vv| && CountBuckets(vv, k, m).Some? && forall x :: x in m ==> m[x] >= 1
    ensures LeftOver(m, vv, k, CountBuckets(vv, k, m).value)
  {
    if k == 0 {
      NothingLeft(vv, m);
    } else {
      BucketsCountedMean(vv, k - 1, m);
      LeftOverNext(m, vv, k - 1, CountBuckets(vv, k - 1, m).value, Ascending(vv[k - 1]));
    }
  }

  /** Each tried id is in exactly one slot, and the slots hold nothing else. */
  ghost predicate TriedOnce(t: Tables) {
    && Apart(t.vvTried, |t.vvTried|, Tried(t.mapInfo))
    && (forall id :: id in t.mapInfo && t.mapInfo[id].inTried ==> exists b :: 0 <= b < |t.vvTried| && id in t.vvTried[b])
  }

  /** The reference counts are right, and the new buckets hold untried ids only. */
  ghost predicate NewCountedRight(t: Tables) {
    && (forall b, x :: 0 <= b < |t.vvNew| && x in t.vvNew[b] ==> x in t.mapInfo && !t.mapInfo[x].inTried)
    && (forall id :: id in t.mapInfo && !t.mapInfo[id].inTried ==> t.mapInfo[id].refCount == |Holders(t.vvNew, id)|)
  }

  lemma PassingTried(t: Tables)
    requires Passes(t)
    ensures TriedOnce(t)
  {
    var vv, s := t.vvTried, Tried(t.mapInfo);
    BucketsErasedMean(vv, |vv|, s);
    forall id | id in t.mapInfo && t.mapInfo[id].inTried
      ensures exists b :: 0 <= b < |vv| && id in vv[b]
    {
      assert id in s && !InNone(vv, |vv|, id);
    }
  }

  lemma PassingNew(t: Tables)
    requires Passes(t)
    ensures NewCountedRight(t)
  {
    var vv, m := t.vvNew, Counts(t.mapInfo);
    forall x | x in m
      ensures m[x] >= 1
    {
      assert EntryCode(t.mapInfo[x], x, t.mapAddr, t.vRandom) == 0;
    }
    BucketsCountedMean(vv, |vv|, m);
    assert vv[..|vv|] == vv;
    forall b, x | 0 <= b < |vv| && x in vv[b]
      ensures x in t.mapInfo && !t.mapInfo[x].inTried
    {
      assert x in m;
    }
    forall id | id in t.mapInfo && !t.mapInfo[id].inTried
      ensures t.mapInfo[id].refCount == |Holders(vv, id)|
    {
      assert id in m && HeldBelow(vv, |vv|, id) == |Holders(vv, id)|;
      assert id !in CountBuckets(vv, |vv|, m).value;
    }
  }

  /** A zero answer means: the counters are right, each tried id is in exactly one slot, each reference count is the
      number of new buckets that hold the id, no tried id is in a new bucket, and every position is right. */
  lemma PassingMeans(t: Tables)
    requires Passes(t)
    ensures CountsOk(t.mapInfo, t.nTried, t.nNew) && TriedOnce(t) && NewCountedRight(t) && TimesOk(t)
    ensures RandomOk(t.mapInfo, t.vRandom)
  {
    PassingTried(t);
    PassingNew(t);
    CountsCard(t.mapInfo);
    PassingRandom(t);
    PassingTimes(t);
  }

  // That every place of vRandom is some id's position is not tested, but follows by counting

  ghost function RightPlaces(m: Infos, v: seq<int>): set<int> {
    set i | 0 <= i < |v| && v[i] in m && m[v[i]].randomPos == i
  }

  ghost function Named(v: seq<int>, places: set<int>): set<int>
    requires forall i :: i in places ==> 0 <= i < |v|
  {
    set i | i in places :: v[i]
  }

  lemma {:induction false} NamedBound(v: seq<int>, places: set<int>)
    requires forall i :: i in places ==> 0 <= i < |v|
    ensures |Named(v, places)| <= |places|
    decreases |places|
  {
    if places == {} {
      SameSet(Named(v, places), {});
    } else {
      var i := Min(places);
      var rest := places - {i};
      NamedBound(v, rest);
      SameSet(Named(v, places), Named(v, rest) + {v[i]});
    }
  }

  ghost function AllPlaces(n: nat): (s: set<int>)
    ensures forall i :: i in s <==> 0 <= i < n
    ensures |s| == n
  {
    if n == 0 then {} else AllPlaces(n - 1) + {n - 1}
  }

  lemma EveryPlaceIsRight(m: Infos, v: seq<int>)
    requires forall id :: id in m ==> 0 <= m[id].randomPos < |v| && v[m[id].randomPos] == id
    requires |m.Keys| == |v|
    ensures RandomOk(m, v)
  {
    var right, all := RightPlaces(m, v), AllPlaces(|v|);
    NamesAll(m, v, right);
    NamedBound(v, right);
    SubsetCard(right, all);
    FullSubset(right, all);
    forall i | 0 <= i < |v|
      ensures v[i] in m && m[v[i]].randomPos == i
    {
      assert i in all && i in right;
    }
  }

  lemma NamesAll(m: Infos, v: seq<int>, right: set<int>)
    requires forall id :: id in m ==> 0 <= m[id].randomPos < |v| && v[m[id].randomPos] == id
    requires right == RightPlaces(m, v)
    ensures Named(v, right) == m.Keys
  {
    forall id
      ensures id in Named(v, right) <==> id in m.Keys
    {
      if id in m {
        var i := m[id].randomPos;
        assert i in right && v[i] == id;
      }
    }
    SameSet(Named(v, right), m.Keys);
  }

  lemma PassingRandom(t: Tables)
    requires EntriesPass(t) && |t.vRandom| == t.nTried + t.nNew && CountsOk(t.mapInfo, t.nTried, t.nNew)
    ensures RandomOk(t.mapInfo, t.vRandom)
  {
    forall id | id in t.mapInfo
      ensures 0 <= t.mapInfo[id].randomPos < |t.vRandom| && t.vRandom[t.mapInfo[id].randomPos] == id
    {
      assert EntryCode(t.mapInfo[id], id, t.mapAddr, t.vRandom) == 0;
    }
    AddrResults.SplitIds(t.mapInfo);
    EveryPlaceIsRight(t.mapInfo, t.vRandom);
  }

  lemma PassingTimes(t: Tables)
    requires EntriesPass(t)
    ensures TimesOk(t)
  {
    forall id | id in t.mapInfo
      ensures EntryCode(t.mapInfo[id], id, t.mapAddr, t.vRandom) == 0
    {
    }
  }

  /** What the self-check does not look at: ids below the id counter, the number of buckets and their sizes, whether a
      tried id is in its own bucket, and whether the address index has missing or surplus entries. */
  ghost predicate Untested(n: Network, t: Tables) {
    && IdsOk(t.mapInfo, t.nIdCount)
    && |t.vvNew| == NEW_BUCKETS && (forall b :: 0 <= b < |t.vvNew| ==> |t.vvNew[b]| <= NEW_BUCKET_SIZE)
    && |t.vvTried| == TRIED_BUCKETS && (forall b :: 0 <= b < |t.vvTried| ==> |t.vvTried[b]| <= TRIED_BUCKET_SIZE)
    && (forall b, id :: 0 <= b < |t.vvTried| && id in t.vvTried[b] && id in t.mapInfo ==>
          TriedBucket(n, t.key, t.mapInfo[id].addr.service) == b)
    && (forall id :: id in t.mapInfo ==> t.mapInfo[id].addr.service.net in t.mapAddr)
    && (forall x :: x in t.mapAddr ==> t.mapAddr[x] in t.mapInfo && t.mapInfo[t.mapAddr[x]].addr.service.net == x)
  }

  lemma PassingNewOk(t: Tables)
    requires EntriesPass(t) && NewCountedRight(t)
    requires |t.vvNew| == NEW_BUCKETS && forall b :: 0 <= b < |t.vvNew| ==> |t.vvNew[b]| <= NEW_BUCKET_SIZE
    ensures NewOk(t.mapInfo, t.vvNew, {})
  {
    forall id | id in t.mapInfo
      ensures t.mapInfo[id].refCount == |Holders(t.vvNew, id)|
      ensures if t.mapInfo[id].inTried then t.mapInfo[id].refCount == 0
              else 1 <= t.mapInfo[id].refCount <= NEW_BUCKETS_PER_ADDRESS
    {
      assert EntryCode(t.mapInfo[id], id, t.mapAddr, t.vRandom) == 0;
      if t.mapInfo[id].inTried {
        SameSet(Holders(t.vvNew, id), {});
      }
    }
  }

  lemma PassingTriedOk(n: Network, t: Tables)
    requires TriedOnce(t) && Untested(n, t)
    ensures TriedOk(n, t.key, t.mapInfo, t.vvTried)
  {
    forall b, id | 0 <= b < |t.vvTried| && id in t.vvTried[b]
      ensures id in t.mapInfo && t.mapInfo[id].inTried && TriedBucket(n, t.key, t.mapInfo[id].addr.service) == b
    {
      assert id in Tried(t.mapInfo);
    }
  }

  /** The invariant with sane times is exactly a zero answer together with what the self-check does not look at. */
  lemma ConsistentIff(n: Network, t: Tables)
    ensures Consistent(n, t) && TimesOk(t) <==> Passes(t) && Untested(n, t)
  {
    if Consistent(n, t) && TimesOk(t) {
      ConsistentPasses(n, t);
      ConsistentUntested(n, t);
    }
    if Passes(t) && Untested(n, t) {
      PassingIsConsistent(n, t);
    }
  }

  lemma ConsistentUntested(n: Network, t: Tables)
    requires Consistent(n, t)
    ensures Untested(n, t)
  {
  }

  lemma PassingIsConsistent(n: Network, t: Tables)
    requires Passes(t) && Untested(n, t)
    ensures Consistent(n, t) && TimesOk(t)
  {
    PassingMeans(t);
    PassingNewOk(t);
    PassingTriedOk(n, t);
    PassingAddrOk(n, t);
  }

  lemma PassingAddrOk(n: Network, t: Tables)
    requires EntriesPass(t) && Untested(n, t)
    ensures AddrOk(t.mapInfo, t.mapAddr)
  {
    forall id | id in t.mapInfo
      ensures t.mapAddr[t.mapInfo[id].addr.service.net] == id
    {
      assert EntryCode(t.mapInfo[id], id, t.mapAddr, t.vRandom) == 0;
    }
  }

  /** A surplus entry of the address index goes unnoticed. */
  lemma SurplusAddressPasses(n: Network, key: Key, x: NetAddr, id: int)
    ensures var t := Empty(key).(mapAddr := map[x := id]); Passes(t) && !Consistent(n, t)
  {
    EmptyIsConsistent(n, key);
    ConsistentPasses(n, Empty(key));
    var t := Empty(key).(mapAddr := map[x := id]);
    assert x in t.mapAddr && t.mapAddr[x] !in t.mapInfo;
  }

  // -------------------------------------------------------------------------
  // The routine
  // -------------------------------------------------------------------------

  /** The entries one by one; what they leave to be found in the buckets. */
  method CheckEntries(m: Infos, a: map<NetAddr, int>, v: seq<int>)
    returns (code: int, setTried: set<int>, mapNew: map<int, int>)
    ensures code == 0 <==> forall id :: id in m ==> EntryCode(m[id], id, a, v) == 0
    ensures code == 0 ==> setTried == Tried(m) && mapNew == Counts(m)
  {
    var order := Ascending(m.Keys);
    forall k | 0 <= k < |order|
      ensures order[k] in m
    {
      assert order[k] in order;
    }
    code, setTried, mapNew := CheckList(m, a, v, order);
    ListCoversAll(m, a, v, order);
    if code == 0 {
      GatheredAll(m, order, setTried, mapNew);
    }
  }

  ghost predicate ListPasses(m: Infos, a: map<NetAddr, int>, v: seq<int>, order: seq<int>) {
    forall k :: 0 <= k < |order| ==> order[k] in m && EntryCode(m[order[k]], order[k], a, v) == 0
  }

  lemma ListCoversAll(m: Infos, a: map<NetAddr, int>, v: seq<int>, order: seq<int>)
    requires forall x :: x in order <==> x in m
    ensures ListPasses(m, a, v, order) <==> forall id :: id in m ==> EntryCode(m[id], id, a, v) == 0
  {
    if ListPasses(m, a, v, order) {
      forall id | id in m
        ensures EntryCode(m[id], id, a, v) == 0
      {
        assert id in order;
      }
    }
    if forall id :: id in m ==> EntryCode(m[id], id, a, v) == 0 {
      forall k | 0 <= k < |order|
        ensures order[k] in m && EntryCode(m[order[k]], order[k], a, v) == 0
      {
        var id := order[k];
        assert id in order;
      }
    }
  }

  method CheckList(m: Infos, a: map<NetAddr, int>, v: seq<int>, order: seq<int>)
    returns (code: int, setTried: set<int>, mapNew: map<int, int>)
    requires forall k :: 0 <= k < |order| ==> order[k] in m
    ensures code == 0 <==> ListPasses(m, a, v, order)
    ensures code == 0 ==> Gathered(m, order, setTried, mapNew)
  {
    setTried, mapNew := {}, map[];
    ghost var seen := [];
    var i := 0;
    while i < |order|
      invariant 0 <= i <= |order| && seen == order[..i]
      invariant ListPasses(m, a, v, seen) && Gathered(m, seen, setTried, mapNew)
    {
      var id := order[i];
      code := EntryCode(m[id], id, a, v);
      if code != 0 {
        return;
      }
      GatherOne(m, seen, setTried, mapNew, id);
      seen := seen + [id];
      if m[id].inTried {
        setTried := setTried + {id};
      } else {
        mapNew := mapNew[id := m[id].refCount];
      }
      i := i + 1;
    }
    code := 0;
    assert seen == order;
  }

  /** What is gathered from the ids seen so far. */
  ghost predicate Gathered(m: Infos, seen: seq<int>, tried: set<int>, counts: map<int, int>) {
    && (forall x :: x in tried <==> x in seen && x in m && m[x].inTried)
    && (forall x :: x in counts <==> x in seen && x in m && !m[x].inTried)
    && (forall x :: x in counts ==> counts[x] == m[x].refCount)
  }

  lemma GatherOne(m: Infos, seen: seq<int>, tried: set<int>, counts: map<int, int>, id: int)
    requires Gathered(m, seen, tried, counts) && id in m
    ensures if m[id].inTried then Gathered(m, seen + [id], tried + {id}, counts)
            else Gathered(m, seen + [id], tried, counts[id := m[id].refCount])
  {
  }

  lemma GatheredAll(m: Infos, seen: seq<int>, tried: set<int>, counts: map<int, int>)
    requires Gathered(m, seen, tried, counts) && forall x :: x in m ==> x in seen
    ensures tried == Tried(m) && counts == Counts(m)
  {
    SameSet(tried, Tried(m));
    SameCounts(counts, Counts(m));
  }

  lemma SameCounts(a: map<int, int>, b: map<int, int>)
    requires forall x :: x in a <==> x in b
    requires forall x :: x in a ==> a[x] == b[x]
    ensures a == b
  {
    forall x
      ensures x in a <==> x in b
    {}
    forall x | x in a
      ensures a[x] == b[x]
    {}
  }

  method CheckTried(vv: seq<seq<int>>, s: set<int>) returns (code: int, rest: set<int>)
    ensures code == 0 <==> EraseBuckets(vv, |vv|, s).Some?
    ensures code == 0 ==> rest == EraseBuckets(vv, |vv|, s).value
  {
    rest := s;
    for b := 0 to |vv|
      invariant EraseBuckets(vv, b, s) == Some(rest)
    {
      var ok, less := EraseList(vv[b], rest);
      if !ok {
        FailsOn(vv, b + 1, s);
        return -11, rest;
      }
      rest := less;
    }
    code := 0;
  }

  lemma {:induction false} FailsOn(vv: seq<seq<int>>, b: nat, s: set<int>)
    requires b <= |vv| && EraseBuckets(vv, b, s) == None
    ensures EraseBuckets(vv, |vv|, s) == None
    decreases |vv| - b
  {
    if b < |vv| {
      assert EraseBuckets(vv, b + 1, s) == None;
      FailsOn(vv, b + 1, s);
    }
  }

  method EraseList(xs: seq<int>, s: set<int>) returns (ok: bool, rest: set<int>)
    ensures ok <==> Erase(xs, s).Some?
    ensures ok ==> rest == Erase(xs, s).value
  {
    rest := s;
    for i := 0 to |xs|
      invariant Erase(xs[..i], s) == Some(rest)
    {
      assert xs[..i + 1][..i] == xs[..i];
      if xs[i] !in rest {
        EraseFailsOn(xs, i + 1, s);
        return false, rest;
      }
      rest := rest - {xs[i]};
    }
    assert xs[..|xs|] == xs;
    ok := true;
  }

  lemma {:induction false} EraseFailsOn(xs: seq<int>, i: nat, s: set<int>)
    requires i <= |xs| && Erase(xs[..i], s) == None
    ensures Erase(xs, s) == None
    decreases |xs| - i
  {
    if i < |xs| {
      assert xs[..i + 1][..i] == xs[..i];
      EraseFailsOn(xs, i + 1, s);
    } else {
      assert xs[..i] == xs;
    }
  }

  method CheckNew(vv: seq<set<int>>, m: map<int, int>) returns (code: int, rest: map<int, int>)
    ensures code == 0 <==> CountBuckets(vv, |vv|, m).Some?
    ensures code == 0 ==> rest == CountBuckets(vv, |vv|, m).value
  {
    rest := m;
    for b := 0 to |vv|
      invariant CountBuckets(vv, b, m) == Some(rest)
    {
      var ok, less := CountList(Ascending(vv[b]), rest);
      if !ok {
        CountFailsOn(vv, b + 1, m);
        return -12, rest;
      }
      rest := less;
    }
    code := 0;
  }

  lemma {:induction false} CountFailsOn(vv: seq<set<int>>, b: nat, m: map<int, int>)
    requires b <= |vv| && CountBuckets(vv, b, m) == None
    ensures CountBuckets(vv, |vv|, m) == None
    decreases |vv| - b
  {
    if b < |vv| {
      assert CountBuckets(vv, b + 1, m) == None;
      CountFailsOn(vv, b + 1, m);
    }
  }

  method CountList(xs: seq<int>, m: map<int, int>) returns (ok: bool, rest: map<int, int>)
    ensures ok <==> CountDown(xs, m).Some?
    ensures ok ==> rest == CountDown(xs, m).value
  {
    rest := m;
    for i := 0 to |xs|
      invariant CountDown(xs[..i], m) == Some(rest)
    {
      assert xs[..i + 1][..i] == xs[..i];
      if xs[i] !in rest {
        CountListFailsOn(xs, i + 1, m);
        return false, rest;
      }
      rest := Less(rest, xs[i]);
    }
    assert xs[..|xs|] == xs;
    ok := true;
  }

  lemma {:induction false} CountListFailsOn(xs: seq<int>, i: nat, m: map<int, int>)
    requires i <= |xs| && CountDown(xs[..i], m) == None
    ensures CountDown(xs, m) == None
    decreases |xs| - i
  {
    if i < |xs| {
      assert xs[..i + 1][..i] == xs[..i];
      CountListFailsOn(xs, i + 1, m);
    } else {
      assert xs[..i] == xs;
    }
  }

  /** The order of the tests is the code's; zero means that all of them passed. */
  method Check(am: Manager) returns (code: int)
    ensures code == 0 <==> Passes(am.State())
  {
    if |am.vRandom| != am.nTried + am.nNew {
      return -7;
    }
    var setTried, mapNew;
    code, setTried, mapNew := CheckEntries(am.mapInfo, am.mapAddr, am.vRandom);
    if code != 0 {
      return;
    }
    if |setTried| != am.nTried {
      return -9;
    }
    if |mapNew| != am.nNew {
      return -10;
    }
    var restTried, restNew;
    code, restTried := CheckTried(am.vvTried, setTried);
    if code != 0 {
      return;
    }
    code, restNew := CheckNew(am.vvNew, mapNew);
    if code != 0 {
      return;
    }
    if |restTried| != 0 {
      return -13;
    }
    if |restNew| != 0 {
      return -15;
    }
    Emptied(restTried, restNew);
  }

  lemma Emptied(s: set<int>, m: map<int, int>)
    requires |s| == 0 && |m| == 0
    ensures s == {} && m == map[]
  {
    assert m.Keys == {};
  }
}
