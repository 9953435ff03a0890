/** Saving and loading the address manager (the serializer of legacy/src/addrman.h).

    Ids, `mapAddr`, `vRandom`, the tried buckets and the reference counts are not in the file; reading
    rebuilds them. `SavedThenLoaded` shows that nothing but the numbering is lost.
 */
module AddrFile {
  import opened Sets
  import opened AddrTables
  import opened AddrMan
  import AddrResults

  /** The part of an entry that is written. */
  datatype Record = Record(addr: Address, source: NetAddr, lastSuccess: int, attempts: int)

  datatype Image = Image(
    key: Key, nNew: int, nTried: int, nUBuckets: int,
    fromNew: seq<Record>, fromTried: seq<Record>, buckets: seq<seq<int>>)

  function Kept(info: Info): Record {
    Record(info.addr, info.source, info.lastSuccess, info.attempts)
  }

  function Revived(r: Record, randomPos: int): Info {
    Info(r.addr, r.source, r.lastSuccess, 0, r.attempts, 0, false, randomPos)
  }

  // -------------------------------------------------------------------------
  // What is written
  // -------------------------------------------------------------------------

  ghost function IndexOf(xs: seq<int>, x: int): (i: int)
    requires x in xs
    ensures 0 <= i < |xs| && xs[i] == x
  {
    var i :| 0 <= i < |xs| && xs[i] == x;
    i
  }

  ghost function NewIds(m: Infos): seq<int> { Ascending(Untried(m)) }
  ghost function TriedIds(m: Infos): seq<int> { Ascending(Tried(m)) }

  ghost function Records(m: Infos, ids: seq<int>): seq<Record>
    requires forall i :: 0 <= i < |ids| ==> ids[i] in m
  {
    seq(|ids|, i requires 0 <= i < |ids| => Kept(m[ids[i]]))
  }

  ghost function Indexes(bucket: seq<int>, ids: seq<int>): seq<int>
    requires forall i :: 0 <= i < |bucket| ==> bucket[i] in ids
  {
    seq(|bucket|, i requires 0 <= i < |bucket| => IndexOf(ids, bucket[i]))
  }

  lemma IdsAreKnown(m: Infos)
    ensures forall i :: 0 <= i < |NewIds(m)| ==> NewIds(m)[i] in m && !m[NewIds(m)[i]].inTried
    ensures forall i :: 0 <= i < |TriedIds(m)| ==> TriedIds(m)[i] in m && m[TriedIds(m)[i]].inTried
  {
    forall i | 0 <= i < |NewIds(m)|
      ensures NewIds(m)[i] in m && !m[NewIds(m)[i]].inTried
    {
      assert NewIds(m)[i] in NewIds(m);
    }
    forall i | 0 <= i < |TriedIds(m)|
      ensures TriedIds(m)[i] in m && m[TriedIds(m)[i]].inTried
    {
      assert TriedIds(m)[i] in TriedIds(m);
    }
  }

  lemma BucketIsNew(m: Infos, vv: seq<set<int>>, b: int)
    requires NewOk(m, vv, {}) && 0 <= b < |vv|
    ensures forall i :: 0 <= i < |Ascending(vv[b])| ==> Ascending(vv[b])[i] in NewIds(m)
  {
    forall i | 0 <= i < |Ascending(vv[b])|
      ensures Ascending(vv[b])[i] in NewIds(m)
    {
      var x := Ascending(vv[b])[i];
      assert x in Ascending(vv[b]);
      assert b in Holders(vv, x);
    }
  }

  ghost function SavedBucket(m: Infos, vv: seq<set<int>>, b: int): seq<int>
    requires NewOk(m, vv, {}) && 0 <= b < |vv|
  {
    BucketIsNew(m, vv, b);
    Indexes(Ascending(vv[b]), NewIds(m))
  }

  ghost function Saved(n: Network, t: Tables): Image
    requires Consistent(n, t)
  {
    IdsAreKnown(t.mapInfo);
    Image(t.key, t.nNew, t.nTried, NEW_BUCKETS,
          Records(t.mapInfo, NewIds(t.mapInfo)), Records(t.mapInfo, TriedIds(t.mapInfo)),
          seq(|t.vvNew|, b requires 0 <= b < |t.vvNew| => SavedBucket(t.mapInfo, t.vvNew, b)))
  }

  // -------------------------------------------------------------------------
  // What reading builds, one record at a time
  // -------------------------------------------------------------------------

  /** A complete image for the compiled-in number of buckets, with indexes of new entries only. */
  predicate WellFormed(im: Image) {
    && |im.fromNew| == im.nNew && |im.fromTried| == im.nTried
    && im.nUBuckets == NEW_BUCKETS == |im.buckets|
    && (forall b, i :: 0 <= b < |im.buckets| && 0 <= i < |im.buckets[b]| ==> 0 <= im.buckets[b][i] < im.nNew)
  }

  function LoadNew(im: Image, k: nat): Tables
    requires k <= |im.fromNew|
  {
    if k == 0 then Empty(im.key).(nNew := im.nNew, nTried := im.nTried)
    else
      var t := LoadNew(im, k - 1);
      var r := im.fromNew[k - 1];
      t.(mapInfo := t.mapInfo[k - 1 := Revived(r, |t.vRandom|)],
         mapAddr := t.mapAddr[r.addr.service.net := k - 1],
         vRandom := t.vRandom + [k - 1])
  }

  /** The tables one more tried record later. */
  function TriedExtended(t: Tables, r: Record, b: int): Tables
    requires 0 <= b < |t.vvTried|
  {
    t.(mapInfo := t.mapInfo[t.nIdCount := Revived(r, |t.vRandom|).(inTried := true)],
       mapAddr := t.mapAddr[r.addr.service.net := t.nIdCount],
       vRandom := t.vRandom + [t.nIdCount],
       vvTried := t.vvTried[b := t.vvTried[b] + [t.nIdCount]],
       nIdCount := t.nIdCount + 1)
  }

  /** The tables and the number of tried entries that found their bucket full. */
  function LoadTried(n: Network, im: Image, k: nat): (r: (Tables, nat))
    requires WellFormed(im) && k <= |im.fromTried|
    ensures |r.0.vvTried| == TRIED_BUCKETS
    decreases k
  {
    if k == 0 then
      LoadNewShape(im, |im.fromNew|);
      (LoadNew(im, |im.fromNew|).(nIdCount := im.nNew), 0)
    else
      var (t, lost) := LoadTried(n, im, k - 1);
      var r := im.fromTried[k - 1];
      var b := TriedBucket(n, im.key, r.addr.service);
      if |t.vvTried[b]| < TRIED_BUCKET_SIZE then
        (TriedExtended(t, r, b), lost)
      else (t, lost + 1)
  }

  lemma {:induction false} LoadNewShape(im: Image, k: nat)
    requires k <= |im.fromNew|
    ensures var t := LoadNew(im, k);
      && t.vvTried == Empty(im.key).vvTried && t.vvNew == Empty(im.key).vvNew
      && t.key == im.key && t.nNew == im.nNew && t.nTried == im.nTried
      && |t.vRandom| == k && (forall i :: 0 <= i < k ==> t.vRandom[i] == i)
      && (forall x :: x in t.mapInfo <==> 0 <= x < k)
      && (forall x :: 0 <= x < k ==> t.mapInfo[x] == Revived(im.fromNew[x], x))
  {
    if k > 0 {
      LoadNewShape(im, k - 1);
    }
  }

  /** Putting one index into bucket `b`, unless the entry is already in four. */
  function LoadIndex(t: Tables, b: int, x: int): Tables
    requires 0 <= b < |t.vvNew| && x in t.mapInfo
  {
    if t.mapInfo[x].refCount < NEW_BUCKETS_PER_ADDRESS then
      WithInfo(t, x, t.mapInfo[x].(refCount := t.mapInfo[x].refCount + 1)).(vvNew := t.vvNew[b := t.vvNew[b] + {x}])
    else t
  }

  function LoadBucket(t: Tables, b: int, xs: seq<int>): (t': Tables)
    requires 0 <= b < |t.vvNew| && forall i :: 0 <= i < |xs| ==> xs[i] in t.mapInfo
    ensures |t'.vvNew| == |t.vvNew| && forall x :: x in t'.mapInfo <==> x in t.mapInfo
    ensures t' == t.(mapInfo := t'.mapInfo, vvNew := t'.vvNew)
    decreases |xs|
  {
    if xs == [] then t
    else LoadIndex(LoadBucket(t, b, xs[..|xs| - 1]), b, xs[|xs| - 1])
  }

  function LoadBuckets(t: Tables, buckets: seq<seq<int>>, k: nat): (t': Tables)
    requires k <= |buckets| <= |t.vvNew|
    requires forall b, i :: 0 <= b < |buckets| && 0 <= i < |buckets[b]| ==> buckets[b][i] in t.mapInfo
    ensures |t'.vvNew| == |t.vvNew| && forall x :: x in t'.mapInfo <==> x in t.mapInfo
    ensures t' == t.(mapInfo := t'.mapInfo, vvNew := t'.vvNew)
    decreases k
  {
    if k == 0 then t
    else LoadBucket(LoadBuckets(t, buckets, k - 1), k - 1, buckets[k - 1])
  }

  lemma {:induction false} LoadTriedShape(n: Network, im: Image, k: nat)
    requires WellFormed(im) && k <= |im.fromTried|
    ensures var t := LoadTried(n, im, k).0;
      && |t.vvNew| == NEW_BUCKETS && t.nIdCount >= im.nNew
      && forall x :: 0 <= x < im.nNew ==> x in t.mapInfo
  {
    if k == 0 {
      LoadNewShape(im, |im.fromNew|);
    } else {
      LoadTriedShape(n, im, k - 1);
    }
  }

  predicate BucketsFit(im: Image, t: Tables) {
    && |im.buckets| <= |t.vvNew|
    && forall b, i :: 0 <= b < |im.buckets| && 0 <= i < |im.buckets[b]| ==> im.buckets[b][i] in t.mapInfo
  }

  function WithBuckets(im: Image, t: Tables, lost: nat): Tables
    requires BucketsFit(im, t)
  {
    LoadBuckets(t.(nTried := t.nTried - lost), im.buckets, |im.buckets|)
  }

  lemma BucketsReady(n: Network, im: Image)
    requires WellFormed(im)
    ensures BucketsFit(im, LoadTried(n, im, |im.fromTried|).0)
  {
    LoadTriedShape(n, im, |im.fromTried|);
    var m := LoadTried(n, im, |im.fromTried|).0.mapInfo;
    forall b, i | 0 <= b < |im.buckets| && 0 <= i < |im.buckets[b]|
      ensures im.buckets[b][i] in m
    {
      var x := im.buckets[b][i];
      assert 0 <= x < im.nNew;
    }
  }

  function Loaded(n: Network, im: Image): (Tables, nat)
    requires WellFormed(im)
  {
    BucketsReady(n, im);
    var r := LoadTried(n, im, |im.fromTried|);
    (WithBuckets(im, r.0, r.1), r.1)
  }

  // -------------------------------------------------------------------------
  // What any image loads to
  // -------------------------------------------------------------------------

  function AtMost(cap: nat, count: nat): nat { if count < cap then count else cap }

  function CountIn(xs: seq<int>, x: int): nat {
    if xs == [] then 0 else CountIn(xs[..|xs| - 1], x) + if xs[|xs| - 1] == x then 1 else 0
  }

  /** How often the first `k` buckets of a file list an index, repetitions in one bucket included. */
  function Listed(buckets: seq<seq<int>>, k: nat, x: int): nat
    requires k <= |buckets|
  {
    if k == 0 then 0 else Listed(buckets, k - 1, x) + CountIn(buckets[k - 1], x)
  }

  lemma {:induction false} LoadBucketRefs(t: Tables, b: int, xs: seq<int>, x: int)
    requires 0 <= b < |t.vvNew| && (forall i :: 0 <= i < |xs| ==> xs[i] in t.mapInfo)
    requires x in t.mapInfo && 0 <= t.mapInfo[x].refCount
    ensures var t' := LoadBucket(t, b, xs);
      t.mapInfo[x].refCount <= 4 ==>
        t'.mapInfo[x] == t.mapInfo[x].(refCount := AtMost(4, t.mapInfo[x].refCount + CountIn(xs, x)))
    decreases |xs|
  {
    if xs != [] {
      LoadBucketRefs(t, b, xs[..|xs| - 1], x);
    }
  }

  lemma {:induction false} LoadBucketMembers(t: Tables, b: int, xs: seq<int>, c: int, x: int)
    requires 0 <= b < |t.vvNew| && (forall i :: 0 <= i < |xs| ==> xs[i] in t.mapInfo) && 0 <= c < |t.vvNew|
    ensures x in t.vvNew[c] ==> x in LoadBucket(t, b, xs).vvNew[c]
    ensures x in LoadBucket(t, b, xs).vvNew[c] ==> x in t.vvNew[c] || (b == c && x in xs)
    decreases |xs|
  {
    if xs != [] {
      LoadBucketMembers(t, b, xs[..|xs| - 1], c, x);
    }
  }

  lemma {:induction false} LoadBucketsRefs(t: Tables, buckets: seq<seq<int>>, k: nat, x: int)
    requires k <= |buckets| <= |t.vvNew|
    requires forall b, i :: 0 <= b < |buckets| && 0 <= i < |buckets[b]| ==> buckets[b][i] in t.mapInfo
    requires x in t.mapInfo && t.mapInfo[x].refCount == 0
    ensures var t' := LoadBuckets(t, buckets, k);
      t'.mapInfo[x] == t.mapInfo[x].(refCount := AtMost(4, Listed(buckets, k, x)))
  {
    if k > 0 {
      LoadBucketsRefs(t, buckets, k - 1, x);
      var before, xs := LoadBuckets(t, buckets, k - 1), buckets[k - 1];
      LoadBucketRefs(before, k - 1, xs, x);
      assert LoadBuckets(t, buckets, k) == LoadBucket(before, k - 1, xs);
    }
  }

  lemma {:induction false} LoadBucketsMembers(t: Tables, buckets: seq<seq<int>>, k: nat, c: int, x: int)
    requires k <= |buckets| <= |t.vvNew| && 0 <= c < |t.vvNew| && x !in t.vvNew[c]
    requires forall b, i :: 0 <= b < |buckets| && 0 <= i < |buckets[b]| ==> buckets[b][i] in t.mapInfo
    ensures x in LoadBuckets(t, buckets, k).vvNew[c] ==> c < k && x in buckets[c]
  {
    if k > 0 {
      LoadBucketsMembers(t, buckets, k - 1, c, x);
      var before, xs := LoadBuckets(t, buckets, k - 1), buckets[k - 1];
      LoadBucketMembers(before, k - 1, xs, c, x);
      assert LoadBuckets(t, buckets, k) == LoadBucket(before, k - 1, xs);
    }
  }

  /** The tried buckets keep the first 64 records that belong there, and the rest is counted as lost. */
  ghost predicate TriedCounted(n: Network, im: Image, k: nat, t: Tables, lost: nat)
    requires k <= |im.fromTried|
  {
    && t.nIdCount + lost == im.nNew + k && t.nIdCount >= im.nNew
    && t.nNew == im.nNew && t.nTried == im.nTried && t.vvNew == Empty(im.key).vvNew
    && (forall x :: x in t.mapInfo <==> 0 <= x < t.nIdCount)
    && (forall x :: x in t.mapInfo ==> t.mapInfo[x].refCount == 0 && (t.mapInfo[x].inTried <==> x >= im.nNew))
    && TriedCapped(n, im, k, t.vvTried)
  }

  ghost predicate TriedCapped(n: Network, im: Image, k: nat, vv: seq<seq<int>>)
    requires k <= |im.fromTried|
  {
    |vv| == TRIED_BUCKETS && forall b :: 0 <= b < |vv| ==> |vv[b]| == AtMost(64, |TriedIn(n, im, b, k)|)
  }

  lemma CappedNext(n: Network, im: Image, k: nat, vv: seq<seq<int>>, id: int)
    requires k < |im.fromTried| && TriedCapped(n, im, k, vv)
    ensures var b := TriedBucket(n, im.key, im.fromTried[k].addr.service);
      TriedCapped(n, im, k + 1, if |vv[b]| < TRIED_BUCKET_SIZE then vv[b := vv[b] + [id]] else vv)
  {
    var home := TriedBucket(n, im.key, im.fromTried[k].addr.service);
    var vv' := if |vv[home]| < TRIED_BUCKET_SIZE then vv[home := vv[home] + [id]] else vv;
    forall b | 0 <= b < |vv|
      ensures |vv'[b]| == AtMost(64, |TriedIn(n, im, b, k + 1)|)
    {
      TriedInNext(n, im, b, k);
      assert k !in TriedIn(n, im, b, k);
    }
  }

  lemma CountedNext(n: Network, im: Image, k: nat, t: Tables, lost: nat)
    requires k < |im.fromTried| && im.nNew >= 0 && TriedCounted(n, im, k, t, lost)
    ensures var r, b := im.fromTried[k], TriedBucket(n, im.key, im.fromTried[k].addr.service);
      if |t.vvTried[b]| < TRIED_BUCKET_SIZE then TriedCounted(n, im, k + 1, TriedExtended(t, r, b), lost)
      else TriedCounted(n, im, k + 1, t, lost + 1)
  {
    CappedNext(n, im, k, t.vvTried, t.nIdCount);
  }

  lemma CountedStart(n: Network, im: Image)
    requires WellFormed(im)
    ensures TriedCounted(n, im, 0, LoadNew(im, |im.fromNew|).(nIdCount := im.nNew), 0)
  {
    LoadNewShape(im, |im.fromNew|);
    forall b | 0 <= b < TRIED_BUCKETS
      ensures |TriedIn(n, im, b, 0)| == 0
    {
      SameSet(TriedIn(n, im, b, 0), {});
    }
  }

  lemma {:induction false} LoadTriedCounts(n: Network, im: Image, k: nat)
    requires WellFormed(im) && k <= |im.fromTried|
    ensures TriedCounted(n, im, k, LoadTried(n, im, k).0, LoadTried(n, im, k).1)
  {
    if k == 0 {
      CountedStart(n, im);
    } else {
      LoadTriedCounts(n, im, k - 1);
      var (t, lost) := LoadTried(n, im, k - 1);
      CountedNext(n, im, k - 1, t, lost);
    }
  }

  /** What reading an image leaves, when it says that so many tried records were lost. */
  ghost predicate CountsAre(n: Network, im: Image, t: Tables, lost: nat) {
    && t.nNew == im.nNew && t.nTried == im.nTried - lost && t.nIdCount == t.nNew + t.nTried
    && (forall x :: x in t.mapInfo <==> 0 <= x < t.nIdCount)
    && (forall x :: x in t.mapInfo ==> t.mapInfo[x].refCount == AtMost(4, Listed(im.buckets, |im.buckets|, x)))
    && (forall x :: x in t.mapInfo ==> (t.mapInfo[x].inTried <==> x >= im.nNew))
    && (forall b, x :: 0 <= b < |t.vvNew| && x in t.vvNew[b] ==> b < |im.buckets| && x in im.buckets[b])
    && TriedCapped(n, im, |im.fromTried|, t.vvTried)
  }

  /** Of any image whose indexes name new records, damaged or not: an entry gets as many references as the file lists,
      up to four; a bucket holds only what its list holds; a tried bucket gets the records that belong there, up to 64;
      and the tried count is lowered by the records left out. */
  lemma AnyImageLoads(n: Network, im: Image)
    requires WellFormed(im)
    ensures CountsAre(n, im, Loaded(n, im).0, Loaded(n, im).1)
  {
    BucketsReady(n, im);
    LoadTriedCounts(n, im, |im.fromTried|);
    var (t, lost) := LoadTried(n, im, |im.fromTried|);
    CountsWithBuckets(n, im, t, lost);
  }

  lemma CountsWithBuckets(n: Network, im: Image, t: Tables, lost: nat)
    requires WellFormed(im) && BucketsFit(im, t) && TriedCounted(n, im, |im.fromTried|, t, lost)
    ensures CountsAre(n, im, WithBuckets(im, t, lost), lost)
  {
    BucketsLoadTo(im, t.(nTried := t.nTried - lost));
  }

  lemma BucketsLoadTo(im: Image, t: Tables)
    requires BucketsFit(im, t) && (forall b, x :: 0 <= b < |t.vvNew| ==> x !in t.vvNew[b])
    requires forall x :: x in t.mapInfo ==> t.mapInfo[x].refCount == 0
    ensures var t' := LoadBuckets(t, im.buckets, |im.buckets|);
      && (forall x :: x in t.mapInfo ==>
            t'.mapInfo[x] == t.mapInfo[x].(refCount := AtMost(4, Listed(im.buckets, |im.buckets|, x))))
      && (forall b, x :: 0 <= b < |t'.vvNew| && x in t'.vvNew[b] ==> b < |im.buckets| && x in im.buckets[b])
  {
    forall x | x in t.mapInfo
      ensures LoadBuckets(t, im.buckets, |im.buckets|).mapInfo[x] ==
              t.mapInfo[x].(refCount := AtMost(4, Listed(im.buckets, |im.buckets|, x)))
    {
      LoadBucketsRefs(t, im.buckets, |im.buckets|, x);
    }
    forall b, x | 0 <= b < |t.vvNew| && x in LoadBuckets(t, im.buckets, |im.buckets|).vvNew[b]
      ensures b < |im.buckets| && x in im.buckets[b]
    {
      LoadBucketsMembers(t, im.buckets, |im.buckets|, b, x);
    }
  }

  // -------------------------------------------------------------------------
  // Images that load without loss
  // -------------------------------------------------------------------------

  /** The new buckets an image describes. */
  ghost function BucketSets(im: Image): seq<set<int>> {
    seq(|im.buckets|, b requires 0 <= b < |im.buckets| => Elements(im.buckets[b]))
  }

  /** The tried records before the k-th that belong into tried bucket `b`. */
  ghost function TriedIn(n: Network, im: Image, b: int, k: int): set<int>
    requires 0 <= k <= |im.fromTried|
  {
    set j | 0 <= j < k && TriedBucket(n, im.key, im.fromTried[j].addr.service) == b
  }

  ghost predicate GoodImage(n: Network, im: Image) {
    && WellFormed(im)
    && NetsDiffer(im.fromNew) && NetsDiffer(im.fromTried) && NetsApart(im.fromNew, im.fromTried)
    && (forall b :: 0 <= b < TRIED_BUCKETS ==> |TriedIn(n, im, b, |im.fromTried|)| <= TRIED_BUCKET_SIZE)
    && (forall b :: 0 <= b < |im.buckets| ==> NoDup(im.buckets[b]) && |Elements(im.buckets[b])| <= NEW_BUCKET_SIZE)
    && (forall x :: 0 <= x < im.nNew ==> 1 <= |Holders(BucketSets(im), x)| <= NEW_BUCKETS_PER_ADDRESS)
  }

  lemma {:induction false} LoadNewAddr(im: Image, k: nat)
    requires k <= |im.fromNew| && NetsDiffer(im.fromNew)
    ensures AddrOk(LoadNew(im, k).mapInfo, LoadNew(im, k).mapAddr)
  {
    if k > 0 {
      LoadNewAddr(im, k - 1);
      LoadNewShape(im, k - 1);
      LoadNewShape(im, k);
      var t, t' := LoadNew(im, k - 1), LoadNew(im, k);
      ExtendedAddr(t.mapInfo, t.mapAddr, k - 1, t'.mapInfo[k - 1]);
    }
  }

  lemma ExtendedAddr(m: Infos, a: map<NetAddr, int>, id: int, info: Info)
    requires AddrOk(m, a) && id !in m
    requires forall x :: x in m ==> m[x].addr.service.net != info.addr.service.net
    ensures AddrOk(m[id := info], a[info.addr.service.net := id])
  {
    forall x | x in a && x != info.addr.service.net
      ensures a[x] in m && m[a[x]].addr.service.net == x && a[x] != id
    {
      var k := a[x];
      assert k in m;
    }
  }

  /** What the tables are after `k` tried records of a good image. */
  ghost predicate TriedLoaded(n: Network, im: Image, k: nat, t: Tables)
    requires k <= |im.fromTried|
  {
    && t.key == im.key && t.nNew == im.nNew && t.nTried == im.nTried
    && t.nIdCount == im.nNew + k && |im.fromNew| == im.nNew
    && t.vvNew == Empty(im.key).vvNew
    && |t.vRandom| == im.nNew + k && (forall i :: 0 <= i < |t.vRandom| ==> t.vRandom[i] == i)
    && (forall x :: x in t.mapInfo <==> 0 <= x < im.nNew + k)
    && (forall x :: 0 <= x < im.nNew ==> t.mapInfo[x] == Revived(im.fromNew[x], x))
    && (forall x :: im.nNew <= x < im.nNew + k ==>
          t.mapInfo[x] == Revived(im.fromTried[x - im.nNew], x).(inTried := true))
    && AddrOk(t.mapInfo, t.mapAddr)
  }

  ghost predicate TriedSizes(n: Network, im: Image, k: nat, vv: seq<seq<int>>)
    requires k <= |im.fromTried|
  {
    && |vv| == TRIED_BUCKETS
    && forall b :: 0 <= b < |vv| ==> NoDup(vv[b]) && |vv[b]| == |TriedIn(n, im, b, k)|
  }

  ghost predicate BelongsIn(n: Network, im: Image, k: nat, x: int, b: int)
    requires k <= |im.fromTried|
  {
    im.nNew <= x < im.nNew + k && TriedBucket(n, im.key, im.fromTried[x - im.nNew].addr.service) == b
  }

  ghost predicate TriedMembers(n: Network, im: Image, k: nat, vv: seq<seq<int>>)
    requires k <= |im.fromTried|
  {
    forall b, x :: 0 <= b < |vv| ==> (x in vv[b] <==> BelongsIn(n, im, k, x, b))
  }

  lemma TriedInNext(n: Network, im: Image, b: int, k: nat)
    requires k < |im.fromTried|
    ensures TriedIn(n, im, b, k + 1) ==
      TriedIn(n, im, b, k) + if TriedBucket(n, im.key, im.fromTried[k].addr.service) == b then {k} else {}
    ensures |TriedIn(n, im, b, k + 1)| <= |TriedIn(n, im, b, |im.fromTried|)|
  {
    SameSet(TriedIn(n, im, b, k + 1),
            TriedIn(n, im, b, k) + if TriedBucket(n, im.key, im.fromTried[k].addr.service) == b then {k} else {});
    SubsetCard(TriedIn(n, im, b, k + 1), TriedIn(n, im, b, |im.fromTried|));
  }

  lemma SizesNext(n: Network, im: Image, k: nat, vv: seq<seq<int>>)
    requires k < |im.fromTried| && TriedSizes(n, im, k, vv) && TriedMembers(n, im, k, vv)
    ensures var own := TriedBucket(n, im.key, im.fromTried[k].addr.service);
      && |vv[own]| < |TriedIn(n, im, own, |im.fromTried|)|
      && TriedSizes(n, im, k + 1, vv[own := vv[own] + [im.nNew + k]])
  {
    var own := TriedBucket(n, im.key, im.fromTried[k].addr.service);
    assert im.nNew + k in vv[own] ==> BelongsIn(n, im, k, im.nNew + k, own);
    TriedInNext(n, im, own, k);
    assert k !in TriedIn(n, im, own, k);
    forall b | 0 <= b < |vv| && b != own
      ensures |vv[b]| == |TriedIn(n, im, b, k + 1)|
    {
      TriedInNext(n, im, b, k);
    }
  }

  lemma MembersNext(n: Network, im: Image, k: nat, vv: seq<seq<int>>)
    requires k < |im.fromTried| && |vv| == TRIED_BUCKETS && TriedMembers(n, im, k, vv)
    ensures var own := TriedBucket(n, im.key, im.fromTried[k].addr.service);
      TriedMembers(n, im, k + 1, vv[own := vv[own] + [im.nNew + k]])
  {
    var own := TriedBucket(n, im.key, im.fromTried[k].addr.service);
    var vv' := vv[own := vv[own] + [im.nNew + k]];
    forall b, x | 0 <= b < |vv'|
      ensures x in vv'[b] <==> BelongsIn(n, im, k + 1, x, b)
    {
      assert x in vv'[b] <==> x in vv[b] || (b == own && x == im.nNew + k);
    }
  }

  lemma LoadedNext(n: Network, im: Image, k: nat, t: Tables, b: int)
    requires k < |im.fromTried| && TriedLoaded(n, im, k, t) && 0 <= b < |t.vvTried|
    requires forall i :: 0 <= i < k ==> im.fromTried[i].addr.service.net != im.fromTried[k].addr.service.net
    requires forall i :: 0 <= i < |im.fromNew| ==> im.fromNew[i].addr.service.net != im.fromTried[k].addr.service.net
    ensures TriedLoaded(n, im, k + 1, TriedExtended(t, im.fromTried[k], b))
  {
    var id := im.nNew + k;
    var info := Revived(im.fromTried[k], id).(inTried := true);
    assert id !in t.mapInfo;
    forall x | x in t.mapInfo
      ensures t.mapInfo[x].addr.service.net != info.addr.service.net
    {
      LoadedNet(n, im, k, t, x);
    }
    ExtendedAddr(t.mapInfo, t.mapAddr, id, info);
  }

  lemma LoadedNet(n: Network, im: Image, k: nat, t: Tables, x: int)
    requires k < |im.fromTried| && TriedLoaded(n, im, k, t) && x in t.mapInfo
    ensures t.mapInfo[x].addr.service.net ==
      if x < im.nNew then im.fromNew[x].addr.service.net else im.fromTried[x - im.nNew].addr.service.net
  {
  }

  lemma LoadTriedStart(n: Network, im: Image)
    requires GoodImage(n, im)
    ensures TriedLoaded(n, im, 0, LoadTried(n, im, 0).0)
    ensures TriedSizes(n, im, 0, LoadTried(n, im, 0).0.vvTried) && TriedMembers(n, im, 0, LoadTried(n, im, 0).0.vvTried)
  {
    LoadNewShape(im, |im.fromNew|);
    LoadNewAddr(im, |im.fromNew|);
    forall b | 0 <= b < TRIED_BUCKETS
      ensures |TriedIn(n, im, b, 0)| == 0
    {
      SameSet(TriedIn(n, im, b, 0), {});
    }
  }

  ghost predicate LoadedUpTo(n: Network, im: Image, k: nat, t: Tables)
    requires k <= |im.fromTried|
  {
    TriedLoaded(n, im, k, t) && TriedSizes(n, im, k, t.vvTried) && TriedMembers(n, im, k, t.vvTried)
  }

  lemma LoadTriedNext(n: Network, im: Image, k: nat, t: Tables)
    requires GoodImage(n, im) && k < |im.fromTried| && LoadedUpTo(n, im, k, t)
    ensures var b := TriedBucket(n, im.key, im.fromTried[k].addr.service);
      |t.vvTried[b]| < TRIED_BUCKET_SIZE && LoadedUpTo(n, im, k + 1, TriedExtended(t, im.fromTried[k], b))
  {
    var b := TriedBucket(n, im.key, im.fromTried[k].addr.service);
    SizesNext(n, im, k, t.vvTried);
    MembersNext(n, im, k, t.vvTried);
    LoadedNext(n, im, k, t, b);
  }

  /** No tried entry of a good image is lost. */
  lemma {:induction false} LoadTriedIs(n: Network, im: Image, k: nat)
    requires GoodImage(n, im) && k <= |im.fromTried|
    ensures LoadTried(n, im, k).1 == 0 && LoadedUpTo(n, im, k, LoadTried(n, im, k).0)
  {
    if k == 0 {
      LoadTriedStart(n, im);
    } else {
      LoadTriedIs(n, im, k - 1);
      LoadTriedNext(n, im, k - 1, LoadTried(n, im, k - 1).0);
    }
  }

  // The new buckets

  /** `t` is `t0` with the new buckets `vv` and the reference counts that go with them. */
  ghost predicate BucketsLoaded(t0: Tables, vv: seq<set<int>>, t: Tables) {
    && t == t0.(mapInfo := t.mapInfo, vvNew := vv)
    && (forall x :: x in t.mapInfo <==> x in t0.mapInfo)
    && (forall x :: x in t0.mapInfo ==> t.mapInfo[x] == t0.mapInfo[x].(refCount := |Holders(vv, x)|))
  }

  lemma LoadIndexIs(t0: Tables, vv: seq<set<int>>, t: Tables, b: int, x: int)
    requires BucketsLoaded(t0, vv, t) && 0 <= b < |vv| && x in t0.mapInfo
    requires x !in vv[b] && |Holders(vv, x)| < NEW_BUCKETS_PER_ADDRESS
    ensures BucketsLoaded(t0, vv[b := vv[b] + {x}], LoadIndex(t, b, x))
  {
    forall y | y in t0.mapInfo
      ensures |Holders(vv[b := vv[b] + {x}], y)| == |Holders(vv, y)| + if y == x then 1 else 0
    {
      PlacedHolders(vv, b, x, y);
    }
  }

  /** The first `k` of the buckets, the others empty. */
  ghost function Stage(target: seq<set<int>>, k: int): seq<set<int>> {
    seq(|target|, c requires 0 <= c < |target| => if c < k then target[c] else {})
  }

  lemma StageHasRoom(target: seq<set<int>>, b: int, part: set<int>, x: int)
    requires 0 <= b < |target| && x in target[b] && x !in part
    requires |Holders(target, x)| <= NEW_BUCKETS_PER_ADDRESS
    ensures |Holders(Stage(target, b)[b := part], x)| < NEW_BUCKETS_PER_ADDRESS
  {
    var before := Holders(Stage(target, b)[b := part], x);
    assert b in Holders(target, x);
    SubsetCard(before, Holders(target, x) - {b});
  }

  lemma {:induction false} LoadBucketIs(t0: Tables, target: seq<set<int>>, t: Tables, b: int, xs: seq<int>)
    requires 0 <= b < |target| && BucketsLoaded(t0, Stage(target, b), t) && NoDup(xs)
    requires forall i :: 0 <= i < |xs| ==>
      xs[i] in t0.mapInfo && xs[i] in target[b] && |Holders(target, xs[i])| <= NEW_BUCKETS_PER_ADDRESS
    ensures BucketsLoaded(t0, Stage(target, b)[b := Elements(xs)], LoadBucket(t, b, xs))
    decreases |xs|
  {
    var stage := Stage(target, b);
    if xs == [] {
      SameSet(Elements(xs), {});
      assert stage[b := Elements(xs)] == stage;
    } else {
      var k := |xs| - 1;
      LoadBucketIs(t0, target, t, b, xs[..k]);
      ElementsNext(xs);
      var vv := stage[b := Elements(xs[..k])];
      StageHasRoom(target, b, Elements(xs[..k]), xs[k]);
      LoadIndexIs(t0, vv, LoadBucket(t, b, xs[..k]), b, xs[k]);
      assert vv[b := vv[b] + {xs[k]}] == stage[b := Elements(xs)];
    }
  }

  lemma {:induction false} LoadBucketsIs(n: Network, im: Image, t0: Tables, k: nat)
    requires GoodImage(n, im) && k <= |im.buckets|
    requires BucketsLoaded(t0, Stage(BucketSets(im), 0), t0) && |t0.vvNew| == NEW_BUCKETS
    requires forall x :: 0 <= x < im.nNew ==> x in t0.mapInfo
    ensures BucketsLoaded(t0, Stage(BucketSets(im), k), LoadBuckets(t0, im.buckets, k))
    decreases k
  {
    if k > 0 {
      LoadBucketsIs(n, im, t0, k - 1);
      var target, xs := BucketSets(im), im.buckets[k - 1];
      forall i | 0 <= i < |xs|
        ensures xs[i] in t0.mapInfo && xs[i] in target[k - 1] && |Holders(target, xs[i])| <= NEW_BUCKETS_PER_ADDRESS
      {
        IndexHasRoom(n, im, k - 1, i);
      }
      LoadBucketsNext(im, t0, k - 1, LoadBuckets(t0, im.buckets, k - 1));
    }
  }

  lemma LoadBucketsNext(im: Image, t0: Tables, k: nat, t: Tables)
    requires k < |im.buckets| && NoDup(im.buckets[k]) && BucketsLoaded(t0, Stage(BucketSets(im), k), t)
    requires forall i :: 0 <= i < |im.buckets[k]| ==>
      var x := im.buckets[k][i];
      x in t0.mapInfo && x in BucketSets(im)[k] && |Holders(BucketSets(im), x)| <= NEW_BUCKETS_PER_ADDRESS
    ensures k < |t.vvNew| && forall i :: 0 <= i < |im.buckets[k]| ==> im.buckets[k][i] in t.mapInfo
    ensures BucketsLoaded(t0, Stage(BucketSets(im), k + 1), LoadBucket(t, k, im.buckets[k]))
  {
    LoadBucketIs(t0, BucketSets(im), t, k, im.buckets[k]);
    BucketSetsAt(im, k);
    StageNext(BucketSets(im), k);
  }

  lemma IndexHasRoom(n: Network, im: Image, b: int, i: int)
    requires GoodImage(n, im) && 0 <= b < |im.buckets| && 0 <= i < |im.buckets[b]|
    ensures var x := im.buckets[b][i];
      && 0 <= x < im.nNew && |BucketSets(im)| == |im.buckets| && x in BucketSets(im)[b]
      && |Holders(BucketSets(im), x)| <= NEW_BUCKETS_PER_ADDRESS
  {
    BucketSetsAt(im, b);
    var x := im.buckets[b][i];
    assert 0 <= x < im.nNew;
    assert x in Elements(im.buckets[b]);
  }

  lemma StageNext(target: seq<set<int>>, b: int)
    requires 0 <= b < |target|
    ensures |Stage(target, b)| == |target| && Stage(target, b)[b := target[b]] == Stage(target, b + 1)
  {
  }

  ghost function Range(lo: int, hi: int): (r: set<int>)
    requires lo <= hi
    ensures |r| == hi - lo && forall x :: x in r <==> lo <= x < hi
    decreases hi - lo
  {
    if lo == hi then {} else Range(lo, hi - 1) + {hi - 1}
  }

  lemma LoadedCounts(im: Image, m: Infos)
    requires InfosFrom(im, m)
    ensures CountsOk(m, im.nTried, im.nNew)
  {
    SameSet(Tried(m), Range(im.nNew, im.nNew + im.nTried));
    SameSet(Untried(m), Range(0, im.nNew));
  }

  lemma LoadedNewOk(n: Network, im: Image, m: Infos)
    requires GoodImage(n, im) && InfosFrom(im, m)
    requires forall x :: x in m ==> m[x].refCount == |Holders(BucketSets(im), x)|
    ensures NewOk(m, BucketSets(im), {})
  {
    var vv := BucketSets(im);
    forall b, x | 0 <= b < |vv| && x in vv[b]
      ensures 0 <= x < im.nNew
    {
      var i :| 0 <= i < |im.buckets[b]| && im.buckets[b][i] == x;
    }
    forall x | x in m && x >= im.nNew
      ensures |Holders(vv, x)| == 0
    {
      SameSet(Holders(vv, x), {});
    }
  }

  lemma LoadedTriedOk(n: Network, im: Image, m: Infos, vv: seq<seq<int>>)
    requires GoodImage(n, im)
    requires TriedSizes(n, im, |im.fromTried|, vv) && TriedMembers(n, im, |im.fromTried|, vv)
    requires InfosFrom(im, m)
    ensures TriedOk(n, im.key, m, vv)
  {
    forall b, id | 0 <= b < |vv| && id in vv[b]
      ensures id in m && m[id].inTried && TriedBucket(n, im.key, m[id].addr.service) == b
    {
      assert BelongsIn(n, im, |im.fromTried|, id, b);
    }
    forall id | id in m && m[id].inTried
      ensures id in vv[TriedBucket(n, im.key, m[id].addr.service)]
    {
      assert BelongsIn(n, im, |im.fromTried|, id, TriedBucket(n, im.key, m[id].addr.service));
    }
  }

  /** The tables a good image loads into. */
  ghost predicate LoadedFrom(n: Network, im: Image, t: Tables) {
    && t.key == im.key && t.nNew == im.nNew && t.nTried == im.nTried
    && t.vvNew == BucketSets(im)
    && TriedMembers(n, im, |im.fromTried|, t.vvTried)
    && InfosFrom(im, t.mapInfo)
  }

  /** The entries are the records, the new ones first. */
  ghost predicate InfosFrom(im: Image, m: Infos) {
    && (forall x :: x in m <==> 0 <= x < im.nNew + im.nTried)
    && (forall x :: x in m ==> (m[x].inTried <==> x >= im.nNew))
    && (forall x :: x in m ==> m[x].lastTry == 0)
    && |im.fromNew| == im.nNew && |im.fromTried| == im.nTried
    && (forall x :: 0 <= x < im.nNew ==> Kept(m[x]) == im.fromNew[x])
    && (forall x :: im.nNew <= x < im.nNew + im.nTried ==> Kept(m[x]) == im.fromTried[x - im.nNew])
  }

  lemma LoadedRecord(n: Network, im: Image, t0: Tables, t: Tables, x: int)
    requires |im.fromTried| == im.nTried && TriedLoaded(n, im, |im.fromTried|, t0) && BucketsLoaded(t0, BucketSets(im), t)
    requires 0 <= x < im.nNew + im.nTried
    ensures x in t.mapInfo && t.mapInfo[x].lastTry == 0 && (t.mapInfo[x].inTried <==> x >= im.nNew)
    ensures t.mapInfo[x].refCount == |Holders(BucketSets(im), x)|
    ensures Kept(t.mapInfo[x]) == if x < im.nNew then im.fromNew[x] else im.fromTried[x - im.nNew]
  {
    assert x in t0.mapInfo;
  }

  lemma LoadedEntries(n: Network, im: Image, t0: Tables, t: Tables)
    requires WellFormed(im) && TriedLoaded(n, im, |im.fromTried|, t0) && BucketsLoaded(t0, BucketSets(im), t)
    requires TriedMembers(n, im, |im.fromTried|, t0.vvTried)
    ensures LoadedFrom(n, im, t)
    ensures forall x :: x in t.mapInfo ==> t.mapInfo[x].refCount == |Holders(BucketSets(im), x)|
  {
    forall x | 0 <= x < im.nNew + im.nTried
      ensures x in t.mapInfo && t.mapInfo[x].lastTry == 0 && (t.mapInfo[x].inTried <==> x >= im.nNew)
      ensures t.mapInfo[x].refCount == |Holders(BucketSets(im), x)|
      ensures Kept(t.mapInfo[x]) == if x < im.nNew then im.fromNew[x] else im.fromTried[x - im.nNew]
    {
      LoadedRecord(n, im, t0, t, x);
    }
  }

  lemma LoadedIndexes(n: Network, im: Image, t0: Tables, t: Tables)
    requires WellFormed(im) && TriedLoaded(n, im, |im.fromTried|, t0) && BucketsLoaded(t0, BucketSets(im), t)
    ensures IdsOk(t.mapInfo, t.nIdCount) && RandomOk(t.mapInfo, t.vRandom) && AddrOk(t.mapInfo, t.mapAddr)
  {
    SameAddr(t0.mapInfo, t0.mapAddr, t.mapInfo);
    assert RandomOk(t0.mapInfo, t0.vRandom);
    SameRandom(t0.mapInfo, t0.vRandom, t.mapInfo);
  }

  lemma LoadedIsConsistent(n: Network, im: Image, t: Tables)
    requires GoodImage(n, im) && LoadedFrom(n, im, t) && TriedSizes(n, im, |im.fromTried|, t.vvTried)
    requires IdsOk(t.mapInfo, t.nIdCount) && RandomOk(t.mapInfo, t.vRandom) && AddrOk(t.mapInfo, t.mapAddr)
    requires forall x :: x in t.mapInfo ==> t.mapInfo[x].refCount == |Holders(BucketSets(im), x)|
    ensures Consistent(n, t)
  {
    assert NewOk(t.mapInfo, t.vvNew, {}) by {
      LoadedNewOk(n, im, t.mapInfo);
    }
    assert TriedOk(n, t.key, t.mapInfo, t.vvTried) by {
      LoadedTriedOk(n, im, t.mapInfo, t.vvTried);
    }
    assert CountsOk(t.mapInfo, t.nTried, t.nNew) by {
      LoadedCounts(im, t.mapInfo);
    }
  }

  lemma BucketsOnTop(n: Network, im: Image, t0: Tables)
    requires GoodImage(n, im) && TriedLoaded(n, im, |im.fromTried|, t0)
    ensures BucketsLoaded(t0, BucketSets(im), LoadBuckets(t0, im.buckets, |im.buckets|))
  {
    NothingHeld(im, t0);
    LoadBucketsIs(n, im, t0, |im.buckets|);
    assert Stage(BucketSets(im), |im.buckets|) == BucketSets(im);
  }

  /** A good image loads without loss, into consistent tables that hold exactly what it says. */
  lemma GoodImageLoads(n: Network, im: Image)
    requires GoodImage(n, im)
    ensures Loaded(n, im).1 == 0
    ensures Consistent(n, Loaded(n, im).0) && LoadedFrom(n, im, Loaded(n, im).0)
  {
    LoadTriedIs(n, im, |im.fromTried|);
    var t0 := LoadTried(n, im, |im.fromTried|).0;
    BucketsOnTop(n, im, t0);
    LoadedWithoutLoss(n, im, t0);
    LoadedToTables(n, im, t0, Loaded(n, im).0);
  }

  lemma LoadedWithoutLoss(n: Network, im: Image, t0: Tables)
    requires WellFormed(im) && LoadTried(n, im, |im.fromTried|) == (t0, 0)
    requires |t0.vvNew| == NEW_BUCKETS && forall x :: 0 <= x < im.nNew ==> x in t0.mapInfo
    ensures Loaded(n, im) == (LoadBuckets(t0, im.buckets, |im.buckets|), 0)
  {
    assert t0.(nTried := t0.nTried - 0) == t0;
  }

  lemma LoadedToTables(n: Network, im: Image, t0: Tables, t: Tables)
    requires GoodImage(n, im) && LoadedUpTo(n, im, |im.fromTried|, t0) && BucketsLoaded(t0, BucketSets(im), t)
    ensures Consistent(n, t) && LoadedFrom(n, im, t)
  {
    LoadedEntries(n, im, t0, t);
    LoadedIndexes(n, im, t0, t);
    LoadedIsConsistent(n, im, t);
  }

  lemma NothingHeld(im: Image, t0: Tables)
    requires |im.buckets| == NEW_BUCKETS && t0.vvNew == Empty(im.key).vvNew
    requires forall x :: x in t0.mapInfo ==> t0.mapInfo[x].refCount == 0
    ensures BucketsLoaded(t0, Stage(BucketSets(im), 0), t0)
  {
    assert Stage(BucketSets(im), 0) == t0.vvNew;
    forall x | x in t0.mapInfo
      ensures |Holders(t0.vvNew, x)| == 0
    {
      SameSet(Holders(t0.vvNew, x), {});
    }
  }

  // -------------------------------------------------------------------------
  // Consistent tables are saved into a good image
  // -------------------------------------------------------------------------

  /** In an ascending list the index of an element is unique. */
  lemma IndexIs(xs: seq<int>, i: int)
    requires Increasing(xs) && 0 <= i < |xs|
    ensures IndexOf(xs, xs[i]) == i
  {
  }

  /** The saved index x stands in a bucket exactly when the x-th new id does. */
  lemma SavedMember(m: Infos, vv: seq<set<int>>, b: int, x: int)
    requires NewOk(m, vv, {}) && 0 <= b < |vv| && 0 <= x < |NewIds(m)|
    ensures x in Elements(SavedBucket(m, vv, b)) <==> NewIds(m)[x] in vv[b]
  {
    var ids, bucket := NewIds(m), Ascending(vv[b]);
    BucketIsNew(m, vv, b);
    var xs := SavedBucket(m, vv, b);
    if x in Elements(xs) {
      var i :| 0 <= i < |xs| && xs[i] == x;
      assert ids[x] == bucket[i];
      assert bucket[i] in bucket;
    }
    if ids[x] in vv[b] {
      assert ids[x] in bucket;
      var i :| 0 <= i < |bucket| && bucket[i] == ids[x];
      IndexIs(ids, x);
      assert xs[i] == x;
    }
  }

  lemma SavedBucketIsGood(m: Infos, vv: seq<set<int>>, b: int)
    requires NewOk(m, vv, {}) && 0 <= b < |vv|
    ensures NoDup(SavedBucket(m, vv, b)) && |Elements(SavedBucket(m, vv, b))| <= NEW_BUCKET_SIZE
    ensures forall i :: 0 <= i < |SavedBucket(m, vv, b)| ==> 0 <= SavedBucket(m, vv, b)[i] < |NewIds(m)|
  {
    var ids, bucket := NewIds(m), Ascending(vv[b]);
    BucketIsNew(m, vv, b);
    var xs := SavedBucket(m, vv, b);
    forall i, j | 0 <= i < j < |xs|
      ensures xs[i] != xs[j]
    {
      assert ids[xs[i]] == bucket[i] && ids[xs[j]] == bucket[j] && bucket[i] < bucket[j];
    }
    ElementsCard(xs);
  }

  lemma SavedHolders(n: Network, t: Tables, x: int)
    requires Consistent(n, t) && 0 <= x < |NewIds(t.mapInfo)|
    ensures Holders(BucketSets(Saved(n, t)), x) == Holders(t.vvNew, NewIds(t.mapInfo)[x])
  {
    var vv := BucketSets(Saved(n, t));
    forall b | 0 <= b < |vv|
      ensures x in vv[b] <==> NewIds(t.mapInfo)[x] in t.vvNew[b]
    {
      SavedMember(t.mapInfo, t.vvNew, b, x);
    }
    SameSet(Holders(vv, x), Holders(t.vvNew, NewIds(t.mapInfo)[x]));
  }

  lemma DistinctNets(m: Infos, a: map<NetAddr, int>, x: int, y: int)
    requires AddrOk(m, a) && x in m && y in m && x != y
    ensures m[x].addr.service.net != m[y].addr.service.net
  {
  }

  /** Records of different entries have different addresses. */
  lemma RecordNets(m: Infos, a: map<NetAddr, int>, ids: seq<int>, i: int, others: seq<int>, j: int)
    requires AddrOk(m, a) && AllIn(m, ids) && AllIn(m, others)
    requires 0 <= i < |ids| && 0 <= j < |others| && ids[i] != others[j]
    ensures Records(m, ids)[i].addr.service.net != Records(m, others)[j].addr.service.net
  {
    RecordsAt(m, ids, i);
    RecordsAt(m, others, j);
    DistinctNets(m, a, ids[i], others[j]);
  }

  ghost predicate NetsApart(rs: seq<Record>, others: seq<Record>) {
    forall i, j :: 0 <= i < |rs| && 0 <= j < |others| ==> rs[i].addr.service.net != others[j].addr.service.net
  }

  ghost predicate NetsDiffer(rs: seq<Record>) {
    forall i, j :: 0 <= i < j < |rs| ==> rs[i].addr.service.net != rs[j].addr.service.net
  }

  lemma IncreasingNets(m: Infos, a: map<NetAddr, int>, ids: seq<int>)
    requires AddrOk(m, a) && AllIn(m, ids) && Increasing(ids)
    ensures NetsDiffer(Records(m, ids))
  {
    var rs := Records(m, ids);
    forall i, j | 0 <= i < j < |rs|
      ensures rs[i].addr.service.net != rs[j].addr.service.net
    {
      RecordNets(m, a, ids, i, ids, j);
    }
  }

  lemma SavedNets(n: Network, t: Tables)
    requires Consistent(n, t)
    ensures var im := Saved(n, t);
      NetsDiffer(im.fromNew) && NetsDiffer(im.fromTried) && NetsApart(im.fromNew, im.fromTried)
  {
    var m := t.mapInfo;
    IdsAreKnown(m);
    var untried, tried := NewIds(m), TriedIds(m);
    IncreasingNets(m, t.mapAddr, untried);
    IncreasingNets(m, t.mapAddr, tried);
    var rs, others := Records(m, untried), Records(m, tried);
    forall i, j | 0 <= i < |rs| && 0 <= j < |others|
      ensures rs[i].addr.service.net != others[j].addr.service.net
    {
      RecordNets(m, t.mapAddr, untried, i, tried, j);
    }
  }

  ghost predicate AllIn(m: Infos, ids: seq<int>) {
    forall i :: 0 <= i < |ids| ==> ids[i] in m
  }

  /** The first `k` ids that belong into tried bucket `b`. */
  ghost function IdsIn(n: Network, key: Key, m: Infos, ids: seq<int>, b: int, k: nat): set<int>
    requires AllIn(m, ids) && k <= |ids|
  {
    if k == 0 then {}
    else IdsIn(n, key, m, ids, b, k - 1) +
         if TriedBucket(n, key, m[ids[k - 1]].addr.service) == b then {ids[k - 1]} else {}
  }

  lemma {:induction false} IdsInMembers(n: Network, key: Key, m: Infos, ids: seq<int>, b: int, k: nat, x: int)
    requires AllIn(m, ids) && Increasing(ids) && k <= |ids| && x in IdsIn(n, key, m, ids, b, k)
    ensures k > 0 && x <= ids[k - 1] && x in ids && TriedBucket(n, key, m[x].addr.service) == b
  {
    if x in IdsIn(n, key, m, ids, b, k - 1) {
      IdsInMembers(n, key, m, ids, b, k - 1, x);
    }
  }

  lemma OneMore(a: set<int>, x: int)
    requires x !in a
    ensures |a + {x}| == |a| + 1
  {
  }

  lemma CountNext(n: Network, im: Image, m: Infos, ids: seq<int>, b: int, k: nat)
    requires AllIn(m, ids) && Increasing(ids) && k < |ids| == |im.fromTried| && im.fromTried[k].addr == m[ids[k]].addr
    requires |TriedIn(n, im, b, k)| == |IdsIn(n, im.key, m, ids, b, k)|
    ensures |TriedIn(n, im, b, k + 1)| == |IdsIn(n, im.key, m, ids, b, k + 1)|
  {
    TriedInNext(n, im, b, k);
    IdNotYetIn(n, im.key, m, ids, b, k);
    BothGrow(TriedIn(n, im, b, k), k, IdsIn(n, im.key, m, ids, b, k), ids[k]);
  }

  lemma {:induction false} IdsInCount(n: Network, im: Image, m: Infos, ids: seq<int>, b: int, k: nat)
    requires AllIn(m, ids) && Increasing(ids) && k <= |ids| && im.fromTried == Records(m, ids)
    ensures |TriedIn(n, im, b, k)| == |IdsIn(n, im.key, m, ids, b, k)|
  {
    if k == 0 {
      SameSet(TriedIn(n, im, b, 0), {});
    } else {
      IdsInCount(n, im, m, ids, b, k - 1);
      RecordsAt(m, ids, k - 1);
      CountNext(n, im, m, ids, b, k - 1);
    }
  }

  lemma IdNotYetIn(n: Network, key: Key, m: Infos, ids: seq<int>, b: int, k: nat)
    requires AllIn(m, ids) && Increasing(ids) && k < |ids|
    ensures ids[k] !in IdsIn(n, key, m, ids, b, k)
  {
    if ids[k] in IdsIn(n, key, m, ids, b, k) {
      IdsInMembers(n, key, m, ids, b, k, ids[k]);
      assert false;
    }
  }

  lemma BothGrow(a: set<int>, x: int, b: set<int>, y: int)
    requires |a| == |b| && x !in a && y !in b
    ensures |a + {x}| == |b + {y}| && |a + {}| == |b + {}|
  {
    OneMore(a, x);
    OneMore(b, y);
    assert a + {} == a && b + {} == b;
  }

  lemma SavedTriedFits(n: Network, t: Tables, b: int)
    requires Consistent(n, t) && 0 <= b < TRIED_BUCKETS
    ensures |TriedIn(n, Saved(n, t), b, |Saved(n, t).fromTried|)| <= TRIED_BUCKET_SIZE
  {
    var im, ids := Saved(n, t), TriedIds(t.mapInfo);
    IdsAreKnown(t.mapInfo);
    IdsInCount(n, im, t.mapInfo, ids, b, |ids|);
    ElementsBound(t.vvTried[b]);
    var in_b := IdsIn(n, t.key, t.mapInfo, ids, b, |ids|);
    forall x | x in in_b
      ensures x in Elements(t.vvTried[b])
    {
      IdsInMembers(n, t.key, t.mapInfo, ids, b, |ids|, x);
    }
    SubsetCard(in_b, Elements(t.vvTried[b]));
  }

  lemma SavedIsGood(n: Network, t: Tables)
    requires Consistent(n, t)
    ensures GoodImage(n, Saved(n, t))
  {
    var im := Saved(n, t);
    forall b | 0 <= b < |im.buckets|
      ensures NoDup(im.buckets[b]) && |Elements(im.buckets[b])| <= NEW_BUCKET_SIZE
      ensures forall i :: 0 <= i < |im.buckets[b]| ==> 0 <= im.buckets[b][i] < im.nNew
    {
      SavedBucketIsGood(t.mapInfo, t.vvNew, b);
    }
    SavedNets(n, t);
    forall b | 0 <= b < TRIED_BUCKETS
      ensures |TriedIn(n, im, b, |im.fromTried|)| <= TRIED_BUCKET_SIZE
    {
      SavedTriedFits(n, t, b);
    }
    IdsAreKnown(t.mapInfo);
    forall x | 0 <= x < im.nNew
      ensures 1 <= |Holders(BucketSets(im), x)| <= NEW_BUCKETS_PER_ADDRESS
    {
      SavedHolders(n, t, x);
      assert NewIds(t.mapInfo)[x] in t.mapInfo;
    }
  }

  // -------------------------------------------------------------------------
  // Main result: saving and loading only renumbers
  // -------------------------------------------------------------------------

  /** The number an entry gets when it is read back. */
  ghost function Renumbered(t: Tables, id: int): int
    requires id in t.mapInfo
  {
    if t.mapInfo[id].inTried then
      assert id in TriedIds(t.mapInfo);
      t.nNew + IndexOf(TriedIds(t.mapInfo), id)
    else
      assert id in NewIds(t.mapInfo);
      IndexOf(NewIds(t.mapInfo), id)
  }

  /** `t'` is `t` with every id renumbered: a bijection of the entries that keeps everything about them except when
      they were last tried, which is zero, and their place in vRandom; the members of every new bucket and the members
      of every tried bucket. */
  ghost predicate SameUpToNumbering(t: Tables, t': Tables) {
    && t'.key == t.key && t'.nNew == t.nNew && t'.nTried == t.nTried
    && |t'.vvNew| == |t.vvNew| && |t'.vvTried| == |t.vvTried|
    && (forall id :: id in t.mapInfo ==> Renumbered(t, id) in t'.mapInfo)
    && (forall a, b :: a in t.mapInfo && b in t.mapInfo && a != b ==> Renumbered(t, a) != Renumbered(t, b))
    && (forall x :: x in t'.mapInfo ==> exists id :: id in t.mapInfo && Renumbered(t, id) == x)
    && (forall id :: id in t.mapInfo ==> ComesBack(t.mapInfo[id], t'.mapInfo[Renumbered(t, id)]))
    && (forall id, b :: id in t.mapInfo && 0 <= b < |t.vvNew| ==>
          (Renumbered(t, id) in t'.vvNew[b] <==> id in t.vvNew[b]))
    && (forall id, b :: id in t.mapInfo && 0 <= b < |t.vvTried| ==>
          (Renumbered(t, id) in t'.vvTried[b] <==> id in t.vvTried[b]))
  }

  ghost predicate ComesBack(e: Info, e': Info) {
    e' == e.(lastTry := 0, randomPos := e'.randomPos)
  }

  lemma RenumberedIs(t: Tables, id: int)
    requires id in t.mapInfo
    ensures var x := Renumbered(t, id);
      if t.mapInfo[id].inTried
      then t.nNew <= x < t.nNew + |TriedIds(t.mapInfo)| && TriedIds(t.mapInfo)[x - t.nNew] == id
      else 0 <= x < |NewIds(t.mapInfo)| && NewIds(t.mapInfo)[x] == id
  {
    assert t.mapInfo[id].inTried ==> id in TriedIds(t.mapInfo);
    assert !t.mapInfo[id].inTried ==> id in NewIds(t.mapInfo);
  }

  lemma RenumberedBack(n: Network, t: Tables, x: int) returns (id: int)
    requires Consistent(n, t) && 0 <= x < t.nNew + t.nTried
    ensures id in t.mapInfo && Renumbered(t, id) == x
  {
    IdsAreKnown(t.mapInfo);
    if x < t.nNew {
      id := NewIds(t.mapInfo)[x];
      IndexIs(NewIds(t.mapInfo), x);
    } else {
      id := TriedIds(t.mapInfo)[x - t.nNew];
      IndexIs(TriedIds(t.mapInfo), x - t.nNew);
    }
  }

  /** What a saved image says, position by position. */
  ghost predicate SavedAs(t: Tables, im: Image) {
    && im.key == t.key && |im.buckets| == |t.vvNew|
    && RecordsOf(t, im)
    && (forall b, x :: 0 <= b < |t.vvNew| && 0 <= x < im.nNew ==>
          (x in BucketSets(im)[b] <==> NewIds(t.mapInfo)[x] in t.vvNew[b]))
  }

  /** The records are the entries, in id order. */
  ghost predicate RecordsOf(t: Tables, im: Image) {
    && im.nNew == t.nNew == |NewIds(t.mapInfo)| && im.nTried == t.nTried == |TriedIds(t.mapInfo)|
    && |im.fromNew| == im.nNew && |im.fromTried| == im.nTried
    && (forall i :: 0 <= i < im.nNew ==> NewIds(t.mapInfo)[i] in t.mapInfo && im.fromNew[i] == Kept(t.mapInfo[NewIds(t.mapInfo)[i]]))
    && (forall i :: 0 <= i < im.nTried ==> TriedIds(t.mapInfo)[i] in t.mapInfo && im.fromTried[i] == Kept(t.mapInfo[TriedIds(t.mapInfo)[i]]))
  }

  lemma BucketSetsAt(im: Image, b: int)
    requires 0 <= b < |im.buckets|
    ensures |BucketSets(im)| == |im.buckets| && BucketSets(im)[b] == Elements(im.buckets[b])
  {
  }

  lemma SavedMembers(n: Network, t: Tables, b: int, x: int)
    requires Consistent(n, t) && 0 <= b < |t.vvNew| && 0 <= x < |NewIds(t.mapInfo)|
    ensures |BucketSets(Saved(n, t))| == |t.vvNew|
    ensures x in BucketSets(Saved(n, t))[b] <==> NewIds(t.mapInfo)[x] in t.vvNew[b]
  {
    var im := Saved(n, t);
    assert im.buckets[b] == SavedBucket(t.mapInfo, t.vvNew, b);
    BucketSetsAt(im, b);
    SavedMember(t.mapInfo, t.vvNew, b, x);
  }

  lemma RecordsAt(m: Infos, ids: seq<int>, i: int)
    requires AllIn(m, ids) && 0 <= i < |ids|
    ensures ids[i] in m && Records(m, ids)[i] == Kept(m[ids[i]])
  {
  }

  lemma SavedIsSavedAs(n: Network, t: Tables)
    requires Consistent(n, t)
    ensures SavedAs(t, Saved(n, t))
  {
    IdsAreKnown(t.mapInfo);
    var im, m := Saved(n, t), t.mapInfo;
    forall i | 0 <= i < im.nNew
      ensures NewIds(m)[i] in m && im.fromNew[i] == Kept(m[NewIds(m)[i]])
    {
      RecordsAt(m, NewIds(m), i);
    }
    forall i | 0 <= i < im.nTried
      ensures TriedIds(m)[i] in m && im.fromTried[i] == Kept(m[TriedIds(m)[i]])
    {
      RecordsAt(m, TriedIds(m), i);
    }
    forall b, x | 0 <= b < |t.vvNew| && 0 <= x < im.nNew
      ensures x in BucketSets(im)[b] <==> NewIds(m)[x] in t.vvNew[b]
    {
      SavedMembers(n, t, b, x);
    }
  }

  lemma EntryComesBack(t: Tables, im: Image, t': Tables, id: int)
    requires RecordsOf(t, im) && InfosFrom(im, t'.mapInfo) && id in t.mapInfo
    ensures var x := Renumbered(t, id);
      && x in t'.mapInfo && t'.mapInfo[x].lastTry == 0
      && Kept(t'.mapInfo[x]) == Kept(t.mapInfo[id])
      && t'.mapInfo[x].inTried == t.mapInfo[id].inTried
  {
    RenumberedIs(t, id);
    var x := Renumbered(t, id);
    if t.mapInfo[id].inTried {
      assert Kept(t'.mapInfo[x]) == im.fromTried[x - im.nNew];
    } else {
      assert Kept(t'.mapInfo[x]) == im.fromNew[x];
    }
  }

  lemma NewBucketComesBack(n: Network, t: Tables, im: Image, t': Tables, id: int, b: int)
    requires NewOk(t.mapInfo, t.vvNew, {}) && NewOk(t'.mapInfo, t'.vvNew, {})
    requires SavedAs(t, im) && LoadedFrom(n, im, t') && id in t.mapInfo && 0 <= b < |t.vvNew|
    ensures Renumbered(t, id) in t'.vvNew[b] <==> id in t.vvNew[b]
  {
    RenumberedIs(t, id);
    EntryComesBack(t, im, t', id);
    var x := Renumbered(t, id);
    if t.mapInfo[id].inTried {
      TriedIsNotNew(t.mapInfo, t.vvNew, id, b);
      TriedIsNotNew(t'.mapInfo, t'.vvNew, x, b);
    }
  }

  lemma TriedIsNotNew(m: Infos, vv: seq<set<int>>, id: int, b: int)
    requires NewOk(m, vv, {}) && id in m && m[id].inTried && 0 <= b < |vv|
    ensures id !in vv[b]
  {
    assert id in vv[b] ==> b in Holders(vv, id);
  }

  lemma CountComesBack(n: Network, t: Tables, im: Image, t': Tables, id: int)
    requires NewOk(t.mapInfo, t.vvNew, {}) && NewOk(t'.mapInfo, t'.vvNew, {})
    requires SavedAs(t, im) && LoadedFrom(n, im, t') && id in t.mapInfo && Renumbered(t, id) in t'.mapInfo
    ensures t'.mapInfo[Renumbered(t, id)].refCount == t.mapInfo[id].refCount
  {
    forall b | 0 <= b < |t.vvNew|
      ensures Renumbered(t, id) in t'.vvNew[b] <==> id in t.vvNew[b]
    {
      NewBucketComesBack(n, t, im, t', id, b);
    }
    SameSet(Holders(t'.vvNew, Renumbered(t, id)), Holders(t.vvNew, id));
  }

  lemma TriedBucketComesBack(n: Network, t: Tables, im: Image, t': Tables, id: int, b: int)
    requires TriedOk(n, t.key, t.mapInfo, t.vvTried) && TriedOk(n, t'.key, t'.mapInfo, t'.vvTried)
    requires SavedAs(t, im) && LoadedFrom(n, im, t') && id in t.mapInfo && 0 <= b < |t.vvTried|
    ensures Renumbered(t, id) in t'.vvTried[b] <==> id in t.vvTried[b]
  {
    EntryComesBack(t, im, t', id);
    assert Kept(t'.mapInfo[Renumbered(t, id)]).addr == Kept(t.mapInfo[id]).addr;
  }

  /** Writing any consistent manager and reading it back loses no tried entry and gives a consistent manager
      that differs only in the numbering of its entries (and in having forgotten when they were last tried). */
  lemma SavedThenLoaded(n: Network, t: Tables)
    requires Consistent(n, t)
    ensures GoodImage(n, Saved(n, t))
    ensures var (t', lost) := Loaded(n, Saved(n, t));
      && lost == 0
      && Consistent(n, t')
      && SameUpToNumbering(t, t')
      && (TimesOk(t) ==> TimesOk(t'))
  {
    SavedIsGood(n, t);
    GoodImageLoads(n, Saved(n, t));
    SavedIsSavedAs(n, t);
    LoadedIsSame(n, t, Saved(n, t), Loaded(n, Saved(n, t)).0);
    LoadedIsTimely(n, t, Saved(n, t), Loaded(n, Saved(n, t)).0);
  }

  lemma LoadedIsSame(n: Network, t: Tables, im: Image, t': Tables)
    requires Consistent(n, t) && Consistent(n, t') && SavedAs(t, im) && LoadedFrom(n, im, t')
    ensures SameUpToNumbering(t, t')
  {
    forall id | id in t.mapInfo
      ensures var x := Renumbered(t, id);
        x in t'.mapInfo && ComesBack(t.mapInfo[id], t'.mapInfo[x])
    {
      EntryComesBack(t, im, t', id);
      CountComesBack(n, t, im, t', id);
    }
    forall a, b | a in t.mapInfo && b in t.mapInfo && a != b
      ensures Renumbered(t, a) != Renumbered(t, b)
    {
      RenumberedIs(t, a);
      RenumberedIs(t, b);
    }
    forall x | x in t'.mapInfo
      ensures exists id :: id in t.mapInfo && Renumbered(t, id) == x
    {
      var id := RenumberedBack(n, t, x);
    }
    forall id, b | id in t.mapInfo && 0 <= b < |t.vvNew|
      ensures Renumbered(t, id) in t'.vvNew[b] <==> id in t.vvNew[b]
    {
      NewBucketComesBack(n, t, im, t', id, b);
    }
    forall id, b | id in t.mapInfo && 0 <= b < |t.vvTried|
      ensures Renumbered(t, id) in t'.vvTried[b] <==> id in t.vvTried[b]
    {
      TriedBucketComesBack(n, t, im, t', id, b);
    }
  }

  lemma LoadedIsTimely(n: Network, t: Tables, im: Image, t': Tables)
    requires Consistent(n, t) && SavedAs(t, im) && LoadedFrom(n, im, t')
    ensures TimesOk(t) ==> TimesOk(t')
  {
    forall x | x in t'.mapInfo && TimesOk(t)
      ensures t'.mapInfo[x].lastTry >= 0 && t'.mapInfo[x].lastSuccess >= 0
      ensures t'.mapInfo[x].inTried ==> t'.mapInfo[x].lastSuccess != 0
    {
      var id := RenumberedBack(n, t, x);
      EntryComesBack(t, im, t', id);
      assert Kept(t'.mapInfo[x]).lastSuccess == Kept(t.mapInfo[id]).lastSuccess;
    }
  }

  // -------------------------------------------------------------------------
  // The serializer's loops
  // -------------------------------------------------------------------------

  /** The wanted ones among the first `i` of a list. */
  ghost function Picked(order: seq<int>, wanted: set<int>, i: nat): (ids: seq<int>)
    requires i <= |order|
    ensures |ids| <= i
  {
    if i == 0 then []
    else if order[i - 1] in wanted then Picked(order, wanted, i - 1) + [order[i - 1]]
    else Picked(order, wanted, i - 1)
  }

  lemma {:induction false} PickedIs(order: seq<int>, wanted: set<int>, i: nat)
    requires i <= |order| && Increasing(order)
    ensures var ids := Picked(order, wanted, i);
      && Increasing(ids)
      && (forall x :: x in ids <==> x in order[..i] && x in wanted)
      && (i < |order| ==> forall j :: 0 <= j < |ids| ==> ids[j] < order[i])
  {
    if i > 0 {
      PickedIs(order, wanted, i - 1);
      assert order[..i] == order[..i - 1] + [order[i - 1]];
      assert i < |order| ==> order[i - 1] < order[i];
    }
  }

  ghost predicate Numbers(ids: seq<int>, index: map<int, int>) {
    forall j :: 0 <= j < |ids| ==> ids[j] in index && index[ids[j]] == j
  }

  lemma NumbersMore(ids: seq<int>, index: map<int, int>, id: int)
    requires Numbers(ids, index) && forall j :: 0 <= j < |ids| ==> ids[j] != id
    ensures Numbers(ids, index[id := |ids|]) && Numbers(ids + [id], index[id := |ids|])
  {
  }

  lemma RecordsMore(m: Infos, ids: seq<int>, id: int)
    requires AllIn(m, ids) && id in m
    ensures AllIn(m, ids + [id]) && Records(m, ids + [id]) == Records(m, ids) + [Kept(m[id])]
  {
  }

  /** Walks `mapInfo` in id order, writing the wanted entries until `count` of them are written. */
  method WriteEntries(m: Infos, wanted: set<int>, count: int)
    returns (records: seq<Record>, index: map<int, int>, ghost ids: seq<int>)
    requires count == |wanted| && forall x :: x in wanted ==> x in m
    ensures ids == Ascending(wanted) && AllIn(m, Ascending(wanted))
    ensures records == Records(m, Ascending(wanted)) && Numbers(Ascending(wanted), index)
  {
    var order := Ascending(m.Keys);
    forall i | 0 <= i < |order|
      ensures order[i] in m
    {
      assert order[i] in order;
    }
    ghost var i;
    records, index, ids, i := WriteSome(m, wanted, order, count);
    AllWritten(m, wanted, order, i);
  }

  method WriteSome(m: Infos, wanted: set<int>, order: seq<int>, count: int)
    returns (records: seq<Record>, index: map<int, int>, ghost ids: seq<int>, ghost end: nat)
    requires AllIn(m, order) && Increasing(order)
    ensures end <= |order| && ids == Picked(order, wanted, end) && (end == |order| || |ids| == count)
    ensures AllIn(m, ids) && records == Records(m, ids) && Numbers(ids, index)
  {
    records, index, ids := [], map[], [];
    var i := 0;
    while i < |order| && |records| != count
      invariant 0 <= i <= |order|
      invariant ids == Picked(order, wanted, i) && AllIn(m, ids) && records == Records(m, ids)
      invariant Numbers(ids, index)
    {
      var id := order[i];
      WriteOne(m, wanted, order, i, ids, index);
      index := index[id := |records|];
      if id in wanted {
        records := records + [Kept(m[id])];
        ids := ids + [id];
      }
      i := i + 1;
    }
    end := i;
  }

  lemma WriteOne(m: Infos, wanted: set<int>, order: seq<int>, i: nat, ids: seq<int>, index: map<int, int>)
    requires Increasing(order) && i < |order| && order[i] in m && ids == Picked(order, wanted, i)
    requires AllIn(m, ids) && Numbers(ids, index)
    ensures var id := order[i];
      && Numbers(ids, index[id := |ids|]) && Numbers(ids + [id], index[id := |ids|])
      && AllIn(m, ids + [id]) && Records(m, ids + [id]) == Records(m, ids) + [Kept(m[id])]
      && Picked(order, wanted, i + 1) == if id in wanted then ids + [id] else ids
  {
    PickedIs(order, wanted, i);
    NumbersMore(ids, index, order[i]);
    RecordsMore(m, ids, order[i]);
  }

  lemma EnoughPicked(ids: seq<int>, wanted: set<int>)
    requires Increasing(ids) && |ids| == |wanted| && forall x :: x in ids ==> x in wanted
    ensures forall x :: x in ids <==> x in wanted
  {
    ElementsCard(ids);
    forall x
      ensures x in Elements(ids) <==> x in ids
    {}
    FullSubset(Elements(ids), wanted);
  }

  lemma PickedExactly(wanted: set<int>, order: seq<int>, i: nat)
    requires Increasing(order) && i <= |order| && forall x :: x in wanted ==> x in order
    requires i == |order| || |Picked(order, wanted, i)| == |wanted|
    ensures Increasing(Picked(order, wanted, i)) && forall x :: x in Picked(order, wanted, i) <==> x in wanted
  {
    var ids := Picked(order, wanted, i);
    PickedIs(order, wanted, i);
    if i == |order| {
      assert order[..i] == order;
    } else {
      EnoughPicked(ids, wanted);
    }
  }

  lemma AllWritten(m: Infos, wanted: set<int>, order: seq<int>, i: nat)
    requires Increasing(order) && (forall x :: x in order <==> x in m) && i <= |order|
    requires forall x :: x in wanted ==> x in m
    requires i == |order| || |Picked(order, wanted, i)| == |wanted|
    ensures Picked(order, wanted, i) == Ascending(wanted)
  {
    PickedExactly(wanted, order, i);
    AscendingUnique(Picked(order, wanted, i), wanted);
  }

  method WriteBucket(order: seq<int>, ghost ids: seq<int>, index: map<int, int>) returns (xs: seq<int>)
    requires Numbers(ids, index) && forall i :: 0 <= i < |order| ==> order[i] in ids
    ensures xs == Indexes(order, ids)
  {
    xs := [];
    for i := 0 to |order|
      invariant |xs| == i && forall k :: 0 <= k < i ==> xs[k] == IndexOf(ids, order[k])
    {
      ghost var j := IndexOf(ids, order[i]);
      assert ids[j] == order[i];
      xs := xs + [index[order[i]]];
    }
  }

  /** The index list of one bucket, whose ids are listed in ascending order. */
  ghost predicate Indexed(order: seq<int>, ids: seq<int>, xs: seq<int>) {
    && (forall i :: 0 <= i < |order| ==> order[i] in ids)
    && xs == Indexes(order, ids)
  }

  method WriteBuckets(orders: seq<seq<int>>, ghost ids: seq<int>, index: map<int, int>, ghost want: seq<seq<int>>)
    returns (buckets: seq<seq<int>>)
    requires Numbers(ids, index) && |want| == |orders|
    requires forall b :: 0 <= b < |orders| ==> Indexed(orders[b], ids, want[b])
    ensures buckets == want
  {
    buckets := [];
    for b := 0 to |orders|
      invariant |buckets| == b && forall k :: 0 <= k < b ==> buckets[k] == want[k]
    {
      assert Indexed(orders[b], ids, want[b]);
      var xs := WriteBucket(orders[b], ids, index);
      buckets := buckets + [xs];
    }
  }

  /** A set is walked in ascending order. */
  function Orders(vv: seq<set<int>>): seq<seq<int>> {
    seq(|vv|, b requires 0 <= b < |vv| => Ascending(vv[b]))
  }

  lemma SavedBucketsIndexed(n: Network, t: Tables)
    requires Consistent(n, t)
    ensures |Saved(n, t).buckets| == |t.vvNew| == |Orders(t.vvNew)|
    ensures forall b :: 0 <= b < |t.vvNew| ==> Indexed(Orders(t.vvNew)[b], NewIds(t.mapInfo), Saved(n, t).buckets[b])
  {
    var orders := Orders(t.vvNew);
    forall b | 0 <= b < |t.vvNew|
      ensures Indexed(orders[b], NewIds(t.mapInfo), Saved(n, t).buckets[b])
    {
      BucketIsNew(t.mapInfo, t.vvNew, b);
    }
  }

  method Write(am: Manager) returns (im: Image)
    requires am.Valid()
    ensures im == Saved(am.net, am.State())
  {
    CountedIsUntried(am.net, am.State());
    var counted := set id | id in am.mapInfo && am.mapInfo[id].refCount != 0;
    var tried := set id | id in am.mapInfo && am.mapInfo[id].inTried;
    assert counted == Untried(am.mapInfo) && tried == Tried(am.mapInfo);
    var fromNew, index, ids := WriteEntries(am.mapInfo, counted, am.nNew);
    var fromTried, _, _ := WriteEntries(am.mapInfo, tried, am.nTried);
    SavedBucketsIndexed(am.net, am.State());
    var buckets := WriteBuckets(Orders(am.vvNew), ids, index, Saved(am.net, am.State()).buckets);
    im := Image(am.key, am.nNew, am.nTried, NEW_BUCKETS, fromNew, fromTried, buckets);
  }

  /** The entries with a reference count are the untried ones. */
  lemma CountedIsUntried(n: Network, t: Tables)
    requires Consistent(n, t)
    ensures (set id | id in t.mapInfo && t.mapInfo[id].refCount != 0) == Untried(t.mapInfo)
  {
    SameSet((set id | id in t.mapInfo && t.mapInfo[id].refCount != 0), Untried(t.mapInfo));
  }

  method ReadNew(am: Manager, im: Image)
    requires WellFormed(im)
    modifies am
    ensures am.State() == LoadNew(im, |im.fromNew|).(nIdCount := im.nNew)
  {
    am.key, am.nNew, am.nTried := im.key, im.nNew, im.nTried;
    am.nIdCount, am.mapInfo, am.mapAddr, am.vRandom := 0, map[], map[], [];
    am.vvTried := seq(TRIED_BUCKETS, _ => []);
    am.vvNew := seq(NEW_BUCKETS, _ => {});
    for n := 0 to im.nNew
      invariant am.State() == LoadNew(im, n)
    {
      var r := im.fromNew[n];
      am.mapInfo := am.mapInfo[n := Revived(r, |am.vRandom|)];
      am.mapAddr := am.mapAddr[r.addr.service.net := n];
      am.vRandom := am.vRandom + [n];
    }
    am.nIdCount := im.nNew;
  }

  method ReadOneTried(am: Manager, r: Record) returns (kept: bool)
    requires |am.vvTried| == TRIED_BUCKETS
    modifies am
    ensures var b := TriedBucket(am.net, old(am.key), r.addr.service);
      && (kept <==> |old(am.vvTried)[b]| < TRIED_BUCKET_SIZE)
      && am.State() == if kept then TriedExtended(old(am.State()), r, b) else old(am.State())
  {
    var b := TriedBucket(am.net, am.key, r.addr.service);
    kept := |am.vvTried[b]| < TRIED_BUCKET_SIZE;
    if kept {
      am.mapInfo := am.mapInfo[am.nIdCount := Revived(r, |am.vRandom|).(inTried := true)];
      am.vRandom := am.vRandom + [am.nIdCount];
      am.mapAddr := am.mapAddr[r.addr.service.net := am.nIdCount];
      am.vvTried := am.vvTried[b := am.vvTried[b] + [am.nIdCount]];
      am.nIdCount := am.nIdCount + 1;
    }
  }

  method ReadTried(am: Manager, im: Image) returns (lost: nat)
    requires WellFormed(im) && am.State() == LoadNew(im, |im.fromNew|).(nIdCount := im.nNew)
    modifies am
    ensures (am.State(), lost) == LoadTried(am.net, im, |im.fromTried|)
  {
    lost := 0;
    for n := 0 to im.nTried
      invariant (am.State(), lost) == LoadTried(am.net, im, n)
    {
      TriedKey(am.net, im, n);
      ghost var t := am.State();
      var kept := ReadOneTried(am, im.fromTried[n]);
      LoadTriedMore(am.net, im, n, t, lost);
      if !kept {
        lost := lost + 1;
      }
    }
  }

  lemma LoadTriedMore(n: Network, im: Image, k: nat, t: Tables, lost: nat)
    requires WellFormed(im) && k < |im.fromTried| && (t, lost) == LoadTried(n, im, k) && t.key == im.key
    ensures |t.vvTried| == TRIED_BUCKETS
    ensures var r := im.fromTried[k];
      var b := TriedBucket(n, t.key, r.addr.service);
      LoadTried(n, im, k + 1) ==
      if |t.vvTried[b]| < TRIED_BUCKET_SIZE then (TriedExtended(t, r, b), lost) else (t, lost + 1)
  {
  }

  lemma {:induction false} TriedKey(n: Network, im: Image, k: nat)
    requires WellFormed(im) && k <= |im.fromTried|
    ensures LoadTried(n, im, k).0.key == im.key
  {
    if k == 0 {
      LoadNewShape(im, |im.fromNew|);
    } else {
      TriedKey(n, im, k - 1);
    }
  }

  method ReadBucket(am: Manager, b: int, xs: seq<int>)
    requires 0 <= b < |am.vvNew| && forall i :: 0 <= i < |xs| ==> xs[i] in am.mapInfo
    modifies am
    ensures am.State() == LoadBucket(old(am.State()), b, xs)
  {
    ghost var t0 := am.State();
    for i := 0 to |xs|
      invariant am.State() == LoadBucket(t0, b, xs[..i])
    {
      var x := xs[i];
      assert xs[..i + 1][..i] == xs[..i];
      if am.mapInfo[x].refCount < NEW_BUCKETS_PER_ADDRESS {
        am.mapInfo := am.mapInfo[x := am.mapInfo[x].(refCount := am.mapInfo[x].refCount + 1)];
        am.vvNew := am.vvNew[b := am.vvNew[b] + {x}];
      }
    }
    assert xs[..|xs|] == xs;
  }

  method ReadBuckets(am: Manager, buckets: seq<seq<int>>)
    requires |buckets| <= |am.vvNew|
    requires forall b, i :: 0 <= b < |buckets| && 0 <= i < |buckets[b]| ==> buckets[b][i] in am.mapInfo
    modifies am
    ensures am.State() == LoadBuckets(old(am.State()), buckets, |buckets|)
  {
    ghost var t0 := am.State();
    for b := 0 to |buckets|
      invariant am.State() == LoadBuckets(t0, buckets, b)
    {
      ReadBucket(am, b, buckets[b]);
    }
  }

  method ReadRecords(am: Manager, im: Image) returns (lost: nat)
    requires WellFormed(im)
    modifies am
    ensures (am.State(), lost) == LoadTried(am.net, im, |im.fromTried|)
  {
    ReadNew(am, im);
    lost := ReadTried(am, im);
  }

  method ReadRest(am: Manager, im: Image, lost: nat)
    requires BucketsFit(im, am.State())
    modifies am
    ensures am.State() == WithBuckets(im, old(am.State()), lost)
  {
    am.nTried := am.nTried - lost;
    ReadBuckets(am, im.buckets);
  }

  method Read(am: Manager, im: Image) returns (lost: nat)
    requires WellFormed(im)
    modifies am
    ensures (am.State(), lost) == Loaded(am.net, im)
  {
    BucketsReady(am.net, im);
    lost := ReadRecords(am, im);
    ReadRest(am, im, lost);
  }

  /** Writing a manager and reading the file into another one. */
  method SaveAndLoad(am: Manager, other: Manager) returns (im: Image, lost: nat)
    requires am.Valid() && am != other && am.net == other.net
    modifies other
    ensures lost == 0 && other.Valid()
    ensures SameUpToNumbering(am.State(), other.State())
  {
    SavedThenLoaded(am.net, am.State());
    im := Write(am);
    lost := Read(other, im);
  }
}
