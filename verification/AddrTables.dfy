/** The tables of the stochastic address manager (legacy/src/addrman.h, addrman.cpp) as a value,
    the effect of every operation on them, and the consistency invariant they keep.

    Randomness and the clock are explicit arguments: each operation is a function of the old tables
    and of the choices made, and `Legal` says which choices the code can make.
 */
module AddrTables {
  import opened Sets

  type Key(==, !new)
  type NetAddr(==, !new)
  type Group(==, !new)

  datatype Service = Service(net: NetAddr, port: nat)

  datatype Address = Address(service: Service, services: set<nat>, time: int)

  datatype Info = Info(
    addr: Address, source: NetAddr, lastSuccess: int, lastTry: int, attempts: int,
    refCount: int, inTried: bool, randomPos: int)

  const TRIED_BUCKETS := 64
  const TRIED_BUCKET_SIZE := 64
  const NEW_BUCKETS := 256
  const NEW_BUCKET_SIZE := 64
  const TRIED_BUCKETS_PER_GROUP := 4
  const NEW_BUCKETS_PER_SOURCE_GROUP := 32
  const NEW_BUCKETS_PER_ADDRESS := 4
  const TRIED_ENTRIES_INSPECTED := 4
  const HORIZON_DAYS := 60
  const RETRIES := 3
  const MAX_FAILURES := 20
  const MIN_FAIL_DAYS := 7
  const GETADDR_MAX_PCT := 23
  const GETADDR_MAX := 2500

  /** What the manager takes from elsewhere: address ranges, routability and the keyed hashes. */
  datatype Network = Network(
    group: NetAddr -> Group,
    routable: NetAddr -> bool,
    serviceHash: (Key, Service) -> nat,
    triedHash: (Key, Group, nat) -> nat,
    pairHash: (Key, Group, Group) -> nat,
    newHash: (Key, Group, nat) -> nat)

  function TriedBucket(n: Network, key: Key, s: Service): (b: nat)
    ensures b < TRIED_BUCKETS
  {
    n.triedHash(key, n.group(s.net), n.serviceHash(key, s) % TRIED_BUCKETS_PER_GROUP) % TRIED_BUCKETS
  }

  function NewBucket(n: Network, key: Key, addr: NetAddr, source: NetAddr): (b: nat)
    ensures b < NEW_BUCKETS
  {
    var from := n.group(source);
    n.newHash(key, from, n.pairHash(key, n.group(addr), from) % NEW_BUCKETS_PER_SOURCE_GROUP) % NEW_BUCKETS
  }

  predicate IsTerrible(info: Info, now: int) {
    if info.lastTry != 0 && info.lastTry >= now - 60 then false
    else
      || info.addr.time > now + 10 * 60
      || info.addr.time == 0
      || now - info.addr.time > HORIZON_DAYS * 86400
      || (info.lastSuccess == 0 && info.attempts >= RETRIES)
      || (now - info.lastSuccess > MIN_FAIL_DAYS * 86400 && info.attempts >= MAX_FAILURES)
  }

  type Infos = map<int, Info>

  datatype Tables = Tables(
    key: Key, nIdCount: int, mapInfo: Infos, mapAddr: map<NetAddr, int>, vRandom: seq<int>,
    nTried: int, vvTried: seq<seq<int>>, nNew: int, vvNew: seq<set<int>>)

  function Empty(key: Key): Tables {
    Tables(key, 0, map[], map[], [], 0, seq(TRIED_BUCKETS, _ => []), 0, seq(NEW_BUCKETS, _ => {}))
  }

  // -------------------------------------------------------------------------
  // The invariant
  // -------------------------------------------------------------------------

  ghost predicate IdsOk(m: Infos, nIdCount: int) {
    nIdCount >= 0 && forall id :: id in m ==> 0 <= id < nIdCount
  }

  /** `vRandom` lists every id once and `randomPos` is its inverse. */
  ghost predicate RandomOk(m: Infos, v: seq<int>) {
    && (forall id :: id in m ==> 0 <= m[id].randomPos < |v| && v[m[id].randomPos] == id)
    && (forall i :: 0 <= i < |v| ==> v[i] in m && m[v[i]].randomPos == i)
  }

  /** `mapAddr` is the inverse of `mapInfo`. */
  ghost predicate AddrOk(m: Infos, a: map<NetAddr, int>) {
    && (forall id :: id in m ==> m[id].addr.service.net in a && a[m[id].addr.service.net] == id)
    && (forall x :: x in a ==> a[x] in m && m[a[x]].addr.service.net == x)
  }

  ghost function Holders(vv: seq<set<int>>, id: int): set<int> {
    set b | 0 <= b < |vv| && id in vv[b]
  }

  /** `refCount` counts the new buckets holding an id; an id in `pending` is counted once in advance. */
  ghost predicate NewOk(m: Infos, vv: seq<set<int>>, pending: set<int>) {
    && |vv| == NEW_BUCKETS
    && (forall b, id :: 0 <= b < |vv| && id in vv[b] ==> id in m)
    && (forall b :: 0 <= b < |vv| ==> |vv[b]| <= NEW_BUCKET_SIZE)
    && (forall id :: id in m ==> m[id].refCount == |Holders(vv, id)| + if id in pending then 1 else 0)
    && (forall id :: id in m ==> if m[id].inTried then m[id].refCount == 0
                                 else 1 <= m[id].refCount <= NEW_BUCKETS_PER_ADDRESS)
  }

  /** Each tried id sits in exactly one slot, of its own bucket. */
  ghost predicate TriedOk(n: Network, key: Key, m: Infos, vv: seq<seq<int>>) {
    && |vv| == TRIED_BUCKETS
    && (forall b, id :: 0 <= b < |vv| && id in vv[b] ==>
          id in m && m[id].inTried && TriedBucket(n, key, m[id].addr.service) == b)
    && (forall b :: 0 <= b < |vv| ==> NoDup(vv[b]) && |vv[b]| <= TRIED_BUCKET_SIZE)
    && (forall id :: id in m && m[id].inTried ==> id in vv[TriedBucket(n, key, m[id].addr.service)])
  }

  ghost function Tried(m: Infos): set<int> { set id | id in m && m[id].inTried }
  ghost function Untried(m: Infos): set<int> { set id | id in m && !m[id].inTried }

  ghost predicate CountsOk(m: Infos, nTried: int, nNew: int) {
    nTried == |Tried(m)| && nNew == |Untried(m)|
  }

  ghost predicate AlmostOk(n: Network, t: Tables, pending: set<int>) {
    && IdsOk(t.mapInfo, t.nIdCount)
    && RandomOk(t.mapInfo, t.vRandom)
    && AddrOk(t.mapInfo, t.mapAddr)
    && NewOk(t.mapInfo, t.vvNew, pending)
    && TriedOk(n, t.key, t.mapInfo, t.vvTried)
    && CountsOk(t.mapInfo, t.nTried, t.nNew)
  }

  /** The structural part of the source's runtime self-check. */
  ghost predicate Consistent(n: Network, t: Tables) {
    AlmostOk(n, t, {})
  }

  /** The part of the self-check that is about recorded times. */
  ghost predicate TimesOk(t: Tables) {
    forall id :: id in t.mapInfo ==>
      t.mapInfo[id].lastTry >= 0 && t.mapInfo[id].lastSuccess >= 0 &&
      (t.mapInfo[id].inTried ==> t.mapInfo[id].lastSuccess != 0)
  }

  // -------------------------------------------------------------------------
  // Effects
  // -------------------------------------------------------------------------

  function Swapped(t: Tables, p: int, q: int): Tables
    requires 0 <= p < |t.vRandom| && 0 <= q < |t.vRandom|
    requires t.vRandom[p] in t.mapInfo && t.vRandom[q] in t.mapInfo
  {
    if p == q then t
    else
      var a, b := t.vRandom[p], t.vRandom[q];
      var m := t.mapInfo[a := t.mapInfo[a].(randomPos := q)];
      t.(mapInfo := m[b := m[b].(randomPos := p)], vRandom := t.vRandom[p := b][q := a])
  }

  /** Forgetting an entry: its slot of `vRandom` is filled with the last one. */
  ghost function Removed(t: Tables, id: int): Tables
    requires RandomOk(t.mapInfo, t.vRandom) && id in t.mapInfo
  {
    var s := Swapped(t, t.mapInfo[id].randomPos, |t.vRandom| - 1);
    s.(vRandom := s.vRandom[..|s.vRandom| - 1],
       mapAddr := s.mapAddr - {t.mapInfo[id].addr.service.net},
       mapInfo := s.mapInfo - {id},
       nNew := s.nNew - 1)
  }

  function WithInfo(t: Tables, id: int, info: Info): Tables {
    t.(mapInfo := t.mapInfo[id := info])
  }

  /** Taking an id out of one new bucket, forgetting it when no other bucket holds it. */
  ghost function Dropped(t: Tables, b: int, id: int): Tables
    requires 0 <= b < |t.vvNew| && RandomOk(t.mapInfo, t.vRandom) && id in t.mapInfo
  {
    var less := WithInfo(t, id, t.mapInfo[id].(refCount := t.mapInfo[id].refCount - 1));
    var rest := if less.mapInfo[id].refCount == 0 then Removed(less, id) else less;
    rest.(vvNew := rest.vvNew[b := rest.vvNew[b] - {id}])
  }

  function Max(a: int, b: int): int { if a < b then b else a }

  /** A fresh entry, before it is put into any bucket. */
  function Created(t: Tables, addr: Address, source: NetAddr, penalty: int): Tables {
    var info := Info(addr.(time := Max(0, addr.time - penalty)), source, 0, 0, 0, 0, false, |t.vRandom|);
    t.(nIdCount := t.nIdCount + 1,
       mapInfo := t.mapInfo[t.nIdCount := info],
       mapAddr := t.mapAddr[addr.service.net := t.nIdCount],
       vRandom := t.vRandom + [t.nIdCount],
       nNew := t.nNew + 1)
  }

  function Bumped(t: Tables, id: int): Tables
    requires id in t.mapInfo
  {
    WithInfo(t, id, t.mapInfo[id].(refCount := t.mapInfo[id].refCount + 1))
  }

  function Placed(t: Tables, b: int, id: int): Tables
    requires 0 <= b < |t.vvNew|
  {
    t.(vvNew := t.vvNew[b := t.vvNew[b] + {id}])
  }

  /** The entry as it stands after hearing of a known address again. */
  function Refreshed(info: Info, addr: Address, penalty: int, now: int): Info {
    var interval := if now - addr.time < 24 * 60 * 60 then 60 * 60 else 24 * 60 * 60;
    var time := if addr.time != 0 && (info.addr.time == 0 || info.addr.time < addr.time - interval - penalty)
                then Max(0, addr.time - penalty) else info.addr.time;
    info.(addr := info.addr.(time := time, services := info.addr.services + addr.services))
  }

  /** Whether a known entry may be put into one more new bucket (`lucky` is the stochastic test). */
  predicate MayRepeat(info: Info, addr: Address, lucky: bool) {
    && addr.time != 0 && (info.addr.time == 0 || addr.time > info.addr.time)
    && !info.inTried
    && info.refCount != NEW_BUCKETS_PER_ADDRESS
    && lucky
  }

  /** Putting a counted entry into bucket `b`, making room by dropping `victim` when it is full. */
  ghost function Inserted(t: Tables, b: int, id: int, victim: int): Tables
    requires 0 <= b < |t.vvNew|
    requires |t.vvNew[b]| == NEW_BUCKET_SIZE ==> RandomOk(t.mapInfo, t.vRandom) && victim in t.mapInfo
  {
    var room := if |t.vvNew[b]| == NEW_BUCKET_SIZE then Dropped(t, b, victim) else t;
    Placed(room, b, id)
  }

  /** What `ShrinkNew` may pick: some id of the bucket. */
  ghost predicate AddChoice(n: Network, t: Tables, addr: Address, source: NetAddr, victim: int)
    requires |t.vvNew| == NEW_BUCKETS
  {
    var bucket := t.vvNew[NewBucket(n, t.key, addr.service.net, source)];
    |bucket| == NEW_BUCKET_SIZE ==> victim in bucket
  }

  ghost function Added(n: Network, t: Tables, addr: Address, source: NetAddr, penalty: int, now: int,
                       lucky: bool, victim: int): (r: (Tables, bool))
    requires Consistent(n, t)
    requires AddChoice(n, t, addr, source, victim)
  {
    if !n.routable(addr.service.net) then (t, false)
    else if addr.service.net in t.mapAddr then
      var id := t.mapAddr[addr.service.net];
      var info := Refreshed(t.mapInfo[id], addr, penalty, now);
      var t1 := WithInfo(t, id, info);
      var b := NewBucket(n, t.key, addr.service.net, source);
      if MayRepeat(info, addr, lucky) && id !in t.vvNew[b] then
        (Inserted(Bumped(t1, id), b, id, victim), false)
      else (t1, false)
    else
      var id := t.nIdCount;
      var b := NewBucket(n, t.key, addr.service.net, source);
      (Inserted(Bumped(Created(t, addr, source, penalty), id), b, id, victim), true)
  }

  /** Taking an id out of every new bucket. */
  ghost function Unlinked(t: Tables, id: int): Tables
    requires id in t.mapInfo
  {
    WithInfo(t, id, t.mapInfo[id].(refCount := t.mapInfo[id].refCount - |Holders(t.vvNew, id)|))
    .(vvNew := seq(|t.vvNew|, b requires 0 <= b < |t.vvNew| => t.vvNew[b] - {id}), nNew := t.nNew - 1)
  }

  ghost predicate Shuffle(xs: seq<int>, ys: seq<int>) {
    && |xs| == |ys|
    && (forall x :: x in xs <==> x in ys)
    && (NoDup(xs) ==> NoDup(ys))
  }

  lemma ShuffleHas(xs: seq<int>, ys: seq<int>, pos: int)
    requires Shuffle(xs, ys) && 0 <= pos < |ys|
    ensures ys[pos] in xs
  {
    var y := ys[pos];
    assert y in ys;
  }

  /** Moving a new entry to its tried bucket. If that is full, the entry at `pos` of the shuffled bucket
      goes back to a new bucket: its own if there is room, otherwise the one the promoted entry came from. */
  ghost function Promoted(n: Network, t: Tables, id: int, origin: int, shuffled: seq<int>, pos: int): Tables
    requires id in t.mapInfo && |t.vvTried| == TRIED_BUCKETS && |t.vvNew| == NEW_BUCKETS
    requires 0 <= origin < |t.vvNew| && 0 <= pos < |shuffled| && shuffled[pos] in t.mapInfo
  {
    var u := Unlinked(t, id);
    var k := TriedBucket(n, t.key, t.mapInfo[id].addr.service);
    var promoted := u.mapInfo[id].(inTried := true);
    if |u.vvTried[k]| < TRIED_BUCKET_SIZE then
      WithInfo(u, id, promoted).(vvTried := u.vvTried[k := u.vvTried[k] + [id]], nTried := u.nTried + 1)
    else
      var leaver := shuffled[pos];
      var evicted := u.mapInfo[leaver].(inTried := false, refCount := 1);
      var own := NewBucket(n, t.key, evicted.addr.service.net, evicted.source);
      var target := if |u.vvNew[own]| < NEW_BUCKET_SIZE then own else origin;
      u.(mapInfo := u.mapInfo[leaver := evicted][id := promoted],
         vvNew := u.vvNew[target := u.vvNew[target] + {leaver}],
         nNew := u.nNew + 1,
         vvTried := u.vvTried[k := shuffled[pos := id]])
  }

  predicate Knows(t: Tables, s: Service) {
    && s.net in t.mapAddr
    && t.mapAddr[s.net] in t.mapInfo
    && t.mapInfo[t.mapAddr[s.net]].addr.service == s
  }

  function Succeeded(info: Info, time: int): Info {
    info.(lastSuccess := time, lastTry := time, addr := info.addr.(time := time), attempts := 0)
  }

  ghost predicate GoodChoice(n: Network, t: Tables, id: int, origin: int, shuffled: seq<int>, pos: int)
    requires id in t.mapInfo && |t.vvTried| == TRIED_BUCKETS
  {
    && 0 <= origin < |t.vvNew| && id in t.vvNew[origin]
    && var bucket := t.vvTried[TriedBucket(n, t.key, t.mapInfo[id].addr.service)];
       |bucket| >= TRIED_BUCKET_SIZE ==> Shuffle(bucket, shuffled) && 0 <= pos < |shuffled|
  }

  ghost function Graded(n: Network, t: Tables, s: Service, time: int, origin: int, shuffled: seq<int>, pos: int): Tables
    requires Consistent(n, t)
    requires Knows(t, s) && !t.mapInfo[t.mapAddr[s.net]].inTried ==> GoodChoice(n, t, t.mapAddr[s.net], origin, shuffled, pos)
  {
    if !Knows(t, s) then t
    else
      var id := t.mapAddr[s.net];
      var t1 := WithInfo(t, id, Succeeded(t.mapInfo[id], time));
      if t.mapInfo[id].inTried then t1
      else
        var bucket := t.vvTried[TriedBucket(n, t.key, s)];
        if |bucket| < TRIED_BUCKET_SIZE then Promoted(n, t1, id, origin, [id], 0)
        else
          LeaverIsKnown(n, t, TriedBucket(n, t.key, s), shuffled, pos);
          Promoted(n, t1, id, origin, shuffled, pos)
  }

  function Attempted(t: Tables, s: Service, time: int): Tables {
    if !Knows(t, s) then t
    else
      var id := t.mapAddr[s.net];
      WithInfo(t, id, t.mapInfo[id].(lastTry := time, attempts := t.mapInfo[id].attempts + 1))
  }

  function ConnectedTo(t: Tables, s: Service, time: int): Tables {
    if !Knows(t, s) then t
    else
      var id := t.mapAddr[s.net];
      var info := t.mapInfo[id];
      if time - info.addr.time > 20 * 60 then WithInfo(t, id, info.(addr := info.addr.(time := time))) else t
  }

  // -------------------------------------------------------------------------
  // Each effect keeps the invariant
  // -------------------------------------------------------------------------

  /** Entries that differ only in what no index depends on. */
  ghost predicate SameShape(m: Infos, m': Infos) {
    && (forall id :: id in m <==> id in m')
    && forall id :: id in m ==>
         && m'[id].addr.service == m[id].addr.service
         && m'[id].refCount == m[id].refCount
         && m'[id].inTried == m[id].inTried
  }

  lemma ShapeKeeps(n: Network, t: Tables, t': Tables, pending: set<int>)
    requires AlmostOk(n, t, pending)
    requires t' == t.(mapInfo := t'.mapInfo, vRandom := t'.vRandom)
    requires SameShape(t.mapInfo, t'.mapInfo) && RandomOk(t'.mapInfo, t'.vRandom)
    ensures AlmostOk(n, t', pending)
  {
    SameSet(Tried(t'.mapInfo), Tried(t.mapInfo));
    SameSet(Untried(t'.mapInfo), Untried(t.mapInfo));
    SameAddr(t.mapInfo, t.mapAddr, t'.mapInfo);
  }

  lemma SwappedKeeps(n: Network, t: Tables, p: int, q: int, pending: set<int>)
    requires AlmostOk(n, t, pending)
    requires 0 <= p < |t.vRandom| && 0 <= q < |t.vRandom|
    ensures AlmostOk(n, Swapped(t, p, q), pending)
  {
    SwappedRandom(t, p, q);
    ShapeKeeps(n, t, Swapped(t, p, q), pending);
  }

  lemma SwappedRandom(t: Tables, p: int, q: int)
    requires RandomOk(t.mapInfo, t.vRandom)
    requires 0 <= p < |t.vRandom| && 0 <= q < |t.vRandom|
    ensures RandomOk(Swapped(t, p, q).mapInfo, Swapped(t, p, q).vRandom)
    ensures SameShape(t.mapInfo, Swapped(t, p, q).mapInfo)
  {
    var t' := Swapped(t, p, q);
    if p != q {
      var a, b := t.vRandom[p], t.vRandom[q];
      assert a != b;
      forall id | id in t'.mapInfo
        ensures 0 <= t'.mapInfo[id].randomPos < |t'.vRandom| && t'.vRandom[t'.mapInfo[id].randomPos] == id
      {
        if id != a && id != b {
          assert t'.mapInfo[id] == t.mapInfo[id];
        }
      }
    }
  }

  lemma UpdateKeeps(n: Network, t: Tables, id: int, info: Info, pending: set<int>)
    requires AlmostOk(n, t, pending) && id in t.mapInfo
    requires info.addr.service == t.mapInfo[id].addr.service && info.refCount == t.mapInfo[id].refCount
    requires info.inTried == t.mapInfo[id].inTried && info.randomPos == t.mapInfo[id].randomPos
    ensures AlmostOk(n, WithInfo(t, id, info), pending)
  {
    ShapeKeeps(n, t, WithInfo(t, id, info), pending);
  }

  lemma BumpedKeeps(n: Network, t: Tables, id: int)
    requires Consistent(n, t) && id in t.mapInfo
    requires !t.mapInfo[id].inTried && t.mapInfo[id].refCount < NEW_BUCKETS_PER_ADDRESS
    ensures AlmostOk(n, Bumped(t, id), {id})
  {
    var m' := Bumped(t, id).mapInfo;
    BumpedNew(t.mapInfo, t.vvNew, id, m');
    SameTried(n, t, m');
    SameRandom(t.mapInfo, t.vRandom, m');
    SameAddr(t.mapInfo, t.mapAddr, m');
  }

  lemma BumpedNew(m: Infos, vv: seq<set<int>>, id: int, m': Infos)
    requires NewOk(m, vv, {}) && id in m && !m[id].inTried && m[id].refCount < NEW_BUCKETS_PER_ADDRESS
    requires m' == m[id := m[id].(refCount := m[id].refCount + 1)]
    ensures NewOk(m', vv, {id})
  {
  }

  lemma SameTried(n: Network, t: Tables, m': Infos)
    requires TriedOk(n, t.key, t.mapInfo, t.vvTried) && CountsOk(t.mapInfo, t.nTried, t.nNew)
    requires forall x :: x in m' <==> x in t.mapInfo
    requires forall x :: x in m' ==> m'[x].inTried == t.mapInfo[x].inTried && m'[x].addr.service == t.mapInfo[x].addr.service
    ensures TriedOk(n, t.key, m', t.vvTried) && CountsOk(m', t.nTried, t.nNew)
  {
    SameSet(Tried(m'), Tried(t.mapInfo));
    SameSet(Untried(m'), Untried(t.mapInfo));
  }

  lemma SameRandom(m: Infos, v: seq<int>, m': Infos)
    requires RandomOk(m, v)
    requires forall x :: x in m' <==> x in m
    requires forall x :: x in m' ==> m'[x].randomPos == m[x].randomPos
    ensures RandomOk(m', v)
  {
    forall i | 0 <= i < |v|
      ensures v[i] in m' && m'[v[i]].randomPos == i
    {
      var x := v[i];
      assert x in m && m[x].randomPos == i;
    }
  }

  lemma CreatedKeeps(n: Network, t: Tables, addr: Address, source: NetAddr, penalty: int)
    requires Consistent(n, t) && addr.service.net !in t.mapAddr
    ensures AlmostOk(n, Bumped(Created(t, addr, source, penalty), t.nIdCount), {t.nIdCount})
  {
    var t' := Bumped(Created(t, addr, source, penalty), t.nIdCount);
    var info := t'.mapInfo[t.nIdCount];
    assert t'.mapInfo == t.mapInfo[t.nIdCount := info];
    CreatedIndexes(t, info);
    CreatedBuckets(n, t, info);
  }

  lemma CreatedIndexes(t: Tables, info: Info)
    requires IdsOk(t.mapInfo, t.nIdCount) && RandomOk(t.mapInfo, t.vRandom) && AddrOk(t.mapInfo, t.mapAddr)
    requires info.addr.service.net !in t.mapAddr && info.randomPos == |t.vRandom|
    ensures var m' := t.mapInfo[t.nIdCount := info];
      && RandomOk(m', t.vRandom + [t.nIdCount])
      && AddrOk(m', t.mapAddr[info.addr.service.net := t.nIdCount])
  {
  }

  lemma CreatedBuckets(n: Network, t: Tables, info: Info)
    requires Consistent(n, t) && !info.inTried && info.refCount == 1
    ensures var m' := t.mapInfo[t.nIdCount := info];
      && NewOk(m', t.vvNew, {t.nIdCount})
      && TriedOk(n, t.key, m', t.vvTried)
      && CountsOk(m', t.nTried, t.nNew + 1)
  {
    assert t.nIdCount !in t.mapInfo;
    CreatedNew(t.mapInfo, t.vvNew, t.nIdCount, info);
    CreatedTried(n, t, info);
  }

  lemma CreatedNew(m: Infos, vv: seq<set<int>>, id: int, info: Info)
    requires NewOk(m, vv, {}) && id !in m && !info.inTried && info.refCount == 1
    ensures NewOk(m[id := info], vv, {id})
  {
    SameSet(Holders(vv, id), {});
  }

  lemma CreatedTried(n: Network, t: Tables, info: Info)
    requires TriedOk(n, t.key, t.mapInfo, t.vvTried) && CountsOk(t.mapInfo, t.nTried, t.nNew)
    requires t.nIdCount !in t.mapInfo && !info.inTried
    ensures var m' := t.mapInfo[t.nIdCount := info];
      TriedOk(n, t.key, m', t.vvTried) && CountsOk(m', t.nTried, t.nNew + 1)
  {
    var m' := t.mapInfo[t.nIdCount := info];
    SameSet(Tried(m'), Tried(t.mapInfo));
    SameSet(Untried(m'), Untried(t.mapInfo) + {t.nIdCount});
  }

  lemma PlacedKeeps(n: Network, t: Tables, b: int, id: int)
    requires AlmostOk(n, t, {id}) && id in t.mapInfo
    requires 0 <= b < |t.vvNew| && id !in t.vvNew[b] && |t.vvNew[b]| < NEW_BUCKET_SIZE
    ensures Consistent(n, Placed(t, b, id))
  {
    var vv' := Placed(t, b, id).vvNew;
    forall x | x in t.mapInfo
      ensures |Holders(vv', x)| == |Holders(t.vvNew, x)| + if x == id then 1 else 0
    {
      PlacedHolders(t.vvNew, b, id, x);
    }
  }

  lemma PlacedHolders(vv: seq<set<int>>, b: int, id: int, x: int)
    requires 0 <= b < |vv| && id !in vv[b]
    ensures |Holders(vv[b := vv[b] + {id}], x)| == |Holders(vv, x)| + if x == id then 1 else 0
  {
    SameSet(Holders(vv[b := vv[b] + {id}], x), Holders(vv, x) + if x == id then {b} else {});
  }

  // Dropping an id from a bucket

  lemma DroppedHolders(vv: seq<set<int>>, b: int, id: int, x: int)
    requires 0 <= b < |vv| && id in vv[b]
    ensures |Holders(vv[b := vv[b] - {id}], x)| == |Holders(vv, x)| - if x == id then 1 else 0
  {
    SameSet(Holders(vv[b := vv[b] - {id}], x), Holders(vv, x) - if x == id then {b} else {});
    if x == id {
      assert b in Holders(vv, x);
    }
  }

  /** An id counted in one bucket only is in no other. */
  lemma OnlyHolder(vv: seq<set<int>>, b: int, id: int, c: int)
    requires 0 <= b < |vv| && id in vv[b] && |Holders(vv, id)| == 1
    requires 0 <= c < |vv| && id in vv[c]
    ensures c == b
  {
    var one := Holders(vv, id);
    if c != b {
      assert {b, c} <= one;
      SubsetCard({b, c}, one);
    }
  }

  lemma DroppedNew(m: Infos, vv: seq<set<int>>, b: int, id: int, pending: set<int>, m': Infos)
    requires NewOk(m, vv, pending) && 0 <= b < |vv| && id in vv[b] && id !in pending
    requires if m[id].refCount == 1 then forall x :: x in m' <==> x in m && x != id
             else forall x :: x in m' <==> x in m
    requires forall x :: x in m' ==> m'[x].inTried == m[x].inTried
    requires forall x :: x in m' ==> m'[x].refCount == m[x].refCount - if x == id then 1 else 0
    ensures NewOk(m', vv[b := vv[b] - {id}], pending)
  {
    forall x | x in m
      ensures |Holders(vv[b := vv[b] - {id}], x)| == |Holders(vv, x)| - if x == id then 1 else 0
    {
      DroppedHolders(vv, b, id, x);
    }
    forall c | 0 <= c < |vv| && id in vv[c] && m[id].refCount == 1
      ensures c == b
    {
      OnlyHolder(vv, b, id, c);
    }
  }

  lemma RemovedRandom(t: Tables, id: int)
    requires RandomOk(t.mapInfo, t.vRandom) && id in t.mapInfo
    ensures var t' := Removed(t, id);
      && RandomOk(t'.mapInfo, t'.vRandom)
      && (forall x :: x in t'.mapInfo <==> x in t.mapInfo && x != id)
      && (forall x :: x in t'.mapInfo ==> t'.mapInfo[x] == t.mapInfo[x].(randomPos := t'.mapInfo[x].randomPos))
  {
    var last := |t.vRandom| - 1;
    var s := Swapped(t, t.mapInfo[id].randomPos, last);
    SwappedRandom(t, t.mapInfo[id].randomPos, last);
    assert s.vRandom[last] == id;
    LastRemoved(s.mapInfo, s.vRandom);
  }

  lemma LastRemoved(m: Infos, v: seq<int>)
    requires RandomOk(m, v) && |v| > 0
    ensures RandomOk(m - {v[|v| - 1]}, v[..|v| - 1])
  {
    var last := |v| - 1;
    var m', v' := m - {v[last]}, v[..last];
    forall i | 0 <= i < |v'|
      ensures v'[i] in m' && m'[v'[i]].randomPos == i
    {
      assert v[i] in m && m[v[i]].randomPos == i && m[v[last]].randomPos == last;
    }
  }

  /** Forgetting an entry on both sides of the address index. */
  lemma RemovedAddr(m: Infos, a: map<NetAddr, int>, id: int, m': Infos)
    requires AddrOk(m, a) && id in m
    requires forall x :: x in m' <==> x in m && x != id
    requires forall x :: x in m' ==> m'[x].addr == m[x].addr
    ensures AddrOk(m', a - {m[id].addr.service.net})
  {
    var a' := a - {m[id].addr.service.net};
    forall x | x in a'
      ensures a'[x] in m' && m'[a'[x]].addr.service.net == x
    {
      var k := a[x];
      assert k in m && m[k].addr.service.net == x;
    }
  }

  lemma DroppedTried(n: Network, key: Key, m: Infos, vv: seq<seq<int>>, id: int, m': Infos)
    requires TriedOk(n, key, m, vv) && id in m && !m[id].inTried
    requires forall x :: x in m' ==> x in m && m'[x].inTried == m[x].inTried && m'[x].addr == m[x].addr
    requires forall x :: x in m && x != id ==> x in m'
    ensures TriedOk(n, key, m', vv)
    ensures |Tried(m')| == |Tried(m)|
    ensures |Untried(m')| == |Untried(m)| - if id in m' then 0 else 1
  {
    SameSet(Tried(m'), Tried(m));
    SameSet(Untried(m'), if id in m' then Untried(m) else Untried(m) - {id});
    assert id in Untried(m);
  }

  /** What `Dropped` leaves behind, in terms of single entries. */
  ghost predicate DroppedTo(t: Tables, b: int, id: int, t': Tables)
    requires 0 <= b < |t.vvNew| && id in t.mapInfo
  {
    var gone := t.mapInfo[id].refCount == 1;
    && t'.key == t.key && t'.nIdCount == t.nIdCount && t'.nTried == t.nTried && t'.vvTried == t.vvTried
    && t'.vvNew == t.vvNew[b := t.vvNew[b] - {id}]
    && t'.nNew == t.nNew - (if gone then 1 else 0)
    && t'.mapAddr == (if gone then t.mapAddr - {t.mapInfo[id].addr.service.net} else t.mapAddr)
    && (forall x :: x in t'.mapInfo <==> x in t.mapInfo && !(gone && x == id))
    && (forall x :: x in t'.mapInfo ==>
          t'.mapInfo[x] == t.mapInfo[x].(randomPos := t'.mapInfo[x].randomPos,
                                         refCount := t.mapInfo[x].refCount - if x == id then 1 else 0))
    && RandomOk(t'.mapInfo, t'.vRandom)
  }

  lemma DroppedEntries(t: Tables, b: int, id: int)
    requires RandomOk(t.mapInfo, t.vRandom) && id in t.mapInfo && 0 <= b < |t.vvNew|
    ensures DroppedTo(t, b, id, Dropped(t, b, id))
  {
    var less := WithInfo(t, id, t.mapInfo[id].(refCount := t.mapInfo[id].refCount - 1));
    SameRandom(t.mapInfo, t.vRandom, less.mapInfo);
    if less.mapInfo[id].refCount == 0 {
      RemovedRandom(less, id);
      var gone := Removed(less, id);
      assert Dropped(t, b, id) == gone.(vvNew := t.vvNew[b := t.vvNew[b] - {id}]);
    }
  }

  lemma DroppedToKeeps(n: Network, t: Tables, b: int, id: int, pending: set<int>, t': Tables)
    requires AlmostOk(n, t, pending) && 0 <= b < |t.vvNew| && id in t.vvNew[b] && id !in pending
    requires DroppedTo(t, b, id, t')
    ensures AlmostOk(n, t', pending)
  {
    assert b in Holders(t.vvNew, id);
    if t.mapInfo[id].refCount == 1 {
      RemovedAddr(t.mapInfo, t.mapAddr, id, t'.mapInfo);
    } else {
      SameAddr(t.mapInfo, t.mapAddr, t'.mapInfo);
    }
    DroppedTried(n, t.key, t.mapInfo, t.vvTried, id, t'.mapInfo);
    DroppedNew(t.mapInfo, t.vvNew, b, id, pending, t'.mapInfo);
  }

  lemma DroppedKeeps(n: Network, t: Tables, b: int, id: int, pending: set<int>)
    requires AlmostOk(n, t, pending) && 0 <= b < |t.vvNew| && id in t.vvNew[b] && id !in pending
    ensures AlmostOk(n, Dropped(t, b, id), pending)
    ensures DroppedTo(t, b, id, Dropped(t, b, id))
  {
    DroppedEntries(t, b, id);
    DroppedToKeeps(n, t, b, id, pending, Dropped(t, b, id));
  }

  lemma SameAddr(m: Infos, a: map<NetAddr, int>, m': Infos)
    requires AddrOk(m, a)
    requires forall x :: x in m' <==> x in m
    requires forall x :: x in m' ==> m'[x].addr.service == m[x].addr.service
    ensures AddrOk(m', a)
  {
    forall x | x in a
      ensures a[x] in m' && m'[a[x]].addr.service.net == x
    {
      var k := a[x];
      assert k in m && m[k].addr.service.net == x;
    }
  }

  // Adding

  lemma InsertedKeeps(n: Network, t: Tables, b: int, id: int, victim: int)
    requires AlmostOk(n, t, {id}) && id in t.mapInfo && 0 <= b < |t.vvNew| && id !in t.vvNew[b]
    requires |t.vvNew[b]| == NEW_BUCKET_SIZE ==> victim in t.vvNew[b]
    ensures Consistent(n, Inserted(t, b, id, victim))
  {
    if |t.vvNew[b]| == NEW_BUCKET_SIZE {
      DroppedKeeps(n, t, b, victim, {id});
      assert |t.vvNew[b] - {victim}| == NEW_BUCKET_SIZE - 1;
      PlacedKeeps(n, Dropped(t, b, victim), b, id);
    } else {
      PlacedKeeps(n, t, b, id);
    }
  }

  lemma AddedKeeps(n: Network, t: Tables, addr: Address, source: NetAddr, penalty: int, now: int,
                   lucky: bool, victim: int)
    requires Consistent(n, t) && AddChoice(n, t, addr, source, victim)
    ensures Consistent(n, Added(n, t, addr, source, penalty, now, lucky, victim).0)
  {
    var net := addr.service.net;
    if n.routable(net) {
      var b := NewBucket(n, t.key, net, source);
      if net in t.mapAddr {
        var id := t.mapAddr[net];
        var info := Refreshed(t.mapInfo[id], addr, penalty, now);
        UpdateKeeps(n, t, id, info, {});
        var t1 := WithInfo(t, id, info);
        if MayRepeat(info, addr, lucky) && id !in t.vvNew[b] {
          BumpedKeeps(n, t1, id);
          InsertedKeeps(n, Bumped(t1, id), b, id, victim);
        }
      } else {
        CreatedKeeps(n, t, addr, source, penalty);
        InsertedKeeps(n, Bumped(Created(t, addr, source, penalty), t.nIdCount), b, t.nIdCount, victim);
      }
    }
  }

  // Promoting to the tried table

  lemma UnlinkedHolders(vv: seq<set<int>>, vv': seq<set<int>>, id: int, x: int)
    requires |vv'| == |vv| && forall b :: 0 <= b < |vv| ==> vv'[b] == vv[b] - {id}
    ensures Holders(vv', x) == if x == id then {} else Holders(vv, x)
  {
    SameSet(Holders(vv', x), if x == id then {} else Holders(vv, x));
  }

  /** Promoting into a tried bucket that has room. */
  lemma RoomNew(m: Infos, vv: seq<set<int>>, id: int, vv': seq<set<int>>, info: Info)
    requires NewOk(m, vv, {}) && id in m
    requires |vv'| == |vv| && forall b :: 0 <= b < |vv| ==> vv'[b] == vv[b] - {id}
    requires info.inTried && info.refCount == 0
    ensures NewOk(m[id := info], vv', {})
  {
    forall x
      ensures Holders(vv', x) == if x == id then {} else Holders(vv, x)
    {
      UnlinkedHolders(vv, vv', id, x);
    }
    forall b | 0 <= b < |vv|
      ensures |vv'[b]| <= NEW_BUCKET_SIZE
    {
      SubsetCard(vv'[b], vv[b]);
    }
  }

  lemma RoomTried(n: Network, key: Key, m: Infos, vv: seq<seq<int>>, id: int, info: Info)
    requires TriedOk(n, key, m, vv) && id in m && !m[id].inTried
    requires info.inTried && info.addr.service == m[id].addr.service
    requires |vv[TriedBucket(n, key, info.addr.service)]| < TRIED_BUCKET_SIZE
    ensures var k := TriedBucket(n, key, info.addr.service);
      TriedOk(n, key, m[id := info], vv[k := vv[k] + [id]])
    ensures |Tried(m[id := info])| == |Tried(m)| + 1
    ensures |Untried(m[id := info])| == |Untried(m)| - 1
  {
    SameSet(Tried(m[id := info]), Tried(m) + {id});
    SameSet(Untried(m[id := info]), Untried(m) - {id});
    assert id in Untried(m);
  }

  /** Promoting by evicting `leaver`, which goes to the new bucket `target`. */
  lemma EvictNew(m: Infos, vv: seq<set<int>>, id: int, leaver: int, target: int, vv': seq<set<int>>,
                 info: Info, evicted: Info)
    requires NewOk(m, vv, {}) && id in m && leaver in m && id != leaver && m[leaver].inTried
    requires |vv'| == |vv| && forall b :: 0 <= b < |vv| ==> vv'[b] == vv[b] - {id}
    requires 0 <= target < |vv| && |vv'[target]| < NEW_BUCKET_SIZE
    requires info.inTried && info.refCount == 0 && !evicted.inTried && evicted.refCount == 1
    ensures NewOk(m[leaver := evicted][id := info], vv'[target := vv'[target] + {leaver}], {})
  {
    RoomNew(m, vv, id, vv', info);
    BackNew(m[id := info], vv', leaver, target, evicted);
    assert m[leaver := evicted][id := info] == m[id := info][leaver := evicted];
  }

  lemma BackNew(m: Infos, vv: seq<set<int>>, leaver: int, target: int, evicted: Info)
    requires NewOk(m, vv, {}) && leaver in m && m[leaver].inTried && !evicted.inTried && evicted.refCount == 1
    requires 0 <= target < |vv| && |vv[target]| < NEW_BUCKET_SIZE
    ensures NewOk(m[leaver := evicted], vv[target := vv[target] + {leaver}], {})
  {
    assert leaver in vv[target] ==> target in Holders(vv, leaver);
    var vv' := vv[target := vv[target] + {leaver}];
    forall x | x in m
      ensures |Holders(vv', x)| == |Holders(vv, x)| + if x == leaver then 1 else 0
    {
      PlacedHolders(vv, target, leaver, x);
    }
  }

  lemma EvictTried(n: Network, key: Key, m: Infos, vv: seq<seq<int>>, id: int, shuffled: seq<int>, pos: int,
                   info: Info, evicted: Info)
    requires TriedOk(n, key, m, vv) && id in m && !m[id].inTried
    requires info.inTried && info.addr.service == m[id].addr.service && !evicted.inTried
    requires Shuffle(vv[TriedBucket(n, key, info.addr.service)], shuffled) && 0 <= pos < |shuffled|
    ensures var k := TriedBucket(n, key, info.addr.service);
      TriedOk(n, key, m[shuffled[pos] := evicted][id := info], vv[k := shuffled[pos := id]])
    ensures var m' := m[shuffled[pos] := evicted][id := info];
      |Tried(m')| == |Tried(m)| && |Untried(m')| == |Untried(m)|
  {
    var k := TriedBucket(n, key, info.addr.service);
    var leaver := shuffled[pos];
    assert leaver in shuffled && leaver in vv[k] && id !in vv[k];
    var m' := m[leaver := evicted][id := info];
    var vv' := vv[k := shuffled[pos := id]];
    forall x
      ensures x in vv'[k] <==> x == id || (x in vv[k] && x != leaver)
    {
      ReplacedMembers(shuffled, pos, id, x);
    }
    SameSet(Tried(m'), Tried(m) - {leaver} + {id});
    SameSet(Untried(m'), Untried(m) - {id} + {leaver});
    assert id in Untried(m) && leaver in Tried(m);
  }

  lemma ReplacedMembers(xs: seq<int>, pos: int, y: int, x: int)
    requires NoDup(xs) && 0 <= pos < |xs| && y !in xs
    ensures x in xs[pos := y] <==> x == y || (x in xs && x != xs[pos])
  {
    if x in xs && x != xs[pos] {
      var i :| 0 <= i < |xs| && xs[i] == x;
      assert xs[pos := y][i] == x;
    }
    assert xs[pos := y][pos] == y;
  }

  /** Changing counts and flags of entries leaves the id indexes as they are. */
  lemma SameIndexes(t: Tables, m': Infos)
    requires IdsOk(t.mapInfo, t.nIdCount) && RandomOk(t.mapInfo, t.vRandom) && AddrOk(t.mapInfo, t.mapAddr)
    requires forall x :: x in m' <==> x in t.mapInfo
    requires forall x :: x in m' ==> m'[x].addr == t.mapInfo[x].addr && m'[x].randomPos == t.mapInfo[x].randomPos
    ensures IdsOk(m', t.nIdCount) && RandomOk(m', t.vRandom) && AddrOk(m', t.mapAddr)
  {
    SameAddr(t.mapInfo, t.mapAddr, m');
  }

  ghost predicate PromotionChoice(n: Network, t: Tables, id: int, origin: int, shuffled: seq<int>, pos: int)
  {
    && Consistent(n, t) && id in t.mapInfo && !t.mapInfo[id].inTried
    && 0 <= origin < |t.vvNew| && id in t.vvNew[origin]
    && 0 <= pos < |shuffled| && shuffled[pos] in t.mapInfo
    && var bucket := t.vvTried[TriedBucket(n, t.key, t.mapInfo[id].addr.service)];
       |bucket| >= TRIED_BUCKET_SIZE ==> Shuffle(bucket, shuffled)
  }

  lemma PromotedKeeps(n: Network, t: Tables, id: int, origin: int, shuffled: seq<int>, pos: int)
    requires PromotionChoice(n, t, id, origin, shuffled, pos)
    ensures Consistent(n, Promoted(n, t, id, origin, shuffled, pos))
  {
    if |t.vvTried[TriedBucket(n, t.key, t.mapInfo[id].addr.service)]| < TRIED_BUCKET_SIZE {
      PromotedWithRoom(n, t, id, origin, shuffled, pos);
    } else {
      PromotedByEviction(n, t, id, origin, shuffled, pos);
    }
  }

  lemma PromotedWithRoom(n: Network, t: Tables, id: int, origin: int, shuffled: seq<int>, pos: int)
    requires PromotionChoice(n, t, id, origin, shuffled, pos)
    requires |t.vvTried[TriedBucket(n, t.key, t.mapInfo[id].addr.service)]| < TRIED_BUCKET_SIZE
    ensures Consistent(n, Promoted(n, t, id, origin, shuffled, pos))
  {
    var info := t.mapInfo[id].(inTried := true, refCount := 0);
    var m' := t.mapInfo[id := info];
    var t' := Promoted(n, t, id, origin, shuffled, pos);
    assert t'.mapInfo == m';
    RoomNew(t.mapInfo, t.vvNew, id, t'.vvNew, info);
    RoomTried(n, t.key, t.mapInfo, t.vvTried, id, info);
    SameIndexes(t, m');
  }

  /** A promotion into a full bucket, entry by entry. */
  lemma EvictionEffect(n: Network, t: Tables, id: int, origin: int, shuffled: seq<int>, pos: int)
    returns (info: Info, evicted: Info, vv: seq<set<int>>, target: int)
    requires PromotionChoice(n, t, id, origin, shuffled, pos)
    requires |t.vvTried[TriedBucket(n, t.key, t.mapInfo[id].addr.service)]| >= TRIED_BUCKET_SIZE
    ensures shuffled[pos] != id && t.mapInfo[shuffled[pos]].inTried
    ensures info == t.mapInfo[id].(inTried := true, refCount := 0)
    ensures evicted == t.mapInfo[shuffled[pos]].(inTried := false, refCount := 1)
    ensures |vv| == |t.vvNew| && forall b :: 0 <= b < |vv| ==> vv[b] == t.vvNew[b] - {id}
    ensures 0 <= target < |vv| && |vv[target]| < NEW_BUCKET_SIZE
    ensures var own := NewBucket(n, t.key, evicted.addr.service.net, evicted.source);
      if |vv[own]| < NEW_BUCKET_SIZE then target == own else target == origin
    ensures var k := TriedBucket(n, t.key, t.mapInfo[id].addr.service);
      Promoted(n, t, id, origin, shuffled, pos) ==
      t.(mapInfo := t.mapInfo[shuffled[pos] := evicted][id := info],
         vvNew := vv[target := vv[target] + {shuffled[pos]}],
         vvTried := t.vvTried[k := shuffled[pos := id]])
  {
    var k := TriedBucket(n, t.key, t.mapInfo[id].addr.service);
    var leaver := shuffled[pos];
    ShuffleHas(t.vvTried[k], shuffled, pos);
    info := t.mapInfo[id].(inTried := true, refCount := 0);
    evicted := t.mapInfo[leaver].(inTried := false, refCount := 1);
    vv := Unlinked(t, id).vvNew;
    assert |vv[origin]| == |t.vvNew[origin]| - 1;
    var own := NewBucket(n, t.key, evicted.addr.service.net, evicted.source);
    target := if |vv[own]| < NEW_BUCKET_SIZE then own else origin;
    assert Unlinked(t, id).mapInfo[leaver] == t.mapInfo[leaver];
    assert Unlinked(t, id).mapInfo[id].(inTried := true) == info;
    assert Unlinked(t, id).mapInfo[leaver := evicted][id := info] == t.mapInfo[leaver := evicted][id := info];
  }

  lemma PromotedByEviction(n: Network, t: Tables, id: int, origin: int, shuffled: seq<int>, pos: int)
    requires PromotionChoice(n, t, id, origin, shuffled, pos)
    requires |t.vvTried[TriedBucket(n, t.key, t.mapInfo[id].addr.service)]| >= TRIED_BUCKET_SIZE
    ensures Consistent(n, Promoted(n, t, id, origin, shuffled, pos))
  {
    var info, evicted, vv, target := EvictionEffect(n, t, id, origin, shuffled, pos);
    EvictNew(t.mapInfo, t.vvNew, id, shuffled[pos], target, vv, info, evicted);
    EvictTried(n, t.key, t.mapInfo, t.vvTried, id, shuffled, pos, info, evicted);
    SameIndexes(t, t.mapInfo[shuffled[pos] := evicted][id := info]);
  }

  lemma LeaverIsKnown(n: Network, t: Tables, k: int, shuffled: seq<int>, pos: int)
    requires TriedOk(n, t.key, t.mapInfo, t.vvTried) && 0 <= k < |t.vvTried|
    requires Shuffle(t.vvTried[k], shuffled) && 0 <= pos < |shuffled|
    ensures shuffled[pos] in t.mapInfo && t.mapInfo[shuffled[pos]].inTried
  {
    ShuffleHas(t.vvTried[k], shuffled, pos);
    var leaver := shuffled[pos];
    assert leaver in t.vvTried[k];
  }

  lemma GradedKeeps(n: Network, t: Tables, s: Service, time: int, origin: int, shuffled: seq<int>, pos: int)
    requires Consistent(n, t)
    requires Knows(t, s) && !t.mapInfo[t.mapAddr[s.net]].inTried ==> GoodChoice(n, t, t.mapAddr[s.net], origin, shuffled, pos)
    ensures Consistent(n, Graded(n, t, s, time, origin, shuffled, pos))
  {
    if Knows(t, s) {
      var id := t.mapAddr[s.net];
      UpdateKeeps(n, t, id, Succeeded(t.mapInfo[id], time), {});
      var t1 := WithInfo(t, id, Succeeded(t.mapInfo[id], time));
      if !t.mapInfo[id].inTried {
        if |t.vvTried[TriedBucket(n, t.key, s)]| < TRIED_BUCKET_SIZE {
          PromotedKeeps(n, t1, id, origin, [id], 0);
        } else {
          LeaverIsKnown(n, t, TriedBucket(n, t.key, s), shuffled, pos);
          PromotedKeeps(n, t1, id, origin, shuffled, pos);
        }
      }
    }
  }

  lemma AttemptedKeeps(n: Network, t: Tables, s: Service, time: int)
    requires Consistent(n, t)
    ensures Consistent(n, Attempted(t, s, time))
  {
    if Knows(t, s) {
      var id := t.mapAddr[s.net];
      UpdateKeeps(n, t, id, Attempted(t, s, time).mapInfo[id], {});
    }
  }

  lemma ConnectedKeeps(n: Network, t: Tables, s: Service, time: int)
    requires Consistent(n, t)
    ensures Consistent(n, ConnectedTo(t, s, time))
  {
    if Knows(t, s) {
      var id := t.mapAddr[s.net];
      UpdateKeeps(n, t, id, ConnectedTo(t, s, time).mapInfo[id], {});
      assert t.mapInfo[id := t.mapInfo[id]] == t.mapInfo;
    }
  }

  // Handing out a random selection

  /** How many addresses a selection returns. */
  function SelectionSize(known: nat): (k: nat)
    ensures k <= GETADDR_MAX && 100 * k <= GETADDR_MAX_PCT * known
    ensures k < GETADDR_MAX ==> 100 * (k + 1) > GETADDR_MAX_PCT * known
  {
    var share := GETADDR_MAX_PCT * known / 100;
    if share > GETADDR_MAX then GETADDR_MAX else share
  }

  ghost predicate ValidPicks(picks: seq<int>, known: nat) {
    |picks| <= known && forall i :: 0 <= i < |picks| ==> i <= picks[i] < known
  }

  /** `vRandom` after its first |picks| places have each been swapped with a picked later one. */
  ghost function Shuffled(t: Tables, picks: seq<int>): (t': Tables)
    requires RandomOk(t.mapInfo, t.vRandom) && ValidPicks(picks, |t.vRandom|)
    ensures RandomOk(t'.mapInfo, t'.vRandom) && |t'.vRandom| == |t.vRandom|
    ensures t' == t.(mapInfo := t'.mapInfo, vRandom := t'.vRandom)
    ensures forall id :: id in t'.mapInfo <==> id in t.mapInfo
    ensures forall id :: id in t.mapInfo ==> t'.mapInfo[id] == t.mapInfo[id].(randomPos := t'.mapInfo[id].randomPos)
  {
    if picks == [] then t
    else
      var k := |picks| - 1;
      var before := Shuffled(t, picks[..k]);
      SwappedRandom(before, k, picks[k]);
      SwappedEntries(before, k, picks[k]);
      Swapped(before, k, picks[k])
  }

  /** Swapping changes nothing but positions. */
  lemma SwappedEntries(t: Tables, p: int, q: int)
    requires RandomOk(t.mapInfo, t.vRandom) && 0 <= p < |t.vRandom| && 0 <= q < |t.vRandom|
    ensures var t' := Swapped(t, p, q);
      && |t'.vRandom| == |t.vRandom| && t' == t.(mapInfo := t'.mapInfo, vRandom := t'.vRandom)
      && (forall id :: id in t'.mapInfo <==> id in t.mapInfo)
      && (forall id :: id in t.mapInfo ==> t'.mapInfo[id] == t.mapInfo[id].(randomPos := t'.mapInfo[id].randomPos))
  {
  }

  lemma ShuffledKeeps(n: Network, t: Tables, picks: seq<int>)
    requires Consistent(n, t) && ValidPicks(picks, |t.vRandom|)
    ensures Consistent(n, Shuffled(t, picks))
  {
    ShapeKeeps(n, t, Shuffled(t, picks), {});
  }

  // -------------------------------------------------------------------------
  // Main results: every history
  // -------------------------------------------------------------------------

  datatype Op =
    | Add(addr: Address, source: NetAddr, penalty: int, now: int, lucky: bool, victim: int)
    | Good(service: Service, time: int, origin: int, shuffled: seq<int>, pos: int)
    | Attempt(service: Service, time: int)
    | Connected(service: Service, time: int)
    | GetAddr(picks: seq<int>)

  /** The choices an operation can make on consistent tables. */
  ghost predicate Legal(n: Network, t: Tables, op: Op)
    requires Consistent(n, t)
  {
    match op
    case Add(addr, source, _, _, _, victim) => AddChoice(n, t, addr, source, victim)
    case Good(s, _, origin, shuffled, pos) =>
      Knows(t, s) && !t.mapInfo[t.mapAddr[s.net]].inTried ==> GoodChoice(n, t, t.mapAddr[s.net], origin, shuffled, pos)
    case GetAddr(picks) => ValidPicks(picks, |t.vRandom|) && |picks| == SelectionSize(|t.vRandom|)
    case _ => true
  }

  ghost function Step(n: Network, t: Tables, op: Op): Tables
    requires Consistent(n, t) && Legal(n, t, op)
  {
    match op
    case Add(addr, source, penalty, now, lucky, victim) => Added(n, t, addr, source, penalty, now, lucky, victim).0
    case Good(s, time, origin, shuffled, pos) => Graded(n, t, s, time, origin, shuffled, pos)
    case Attempt(s, time) => Attempted(t, s, time)
    case Connected(s, time) => ConnectedTo(t, s, time)
    case GetAddr(picks) => Shuffled(t, picks)
  }

  lemma StepKeeps(n: Network, t: Tables, op: Op)
    requires Consistent(n, t) && Legal(n, t, op)
    ensures Consistent(n, Step(n, t, op))
  {
    match op {
      case Add(addr, source, penalty, now, lucky, victim) => AddedKeeps(n, t, addr, source, penalty, now, lucky, victim);
      case Good(s, time, origin, shuffled, pos) => GradedKeeps(n, t, s, time, origin, shuffled, pos);
      case Attempt(s, time) => AttemptedKeeps(n, t, s, time);
      case Connected(s, time) => ConnectedKeeps(n, t, s, time);
      case GetAddr(picks) => ShuffledKeeps(n, t, picks);
    }
  }

  /** A history from the empty manager. Steps are only constrained where they are defined, on consistent
      tables; that this is everywhere is what `HistoryIsConsistent` proves. */
  ghost predicate IsHistory(n: Network, states: seq<Tables>, ops: seq<Op>) {
    && |states| == |ops| + 1
    && states[0] == Empty(states[0].key)
    && forall i :: 0 <= i < |ops| && Consistent(n, states[i]) ==>
         Legal(n, states[i], ops[i]) && states[i + 1] == Step(n, states[i], ops[i])
  }

  lemma EmptyIsConsistent(n: Network, key: Key)
    ensures Consistent(n, Empty(key)) && TimesOk(Empty(key))
  {
    var m: Infos := map[];
    SameSet(Tried(m), {});
    SameSet(Untried(m), {});
  }

  /** Every state of every history satisfies the whole structural invariant. */
  lemma {:induction false} HistoryIsConsistent(n: Network, states: seq<Tables>, ops: seq<Op>, i: nat)
    requires IsHistory(n, states, ops) && i <= |ops|
    ensures Consistent(n, states[i])
  {
    if i == 0 {
      EmptyIsConsistent(n, states[0].key);
    } else {
      HistoryIsConsistent(n, states, ops, i - 1);
      StepKeeps(n, states[i - 1], ops[i - 1]);
    }
  }
}
