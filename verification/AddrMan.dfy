/** The address manager object of legacy/src/addrman.cpp: its methods update the tables in place, and each
    is proved to have exactly the effect that `AddrTables` states for the choices it made. */
module AddrMan {
  import opened Sets
  import opened AddrTables
  import AddrResults

  method GetRandInt(n: int) returns (r: int)
    requires n > 0
    ensures 0 <= r < n
  {
    r :| 0 <= r < n;
  }

  function Pow2(n: nat): (p: nat)
    ensures p >= 1
  {
    if n == 0 then 1 else 2 * Pow2(n - 1)
  }

  /** In how many draws one wins an entry another bucket. */
  ghost function Chances(m: Infos, id: int): nat {
    if id in m && m[id].refCount >= 0 then Pow2(m[id].refCount) else 1
  }

  lemma HoldersPrefix(vv: seq<set<int>>, b: int, id: int)
    requires 0 <= b < |vv|
    ensures |Holders(vv[..b + 1], id)| == |Holders(vv[..b], id)| + if id in vv[b] then 1 else 0
  {
    SameSet(Holders(vv[..b + 1], id), Holders(vv[..b], id) + if id in vv[b] then {b} else {});
  }

  function Place(k: int, start: int, count: nat): (b: nat)
    requires 0 <= k < count && 0 <= start < count
    ensures b < count
  {
    (k + start) % count
  }

  /** A walk over all buckets from any start meets every bucket. */
  lemma WalkMeets(count: nat, start: int, b: int) returns (k: int)
    requires 0 <= start < count && 0 <= b < count
    ensures 0 <= k < count && Place(k, start, count) == b
  {
    k := if b >= start then b - start else b - start + count;
    if b < start {
      assert k + start == b + count;
      assert (b + count) % count == b % count;
    }
  }

  /** Which entry `ShrinkNew` takes: the first terrible one (code 0), otherwise an entry that is least
      recently seen among four drawn ones (code 1). */
  ghost predicate ShrinkChoice(m: Infos, bucket: set<int>, now: int, code: int, victim: int, drawn: seq<int>)
    requires victim in m && forall x :: x in bucket ==> x in m
  {
    if code == 0 then
      IsTerrible(m[victim], now) && forall x :: x in bucket && x < victim ==> !IsTerrible(m[x], now)
    else
      && (forall x :: x in bucket ==> !IsTerrible(m[x], now))
      && |drawn| == 4 && victim in drawn
      && (forall x :: x in drawn ==> x in bucket && m[victim].addr.time <= m[x].addr.time)
  }

  /** Which entry of a full bucket leaves; four ids are drawn only when none is terrible. */
  ghost predicate MayLeave(m: Infos, bucket: set<int>, now: int, victim: int, drawn: seq<int>) {
    && victim in bucket && (forall x :: x in bucket ==> x in m)
    && ShrinkChoice(m, bucket, now, if drawn == [] then 0 else 1, victim, drawn)
  }

  /** The choice depends on the entries of the bucket alone. */
  lemma MayLeaveStill(m: Infos, m': Infos, bucket: set<int>, now: int, victim: int, drawn: seq<int>)
    requires MayLeave(m', bucket, now, victim, drawn)
    requires forall x :: x in bucket ==> x in m && m[x] == m'[x]
    ensures MayLeave(m, bucket, now, victim, drawn)
  {
  }

  lemma EarlierInOrder(bucket: set<int>, order: seq<int>, i: int)
    requires Increasing(order) && (forall x :: x in order <==> x in bucket) && 0 <= i <= |order|
    ensures forall x :: x in bucket && (i == |order| || x < order[i]) ==> exists j :: 0 <= j < i && order[j] == x
  {
    forall x | x in bucket && (i == |order| || x < order[i])
      ensures exists j :: 0 <= j < i && order[j] == x
    {
      assert x in order;
      var j :| 0 <= j < |order| && order[j] == x;
    }
  }

  /** The addresses are those of the first entries of `vRandom`. */
  ghost predicate FrontIs(t: Tables, addrs: seq<Address>) {
    && |addrs| <= |t.vRandom|
    && forall i :: 0 <= i < |addrs| ==> t.vRandom[i] in t.mapInfo && addrs[i] == t.mapInfo[t.vRandom[i]].addr
  }

  lemma SwappedFront(t: Tables, addrs: seq<Address>, p: int)
    requires RandomOk(t.mapInfo, t.vRandom) && FrontIs(t, addrs) && |addrs| <= p < |t.vRandom|
    ensures var t' := Swapped(t, |addrs|, p);
      && |t'.vRandom| == |t.vRandom| && t'.vRandom[|addrs|] in t'.mapInfo
      && FrontIs(t', addrs + [t'.mapInfo[t'.vRandom[|addrs|]].addr])
  {
  }

  lemma ShuffledOneMore(t: Tables, picks: seq<int>, p: int)
    requires RandomOk(t.mapInfo, t.vRandom) && ValidPicks(picks, |t.vRandom|) && |picks| <= p < |t.vRandom|
    ensures ValidPicks(picks + [p], |t.vRandom|)
    ensures Shuffled(t, picks + [p]) == Swapped(Shuffled(t, picks), |picks|, p)
  {
    assert (picks + [p])[..|picks|] == picks;
  }

  class Manager {
    const net: Network
    var key: Key
    var nIdCount: int
    var mapInfo: Infos
    var mapAddr: map<NetAddr, int>
    var vRandom: seq<int>
    var nTried: int
    var vvTried: seq<seq<int>>
    var nNew: int
    var vvNew: seq<set<int>>

    ghost function State(): Tables
      reads this
    {
      Tables(key, nIdCount, mapInfo, mapAddr, vRandom, nTried, vvTried, nNew, vvNew)
    }

    ghost predicate Valid()
      reads this
    {
      Consistent(net, State())
    }

    constructor (net: Network, key: Key)
      ensures this.net == net && State() == Empty(key) && Valid()
    {
      this.net, this.key := net, key;
      nIdCount, mapInfo, mapAddr, vRandom, nTried, nNew := 0, map[], map[], [], 0, 0;
      vvTried := seq(TRIED_BUCKETS, _ => []);
      vvNew := seq(NEW_BUCKETS, _ => {});
      EmptyIsConsistent(net, key);
    }

    method Find(addr: NetAddr) returns (found: bool, id: int)
      requires Valid()
      ensures found <==> addr in mapAddr
      ensures found ==> id == mapAddr[addr] && id in mapInfo && mapInfo[id].addr.service.net == addr
    {
      found, id := false, -1;
      if addr in mapAddr {
        id := mapAddr[addr];
        found := id in mapInfo;
      }
    }

    method SwapRandom(p: int, q: int)
      requires 0 <= p < |vRandom| && 0 <= q < |vRandom|
      requires vRandom[p] in mapInfo && vRandom[q] in mapInfo
      modifies this`mapInfo, this`vRandom
      ensures State() == Swapped(old(State()), p, q)
    {
      if p == q {
        return;
      }
      var a, b := vRandom[p], vRandom[q];
      mapInfo := mapInfo[a := mapInfo[a].(randomPos := q)];
      mapInfo := mapInfo[b := mapInfo[b].(randomPos := p)];
      vRandom := vRandom[p := b];
      vRandom := vRandom[q := a];
    }

    /** Shuffles the front of a full tried bucket and picks the place to overwrite, as `Inspect` says for the places
        drawn. The place named is where the entry that succeeded least recently, of those inspected, came from. */
    method SelectTried(k: int) returns (pos: int, ghost draws: seq<int>)
      requires 0 <= k < |vvTried| && vvTried[k] != []
      requires forall x :: x in vvTried[k] ==> x in mapInfo && x >= 0
      modifies this`vvTried
      ensures DrawsFrom(draws, old(vvTried[k])) && |draws| == Inspected(old(vvTried[k]))
      ensures AllKnown(mapInfo, old(vvTried[k]))
      ensures vvTried == old(vvTried)[k := Inspect(mapInfo, old(vvTried[k]), draws).bucket]
      ensures pos == Inspect(mapInfo, old(vvTried[k]), draws).pos
      ensures Shuffle(old(vvTried[k]), vvTried[k]) && 0 <= pos < |vvTried[k]|
    {
      var oldest := -1;
      pos := -1;
      draws := [];
      ghost var was := vvTried;
      ghost var xs := vvTried[k];
      var i := 0;
      while i < TRIED_ENTRIES_INSPECTED && i < |vvTried[k]|
        invariant |draws| == i <= Inspected(xs) && DrawsFrom(draws, xs)
        invariant |vvTried| == |was| && vvTried == was[k := vvTried[k]]
        invariant vvTried[k] == Inspect(mapInfo, xs, draws).bucket
        invariant i == 0 ==> oldest == -1
        invariant i > 0 ==> oldest >= 0 && oldest == Inspect(mapInfo, xs, draws).oldest
        invariant i > 0 ==> pos == Inspect(mapInfo, xs, draws).pos
      {
        var bucket := vvTried[k];
        var r := GetRandInt(|bucket| - i);
        var p := r + i;
        var temp := bucket[p];
        InspectNext(mapInfo, xs, draws, p);
        InspectShuffles(mapInfo, xs, draws);
        RoundShuffles(mapInfo, xs, Inspect(mapInfo, xs, draws), i, p);
        vvTried := vvTried[k := bucket[p := bucket[i]][i := temp]];
        draws := draws + [p];
        if oldest == -1 || mapInfo[temp].lastSuccess < mapInfo[oldest].lastSuccess {
          oldest, pos := temp, p;
        }
        i := i + 1;
      }
      InspectIs(mapInfo, xs, draws);
    }

    /** Takes an id out of one new bucket and forgets it if that was the last. */
    method DropFrom(b: int, id: int)
      requires RandomOk(mapInfo, vRandom) && id in mapInfo && 0 <= b < |vvNew|
      modifies this`mapInfo, this`mapAddr, this`vRandom, this`nNew, this`vvNew
      ensures State() == Dropped(old(State()), b, id)
    {
      mapInfo := mapInfo[id := mapInfo[id].(refCount := mapInfo[id].refCount - 1)];
      ghost var less := State();
      assert less == WithInfo(old(State()), id, less.mapInfo[id]);
      assert RandomOk(mapInfo, vRandom);
      if mapInfo[id].refCount == 0 {
        Forget(id);
      }
      vvNew := vvNew[b := vvNew[b] - {id}];
    }

    method Forget(id: int)
      requires RandomOk(mapInfo, vRandom) && id in mapInfo
      modifies this`mapInfo, this`mapAddr, this`vRandom, this`nNew
      ensures State() == Removed(old(State()), id)
    {
      SwapRandom(mapInfo[id].randomPos, |vRandom| - 1);
      vRandom := vRandom[..|vRandom| - 1];
      mapAddr := mapAddr - {mapInfo[id].addr.service.net};
      mapInfo := mapInfo - {id};
      nNew := nNew - 1;
    }

    /** The first terrible entry, or the number of entries when there is none. */
    method FirstTerrible(order: seq<int>, now: int) returns (i: int)
      requires forall j :: 0 <= j < |order| ==> order[j] in mapInfo
      ensures 0 <= i <= |order|
      ensures i < |order| ==> IsTerrible(mapInfo[order[i]], now)
      ensures forall j :: 0 <= j < i ==> !IsTerrible(mapInfo[order[j]], now)
    {
      i := 0;
      while i < |order| && !IsTerrible(mapInfo[order[i]], now)
        invariant 0 <= i <= |order|
        invariant forall j :: 0 <= j < i ==> !IsTerrible(mapInfo[order[j]], now)
      {
        i := i + 1;
      }
    }

    /** The least recently seen of the entries at four drawn places. */
    method OldestAt(order: seq<int>, n: seq<int>) returns (at: int)
      requires forall i :: 0 <= i < |order| ==> order[i] in mapInfo
      requires |n| == 4 && forall k :: 0 <= k < 4 ==> 0 <= n[k] < |order|
      ensures at in n && 0 <= at < |order|
      ensures forall k :: 0 <= k < 4 ==> mapInfo[order[at]].addr.time <= mapInfo[order[n[k]]].addr.time
    {
      at := -1;
      for i := 0 to |order|
        invariant at == -1 ==> forall k :: 0 <= k < 4 ==> n[k] >= i
        invariant at != -1 ==> at in n && 0 <= at < |order|
        invariant at != -1 ==>
            forall k :: 0 <= k < 4 && n[k] < i ==> mapInfo[order[at]].addr.time <= mapInfo[order[n[k]]].addr.time
      {
        if i == n[0] || i == n[1] || i == n[2] || i == n[3] {
          if at == -1 || mapInfo[order[i]].addr.time < mapInfo[order[at]].addr.time {
            at := i;
          }
        }
      }
      assert n[0] < |order|;
    }

    method DrawOldest(order: seq<int>) returns (oldest: int, ghost drawn: seq<int>)
      requires |order| > 0 && forall i :: 0 <= i < |order| ==> order[i] in mapInfo
      ensures |drawn| == 4 && oldest in drawn && oldest in order && oldest in mapInfo
      ensures forall x :: x in drawn ==> x in order && x in mapInfo && mapInfo[oldest].addr.time <= mapInfo[x].addr.time
    {
      var n0 := GetRandInt(|order|);
      var n1 := GetRandInt(|order|);
      var n2 := GetRandInt(|order|);
      var n3 := GetRandInt(|order|);
      var n := [n0, n1, n2, n3];
      var at := OldestAt(order, n);
      oldest := order[at];
      drawn := [order[n[0]], order[n[1]], order[n[2]], order[n[3]]];
      assert forall k :: 0 <= k < 4 ==> drawn[k] == order[n[k]];
      ghost var k :| 0 <= k < 4 && n[k] == at;
      assert drawn[k] == oldest;
    }

    /** Makes room in a new bucket: the first terrible entry goes, otherwise the least recently seen of four
        entries drawn at random. */
    method ShrinkNew(b: int, now: int) returns (code: int, ghost victim: int, ghost drawn: seq<int>)
      requires RandomOk(mapInfo, vRandom) && 0 <= b < |vvNew| && vvNew[b] != {}
      requires forall x :: x in vvNew[b] ==> x in mapInfo
      modifies this`mapInfo, this`mapAddr, this`vRandom, this`nNew, this`vvNew
      ensures victim in old(vvNew[b]) && victim in old(mapInfo)
      ensures State() == Dropped(old(State()), b, victim)
      ensures code == if drawn == [] then 0 else 1
      ensures old(ShrinkChoice(mapInfo, vvNew[b], now, code, victim, drawn))
      ensures forall x :: x in old(vvNew[b]) && (code == 1 || x == victim) ==>
        var e := old(mapInfo)[x];
        code == 0 <==>
          && (e.lastTry == 0 || e.lastTry < now - 60)
          && (|| e.addr.time == 0
              || e.addr.time > now + 600
              || e.addr.time < now - 5184000
              || (e.lastSuccess == 0 && e.attempts >= 3)
              || (e.lastSuccess < now - 604800 && e.attempts >= 20))
    {
      var order := Ascending(vvNew[b]);
      assert forall j :: 0 <= j < |order| ==> order[j] in order;
      var i := FirstTerrible(order, now);
      if i < |order| {
        code, victim, drawn := 0, order[i], [];
        EarlierInOrder(vvNew[b], order, i);
        DropFrom(b, order[i]);
      } else {
        assert order != [];
        code := 1;
        var oldest;
        oldest, drawn := DrawOldest(order);
        victim := oldest;
        EarlierInOrder(vvNew[b], order, |order|);
        DropFrom(b, oldest);
      }
    }

    method Create(addr: Address, source: NetAddr) returns (id: int)
      modifies this`nIdCount, this`mapInfo, this`mapAddr, this`vRandom
      ensures id == old(nIdCount)
      ensures State() == Created(old(State()), addr, source, 0).(
                nNew := old(nNew),
                mapInfo := old(mapInfo)[id := Info(addr, source, 0, 0, 0, 0, false, old(|vRandom|))])
    {
      id := nIdCount;
      nIdCount := nIdCount + 1;
      mapInfo := mapInfo[id := Info(addr, source, 0, 0, 0, 0, false, -1)];
      mapAddr := mapAddr[addr.service.net := id];
      mapInfo := mapInfo[id := mapInfo[id].(randomPos := |vRandom|)];
      vRandom := vRandom + [id];
    }

    method Add(addr: Address, source: NetAddr, penalty: int, now: int)
      returns (isNew: bool, ghost draw: int, ghost victim: int, ghost drawn: seq<int>)
      requires Valid()
      modifies this
      ensures old(AddChoice(net, State(), addr, source, victim))
      ensures var bucket := old(vvNew[NewBucket(net, key, addr.service.net, source)]);
        vvNew != old(vvNew) && |bucket| == NEW_BUCKET_SIZE ==> MayLeave(old(mapInfo), bucket, now, victim, drawn)
      ensures addr.service.net in old(mapAddr) ==> 0 <= draw < old(Chances(mapInfo, mapAddr[addr.service.net]))
      ensures (State(), isNew) == Added(net, old(State()), addr, source, penalty, now, draw == 0, victim)
      ensures Valid()
    {
      ghost var t0 := State();
      isNew, draw, victim, drawn := false, 0, SomeVictim(NewBucket(net, key, addr.service.net, source)), [];
      if net.routable(addr.service.net) {
        var found, id := Find(addr.service.net);
        if found {
          draw, victim, drawn := AddKnown(id, addr, source, penalty, now);
        } else {
          victim, drawn := AddUnknown(addr, source, penalty, now);
          isNew := true;
        }
      }
      AddedKeeps(net, t0, addr, source, penalty, now, draw == 0, victim);
    }

    ghost function SomeVictim(b: int): (victim: int)
      requires 0 <= b < |vvNew|
      reads this
      ensures |vvNew[b]| == NEW_BUCKET_SIZE ==> victim in vvNew[b]
    {
      if vvNew[b] != {} then Min(vvNew[b]) else 0
    }

    method AddKnown(id: int, addr: Address, source: NetAddr, penalty: int, now: int)
      returns (ghost draw: int, ghost victim: int, ghost drawn: seq<int>)
      requires Valid() && addr.service.net in mapAddr && id == mapAddr[addr.service.net]
      requires net.routable(addr.service.net)
      modifies this
      ensures old(AddChoice(net, State(), addr, source, victim))
      ensures var bucket := old(vvNew[NewBucket(net, key, addr.service.net, source)]);
        vvNew != old(vvNew) && |bucket| == NEW_BUCKET_SIZE ==> MayLeave(old(mapInfo), bucket, now, victim, drawn)
      ensures 0 <= draw < Pow2(old(mapInfo)[id].refCount)
      ensures State() == Added(net, old(State()), addr, source, penalty, now, draw == 0, victim).0
    {
      ghost var t0 := State();
      var b := NewBucket(net, key, addr.service.net, source);
      victim, drawn := SomeVictim(b), [];
      var proceed;
      proceed, draw := RefreshKnown(id, addr, penalty, now);
      ghost var t1 := State();
      UpdateKeeps(net, t0, id, t1.mapInfo[id], {});
      if proceed && id !in vvNew[b] {
        BumpedKeeps(net, t1, id);
        victim, drawn := Insert(b, id, now, t0.mapInfo);
      }
    }

    method AddUnknown(addr: Address, source: NetAddr, penalty: int, now: int)
      returns (ghost victim: int, ghost drawn: seq<int>)
      requires Valid() && addr.service.net !in mapAddr && net.routable(addr.service.net)
      modifies this
      ensures old(AddChoice(net, State(), addr, source, victim))
      ensures var bucket := old(vvNew[NewBucket(net, key, addr.service.net, source)]);
        |bucket| == NEW_BUCKET_SIZE ==> MayLeave(old(mapInfo), bucket, now, victim, drawn)
      ensures State() == Added(net, old(State()), addr, source, penalty, now, false, victim).0
    {
      ghost var t0 := State();
      CreatedKeeps(net, t0, addr, source, penalty);
      var id := Create(addr, source);
      mapInfo := mapInfo[id := mapInfo[id].(addr := addr.(time := Max(0, addr.time - penalty)))];
      nNew := nNew + 1;
      assert State() == Created(t0, addr, source, penalty);
      var b := NewBucket(net, key, addr.service.net, source);
      victim, drawn := Insert(b, id, now, t0.mapInfo);
    }

    /** Updates a known entry; the answer is whether it may go into one more bucket. */
    method RefreshKnown(id: int, addr: Address, penalty: int, now: int) returns (proceed: bool, ghost draw: int)
      requires id in mapInfo && mapInfo[id].refCount >= 0
      modifies this`mapInfo
      ensures State() == WithInfo(old(State()), id, Refreshed(old(mapInfo)[id], addr, penalty, now))
      ensures 0 <= draw < Pow2(old(mapInfo)[id].refCount)
      ensures proceed <==> MayRepeat(mapInfo[id], addr, draw == 0)
    {
      draw := 0;
      var info := mapInfo[id];
      var online := now - addr.time < 24 * 60 * 60;
      var interval := if online then 60 * 60 else 24 * 60 * 60;
      if addr.time != 0 && (info.addr.time == 0 || info.addr.time < addr.time - interval - penalty) {
        info := info.(addr := info.addr.(time := Max(0, addr.time - penalty)));
      }
      info := info.(addr := info.addr.(services := info.addr.services + addr.services));
      mapInfo := mapInfo[id := info];
      if addr.time == 0 || (info.addr.time != 0 && addr.time <= info.addr.time) {
        proceed := false;
        return;
      }
      if info.inTried || info.refCount == NEW_BUCKETS_PER_ADDRESS {
        proceed := false;
        return;
      }
      proceed, draw := CoinFlips(info.refCount);
    }

    /** The stochastic test: one draw in two to the power of the reference count wins. */
    method CoinFlips(refCount: nat) returns (lucky: bool, ghost draw: int)
      ensures 0 <= draw < Pow2(refCount) && (lucky <==> draw == 0)
    {
      var factor := 1;
      for n := 0 to refCount
        invariant factor == Pow2(n)
      {
        factor := factor * 2;
      }
      lucky, draw := true, 0;
      if factor > 1 {
        var r := GetRandInt(factor);
        lucky, draw := r == 0, r;
      }
    }

    /** Counts the entry once more and puts it into bucket `b`. The choice of the one that leaves can be read off the
        entries of the bucket as they were before, `m`. */
    method Insert(b: int, id: int, now: int, ghost m: Infos) returns (ghost victim: int, ghost drawn: seq<int>)
      requires 0 <= b < |vvNew| && id in mapInfo && id !in vvNew[b]
      requires AlmostOk(net, Bumped(State(), id), {id})
      requires forall x :: x in vvNew[b] ==> x in m && x in mapInfo && m[x] == mapInfo[x]
      modifies this
      ensures |old(vvNew[b])| == NEW_BUCKET_SIZE ==> MayLeave(m, old(vvNew[b]), now, victim, drawn)
      ensures State() == Inserted(Bumped(old(State()), id), b, id, victim)
    {
      ghost var t1 := Bumped(State(), id);
      mapInfo := mapInfo[id := mapInfo[id].(refCount := mapInfo[id].refCount + 1)];
      assert State() == t1;
      victim, drawn := 0, [];
      if |vvNew[b]| == NEW_BUCKET_SIZE {
        var code, picked, fromFour := ShrinkNew(b, now);
        victim, drawn := picked, fromFour;
        MayLeaveStill(m, t1.mapInfo, t1.vvNew[b], now, victim, drawn);
      }
      vvNew := vvNew[b := vvNew[b] + {id}];
    }

    method UnlinkAll(id: int)
      requires id in mapInfo
      modifies this`mapInfo, this`vvNew, this`nNew
      ensures State() == Unlinked(old(State()), id)
    {
      ghost var vv := vvNew;
      ghost var m := mapInfo;
      for b := 0 to |vvNew|
        invariant |vvNew| == |vv| && id in mapInfo
        invariant forall c :: 0 <= c < b ==> vvNew[c] == vv[c] - {id}
        invariant forall c :: b <= c < |vv| ==> vvNew[c] == vv[c]
        invariant mapInfo == m[id := m[id].(refCount := m[id].refCount - |Holders(vv[..b], id)|)]
        invariant nNew == old(nNew) && State() == old(State()).(mapInfo := mapInfo, vvNew := vvNew)
      {
        HoldersPrefix(vv, b, id);
        if id in vvNew[b] {
          vvNew := vvNew[b := vvNew[b] - {id}];
          mapInfo := mapInfo[id := mapInfo[id].(refCount := mapInfo[id].refCount - 1)];
        }
      }
      assert vv[..|vv|] == vv;
      nNew := nNew - 1;
      assert vvNew == Unlinked(old(State()), id).vvNew;
    }

    method MakeTried(id: int, origin: int) returns (ghost shuffled: seq<int>, ghost pos: int, ghost draws: seq<int>)
      requires Valid() && id in mapInfo && !mapInfo[id].inTried
      requires 0 <= origin < |vvNew| && id in vvNew[origin]
      modifies this
      ensures PromotionChoice(net, old(State()), id, origin, shuffled, pos)
      ensures var bucket := old(vvTried[TriedBucket(net, key, mapInfo[id].addr.service)]);
        |bucket| >= TRIED_BUCKET_SIZE ==> PickedBy(old(mapInfo), bucket, draws, shuffled, pos)
      ensures State() == Promoted(net, old(State()), id, origin, shuffled, pos)
      ensures Valid()
    {
      ghost var t0 := State();
      UnlinkAll(id);
      ghost var u := State();
      var k := TriedBucket(net, key, mapInfo[id].addr.service);
      if |vvTried[k]| < TRIED_BUCKET_SIZE {
        vvTried := vvTried[k := vvTried[k] + [id]];
        nTried := nTried + 1;
        mapInfo := mapInfo[id := mapInfo[id].(inTried := true)];
        shuffled, pos, draws := [id], 0, [];
      } else {
        shuffled, pos, draws := Replace(k, id, origin);
        PickedStill(t0.mapInfo, u.mapInfo, t0.vvTried[k], draws, shuffled, pos);
        assert State() == Promoted(net, t0, id, origin, shuffled, pos) by {
          assert mapInfo == Promoted(net, t0, id, origin, shuffled, pos).mapInfo;
        }
      }
      PromotedKeeps(net, t0, id, origin, shuffled, pos);
    }

    /** Makes room for `id` in a full tried bucket: some entry is picked and goes back to a new bucket. */
    method Replace(k: int, id: int, origin: int)
      returns (ghost shuffled: seq<int>, ghost pos: int, ghost draws: seq<int>)
      requires |vvNew| == NEW_BUCKETS && 0 <= origin < |vvNew| && id in mapInfo
      requires 0 <= k < |vvTried| && vvTried[k] != [] && id !in vvTried[k]
      requires forall x :: x in vvTried[k] ==> x in mapInfo && x >= 0
      modifies this`mapInfo, this`vvNew, this`nNew, this`vvTried
      ensures PickedBy(old(mapInfo), old(vvTried[k]), draws, shuffled, pos)
      ensures Shuffle(old(vvTried[k]), shuffled) && 0 <= pos < |shuffled| && shuffled[pos] in old(mapInfo)
      ensures var evicted := old(mapInfo)[shuffled[pos]].(inTried := false, refCount := 1);
        var own := NewBucket(net, key, evicted.addr.service.net, evicted.source);
        var target := if |old(vvNew)[own]| < NEW_BUCKET_SIZE then own else origin;
        && vvTried == old(vvTried)[k := shuffled[pos := id]]
        && vvNew == old(vvNew)[target := old(vvNew)[target] + {shuffled[pos]}]
        && nNew == old(nNew) + 1
        && mapInfo == old(mapInfo)[shuffled[pos] := evicted][id := old(mapInfo)[id].(inTried := true)]
    {
      ghost var bucket := vvTried[k];
      var p, places := SelectTried(k);
      shuffled, pos, draws := vvTried[k], p, places;
      ShuffleHas(bucket, shuffled, pos);
      Evict(k, p, id, origin);
    }

    /** Overwrites place `p` of tried bucket `k` with `id`, sending its occupant back to a new bucket. */
    method Evict(k: int, p: int, id: int, origin: int)
      requires |vvNew| == NEW_BUCKETS && 0 <= origin < |vvNew| && id in mapInfo
      requires 0 <= k < |vvTried| && 0 <= p < |vvTried[k]| && vvTried[k][p] in mapInfo && vvTried[k][p] != id
      modifies this`mapInfo, this`vvNew, this`nNew, this`vvTried
      ensures var leaver := old(vvTried)[k][p];
        var evicted := old(mapInfo)[leaver].(inTried := false, refCount := 1);
        var own := NewBucket(net, key, evicted.addr.service.net, evicted.source);
        var target := if |old(vvNew)[own]| < NEW_BUCKET_SIZE then own else origin;
        && vvTried == old(vvTried)[k := old(vvTried)[k][p := id]]
        && vvNew == old(vvNew)[target := old(vvNew)[target] + {leaver}]
        && nNew == old(nNew) + 1
        && mapInfo == old(mapInfo)[leaver := evicted][id := old(mapInfo)[id].(inTried := true)]
    {
      var leaver := vvTried[k][p];
      var own := NewBucket(net, key, mapInfo[leaver].addr.service.net, mapInfo[leaver].source);
      mapInfo := mapInfo[leaver := mapInfo[leaver].(inTried := false, refCount := 1)];
      if |vvNew[own]| < NEW_BUCKET_SIZE {
        vvNew := vvNew[own := vvNew[own] + {leaver}];
      } else {
        vvNew := vvNew[origin := vvNew[origin] + {leaver}];
      }
      nNew := nNew + 1;
      vvTried := vvTried[k := vvTried[k][p := id]];
      mapInfo := mapInfo[id := mapInfo[id].(inTried := true)];
    }

    method FindBucket(id: int) returns (b: int)
      requires Valid() && id in mapInfo && !mapInfo[id].inTried
      ensures 0 <= b < |vvNew| && id in vvNew[b]
    {
      var start := GetRandInt(|vvNew|);
      b := -1;
      var n := 0;
      while n < |vvNew| && b == -1
        invariant 0 <= n <= |vvNew|
        invariant b == -1 ==> forall j :: 0 <= j < n ==> id !in vvNew[Place(j, start, |vvNew|)]
        invariant b != -1 ==> 0 <= b < |vvNew| && id in vvNew[b]
      {
        var at := Place(n, start, |vvNew|);
        if id in vvNew[at] {
          b := at;
        }
        n := n + 1;
      }
      ghost var held := Holders(vvNew, id);
      assert |held| >= 1;
      if forall c :: c !in held {
        assert false;
      }
      ghost var c :| c in held;
      ghost var j := WalkMeets(|vvNew|, start, c);
    }

    method Good(s: Service, time: int)
      returns (ghost origin: int, ghost shuffled: seq<int>, ghost pos: int, ghost draws: seq<int>)
      requires Valid()
      modifies this
      ensures old(Legal(net, State(), AddrTables.Good(s, time, origin, shuffled, pos)))
      ensures var bucket := old(vvTried[TriedBucket(net, key, s)]);
        vvTried != old(vvTried) && |bucket| >= TRIED_BUCKET_SIZE ==> PickedBy(old(mapInfo), bucket, draws, shuffled, pos)
      ensures State() == Graded(net, old(State()), s, time, origin, shuffled, pos)
      ensures Valid()
    {
      ghost var t0 := State();
      origin, shuffled, pos, draws := 0, [], 0, [];
      var found, id := Find(s.net);
      if !found || mapInfo[id].addr.service != s {
        return;
      }
      mapInfo := mapInfo[id := mapInfo[id].(lastSuccess := time, lastTry := time,
                                            addr := mapInfo[id].addr.(time := time), attempts := 0)];
      UpdateKeeps(net, t0, id, mapInfo[id], {});
      if mapInfo[id].inTried {
        return;
      }
      var b := FindBucket(id);
      origin := b;
      ghost var m1 := mapInfo;
      shuffled, pos, draws := MakeTried(id, b);
      ghost var k := TriedBucket(net, t0.key, s);
      if |t0.vvTried[k]| >= TRIED_BUCKET_SIZE {
        PickedStill(t0.mapInfo, m1, t0.vvTried[k], draws, shuffled, pos);
      }
      GradedKeeps(net, t0, s, time, origin, shuffled, pos);
    }

    method Attempt(s: Service, time: int)
      requires Valid()
      modifies this
      ensures State() == Attempted(old(State()), s, time) && Valid()
    {
      AttemptedKeeps(net, State(), s, time);
      var found, id := Find(s.net);
      if !found || mapInfo[id].addr.service != s {
        return;
      }
      mapInfo := mapInfo[id := mapInfo[id].(lastTry := time)];
      mapInfo := mapInfo[id := mapInfo[id].(attempts := mapInfo[id].attempts + 1)];
    }

    method Connected(s: Service, time: int)
      requires Valid()
      modifies this
      ensures State() == ConnectedTo(old(State()), s, time) && Valid()
    {
      ConnectedKeeps(net, State(), s, time);
      var found, id := Find(s.net);
      if !found || mapInfo[id].addr.service != s {
        return;
      }
      if time - mapInfo[id].addr.time > 20 * 60 {
        mapInfo := mapInfo[id := mapInfo[id].(addr := mapInfo[id].addr.(time := time))];
      }
    }

    /** A random selection of at most 23% of the addresses and at most 2500, all different. */
    method GetAddr() returns (addrs: seq<Address>, ghost picks: seq<int>)
      requires Valid()
      modifies this`mapInfo, this`vRandom
      ensures |picks| == SelectionSize(old(|vRandom|)) && ValidPicks(picks, old(|vRandom|))
      ensures State() == Shuffled(old(State()), picks) && Valid()
      ensures |addrs| == SelectionSize(|vRandom|) <= |vRandom|
      ensures FrontIs(State(), addrs)
      ensures forall i, j :: 0 <= i < j < |addrs| ==> addrs[i].service.net != addrs[j].service.net
    {
      ghost var t0 := State();
      var count := SelectionSize(|vRandom|);
      addrs, picks := DrawMany(count);
      ShuffledKeeps(net, t0, picks);
      forall i, j | 0 <= i < j < |addrs|
        ensures addrs[i].service.net != addrs[j].service.net
      {
        AddrResults.SelectionIsDistinct(net, State(), i, j);
      }
    }

    method DrawMany(count: int) returns (addrs: seq<Address>, ghost picks: seq<int>)
      requires RandomOk(mapInfo, vRandom) && 0 <= count <= |vRandom|
      modifies this`mapInfo, this`vRandom
      ensures |picks| == count && ValidPicks(picks, old(|vRandom|))
      ensures State() == Shuffled(old(State()), picks)
      ensures |addrs| == count && FrontIs(State(), addrs)
    {
      ghost var t0 := State();
      addrs, picks := [], [];
      for n := 0 to count
        invariant |picks| == n && ValidPicks(picks, |t0.vRandom|)
        invariant State() == Shuffled(t0, picks)
        invariant |addrs| == n && FrontIs(State(), addrs)
      {
        var r := GetRandInt(|vRandom| - n);
        ShuffledOneMore(t0, picks, r + n);
        SwappedFront(State(), addrs, r + n);
        SwapRandom(n, r + n);
        picks := picks + [r + n];
        addrs := addrs + [mapInfo[vRandom[n]].addr];
      }
    }
  }

  // -------------------------------------------------------------------------
  // Which tried entry is overwritten
  // -------------------------------------------------------------------------

  /** The bucket after some rounds; the entry found to have succeeded least recently, the round it was found in and
      the place it was drawn from. */
  datatype Inspection = Inspection(bucket: seq<int>, oldest: int, at: int, pos: int)

  function Inspected(xs: seq<int>): nat {
    if |xs| < TRIED_ENTRIES_INSPECTED then |xs| else TRIED_ENTRIES_INSPECTED
  }

  /** In round i a place from i on is drawn. */
  ghost predicate DrawsFrom(draws: seq<int>, xs: seq<int>) {
    |draws| <= |xs| && forall i :: 0 <= i < |draws| ==> i <= draws[i] < |xs|
  }

  ghost predicate AllKnown(m: Infos, xs: seq<int>) {
    forall x :: x in xs ==> x in m
  }

  ghost function LastSuccess(m: Infos, id: int): int {
    if id in m then m[id].lastSuccess else 0
  }

  /** Round i swaps the drawn place with its own. */
  ghost function Round(m: Infos, before: Inspection, i: int, p: int): (r: Inspection)
    requires 0 <= i <= p < |before.bucket|
    ensures |r.bucket| == |before.bucket|
  {
    var drawn := before.bucket[p];
    var bucket := before.bucket[p := before.bucket[i]][i := drawn];
    if i == 0 || LastSuccess(m, drawn) < LastSuccess(m, before.oldest) then Inspection(bucket, drawn, i, p)
    else before.(bucket := bucket)
  }

  ghost function Inspect(m: Infos, xs: seq<int>, draws: seq<int>): (r: Inspection)
    requires DrawsFrom(draws, xs)
    ensures |r.bucket| == |xs|
  {
    if draws == [] then Inspection(xs, -1, -1, -1)
    else var i := |draws| - 1; Round(m, Inspect(m, xs, draws[..i]), i, draws[i])
  }

  /** One round more. */
  lemma InspectNext(m: Infos, xs: seq<int>, draws: seq<int>, p: int)
    requires DrawsFrom(draws, xs) && |draws| <= p < |xs|
    ensures DrawsFrom(draws + [p], xs)
    ensures Inspect(m, xs, draws + [p]) == Round(m, Inspect(m, xs, draws), |draws|, p)
  {
    var more := draws + [p];
    assert more[..|draws|] == draws && more[|draws|] == p;
  }

  lemma RoundShuffles(m: Infos, xs: seq<int>, before: Inspection, i: int, p: int)
    requires 0 <= i <= p < |before.bucket| && Shuffle(xs, before.bucket) && (i > 0 ==> before.oldest in xs)
    ensures var r := Round(m, before, i, p);
      before.bucket[p] in xs && Shuffle(xs, r.bucket) && r.oldest in xs
  {
    ShuffleHas(xs, before.bucket, p);
    ExchangeShuffles(before.bucket, p, i);
    ShuffleOn(xs, before.bucket, before.bucket[p := before.bucket[i]][i := before.bucket[p]]);
  }

  lemma {:induction false} InspectShuffles(m: Infos, xs: seq<int>, draws: seq<int>)
    requires DrawsFrom(draws, xs)
    ensures var r := Inspect(m, xs, draws);
      Shuffle(xs, r.bucket) && (draws != [] ==> r.oldest in xs)
  {
    if draws != [] {
      var i := |draws| - 1;
      InspectShuffles(m, xs, draws[..i]);
      RoundShuffles(m, xs, Inspect(m, xs, draws[..i]), i, draws[i]);
    }
  }

  lemma ShuffleOn(xs: seq<int>, ys: seq<int>, zs: seq<int>)
    requires Shuffle(xs, ys) && Shuffle(ys, zs)
    ensures Shuffle(xs, zs)
  {
  }

  /** The entry found stands at the place of its round, and none of those inspected succeeded less recently. */
  lemma {:induction false} InspectIs(m: Infos, xs: seq<int>, draws: seq<int>)
    requires DrawsFrom(draws, xs) && AllKnown(m, xs)
    ensures var r := Inspect(m, xs, draws);
      && Shuffle(xs, r.bucket) && (forall x :: x in r.bucket ==> x in m)
      && (draws != [] ==>
            && 0 <= r.at < |draws| && r.pos == draws[r.at] && r.bucket[r.at] == r.oldest && r.oldest in xs
            && forall i :: 0 <= i < |draws| ==> r.bucket[i] in m && m[r.oldest].lastSuccess <= m[r.bucket[i]].lastSuccess)
  {
    InspectShuffles(m, xs, draws);
    if draws != [] {
      var i := |draws| - 1;
      InspectIs(m, xs, draws[..i]);
      var before, r := Inspect(m, xs, draws[..i]), Inspect(m, xs, draws);
      ShuffleHas(xs, before.bucket, draws[i]);
      assert forall j :: 0 <= j < i ==> r.bucket[j] == before.bucket[j];
    }
  }

  /** The order and the place are those the inspection gives for these draws. */
  ghost predicate PickedBy(m: Infos, xs: seq<int>, draws: seq<int>, shuffled: seq<int>, pos: int) {
    && AllKnown(m, xs) && DrawsFrom(draws, xs) && |draws| == Inspected(xs)
    && shuffled == Inspect(m, xs, draws).bucket && pos == Inspect(m, xs, draws).pos
  }

  /** The inspection reads the last successes of the bucket's entries and nothing else. */
  lemma {:induction false} InspectSame(m: Infos, m': Infos, xs: seq<int>, draws: seq<int>)
    requires DrawsFrom(draws, xs)
    requires forall x :: x in xs ==> LastSuccess(m, x) == LastSuccess(m', x)
    ensures Inspect(m, xs, draws) == Inspect(m', xs, draws)
  {
    if draws != [] {
      var i := |draws| - 1;
      InspectSame(m, m', xs, draws[..i]);
      InspectShuffles(m, xs, draws[..i]);
      RoundShuffles(m, xs, Inspect(m, xs, draws[..i]), i, draws[i]);
    }
  }

  lemma PickedStill(m: Infos, m': Infos, xs: seq<int>, draws: seq<int>, shuffled: seq<int>, pos: int)
    requires PickedBy(m', xs, draws, shuffled, pos) && AllKnown(m, xs)
    requires forall x :: x in xs ==> m[x].lastSuccess == m'[x].lastSuccess
    ensures PickedBy(m, xs, draws, shuffled, pos)
  {
    InspectSame(m, m', xs, draws);
  }

  /** The place returned holds the entry that succeeded least recently, of those inspected, exactly when the draw that
      found it left it where it was. */
  lemma RightEntryIff(m: Infos, xs: seq<int>, draws: seq<int>)
    requires DrawsFrom(draws, xs) && AllKnown(m, xs) && draws != [] && NoDup(xs)
    ensures var r := Inspect(m, xs, draws);
      0 <= r.pos < |xs| && 0 <= r.at < |draws| && (r.bucket[r.pos] == r.oldest <==> draws[r.at] == r.at)
  {
    InspectIs(m, xs, draws);
  }

  /** The older of two entries is drawn from the second place; the place returned then holds the newer one. */
  lemma WrongEntryIsPicked(m: Infos, newer: int, older: int)
    requires newer != older && newer in m && older in m && m[older].lastSuccess < m[newer].lastSuccess
    ensures var xs, draws := [newer, older], [1, 1];
      && DrawsFrom(draws, xs) && |draws| == Inspected(xs) && AllKnown(m, xs)
      && var r := Inspect(m, xs, draws);
         r.oldest == older && r.pos == 1 && r.bucket[1] == newer
  {
    var xs, one, draws := [newer, older], [1], [1, 1];
    assert draws[..1] == one && one[..0] == [];
    assert Inspect(m, xs, one[..0]) == Inspection(xs, -1, -1, -1);
    assert xs[1 := xs[0]][0 := xs[1]] == [older, newer];
    assert Inspect(m, xs, one) == Inspection([older, newer], older, 0, 1);
  }

  lemma ExchangeShuffles(xs: seq<int>, p: int, q: int)
    requires 0 <= p < |xs| && 0 <= q < |xs|
    ensures Shuffle(xs, xs[p := xs[q]][q := xs[p]])
  {
    var ys := xs[p := xs[q]][q := xs[p]];
    forall x
      ensures x in xs <==> x in ys
    {
      if i :| 0 <= i < |xs| && xs[i] == x {
        assert ys[if i == p then q else if i == q then p else i] == x;
      }
      if i :| 0 <= i < |ys| && ys[i] == x {
        assert xs[if i == p then q else if i == q then p else i] == x;
      }
    }
  }
}
