/** What the address manager's operations achieve, beyond keeping its tables consistent:
    who is remembered, who can be forgotten, and how large the tables can grow. */
module AddrResults {
  import opened Sets
  import opened AddrTables

  // -------------------------------------------------------------------------
  // Marking an address good
  // -------------------------------------------------------------------------

  lemma PromotedEntries(n: Network, t: Tables, id: int, origin: int, shuffled: seq<int>, pos: int)
    requires PromotionChoice(n, t, id, origin, shuffled, pos)
    ensures var t' := Promoted(n, t, id, origin, shuffled, pos);
      && t'.mapAddr == t.mapAddr && t'.vRandom == t.vRandom
      && (forall x :: x in t'.mapInfo <==> x in t.mapInfo)
      && (forall x :: x in t.mapInfo ==>
            t'.mapInfo[x] == t.mapInfo[x].(inTried := t'.mapInfo[x].inTried, refCount := t'.mapInfo[x].refCount))
      && t'.mapInfo[id].inTried
      && (forall x :: x in t.mapInfo && x != id && t'.mapInfo[x].inTried ==> t.mapInfo[x].inTried)
      && (forall x :: x in t.mapInfo && t.mapInfo[x].inTried && !t'.mapInfo[x].inTried ==>
            x == shuffled[pos] && t'.mapInfo[x].refCount == 1)
  {
    if |t.vvTried[TriedBucket(n, t.key, t.mapInfo[id].addr.service)]| >= TRIED_BUCKET_SIZE {
      var info, evicted, vv, target := EvictionEffect(n, t, id, origin, shuffled, pos);
    }
  }

  /** After `Good` the address is in the tried table with the given time as its last success; nothing is
      forgotten; and at most one other entry is moved, from the tried table back to one new bucket. */
  lemma GoodMovesToTried(n: Network, t: Tables, s: Service, time: int, origin: int, shuffled: seq<int>, pos: int)
    requires Consistent(n, t) && Legal(n, t, Good(s, time, origin, shuffled, pos)) && Knows(t, s)
    ensures var t' := Graded(n, t, s, time, origin, shuffled, pos);
      var id := t.mapAddr[s.net];
      && t'.mapAddr == t.mapAddr && t'.vRandom == t.vRandom
      && (forall x :: x in t'.mapInfo <==> x in t.mapInfo)
      && t'.mapInfo[id].inTried && t'.mapInfo[id].refCount == 0
      && t'.mapInfo[id].lastSuccess == time && t'.mapInfo[id].lastTry == time
      && t'.mapInfo[id].addr.time == time && t'.mapInfo[id].attempts == 0
      && (forall x :: x in t.mapInfo && x != id ==>
            || t'.mapInfo[x] == t.mapInfo[x].(refCount := t'.mapInfo[x].refCount)
            || (t.mapInfo[x].inTried && x == shuffled[pos] &&
                t'.mapInfo[x] == t.mapInfo[x].(inTried := false, refCount := 1)))
  {
    var id := t.mapAddr[s.net];
    UpdateKeeps(n, t, id, Succeeded(t.mapInfo[id], time), {});
    GradedKeeps(n, t, s, time, origin, shuffled, pos);
    if !t.mapInfo[id].inTried {
      var t1 := WithInfo(t, id, Succeeded(t.mapInfo[id], time));
      if |t.vvTried[TriedBucket(n, t.key, s)]| < TRIED_BUCKET_SIZE {
        PromotedEntries(n, t1, id, origin, [id], 0);
      } else {
        LeaverIsKnown(n, t, TriedBucket(n, t.key, s), shuffled, pos);
        PromotedEntries(n, t1, id, origin, shuffled, pos);
      }
    }
  }

  /** The time half of the self-check survives `Good` exactly when the time is positive. */
  lemma GoodKeepsTimes(n: Network, t: Tables, s: Service, time: int, origin: int, shuffled: seq<int>, pos: int)
    requires Consistent(n, t) && Legal(n, t, Good(s, time, origin, shuffled, pos)) && TimesOk(t)
    ensures TimesOk(Graded(n, t, s, time, origin, shuffled, pos)) <==> (Knows(t, s) ==> time > 0)
  {
    if Knows(t, s) {
      GoodMovesToTried(n, t, s, time, origin, shuffled, pos);
      var t' := Graded(n, t, s, time, origin, shuffled, pos);
      var id := t.mapAddr[s.net];
      assert TimesOk(t') ==> t'.mapInfo[id].lastTry >= 0 && t'.mapInfo[id].lastSuccess != 0;
    }
  }

  /** ... and it survives `Attempt` exactly when the time is not negative. */
  lemma AttemptKeepsTimes(n: Network, t: Tables, s: Service, time: int)
    requires Consistent(n, t) && TimesOk(t)
    ensures TimesOk(Attempted(t, s, time)) <==> (Knows(t, s) ==> time >= 0)
  {
    if Knows(t, s) {
      var t' := Attempted(t, s, time);
      var id := t.mapAddr[s.net];
      assert id in t'.mapInfo && t'.mapInfo[id].lastTry == time;
      assert TimesOk(t') ==> t'.mapInfo[id].lastTry >= 0;
    }
  }

  // -------------------------------------------------------------------------
  // Hearing of an address
  // -------------------------------------------------------------------------

  /** Inserting remembers everything except an untried victim that no other bucket held. */
  lemma InsertedEntries(n: Network, t: Tables, b: int, id: int, victim: int)
    requires AlmostOk(n, t, {id}) && id in t.mapInfo && 0 <= b < |t.vvNew| && id !in t.vvNew[b]
    requires |t.vvNew[b]| == NEW_BUCKET_SIZE ==> victim in t.vvNew[b]
    ensures var t' := Inserted(t, b, id, victim);
      && t'.vvTried == t.vvTried && t'.nTried == t.nTried
      && (forall x :: x in t'.mapInfo ==> x in t.mapInfo)
      && (forall x :: x in t.mapInfo && x !in t'.mapInfo ==>
            x == victim && x != id && !t.mapInfo[x].inTried && t.mapInfo[x].refCount == 1 && |t.vvNew[b]| == NEW_BUCKET_SIZE)
      && (forall x :: x in t'.mapInfo ==>
            t'.mapInfo[x] == t.mapInfo[x].(randomPos := t'.mapInfo[x].randomPos, refCount := t'.mapInfo[x].refCount))
      && t'.mapInfo[id].refCount == t.mapInfo[id].refCount
      && id in t'.vvNew[b]
  {
    if |t.vvNew[b]| == NEW_BUCKET_SIZE {
      DroppedKeeps(n, t, b, victim, {id});
      assert b in Holders(t.vvNew, victim);
    }
  }

  /** How the entries can have changed after hearing of an address that belongs into new bucket `b`. */
  ghost predicate Heard(t: Tables, b: int, victim: int, t': Tables)
    requires 0 <= b < |t.vvNew|
  {
    && t'.vvTried == t.vvTried && t'.nTried == t.nTried
    && (forall x :: x in t.mapInfo && x !in t'.mapInfo ==>
          x == victim && !t.mapInfo[x].inTried && t.mapInfo[x].refCount == 1 && |t.vvNew[b]| == NEW_BUCKET_SIZE)
    && (forall x :: x in t'.mapInfo && x in t.mapInfo ==>
          && t'.mapInfo[x].inTried == t.mapInfo[x].inTried
          && t'.mapInfo[x].lastTry == t.mapInfo[x].lastTry && t'.mapInfo[x].lastSuccess == t.mapInfo[x].lastSuccess
          && t'.mapInfo[x].addr.service == t.mapInfo[x].addr.service)
  }

  lemma HeardAgain(n: Network, t: Tables, addr: Address, source: NetAddr, penalty: int, now: int,
                   lucky: bool, victim: int)
    requires Consistent(n, t) && AddChoice(n, t, addr, source, victim) && addr.service.net in t.mapAddr
    ensures var t' := Added(n, t, addr, source, penalty, now, lucky, victim).0;
      && Heard(t, NewBucket(n, t.key, addr.service.net, source), victim, t')
      && addr.service.net in t'.mapAddr
      && forall x :: x in t'.mapInfo ==> x in t.mapInfo
  {
    AddedKeeps(n, t, addr, source, penalty, now, lucky, victim);
    if n.routable(addr.service.net) {
      var b := NewBucket(n, t.key, addr.service.net, source);
      var id := t.mapAddr[addr.service.net];
      var info := Refreshed(t.mapInfo[id], addr, penalty, now);
      UpdateKeeps(n, t, id, info, {});
      var t1 := WithInfo(t, id, info);
      if MayRepeat(info, addr, lucky) && id !in t.vvNew[b] {
        BumpedKeeps(n, t1, id);
        var t2 := Bumped(t1, id);
        InsertedEntries(n, t2, b, id, victim);
        assert id in Inserted(t2, b, id, victim).mapInfo;
      }
    }
  }

  lemma HeardFirst(n: Network, t: Tables, addr: Address, source: NetAddr, penalty: int, now: int,
                   lucky: bool, victim: int)
    requires Consistent(n, t) && AddChoice(n, t, addr, source, victim)
    requires addr.service.net !in t.mapAddr && n.routable(addr.service.net)
    ensures var t' := Added(n, t, addr, source, penalty, now, lucky, victim).0;
      var b := NewBucket(n, t.key, addr.service.net, source);
      && Heard(t, b, victim, t')
      && addr.service.net in t'.mapAddr && t'.mapAddr[addr.service.net] == t.nIdCount
      && t.nIdCount in t'.mapInfo && t.nIdCount in t'.vvNew[b]
      && t'.mapInfo[t.nIdCount] == Info(addr.(time := Max(0, addr.time - penalty)), source, 0, 0, 0, 1, false,
                                        t'.mapInfo[t.nIdCount].randomPos)
      && forall x :: x in t'.mapInfo ==> x in t.mapInfo || x == t.nIdCount
  {
    var b := NewBucket(n, t.key, addr.service.net, source);
    CreatedKeeps(n, t, addr, source, penalty);
    var t2 := Bumped(Created(t, addr, source, penalty), t.nIdCount);
    assert t2.vvNew == t.vvNew && t2.vvTried == t.vvTried && t2.nTried == t.nTried;
    assert t2.mapInfo == t.mapInfo[t.nIdCount := Info(addr.(time := Max(0, addr.time - penalty)), source, 0, 0, 0, 1, false, |t.vRandom|)];
    InsertedFirst(n, t, t2, b, victim);
  }

  lemma InsertedFirst(n: Network, t: Tables, t2: Tables, b: int, victim: int)
    requires IdsOk(t.mapInfo, t.nIdCount) && NewOk(t.mapInfo, t.vvNew, {}) && 0 <= b < |t.vvNew|
    requires AlmostOk(n, t2, {t.nIdCount}) && t.nIdCount in t2.mapInfo
    requires t2.vvNew == t.vvNew && t2.vvTried == t.vvTried && t2.nTried == t.nTried
    requires t2.mapInfo == t.mapInfo[t.nIdCount := t2.mapInfo[t.nIdCount]]
    requires |t.vvNew[b]| == NEW_BUCKET_SIZE ==> victim in t.vvNew[b]
    ensures var t' := Inserted(t2, b, t.nIdCount, victim);
      && Consistent(n, t')
      && Heard(t, b, victim, t')
      && t.nIdCount in t'.mapInfo && t.nIdCount in t'.vvNew[b]
      && t'.mapInfo[t.nIdCount] == t2.mapInfo[t.nIdCount].(randomPos := t'.mapInfo[t.nIdCount].randomPos)
      && forall x :: x in t'.mapInfo ==> x in t.mapInfo || x == t.nIdCount
  {
    assert t.nIdCount !in t.mapInfo;
    InsertedKeeps(n, t2, b, t.nIdCount, victim);
    InsertedEntries(n, t2, b, t.nIdCount, victim);
  }

  /** `Add` answers whether a routable address was unknown; it then knows the address; it never touches the
      tried table; and it forgets at most one entry, an untried one that only the full bucket held. */
  lemma AddRemembers(n: Network, t: Tables, addr: Address, source: NetAddr, penalty: int, now: int,
                     lucky: bool, victim: int)
    requires Consistent(n, t) && Legal(n, t, Add(addr, source, penalty, now, lucky, victim))
    ensures var (t', isNew) := Added(n, t, addr, source, penalty, now, lucky, victim);
      var net := addr.service.net;
      && (isNew <==> n.routable(net) && net !in t.mapAddr)
      && (n.routable(net) ==> net in t'.mapAddr)
      && Heard(t, NewBucket(n, t.key, net, source), victim, t')
      && (forall x :: x in t'.mapInfo && x !in t.mapInfo ==> isNew && x == t.nIdCount)
      && (TimesOk(t) ==> TimesOk(t'))
  {
    if n.routable(addr.service.net) {
      if addr.service.net in t.mapAddr {
        HeardAgain(n, t, addr, source, penalty, now, lucky, victim);
      } else {
        HeardFirst(n, t, addr, source, penalty, now, lucky, victim);
      }
    }
  }

  /** An operation with an acceptable time. */
  predicate TimelyOp(op: Op) {
    match op
    case Good(_, time, _, _, _) => time > 0
    case Attempt(_, time) => time >= 0
    case _ => true
  }

  lemma StepKeepsTimes(n: Network, t: Tables, op: Op)
    requires Consistent(n, t) && Legal(n, t, op) && TimesOk(t) && TimelyOp(op)
    ensures TimesOk(Step(n, t, op))
  {
    match op {
      case Add(addr, source, penalty, now, lucky, victim) => AddRemembers(n, t, addr, source, penalty, now, lucky, victim);
      case Good(s, time, origin, shuffled, pos) => GoodKeepsTimes(n, t, s, time, origin, shuffled, pos);
      case Attempt(s, time) => AttemptKeepsTimes(n, t, s, time);
      case Connected(_, _) =>
      case GetAddr(_) =>
    }
  }

  /** With acceptable times, every state of every history passes the whole self-check. */
  lemma {:induction false} HistoryIsTimely(n: Network, states: seq<Tables>, ops: seq<Op>, i: nat)
    requires IsHistory(n, states, ops) && i <= |ops|
    requires forall j :: 0 <= j < i ==> TimelyOp(ops[j])
    ensures Consistent(n, states[i]) && TimesOk(states[i])
  {
    if i == 0 {
      EmptyIsConsistent(n, states[0].key);
    } else {
      HistoryIsTimely(n, states, ops, i - 1);
      var t, op := states[i - 1], ops[i - 1];
      assert Legal(n, t, op) && states[i] == Step(n, t, op);
      StepKeeps(n, t, op);
      StepKeepsTimes(n, t, op);
    }
  }

  // -------------------------------------------------------------------------
  // Handing out addresses
  // -------------------------------------------------------------------------

  /** The first places of `vRandom` name pairwise different network addresses. */
  lemma SelectionIsDistinct(n: Network, t: Tables, i: int, j: int)
    requires Consistent(n, t) && 0 <= i < j < |t.vRandom|
    ensures t.mapInfo[t.vRandom[i]].addr.service.net != t.mapInfo[t.vRandom[j]].addr.service.net
  {
    var a, b := t.vRandom[i], t.vRandom[j];
    assert a in t.mapInfo && b in t.mapInfo && t.mapInfo[a].randomPos != t.mapInfo[b].randomPos;
  }

  // -------------------------------------------------------------------------
  // Design limits
  // -------------------------------------------------------------------------

  ghost function AllNew(vv: seq<set<int>>): set<int> {
    if vv == [] then {} else AllNew(vv[..|vv| - 1]) + vv[|vv| - 1]
  }

  ghost function AllTried(vv: seq<seq<int>>): set<int> {
    if vv == [] then {} else AllTried(vv[..|vv| - 1]) + Elements(vv[|vv| - 1])
  }

  lemma {:induction false} AllNewBound(vv: seq<set<int>>)
    requires forall b :: 0 <= b < |vv| ==> |vv[b]| <= NEW_BUCKET_SIZE
    ensures |AllNew(vv)| <= NEW_BUCKET_SIZE * |vv|
    ensures forall b, x :: 0 <= b < |vv| && x in vv[b] ==> x in AllNew(vv)
  {
    if vv != [] {
      var k := |vv| - 1;
      AllNewBound(vv[..k]);
      UnionBound(AllNew(vv[..k]), vv[k]);
      forall b, x | 0 <= b < |vv| && x in vv[b]
        ensures x in AllNew(vv)
      {
        assert b < k ==> vv[..k][b] == vv[b];
      }
    }
  }

  lemma {:induction false} AllTriedBound(vv: seq<seq<int>>)
    requires forall b :: 0 <= b < |vv| ==> |vv[b]| <= TRIED_BUCKET_SIZE
    ensures |AllTried(vv)| <= TRIED_BUCKET_SIZE * |vv|
    ensures forall b, x :: 0 <= b < |vv| && x in vv[b] ==> x in AllTried(vv)
  {
    if vv != [] {
      var k := |vv| - 1;
      AllTriedBound(vv[..k]);
      ElementsBound(vv[k]);
      UnionBound(AllTried(vv[..k]), Elements(vv[k]));
      forall b, x | 0 <= b < |vv| && x in vv[b]
        ensures x in AllTried(vv)
      {
        assert b < k ==> vv[..k][b] == vv[b];
      }
    }
  }

  lemma UnionBound(a: set<int>, b: set<int>)
    ensures |a + b| <= |a| + |b|
  {
    assert a + b == a + (b - a);
    SubsetCard(b - a, b);
  }

  lemma SplitIds(m: Infos)
    ensures |m.Keys| == |Tried(m)| + |Untried(m)|
  {
    SameSet(m.Keys, Tried(m) + Untried(m));
    assert Tried(m) !! Untried(m);
  }

  /** `vRandom` lists exactly the tried and the new entries. */
  lemma RandomCount(n: Network, t: Tables)
    requires Consistent(n, t)
    ensures |t.vRandom| == t.nTried + t.nNew == |t.mapInfo|
  {
    var v := t.vRandom;
    forall i, j | 0 <= i < j < |v|
      ensures v[i] != v[j]
    {
      assert v[i] in t.mapInfo && t.mapInfo[v[i]].randomPos == i;
    }
    ElementsCard(v);
    ElementsBound(v);
    SameSet(Elements(v), t.mapInfo.Keys);
    SplitIds(t.mapInfo);
    assert |t.mapInfo| == |t.mapInfo.Keys|;
  }

  /** However many addresses are offered, the manager never remembers more than 20480. */
  lemma MemoryIsBounded(n: Network, t: Tables)
    requires Consistent(n, t)
    ensures |t.vRandom| <= TRIED_BUCKETS * TRIED_BUCKET_SIZE + NEW_BUCKETS * NEW_BUCKET_SIZE
  {
    RandomCount(n, t);
    SplitIds(t.mapInfo);
    AllTriedBound(t.vvTried);
    AllNewBound(t.vvNew);
    forall id | id in Untried(t.mapInfo)
      ensures id in AllNew(t.vvNew)
    {
      var held := Holders(t.vvNew, id);
      assert |held| >= 1;
      if forall b :: b !in held {
        assert false;
      }
      var b :| b in held;
    }
    SubsetCard(Tried(t.mapInfo), AllTried(t.vvTried));
    SubsetCard(Untried(t.mapInfo), AllNew(t.vvNew));
  }

  ghost function TriedBucketsOf(n: Network, key: Key, g: Group, k: nat): set<int> {
    if k == 0 then {} else TriedBucketsOf(n, key, g, k - 1) + {n.triedHash(key, g, k - 1) % TRIED_BUCKETS}
  }

  lemma {:induction false} TriedBucketsOfBound(n: Network, key: Key, g: Group, k: nat)
    ensures |TriedBucketsOf(n, key, g, k)| <= k
    ensures forall i :: 0 <= i < k ==> n.triedHash(key, g, i) % TRIED_BUCKETS in TriedBucketsOf(n, key, g, k)
  {
    if k > 0 {
      TriedBucketsOfBound(n, key, g, k - 1);
    }
  }

  /** All addresses of one address range share at most four tried buckets, whatever the key and the hashes. */
  lemma RangeSharesFourTriedBuckets(n: Network, key: Key, g: Group)
    ensures |TriedBucketsOf(n, key, g, TRIED_BUCKETS_PER_GROUP)| <= TRIED_BUCKETS_PER_GROUP
    ensures forall s: Service :: n.group(s.net) == g ==>
              TriedBucket(n, key, s) in TriedBucketsOf(n, key, g, TRIED_BUCKETS_PER_GROUP)
  {
    TriedBucketsOfBound(n, key, g, TRIED_BUCKETS_PER_GROUP);
  }

  ghost function NewBucketsOf(n: Network, key: Key, g: Group, k: nat): set<int> {
    if k == 0 then {} else NewBucketsOf(n, key, g, k - 1) + {n.newHash(key, g, k - 1) % NEW_BUCKETS}
  }

  lemma {:induction false} NewBucketsOfBound(n: Network, key: Key, g: Group, k: nat)
    ensures |NewBucketsOf(n, key, g, k)| <= k
    ensures forall i :: 0 <= i < k ==> n.newHash(key, g, i) % NEW_BUCKETS in NewBucketsOf(n, key, g, k)
  {
    if k > 0 {
      NewBucketsOfBound(n, key, g, k - 1);
    }
  }

  /** All sources of one address range can reach at most 32 of the new buckets. */
  lemma SourceReachesThirtyTwoNewBuckets(n: Network, key: Key, g: Group)
    ensures |NewBucketsOf(n, key, g, NEW_BUCKETS_PER_SOURCE_GROUP)| <= NEW_BUCKETS_PER_SOURCE_GROUP
    ensures forall addr: NetAddr, source: NetAddr :: n.group(source) == g ==>
              NewBucket(n, key, addr, source) in NewBucketsOf(n, key, g, NEW_BUCKETS_PER_SOURCE_GROUP)
  {
    NewBucketsOfBound(n, key, g, NEW_BUCKETS_PER_SOURCE_GROUP);
  }
}
