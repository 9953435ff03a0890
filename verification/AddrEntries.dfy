/** What the operations of the address manager do to single entries, in the entries' own fields. */
module AddrEntries {
  import opened Sets
  import opened AddrTables
  import opened AddrResults

  /** An entry may be dropped unless it was tried within the last minute: if it was last seen never, more than ten
      minutes ahead or more than 60 days ago; if it never succeeded in 3 attempts; or if it had no success for a week
      in at least 20 attempts. */
  lemma TerribleMeans(info: Info, now: int)
    ensures IsTerrible(info, now) <==>
      && (info.lastTry == 0 || info.lastTry < now - 60)
      && (|| info.addr.time == 0
          || info.addr.time > now + 600
          || info.addr.time < now - 5184000
          || (info.lastSuccess == 0 && info.attempts >= 3)
          || (info.lastSuccess < now - 604800 && info.attempts >= 20))
  {
  }

  // -------------------------------------------------------------------------
  // Hearing of a known address
  // -------------------------------------------------------------------------

  /** The news can be an hour old to be the same news, or a day if it is more than a day old itself. */
  function Slack(addr: Address, now: int): (s: int)
    ensures s == 3600 || s == 86400
    ensures s == 3600 <==> now - addr.time < 86400
  {
    if now - addr.time < 86400 then 3600 else 86400
  }

  /** What hearing of `addr` does to the time and the services of a known entry. */
  ghost predicate TimeMoves(e: Info, addr: Address, penalty: int, now: int, e': Info) {
    var news := addr.time - penalty;
    var time := e'.addr.time;
    && time >= e.addr.time
    && (time == e.addr.time || (addr.time != 0 && time == Max(0, news)))
    && (addr.time != 0 ==> time >= news - Slack(addr, now))
    && (addr.time != 0 && e.addr.time == 0 ==> time == Max(0, news))
    && (e.addr.time != 0 && e.addr.time >= news - Slack(addr, now) ==> time == e.addr.time)
  }

  /** The entry is put into the bucket its new source names, which may be full. */
  ghost predicate Gains(e: Info, addr: Address, lucky: bool, time: int) {
    lucky && addr.time != 0 && (time == 0 || addr.time > time) && !e.inTried && e.refCount < 4
  }

  ghost predicate SameButCounts(e: Info, e': Info) {
    e' == e.(randomPos := e'.randomPos, refCount := e'.refCount)
  }

  /** Hearing again: the entry's time moves forward as `TimeMoves` says, its services grow, and nothing else of it
      changes but its references; other entries keep everything but theirs. */
  lemma AddRefreshes(n: Network, t: Tables, addr: Address, source: NetAddr, penalty: int, now: int, lucky: bool, victim: int)
    requires Consistent(n, t) && AddChoice(n, t, addr, source, victim)
    requires n.routable(addr.service.net) && addr.service.net in t.mapAddr
    ensures var t' := Added(n, t, addr, source, penalty, now, lucky, victim).0;
      var id := t.mapAddr[addr.service.net];
      && id in t'.mapInfo
      && TimeMoves(t.mapInfo[id], addr, penalty, now, t'.mapInfo[id])
      && t'.mapInfo[id].addr.services == t.mapInfo[id].addr.services + addr.services
      && SameButCounts(t.mapInfo[id].(addr := t'.mapInfo[id].addr), t'.mapInfo[id])
      && t'.mapInfo[id].addr.service == t.mapInfo[id].addr.service
      && (forall x :: x in t'.mapInfo && x != id ==> x in t.mapInfo && SameButCounts(t.mapInfo[x], t'.mapInfo[x]))
  {
    var b := NewBucket(n, t.key, addr.service.net, source);
    var id := t.mapAddr[addr.service.net];
    var info := Refreshed(t.mapInfo[id], addr, penalty, now);
    var t1 := WithInfo(t, id, info);
    RefreshedTime(t.mapInfo[id], addr, penalty, now);
    if MayRepeat(info, addr, lucky) && id !in t.vvNew[b] {
      UpdateKeeps(n, t, id, info, {});
      BumpedKeeps(n, t1, id);
      InsertedEntries(n, Bumped(t1, id), b, id, victim);
      assert id in Inserted(Bumped(t1, id), b, id, victim).mapInfo;
    }
  }

  lemma RefreshedTime(e: Info, addr: Address, penalty: int, now: int)
    ensures var e' := Refreshed(e, addr, penalty, now);
      && TimeMoves(e, addr, penalty, now, e')
      && e' == e.(addr := e.addr.(time := e'.addr.time, services := e.addr.services + addr.services))
  {
  }

  /** ... and it gains a place exactly in the bucket of the new source, if the news is newer than what is known now,
      the entry is untried and below four references, the draw wins and it is not there yet; a full bucket then loses
      the victim. All other buckets stay. */
  lemma AddGainsBucket(n: Network, t: Tables, addr: Address, source: NetAddr, penalty: int, now: int, lucky: bool, victim: int)
    requires Consistent(n, t) && AddChoice(n, t, addr, source, victim)
    requires n.routable(addr.service.net) && addr.service.net in t.mapAddr
    ensures var t' := Added(n, t, addr, source, penalty, now, lucky, victim).0;
      var id := t.mapAddr[addr.service.net];
      var b := NewBucket(n, t.key, addr.service.net, source);
      && id in t'.mapInfo && |t'.vvNew| == |t.vvNew|
      && (id in t'.vvNew[b] <==> id in t.vvNew[b] || Gains(t.mapInfo[id], addr, lucky, t'.mapInfo[id].addr.time))
      && OthersStay(t.vvNew, b, id, victim, t'.vvNew)
  {
    AddRefreshes(n, t, addr, source, penalty, now, lucky, victim);
    AddedBuckets(n, t, addr, source, penalty, now, lucky, victim);
    var b := NewBucket(n, t.key, addr.service.net, source);
    var id := t.mapAddr[addr.service.net];
    InsertedStay(t.vvNew, b, id, victim);
  }

  lemma AddedBuckets(n: Network, t: Tables, addr: Address, source: NetAddr, penalty: int, now: int, lucky: bool, victim: int)
    requires Consistent(n, t) && AddChoice(n, t, addr, source, victim)
    requires n.routable(addr.service.net) && addr.service.net in t.mapAddr
    ensures var t' := Added(n, t, addr, source, penalty, now, lucky, victim).0;
      var id := t.mapAddr[addr.service.net];
      var b := NewBucket(n, t.key, addr.service.net, source);
      && id in t'.mapInfo
      && t'.vvNew == if Gains(t.mapInfo[id], addr, lucky, t'.mapInfo[id].addr.time) && id !in t.vvNew[b]
                     then WithPlace(t.vvNew, b, id, victim) else t.vvNew
  {
    AddRefreshes(n, t, addr, source, penalty, now, lucky, victim);
    var b := NewBucket(n, t.key, addr.service.net, source);
    var id := t.mapAddr[addr.service.net];
    var info := Refreshed(t.mapInfo[id], addr, penalty, now);
    var t1 := WithInfo(t, id, info);
    if MayRepeat(info, addr, lucky) && id !in t.vvNew[b] {
      UpdateKeeps(n, t, id, info, {});
      BumpedKeeps(n, t1, id);
      InsertedEntries(n, Bumped(t1, id), b, id, victim);
      InsertedBuckets(n, Bumped(t1, id), b, id, victim);
    }
  }

  ghost function WithPlace(vv: seq<set<int>>, b: int, id: int, victim: int): seq<set<int>>
    requires 0 <= b < |vv|
  {
    vv[b := (if |vv[b]| == NEW_BUCKET_SIZE then vv[b] - {victim} else vv[b]) + {id}]
  }

  lemma InsertedStay(vv: seq<set<int>>, b: int, id: int, victim: int)
    requires 0 <= b < |vv|
    ensures id !in vv[b] ==> OthersStay(vv, b, id, victim, WithPlace(vv, b, id, victim))
    ensures OthersStay(vv, b, id, victim, vv)
  {
  }

  /** Only bucket `b` can change: it can gain the id, and if it does so when full it loses the victim. */
  ghost predicate OthersStay(vv: seq<set<int>>, b: int, id: int, victim: int, vv': seq<set<int>>)
    requires 0 <= b < |vv| == |vv'|
  {
    && (forall c :: 0 <= c < |vv| && c != b ==> vv'[c] == vv[c])
    && (forall x :: x != id ==>
          (x in vv'[b] <==> x in vv[b] && !(x == victim && id !in vv[b] && id in vv'[b] && |vv[b]| == 64)))
  }

  lemma InsertedBuckets(n: Network, t: Tables, b: int, id: int, victim: int)
    requires AlmostOk(n, t, {id}) && id in t.mapInfo && 0 <= b < |t.vvNew| && id !in t.vvNew[b]
    requires |t.vvNew[b]| == NEW_BUCKET_SIZE ==> victim in t.vvNew[b]
    ensures Inserted(t, b, id, victim).vvNew == WithPlace(t.vvNew, b, id, victim)
  {
    if |t.vvNew[b]| == NEW_BUCKET_SIZE {
      DroppedKeeps(n, t, b, victim, {id});
    }
  }

  // -------------------------------------------------------------------------
  // Hearing of an unknown address
  // -------------------------------------------------------------------------

  /** An unknown address becomes an entry that was never tried and never succeeded, in one bucket, last seen when the
      news says less the penalty. */
  lemma AddCreates(n: Network, t: Tables, addr: Address, source: NetAddr, penalty: int, now: int, lucky: bool, victim: int)
    requires Consistent(n, t) && AddChoice(n, t, addr, source, victim)
    requires n.routable(addr.service.net) && addr.service.net !in t.mapAddr
    ensures var t' := Added(n, t, addr, source, penalty, now, lucky, victim).0;
      && addr.service.net in t'.mapAddr && t'.mapAddr[addr.service.net] in t'.mapInfo
      && var e := t'.mapInfo[t'.mapAddr[addr.service.net]];
      && e.addr.service == addr.service && e.addr.services == addr.services && e.source == source
      && e.addr.time == (if addr.time >= penalty then addr.time - penalty else 0)
      && e.lastSuccess == 0 && e.lastTry == 0 && e.attempts == 0 && e.refCount == 1 && !e.inTried
      && t'.mapAddr[addr.service.net] in t'.vvNew[NewBucket(n, t.key, addr.service.net, source)]
  {
    HeardFirst(n, t, addr, source, penalty, now, lucky, victim);
  }

  // -------------------------------------------------------------------------
  // Attempts and connections
  // -------------------------------------------------------------------------

  /** An attempt at a known service is counted and its time kept; nothing else changes. */
  lemma AttemptCounts(n: Network, t: Tables, s: Service, time: int)
    requires Consistent(n, t)
    ensures var t' := Attempted(t, s, time);
      && t' == t.(mapInfo := t'.mapInfo)
      && (forall x :: x in t'.mapInfo <==> x in t.mapInfo)
      && (forall x :: x in t.mapInfo ==>
            if t.mapInfo[x].addr.service == s
            then t'.mapInfo[x] == t.mapInfo[x].(attempts := t.mapInfo[x].attempts + 1, lastTry := time)
            else t'.mapInfo[x] == t.mapInfo[x])
  {
    KnownService(n, t, s);
  }

  /** A connection brings the time of a known service to within twenty minutes of the time given, and never back;
      nothing else changes. */
  lemma ConnectedTimes(n: Network, t: Tables, s: Service, time: int)
    requires Consistent(n, t)
    ensures var t' := ConnectedTo(t, s, time);
      && t' == t.(mapInfo := t'.mapInfo)
      && (forall x :: x in t'.mapInfo <==> x in t.mapInfo)
      && (forall x :: x in t.mapInfo && t.mapInfo[x].addr.service != s ==> t'.mapInfo[x] == t.mapInfo[x])
      && (forall x :: x in t.mapInfo && t.mapInfo[x].addr.service == s ==>
            && t'.mapInfo[x] == t.mapInfo[x].(addr := t.mapInfo[x].addr.(time := t'.mapInfo[x].addr.time))
            && t'.mapInfo[x].addr.time >= t.mapInfo[x].addr.time && t'.mapInfo[x].addr.time >= time - 1200
            && (t'.mapInfo[x].addr.time == t.mapInfo[x].addr.time || t'.mapInfo[x].addr.time == time)
            && (t.mapInfo[x].addr.time >= time - 1200 ==> t'.mapInfo[x].addr.time == t.mapInfo[x].addr.time))
  {
    KnownService(n, t, s);
  }

  /** At most one entry has a given service, and it is the one the index names. */
  lemma KnownService(n: Network, t: Tables, s: Service)
    requires Consistent(n, t)
    ensures forall x :: x in t.mapInfo && t.mapInfo[x].addr.service == s ==> Knows(t, s) && x == t.mapAddr[s.net]
  {
  }

  // -------------------------------------------------------------------------
  // Buckets
  // -------------------------------------------------------------------------

  /** A service's whole address chooses one of four slots, and its range and the slot name the tried bucket. */
  lemma TriedBucketOfSlot(n: Network, key: Key, s: Service, slot: nat)
    requires n.serviceHash(key, s) % 4 == slot
    ensures TriedBucket(n, key, s) == n.triedHash(key, n.group(s.net), slot) % 64
  {
  }

  /** The ranges of address and source choose one of 32 slots, and the source's range and the slot name the new bucket. */
  lemma NewBucketOfSlot(n: Network, key: Key, addr: NetAddr, source: NetAddr, slot: nat)
    requires n.pairHash(key, n.group(addr), n.group(source)) % 32 == slot
    ensures NewBucket(n, key, addr, source) == n.newHash(key, n.group(source), slot) % 256
  {
  }
}
