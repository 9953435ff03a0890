/** Catching the filter header store up with checkpoints, cmd/spv/blockmanager.go: replies from peers arrive in any
    order, are checked against the checkpoints, and are written in order through a stash. */
module FilterHeaders {
  import opened Wrappers

  type Hash(==, !new)
  type BlockHash(==, !new)

  /** The height at which the k-th checkpoint interval begins: checkpoints are 1000 blocks apart. */
  function Boundary(k: nat): nat { 1000 * k }

  /** The interval a height is in. */
  function IntervalOf(height: nat): nat { height / 1000 }

  /** `prev` is the filter header before the range, `hashes` the filter hashes in it. */
  datatype Reply = Reply(filterType: nat, stopHash: BlockHash, prev: Hash, hashes: seq<Hash>)
  datatype Query = Query(filterType: nat, stopHash: BlockHash)

  // -------------------------------------------------------------------------
  // Header chains (BIP 157, section "Filter Headers")
  // -------------------------------------------------------------------------

  /** The header after `hashes`, starting from `prev`; `dh(filter hash, previous header)` is the double hash. */
  function Fold(dh: (Hash, Hash) -> Hash, prev: Hash, hashes: seq<Hash>): Hash {
    if hashes == [] then prev else dh(hashes[|hashes| - 1], Fold(dh, prev, hashes[..|hashes| - 1]))
  }

  function Headers(dh: (Hash, Hash) -> Hash, prev: Hash, hashes: seq<Hash>): seq<Hash> {
    if hashes == [] then [] else Headers(dh, prev, hashes[..|hashes| - 1]) + [Fold(dh, prev, hashes)]
  }

  lemma {:induction false} HeadersAt(dh: (Hash, Hash) -> Hash, prev: Hash, hashes: seq<Hash>)
    ensures |Headers(dh, prev, hashes)| == |hashes|
    ensures forall i :: 0 <= i < |hashes| ==> Headers(dh, prev, hashes)[i] == Fold(dh, prev, hashes[..i + 1])
  {
    if hashes != [] {
      var front := hashes[..|hashes| - 1];
      HeadersAt(dh, prev, front);
      forall i | 0 <= i < |hashes|
        ensures Headers(dh, prev, hashes)[i] == Fold(dh, prev, hashes[..i + 1])
      {
        if i < |front| {
          assert front[..i + 1] == hashes[..i + 1];
        } else {
          assert hashes[..i + 1] == hashes;
        }
      }
    }
  }

  ghost predicate Injective(dh: (Hash, Hash) -> Hash) {
    forall a, b, c, d :: dh(a, b) == dh(c, d) ==> a == c && b == d
  }

  /** No header is reached from itself. */
  ghost predicate Acyclic(dh: (Hash, Hash) -> Hash) {
    forall prev, hashes :: hashes != [] ==> Fold(dh, prev, hashes) != prev
  }

  /** The header chain that belongs to the blocks' filters: genesis first. */
  ghost predicate IsChain(dh: (Hash, Hash) -> Hash, filters: seq<Hash>, chain: seq<Hash>) {
    |chain| == |filters| + 1 && forall n :: 0 <= n < |filters| ==> chain[n + 1] == dh(filters[n], chain[n])
  }

  /** Every header after `from` is reached from it by the filters between. */
  lemma {:induction false} ChainFolds(dh: (Hash, Hash) -> Hash, filters: seq<Hash>, chain: seq<Hash>, from: nat, to: nat)
    requires IsChain(dh, filters, chain) && from <= to < |chain|
    ensures Fold(dh, chain[from], filters[from..to]) == chain[to]
  {
    if from < to {
      ChainFolds(dh, filters, chain, from, to - 1);
      assert filters[from..to][..to - 1 - from] == filters[from..to - 1];
    }
  }

  /** Two ways of reaching the same header over equally many hashes are the same way. */
  lemma {:induction false} FoldIsInjective(dh: (Hash, Hash) -> Hash, a: Hash, hs: seq<Hash>, b: Hash, gs: seq<Hash>)
    requires Injective(dh) && |hs| == |gs| && Fold(dh, a, hs) == Fold(dh, b, gs)
    ensures a == b && hs == gs
  {
    if hs != [] {
      var n := |hs| - 1;
      FoldIsInjective(dh, a, hs[..n], b, gs[..n]);
      assert hs == hs[..n] + [hs[n]] && gs == gs[..n] + [gs[n]];
    }
  }

  lemma {:induction false} FoldAppend(dh: (Hash, Hash) -> Hash, a: Hash, hs: seq<Hash>, gs: seq<Hash>)
    ensures Fold(dh, a, hs + gs) == Fold(dh, Fold(dh, a, hs), gs)
  {
    if gs == [] {
      assert hs + gs == hs;
    } else {
      var n := |gs| - 1;
      assert (hs + gs)[..|hs| + n] == hs + gs[..n];
      FoldAppend(dh, a, hs, gs[..n]);
    }
  }

  /** With acyclic hashing, two ways from one header to another have the same length. */
  lemma SameLength(dh: (Hash, Hash) -> Hash, a: Hash, hs: seq<Hash>, gs: seq<Hash>)
    requires Injective(dh) && Acyclic(dh) && Fold(dh, a, hs) == Fold(dh, a, gs)
    ensures |hs| == |gs|
  {
    if |hs| > |gs| {
      LongerWayCycles(dh, a, hs, gs);
    }
    if |gs| > |hs| {
      LongerWayCycles(dh, a, gs, hs);
    }
  }

  lemma LongerWayCycles(dh: (Hash, Hash) -> Hash, a: Hash, hs: seq<Hash>, gs: seq<Hash>)
    requires Injective(dh) && |hs| > |gs| && Fold(dh, a, hs) == Fold(dh, a, gs)
    ensures !Acyclic(dh)
  {
    var n := |hs| - |gs|;
    assert hs == hs[..n] + hs[n..];
    FoldAppend(dh, a, hs[..n], hs[n..]);
    FoldIsInjective(dh, Fold(dh, a, hs[..n]), hs[n..], a, gs);
    assert hs[..n] != [] && Fold(dh, a, hs[..n]) == a;
  }

  // -------------------------------------------------------------------------
  // Checking a reply
  // -------------------------------------------------------------------------

  predicate Verifies(dh: (Hash, Hash) -> Hash, prev: Hash, next: Hash, r: Reply) {
    prev == r.prev && Fold(dh, r.prev, r.hashes) == next
  }

  method VerifyCheckpoint(dh: (Hash, Hash) -> Hash, prevCheckpoint: Hash, nextCheckpoint: Hash, r: Reply) returns (ok: bool)
    ensures ok <==> Verifies(dh, prevCheckpoint, nextCheckpoint, r)
  {
    if prevCheckpoint != r.prev {
      return false;
    }
    var last := r.prev;
    var i := 0;
    while i < |r.hashes|
      invariant 0 <= i <= |r.hashes|
      invariant last == Fold(dh, r.prev, r.hashes[..i])
    {
      last := dh(r.hashes[i], last);
      assert r.hashes[..i + 1][..i] == r.hashes[..i];
      i := i + 1;
    }
    assert r.hashes[..i] == r.hashes;
    ok := last == nextCheckpoint;
  }

  /** A verified reply of the right length, or of any length if hashing is acyclic, holds the true headers. */
  lemma VerifiedIsGenuine(dh: (Hash, Hash) -> Hash, filters: seq<Hash>, chain: seq<Hash>, from: nat, to: nat, r: Reply)
    requires Injective(dh) && IsChain(dh, filters, chain) && from <= to < |chain|
    requires Verifies(dh, chain[from], chain[to], r)
    requires |r.hashes| == to - from || Acyclic(dh)
    ensures r.hashes == filters[from..to]
  {
    ChainFolds(dh, filters, chain, from, to);
    if |r.hashes| != to - from {
      SameLength(dh, chain[from], r.hashes, filters[from..to]);
    }
    FoldIsInjective(dh, r.prev, r.hashes, chain[from], filters[from..to]);
  }

  /** If some header were its own successor, a reply of one hash would be accepted for a whole interval. */
  lemma ShortReplyVerifies(dh: (Hash, Hash) -> Hash, f: Hash, x: Hash, stop: BlockHash)
    requires dh(f, x) == x
    ensures var filters, chain := seq(Boundary(1), _ => f), seq(Boundary(1) + 1, _ => x);
      IsChain(dh, filters, chain) && Verifies(dh, chain[0], chain[Boundary(1)], Reply(0, stop, x, [f]))
  {
    var one := [f];
    assert one[..0] == [] && Fold(dh, x, one) == dh(f, Fold(dh, x, []));
  }

  lemma GenuineHeaders(dh: (Hash, Hash) -> Hash, filters: seq<Hash>, chain: seq<Hash>, from: nat, to: nat)
    requires IsChain(dh, filters, chain) && from <= to < |chain|
    ensures Headers(dh, chain[from], filters[from..to]) == chain[from + 1..to + 1]
  {
    var hs := filters[from..to];
    HeadersAt(dh, chain[from], hs);
    forall i | 0 <= i < |hs|
      ensures Headers(dh, chain[from], hs)[i] == chain[from + 1..to + 1][i]
    {
      ChainFolds(dh, filters, chain, from, from + i + 1);
      assert hs[..i + 1] == filters[from..from + i + 1];
    }
  }

  // -------------------------------------------------------------------------
  // The synchronisation
  // -------------------------------------------------------------------------

  /** The world the node is in: how headers are hashed, the true filters and headers, and the block headers. */
  datatype World = World(
    dh: (Hash, Hash) -> Hash,
    filters: seq<Hash>,
    chain: seq<Hash>,
    heightOf: BlockHash -> nat,
    blockAt: nat -> BlockHash)

  ghost predicate Sane(w: World, checkpoints: seq<Hash>) {
    && IsChain(w.dh, w.filters, w.chain)
    && Boundary(|checkpoints|) < |w.chain|
    && (forall k :: 0 <= k < |checkpoints| ==> checkpoints[k] == w.chain[Boundary(k + 1)])
    && (forall n :: w.heightOf(w.blockAt(n)) == n)
  }

  /** The last block of an interval. */
  function StopOf(w: World, k: nat): BlockHash { w.blockAt(Boundary(k + 1)) }

  ghost predicate Asked(w: World, stops: map<BlockHash, nat>, k: nat) {
    StopOf(w, k) in stops && stops[StopOf(w, k)] == k
  }

  /** Every interval that has arrived is stashed or below the height. */
  ghost predicate Settled(arrived: set<nat>, stash: map<nat, Reply>, height: nat) {
    forall k :: k in arrived ==> k in stash || Boundary(k + 1) <= height
  }

  class CheckpointSync {
    const dh: (Hash, Hash) -> Hash
    const heightOf: BlockHash -> nat
    const genesisHeader: Hash
    const filterType: nat
    const checkpoints: seq<Hash>
    const initialFilterHeader: Hash
    const stopHashes: map<BlockHash, nat>
    /** The first interval asked for. */
    const first: nat
    var store: seq<Hash>
    var filterHeaderTip: nat
    var curHeader: Hash
    var curHeight: nat
    var queryResponses: map<nat, Reply>

    ghost const world: World
    /** The intervals for which a verified reply has come in. */
    ghost var arrived: set<nat>

    ghost predicate InWorld()
    {
      && Sane(world, checkpoints)
      && dh == world.dh && heightOf == world.heightOf && genesisHeader == world.chain[0]
      && (forall h :: h in stopHashes ==> stopHashes[h] < |checkpoints| && h == StopOf(world, stopHashes[h]))
      && (forall k :: first <= k < |checkpoints| ==> Asked(world, stopHashes, k))
    }

    /** The true reply for an interval. */
    ghost predicate True(k: nat, r: Reply)
      requires InWorld() && k < |checkpoints|
    {
      && r.prev == world.chain[Boundary(k)]
      && r.hashes == world.filters[Boundary(k)..Boundary(k + 1)]
      && r.stopHash == StopOf(world, k)
    }

    /** The store is the true chain up to the current height, which is at a checkpoint unless nothing was
        written yet. */
    ghost predicate OnChain()
      reads this
    {
      && InWorld()
      && curHeight < |world.chain| && store == world.chain[..curHeight + 1] && curHeader == world.chain[curHeight]
      && (curHeight % 1000 == 0 || curHeader == initialFilterHeader)
      && Boundary(first) <= curHeight
    }

    /** A stash of true replies for intervals from `from` on. */
    ghost predicate Stash(stash: map<nat, Reply>, from: nat)
      requires InWorld()
    {
      forall k :: k in stash ==> from <= k < |checkpoints| && True(k, stash[k])
    }

    /** The stash holds true replies for ranges beyond the current one, and every interval that has arrived is
        in it or written. */
    ghost predicate Valid()
      reads this
    {
      && OnChain()
      && Stash(queryResponses, IntervalOf(curHeight))
      && (forall k :: k in queryResponses ==> Boundary(k) > curHeight)
      && Settled(arrived, queryResponses, curHeight)
    }

    /** Asks for every interval from the one the store is in. It assumes that the store is on the checkpointed
        chain. */
    constructor (w: World, filterType: nat, checkpoints: seq<Hash>, store: seq<Hash>)
      requires Sane(w, checkpoints) && store != [] && |store| <= |w.chain| && store == w.chain[..|store|]
      ensures Valid() && this.checkpoints == checkpoints && this.store == store && world == w
      ensures arrived == {} && queryResponses == map[] && this.filterType == filterType
      ensures first == IntervalOf(|store| - 1)
      ensures forall k :: IntervalOf(|store| - 1) <= k < |checkpoints| ==> Asked(w, stopHashes, k)
    {
      world := w;
      dh, heightOf, genesisHeader := w.dh, w.heightOf, w.chain[0];
      this.filterType, this.checkpoints, this.store := filterType, checkpoints, store;
      filterHeaderTip := |store| - 1;
      curHeader, curHeight := store[|store| - 1], |store| - 1;
      initialFilterHeader := store[|store| - 1];
      first := IntervalOf(|store| - 1);
      queryResponses := map[];
      arrived := {};
      var stops: map<BlockHash, nat> := map[];
      var current := IntervalOf(|store| - 1);
      while current < |checkpoints|
        invariant forall h :: h in stops ==> stops[h] < |checkpoints| && h == StopOf(w, stops[h])
        invariant forall k :: IntervalOf(|store| - 1) <= k < |checkpoints| && k < current ==> Asked(w, stops, k)
      {
        var stop := StopOf(w, current);
        ghost var before := stops;
        stops := stops[stop := current];
        forall k | IntervalOf(|store| - 1) <= k < |checkpoints| && k < current + 1
          ensures Asked(w, stops, k)
        {
          assert w.heightOf(StopOf(w, k)) == Boundary(k + 1) && w.heightOf(stop) == Boundary(current + 1);
          assert k < current ==> Asked(w, before, k);
        }
        current := current + 1;
      }
      stopHashes := stops;
    }

    /** Writes a reply's headers after the tip, if it continues from it. A reply without hashes has no last
        header to index the store by, which is an error too. */
    method WriteCFHeaders(r: Reply) returns (last: Option<Hash>)
      requires store != []
      modifies this`store, this`filterHeaderTip
      ensures last.Some? <==> old(store)[|old(store)| - 1] == r.prev && r.hashes != []
      ensures last.None? ==> store == old(store) && filterHeaderTip == old(filterHeaderTip)
      ensures last.Some? ==>
        && last.value == Fold(dh, r.prev, r.hashes)
        && store == old(store) + Headers(dh, r.prev, r.hashes) && filterHeaderTip == heightOf(r.stopHash)
    {
      if store[|store| - 1] != r.prev {
        return None;
      }
      var lastHeader := r.prev;
      var batch := [];
      var i := 0;
      while i < |r.hashes|
        invariant 0 <= i <= |r.hashes|
        invariant lastHeader == Fold(dh, r.prev, r.hashes[..i]) && batch == Headers(dh, r.prev, r.hashes[..i])
      {
        lastHeader := dh(r.hashes[i], lastHeader);
        assert r.hashes[..i + 1][..i] == r.hashes[..i];
        batch := batch + [lastHeader];
        i := i + 1;
      }
      assert r.hashes[..i] == r.hashes;
      if |batch| == 0 {
        return None;
      }
      store := store + batch;
      filterHeaderTip := heightOf(r.stopHash);
      last := Some(lastHeader);
    }

    /** The index a reply is accepted for: it answers the query, and it leads from one checkpoint to the next. */
    ghost function AcceptedFor(q: Query, r: Reply): Option<nat>
      requires InWorld()
    {
      if q.filterType != r.filterType || q.stopHash != r.stopHash || r.stopHash !in stopHashes then None
      else
        var k := stopHashes[r.stopHash];
        if Verifies(dh, world.chain[Boundary(k)], world.chain[Boundary(k + 1)], r) then Some(k) else None
    }

    /** The true reply to the query for an interval is accepted for it. */
    lemma TrueReplyIsAccepted(q: Query, r: Reply, k: nat)
      requires InWorld() && first <= k < |checkpoints| && IsTrueReply(q, r, k)
      ensures AcceptedFor(q, r) == Some(k)
    {
      assert Asked(world, stopHashes, k);
      ChainFolds(dh, world.filters, world.chain, Boundary(k), Boundary(k + 1));
    }

    /** The reply has the query's filter type and stop hash, which are the interval's, and its true contents. */
    ghost predicate IsTrueReply(q: Query, r: Reply, k: nat)
      requires InWorld() && k < |checkpoints|
    {
      q == Query(r.filterType, StopOf(world, k)) && True(k, r)
    }

    /** The reply is the rest of the true one for the interval the tip is in. */
    ghost predicate Continues(k: nat, r: Reply)
      reads this
    {
      && OnChain() && k < |checkpoints| && Boundary(k) <= curHeight < Boundary(k + 1)
      && r.stopHash == StopOf(world, k)
      && r.prev == world.chain[curHeight] && r.hashes == world.filters[curHeight..Boundary(k + 1)]
    }

    /** Writes a reply for interval `k`, whatever is in it; a write that fails is a panic. */
    method WriteCurrent(k: nat, r: Reply) returns (panicked: bool)
      requires store != []
      modifies this`store, this`filterHeaderTip, this`curHeader, this`curHeight
      ensures store != []
      ensures !panicked ==> curHeight == Boundary(k + 1) && |store| == old(|store|) + |r.hashes|
      ensures old(Continues(k, r)) ==> !panicked && OnChain() && filterHeaderTip == curHeight
    {
      ghost var good := Continues(k, r);
      if good {
        GenuineHeaders(dh, world.filters, world.chain, curHeight, Boundary(k + 1));
        ChainFolds(dh, world.filters, world.chain, curHeight, Boundary(k + 1));
        assert world.heightOf(StopOf(world, k)) == Boundary(k + 1);
      }
      HeadersAt(dh, r.prev, r.hashes);
      ghost var height := curHeight;
      var written := WriteCFHeaders(r);
      panicked := written.None?;
      if !panicked {
        curHeader := written.value;
        curHeight := Boundary(k + 1);
        assert good ==> store == world.chain[..height + 1] + world.chain[height + 1..curHeight + 1];
      }
    }

    /** Every reply in the stash has a whole interval's hashes. */
    ghost predicate FullStash(stash: map<nat, Reply>) {
      forall k :: k in stash ==> |stash[k].hashes| == 1000
    }

    lemma TakeFromStash(stash: map<nat, Reply>, index: nat)
      requires InWorld() && Stash(stash, index) && index in stash
      ensures Stash(stash - {index}, index + 1) && index < |checkpoints| && True(index, stash[index])
      ensures forall a :: Settled(a, stash, Boundary(index)) ==> Settled(a, stash - {index}, Boundary(index + 1))
    {
      var rest := stash - {index};
      forall a | Settled(a, stash, Boundary(index))
        ensures Settled(a, rest, Boundary(index + 1))
      {
        forall k | k in a
          ensures k in rest || Boundary(k + 1) <= Boundary(index + 1)
        {
        }
      }
    }

    /** The store is on the chain at the start of an interval, and the stash goes on from there. */
    ghost predicate Ready(start: nat)
      reads this
      requires InWorld()
    {
      && OnChain() && curHeight == Boundary(start) && filterHeaderTip == curHeight
      && Stash(queryResponses, start) && Settled(arrived, queryResponses, curHeight)
    }

    /** Writes whatever the stash holds from the current height on. */
    method DrainStash(start: nat) returns (panicked: bool)
      requires InWorld() && store != [] && curHeight == Boundary(start)
      modifies this`store, this`filterHeaderTip, this`curHeader, this`curHeight, this`queryResponses
      ensures store != []
      ensures old(Ready(start)) ==>
        && !panicked && Valid() && filterHeaderTip == curHeight && curHeight >= old(curHeight)
        && (curHeight == old(curHeight) || curHeight <= Boundary(|checkpoints|))
      ensures old(FullStash(queryResponses)) && !panicked ==> |store| - curHeight == old(|store| - curHeight)
    {
      var index := start;
      ghost var good, full, ahead := Ready(start), FullStash(queryResponses), |store| - curHeight;
      panicked := false;
      while index in queryResponses && !panicked
        invariant store != [] && index >= start && Drained(start, index, panicked, good, full, ahead)
        decreases |queryResponses.Keys|, !panicked
      {
        ghost var keys := queryResponses.Keys;
        panicked := WriteNext(index);
        Fewer(keys, queryResponses.Keys, index);
        index := index + 1;
      }
      if good {
        ReadyIsValid(index);
      }
    }

    /** When the stash does not go on, it holds only later intervals. */
    lemma ReadyIsValid(index: nat)
      requires InWorld() && Ready(index) && index !in queryResponses
      ensures Valid()
    {
    }

    /** After some writes: what holds if everything was right at first, and if all stashed replies were full. */
    ghost predicate Drained(start: nat, index: nat, panicked: bool, good: bool, full: bool, ahead: int)
      reads this
      requires InWorld()
    {
      && (!panicked ==> curHeight == Boundary(index))
      && (good ==> !panicked && Ready(index) && (index == start || index <= |checkpoints|))
      && (full ==> FullStash(queryResponses) && (!panicked ==> |store| - curHeight == ahead))
    }

    /** Writes the stashed reply for the interval the tip is at. */
    method WriteNext(index: nat) returns (panicked: bool)
      requires InWorld() && store != [] && curHeight == Boundary(index) && index in queryResponses
      modifies this`store, this`filterHeaderTip, this`curHeader, this`curHeight, this`queryResponses
      ensures store != [] && queryResponses == old(queryResponses) - {index}
      ensures !panicked ==> curHeight == Boundary(index + 1)
      ensures old(Ready(index)) ==> !panicked && Ready(index + 1) && index < |checkpoints|
      ensures !panicked && |old(queryResponses)[index].hashes| == 1000 ==> |store| - curHeight == old(|store| - curHeight)
    {
      ghost var good := Ready(index);
      if good {
        TakeFromStash(queryResponses, index);
      }
      var r := queryResponses[index];
      queryResponses := queryResponses - {index};
      assert good ==> Continues(index, r);
      panicked := WriteCurrent(index, r);
    }

    lemma Fewer(keys: set<nat>, fewer: set<nat>, k: nat)
      requires k in keys && fewer == keys - {k}
      ensures |fewer| < |keys|
    {
    }

    /** Which interval a reply is for, if it is acceptable. */
    method Check(q: Query, r: Reply) returns (index: Option<nat>)
      requires InWorld()
      ensures index == AcceptedFor(q, r)
      ensures forall k: nat :: first <= k < |checkpoints| && IsTrueReply(q, r, k) ==> index == Some(k)
      ensures index.Some? ==>
        && index.value < |checkpoints|
        && q.filterType == r.filterType && q.stopHash == r.stopHash == StopOf(world, index.value)
        && r.prev == world.chain[Boundary(index.value)]
        && Fold(dh, r.prev, r.hashes) == world.chain[Boundary(index.value + 1)]
      ensures index.Some? && Injective(dh) ==> (True(index.value, r) <==> |r.hashes| == 1000)
      ensures index.Some? && Injective(dh) && Acyclic(dh) ==> |r.hashes| == 1000
    {
      forall k: nat | first <= k < |checkpoints| && IsTrueReply(q, r, k)
        ensures AcceptedFor(q, r) == Some(k)
      {
        TrueReplyIsAccepted(q, r, k);
      }
      if q.filterType != r.filterType || q.stopHash != r.stopHash || r.stopHash !in stopHashes {
        return None;
      }
      var k := stopHashes[r.stopHash];
      var prev := if k > 0 then checkpoints[k - 1] else genesisHeader;
      var ok := VerifyCheckpoint(dh, prev, checkpoints[k], r);
      if !ok {
        return None;
      }
      if Injective(dh) && (|r.hashes| == 1000 || Acyclic(dh)) {
        VerifiedIsGenuine(dh, world.filters, world.chain, Boundary(k), Boundary(k + 1), r);
      }
      index := Some(k);
    }

    /** A reply for the interval the tip is in: the part that is already stored is left out, and what the stash
        has next follows. */
    method WriteFrom(index: nat, r: Reply) returns (panicked: bool)
      requires InWorld() && store != [] && index < |checkpoints| && Boundary(index) <= curHeight < Boundary(index + 1)
      modifies this`store, this`filterHeaderTip, this`curHeader, this`curHeight, this`queryResponses
      ensures store != []
      ensures True(index, r) && old(OnChain() && Stash(queryResponses, index + 1)
                                    && Settled(arrived, queryResponses, Boundary(index + 1))) ==>
        && !panicked && Valid() && filterHeaderTip == curHeight
        && old(curHeight) <= curHeight <= Boundary(|checkpoints|)
      ensures old(OnChain() && FullStash(queryResponses)) && |r.hashes| != 1000 ==> panicked || |store| != curHeight + 1
    {
      ghost var onChain, height := OnChain(), curHeight;
      var rest := r;
      if curHeader == initialFilterHeader {
        var offset := curHeight + 1 - (Boundary(index) + 1);
        if offset > |r.hashes| {
          return true;
        }
        rest := r.(prev := curHeader, hashes := r.hashes[offset..]);
      }
      assert onChain && True(index, r) ==> rest.hashes == world.filters[curHeight..Boundary(index + 1)];
      assert onChain ==> |rest.hashes| == |r.hashes| - (height - Boundary(index));
      panicked := WriteCurrent(index, rest);
      if !panicked {
        panicked := DrainStash(index + 1);
      }
    }

    /** A reply for an interval is stashed, ignored or written together with what it releases from the stash. */
    method Place(index: nat, r: Reply) returns (panicked: bool)
      requires InWorld() && store != [] && index < |checkpoints|
      modifies this`store, this`filterHeaderTip, this`curHeader, this`curHeight, this`queryResponses, this`arrived
      ensures store != [] && arrived == old(arrived) + {index}
      ensures old(Valid()) && (True(index, r) || Boundary(index + 1) <= old(curHeight)) ==>
        && Valid() && !panicked && curHeight >= old(curHeight)
        && (curHeight == old(curHeight) || curHeight <= Boundary(|checkpoints|))
        && (old(filterHeaderTip == curHeight) ==> filterHeaderTip == curHeight)
      ensures old(Valid()) && |r.hashes| != 1000 && Boundary(index + 1) > old(curHeight) ==> panicked || !Valid()
    {
      panicked := false;
      var startHeight, lastHeight := Boundary(index) + 1, Boundary(index + 1);
      if startHeight > curHeight + 1 {
        Keep(index, r);
        return;
      }
      if lastHeight <= curHeight {
        Ignore(index);
        return;
      }
      panicked := Use(index, r);
    }

    /** A reply whose headers are all written already changes nothing. */
    method Ignore(index: nat)
      requires InWorld() && Boundary(index + 1) <= curHeight
      modifies this`arrived
      ensures arrived == old(arrived) + {index} && (old(Valid()) ==> Valid())
    {
      arrived := arrived + {index};
    }

    /** A reply for the interval the tip is in is written. */
    method Use(index: nat, r: Reply) returns (panicked: bool)
      requires InWorld() && store != [] && index < |checkpoints| && Boundary(index) <= curHeight < Boundary(index + 1)
      modifies this`store, this`filterHeaderTip, this`curHeader, this`curHeight, this`queryResponses, this`arrived
      ensures store != [] && arrived == old(arrived) + {index}
      ensures old(Valid()) && True(index, r) ==>
        && Valid() && !panicked && filterHeaderTip == curHeight
        && old(curHeight) <= curHeight <= Boundary(|checkpoints|)
      ensures old(Valid()) && |r.hashes| != 1000 ==> panicked || !Valid()
    {
      if Valid() {
        StashOrWrite(arrived, queryResponses, curHeight, index, r);
        ValidIsFull();
      }
      arrived := arrived + {index};
      panicked := WriteFrom(index, r);
    }

    /** Puts a reply that is too early into the stash. */
    method Keep(index: nat, r: Reply)
      requires InWorld() && index < |checkpoints| && Boundary(index) > curHeight
      modifies this`queryResponses, this`arrived
      ensures queryResponses == old(queryResponses)[index := r] && arrived == old(arrived) + {index}
      ensures old(Valid()) ==> (Valid() <==> True(index, r))
    {
      if Valid() {
        StashOrWrite(arrived, queryResponses, curHeight, index, r);
      }
      arrived := arrived + {index};
      queryResponses := queryResponses[index := r];
      assert index in queryResponses && queryResponses[index] == r;
    }

    lemma ValidIsFull()
      requires Valid()
      ensures FullStash(queryResponses)
    {
    }

    lemma StashOrWrite(arrived: set<nat>, stash: map<nat, Reply>, height: nat, index: nat, r: Reply)
      requires InWorld() && index < |checkpoints|
      requires Stash(stash, IntervalOf(height)) && Settled(arrived, stash, height)
      requires forall k :: k in stash ==> Boundary(k) > height
      ensures Settled(arrived + {index}, stash[index := r], height)
      ensures True(index, r) && Boundary(index) > height ==> Stash(stash[index := r], IntervalOf(height))
      ensures Boundary(index + 1) <= height ==> Settled(arrived + {index}, stash, height)
      ensures Boundary(index) <= height < Boundary(index + 1) ==>
        Stash(stash, index + 1) && Settled(arrived + {index}, stash, Boundary(index + 1))
    {
    }

    /** A reply to a query. It is written, stashed or ignored. With injective hashing an accepted reply keeps the
        store right, and the out-of-order error away, exactly when it has a whole interval's hashes or comes too
        late to matter; the code does not count them, but with acyclic hashing no other reply is accepted. */
    method HandleReply(q: Query, r: Reply) returns (matched: bool, panicked: bool)
      requires InWorld() && store != []
      modifies this`store, this`filterHeaderTip, this`curHeader, this`curHeight, this`queryResponses, this`arrived
      ensures store != []
      ensures matched <==> AcceptedFor(q, r).Some?
      ensures (exists k: nat :: first <= k < |checkpoints| && IsTrueReply(q, r, k)) ==> matched
      ensures arrived == if matched then old(arrived) + {AcceptedFor(q, r).value} else old(arrived)
      ensures old(Valid()) && Injective(dh) ==>
        (Valid() && !panicked <==> !matched || |r.hashes| == 1000 || Boundary(AcceptedFor(q, r).value + 1) <= old(curHeight))
      ensures matched && Injective(dh) && Acyclic(dh) ==> |r.hashes| == 1000
      ensures old(Valid()) && Injective(dh) && Valid() && !panicked ==>
        && curHeight >= old(curHeight)
        && (curHeight == old(curHeight) || curHeight <= Boundary(|checkpoints|))
        && (old(filterHeaderTip == curHeight) ==> filterHeaderTip == curHeight)
    {
      var index := Check(q, r);
      matched, panicked := index.Some?, false;
      if matched {
        panicked := Place(index.value, r);
      }
    }

    /** Where writing every interval in order would end. */
    function InOrderHeight(start: nat): nat {
      if start < Boundary(|checkpoints|) then Boundary(|checkpoints|) else start
    }

    /** The replies that matter have a whole interval's hashes. */
    ghost predicate AllFull(replies: seq<(Query, Reply)>) {
      Acyclic(dh) || forall i :: 0 <= i < |replies| ==> |replies[i].1.hashes| == 1000
    }

    /** The true reply to the query for an interval is among these. */
    ghost predicate Answered(replies: seq<(Query, Reply)>, k: nat)
      requires InWorld() && k < |checkpoints|
    {
      exists j :: 0 <= j < |replies| && IsTrueReply(replies[j].0, replies[j].1, k)
    }

    /** Any replies in any order, with whatever repetitions. If for every interval asked for the true reply to its
        query is among them, the store is the one that writing in order gives, and nothing stays in the stash. */
    method HandleReplies(replies: seq<(Query, Reply)>) returns (panicked: bool)
      requires InWorld() && store != []
      modifies this`store, this`filterHeaderTip, this`curHeader, this`curHeight, this`queryResponses, this`arrived
      ensures old(Valid() && arrived == {} && filterHeaderTip == curHeight) && Injective(dh) && AllFull(replies) ==>
        && Valid() && !panicked && filterHeaderTip == curHeight == |store| - 1
        && ((forall k: nat :: first <= k < |checkpoints| ==> Answered(replies, k)) ==>
              && queryResponses.Keys == {} && curHeight == InOrderHeight(old(curHeight))
              && store == world.chain[..curHeight + 1]
              && forall k :: 0 <= k < |checkpoints| ==> store[Boundary(k + 1)] == checkpoints[k])
    {
      ghost var good := Valid() && arrived == {} && filterHeaderTip == curHeight && Injective(dh) && AllFull(replies);
      panicked := false;
      var i := 0;
      while i < |replies| && !panicked
        invariant 0 <= i <= |replies| && store != []
        invariant good ==> Valid() && !panicked && filterHeaderTip == curHeight >= old(curHeight)
        invariant good ==> curHeight == old(curHeight) || curHeight <= Boundary(|checkpoints|)
        invariant good ==> forall k: nat :: first <= k < |checkpoints| && Answered(replies[..i], k) ==> k in arrived
      {
        AnsweredMore(replies, i);
        var matched;
        matched, panicked := HandleReply(replies[i].0, replies[i].1);
        i := i + 1;
      }
      if good && forall k: nat :: first <= k < |checkpoints| ==> Answered(replies, k) {
        assert replies[..i] == replies;
        Complete(first);
      }
    }

    lemma AnsweredMore(replies: seq<(Query, Reply)>, i: nat)
      requires InWorld() && i < |replies|
      ensures forall k: nat :: first <= k < |checkpoints| && Answered(replies[..i + 1], k) ==>
        Answered(replies[..i], k) || AcceptedFor(replies[i].0, replies[i].1) == Some(k)
    {
      var front, more := replies[..i], replies[..i + 1];
      assert more[i] == replies[i] && forall j :: 0 <= j < i ==> more[j] == front[j];
      forall k: nat | first <= k < |checkpoints| && Answered(more, k)
        ensures Answered(front, k) || AcceptedFor(replies[i].0, replies[i].1) == Some(k)
      {
        var j :| 0 <= j < |more| && IsTrueReply(more[j].0, more[j].1, k);
        if j < i {
          assert IsTrueReply(front[j].0, front[j].1, k);
        } else {
          TrueReplyIsAccepted(replies[i].0, replies[i].1, k);
        }
      }
    }

    /** All queried intervals have been answered. */
    ghost predicate AllArrived(first: nat)
      reads this
    {
      forall k :: first <= k < |checkpoints| ==> k in arrived
    }

    /** Once everything has arrived nothing is left in the stash and the store reaches the last checkpoint. */
    lemma Complete(first: nat)
      requires Valid() && AllArrived(first) && Boundary(first) <= curHeight
      ensures queryResponses.Keys == {} && curHeight >= Boundary(|checkpoints|)
      ensures forall k :: 0 <= k < |checkpoints| ==> store[Boundary(k + 1)] == checkpoints[k]
    {
      var c := IntervalOf(curHeight);
      assert c < |checkpoints| ==> c in arrived;
    }
  }
}
