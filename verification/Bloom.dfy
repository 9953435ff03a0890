/** The bloom filter that a thin client gives its peers, legacy/src/bloom.cpp, after BIP 37, section "Filter matching
    algorithm". */
module Bloom {

  type Hash(==, !new)
  type Key = seq<nat>

  datatype OutPoint = OutPoint(hash: Hash, n: nat)

  /** `pushes` is what reading the script yields, operation by operation, up to where it cannot be read; an
      operation that pushes nothing yields the empty key. `isPubKey`: a pay-to-public-key or multisig script. */
  datatype Output = Output(pushes: seq<Key>, isPubKey: bool)
  datatype Input = Input(prevout: OutPoint, pushes: seq<Key>)
  datatype Tx = Tx(hash: Hash, vin: seq<Input>, vout: seq<Output>)

  /** The hash functions, and the bytes of hashes and outpoints. */
  datatype Keys = Keys(murmur: (nat, Key) -> nat, ofHash: Hash -> Key, ofPoint: OutPoint -> Key)

  datatype Params = Params(keys: Keys, nHashFuncs: nat, nFlags: nat)

  const UPDATE_ALL: nat := 1
  const UPDATE_P2PUBKEY_ONLY: nat := 2

  // -------------------------------------------------------------------------
  // Bits
  // -------------------------------------------------------------------------

  function Mask(k: nat): bv8
    requires k < 8
  {
    if k == 0 then 0x01 else if k == 1 then 0x02 else if k == 2 then 0x04 else if k == 3 then 0x08
    else if k == 4 then 0x10 else if k == 5 then 0x20 else if k == 6 then 0x40 else 0x80
  }

  predicate Has(b: bv8, k: nat)
    requires k < 8
  {
    b & Mask(k) != 0
  }

  lemma SetBit(b: bv8, k: nat, j: nat)
    requires k < 8 && j < 8
    ensures Has(b | Mask(k), j) <==> Has(b, j) || j == k
  {
  }

  lemma FullByte(k: nat)
    requires k < 8
    ensures Has(0xff, k) && 0xff | Mask(k) == 0xff
  {
  }

  predicate On(data: seq<bv8>, j: nat)
    requires j < 8 * |data|
  {
    Has(data[j / 8], j % 8)
  }

  function SwitchOn(data: seq<bv8>, j: nat): (r: seq<bv8>)
    requires j < 8 * |data|
    ensures |r| == |data|
  {
    data[j / 8 := data[j / 8] | Mask(j % 8)]
  }

  lemma SwitchedOn(data: seq<bv8>, j: nat, i: nat)
    requires j < 8 * |data| && i < 8 * |data|
    ensures On(SwitchOn(data, j), i) <==> On(data, i) || i == j
  {
    SetBit(data[j / 8], j % 8, i % 8);
  }

  // -------------------------------------------------------------------------
  // Inserting and looking up
  // -------------------------------------------------------------------------

  function Index(p: Params, size: nat, i: nat, key: Key): (j: nat)
    requires size > 0
    ensures j < 8 * size
  {
    p.keys.murmur(i, key) % (8 * size)
  }

  predicate IsFull(data: seq<bv8>) { data == [0xff] }

  /** Every bit the key hashes to is set. */
  ghost predicate AllOn(p: Params, data: seq<bv8>, key: Key)
    requires data != []
  {
    forall i :: 0 <= i < p.nHashFuncs ==> On(data, Index(p, |data|, i, key))
  }

  ghost predicate Contains(p: Params, data: seq<bv8>, key: Key)
    requires data != []
  {
    IsFull(data) || AllOn(p, data, key)
  }

  function SetAll(p: Params, data: seq<bv8>, n: nat, key: Key): (r: seq<bv8>)
    requires data != []
    ensures |r| == |data|
  {
    if n == 0 then data else SwitchOn(SetAll(p, data, n - 1, key), Index(p, |data|, n - 1, key))
  }

  function Insert(p: Params, data: seq<bv8>, key: Key): (r: seq<bv8>)
    requires data != []
    ensures |r| == |data|
  {
    if IsFull(data) then data else SetAll(p, data, p.nHashFuncs, key)
  }

  /** Exactly the bits the key hashes to are added. */
  lemma {:induction false} SetAllIs(p: Params, data: seq<bv8>, n: nat, key: Key, j: nat)
    requires data != [] && j < 8 * |data|
    ensures On(SetAll(p, data, n, key), j) <==> On(data, j) || exists i :: 0 <= i < n && Index(p, |data|, i, key) == j
  {
    if n > 0 {
      SetAllIs(p, data, n - 1, key, j);
      SwitchedOn(SetAll(p, data, n - 1, key), Index(p, |data|, n - 1, key), j);
    }
  }

  lemma ShiftIs(b: bv8, k: nat)
    requires k < 8
    ensures (b >> k) & 1 == 1 <==> Has(b, k)
  {
  }

  /** Bit by bit, counting from the low end of each byte: inserting a key sets what its hashes name, and no more. */
  lemma InsertedBits(p: Params, data: seq<bv8>, key: Key, j: nat)
    requires data != [] && data != [0xff] && j < 8 * |data|
    ensures (Insert(p, data, key)[j / 8] >> (j % 8)) & 1 == 1 <==>
      || (data[j / 8] >> (j % 8)) & 1 == 1
      || exists i :: 0 <= i < p.nHashFuncs && p.keys.murmur(i, key) % (8 * |data|) == j
  {
    var r := Insert(p, data, key);
    ShiftIs(data[j / 8], j % 8);
    ShiftIs(r[j / 8], j % 8);
    SetAllIs(p, data, p.nHashFuncs, key, j);
    assert On(r, j) <==> Has(r[j / 8], j % 8);
    assert On(data, j) <==> Has(data[j / 8], j % 8);
    if i :| 0 <= i < p.nHashFuncs && p.keys.murmur(i, key) % (8 * |data|) == j {
      assert Index(p, |data|, i, key) == j;
    }
    if i :| 0 <= i < p.nHashFuncs && Index(p, |data|, i, key) == j {
      assert p.keys.murmur(i, key) % (8 * |data|) == j;
    }
  }


  /** The shortcut for a full one-byte filter agrees with the general case. */
  lemma ShortcutAgrees(p: Params, data: seq<bv8>, key: Key)
    requires data != []
    ensures Contains(p, data, key) <==> AllOn(p, data, key)
    ensures Insert(p, data, key) == SetAll(p, data, p.nHashFuncs, key)
  {
    if IsFull(data) {
      forall i | 0 <= i < p.nHashFuncs
        ensures On(data, Index(p, |data|, i, key))
      {
        FullByte(Index(p, |data|, i, key) % 8);
      }
      FullStays(p, data, p.nHashFuncs, key);
    }
  }

  lemma {:induction false} FullStays(p: Params, data: seq<bv8>, n: nat, key: Key)
    requires IsFull(data)
    ensures SetAll(p, data, n, key) == data
  {
    if n > 0 {
      FullStays(p, data, n - 1, key);
      FullByte(Index(p, |data|, n - 1, key) % 8);
    }
  }

  /** `later` has every bit that `data` has. */
  ghost predicate Grown(data: seq<bv8>, later: seq<bv8>) {
    |later| == |data| && forall j :: 0 <= j < 8 * |data| && On(data, j) ==> On(later, j)
  }

  lemma GrownContains(p: Params, data: seq<bv8>, later: seq<bv8>, key: Key)
    requires data != [] && Grown(data, later) && Contains(p, data, key)
    ensures Contains(p, later, key)
  {
    ShortcutAgrees(p, data, key);
    ShortcutAgrees(p, later, key);
  }

  lemma InsertGrows(p: Params, data: seq<bv8>, key: Key)
    requires data != []
    ensures Grown(data, Insert(p, data, key)) && Contains(p, Insert(p, data, key), key)
  {
    ShortcutAgrees(p, data, key);
    var r := Insert(p, data, key);
    ShortcutAgrees(p, r, key);
    forall j | 0 <= j < 8 * |data| && On(data, j)
      ensures On(r, j)
    {
      SetAllIs(p, data, p.nHashFuncs, key, j);
    }
    forall i | 0 <= i < p.nHashFuncs
      ensures On(r, Index(p, |r|, i, key))
    {
      SetAllIs(p, data, p.nHashFuncs, key, Index(p, |data|, i, key));
    }
  }

  // -------------------------------------------------------------------------
  // Transactions
  // -------------------------------------------------------------------------

  /** Some data element is in the filter. */
  ghost predicate Matches(p: Params, data: seq<bv8>, pushes: seq<Key>)
    requires data != []
  {
    exists k :: 0 <= k < |pushes| && pushes[k] != [] && Contains(p, data, pushes[k])
  }

  predicate Remembers(p: Params, out: Output) {
    || p.nFlags % 4 == UPDATE_ALL
    || (p.nFlags % 4 == UPDATE_P2PUBKEY_ONLY && out.isPubKey)
  }

  ghost function AfterOutput(p: Params, data: seq<bv8>, tx: Tx, i: nat): (r: seq<bv8>)
    requires data != [] && i < |tx.vout|
    ensures |r| == |data|
  {
    if Matches(p, data, tx.vout[i].pushes) && Remembers(p, tx.vout[i])
    then Insert(p, data, p.keys.ofPoint(OutPoint(tx.hash, i))) else data
  }

  /** The filter after the first `n` outputs. */
  ghost function AfterOutputs(p: Params, data: seq<bv8>, tx: Tx, n: nat): (r: seq<bv8>)
    requires data != [] && n <= |tx.vout|
    ensures |r| == |data|
  {
    if n == 0 then data else AfterOutput(p, AfterOutputs(p, data, tx, n - 1), tx, n - 1)
  }

  ghost predicate OutputFound(p: Params, data: seq<bv8>, tx: Tx, n: nat)
    requires data != [] && n <= |tx.vout|
  {
    exists i :: 0 <= i < n && Matches(p, AfterOutputs(p, data, tx, i), tx.vout[i].pushes)
  }

  ghost predicate InputFound(p: Params, data: seq<bv8>, vin: seq<Input>)
    requires data != []
  {
    exists i :: 0 <= i < |vin| && (Contains(p, data, p.keys.ofPoint(vin[i].prevout)) || Matches(p, data, vin[i].pushes))
  }

  ghost function Update(p: Params, data: seq<bv8>, tx: Tx): (r: seq<bv8>)
    requires data != []
    ensures |r| == |data|
  {
    AfterOutputs(p, data, tx, |tx.vout|)
  }

  ghost predicate Relevant(p: Params, data: seq<bv8>, tx: Tx)
    requires data != []
  {
    || Contains(p, data, p.keys.ofHash(tx.hash))
    || OutputFound(p, data, tx, |tx.vout|)
    || InputFound(p, Update(p, data, tx), tx.vin)
  }

  lemma GrownTransitive(a: seq<bv8>, b: seq<bv8>, c: seq<bv8>)
    requires Grown(a, b) && Grown(b, c)
    ensures Grown(a, c)
  {
  }

  lemma {:induction false} OutputsGrow(p: Params, data: seq<bv8>, tx: Tx, m: nat, n: nat)
    requires data != [] && m <= n <= |tx.vout|
    ensures Grown(AfterOutputs(p, data, tx, m), AfterOutputs(p, data, tx, n))
  {
    if m < n {
      OutputsGrow(p, data, tx, m, n - 1);
      var before := AfterOutputs(p, data, tx, n - 1);
      InsertGrows(p, before, p.keys.ofPoint(OutPoint(tx.hash, n - 1)));
      GrownTransitive(AfterOutputs(p, data, tx, m), before, AfterOutputs(p, data, tx, n));
    }
  }

  lemma GrownMatches(p: Params, data: seq<bv8>, later: seq<bv8>, pushes: seq<Key>)
    requires data != [] && Grown(data, later) && Matches(p, data, pushes)
    ensures Matches(p, later, pushes)
  {
    var k :| 0 <= k < |pushes| && pushes[k] != [] && Contains(p, data, pushes[k]);
    GrownContains(p, data, later, pushes[k]);
  }

  /** An output that matches when its turn comes is remembered: always under BLOOM_UPDATE_ALL, and if it pays to a
      public key or is a multisig output under BLOOM_UPDATE_P2PUBKEY_ONLY. */
  lemma MatchedOutputIsRemembered(p: Params, data: seq<bv8>, tx: Tx, i: nat)
    requires data != [] && i < |tx.vout| && Matches(p, AfterOutputs(p, data, tx, i), tx.vout[i].pushes)
    requires p.nFlags % 4 == 1 || (p.nFlags % 4 == 2 && tx.vout[i].isPubKey)
    ensures Contains(p, Update(p, data, tx), p.keys.ofPoint(OutPoint(tx.hash, i)))
  {
    var before := AfterOutputs(p, data, tx, i);
    var point := p.keys.ofPoint(OutPoint(tx.hash, i));
    InsertGrows(p, before, point);
    OutputsGrow(p, data, tx, i + 1, |tx.vout|);
    GrownContains(p, AfterOutputs(p, data, tx, i + 1), Update(p, data, tx), point);
  }

  /** Otherwise the output changes nothing: if it does not match, if the flags ask for no update, or if they ask for
      public keys and multisig only and it is something else. */
  lemma OtherOutputsChangeNothing(p: Params, data: seq<bv8>, tx: Tx, i: nat)
    requires data != [] && i < |tx.vout|
    requires
      || !Matches(p, AfterOutputs(p, data, tx, i), tx.vout[i].pushes)
      || p.nFlags % 4 == 0 || p.nFlags % 4 == 3 || (p.nFlags % 4 == 2 && !tx.vout[i].isPubKey)
    ensures AfterOutputs(p, data, tx, i + 1) == AfterOutputs(p, data, tx, i)
  {
  }

  lemma {:induction false} WithoutUpdates(p: Params, data: seq<bv8>, tx: Tx, n: nat)
    requires data != [] && n <= |tx.vout| && (p.nFlags % 4 == 0 || p.nFlags % 4 == 3)
    ensures AfterOutputs(p, data, tx, n) == data
  {
    if n > 0 {
      WithoutUpdates(p, data, tx, n - 1);
    }
  }

  /** The transaction's hash, a data element of an output, an outpoint it spends or a data element of an input is in
      the filter. */
  ghost predicate Concerns(p: Params, data: seq<bv8>, tx: Tx)
    requires data != []
  {
    || Contains(p, data, p.keys.ofHash(tx.hash))
    || (exists i, k :: 0 <= i < |tx.vout| && 0 <= k < |tx.vout[i].pushes|
                       && tx.vout[i].pushes[k] != [] && Contains(p, data, tx.vout[i].pushes[k]))
    || (exists j :: 0 <= j < |tx.vin| && Contains(p, data, p.keys.ofPoint(tx.vin[j].prevout)))
    || (exists j, k :: 0 <= j < |tx.vin| && 0 <= k < |tx.vin[j].pushes|
                       && tx.vin[j].pushes[k] != [] && Contains(p, data, tx.vin[j].pushes[k]))
  }

  /** Whatever concerns the filter as it is, is relevant; whatever is relevant concerns the filter as it is left. With
      no update asked for the two are the same filter. */
  lemma RelevantIff(p: Params, data: seq<bv8>, tx: Tx)
    requires data != []
    ensures Concerns(p, data, tx) ==> Relevant(p, data, tx)
    ensures Relevant(p, data, tx) ==> Concerns(p, Update(p, data, tx), tx)
    ensures p.nFlags % 4 == 0 ==> Update(p, data, tx) == data
  {
    var later := Update(p, data, tx);
    OutputsGrow(p, data, tx, 0, |tx.vout|);
    if Concerns(p, data, tx) {
      ConcernIsRelevant(p, data, tx);
    }
    if Relevant(p, data, tx) {
      RelevantConcerns(p, data, tx);
    }
    if p.nFlags % 4 == 0 {
      WithoutUpdates(p, data, tx, |tx.vout|);
    }
  }

  lemma ConcernIsRelevant(p: Params, data: seq<bv8>, tx: Tx)
    requires data != [] && Concerns(p, data, tx)
    ensures Relevant(p, data, tx)
  {
    var later := Update(p, data, tx);
    OutputsGrow(p, data, tx, 0, |tx.vout|);
    if Contains(p, data, p.keys.ofHash(tx.hash)) {
    } else if i, k :| 0 <= i < |tx.vout| && 0 <= k < |tx.vout[i].pushes|
                      && tx.vout[i].pushes[k] != [] && Contains(p, data, tx.vout[i].pushes[k]) {
      OutputsGrow(p, data, tx, 0, i);
      GrownMatches(p, data, AfterOutputs(p, data, tx, i), tx.vout[i].pushes);
    } else if j :| 0 <= j < |tx.vin| && Contains(p, data, p.keys.ofPoint(tx.vin[j].prevout)) {
      GrownContains(p, data, later, p.keys.ofPoint(tx.vin[j].prevout));
    } else {
      var j, k :| 0 <= j < |tx.vin| && 0 <= k < |tx.vin[j].pushes|
                  && tx.vin[j].pushes[k] != [] && Contains(p, data, tx.vin[j].pushes[k]);
      GrownMatches(p, data, later, tx.vin[j].pushes);
    }
  }

  lemma RelevantConcerns(p: Params, data: seq<bv8>, tx: Tx)
    requires data != [] && Relevant(p, data, tx)
    ensures Concerns(p, Update(p, data, tx), tx)
  {
    var later := Update(p, data, tx);
    OutputsGrow(p, data, tx, 0, |tx.vout|);
    if Contains(p, data, p.keys.ofHash(tx.hash)) {
      GrownContains(p, data, later, p.keys.ofHash(tx.hash));
    } else if i :| 0 <= i < |tx.vout| && Matches(p, AfterOutputs(p, data, tx, i), tx.vout[i].pushes) {
      OutputsGrow(p, data, tx, i, |tx.vout|);
      GrownMatches(p, AfterOutputs(p, data, tx, i), later, tx.vout[i].pushes);
      var k :| 0 <= k < |tx.vout[i].pushes| && tx.vout[i].pushes[k] != [] && Contains(p, later, tx.vout[i].pushes[k]);
    }
  }

  // -------------------------------------------------------------------------
  // Whole runs
  // -------------------------------------------------------------------------

  datatype Op = Add(key: Key) | See(tx: Tx)

  ghost function Apply(p: Params, data: seq<bv8>, op: Op): (r: seq<bv8>)
    requires data != []
    ensures |r| == |data|
  {
    match op
    case Add(key) => Insert(p, data, key)
    case See(tx) => Update(p, data, tx)
  }

  ghost function Run(p: Params, data: seq<bv8>, ops: seq<Op>, n: nat): (r: seq<bv8>)
    requires data != [] && n <= |ops|
    ensures |r| == |data|
  {
    if n == 0 then data else Apply(p, Run(p, data, ops, n - 1), ops[n - 1])
  }

  lemma {:induction false} RunGrows(p: Params, data: seq<bv8>, ops: seq<Op>, m: nat, n: nat)
    requires data != [] && m <= n <= |ops|
    ensures Grown(Run(p, data, ops, m), Run(p, data, ops, n))
  {
    if m < n {
      RunGrows(p, data, ops, m, n - 1);
      var before := Run(p, data, ops, n - 1);
      match ops[n - 1] {
        case Add(key) => InsertGrows(p, before, key);
        case See(tx) => OutputsGrow(p, before, tx, 0, |tx.vout|);
      }
      GrownTransitive(Run(p, data, ops, m), before, Run(p, data, ops, n));
    }
  }

  /** Nothing that is once in the filter is ever lost. */
  lemma NothingIsLost(p: Params, data: seq<bv8>, ops: seq<Op>, m: nat, n: nat, key: Key)
    requires data != [] && m <= n <= |ops| && Contains(p, Run(p, data, ops, m), key)
    ensures Contains(p, Run(p, data, ops, n), key)
  {
    RunGrows(p, data, ops, m, n);
    GrownContains(p, Run(p, data, ops, m), Run(p, data, ops, n), key);
  }

  /** What was added is found ever after. */
  lemma AddedIsFound(p: Params, data: seq<bv8>, ops: seq<Op>, m: nat, n: nat)
    requires data != [] && m < n <= |ops| && ops[m].Add?
    ensures Contains(p, Run(p, data, ops, n), ops[m].key)
  {
    InsertGrows(p, Run(p, data, ops, m), ops[m].key);
    NothingIsLost(p, data, ops, m + 1, n, ops[m].key);
  }

  /** Once an output matched by a data element, every later transaction that spends it is relevant: under
      BLOOM_UPDATE_ALL whatever the output, under BLOOM_UPDATE_P2PUBKEY_ONLY for public key and multisig outputs. */
  lemma SpendsAreRelevant(p: Params, data: seq<bv8>, ops: seq<Op>, m: nat, n: nat, i: nat, spend: Tx, j: nat)
    requires data != [] && m < n <= |ops| && ops[m].See? && i < |ops[m].tx.vout|
    requires p.nFlags % 4 == 1 || (p.nFlags % 4 == 2 && ops[m].tx.vout[i].isPubKey)
    requires Matches(p, AfterOutputs(p, Run(p, data, ops, m), ops[m].tx, i), ops[m].tx.vout[i].pushes)
    requires j < |spend.vin| && spend.vin[j].prevout == OutPoint(ops[m].tx.hash, i)
    ensures Relevant(p, Run(p, data, ops, n), spend)
  {
    var point := p.keys.ofPoint(OutPoint(ops[m].tx.hash, i));
    MatchedOutputIsRemembered(p, Run(p, data, ops, m), ops[m].tx, i);
    NothingIsLost(p, data, ops, m + 1, n, point);
    var later := Run(p, data, ops, n);
    OutputsGrow(p, later, spend, 0, |spend.vout|);
    GrownContains(p, later, Update(p, later, spend), point);
  }

  /** The same while one transaction is looked at: an output that matched only because an earlier output of the same
      transaction was remembered counts too, so relevance never shrinks as the filter grows. */
  lemma AlwaysRelevant(p: Params, data: seq<bv8>, later: seq<bv8>, tx: Tx)
    requires data != [] && Grown(data, later) && Relevant(p, data, tx)
    ensures Relevant(p, later, tx)
  {
    SameOutputsGrow(p, data, later, tx, |tx.vout|);
    if Contains(p, data, p.keys.ofHash(tx.hash)) {
      GrownContains(p, data, later, p.keys.ofHash(tx.hash));
    } else if OutputFound(p, data, tx, |tx.vout|) {
      var i :| 0 <= i < |tx.vout| && Matches(p, AfterOutputs(p, data, tx, i), tx.vout[i].pushes);
      SameOutputsGrow(p, data, later, tx, i);
      GrownMatches(p, AfterOutputs(p, data, tx, i), AfterOutputs(p, later, tx, i), tx.vout[i].pushes);
    } else {
      var a, b := Update(p, data, tx), Update(p, later, tx);
      var i :| 0 <= i < |tx.vin| && (Contains(p, a, p.keys.ofPoint(tx.vin[i].prevout)) || Matches(p, a, tx.vin[i].pushes));
      if Contains(p, a, p.keys.ofPoint(tx.vin[i].prevout)) {
        GrownContains(p, a, b, p.keys.ofPoint(tx.vin[i].prevout));
      } else {
        GrownMatches(p, a, b, tx.vin[i].pushes);
      }
    }
  }

  lemma {:induction false} SameOutputsGrow(p: Params, data: seq<bv8>, later: seq<bv8>, tx: Tx, n: nat)
    requires data != [] && Grown(data, later) && n <= |tx.vout|
    ensures Grown(AfterOutputs(p, data, tx, n), AfterOutputs(p, later, tx, n))
  {
    if n > 0 {
      SameOutputsGrow(p, data, later, tx, n - 1);
      var a, b := AfterOutputs(p, data, tx, n - 1), AfterOutputs(p, later, tx, n - 1);
      var point := p.keys.ofPoint(OutPoint(tx.hash, n - 1));
      InsertBothGrow(p, a, b, point);
      if Matches(p, a, tx.vout[n - 1].pushes) {
        GrownMatches(p, a, b, tx.vout[n - 1].pushes);
      }
    }
  }

  lemma InsertBothGrow(p: Params, a: seq<bv8>, b: seq<bv8>, key: Key)
    requires a != [] && Grown(a, b)
    ensures Grown(Insert(p, a, key), Insert(p, b, key)) && Grown(a, Insert(p, b, key))
  {
    ShortcutAgrees(p, a, key);
    ShortcutAgrees(p, b, key);
    InsertGrows(p, b, key);
    GrownTransitive(a, b, Insert(p, b, key));
    forall j | 0 <= j < 8 * |a| && On(Insert(p, a, key), j)
      ensures On(Insert(p, b, key), j)
    {
      SetAllIs(p, a, p.nHashFuncs, key, j);
      SetAllIs(p, b, p.nHashFuncs, key, j);
    }
  }

  // -------------------------------------------------------------------------
  // The filter itself
  // -------------------------------------------------------------------------

  class BloomFilter {
    const p: Params
    const vData: array<bv8>

    ghost predicate Valid() { vData.Length > 0 }

    constructor (p: Params, size: nat)
      requires size > 0
      ensures Valid() && fresh(vData) && this.p == p && vData.Length == size
      ensures forall j :: 0 <= j < 8 * size ==> !On(vData[..], j)
    {
      this.p := p;
      vData := new bv8[size](_ => 0);
    }

    method InsertKey(key: Key)
      requires Valid()
      modifies vData
      ensures vData[..] == Insert(p, old(vData[..]), key)
    {
      if vData.Length == 1 && vData[0] == 0xff {
        assert IsFull(vData[..]);
        return;
      }
      ghost var start := vData[..];
      assert !IsFull(start);
      var i := 0;
      while i < p.nHashFuncs
        invariant 0 <= i <= p.nHashFuncs && vData[..] == SetAll(p, start, i, key)
      {
        var nIndex := Index(p, vData.Length, i, key);
        vData[nIndex / 8] := vData[nIndex / 8] | Mask(nIndex % 8);
        i := i + 1;
      }
    }

    method TestBit(nIndex: nat) returns (on: bool)
      requires nIndex < 8 * vData.Length
      ensures on <==> On(vData[..], nIndex)
    {
      on := vData[nIndex / 8] & Mask(nIndex % 8) != 0;
    }

    method ContainsKey(key: Key) returns (found: bool)
      requires Valid()
      ensures found <==> Contains(p, vData[..], key)
    {
      if vData.Length == 1 && vData[0] == 0xff {
        assert IsFull(vData[..]);
        return true;
      }
      ghost var data := vData[..];
      assert !IsFull(data);
      var i := 0;
      while i < p.nHashFuncs
        invariant 0 <= i <= p.nHashFuncs
        invariant forall k :: 0 <= k < i ==> On(data, Index(p, |data|, k, key))
      {
        var on := TestBit(Index(p, vData.Length, i, key));
        if !on {
          return false;
        }
        i := i + 1;
      }
      return true;
    }

    /** Whether some data element of a script is in the filter. */
    method MatchesAny(pushes: seq<Key>) returns (found: bool)
      requires Valid()
      ensures found <==> Matches(p, vData[..], pushes)
    {
      for k := 0 to |pushes|
        invariant forall j :: 0 <= j < k ==> pushes[j] == [] || !Contains(p, vData[..], pushes[j])
      {
        if |pushes[k]| != 0 {
          var here := ContainsKey(pushes[k]);
          if here {
            return true;
          }
        }
      }
      return false;
    }

    /** The outputs, remembering those that match. */
    method UpdateFromOutputs(tx: Tx) returns (found: bool)
      requires Valid()
      modifies vData
      ensures vData[..] == Update(p, old(vData[..]), tx)
      ensures found <==> OutputFound(p, old(vData[..]), tx, |tx.vout|)
    {
      ghost var start := vData[..];
      found := false;
      for i := 0 to |tx.vout|
        invariant vData[..] == AfterOutputs(p, start, tx, i)
        invariant found <==> OutputFound(p, start, tx, i)
      {
        var out := tx.vout[i];
        var here := MatchesAny(out.pushes);
        if here {
          found := true;
          if p.nFlags % 4 == UPDATE_ALL {
            InsertKey(p.keys.ofPoint(OutPoint(tx.hash, i)));
          } else if p.nFlags % 4 == UPDATE_P2PUBKEY_ONLY {
            if out.isPubKey {
              InsertKey(p.keys.ofPoint(OutPoint(tx.hash, i)));
            }
          }
        }
      }
    }

    method IsRelevantAndUpdate(tx: Tx) returns (relevant: bool)
      requires Valid()
      modifies vData
      ensures vData[..] == Update(p, old(vData[..]), tx)
      ensures relevant <==> Relevant(p, old(vData[..]), tx)
    {
      var byHash := ContainsKey(p.keys.ofHash(tx.hash));
      var byOutput := UpdateFromOutputs(tx);
      if byHash || byOutput {
        return true;
      }
      relevant := FoundInInputs(tx.vin);
    }

    method FoundInInputs(vin: seq<Input>) returns (found: bool)
      requires Valid()
      ensures found <==> InputFound(p, vData[..], vin)
    {
      for i := 0 to |vin|
        invariant !InputFound(p, vData[..], vin[..i])
      {
        ghost var front, more := vin[..i], vin[..i + 1];
        assert more[i] == vin[i] && forall j :: 0 <= j < i ==> more[j] == front[j];
        var spent := ContainsKey(p.keys.ofPoint(vin[i].prevout));
        if spent {
          return true;
        }
        var pushed := MatchesAny(vin[i].pushes);
        if pushed {
          return true;
        }
      }
      assert vin[..|vin|] == vin;
      return false;
    }
  }
}
