/** The compact-filter-guided wallet rescan of cmd/spv/rescan.go.

    A block is downloaded and searched only when its BIP 158 filter matches the watch list. The result is that
    this reports exactly what a search of every block reports, because the watch list always covers every
    watched address and every watched outpoint.
 */
module Rescan {
  import opened Wrappers

  type Script(==, !new)
  type Addr(==, !new)
  type TxId(==, !new)

  datatype OutPoint = OutPoint(txid: TxId, index: nat)

  /** A transaction; a coinbase, whose input refers to nothing, has no inputs here. */
  datatype Tx = Tx(id: TxId, ins: seq<OutPoint>, outs: seq<Script>)

  /** A block's filter: how many items it holds, and the membership test. */
  datatype Filter = Filter(size: nat, matchAny: seq<Script> -> bool)

  datatype Block = Block(txs: seq<Tx>, filter: Filter)

  /** What the rescan takes from elsewhere: the script paying to an address, if the address has one; the script
      of every output ever created; and which scripts BIP 158 leaves out of filters. */
  datatype Ledger = Ledger(
    payTo: Addr -> Option<Script>,
    scriptOf: OutPoint -> Script,
    isNil: Script -> bool,
    isOpReturn: Script -> bool)

  // -------------------------------------------------------------------------
  // What filters and the caller guarantee
  // -------------------------------------------------------------------------

  /** BIP 158, section "Contents": previous output scripts, and output scripts that are not OP_RETURN; nil
      scripts are in neither. */
  ghost predicate InFilter(l: Ledger, b: Block, s: Script) {
    && !l.isNil(s)
    && exists t :: 0 <= t < |b.txs| && (SpendsScript(l, b.txs[t], s) || (s in b.txs[t].outs && !l.isOpReturn(s)))
  }

  ghost predicate SpendsScript(l: Ledger, tx: Tx, s: Script) {
    exists i :: 0 <= i < |tx.ins| && l.scriptOf(tx.ins[i]) == s
  }

  /** A filter has no false negatives, and an empty one belongs to a block with nothing in it. */
  ghost predicate Sound(l: Ledger, b: Block) {
    && (b.filter.size == 0 ==> forall s :: !InFilter(l, b, s))
    && (forall list: seq<Script>, s: Script :: s in list && InFilter(l, b, s) ==> b.filter.matchAny(list))
  }

  /** Outputs have the script the ledger records for them. */
  ghost predicate Recorded(l: Ledger, b: Block) {
    forall t, k :: 0 <= t < |b.txs| && 0 <= k < |b.txs[t].outs| ==>
      l.scriptOf(OutPoint(b.txs[t].id, k)) == b.txs[t].outs[k]
  }

  /** Scripts that pay to an address are neither empty nor OP_RETURN. */
  ghost predicate Payable(l: Ledger) {
    forall a :: l.payTo(a).Some? ==> !l.isNil(l.payTo(a).value) && !l.isOpReturn(l.payTo(a).value)
  }

  datatype Input = Input(outpoint: OutPoint, script: Script)

  /** The caller gave a watched outpoint together with its own, non-empty script. */
  ghost predicate Genuine(l: Ledger, inputs: seq<Input>) {
    forall i :: 0 <= i < |inputs| ==>
      inputs[i].script == l.scriptOf(inputs[i].outpoint) && !l.isNil(inputs[i].script)
  }

  // -------------------------------------------------------------------------
  // The watch lists and the search of a block
  // -------------------------------------------------------------------------

  datatype Watch = Watch(addrs: seq<Addr>, inputs: seq<Input>, list: seq<Script>)

  predicate PaysOne(l: Ledger, addrs: seq<Addr>, s: Script) {
    exists i :: 0 <= i < |addrs| && l.payTo(addrs[i]) == Some(s)
  }

  predicate Spends(inputs: seq<Input>, tx: Tx) {
    exists i, j :: 0 <= i < |tx.ins| && 0 <= j < |inputs| && tx.ins[i] == inputs[j].outpoint
  }

  /** The first `k` outputs that pay to a watched address. */
  function PaidInputs(l: Ledger, addrs: seq<Addr>, tx: Tx, k: nat): seq<Input>
    requires k <= |tx.outs|
  {
    if k == 0 then []
    else if PaysOne(l, addrs, tx.outs[k - 1]) then
      PaidInputs(l, addrs, tx, k - 1) + [Input(OutPoint(tx.id, k - 1), tx.outs[k - 1])]
    else PaidInputs(l, addrs, tx, k - 1)
  }

  function Scripts(inputs: seq<Input>): seq<Script> {
    seq(|inputs|, i requires 0 <= i < |inputs| => inputs[i].script)
  }

  /** From now on the paid outputs are watched too. */
  function WatchPaid(l: Ledger, w: Watch, tx: Tx): Watch {
    var paid := PaidInputs(l, w.addrs, tx, |tx.outs|);
    w.(inputs := w.inputs + paid, list := w.list + Scripts(paid))
  }

  /** What is reported about a transaction: whether it redeems and whether it receives. */
  datatype Report = Report(tx: Tx, redeems: bool, receives: bool)

  function ScanTx(l: Ledger, w: Watch, tx: Tx): (Watch, seq<Report>) {
    var redeems := Spends(w.inputs, tx);
    var receives := PaidInputs(l, w.addrs, tx, |tx.outs|) != [];
    (WatchPaid(l, w, tx), if redeems || receives then [Report(tx, redeems, receives)] else [])
  }

  function ScanTxs(l: Ledger, w: Watch, txs: seq<Tx>): (Watch, seq<Report>) {
    if txs == [] then (w, [])
    else
      var (w1, before) := ScanTxs(l, w, txs[..|txs| - 1]);
      var (w2, last) := ScanTx(l, w1, txs[|txs| - 1]);
      (w2, before + last)
  }

  // -------------------------------------------------------------------------
  // Events of a rescan
  // -------------------------------------------------------------------------

  /** `Walked`: a block the rescan walked to itself. `Pushed`: one announced while it is current.
      `Update`: more to watch, without a rewind. */
  datatype Event =
    | Walked(block: Block, scanning: bool)
    | Pushed(block: Block)
    | Update(addrs: seq<Addr>, inputs: seq<Input>, txids: seq<Script>)

  function PayScripts(l: Ledger, addrs: seq<Addr>): seq<Script> {
    if addrs == [] || l.payTo(addrs[0]).None? then []
    else [l.payTo(addrs[0]).value] + PayScripts(l, addrs[1..])
  }

  predicate AllPayable(l: Ledger, addrs: seq<Addr>) {
    forall i :: 0 <= i < |addrs| ==> l.payTo(addrs[i]).Some?
  }

  /** The lists after more was asked for; if some address has no script, `list` gets what precedes it. */
  function Updated(l: Ledger, w: Watch, addrs: seq<Addr>, inputs: seq<Input>, txids: seq<Script>): Watch {
    Watch(w.addrs + addrs, w.inputs + inputs,
          if AllPayable(l, addrs) then w.list + PayScripts(l, addrs) + Scripts(inputs) + txids
          else w.list + PayScripts(l, addrs))
  }

  predicate FilterMatches(f: Filter, list: seq<Script>) {
    f.size != 0 && f.matchAny(list)
  }

  /** One event, as the rescan handles it. */
  function Guided(l: Ledger, w: Watch, e: Event): (Watch, seq<Report>) {
    match e
    case Walked(b, scanning) =>
      if |w.list| != 0 && scanning && FilterMatches(b.filter, w.list) then ScanTxs(l, w, b.txs) else (w, [])
    case Pushed(b) =>
      if b.filter.matchAny(w.list) then ScanTxs(l, w, b.txs) else (w, [])
    case Update(addrs, inputs, txids) => (Updated(l, w, addrs, inputs, txids), [])
  }

  function GuidedRun(l: Ledger, w: Watch, events: seq<Event>): (Watch, seq<seq<Report>>) {
    if events == [] then (w, [])
    else
      var (w1, before) := GuidedRun(l, w, events[..|events| - 1]);
      var (w2, last) := Guided(l, w1, events[|events| - 1]);
      (w2, before + [last])
  }

  // -------------------------------------------------------------------------
  // The reference: search every block for watched addresses and outpoints
  // -------------------------------------------------------------------------

  datatype Wallet = Wallet(addrs: set<Addr>, points: set<OutPoint>)

  ghost predicate PaysWallet(l: Ledger, addrs: set<Addr>, s: Script) {
    exists a :: a in addrs && l.payTo(a) == Some(s)
  }

  ghost function NewPoints(l: Ledger, addrs: set<Addr>, tx: Tx): set<OutPoint> {
    set k | 0 <= k < |tx.outs| && PaysWallet(l, addrs, tx.outs[k]) :: OutPoint(tx.id, k)
  }

  ghost function NaiveTx(l: Ledger, v: Wallet, tx: Tx): (Wallet, seq<Report>) {
    var redeems := exists i :: 0 <= i < |tx.ins| && tx.ins[i] in v.points;
    var receives := exists k :: 0 <= k < |tx.outs| && PaysWallet(l, v.addrs, tx.outs[k]);
    (v.(points := v.points + NewPoints(l, v.addrs, tx)),
     if redeems || receives then [Report(tx, redeems, receives)] else [])
  }

  ghost function NaiveTxs(l: Ledger, v: Wallet, txs: seq<Tx>): (Wallet, seq<Report>) {
    if txs == [] then (v, [])
    else
      var (v1, before) := NaiveTxs(l, v, txs[..|txs| - 1]);
      var (v2, last) := NaiveTx(l, v1, txs[|txs| - 1]);
      (v2, before + last)
  }

  ghost function AddrSet(addrs: seq<Addr>): set<Addr> { set i | 0 <= i < |addrs| :: addrs[i] }
  ghost function PointSet(inputs: seq<Input>): set<OutPoint> { set i | 0 <= i < |inputs| :: inputs[i].outpoint }

  ghost function Naive(l: Ledger, v: Wallet, e: Event): (Wallet, seq<Report>) {
    match e
    case Walked(b, scanning) => if scanning then NaiveTxs(l, v, b.txs) else (v, [])
    case Pushed(b) => NaiveTxs(l, v, b.txs)
    case Update(addrs, inputs, _) => (Wallet(v.addrs + AddrSet(addrs), v.points + PointSet(inputs)), [])
  }

  ghost function NaiveRun(l: Ledger, v: Wallet, events: seq<Event>): (Wallet, seq<seq<Report>>) {
    if events == [] then (v, [])
    else
      var (v1, before) := NaiveRun(l, v, events[..|events| - 1]);
      var (v2, last) := Naive(l, v1, events[|events| - 1]);
      (v2, before + [last])
  }

  // -------------------------------------------------------------------------
  // What every event keeps
  // -------------------------------------------------------------------------

  /** Every watched address and every watched outpoint has its script in `list`. */
  ghost predicate Covered(l: Ledger, w: Watch) {
    && (forall i :: 0 <= i < |w.addrs| ==> l.payTo(w.addrs[i]).Some? && l.payTo(w.addrs[i]).value in w.list)
    && (forall i :: 0 <= i < |w.inputs| ==> w.inputs[i].script in w.list)
    && Genuine(l, w.inputs)
  }

  ghost predicate Simulates(w: Watch, v: Wallet) {
    && (forall a :: a in v.addrs <==> a in w.addrs)
    && (forall p :: p in v.points <==> p in PointSet(w.inputs))
  }

  lemma PaysAgree(l: Ledger, w: Watch, v: Wallet, s: Script)
    requires Simulates(w, v)
    ensures PaysOne(l, w.addrs, s) <==> PaysWallet(l, v.addrs, s)
  {
    if PaysOne(l, w.addrs, s) {
      var i :| 0 <= i < |w.addrs| && l.payTo(w.addrs[i]) == Some(s);
      assert w.addrs[i] in v.addrs;
    }
    if PaysWallet(l, v.addrs, s) {
      var a :| a in v.addrs && l.payTo(a) == Some(s);
      var i :| 0 <= i < |w.addrs| && w.addrs[i] == a;
    }
  }

  ghost predicate IsPaid(l: Ledger, addrs: seq<Addr>, tx: Tx, input: Input) {
    && input.outpoint.txid == tx.id && input.outpoint.index < |tx.outs|
    && input.script == tx.outs[input.outpoint.index]
    && PaysOne(l, addrs, input.script)
  }

  lemma {:induction false} PaidAt(l: Ledger, addrs: seq<Addr>, tx: Tx, k: nat, j: int)
    requires k <= |tx.outs| && 0 <= j < |PaidInputs(l, addrs, tx, k)|
    ensures IsPaid(l, addrs, tx, PaidInputs(l, addrs, tx, k)[j])
  {
    if j < |PaidInputs(l, addrs, tx, k - 1)| {
      PaidAt(l, addrs, tx, k - 1, j);
    }
  }

  lemma {:induction false} PaidHas(l: Ledger, addrs: seq<Addr>, tx: Tx, k: nat, i: int)
    requires k <= |tx.outs| && 0 <= i < k && PaysOne(l, addrs, tx.outs[i])
    ensures Input(OutPoint(tx.id, i), tx.outs[i]) in PaidInputs(l, addrs, tx, k)
  {
    if i < k - 1 {
      PaidHas(l, addrs, tx, k - 1, i);
    }
  }

  lemma ScanTxAgrees(l: Ledger, w: Watch, v: Wallet, tx: Tx)
    requires Simulates(w, v)
    ensures ScanTx(l, w, tx).1 == NaiveTx(l, v, tx).1
    ensures Simulates(ScanTx(l, w, tx).0, NaiveTx(l, v, tx).0)
  {
    ReceivesAgree(l, w, v, tx);
    SpendsAgree(w, v, tx);
    PaidPoints(l, w, v, tx);
    PointsAppend(w.inputs, PaidInputs(l, w.addrs, tx, |tx.outs|));
  }

  lemma ReceivesAgree(l: Ledger, w: Watch, v: Wallet, tx: Tx)
    requires Simulates(w, v)
    ensures PaidInputs(l, w.addrs, tx, |tx.outs|) != [] <==>
            exists k :: 0 <= k < |tx.outs| && PaysWallet(l, v.addrs, tx.outs[k])
  {
    var paid := PaidInputs(l, w.addrs, tx, |tx.outs|);
    if paid != [] {
      PaidAt(l, w.addrs, tx, |tx.outs|, 0);
      PaysAgree(l, w, v, paid[0].script);
      assert PaysWallet(l, v.addrs, tx.outs[paid[0].outpoint.index]);
    }
    if k :| 0 <= k < |tx.outs| && PaysWallet(l, v.addrs, tx.outs[k]) {
      PaysAgree(l, w, v, tx.outs[k]);
      PaidHas(l, w.addrs, tx, |tx.outs|, k);
    }
  }

  lemma SpendsAgree(w: Watch, v: Wallet, tx: Tx)
    requires Simulates(w, v)
    ensures Spends(w.inputs, tx) <==> exists i :: 0 <= i < |tx.ins| && tx.ins[i] in v.points
  {
    if Spends(w.inputs, tx) {
      var i, j :| 0 <= i < |tx.ins| && 0 <= j < |w.inputs| && tx.ins[i] == w.inputs[j].outpoint;
      assert tx.ins[i] in PointSet(w.inputs);
    }
    if i :| 0 <= i < |tx.ins| && tx.ins[i] in v.points {
      assert tx.ins[i] in PointSet(w.inputs);
    }
  }

  lemma PaidIsNew(l: Ledger, w: Watch, v: Wallet, tx: Tx, input: Input)
    requires Simulates(w, v) && IsPaid(l, w.addrs, tx, input)
    ensures input.outpoint in NewPoints(l, v.addrs, tx)
  {
    PaysAgree(l, w, v, input.script);
    assert PaysWallet(l, v.addrs, tx.outs[input.outpoint.index]);
    assert input.outpoint == OutPoint(tx.id, input.outpoint.index);
  }

  lemma PaidPoints(l: Ledger, w: Watch, v: Wallet, tx: Tx)
    requires Simulates(w, v)
    ensures PointSet(PaidInputs(l, w.addrs, tx, |tx.outs|)) == NewPoints(l, v.addrs, tx)
  {
    var paid := PaidInputs(l, w.addrs, tx, |tx.outs|);
    forall p
      ensures p in PointSet(paid) <==> p in NewPoints(l, v.addrs, tx)
    {
      if p in PointSet(paid) {
        var j :| 0 <= j < |paid| && paid[j].outpoint == p;
        PaidAt(l, w.addrs, tx, |tx.outs|, j);
        PaidIsNew(l, w, v, tx, paid[j]);
      }
      if p in NewPoints(l, v.addrs, tx) {
        var k :| 0 <= k < |tx.outs| && PaysWallet(l, v.addrs, tx.outs[k]) && p == OutPoint(tx.id, k);
        PaysAgree(l, w, v, tx.outs[k]);
        PaidHas(l, w.addrs, tx, |tx.outs|, k);
        var j :| 0 <= j < |paid| && paid[j] == Input(OutPoint(tx.id, k), tx.outs[k]);
        assert paid[j].outpoint == p;
      }
    }
  }

  lemma PointsAppend(a: seq<Input>, b: seq<Input>)
    ensures PointSet(a + b) == PointSet(a) + PointSet(b)
  {
    forall p
      ensures p in PointSet(a + b) <==> p in PointSet(a) || p in PointSet(b)
    {
      if i :| 0 <= i < |a| && a[i].outpoint == p {
        assert (a + b)[i].outpoint == p;
      }
      if i :| 0 <= i < |b| && b[i].outpoint == p {
        assert (a + b)[|a| + i].outpoint == p;
      }
    }
  }

  lemma ScanTxCovered(l: Ledger, w: Watch, tx: Tx)
    requires Covered(l, w) && Payable(l)
    requires forall k :: 0 <= k < |tx.outs| ==> l.scriptOf(OutPoint(tx.id, k)) == tx.outs[k]
    ensures Covered(l, ScanTx(l, w, tx).0)
  {
    var paid := PaidInputs(l, w.addrs, tx, |tx.outs|);
    var w' := ScanTx(l, w, tx).0;
    forall j | 0 <= j < |paid|
      ensures paid[j].script in Scripts(paid)
      ensures paid[j].script == l.scriptOf(paid[j].outpoint) && !l.isNil(paid[j].script)
    {
      assert Scripts(paid)[j] == paid[j].script;
      PaidAt(l, w.addrs, tx, |tx.outs|, j);
    }
  }

  lemma {:induction false} ScanTxsAgree(l: Ledger, w: Watch, v: Wallet, txs: seq<Tx>)
    requires Simulates(w, v) && Covered(l, w) && Payable(l)
    requires forall t, k :: 0 <= t < |txs| && 0 <= k < |txs[t].outs| ==> l.scriptOf(OutPoint(txs[t].id, k)) == txs[t].outs[k]
    ensures ScanTxs(l, w, txs).1 == NaiveTxs(l, v, txs).1
    ensures Simulates(ScanTxs(l, w, txs).0, NaiveTxs(l, v, txs).0) && Covered(l, ScanTxs(l, w, txs).0)
    decreases |txs|
  {
    if txs != [] {
      var last := |txs| - 1;
      ScanTxsAgree(l, w, v, txs[..last]);
      var w1, v1 := ScanTxs(l, w, txs[..last]).0, NaiveTxs(l, v, txs[..last]).0;
      ScanTxAgrees(l, w1, v1, txs[last]);
      ScanTxCovered(l, w1, txs[last]);
    }
  }

  // A block the filter rules out

  ghost predicate Redeems(v: Wallet, tx: Tx) {
    exists i :: 0 <= i < |tx.ins| && tx.ins[i] in v.points
  }

  ghost predicate Receives(l: Ledger, v: Wallet, tx: Tx) {
    exists k :: 0 <= k < |tx.outs| && PaysWallet(l, v.addrs, tx.outs[k])
  }

  /** A transaction that concerns the wallet puts a watched script into its block's filter. */
  lemma ConcernIsInFilter(l: Ledger, w: Watch, v: Wallet, b: Block, t: int) returns (s: Script)
    requires Simulates(w, v) && Covered(l, w) && Payable(l) && 0 <= t < |b.txs|
    requires Redeems(v, b.txs[t]) || Receives(l, v, b.txs[t])
    ensures s in w.list && InFilter(l, b, s)
  {
    var tx := b.txs[t];
    if Receives(l, v, tx) {
      var k :| 0 <= k < |tx.outs| && PaysWallet(l, v.addrs, tx.outs[k]);
      s := tx.outs[k];
      var a :| a in v.addrs && l.payTo(a) == Some(s);
      assert a in w.addrs;
    } else {
      var i :| 0 <= i < |tx.ins| && tx.ins[i] in v.points;
      assert tx.ins[i] in PointSet(w.inputs);
      var j :| 0 <= j < |w.inputs| && w.inputs[j].outpoint == tx.ins[i];
      s := w.inputs[j].script;
      assert SpendsScript(l, tx, s);
    }
  }

  lemma NoConcern(l: Ledger, v: Wallet, tx: Tx)
    requires !Redeems(v, tx) && !Receives(l, v, tx)
    ensures NaiveTx(l, v, tx) == (v, [])
  {
    assert NewPoints(l, v.addrs, tx) == {};
    assert v.points + {} == v.points;
  }

  /** Nothing is found in a block whose filter holds no script of the watch list. */
  lemma {:induction false} UnmatchedTxs(l: Ledger, w: Watch, v: Wallet, b: Block, k: nat)
    requires Simulates(w, v) && Covered(l, w) && Payable(l) && k <= |b.txs|
    requires forall s :: s in w.list ==> !InFilter(l, b, s)
    ensures NaiveTxs(l, v, b.txs[..k]) == (v, [])
  {
    if k > 0 {
      UnmatchedTxs(l, w, v, b, k - 1);
      if Redeems(v, b.txs[k - 1]) || Receives(l, v, b.txs[k - 1]) {
        var s := ConcernIsInFilter(l, w, v, b, k - 1);
        assert false;
      }
      NoConcern(l, v, b.txs[k - 1]);
      assert b.txs[..k][..k - 1] == b.txs[..k - 1];
      var none: seq<Report> := [];
      assert none + none == none;
    }
  }

  lemma BlockAgrees(l: Ledger, w: Watch, v: Wallet, b: Block, matched: bool)
    requires Simulates(w, v) && Covered(l, w) && Payable(l) && Recorded(l, b)
    requires !matched ==> forall s :: s in w.list ==> !InFilter(l, b, s)
    ensures var (w', reports) := if matched then ScanTxs(l, w, b.txs) else (w, []);
      reports == NaiveTxs(l, v, b.txs).1 && Simulates(w', NaiveTxs(l, v, b.txs).0) && Covered(l, w')
  {
    if matched {
      ScanTxsAgree(l, w, v, b.txs);
    } else {
      UnmatchedTxs(l, w, v, b, |b.txs|);
      assert b.txs[..|b.txs|] == b.txs;
    }
  }

  // An update

  lemma {:induction false} PayScriptsAre(l: Ledger, addrs: seq<Addr>)
    requires AllPayable(l, addrs)
    ensures |PayScripts(l, addrs)| == |addrs|
    ensures forall i :: 0 <= i < |addrs| ==> PayScripts(l, addrs)[i] == l.payTo(addrs[i]).value
  {
    if addrs != [] {
      PayScriptsAre(l, addrs[1..]);
    }
  }

  /** An update adds to the watch list the scripts of its addresses, those of its outpoints and the transaction ids it
      names, and takes nothing away. */
  lemma UpdatedListIs(l: Ledger, w: Watch, addrs: seq<Addr>, inputs: seq<Input>, txids: seq<Script>, s: Script)
    requires AllPayable(l, addrs)
    ensures s in Updated(l, w, addrs, inputs, txids).list <==>
      || s in w.list || s in txids
      || (exists i :: 0 <= i < |addrs| && l.payTo(addrs[i]) == Some(s))
      || (exists i :: 0 <= i < |inputs| && inputs[i].script == s)
  {
    PayScriptsAre(l, addrs);
    var paid, given := PayScripts(l, addrs), Scripts(inputs);
    assert s in paid <==> exists i :: 0 <= i < |addrs| && l.payTo(addrs[i]) == Some(s) by {
      if i :| 0 <= i < |addrs| && l.payTo(addrs[i]) == Some(s) {
        assert paid[i] == s;
      }
    }
    assert s in given <==> exists i :: 0 <= i < |inputs| && inputs[i].script == s by {
      if i :| 0 <= i < |inputs| && inputs[i].script == s {
        assert given[i] == s;
      }
    }
  }

  /** An address without a script stops an update: the list gets the scripts of the addresses before it. */
  lemma StoppedUpdate(l: Ledger, w: Watch, addrs: seq<Addr>, inputs: seq<Input>, txids: seq<Script>, k: int)
    requires 0 <= k < |addrs| && AllPayable(l, addrs[..k]) && l.payTo(addrs[k]).None?
    ensures var list := Updated(l, w, addrs, inputs, txids).list;
      && |list| == |w.list| + k && list[..|w.list|] == w.list
      && forall i :: 0 <= i < k ==> list[|w.list| + i] == l.payTo(addrs[i]).value
  {
    PayScriptsNext(l, addrs, k);
    PayScriptsAre(l, addrs[..k]);
  }

  lemma UpdateAgrees(l: Ledger, w: Watch, v: Wallet, addrs: seq<Addr>, inputs: seq<Input>, txids: seq<Script>)
    requires Simulates(w, v) && Covered(l, w) && AllPayable(l, addrs) && Genuine(l, inputs)
    ensures var w' := Updated(l, w, addrs, inputs, txids);
      Covered(l, w') && Simulates(w', Wallet(v.addrs + AddrSet(addrs), v.points + PointSet(inputs)))
  {
    var w' := Updated(l, w, addrs, inputs, txids);
    PayScriptsAre(l, addrs);
    PointsAppend(w.inputs, inputs);
    forall i | 0 <= i < |w'.addrs|
      ensures l.payTo(w'.addrs[i]).Some? && l.payTo(w'.addrs[i]).value in w'.list
    {
      if i >= |w.addrs| {
        assert PayScripts(l, addrs)[i - |w.addrs|] in w'.list;
      }
    }
    forall i | 0 <= i < |w'.inputs|
      ensures w'.inputs[i].script in w'.list
    {
      if i >= |w.inputs| {
        assert Scripts(inputs)[i - |w.inputs|] in Scripts(inputs);
      }
    }
    forall a
      ensures a in w'.addrs <==> a in v.addrs || a in AddrSet(addrs)
    {
      assert a in addrs <==> a in AddrSet(addrs);
    }
  }

  /** What the environment guarantees about an event. */
  ghost predicate Fair(l: Ledger, e: Event) {
    match e
    case Walked(b, _) => Sound(l, b) && Recorded(l, b)
    case Pushed(b) => Sound(l, b) && Recorded(l, b)
    case Update(addrs, inputs, _) => AllPayable(l, addrs) && Genuine(l, inputs)
  }

  lemma EventAgrees(l: Ledger, w: Watch, v: Wallet, e: Event)
    requires Simulates(w, v) && Covered(l, w) && Payable(l) && Fair(l, e)
    ensures Guided(l, w, e).1 == Naive(l, v, e).1
    ensures Simulates(Guided(l, w, e).0, Naive(l, v, e).0) && Covered(l, Guided(l, w, e).0)
  {
    match e {
      case Walked(b, scanning) =>
        if scanning {
          BlockAgrees(l, w, v, b, |w.list| != 0 && FilterMatches(b.filter, w.list));
        }
      case Pushed(b) => BlockAgrees(l, w, v, b, b.filter.matchAny(w.list));
      case Update(addrs, inputs, txids) => UpdateAgrees(l, w, v, addrs, inputs, txids);
    }
  }

  // -------------------------------------------------------------------------
  // Main result
  // -------------------------------------------------------------------------

  /** Whatever blocks arrive and whatever is asked for in between, the guided rescan reports, block by block and
      in order, exactly the transactions a search of every block reports. */
  lemma {:induction false} RescanIsExact(l: Ledger, addrs: seq<Addr>, inputs: seq<Input>, events: seq<Event>)
    requires Payable(l) && AllPayable(l, addrs) && Genuine(l, inputs)
    requires forall i :: 0 <= i < |events| ==> Fair(l, events[i])
    ensures var w0 := Updated(l, Watch([], [], []), addrs, inputs, []);
      var v0 := Wallet(AddrSet(addrs), PointSet(inputs));
      && GuidedRun(l, w0, events).1 == NaiveRun(l, v0, events).1
      && Simulates(GuidedRun(l, w0, events).0, NaiveRun(l, v0, events).0)
      && Covered(l, GuidedRun(l, w0, events).0)
    decreases |events|
  {
    if events == [] {
      UpdateAgrees(l, Watch([], [], []), Wallet({}, {}), addrs, inputs, []);
      assert {} + AddrSet(addrs) == AddrSet(addrs) && {} + PointSet(inputs) == PointSet(inputs);
    } else {
      var last := |events| - 1;
      RescanIsExact(l, addrs, inputs, events[..last]);
      var w0 := Updated(l, Watch([], [], []), addrs, inputs, []);
      var v0 := Wallet(AddrSet(addrs), PointSet(inputs));
      EventAgrees(l, GuidedRun(l, w0, events[..last]).0, NaiveRun(l, v0, events[..last]).0, events[last]);
    }
  }

  // -------------------------------------------------------------------------
  // The rescan's own loops
  // -------------------------------------------------------------------------

  class Options {
    const ledger: Ledger
    var watchAddrs: seq<Addr>
    var watchInputs: seq<Input>
    var watchList: seq<Script>

    ghost function State(): Watch
      reads this
    {
      Watch(watchAddrs, watchInputs, watchList)
    }

    constructor (ledger: Ledger)
      ensures this.ledger == ledger && State() == Watch([], [], [])
    {
      this.ledger := ledger;
      watchAddrs, watchInputs, watchList := [], [], [];
    }

    /** Adds to the lists. Fails when some address has no script, as the set-up of a rescan also does. */
    method UpdateFilter(addrs: seq<Addr>, inputs: seq<Input>, txids: seq<Script>) returns (ok: bool)
      modifies this
      ensures ok <==> AllPayable(ledger, addrs)
      ensures State() == Updated(ledger, old(State()), addrs, inputs, txids)
    {
      watchAddrs := watchAddrs + addrs;
      watchInputs := watchInputs + inputs;
      ok := true;
      var i := 0;
      ghost var list := watchList;
      while i < |addrs|
        invariant 0 <= i <= |addrs| && AllPayable(ledger, addrs[..i])
        invariant State() == Watch(old(watchAddrs) + addrs, old(watchInputs) + inputs, list + PayScripts(ledger, addrs[..i]))
      {
        PayScriptsNext(ledger, addrs, i);
        if ledger.payTo(addrs[i]).None? {
          return false;
        }
        watchList := watchList + [ledger.payTo(addrs[i]).value];
        i := i + 1;
      }
      assert addrs[..|addrs|] == addrs;
      for j := 0 to |inputs|
        invariant State() == Watch(old(watchAddrs) + addrs, old(watchInputs) + inputs,
                                   list + PayScripts(ledger, addrs) + Scripts(inputs[..j]))
      {
        assert Scripts(inputs[..j + 1]) == Scripts(inputs[..j]) + [inputs[j].script];
        watchList := watchList + [inputs[j].script];
      }
      assert inputs[..|inputs|] == inputs;
      for j := 0 to |txids|
        invariant State() == Watch(old(watchAddrs) + addrs, old(watchInputs) + inputs,
                                   list + PayScripts(ledger, addrs) + Scripts(inputs) + txids[..j])
      {
        assert txids[..j + 1] == txids[..j] + [txids[j]];
        watchList := watchList + [txids[j]];
      }
      assert txids[..|txids|] == txids;
    }

    method SpendsWatchedInput(tx: Tx) returns (spends: bool)
      ensures spends <==> Spends(watchInputs, tx)
    {
      for i := 0 to |tx.ins|
        invariant forall k, j :: 0 <= k < i && 0 <= j < |watchInputs| ==> tx.ins[k] != watchInputs[j].outpoint
      {
        for j := 0 to |watchInputs|
          invariant forall m :: 0 <= m < j ==> tx.ins[i] != watchInputs[m].outpoint
        {
          if tx.ins[i] == watchInputs[j].outpoint {
            return true;
          }
        }
      }
      return false;
    }

    /** Whether a script pays to a watched address; fails at an address without a script. */
    method MatchesAddr(s: Script) returns (found: bool, ok: bool)
      ensures AllPayable(ledger, watchAddrs) ==> ok
      ensures ok ==> (found <==> PaysOne(ledger, watchAddrs, s))
    {
      for i := 0 to |watchAddrs|
        invariant forall j :: 0 <= j < i ==> ledger.payTo(watchAddrs[j]).Some? && ledger.payTo(watchAddrs[j]).value != s
      {
        if ledger.payTo(watchAddrs[i]).None? {
          return false, false;
        }
        if ledger.payTo(watchAddrs[i]).value == s {
          return true, true;
        }
      }
      return false, true;
    }

    method PaysWatchedAddr(tx: Tx) returns (pays: bool, ok: bool)
      modifies this`watchInputs, this`watchList
      ensures AllPayable(ledger, watchAddrs) ==> ok
      ensures ok ==> State() == WatchPaid(ledger, old(State()), tx)
      ensures ok ==> (pays <==> PaidInputs(ledger, watchAddrs, tx, |tx.outs|) != [])
    {
      ghost var w := State();
      pays, ok := false, true;
      for k := 0 to |tx.outs|
        invariant ok && (pays <==> PaidInputs(ledger, w.addrs, tx, k) != [])
        invariant State() == w.(inputs := w.inputs + PaidInputs(ledger, w.addrs, tx, k),
                                list := w.list + Scripts(PaidInputs(ledger, w.addrs, tx, k)))
      {
        var found, checked := MatchesAddr(tx.outs[k]);
        if !checked {
          return false, false;
        }
        if found {
          pays := true;
          ghost var before := PaidInputs(ledger, w.addrs, tx, k);
          var input := Input(OutPoint(tx.id, k), tx.outs[k]);
          assert Scripts(before + [input]) == Scripts(before) + [input.script];
          watchInputs := watchInputs + [input];
          watchList := watchList + [tx.outs[k]];
        }
      }
    }

    method ExtractBlockMatches(b: Block) returns (reports: seq<Report>, ok: bool)
      modifies this`watchInputs, this`watchList
      ensures AllPayable(ledger, watchAddrs) ==> ok
      ensures ok ==> (State(), reports) == ScanTxs(ledger, old(State()), b.txs)
    {
      ghost var w := State();
      reports, ok := [], true;
      for t := 0 to |b.txs|
        invariant ok && watchAddrs == w.addrs
        invariant (State(), reports) == ScanTxs(ledger, w, b.txs[..t])
      {
        assert b.txs[..t + 1][..t] == b.txs[..t];
        var tx := b.txs[t];
        var redeems := SpendsWatchedInput(tx);
        var receives, paid := PaysWatchedAddr(tx);
        if !paid {
          return [], false;
        }
        if redeems || receives {
          reports := reports + [Report(tx, redeems, receives)];
        } else {
          assert reports + [] == reports;
        }
      }
      assert b.txs[..|b.txs|] == b.txs;
    }

    method NotifyBlock(b: Block, scanning: bool) returns (reports: seq<Report>, ok: bool)
      modifies this`watchInputs, this`watchList
      ensures AllPayable(ledger, watchAddrs) ==> ok
      ensures ok ==> (State(), reports) == Guided(ledger, old(State()), Walked(b, scanning))
    {
      reports, ok := [], true;
      if |watchList| != 0 && scanning {
        if b.filter.size != 0 && b.filter.matchAny(watchList) {
          reports, ok := ExtractBlockMatches(b);
        }
      }
    }

    method NotifyBlockWithFilter(b: Block) returns (reports: seq<Report>, ok: bool)
      modifies this`watchInputs, this`watchList
      ensures AllPayable(ledger, watchAddrs) ==> ok
      ensures ok ==> (State(), reports) == Guided(ledger, old(State()), Pushed(b))
    {
      reports, ok := [], true;
      if b.filter.matchAny(watchList) {
        reports, ok := ExtractBlockMatches(b);
      }
    }

    method Handle(e: Event) returns (reports: seq<Report>, ok: bool)
      modifies this
      ensures AllPayable(ledger, old(watchAddrs)) && (e.Update? ==> AllPayable(ledger, e.addrs)) ==> ok
      ensures ok ==> (State(), reports) == Guided(ledger, old(State()), e)
    {
      match e {
        case Walked(b, scanning) => reports, ok := NotifyBlock(b, scanning);
        case Pushed(b) => reports, ok := NotifyBlockWithFilter(b);
        case Update(addrs, inputs, txids) =>
          ok := UpdateFilter(addrs, inputs, txids);
          reports := [];
      }
    }
  }

  lemma {:induction false} PayScriptsNext(l: Ledger, addrs: seq<Addr>, i: int)
    requires 0 <= i < |addrs| && AllPayable(l, addrs[..i])
    ensures l.payTo(addrs[i]).None? ==> PayScripts(l, addrs) == PayScripts(l, addrs[..i])
    ensures l.payTo(addrs[i]).Some? ==>
      PayScripts(l, addrs[..i + 1]) == PayScripts(l, addrs[..i]) + [l.payTo(addrs[i]).value]
    ensures l.payTo(addrs[i]).Some? ==> AllPayable(l, addrs[..i + 1])
    decreases i
  {
    if i > 0 {
      var rest := addrs[1..];
      var front := rest[..i - 1];
      forall j | 0 <= j < |front|
        ensures l.payTo(front[j]).Some?
      {
        assert front[j] == addrs[..i][j + 1];
      }
      PayScriptsNext(l, rest, i - 1);
      assert addrs[..i][1..] == rest[..i - 1] && addrs[..i + 1][1..] == rest[..i];
      assert addrs[..i][0] == addrs[0] && addrs[..i + 1][0] == addrs[0];
      assert rest[i - 1] == addrs[i];
    }
    if l.payTo(addrs[i]).Some? {
      var front := addrs[..i + 1];
      forall j | 0 <= j < |front|
        ensures l.payTo(front[j]).Some?
      {
        assert j < i ==> front[j] == addrs[..i][j];
      }
    }
  }

  /** A whole rescan: it never fails on payable addresses, and reports what searching every block reports. */
  method Run(ledger: Ledger, addrs: seq<Addr>, inputs: seq<Input>, events: seq<Event>)
    returns (reports: seq<seq<Report>>, ok: bool)
    requires Payable(ledger) && Genuine(ledger, inputs)
    requires forall i :: 0 <= i < |events| ==> Fair(ledger, events[i])
    ensures ok <==> AllPayable(ledger, addrs)
    ensures ok ==> reports == NaiveRun(ledger, Wallet(AddrSet(addrs), PointSet(inputs)), events).1
  {
    var ro := new Options(ledger);
    reports := [];
    ok := ro.UpdateFilter(addrs, inputs, []);
    if !ok {
      return;
    }
    ghost var w0 := ro.State();
    for i := 0 to |events|
      invariant ok && (ro.State(), reports) == GuidedRun(ledger, w0, events[..i])
      invariant ro.ledger == ledger
    {
      RescanIsExact(ledger, addrs, inputs, events[..i]);
      assert events[..i + 1][..i] == events[..i];
      assert Fair(ledger, events[i]);
      var found, handled := ro.Handle(events[i]);
      reports := reports + [found];
      ok := handled;
    }
    assert events[..|events|] == events;
    RescanIsExact(ledger, addrs, inputs, events);
  }
}
