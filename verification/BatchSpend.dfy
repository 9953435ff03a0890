/** The batch spend reporter as an object whose maps are changed in place, cmd/spv/batch_spend_reporter.go, proved
    against the functions of module SpendReporter. */
module BatchSpend {
  import opened Wrappers
  import opened Rescan
  import opened SpendReporter
  import opened UtxoBatch

  /** The result channels of all requests; each takes one value. */
  class Results {
    var answers: map<Request, Answer>
    var duplicates: nat

    constructor ()
      ensures answers == map[] && duplicates == 0
    {
      answers, duplicates := map[], 0;
    }

    method Deliver(r: Request, a: Answer)
      modifies this
      ensures answers == if r in old(answers) then old(answers) else old(answers)[r := a]
      ensures duplicates == if r in old(answers) then old(duplicates) + 1 else old(duplicates)
    {
      if r in answers {
        duplicates := duplicates + 1;
      } else {
        answers := answers[r := a];
      }
    }
  }

  class BatchSpendReporter {
    const results: Results
    var requests: map<OutPoint, seq<Request>>
    var initialTxns: map<OutPoint, Option<Script>>
    var outpoints: map<OutPoint, Script>
    var filterEntries: seq<Script>

    function View(): Reporter
      reads this, results
    {
      Reporter(requests, initialTxns, outpoints, filterEntries, results.answers, results.duplicates)
    }

    constructor (results: Results)
      ensures this.results == results
      ensures View() == Fresh(results.answers).(duplicates := results.duplicates)
    {
      this.results := results;
      requests, initialTxns, outpoints, filterEntries := map[], map[], map[], [];
    }

    /** The same answer to all of an outpoint's requests, and nothing more is kept about it. */
    method NotifyRequests(op: OutPoint, rs: seq<Request>, a: Answer)
      requires op in requests && rs == requests[op]
      modifies this, results
      ensures View() == SpendReporter.NotifyRequests(old(View()), op, a)
    {
      requests, initialTxns, outpoints := requests - {op}, initialTxns - {op}, outpoints - {op};
      ghost var p := View();
      var i := 0;
      while i < |rs|
        invariant 0 <= i <= |rs|
        invariant View() == DeliverAll(p, rs[..i], a)
      {
        results.Deliver(rs[i], a);
        assert rs[..i + 1][..i] == rs[..i];
        i := i + 1;
      }
      assert rs[..i] == rs;
    }

    method AddNewRequests(rs: seq<Request>)
      modifies this
      ensures View() == AddRequests(old(View()), rs)
    {
      var i := 0;
      while i < |rs|
        invariant 0 <= i <= |rs|
        invariant View() == AddRequests(old(View()), rs[..i])
      {
        var r := rs[i];
        requests := requests[r.outpoint := (if r.outpoint in requests then requests[r.outpoint] else []) + [r]];
        if r.outpoint !in outpoints {
          outpoints := outpoints[r.outpoint := r.script];
          filterEntries := filterEntries + [r.script];
        }
        assert rs[..i + 1][..i] == rs[..i];
        i := i + 1;
      }
      assert rs[..i] == rs;
    }

    method NotifySpends(txs: seq<Tx>, height: nat) returns (spends: map<OutPoint, Answer>)
      modifies this, results
      ensures View() == SpendTxs(old(View()), txs, height)
      ensures requests.Keys <= old(requests.Keys)
      ensures spends.Keys == old(requests.Keys) - requests.Keys
    {
      spends := map[];
      var t := 0;
      while t < |txs|
        invariant 0 <= t <= |txs|
        invariant View() == SpendTxs(old(View()), txs[..t], height)
        invariant requests.Keys <= old(requests.Keys) && spends.Keys == old(requests.Keys) - requests.Keys
      {
        ghost var p := View();
        var tx := txs[t];
        var i := 0;
        while i < |tx.ins|
          invariant 0 <= i <= |tx.ins|
          invariant View() == SpendInputs(p, tx, i, height)
          invariant requests.Keys <= old(requests.Keys) && spends.Keys == old(requests.Keys) - requests.Keys
        {
          var op := tx.ins[i];
          if op in requests {
            var spend := Spent(tx, i, height);
            spends := spends[op := spend];
            NotifyRequestsFrame(View(), op, spend);
            NotifyRequests(op, requests[op], spend);
          }
          i := i + 1;
        }
        assert txs[..t + 1][..t] == txs[..t];
        t := t + 1;
      }
      assert txs[..t] == txs;
    }

    /** The entries of the outpoints that remain, in some order. */
    method RebuildWatchlist()
      modifies this`filterEntries
      ensures Lists(filterEntries, outpoints)
    {
      filterEntries := [];
      var left := outpoints;
      while left.Keys != {}
        invariant forall op :: op in left ==> op in outpoints && left[op] == outpoints[op]
        invariant forall op :: op in outpoints && op !in left ==> outpoints[op] in filterEntries
        invariant forall i :: 0 <= i < |filterEntries| ==> IsWatched(outpoints, filterEntries[i])
        decreases |left.Keys|
      {
        var op :| op in left;
        assert IsWatched(outpoints, left[op]);
        filterEntries := filterEntries + [left[op]];
        ghost var keys := left.Keys;
        left := left - {op};
        assert left.Keys == keys - {op};
      }
      forall op | op in outpoints
        ensures outpoints[op] in filterEntries
      {
        assert op !in left.Keys;
      }
    }

    /** New requests join, their outputs are looked up, spends are told, and the watch list is renewed. */
    method ProcessBlock(txs: seq<Tx>, newReqs: seq<Request>, height: nat)
      modifies this, results
      ensures Processed(old(View()), txs, newReqs, height, View())
    {
      if |newReqs| > 0 {
        AddNewRequests(newReqs);
        FindInitialTransactions(txs, newReqs);
      }
      ghost var entered := View();
      var spends := NotifySpends(txs, height);
      ghost var q := View();
      if |newReqs| > 0 || |spends.Keys| > 0 {
        RebuildWatchlist();
      }
      BlockIsProcessed(old(View()), txs, newReqs, height, entered, spends.Keys, q, View());
    }

    /** Whoever still waits is told the output that was kept for the outpoint, if any. */
    method NotifyUnspentAndUnfound()
      requires Coherent(View())
      modifies this, results
      ensures Finished(old(View()), View())
    {
      ghost var p := View();
      ghost var answer := found => FromOutput(found);
      PartlyNone(p, answer);
      while requests.Keys != {}
        invariant Partly(p, answer, View())
        decreases |requests.Keys|
      {
        var op :| op in requests;
        ghost var q := View();
        var tx := if op in initialTxns then initialTxns[op] else None;
        PartlyMore(p, answer, q, op);
        NotifyRequestsFrame(q, op, FromOutput(tx));
        NotifyRequests(op, requests[op], FromOutput(tx));
        assert requests.Keys == q.requests.Keys - {op};
      }
      PartlyAll(p, answer, View());
    }

    /** Whoever still waits is told the error. */
    method FailRemaining(e: nat)
      requires Coherent(View())
      modifies this, results
      ensures Drained(old(View()), found => Failed(e), View())
    {
      ghost var p := View();
      ghost var answer := (found: Option<Script>) => Failed(e);
      PartlyNone(p, answer);
      while requests.Keys != {}
        invariant Partly(p, answer, View())
        decreases |requests.Keys|
      {
        var op :| op in requests;
        ghost var q := View();
        PartlyMore(p, answer, q, op);
        NotifyRequestsFrame(q, op, Failed(e));
        NotifyRequests(op, requests[op], Failed(e));
        assert requests.Keys == q.requests.Keys - {op};
      }
      PartlyAll(p, answer, View());
      DrainedSame(p, answer, found => Failed(e), View());
    }

    /** Looks the new requests' outputs up by transaction id. */
    method FindInitialTransactions(txs: seq<Tx>, newReqs: seq<Request>)
      modifies this`initialTxns
      ensures View() == SetInitial(old(View()), txs, newReqs)
    {
      var index := ReverseIndex(newReqs);
      var found := LookUp(txs, newReqs, index);
      var i := 0;
      while i < |newReqs|
        invariant 0 <= i <= |newReqs|
        invariant View() == SetInitial(old(View()), txs, newReqs[..i])
      {
        var op := newReqs[i].outpoint;
        initialTxns := initialTxns[op := if op in found then found[op] else None];
        assert newReqs[..i + 1][..i] == newReqs[..i];
        i := i + 1;
      }
      assert newReqs[..i] == newReqs;
    }
  }

  /** The watch list is rebuilt exactly when requests joined or something was spent. */
  lemma BlockIsProcessed(p: Reporter, txs: seq<Tx>, rs: seq<Request>, height: nat, entered: Reporter,
                         spent: set<OutPoint>, q: Reporter, p': Reporter)
    requires entered == if rs == [] then p else SetInitial(AddRequests(p, rs), txs, rs)
    requires q == SpendTxs(entered, txs, height)
    requires q.requests.Keys <= entered.requests.Keys && spent == entered.requests.Keys - q.requests.Keys
    requires p' == q.(entries := p'.entries)
    requires if |rs| > 0 || |spent| > 0 then Lists(p'.entries, q.outpoints) else p'.entries == q.entries
    ensures Processed(p, txs, rs, height, p')
  {
    assert q.requests.Keys == entered.requests.Keys - spent;
  }

  lemma NotifyRequestsFrame(p: Reporter, op: OutPoint, a: Answer)
    requires op in p.requests
    ensures SpendReporter.NotifyRequests(p, op, a).requests == p.requests - {op}
  {
    DeliverFrame(p.(requests := p.requests - {op}, initial := p.initial - {op}, outpoints := p.outpoints - {op}),
                 p.requests[op], a);
  }

  lemma {:induction false} DeliverFrame(p: Reporter, rs: seq<Request>, a: Answer)
    ensures var q := DeliverAll(p, rs, a); q == p.(answers := q.answers, duplicates := q.duplicates)
  {
    if rs != [] {
      DeliverFrame(p, rs[..|rs| - 1], a);
    }
  }

  // -------------------------------------------------------------------------
  // Answering everyone, an outpoint at a time in any order
  // -------------------------------------------------------------------------

  ghost function Due(p: Reporter, answer: Option<Script> -> Answer, op: OutPoint): Answer {
    answer(if op in p.initial then p.initial[op] else None)
  }

  /** The outpoints no longer in `q` have been answered. */
  ghost predicate Partly(p: Reporter, answer: Option<Script> -> Answer, q: Reporter) {
    && Coherent(q) && q.entries == p.entries
    && (forall op :: op in q.requests ==> op in p.requests && q.requests[op] == p.requests[op])
    && (forall op :: op in q.initial ==> op in p.initial && q.initial[op] == p.initial[op])
    && (forall r :: r in q.answers <==> r in p.answers || (Waiting(p, r) && r.outpoint !in q.requests))
    && (forall r :: r in p.answers ==> q.answers[r] == p.answers[r])
    && (forall r :: r !in p.answers && r in q.answers ==> q.answers[r] == Due(p, answer, r.outpoint))
  }

  lemma PartlyNone(p: Reporter, answer: Option<Script> -> Answer)
    requires Coherent(p)
    ensures Partly(p, answer, p)
  {
  }

  lemma PartlyMore(p: Reporter, answer: Option<Script> -> Answer, q: Reporter, op: OutPoint)
    requires Partly(p, answer, q) && op in q.requests
    ensures Partly(p, answer, SpendReporter.NotifyRequests(q, op, Due(q, answer, op)))
  {
    var a := Due(q, answer, op);
    NotifyRequestsIs(q, op, a);
    var q' := SpendReporter.NotifyRequests(q, op, a);
    assert forall i :: 0 <= i < |q.requests[op]| ==> q.requests[op][i].outpoint == op;
    PartlyAnswers(p, answer, q, op, q');
  }

  lemma PartlyAnswers(p: Reporter, answer: Option<Script> -> Answer, q: Reporter, op: OutPoint, q': Reporter)
    requires Partly(p, answer, q) && op in q.requests && Settled(q, op, Due(q, answer, op), q')
    requires forall i :: 0 <= i < |q.requests[op]| ==> q.requests[op][i].outpoint == op
    ensures forall r :: r in q'.answers <==> r in p.answers || (Waiting(p, r) && r.outpoint !in q'.requests)
    ensures forall r :: r !in p.answers && r in q'.answers ==> q'.answers[r] == Due(p, answer, r.outpoint)
  {
  }

  lemma PartlyAll(p: Reporter, answer: Option<Script> -> Answer, q: Reporter)
    requires Coherent(p) && Partly(p, answer, q) && q.requests.Keys == {}
    ensures Drained(p, answer, q)
  {
    forall r | Waiting(p, r) && r !in p.answers
      ensures r in q.answers && q.answers[r] == Due(p, answer, r.outpoint)
    {
    }
  }

  lemma DrainedSame(p: Reporter, f: Option<Script> -> Answer, g: Option<Script> -> Answer, q: Reporter)
    requires Drained(p, f, q) && forall o :: f(o) == g(o)
    ensures Drained(p, g, q)
  {
  }

  // -------------------------------------------------------------------------
  // Looking up outputs
  // -------------------------------------------------------------------------

  ghost predicate Indexes(index: map<TxId, seq<Request>>, rs: seq<Request>) {
    && (forall id, i :: id in index && 0 <= i < |index[id]| ==> index[id][i].outpoint.txid == id)
    && (forall i :: 0 <= i < |rs| ==> rs[i].outpoint.txid in index && rs[i] in index[rs[i].outpoint.txid])
  }

  method ReverseIndex(rs: seq<Request>) returns (index: map<TxId, seq<Request>>)
    ensures Indexes(index, rs)
  {
    index := map[];
    var i := 0;
    while i < |rs|
      invariant 0 <= i <= |rs|
      invariant Indexes(index, rs[..i])
    {
      var id := rs[i].outpoint.txid;
      ghost var was := index;
      index := index[id := (if id in index then index[id] else []) + [rs[i]]];
      ghost var front := rs[..i + 1];
      forall j | 0 <= j < |front|
        ensures front[j].outpoint.txid in index && front[j] in index[front[j].outpoint.txid]
      {
        if j < i {
          assert front[j] == rs[..i][j];
        } else {
          assert index[id][|index[id]| - 1] == rs[i];
        }
      }
      i := i + 1;
    }
    assert rs[..i] == rs;
  }

  ghost predicate Mentions(txs: seq<Tx>, id: TxId) {
    exists t :: 0 <= t < |txs| && txs[t].id == id
  }

  /** After some transactions: what was looked up, and which ids are still looked for. */
  ghost predicate LookedUpIn(all: map<TxId, seq<Request>>, txs: seq<Tx>, t: nat, left: map<TxId, seq<Request>>,
                             found: map<OutPoint, Option<Script>>)
    requires t <= |txs|
  {
    && (forall id :: id in left ==> id in all && left[id] == all[id])
    && (forall id :: id in all ==> (id in left <==> !Mentions(txs[..t], id)))
    && (forall op :: op in found ==> found[op] == Found(txs, op))
    && (forall id, i :: id in all && id !in left && 0 <= i < |all[id]| ==> all[id][i].outpoint in found)
  }

  lemma {:induction false} FoundAt(txs: seq<Tx>, t: nat, op: OutPoint)
    requires t < |txs| && txs[t].id == op.txid && !Mentions(txs[..t], op.txid)
    ensures Found(txs, op) == if op.index < |txs[t].outs| then Some(txs[t].outs[op.index]) else None
  {
    if t > 0 {
      assert txs[..t][0].id == txs[0].id;
      var rest := txs[1..];
      var front := rest[..t - 1];
      forall u | 0 <= u < t - 1
        ensures front[u].id != op.txid
      {
        assert txs[..t][u + 1] == front[u];
      }
      FoundAt(rest, t - 1, op);
    }
  }

  lemma {:induction false} FoundNowhere(txs: seq<Tx>, op: OutPoint)
    requires !Mentions(txs, op.txid)
    ensures Found(txs, op) == None
  {
    if txs != [] {
      assert txs[0].id != op.txid;
      forall u | 0 <= u < |txs[1..]|
        ensures txs[1..][u].id != op.txid
      {
        assert txs[1..][u] == txs[u + 1];
      }
      FoundNowhere(txs[1..], op);
    }
  }

  /** The outputs of one transaction that the requests for its id name. */
  method TakeOutputs(txs: seq<Tx>, t: nat, rs: seq<Request>, found: map<OutPoint, Option<Script>>)
    returns (more: map<OutPoint, Option<Script>>)
    requires t < |txs| && !Mentions(txs[..t], txs[t].id)
    requires forall i :: 0 <= i < |rs| ==> rs[i].outpoint.txid == txs[t].id
    requires forall op :: op in found ==> found[op] == Found(txs, op)
    ensures forall op :: op in more ==> more[op] == Found(txs, op)
    ensures forall op :: op in found ==> op in more
    ensures forall i :: 0 <= i < |rs| ==> rs[i].outpoint in more
  {
    more := found;
    var i := 0;
    while i < |rs|
      invariant 0 <= i <= |rs|
      invariant forall op :: op in more ==> more[op] == Found(txs, op)
      invariant forall op :: op in found ==> op in more
      invariant forall j :: 0 <= j < i ==> rs[j].outpoint in more
    {
      var op := rs[i].outpoint;
      FoundAt(txs, t, op);
      if op.index >= |txs[t].outs| {
        more := more[op := None];
      } else {
        more := more[op := Some(txs[t].outs[op.index])];
      }
      i := i + 1;
    }
  }

  lemma MentionsMore(txs: seq<Tx>, t: nat)
    requires t < |txs|
    ensures forall id :: Mentions(txs[..t + 1], id) <==> Mentions(txs[..t], id) || txs[t].id == id
  {
    var front, more := txs[..t], txs[..t + 1];
    assert more[t] == txs[t] && forall u :: 0 <= u < t ==> more[u] == front[u];
    forall id
      ensures Mentions(more, id) <==> Mentions(front, id) || txs[t].id == id
    {
    }
  }

  /** The transactions are visited until nothing is looked for any more. What is not found is not there. */
  method LookUp(txs: seq<Tx>, rs: seq<Request>, index: map<TxId, seq<Request>>) returns (found: map<OutPoint, Option<Script>>)
    requires Indexes(index, rs)
    ensures forall i :: 0 <= i < |rs| ==>
      Found(txs, rs[i].outpoint) == if rs[i].outpoint in found then found[rs[i].outpoint] else None
  {
    found := map[];
    var left := index;
    var t := 0;
    while t < |txs| && left.Keys != {}
      invariant 0 <= t <= |txs|
      invariant LookedUpIn(index, txs, t, left, found)
    {
      var id := txs[t].id;
      MentionsMore(txs, t);
      if id in left {
        found := TakeOutputs(txs, t, left[id], found);
        left := left - {id};
      }
      t := t + 1;
    }
    forall i | 0 <= i < |rs|
      ensures Found(txs, rs[i].outpoint) == if rs[i].outpoint in found then found[rs[i].outpoint] else None
    {
      var id := rs[i].outpoint.txid;
      if id in left {
        assert txs[..t] == txs;
        FoundNowhere(txs, rs[i].outpoint);
      } else {
        var j :| 0 <= j < |index[id]| && index[id][j] == rs[i];
      }
    }
  }
}
