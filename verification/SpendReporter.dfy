/** The batch spend reporter of cmd/spv/batch_spend_reporter.go: which requests wait for which outpoint, and
    what they are told. */
module SpendReporter {
  import opened Wrappers
  import opened Rescan

  /** A request for the fate of an outpoint, expected to be created at height `birth`. */
  datatype Request = Request(id: nat, outpoint: OutPoint, script: Script, birth: nat)

  /** What a request is told. `NotFound` is the nil report. */
  datatype Answer = Spent(tx: Tx, input: nat, height: nat) | Unspent(out: Script) | NotFound | Failed(error: nat)

  /** `answers` holds what each request's result channel, which takes one value, has received;
      `duplicates` counts the further values it refused. */
  datatype Reporter = Reporter(
    requests: map<OutPoint, seq<Request>>,
    initial: map<OutPoint, Option<Script>>,
    outpoints: map<OutPoint, Script>,
    entries: seq<Script>,
    answers: map<Request, Answer>,
    duplicates: nat)

  // -------------------------------------------------------------------------
  // Delivering
  // -------------------------------------------------------------------------

  function Deliver(p: Reporter, r: Request, a: Answer): Reporter {
    if r in p.answers then p.(duplicates := p.duplicates + 1) else p.(answers := p.answers[r := a])
  }

  function DeliverAll(p: Reporter, rs: seq<Request>, a: Answer): Reporter {
    if rs == [] then p else Deliver(DeliverAll(p, rs[..|rs| - 1], a), rs[|rs| - 1], a)
  }

  function NotifyRequests(p: Reporter, op: OutPoint, a: Answer): Reporter
    requires op in p.requests
  {
    DeliverAll(p.(requests := p.requests - {op}, initial := p.initial - {op}, outpoints := p.outpoints - {op}),
               p.requests[op], a)
  }

  // -------------------------------------------------------------------------
  // New requests
  // -------------------------------------------------------------------------

  function AddRequest(p: Reporter, r: Request): Reporter {
    var op := r.outpoint;
    var queued := p.(requests := p.requests[op := (if op in p.requests then p.requests[op] else []) + [r]]);
    if op in p.outpoints then queued
    else queued.(outpoints := p.outpoints[op := r.script], entries := p.entries + [r.script])
  }

  function AddRequests(p: Reporter, rs: seq<Request>): Reporter {
    if rs == [] then p else AddRequest(AddRequests(p, rs[..|rs| - 1]), rs[|rs| - 1])
  }

  /** The output an outpoint names, if this block creates it: only the first transaction with its id counts. */
  function Found(txs: seq<Tx>, op: OutPoint): Option<Script> {
    if txs == [] then None
    else if txs[0].id == op.txid then (if op.index < |txs[0].outs| then Some(txs[0].outs[op.index]) else None)
    else Found(txs[1..], op)
  }

  /** It is found exactly when the first transaction with the outpoint's id has an output at its index, which it is. */
  lemma {:induction false} FoundIs(txs: seq<Tx>, op: OutPoint, s: Script)
    ensures Found(txs, op) == Some(s) <==>
      exists t :: 0 <= t < |txs| && txs[t].id == op.txid && (forall u :: 0 <= u < t ==> txs[u].id != op.txid)
                  && op.index < |txs[t].outs| && txs[t].outs[op.index] == s
  {
    if txs != [] && txs[0].id != op.txid {
      var rest := txs[1..];
      FoundIs(rest, op, s);
      if Found(txs, op) == Some(s) {
        var t :| 0 <= t < |rest| && rest[t].id == op.txid && (forall u :: 0 <= u < t ==> rest[u].id != op.txid)
                 && op.index < |rest[t].outs| && rest[t].outs[op.index] == s;
        assert txs[t + 1] == rest[t] && forall u :: 0 < u < t + 1 ==> txs[u] == rest[u - 1];
      }
      if t :| 0 <= t < |txs| && txs[t].id == op.txid && (forall u :: 0 <= u < t ==> txs[u].id != op.txid)
              && op.index < |txs[t].outs| && txs[t].outs[op.index] == s {
        assert rest[t - 1] == txs[t] && forall u :: 0 <= u < t - 1 ==> rest[u] == txs[u + 1];
      }
    }
  }

  function SetInitial(p: Reporter, txs: seq<Tx>, rs: seq<Request>): Reporter {
    if rs == [] then p
    else
      var q := SetInitial(p, txs, rs[..|rs| - 1]);
      var op := rs[|rs| - 1].outpoint;
      q.(initial := q.initial[op := Found(txs, op)])
  }

  // -------------------------------------------------------------------------
  // Spends
  // -------------------------------------------------------------------------

  function SpendInput(p: Reporter, tx: Tx, i: nat, height: nat): Reporter
    requires i < |tx.ins|
  {
    if tx.ins[i] in p.requests then NotifyRequests(p, tx.ins[i], Spent(tx, i, height)) else p
  }

  function SpendInputs(p: Reporter, tx: Tx, k: nat, height: nat): Reporter
    requires k <= |tx.ins|
  {
    if k == 0 then p else SpendInput(SpendInputs(p, tx, k - 1, height), tx, k - 1, height)
  }

  function SpendTxs(p: Reporter, txs: seq<Tx>, height: nat): Reporter {
    if txs == [] then p
    else
      var tx := txs[|txs| - 1];
      SpendInputs(SpendTxs(p, txs[..|txs| - 1], height), tx, |tx.ins|, height)
  }

  /** `entries` lists the scripts of exactly the watched outpoints, in any order. */
  ghost predicate Lists(entries: seq<Script>, outpoints: map<OutPoint, Script>) {
    && (forall op :: op in outpoints ==> outpoints[op] in entries)
    && (forall i :: 0 <= i < |entries| ==> IsWatched(outpoints, entries[i]))
  }

  ghost predicate IsWatched(outpoints: map<OutPoint, Script>, script: Script) {
    exists op :: op in outpoints && outpoints[op] == script
  }

  /** The reporter before the watch list is rebuilt. */
  function Scanned(p: Reporter, txs: seq<Tx>, newReqs: seq<Request>, height: nat): Reporter {
    SpendTxs(if newReqs == [] then p else SetInitial(AddRequests(p, newReqs), txs, newReqs), txs, height)
  }

  /** Processing a block. Rebuilding lists the entries in some order; it is skipped when nothing changed. */
  ghost predicate Processed(p: Reporter, txs: seq<Tx>, newReqs: seq<Request>, height: nat, p': Reporter) {
    var q := Scanned(p, txs, newReqs, height);
    && p' == q.(entries := p'.entries)
    && if newReqs != [] || q.requests.Keys != p.requests.Keys then Lists(p'.entries, q.outpoints)
       else p'.entries == q.entries
  }

  /** Every waiting request gets an answer made from its outpoint's initial output. */
  ghost predicate Drained(p: Reporter, answer: Option<Script> -> Answer, p': Reporter) {
    && p'.requests.Keys == {} && p'.initial.Keys == {} && p'.outpoints.Keys == {}
    && p'.entries == p.entries && p'.duplicates == p.duplicates
    && (forall r :: r in p'.answers <==> r in p.answers || Waiting(p, r))
    && (forall r :: r in p.answers ==> p'.answers[r] == p.answers[r])
    && (forall r :: Waiting(p, r) && r !in p.answers ==>
          p'.answers[r] == answer(if r.outpoint in p.initial then p.initial[r.outpoint] else None))
  }

  ghost predicate Waiting(p: Reporter, r: Request) {
    r.outpoint in p.requests && r in p.requests[r.outpoint]
  }

  // -------------------------------------------------------------------------
  // The invariant between blocks
  // -------------------------------------------------------------------------

  ghost predicate Distinct(rs: seq<Request>) {
    forall i, j :: 0 <= i < j < |rs| ==> rs[i] != rs[j]
  }

  ghost predicate QueuesOk(p: Reporter) {
    && (forall op :: op in p.requests ==> p.requests[op] != [] && Distinct(p.requests[op]))
    && (forall op, i :: op in p.requests && 0 <= i < |p.requests[op]| ==>
          p.requests[op][i].outpoint == op && p.requests[op][i] !in p.answers)
    && p.duplicates == 0
  }

  /** The three maps have the same keys, and everything watched is on the watch list. */
  ghost predicate Linked(p: Reporter) {
    && (forall op :: op in p.initial <==> op in p.requests)
    && (forall op :: op in p.outpoints <==> op in p.requests)
    && (forall op :: op in p.outpoints ==> p.outpoints[op] in p.entries)
  }

  ghost predicate Coherent(p: Reporter) {
    QueuesOk(p) && Linked(p)
  }

  function Fresh(answers: map<Request, Answer>): Reporter {
    Reporter(map[], map[], map[], [], answers, 0)
  }

  // Delivering to a list of distinct, unanswered requests

  lemma {:induction false} DeliverAllIs(p: Reporter, rs: seq<Request>, a: Answer)
    requires Distinct(rs) && forall i :: 0 <= i < |rs| ==> rs[i] !in p.answers
    ensures var p' := DeliverAll(p, rs, a);
      && p' == p.(answers := p'.answers)
      && (forall r :: r in p'.answers <==> r in p.answers || r in rs)
      && (forall r :: r in rs ==> p'.answers[r] == a)
      && (forall r :: r in p.answers ==> p'.answers[r] == p.answers[r])
  {
    if rs != [] {
      var k := |rs| - 1;
      DeliverAllIs(p, rs[..k], a);
      assert rs == rs[..k] + [rs[k]];
      assert rs[k] !in rs[..k];
    }
  }

  /** What happens to one outpoint, or to none. */
  ghost predicate Settled(p: Reporter, op: OutPoint, a: Answer, p': Reporter)
    requires op in p.requests
  {
    && p'.requests == p.requests - {op} && p'.initial == p.initial - {op} && p'.outpoints == p.outpoints - {op}
    && p'.entries == p.entries && p'.duplicates == p.duplicates
    && (forall r :: r in p'.answers <==> r in p.answers || r in p.requests[op])
    && (forall r :: r in p.requests[op] ==> p'.answers[r] == a)
    && (forall r :: r in p.answers ==> p'.answers[r] == p.answers[r])
  }

  lemma NotifyRequestsIs(p: Reporter, op: OutPoint, a: Answer)
    requires QueuesOk(p) && op in p.requests
    ensures Settled(p, op, a, NotifyRequests(p, op, a)) && QueuesOk(NotifyRequests(p, op, a))
    ensures Coherent(p) ==> Coherent(NotifyRequests(p, op, a))
  {
    var q := p.(requests := p.requests - {op}, initial := p.initial - {op}, outpoints := p.outpoints - {op});
    DeliverAllIs(q, p.requests[op], a);
    SettledKeeps(p, op, a, NotifyRequests(p, op, a));
  }

  lemma SettledKeeps(p: Reporter, op: OutPoint, a: Answer, p': Reporter)
    requires QueuesOk(p) && op in p.requests && Settled(p, op, a, p')
    ensures QueuesOk(p') && (Coherent(p) ==> Coherent(p'))
  {
    forall x, i | x in p'.requests && 0 <= i < |p'.requests[x]|
      ensures p'.requests[x][i] !in p'.answers
    {
      var r := p.requests[x][i];
      assert r.outpoint == x;
      assert forall j :: 0 <= j < |p.requests[op]| ==> p.requests[op][j].outpoint == op;
      assert r !in p.requests[op];
    }
  }

  // Which spend an outpoint meets first

  function FirstIn(tx: Tx, op: OutPoint, k: nat): Option<nat>
    requires k <= |tx.ins|
  {
    if k == 0 then None
    else if FirstIn(tx, op, k - 1).Some? then FirstIn(tx, op, k - 1)
    else if tx.ins[k - 1] == op then Some(k - 1) else None
  }

  function FirstSpend(txs: seq<Tx>, op: OutPoint, height: nat): Option<Answer> {
    if txs == [] then None
    else
      var before := FirstSpend(txs[..|txs| - 1], op, height);
      var tx := txs[|txs| - 1];
      if before.Some? then before else SpendOf(tx, op, |tx.ins|, height)
  }

  function SpendOf(tx: Tx, op: OutPoint, k: nat, height: nat): Option<Answer>
    requires k <= |tx.ins|
  {
    match FirstIn(tx, op, k)
    case Some(i) => Some(Spent(tx, i, height))
    case None => None
  }

  /** The first spend really is the first: no earlier input of the block refers to the outpoint. */
  lemma {:induction false} FirstSpendIsFirst(txs: seq<Tx>, op: OutPoint, height: nat)
    ensures FirstSpend(txs, op, height).None? <==> forall t, i :: 0 <= t < |txs| && 0 <= i < |txs[t].ins| ==> txs[t].ins[i] != op
    ensures FirstSpend(txs, op, height).Some? ==>
      exists t :: 0 <= t < |txs| && IsFirstSpendAt(txs, op, height, t, FirstSpend(txs, op, height).value)
  {
    if txs != [] {
      var k := |txs| - 1;
      FirstSpendIsFirst(txs[..k], op, height);
      FirstInIsFirst(txs[k], op, |txs[k].ins|);
      if FirstSpend(txs[..k], op, height).Some? {
        var t :| 0 <= t < k && IsFirstSpendAt(txs[..k], op, height, t, FirstSpend(txs[..k], op, height).value);
        assert IsFirstSpendAt(txs, op, height, t, FirstSpend(txs, op, height).value);
      } else {
        assert forall t :: 0 <= t < k ==> txs[..k][t] == txs[t];
        if FirstSpend(txs, op, height).Some? {
          assert IsFirstSpendAt(txs, op, height, k, FirstSpend(txs, op, height).value);
        }
      }
    }
  }

  ghost predicate IsFirstSpendAt(txs: seq<Tx>, op: OutPoint, height: nat, t: int, a: Answer)
    requires 0 <= t < |txs|
  {
    && a.Spent? && a.tx == txs[t] && a.height == height && a.input < |txs[t].ins| && txs[t].ins[a.input] == op
    && (forall i :: 0 <= i < a.input ==> txs[t].ins[i] != op)
    && (forall u, i :: 0 <= u < t && 0 <= i < |txs[u].ins| ==> txs[u].ins[i] != op)
  }

  lemma {:induction false} FirstInIsFirst(tx: Tx, op: OutPoint, k: nat)
    requires k <= |tx.ins|
    ensures match FirstIn(tx, op, k)
      case Some(i) => i < k && tx.ins[i] == op && forall j :: 0 <= j < i ==> tx.ins[j] != op
      case None => forall j :: 0 <= j < k ==> tx.ins[j] != op
  {
    if k > 0 {
      FirstInIsFirst(tx, op, k - 1);
    }
  }

  // -------------------------------------------------------------------------
  // A block delivers, to each waiting outpoint, its first spend
  // -------------------------------------------------------------------------

  /** `m'` is `m` without the waiting outpoints that have a value under `f`. */
  ghost predicate Trimmed<V>(m: map<OutPoint, V>, waiting: set<OutPoint>, f: OutPoint -> Option<Answer>, m': map<OutPoint, V>) {
    && (forall op :: op in m' <==> op in m && (op in waiting ==> f(op).None?))
    && (forall op :: op in m' ==> m'[op] == m[op])
  }

  /** Exactly the requests whose outpoint has a value under `f` are told, and told that value. */
  ghost predicate Told(p: Reporter, f: OutPoint -> Option<Answer>, answers: map<Request, Answer>) {
    && (forall r :: r in answers <==> r in p.answers || (Waiting(p, r) && f(r.outpoint).Some?))
    && (forall r :: r in p.answers ==> answers[r] == p.answers[r])
    && (forall r :: r !in p.answers && r in answers ==> f(r.outpoint) == Some(answers[r]))
  }

  /** From `p` to `q`, exactly the outpoints with a value under `f` were settled, with that value. */
  ghost predicate Split(p: Reporter, f: OutPoint -> Option<Answer>, q: Reporter) {
    && QueuesOk(q) && q.entries == p.entries
    && Trimmed(p.requests, p.requests.Keys, f, q.requests)
    && Trimmed(p.initial, p.requests.Keys, f, q.initial)
    && Trimmed(p.outpoints, p.requests.Keys, f, q.outpoints)
    && Told(p, f, q.answers)
  }

  ghost predicate Extends(f: OutPoint -> Option<Answer>, op: OutPoint, a: Answer, f': OutPoint -> Option<Answer>) {
    forall x :: f'(x) == if x == op && f(x).None? then Some(a) else f(x)
  }

  lemma TrimOnce<V>(m: map<OutPoint, V>, waiting: set<OutPoint>, f: OutPoint -> Option<Answer>, m': map<OutPoint, V>,
                    op: OutPoint, a: Answer, f': OutPoint -> Option<Answer>)
    requires Trimmed(m, waiting, f, m') && Extends(f, op, a, f')
    ensures op in waiting && f(op).None? ==> Trimmed(m, waiting, f', m' - {op})
    ensures !(op in waiting && f(op).None?) ==> Trimmed(m, waiting, f', m')
  {
  }

  lemma TellOnce(p: Reporter, f: OutPoint -> Option<Answer>, q: Reporter, op: OutPoint, a: Answer,
                 f': OutPoint -> Option<Answer>, q': Reporter)
    requires QueuesOk(p) && Trimmed(p.requests, p.requests.Keys, f, q.requests) && Told(p, f, q.answers)
    requires Extends(f, op, a, f') && op in q.requests && Settled(q, op, a, q')
    ensures Told(p, f', q'.answers)
  {
    assert forall j :: 0 <= j < |p.requests[op]| ==> p.requests[op][j].outpoint == op;
    forall r
      ensures r in q.requests[op] <==> Waiting(p, r) && r.outpoint == op
    {
    }
  }

  lemma SplitOnce(p: Reporter, f: OutPoint -> Option<Answer>, q: Reporter, op: OutPoint, a: Answer,
                  f': OutPoint -> Option<Answer>)
    requires QueuesOk(p) && Split(p, f, q) && Extends(f, op, a, f')
    ensures Split(p, f', if op in q.requests then NotifyRequests(q, op, a) else q)
  {
    TrimOnce(p.requests, p.requests.Keys, f, q.requests, op, a, f');
    TrimOnce(p.initial, p.requests.Keys, f, q.initial, op, a, f');
    TrimOnce(p.outpoints, p.requests.Keys, f, q.outpoints, op, a, f');
    if op in q.requests {
      NotifyRequestsIs(q, op, a);
      TellOnce(p, f, q, op, a, f', NotifyRequests(q, op, a));
    }
  }

  ghost function SoFar(txs: seq<Tx>, tx: Tx, k: nat, height: nat): OutPoint -> Option<Answer>
    requires k <= |tx.ins|
  {
    (op: OutPoint) =>
      if FirstSpend(txs, op, height).Some? then FirstSpend(txs, op, height) else SpendOf(tx, op, k, height)
  }

  ghost function InBlock(txs: seq<Tx>, height: nat): OutPoint -> Option<Answer> {
    (op: OutPoint) => FirstSpend(txs, op, height)
  }

  lemma SplitSame(p: Reporter, f: OutPoint -> Option<Answer>, f': OutPoint -> Option<Answer>, q: Reporter)
    requires Split(p, f, q) && forall x :: f'(x) == f(x)
    ensures Split(p, f', q)
  {
  }

  lemma {:induction false} SpendInputsSplit(p: Reporter, q: Reporter, txs: seq<Tx>, tx: Tx, k: nat, height: nat)
    requires QueuesOk(p) && Split(p, InBlock(txs, height), q) && k <= |tx.ins|
    ensures Split(p, SoFar(txs, tx, k, height), SpendInputs(q, tx, k, height))
  {
    if k == 0 {
      SplitSame(p, InBlock(txs, height), SoFar(txs, tx, 0, height), q);
    } else {
      SpendInputsSplit(p, q, txs, tx, k - 1, height);
      SplitOnce(p, SoFar(txs, tx, k - 1, height), SpendInputs(q, tx, k - 1, height), tx.ins[k - 1],
                Spent(tx, k - 1, height), SoFar(txs, tx, k, height));
    }
  }

  lemma {:induction false} SpendTxsSplit(p: Reporter, txs: seq<Tx>, height: nat)
    requires QueuesOk(p)
    ensures Split(p, InBlock(txs, height), SpendTxs(p, txs, height))
  {
    if txs != [] {
      var k := |txs| - 1;
      var tx := txs[k];
      SpendTxsSplit(p, txs[..k], height);
      SpendInputsSplit(p, SpendTxs(p, txs[..k], height), txs[..k], tx, |tx.ins|, height);
      SplitSame(p, SoFar(txs[..k], tx, |tx.ins|, height), InBlock(txs, height), SpendTxs(p, txs, height));
    }
  }

  // -------------------------------------------------------------------------
  // New requests join
  // -------------------------------------------------------------------------

  ghost predicate For(rs: seq<Request>, op: OutPoint) {
    exists i :: 0 <= i < |rs| && rs[i].outpoint == op
  }

  ghost predicate Watches(rs: seq<Request>, op: OutPoint, script: Script) {
    exists i :: 0 <= i < |rs| && rs[i].outpoint == op && rs[i].script == script
  }

  /** `q` watches every outpoint it has requests for; those that `p` did not watch, with the script some new
      request gives. */
  ghost predicate Watching(p: Reporter, rs: seq<Request>, q: Reporter) {
    && (forall op :: op in q.outpoints <==> op in p.outpoints || For(rs, op))
    && (forall op :: op in q.outpoints ==> q.outpoints[op] in q.entries)
    && (forall op :: op in q.outpoints ==>
          if op in p.outpoints then q.outpoints[op] == p.outpoints[op] else Watches(rs, op, q.outpoints[op]))
  }

  ghost predicate Joined(p: Reporter, rs: seq<Request>, q: Reporter) {
    && QueuesOk(q) && q.answers == p.answers && q.initial == p.initial
    && (forall r :: Waiting(q, r) <==> Waiting(p, r) || r in rs)
    && (forall op :: op in q.requests <==> op in p.requests || For(rs, op))
    && Watching(p, rs, q)
  }

  ghost predicate Newcomers(p: Reporter, rs: seq<Request>) {
    && Distinct(rs)
    && forall i :: 0 <= i < |rs| ==> rs[i] !in p.answers && !Waiting(p, rs[i])
  }

  lemma ForMore(rs: seq<Request>, r: Request, all: seq<Request>, op: OutPoint)
    requires all == rs + [r]
    ensures For(all, op) <==> For(rs, op) || r.outpoint == op
    ensures forall s :: Watches(all, op, s) <==> Watches(rs, op, s) || (r.outpoint == op && r.script == s)
  {
    assert all[|rs|] == r && forall i :: 0 <= i < |rs| ==> all[i] == rs[i];
    forall s
      ensures Watches(all, op, s) <==> Watches(rs, op, s) || (r.outpoint == op && r.script == s)
    {
    }
  }

  lemma WatchOne(p: Reporter, rs: seq<Request>, q: Reporter, r: Request, all: seq<Request>)
    requires Watching(p, rs, q) && all == rs + [r]
    ensures Watching(p, all, AddRequest(q, r))
  {
    forall op
      ensures For(all, op) <==> For(rs, op) || r.outpoint == op
      ensures forall s :: Watches(all, op, s) <==> Watches(rs, op, s) || (r.outpoint == op && r.script == s)
    {
      ForMore(rs, r, all, op);
    }
    assert r.script in q.entries + [r.script];
  }

  lemma JoinOne(p: Reporter, rs: seq<Request>, q: Reporter, r: Request, all: seq<Request>)
    requires Joined(p, rs, q) && r !in p.answers && !Waiting(p, r) && r !in rs && all == rs + [r]
    ensures Joined(p, all, AddRequest(q, r))
  {
    JoinQueues(q, r);
    WatchOne(p, rs, q, r, all);
    forall op
      ensures For(all, op) <==> For(rs, op) || r.outpoint == op
    {
      ForMore(rs, r, all, op);
    }
  }

  lemma JoinQueues(q: Reporter, r: Request)
    requires QueuesOk(q) && r !in q.answers && !Waiting(q, r)
    ensures QueuesOk(AddRequest(q, r))
    ensures forall x :: Waiting(AddRequest(q, r), x) <==> Waiting(q, x) || x == r
  {
    var q' := AddRequest(q, r);
    var op := r.outpoint;
    assert op in q.requests ==> r !in q.requests[op];
    forall x
      ensures Waiting(q', x) <==> Waiting(q, x) || x == r
    {
      if x.outpoint == op {
        assert q'.requests[op] == (if op in q.requests then q.requests[op] else []) + [r];
      }
    }
  }

  lemma NewcomersFront(p: Reporter, rs: seq<Request>)
    requires Newcomers(p, rs) && rs != []
    ensures var k := |rs| - 1; rs[..k] + [rs[k]] == rs && Newcomers(p, rs[..k])
    ensures var r := rs[|rs| - 1]; r !in p.answers && !Waiting(p, r) && r !in rs[..|rs| - 1]
  {
  }

  lemma JoinNone(p: Reporter)
    requires Coherent(p)
    ensures Joined(p, [], p)
  {
  }

  lemma {:induction false} AddRequestsJoin(p: Reporter, rs: seq<Request>)
    requires Coherent(p) && Newcomers(p, rs)
    ensures Joined(p, rs, AddRequests(p, rs))
  {
    if rs == [] {
      JoinNone(p);
    } else {
      var k := |rs| - 1;
      NewcomersFront(p, rs);
      AddRequestsJoin(p, rs[..k]);
      JoinOne(p, rs[..k], AddRequests(p, rs[..k]), rs[k], rs);
    }
  }

  lemma {:induction false} SetInitialIs(p: Reporter, txs: seq<Tx>, rs: seq<Request>)
    ensures var q := SetInitial(p, txs, rs);
      && q == p.(initial := q.initial)
      && (forall op :: op in p.initial ==> op in q.initial)
      && (forall i :: 0 <= i < |rs| ==>
            rs[i].outpoint in q.initial && q.initial[rs[i].outpoint] == Found(txs, rs[i].outpoint))
      && (forall op :: op in q.initial ==>
            || (exists i :: 0 <= i < |rs| && rs[i].outpoint == op)
            || (op in p.initial && q.initial[op] == p.initial[op]))
  {
    if rs != [] {
      var k := |rs| - 1;
      SetInitialIs(p, txs, rs[..k]);
      var q := SetInitial(p, txs, rs);
      var q0 := SetInitial(p, txs, rs[..k]);
      forall op | op in q.initial
        ensures (exists i :: 0 <= i < |rs| && rs[i].outpoint == op) || (op in p.initial && q.initial[op] == p.initial[op])
      {
        if op == rs[k].outpoint {
        } else if i :| 0 <= i < k && rs[..k][i].outpoint == op {
          assert rs[i].outpoint == op;
        }
      }
      forall i | 0 <= i < |rs|
        ensures rs[i].outpoint in q.initial && q.initial[rs[i].outpoint] == Found(txs, rs[i].outpoint)
      {
        if i < k {
          assert rs[..k][i] == rs[i];
        }
      }
    }
  }
}
