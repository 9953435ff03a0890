/** One batch of the UTXO scanner, cmd/spv/utxoscanner.go: a filter-guided pass over the chain which requests
    join at their birth height, and what it tells each of them. */
module UtxoBatch {
  import opened Wrappers
  import opened Rescan
  import opened SpendReporter

  // -------------------------------------------------------------------------
  // What one block does to the reporter
  // -------------------------------------------------------------------------

  ghost predicate Present(p: Reporter, rs: seq<Request>, r: Request) {
    Waiting(p, r) || r in rs
  }

  /** Requests whose outpoint the block spends are told its first spend; the others wait on. */
  ghost predicate Sorted(p: Reporter, txs: seq<Tx>, rs: seq<Request>, height: nat, q: Reporter) {
    && (forall r :: Waiting(q, r) <==> Present(p, rs, r) && FirstSpend(txs, r.outpoint, height).None?)
    && (forall r :: r in q.answers <==>
          r in p.answers || (Present(p, rs, r) && FirstSpend(txs, r.outpoint, height).Some?))
    && (forall r :: r in p.answers ==> q.answers[r] == p.answers[r])
    && (forall r :: r !in p.answers && r in q.answers ==> FirstSpend(txs, r.outpoint, height) == Some(q.answers[r]))
  }

  /** The output kept for an outpoint is the one the latest request's birth block has; the script watched for
      it is the one its earliest waiting request gave. */
  ghost predicate Kept(p: Reporter, txs: seq<Tx>, rs: seq<Request>, q: Reporter) {
    && (forall op :: op in q.initial ==>
          if For(rs, op) then q.initial[op] == Found(txs, op) else op in p.initial && q.initial[op] == p.initial[op])
    && (forall op :: op in q.outpoints ==>
          if op in p.outpoints then q.outpoints[op] == p.outpoints[op] else Watches(rs, op, q.outpoints[op]))
  }

  ghost predicate Advanced(p: Reporter, txs: seq<Tx>, rs: seq<Request>, height: nat, q: Reporter) {
    Coherent(q) && Sorted(p, txs, rs, height, q) && Kept(p, txs, rs, q)
  }

  /** New requests have joined, and the outputs they expect were looked up. */
  ghost predicate Entered(p: Reporter, txs: seq<Tx>, rs: seq<Request>, q: Reporter) {
    && Coherent(q) && q.answers == p.answers
    && (forall r :: Waiting(q, r) <==> Present(p, rs, r))
    && Kept(p, txs, rs, q)
  }

  lemma LookedUp(p: Reporter, txs: seq<Tx>, rs: seq<Request>, a: Reporter, q: Reporter)
    requires Joined(p, rs, a) && Linked(p) && q == SetInitial(a, txs, rs)
    ensures Linked(q) && Kept(p, txs, rs, q)
  {
    SetInitialIs(a, txs, rs);
    forall op
      ensures op in q.initial <==> op in q.requests
      ensures op in q.initial ==>
        if For(rs, op) then q.initial[op] == Found(txs, op) else op in p.initial && q.initial[op] == p.initial[op]
    {
      if For(rs, op) {
        var i :| 0 <= i < |rs| && rs[i].outpoint == op;
      }
    }
  }

  lemma NewcomersEnter(p: Reporter, txs: seq<Tx>, rs: seq<Request>)
    requires Coherent(p) && Newcomers(p, rs)
    ensures Entered(p, txs, rs, SetInitial(AddRequests(p, rs), txs, rs))
  {
    AddRequestsJoin(p, rs);
    var a := AddRequests(p, rs);
    SetInitialIs(a, txs, rs);
    LookedUp(p, txs, rs, a, SetInitial(a, txs, rs));
    SameQueues(a, SetInitial(a, txs, rs));
  }

  lemma SameQueues(p: Reporter, q: Reporter)
    requires QueuesOk(p) && q.requests == p.requests && q.answers == p.answers && q.duplicates == p.duplicates
    ensures QueuesOk(q) && forall r :: Waiting(q, r) <==> Waiting(p, r)
  {
  }

  lemma NoneJoin(p: Reporter, txs: seq<Tx>)
    requires Coherent(p)
    ensures Entered(p, txs, [], p)
  {
  }

  lemma ScannedAdvances(p: Reporter, txs: seq<Tx>, rs: seq<Request>, height: nat)
    requires Coherent(p) && Newcomers(p, rs)
    ensures Advanced(p, txs, rs, height, Scanned(p, txs, rs, height))
  {
    var a := if rs == [] then p else SetInitial(AddRequests(p, rs), txs, rs);
    if rs == [] {
      NoneJoin(p, txs);
    } else {
      NewcomersEnter(p, txs, rs);
    }
    SpendTxsSplit(a, txs, height);
    SplitAdvances(p, txs, rs, height, a, Scanned(p, txs, rs, height));
  }

  lemma SplitSorts(p: Reporter, txs: seq<Tx>, rs: seq<Request>, height: nat, a: Reporter, q: Reporter)
    requires QueuesOk(a) && a.answers == p.answers && forall r :: Waiting(a, r) <==> Present(p, rs, r)
    requires Split(a, InBlock(txs, height), q)
    ensures Sorted(p, txs, rs, height, q)
  {
    var f := InBlock(txs, height);
    assert forall op :: f(op) == FirstSpend(txs, op, height);
    assert Told(a, f, q.answers) && Trimmed(a.requests, a.requests.Keys, f, q.requests);
  }

  lemma SplitLinks(a: Reporter, f: OutPoint -> Option<Answer>, q: Reporter)
    requires Linked(a) && Split(a, f, q)
    ensures Linked(q)
  {
  }

  lemma SplitAdvances(p: Reporter, txs: seq<Tx>, rs: seq<Request>, height: nat, a: Reporter, q: Reporter)
    requires Entered(p, txs, rs, a) && Split(a, InBlock(txs, height), q)
    ensures Advanced(p, txs, rs, height, q)
  {
    SplitSorts(p, txs, rs, height, a, q);
    SplitLinks(a, InBlock(txs, height), q);
  }

  lemma Relisted(q: Reporter, p': Reporter)
    requires Linked(q) && p' == q.(entries := p'.entries) && (Lists(p'.entries, q.outpoints) || p'.entries == q.entries)
    ensures Linked(p')
  {
  }

  lemma ProcessedAdvances(p: Reporter, txs: seq<Tx>, rs: seq<Request>, height: nat, p': Reporter)
    requires Coherent(p) && Newcomers(p, rs) && Processed(p, txs, rs, height, p')
    ensures Advanced(p, txs, rs, height, p')
  {
    ScannedAdvances(p, txs, rs, height);
    var q := Scanned(p, txs, rs, height);
    Relisted(q, p');
    SameQueues(q, p');
  }

  // -------------------------------------------------------------------------
  // The first spend over a stretch of blocks, and the reference answer
  // -------------------------------------------------------------------------

  /** The first spend in blocks `from` to `to - 1`. */
  function SpendFrom(chain: seq<Block>, op: OutPoint, from: nat, to: nat): Option<Answer>
    requires to <= |chain|
  {
    if to <= from then None
    else
      var before := SpendFrom(chain, op, from, to - 1);
      if before.Some? then before else FirstSpend(chain[to - 1].txs, op, to - 1)
  }

  function FromOutput(found: Option<Script>): Answer {
    match found
    case Some(s) => Unspent(s)
    case None => NotFound
  }

  /** What a scan of every block below height `end` for this one request gives. */
  function NaiveAnswer(chain: seq<Block>, end: nat, r: Request): Answer
    requires r.birth < end <= |chain|
  {
    match SpendFrom(chain, r.outpoint, r.birth, end)
    case Some(a) => a
    case None => FromOutput(Found(chain[r.birth].txs, r.outpoint))
  }

  ghost predicate SpentIn(b: Block, op: OutPoint) {
    exists t, i :: 0 <= t < |b.txs| && 0 <= i < |b.txs[t].ins| && b.txs[t].ins[i] == op
  }

  lemma SpentInIs(b: Block, op: OutPoint, height: nat)
    ensures SpentIn(b, op) <==> FirstSpend(b.txs, op, height).Some?
  {
    FirstSpendIsFirst(b.txs, op, height);
  }

  /** The spend is in the lowest block of the stretch that spends the outpoint, and is the first there. */
  lemma {:induction false} SpendFromIs(chain: seq<Block>, op: OutPoint, from: nat, to: nat)
    requires to <= |chain|
    ensures SpendFrom(chain, op, from, to).None? <==> forall h :: from <= h < to ==> !SpentIn(chain[h], op)
    ensures forall h :: from <= h < to && SpentIn(chain[h], op) && (forall k :: from <= k < h ==> !SpentIn(chain[k], op)) ==>
      SpendFrom(chain, op, from, to) == FirstSpend(chain[h].txs, op, h)
  {
    if from < to {
      SpendFromIs(chain, op, from, to - 1);
      SpentInIs(chain[to - 1], op, to - 1);
    }
  }

  /** What a lone scan answers: the first spend in the chain from the birth on; else the output, if the block at the
      birth height creates it; else that there is none. */
  lemma NaiveAnswerIs(chain: seq<Block>, end: nat, r: Request)
    requires r.birth < end <= |chain|
    ensures var a := NaiveAnswer(chain, end, r);
      && (forall h :: r.birth <= h < end && SpentIn(chain[h], r.outpoint)
                      && (forall k :: r.birth <= k < h ==> !SpentIn(chain[k], r.outpoint)) ==>
            Some(a) == FirstSpend(chain[h].txs, r.outpoint, h))
      && ((forall h :: r.birth <= h < end ==> !SpentIn(chain[h], r.outpoint)) ==>
            && (forall s :: a == Unspent(s) <==> Found(chain[r.birth].txs, r.outpoint) == Some(s))
            && (a == NotFound <==> Found(chain[r.birth].txs, r.outpoint).None?))
  {
    SpendFromIs(chain, r.outpoint, r.birth, end);
    forall h | r.birth <= h < end && SpentIn(chain[h], r.outpoint)
               && forall k :: r.birth <= k < h ==> !SpentIn(chain[k], r.outpoint)
      ensures Some(NaiveAnswer(chain, end, r)) == FirstSpend(chain[h].txs, r.outpoint, h)
    {
      SpentInIs(chain[h], r.outpoint, h);
    }
  }

  // -------------------------------------------------------------------------
  // A batch
  // -------------------------------------------------------------------------

  /** `arrivals[h]` are the requests taken from the queue at height `h`. */
  ghost predicate In(arrivals: seq<seq<Request>>, r: Request) {
    r.birth < |arrivals| && r in arrivals[r.birth]
  }

  /** Requests are taken at their birth height, once, unanswered, and their scripts are the outpoints' own. */
  ghost predicate Schedule(l: Ledger, arrivals: seq<seq<Request>>, answers: map<Request, Answer>) {
    && (forall h :: 0 <= h < |arrivals| ==> Distinct(arrivals[h]))
    && forall h, i :: 0 <= h < |arrivals| && 0 <= i < |arrivals[h]| ==>
         var r := arrivals[h][i];
         r.birth == h && r !in answers && r.script == l.scriptOf(r.outpoint) && !l.isNil(r.script)
  }

  /** The greatest height at which a request for the outpoint was taken. */
  ghost function LastFor(arrivals: seq<seq<Request>>, op: OutPoint): (h: Option<nat>)
    ensures h.Some? ==> h.value < |arrivals| && For(arrivals[h.value], op)
  {
    if arrivals == [] then None
    else if For(arrivals[|arrivals| - 1], op) then Some(|arrivals| - 1)
    else LastFor(arrivals[..|arrivals| - 1], op)
  }

  /** What the batch tells a request. */
  ghost function BatchAnswer(chain: seq<Block>, arrivals: seq<seq<Request>>, r: Request): Answer
    requires |arrivals| <= |chain| && In(arrivals, r)
  {
    match SpendFrom(chain, r.outpoint, r.birth, |arrivals|)
    case Some(a) => a
    case None =>
      LastForIn(arrivals, r);
      FromOutput(Found(chain[LastFor(arrivals, r.outpoint).value].txs, r.outpoint))
  }

  lemma {:induction false} LastForIn(arrivals: seq<seq<Request>>, r: Request)
    requires In(arrivals, r)
    ensures LastFor(arrivals, r.outpoint).Some? && r.birth <= LastFor(arrivals, r.outpoint).value
  {
    var k := |arrivals| - 1;
    if r.birth == k {
      var i :| 0 <= i < |arrivals[k]| && arrivals[k][i] == r;
      assert For(arrivals[k], r.outpoint);
    } else {
      LastForIn(arrivals[..k], r);
    }
  }

  /** One height of a scan: fetch the block if somebody joins or the filter matches. */
  ghost predicate HeightStep(b: Block, rs: seq<Request>, height: nat, p: Reporter, p': Reporter) {
    if rs != [] || FilterMatches(b.filter, p.entries) then Processed(p, b.txs, rs, height, p') else p' == p
  }

  ghost predicate GenuineWatch(l: Ledger, p: Reporter) {
    forall op :: op in p.outpoints ==> p.outpoints[op] == l.scriptOf(op) && !l.isNil(p.outpoints[op])
  }

  /** A block whose filter does not match spends nothing that is waited for. */
  lemma UnmatchedSpendsNothing(l: Ledger, b: Block, p: Reporter, height: nat, op: OutPoint)
    requires Sound(l, b) && Coherent(p) && GenuineWatch(l, p) && op in p.requests
    requires !FilterMatches(b.filter, p.entries)
    ensures FirstSpend(b.txs, op, height).None?
  {
    FirstSpendIsFirst(b.txs, op, height);
    var s := l.scriptOf(op);
    assert s in p.entries && !InFilter(l, b, s);
    forall t, i | 0 <= t < |b.txs| && 0 <= i < |b.txs[t].ins|
      ensures b.txs[t].ins[i] != op
    {
      assert !SpendsScript(l, b.txs[t], s);
    }
  }

  lemma SkippedAdvances(l: Ledger, b: Block, p: Reporter, height: nat)
    requires Sound(l, b) && Coherent(p) && GenuineWatch(l, p) && !FilterMatches(b.filter, p.entries)
    ensures Advanced(p, b.txs, [], height, p)
  {
    NoneJoin(p, b.txs);
    forall op | op in p.requests
      ensures FirstSpend(b.txs, op, height).None?
    {
      UnmatchedSpendsNothing(l, b, p, height, op);
    }
  }

  /** After the heights below |arrivals|: who was told what, who waits, and what is kept for the outpoints. */
  ghost predicate BatchAt(l: Ledger, chain: seq<Block>, arrivals: seq<seq<Request>>, answers: map<Request, Answer>, p: Reporter)
    requires |arrivals| <= |chain|
  {
    && Coherent(p) && GenuineWatch(l, p)
    && ToldSoFar(chain, arrivals, answers, p)
    && InitialsAt(chain, arrivals, p)
  }

  ghost predicate ToldSoFar(chain: seq<Block>, arrivals: seq<seq<Request>>, answers: map<Request, Answer>, p: Reporter)
    requires |arrivals| <= |chain|
  {
    && (forall r :: Waiting(p, r) <==> In(arrivals, r) && SpendFrom(chain, r.outpoint, r.birth, |arrivals|).None?)
    && (forall r :: r in p.answers <==>
          r in answers || (In(arrivals, r) && SpendFrom(chain, r.outpoint, r.birth, |arrivals|).Some?))
    && (forall r :: r in answers ==> p.answers[r] == answers[r])
    && (forall r :: r !in answers && r in p.answers ==>
          SpendFrom(chain, r.outpoint, r.birth, |arrivals|) == Some(p.answers[r]))
  }

  ghost predicate InitialsAt(chain: seq<Block>, arrivals: seq<seq<Request>>, p: Reporter)
    requires |arrivals| <= |chain|
  {
    forall op :: op in p.initial ==>
      LastFor(arrivals, op).Some? && p.initial[op] == Found(chain[LastFor(arrivals, op).value].txs, op)
  }

  lemma Arrive(arrivals: seq<seq<Request>>, rs: seq<Request>, all: seq<seq<Request>>, r: Request)
    requires all == arrivals + [rs] && forall i :: 0 <= i < |rs| ==> rs[i].birth == |arrivals|
    ensures In(all, r) <==> In(arrivals, r) || r in rs
    ensures r in rs ==> r.birth == |arrivals|
    ensures In(arrivals, r) ==> r.birth < |arrivals|
  {
    assert all[|arrivals|] == rs && forall h :: 0 <= h < |arrivals| ==> all[h] == arrivals[h];
  }

  lemma AdvancedTold(chain: seq<Block>, arrivals: seq<seq<Request>>, rs: seq<Request>,
                     all: seq<seq<Request>>, answers: map<Request, Answer>, p: Reporter, p': Reporter)
    requires |arrivals| < |chain| && all == arrivals + [rs]
    requires forall i :: 0 <= i < |rs| ==> rs[i].birth == |arrivals|
    requires ToldSoFar(chain, arrivals, answers, p)
    requires Sorted(p, chain[|arrivals|].txs, rs, |arrivals|, p')
    ensures ToldSoFar(chain, all, answers, p')
  {
    forall r
      ensures In(all, r) <==> In(arrivals, r) || r in rs
      ensures r in rs ==> r.birth == |arrivals|
      ensures In(arrivals, r) ==> r.birth < |arrivals|
    {
      Arrive(arrivals, rs, all, r);
    }
  }

  lemma AdvancedWatch(l: Ledger, txs: seq<Tx>, rs: seq<Request>, p: Reporter, p': Reporter)
    requires Kept(p, txs, rs, p') && GenuineWatch(l, p)
    requires forall i :: 0 <= i < |rs| ==> rs[i].script == l.scriptOf(rs[i].outpoint) && !l.isNil(rs[i].script)
    ensures GenuineWatch(l, p')
  {
  }

  lemma AdvancedInitials(chain: seq<Block>, arrivals: seq<seq<Request>>, rs: seq<Request>, all: seq<seq<Request>>,
                         p: Reporter, p': Reporter)
    requires |arrivals| < |chain| && all == arrivals + [rs]
    requires Kept(p, chain[|arrivals|].txs, rs, p') && InitialsAt(chain, arrivals, p)
    ensures InitialsAt(chain, all, p')
  {
    assert all[|arrivals|] == rs && all[..|arrivals|] == arrivals;
  }

  lemma AdvancedBatch(l: Ledger, chain: seq<Block>, arrivals: seq<seq<Request>>, rs: seq<Request>,
                      all: seq<seq<Request>>, answers: map<Request, Answer>, p: Reporter, p': Reporter)
    requires |arrivals| < |chain| && all == arrivals + [rs] && Schedule(l, all, answers)
    requires BatchAt(l, chain, arrivals, answers, p)
    requires Advanced(p, chain[|arrivals|].txs, rs, |arrivals|, p')
    ensures BatchAt(l, chain, all, answers, p')
  {
    var h := |arrivals|;
    assert all[h] == rs;
    assert forall i :: 0 <= i < |rs| ==> all[h][i] == rs[i];
    AdvancedTold(chain, arrivals, rs, all, answers, p, p');
    AdvancedWatch(l, chain[h].txs, rs, p, p');
    AdvancedInitials(chain, arrivals, rs, all, p, p');
  }

  lemma ArrivalsAreNew(l: Ledger, chain: seq<Block>, arrivals: seq<seq<Request>>, rs: seq<Request>,
                       all: seq<seq<Request>>, answers: map<Request, Answer>, p: Reporter)
    requires |arrivals| < |chain| && all == arrivals + [rs] && Schedule(l, all, answers)
    requires BatchAt(l, chain, arrivals, answers, p)
    ensures Newcomers(p, rs)
  {
    assert all[|arrivals|] == rs;
    forall i | 0 <= i < |rs|
      ensures rs[i] !in p.answers && !Waiting(p, rs[i])
    {
      assert all[|arrivals|][i].birth == |arrivals|;
    }
  }

  lemma HeightAdvances(l: Ledger, chain: seq<Block>, arrivals: seq<seq<Request>>, rs: seq<Request>,
                       all: seq<seq<Request>>, answers: map<Request, Answer>, p: Reporter, p': Reporter)
    requires |arrivals| < |chain| && all == arrivals + [rs] && Schedule(l, all, answers)
    requires BatchAt(l, chain, arrivals, answers, p) && Sound(l, chain[|arrivals|])
    requires HeightStep(chain[|arrivals|], rs, |arrivals|, p, p')
    ensures BatchAt(l, chain, all, answers, p')
  {
    var b := chain[|arrivals|];
    if rs != [] || FilterMatches(b.filter, p.entries) {
      ArrivalsAreNew(l, chain, arrivals, rs, all, answers, p);
      ProcessedAdvances(p, b.txs, rs, |arrivals|, p');
    } else {
      SkippedAdvances(l, b, p, |arrivals|);
    }
    AdvancedBatch(l, chain, arrivals, rs, all, answers, p, p');
  }

  // -------------------------------------------------------------------------
  // Whole batches
  // -------------------------------------------------------------------------

  /** A batch that scans the heights from `start` up to |arrivals|; nobody joins below `start`. */
  ghost predicate IsBatch(chain: seq<Block>, start: nat, arrivals: seq<seq<Request>>, answers: map<Request, Answer>,
                          states: seq<Reporter>)
  {
    && start <= |arrivals| <= |chain| && |states| == |arrivals| - start + 1
    && (forall h :: 0 <= h < start ==> arrivals[h] == [])
    && states[0] == Fresh(answers)
    && (forall k :: 0 <= k < |arrivals| - start ==> StepAt(chain, start, arrivals, states, k))
  }

  ghost predicate StepAt(chain: seq<Block>, start: nat, arrivals: seq<seq<Request>>, states: seq<Reporter>, k: int)
    requires 0 <= k < |arrivals| - start && start <= |arrivals| <= |chain| && |states| == |arrivals| - start + 1
  {
    HeightStep(chain[start + k], arrivals[start + k], start + k, states[k], states[k + 1])
  }

  /** How the batch ends: whoever still waits is told what was kept for the outpoint. */
  ghost predicate Finished(p: Reporter, p': Reporter) {
    Drained(p, found => FromOutput(found), p')
  }

  lemma {:induction false} NobodyYet(arrivals: seq<seq<Request>>)
    requires forall h :: 0 <= h < |arrivals| ==> arrivals[h] == []
    ensures forall op :: LastFor(arrivals, op) == None
    ensures forall r :: !In(arrivals, r)
  {
    if arrivals != [] {
      NobodyYet(arrivals[..|arrivals| - 1]);
    }
  }

  lemma {:induction false} BatchAdvances(l: Ledger, chain: seq<Block>, start: nat, arrivals: seq<seq<Request>>,
                                         answers: map<Request, Answer>, states: seq<Reporter>, k: nat)
    requires IsBatch(chain, start, arrivals, answers, states) && Schedule(l, arrivals, answers)
    requires forall h :: 0 <= h < |chain| ==> Sound(l, chain[h])
    requires k < |states|
    ensures BatchAt(l, chain, arrivals[..start + k], answers, states[k])
  {
    if k == 0 {
      NobodyYet(arrivals[..start]);
    } else {
      BatchAdvances(l, chain, start, arrivals, answers, states, k - 1);
      var h := start + k - 1;
      var all := arrivals[..h + 1];
      assert all == arrivals[..h] + [arrivals[h]];
      assert Schedule(l, all, answers);
      assert StepAt(chain, start, arrivals, states, k - 1);
      HeightAdvances(l, chain, arrivals[..h], arrivals[h], all, answers, states[k - 1], states[k]);
    }
  }

  /** Every request the batch took is told exactly one thing, `BatchAnswer`; nothing else is told to anyone;
      nobody is left waiting and no result was ever refused. */
  ghost predicate AllTold(chain: seq<Block>, arrivals: seq<seq<Request>>, answers: map<Request, Answer>, p: Reporter)
    requires |arrivals| <= |chain|
  {
    && (forall r :: r in p.answers <==> r in answers || In(arrivals, r))
    && (forall r :: r in answers ==> p.answers[r] == answers[r])
    && (forall r :: In(arrivals, r) && r !in answers ==> p.answers[r] == BatchAnswer(chain, arrivals, r))
    && p.duplicates == 0 && p.requests.Keys == {}
  }

  lemma BatchIsExact(l: Ledger, chain: seq<Block>, start: nat, arrivals: seq<seq<Request>>,
                     answers: map<Request, Answer>, states: seq<Reporter>, p': Reporter)
    requires IsBatch(chain, start, arrivals, answers, states) && Schedule(l, arrivals, answers)
    requires forall h :: 0 <= h < |chain| ==> Sound(l, chain[h])
    requires Finished(states[|states| - 1], p')
    ensures AllTold(chain, arrivals, answers, p')
  {
    assert BatchAt(l, chain, arrivals, answers, states[|states| - 1]) by {
      BatchAdvances(l, chain, start, arrivals, answers, states, |states| - 1);
      assert arrivals[..start + (|states| - 1)] == arrivals;
    }
    EndOfBatch(l, chain, arrivals, answers, states[|states| - 1], p');
  }

  lemma EndOfBatch(l: Ledger, chain: seq<Block>, arrivals: seq<seq<Request>>,
                   answers: map<Request, Answer>, p: Reporter, p': Reporter)
    requires |arrivals| <= |chain| && Schedule(l, arrivals, answers)
    requires BatchAt(l, chain, arrivals, answers, p) && Finished(p, p')
    ensures AllTold(chain, arrivals, answers, p')
  {
    forall r | In(arrivals, r)
      ensures r in p'.answers && p'.answers[r] == BatchAnswer(chain, arrivals, r)
    {
      assert r !in answers;
      if SpendFrom(chain, r.outpoint, r.birth, |arrivals|).None? {
        assert Waiting(p, r);
        LastForIn(arrivals, r);
        assert r.outpoint in p.initial;
      }
    }
  }

  // -------------------------------------------------------------------------
  // When the batch agrees with a scan for each request alone
  // -------------------------------------------------------------------------

  ghost predicate Creates(b: Block, op: OutPoint) {
    Found(b.txs, op).Some?
  }

  /** No two blocks create the same output (BIP 30 and BIP 34 see to this). */
  ghost predicate OneCreation(chain: seq<Block>, op: OutPoint) {
    forall h, k :: 0 <= h < k < |chain| ==> !(Creates(chain[h], op) && Creates(chain[k], op))
  }

  /** The batch tells a request what a scan for it alone would, exactly when the outpoint is spent, or no request
      for it with a later birth height joined, or neither of the two birth blocks creates the output. */
  lemma BatchIsNaive(chain: seq<Block>, arrivals: seq<seq<Request>>, r: Request)
    requires |arrivals| <= |chain| && In(arrivals, r) && OneCreation(chain, r.outpoint)
    ensures LastFor(arrivals, r.outpoint).Some? && r.birth <= LastFor(arrivals, r.outpoint).value
    ensures BatchAnswer(chain, arrivals, r) == NaiveAnswer(chain, |arrivals|, r) <==>
      || SpendFrom(chain, r.outpoint, r.birth, |arrivals|).Some?
      || LastFor(arrivals, r.outpoint).value == r.birth
      || (!Creates(chain[r.birth], r.outpoint) && !Creates(chain[LastFor(arrivals, r.outpoint).value], r.outpoint))
  {
    LastForIn(arrivals, r);
  }

  /** Requests for one outpoint that share their birth height are all told what a scan for each alone would. */
  lemma SharedBirthIsNaive(chain: seq<Block>, arrivals: seq<seq<Request>>, r: Request)
    requires |arrivals| <= |chain| && In(arrivals, r)
    requires forall h, i :: 0 <= h < |arrivals| && 0 <= i < |arrivals[h]| && arrivals[h][i].outpoint == r.outpoint ==> h == r.birth
    ensures BatchAnswer(chain, arrivals, r) == NaiveAnswer(chain, |arrivals|, r)
  {
    LastForIn(arrivals, r);
    var last := LastFor(arrivals, r.outpoint).value;
    var i :| 0 <= i < |arrivals[last]| && arrivals[last][i].outpoint == r.outpoint;
  }

  /** The output is there at height 0 and never spent, yet a second request born at height 1 makes the batch
      tell the first that there is no such output: a whole batch, over blocks with sound filters. */
  lemma LaterBirthLosesOutput(id: TxId, script: Script)
    returns (l: Ledger, chain: seq<Block>, arrivals: seq<seq<Request>>, states: seq<Reporter>, end: Reporter, first: Request)
    ensures |chain| == |arrivals| == 2 && Schedule(l, arrivals, map[]) && In(arrivals, first)
    ensures forall h :: 0 <= h < |chain| ==> Sound(l, chain[h])
    ensures IsBatch(chain, 0, arrivals, map[], states) && Finished(states[|states| - 1], end)
    ensures NaiveAnswer(chain, 2, first) == Unspent(script)
    ensures first in end.answers && end.answers[first] == NotFound
  {
    var op, tx := OutPoint(id, 0), Tx(id, [], [script]);
    var f := Filter(1, _ => true);
    l := Ledger(_ => None, _ => script, _ => false, _ => false);
    chain := [Block([tx], f), Block([], f)];
    first := Request(0, op, script, 0);
    var second := Request(1, op, script, 1);
    arrivals := [[first], [second]];
    var s0 := Fresh(map[]);
    var s1 := Reporter(map[op := [first]], map[op := Some(script)], map[op := script], [script], map[], 0);
    var s2 := Reporter(map[op := [first, second]], map[op := None], map[op := script], [script], map[], 0);
    states := [s0, s1, s2];
    end := Reporter(map[], map[], map[], [script], map[first := NotFound, second := NotFound], 0);
    FirstStep(tx, first, script);
    SecondStep(first, second, script);
    TwoSteps(chain, arrivals, states);
    BothToldNotFound(first, second, script);
    NothingSpent(chain, op, tx);
    OpenFilterIsSound(l, chain[0]);
    OpenFilterIsSound(l, chain[1]);
  }

  lemma OpenFilterIsSound(l: Ledger, b: Block)
    requires b.filter.size != 0 && forall list :: b.filter.matchAny(list)
    ensures Sound(l, b)
  {
  }

  lemma TwoSteps(chain: seq<Block>, arrivals: seq<seq<Request>>, states: seq<Reporter>)
    requires |chain| == |arrivals| == 2 && |states| == 3 && states[0] == Fresh(map[])
    requires arrivals[0] != [] && Processed(states[0], chain[0].txs, arrivals[0], 0, states[1])
    requires arrivals[1] != [] && Processed(states[1], chain[1].txs, arrivals[1], 1, states[2])
    ensures IsBatch(chain, 0, arrivals, map[], states)
  {
    forall k | 0 <= k < 2
      ensures StepAt(chain, 0, arrivals, states, k)
    {
      if k == 0 {
        assert HeightStep(chain[0], arrivals[0], 0, states[0], states[1]);
      } else {
        assert HeightStep(chain[1], arrivals[1], 1, states[1], states[2]);
      }
    }
  }

  lemma BothToldNotFound(first: Request, second: Request, script: Script)
    requires second.outpoint == first.outpoint
    ensures var op := first.outpoint;
      Finished(Reporter(map[op := [first, second]], map[op := None], map[op := script], [script], map[], 0),
               Reporter(map[], map[], map[], [script], map[first := NotFound, second := NotFound], 0))
  {
    var op := first.outpoint;
    var p := Reporter(map[op := [first, second]], map[op := None], map[op := script], [script], map[], 0);
    forall r
      ensures Waiting(p, r) <==> r == first || r == second
    {
      assert p.requests[op][0] == first && p.requests[op][1] == second;
    }
  }

  lemma FirstStep(tx: Tx, first: Request, script: Script)
    requires tx.ins == [] && tx.outs == [script] && first.outpoint == OutPoint(tx.id, 0) && first.script == script
    ensures Processed(Fresh(map[]), [tx], [first], 0,
      Reporter(map[first.outpoint := [first]], map[first.outpoint := Some(script)], map[first.outpoint := script],
               [script], map[], 0))
  {
    var op := first.outpoint;
    var rs, txs := [first], [tx];
    assert rs[..0] == [] && txs[..0] == [];
    var q := Scanned(Fresh(map[]), txs, rs, 0);
    var nobody: seq<Request>, nothing: seq<Script> := [], [];
    assert nobody + [first] == [first] && nothing + [script] == [script];
    assert AddRequests(Fresh(map[]), rs) == AddRequest(Fresh(map[]), first);
    assert SetInitial(AddRequests(Fresh(map[]), rs), txs, rs[..0]) == AddRequests(Fresh(map[]), rs);
    var a := SetInitial(AddRequests(Fresh(map[]), rs), txs, rs);
    assert Found(txs, op) == Some(script);
    assert a.requests == map[op := [first]] && a.entries == [script];
    assert SpendTxs(a, txs[..0], 0) == a && SpendInputs(a, tx, 0, 0) == a;
    assert q == Reporter(map[op := [first]], map[op := Some(script)], map[op := script], [script], map[], 0);
    assert q.outpoints[op] == script && IsWatched(q.outpoints, script);
  }

  lemma SecondStep(first: Request, second: Request, script: Script)
    requires second.outpoint == first.outpoint
    ensures var op := first.outpoint;
      Processed(Reporter(map[op := [first]], map[op := Some(script)], map[op := script], [script], map[], 0),
                [], [second], 1,
                Reporter(map[op := [first, second]], map[op := None], map[op := script], [script], map[], 0))
  {
    var op := first.outpoint;
    var p := Reporter(map[op := [first]], map[op := Some(script)], map[op := script], [script], map[], 0);
    var rs := [second];
    assert rs[..0] == [] && [first] + [second] == [first, second];
    assert AddRequests(p, rs) == AddRequest(p, second);
    assert SetInitial(AddRequests(p, rs), [], rs[..0]) == AddRequests(p, rs);
    var q := Scanned(p, [], rs, 1);
    assert q == Reporter(map[op := [first, second]], map[op := None], map[op := script], [script], map[], 0);
    assert q.outpoints[op] == script && IsWatched(q.outpoints, script);
  }

  lemma NothingSpent(chain: seq<Block>, op: OutPoint, tx: Tx)
    requires |chain| == 2 && chain[0].txs == [tx] && chain[1].txs == [] && tx.ins == []
    ensures SpendFrom(chain, op, 0, 2).None?
  {
    FirstSpendIsFirst(chain[0].txs, op, 0);
    FirstSpendIsFirst(chain[1].txs, op, 1);
    assert SpendFrom(chain, op, 0, 0).None?;
    assert SpendFrom(chain, op, 0, 1).None?;
  }
}
