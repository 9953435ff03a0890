/** The UTXO scanner as an object, cmd/spv/utxoscanner.go: its queue, its batches and its shutdown. Every change it
    makes is a step of module UtxoRuns. */
module UtxoScanner {
  import opened Wrappers
  import opened Rescan
  import opened SpendReporter
  import opened UtxoBatch
  import opened UtxoRuns
  import opened BatchSpend

  /** What happens around the scan of one height: requests arrive, Stop is called, lookups fail. */
  datatype Turn = Turn(
    arriving: seq<Arrival>,
    quitFirst: bool,
    hashError: Option<nat>,
    filterError: Option<nat>,
    quitBeforeFetch: bool,
    blockError: Option<nat>,
    quitAfterFetch: bool)

  datatype Arrival = Arrival(outpoint: OutPoint, script: Script, birth: nat)

  const SHUTTING_DOWN: nat := 0

  lemma {:induction false} LeastExists(q: set<Request>)
    requires q != {}
    ensures exists r :: r in q && forall x :: x in q ==> r.birth <= x.birth
    decreases |q|
  {
    var y :| y in q;
    var rest := q - {y};
    if rest == {} {
      assert forall x :: x in q ==> x in rest || x == y;
    } else {
      LeastExists(rest);
      var r :| r in rest && forall x :: x in rest ==> r.birth <= x.birth;
      assert forall x :: x in q ==> x == y || x in rest;
      var least := if r.birth <= y.birth then r else y;
      assert least in q && forall x :: x in q ==> least.birth <= x.birth;
    }
  }

  class Scanner {
    const results: Results
    var pq: set<Request>
    var nextBatch: seq<Request>
    var quit: bool
    var nextId: nat
    var reporter: BatchSpendReporter

    ghost var phase: Phase
    ghost var accepted: set<Request>
    ghost var lost: set<Request>
    /** Every state so far. */
    ghost var history: seq<State>

    ghost function View(): State
      reads this, reporter, results, reporter.results
    {
      State(pq, nextBatch, None, reporter.View(), quit, phase, accepted, lost)
    }

    ghost predicate Valid()
      reads this, reporter, results, reporter.results
    {
      && reporter.results == results
      && (forall r :: r in accepted ==> r.id < nextId)
      && IsRun(history) && history[|history| - 1] == View()
    }

    lemma Invariant()
      requires Valid()
      ensures Inv(View())
    {
      RunKeepsInvariant(history, |history| - 1);
    }

    constructor ()
      ensures Valid() && fresh(results) && fresh(reporter)
      ensures pq == {} && nextBatch == [] && !quit && phase == Idle && results.answers == map[]
    {
      var channels := new Results();
      reporter := new BatchSpendReporter(channels);
      results := channels;
      pq, nextBatch, quit, nextId := {}, [], false, 0;
      phase, accepted, lost := Idle, {}, {};
      new;
      history := [View()];
    }

    /** Adds the present state to the history. */
    ghost method Record()
      requires reporter.results == results && (forall r :: r in accepted ==> r.id < nextId)
      requires IsRun(history) && Next(history[|history| - 1], View())
      modifies this`history
      ensures Valid() && history == old(history) + [View()]
    {
      Longer(history, View());
      history := history + [View()];
    }

    /** A request is accepted unless the scanner is stopping. */
    method Enqueue(a: Arrival) returns (r: Option<Request>)
      requires Valid()
      modifies this`pq, this`nextId, this`accepted, this`history
      ensures Valid() && old(history) <= history
      ensures quit ==> r == None && pq == old(pq) && accepted == old(accepted)
      ensures !quit ==>
        && r == Some(Request(old(nextId), a.outpoint, a.script, a.birth)) && r.value !in old(accepted)
        && pq == old(pq) + {r.value} && accepted == old(accepted) + {r.value}
    {
      var req := Request(nextId, a.outpoint, a.script, a.birth);
      if quit {
        r := None;
      } else {
        ghost var s := View();
        ghost var s1 := s.(entering := Some(req));
        assert Enter(s, s1);
        Longer(history, s1);
        history := history + [s1];
        pq, accepted, nextId := pq + {req}, accepted + {req}, nextId + 1;
        assert Push(s1, View());
        Record();
        r := Some(req);
      }
    }

    /** Removes a request with the least birth height. */
    method Pop() returns (r: Request)
      requires pq != {}
      modifies this`pq
      ensures r in old(pq) && pq == old(pq) - {r}
      ensures forall x :: x in old(pq) ==> r.birth <= x.birth
    {
      LeastExists(pq);
      r :| r in pq && forall x :: x in pq ==> r.birth <= x.birth;
      pq := pq - {r};
    }

    /** Pops while the least birth height satisfies `while birth < bound`. */
    method PopBelow(bound: nat) returns (rs: seq<Request>)
      modifies this`pq
      ensures Selects(old(pq), (r: Request) => r.birth < bound, rs)
      ensures pq == set r | r in old(pq) && r.birth >= bound
    {
      rs := [];
      while pq != {}
        invariant pq <= old(pq) && Distinct(rs)
        invariant forall r :: r in rs <==> r in old(pq) && r !in pq
        invariant forall r :: r in rs ==> r.birth < bound
        decreases |pq|
      {
        ghost var was := pq;
        LeastExists(pq);
        var peek: Request :| peek in pq && forall x :: x in pq ==> peek.birth <= x.birth;
        if peek.birth >= bound {
          break;
        }
        var r := Pop();
        assert r !in rs;
        rs := rs + [r];
        assert |pq| < |was|;
      }
    }

    /** Requests too old for this batch wait for the next one, those born at this height are returned, and
        everything left in the queue is born above it. */
    method DequeueAtHeight(height: nat) returns (requests: seq<Request>)
      requires Valid() && phase == Scanning
      modifies this`pq, this`nextBatch, this`phase, this`history
      ensures Valid() && phase == Holding(height, requests)
      ensures history == old(history) + [View()] && Dequeue(old(View()), View())
      ensures forall r :: r in pq ==> r.birth > height
    {
      ghost var start := pq;
      var older := PopBelow(height);
      ghost var rest := pq;
      nextBatch := nextBatch + older;
      requests := PopBelow(height + 1);
      phase := Holding(height, requests);
      assert nextBatch[|old(nextBatch)|..] == older && nextBatch[..|old(nextBatch)|] == old(nextBatch);
      SelectsRest(start, rest, height, requests);
      assert pq == set r | r in start && r.birth > height;
      Record();
    }

    /** The head of the manager's loop: what was put off comes back into the queue. */
    method RequeueNext()
      requires Valid() && phase == Idle
      modifies this`pq, this`nextBatch, this`phase, this`history
      ensures Valid() && phase == Ready && nextBatch == []
      ensures pq == old(pq) + Members(old(nextBatch)) && old(history) <= history
    {
      var i := 0;
      while i < |nextBatch|
        invariant 0 <= i <= |nextBatch|
        invariant pq == old(pq) + Members(nextBatch[..i])
        modifies this`pq
      {
        assert nextBatch[..i + 1] == nextBatch[..i] + [nextBatch[i]];
        pq := pq + {nextBatch[i]};
        i := i + 1;
      }
      assert nextBatch[..i] == nextBatch;
      nextBatch := [];
      phase := Ready;
      assert Requeue(old(View()), View());
      Record();
    }

    method Stop()
      requires Valid()
      modifies this`quit, this`history
      ensures Valid() && quit && history == old(history) + [View()]
    {
      quit := true;
      assert Quit(old(View()), View());
      Record();
    }

    /** Pops everything and tells it that the scanner is shutting down. */
    method DeliverPending() returns (ghost rs: seq<Request>)
      requires reporter.results == results
      modifies this`pq, results
      ensures pq == {} && Selects(old(pq), (r: Request) => true, rs)
      ensures reporter.View() == DeliverAll(old(reporter.View()), rs, Failed(SHUTTING_DOWN))
    {
      ghost var p := reporter.View();
      rs := [];
      while pq != {}
        invariant pq <= old(pq) && Distinct(rs)
        invariant forall r :: r in rs <==> r in old(pq) && r !in pq
        invariant reporter.View() == DeliverAll(p, rs, Failed(SHUTTING_DOWN))
        decreases |pq|
      {
        ghost var was := pq;
        var r := Pop();
        results.Deliver(r, Failed(SHUTTING_DOWN));
        assert r !in rs;
        assert (rs + [r])[..|rs|] == rs;
        rs := rs + [r];
        assert |pq| < |was|;
      }
    }

    /** The manager has gone: whatever is in the queue is told that the scanner is shutting down. Afterwards
        every accepted request that was not lost has its answer. */
    method CancelPending()
      requires Valid() && phase == Exited
      modifies this`pq, this`phase, this`history, results
      ensures Valid() && phase == Closed && pq == {} && results.duplicates == 0
      ensures forall r :: r in accepted && r !in lost ==> r in results.answers
      ensures forall r :: r in old(pq) ==> r in results.answers && results.answers[r] == Failed(SHUTTING_DOWN)
      ensures forall r :: r in old(results.answers) ==>
        r in results.answers && results.answers[r] == old(results.answers)[r]
    {
      ghost var s := View();
      ghost var rs := DeliverPending();
      phase := Closed;
      assert Drain(s, View());
      DrainAnswers(old(history), s, rs);
      Record();
      Invariant();
      forall r | r in accepted && r !in lost
        ensures r in results.answers
      {
        StopAnswersEveryone(history, |history| - 1, r);
      }
    }
  
    /** A batch that cannot go on: the reporter fails its requests. */
    method Abandon(e: nat)
      requires Valid() && (phase.Scanning? || phase.Holding?)
      modifies this`phase, this`lost, this`history, reporter, results
      ensures Valid() && phase == Idle && old(history) <= history
      ensures old(phase.Scanning?) ==> lost == old(lost)
      ensures old(phase.Holding?) ==> lost == old(lost) + Members(old(phase).taken)
    {
      ghost var s := View();
      Invariant();
      reporter.FailRemaining(e);
      lost := lost + Members(Taken(s));
      phase := Idle;
      assert Drained(s.reporter, found => Failed(e), View().reporter);
      assert Fail(s, View());
      Record();
    }

    /** The requests that callers make before a height is scanned. */
    method Receive(arriving: seq<Arrival>)
      requires Valid()
      modifies this`pq, this`nextId, this`accepted, this`history
      ensures Valid() && old(history) <= history
    {
      var i := 0;
      while i < |arriving|
        invariant 0 <= i <= |arriving| && Valid() && old(history) <= history
      {
        var _ := Enqueue(arriving[i]);
        i := i + 1;
      }
    }

    method MaybeStop(now: bool)
      requires Valid()
      modifies this`quit, this`history
      ensures Valid() && old(history) <= history && quit == (old(quit) || now)
    {
      if now {
        Stop();
      }
    }

    /** The reporter sees the block if it was fetched. */
    method HandOver(b: Block, height: nat, newReqs: seq<Request>, fetch: bool)
      requires Valid() && phase == Holding(height, newReqs)
      requires fetch <==> newReqs != [] || FilterMatches(b.filter, reporter.filterEntries)
      modifies this`phase, this`history, reporter, results
      ensures Valid() && phase == Scanning && old(history) <= history
      ensures HeightStep(b, newReqs, height, old(reporter.View()), reporter.View())
      ensures Distinct(newReqs) && forall r :: r in newReqs ==> r !in old(results.answers)
      ensures forall r :: r in old(results.answers) ==> r in results.answers
    {
      ghost var s := View();
      Invariant();
      HeldAreNew(s);
      if fetch {
        reporter.ProcessBlock(b.txs, newReqs, height);
      }
      AnswersStay(b, s, reporter.View());
      phase := Scanning;
      assert HeightStep(b, s.phase.taken, s.phase.height, s.reporter, View().reporter);
      assert Process(s, View());
      Record();
    }

    /** One height of a batch. */
    method ScanHeight(b: Block, height: nat, turn: Turn) returns (err: Option<nat>, ghost taken: seq<Request>)
      requires Valid() && phase == Scanning
      modifies this`pq, this`nextBatch, this`quit, this`nextId, this`phase, this`accepted, this`lost, this`history,
               reporter, results
      ensures Valid() && old(history) <= history
      ensures err.Some? ==> phase == Idle && lost == old(lost) + Members(taken)
      ensures err.None? ==> phase == Scanning && lost == old(lost)
      ensures err.None? ==> HeightStep(b, taken, height, old(reporter.View()), reporter.View())
      ensures err.None? ==> Distinct(taken) && forall r :: r in taken ==> r.birth == height && r !in old(results.answers)
      ensures err.None? ==> forall r :: r in old(results.answers) ==> r in results.answers
    {
      taken := [];
      err := Prepare(turn);
      if err.Some? {
        Abandon(err.value);
        return;
      }
      var newReqs := DequeueAtHeight(height);
      taken := newReqs;
      var fetch := |newReqs| > 0;
      if !fetch {
        err := turn.filterError;
        fetch := err.None? && FilterMatches(b.filter, reporter.filterEntries);
      }
      if fetch {
        err := Fetch(turn);
      }
      if err.Some? {
        Abandon(err.value);
        return;
      }
      HandOver(b, height, newReqs, fetch);
    }

    /** Requests arrive, the quit channel is looked at, and the block's hash is looked up. */
    method Prepare(turn: Turn) returns (err: Option<nat>)
      requires Valid()
      modifies this`pq, this`nextId, this`accepted, this`quit, this`history
      ensures Valid() && old(history) <= history
    {
      Receive(turn.arriving);
      MaybeStop(turn.quitFirst);
      err := if quit then Some(SHUTTING_DOWN) else turn.hashError;
    }

    /** Getting the block, with a look at the quit channel before and after. */
    method Fetch(turn: Turn) returns (err: Option<nat>)
      requires Valid()
      modifies this`quit, this`history
      ensures Valid() && old(history) <= history
    {
      MaybeStop(turn.quitBeforeFetch);
      if quit {
        return Some(SHUTTING_DOWN);
      }
      err := turn.blockError;
      if err.None? {
        MaybeStop(turn.quitAfterFetch);
        err := if quit then Some(SHUTTING_DOWN) else None;
      }
    }

    /** A whole batch. `tip(k)` is what the k-th look at the chain's tip gives; the blocks themselves never change.
        If the batch ends normally, every request it took is told what module UtxoBatch says. */
    method ScanFromHeight(chain: seq<Block>, init: nat, tip: nat -> Option<nat>, turn: nat -> Turn)
      returns (err: Option<nat>, ghost arrivals: seq<seq<Request>>)
      requires Valid() && phase == Ready && pq != {}
      requires forall k :: tip(k).Some? ==> tip(k).value < |chain|
      modifies this, results
      ensures Valid() && phase == Idle && old(history) <= history && fresh(reporter)
      ensures err.None? ==> lost == old(lost) && |arrivals| <= |chain| && Timely(arrivals, old(results.answers))
      ensures err.None? ==> exists k :: tip(k) == Some(|arrivals| - 1)
      ensures err.None? ==> Exact(chain, arrivals, old(results.answers), reporter.View())
    {
      ghost var answers := results.answers;
      arrivals := [];
      if tip(0).None? {
        StartBatch();
        err := Some(SHUTTING_DOWN);
        Abandon(SHUTTING_DOWN);
        return;
      }
      ghost var start := if init <= tip(0).value then init else tip(0).value + 1;
      ghost var states;
      arrivals, states := OpenBatch(chain, start);
      err, arrivals, states := ScanToTip(chain, init, tip, turn, start, arrivals, answers, states);
      if err.None? {
        CloseBatch(chain, start, arrivals, answers, states);
      }
    }

    /** A new batch, nobody having joined below its start. */
    method OpenBatch(chain: seq<Block>, ghost start: nat) returns (ghost arrivals: seq<seq<Request>>, ghost states: seq<Reporter>)
      requires Valid() && phase == Ready && pq != {} && start <= |chain|
      modifies this`reporter, this`phase, this`history
      ensures fresh(reporter) && old(history) <= history && |arrivals| == start
      ensures Midway(chain, start, arrivals, results.answers, states)
    {
      StartBatch();
      arrivals := seq(start, i => []);
      states := [reporter.View()];
    }

    /** The end of a batch that was not cut short. */
    method CloseBatch(chain: seq<Block>, ghost start: nat, ghost arrivals: seq<seq<Request>>,
                      ghost answers: map<Request, Answer>, ghost states: seq<Reporter>)
      requires Midway(chain, start, arrivals, answers, states)
      modifies this`phase, this`history, reporter, results
      ensures Valid() && phase == Idle && old(history) <= history
      ensures |arrivals| <= |chain| && Timely(arrivals, answers) && Exact(chain, arrivals, answers, reporter.View())
    {
      Conclude();
      ScheduledBatchIsExact(chain, start, arrivals, answers, states, reporter.View());
    }

    /** Scans to the tip, and on if the tip has moved meanwhile. */
    method ScanToTip(chain: seq<Block>, init: nat, tip: nat -> Option<nat>, turn: nat -> Turn, ghost start: nat,
                     ghost arrived: seq<seq<Request>>, ghost answers: map<Request, Answer>, ghost before: seq<Reporter>)
      returns (err: Option<nat>, ghost arrivals: seq<seq<Request>>, ghost states: seq<Reporter>)
      requires Midway(chain, start, arrived, answers, before)
      requires tip(0).Some? && |arrived| == if init <= tip(0).value then init else tip(0).value + 1
      requires forall k :: tip(k).Some? ==> tip(k).value < |chain|
      modifies this`pq, this`nextBatch, this`quit, this`nextId, this`phase, this`accepted, this`lost, this`history,
               reporter, results
      ensures Valid() && old(history) <= history
      ensures err.Some? ==> phase == Idle
      ensures err.None? ==> lost == old(lost) && Midway(chain, start, arrivals, answers, states)
      ensures err.None? ==> exists k :: tip(k) == Some(|arrivals| - 1)
    {
      arrivals, states, err := arrived, before, None;
      var looks, startHeight, endHeight := 0, init, tip(0).value;
      var more := true;
      while more
        invariant old(history) <= history && lost == old(lost) && err.None?
        invariant endHeight < |chain| && tip(looks) == Some(endHeight)
        invariant Midway(chain, start, arrivals, answers, states)
        invariant |arrivals| == if more && startHeight <= endHeight then startHeight else endHeight + 1
        decreases more, |chain| - endHeight
      {
        err, arrivals, states := ScanHeights(chain, startHeight, endHeight, turn, start, arrivals, answers, states);
        if err.Some? {
          return;
        }
        var stamp := tip(looks + 1);
        if stamp.None? {
          err := Some(SHUTTING_DOWN);
          Abandon(SHUTTING_DOWN);
          return;
        }
        if stamp.value > endHeight {
          startHeight, endHeight, looks := endHeight + 1, stamp.value, looks + 1;
        } else {
          more := false;
        }
      }
    }

    /** In the middle of a batch, between two heights. */
    ghost predicate Midway(chain: seq<Block>, start: nat, arrivals: seq<seq<Request>>, answers: map<Request, Answer>,
                           states: seq<Reporter>)
      reads this, reporter, results, reporter.results
    {
      && Valid() && phase == Scanning
      && IsBatch(chain, start, arrivals, answers, states) && states[|states| - 1] == reporter.View()
      && Timely(arrivals, answers)
      && forall r :: r in answers ==> r in results.answers
    }

    /** The heights from one to another, unless an error ends the batch. */
    method ScanHeights(chain: seq<Block>, startHeight: nat, endHeight: nat, turn: nat -> Turn, ghost start: nat,
                       ghost arrived: seq<seq<Request>>, ghost answers: map<Request, Answer>, ghost before: seq<Reporter>)
      returns (err: Option<nat>, ghost arrivals: seq<seq<Request>>, ghost states: seq<Reporter>)
      requires Midway(chain, start, arrived, answers, before) && endHeight < |chain|
      requires |arrived| == if startHeight <= endHeight then startHeight else endHeight + 1
      modifies this`pq, this`nextBatch, this`quit, this`nextId, this`phase, this`accepted, this`lost, this`history,
               reporter, results
      ensures Valid() && old(history) <= history
      ensures err.Some? ==> phase == Idle
      ensures err.None? ==> lost == old(lost) && Midway(chain, start, arrivals, answers, states)
      ensures err.None? ==> |arrivals| == endHeight + 1
    {
      arrivals, states, err := arrived, before, None;
      var height := startHeight;
      while height <= endHeight
        invariant old(history) <= history && lost == old(lost)
        invariant Midway(chain, start, arrivals, answers, states)
        invariant |arrivals| == if height <= endHeight then height else endHeight + 1
      {
        ghost var taken;
        err, taken := ScanHeight(chain[height], height, turn(height));
        if err.Some? {
          return;
        }
        ExtendBatch(chain, start, arrivals, answers, states, taken, reporter.View());
        ExtendTimely(arrivals, answers, taken);
        arrivals, states := arrivals + [taken], states + [reporter.View()];
        height := height + 1;
      }
      err := None;
    }

    /** A new batch with a new reporter. */
    method StartBatch()
      requires Valid() && phase == Ready && pq != {}
      modifies this`reporter, this`phase, this`history
      ensures Valid() && phase == Scanning && old(history) <= history && fresh(reporter)
      ensures reporter.View() == Fresh(results.answers)
    {
      ghost var s := View();
      Invariant();
      reporter := new BatchSpendReporter(results);
      phase := Scanning;
      assert Begin(s, View());
      Record();
    }

    /** The batch is through: whoever still waits is told so. */
    method Conclude()
      requires Valid() && phase == Scanning
      modifies this`phase, this`history, reporter, results
      ensures Valid() && phase == Idle && old(history) <= history
      ensures Finished(old(reporter.View()), reporter.View())
    {
      ghost var s := View();
      Invariant();
      reporter.NotifyUnspentAndUnfound();
      phase := Idle;
      assert Finish(s, View());
      Record();
    }
  }

  /** Taken at their birth height, once, and not answered before. */
  ghost predicate Timely(arrivals: seq<seq<Request>>, answers: map<Request, Answer>) {
    && (forall h :: 0 <= h < |arrivals| ==> Distinct(arrivals[h]))
    && forall h, i :: 0 <= h < |arrivals| && 0 <= i < |arrivals[h]| ==>
         arrivals[h][i].birth == h && arrivals[h][i] !in answers
  }

  lemma ExtendBatch(chain: seq<Block>, start: nat, arrivals: seq<seq<Request>>, answers: map<Request, Answer>,
                    states: seq<Reporter>, rs: seq<Request>, p: Reporter)
    requires IsBatch(chain, start, arrivals, answers, states) && |arrivals| < |chain|
    requires HeightStep(chain[|arrivals|], rs, |arrivals|, states[|states| - 1], p)
    ensures IsBatch(chain, start, arrivals + [rs], answers, states + [p])
  {
    var more, longer := arrivals + [rs], states + [p];
    forall k | 0 <= k < |more| - start
      ensures StepAt(chain, start, more, longer, k)
    {
      if k < |arrivals| - start {
        assert StepAt(chain, start, arrivals, states, k);
      }
    }
  }

  lemma ExtendTimely(arrivals: seq<seq<Request>>, answers: map<Request, Answer>, rs: seq<Request>)
    requires Timely(arrivals, answers) && Distinct(rs)
    requires forall r :: r in rs ==> r.birth == |arrivals| && r !in answers
    ensures Timely(arrivals + [rs], answers)
  {
  }

  /** Exactness, for whatever ledger makes the requests' scripts genuine and the filters sound. */
  lemma ScheduledBatchIsExact(chain: seq<Block>, start: nat, arrivals: seq<seq<Request>>,
                              answers: map<Request, Answer>, states: seq<Reporter>, p: Reporter)
    requires IsBatch(chain, start, arrivals, answers, states) && Finished(states[|states| - 1], p)
    ensures Exact(chain, arrivals, answers, p)
  {
    forall l | Schedule(l, arrivals, answers) && SoundChain(l, chain)
      ensures AllTold(chain, arrivals, answers, p)
    {
      BatchIsExact(l, chain, start, arrivals, answers, states, p);
    }
  }

  ghost predicate Exact(chain: seq<Block>, arrivals: seq<seq<Request>>, answers: map<Request, Answer>, p: Reporter)
    requires |arrivals| <= |chain|
  {
    forall l :: Schedule(l, arrivals, answers) && SoundChain(l, chain) ==> AllTold(chain, arrivals, answers, p)
  }

  ghost predicate SoundChain(l: Ledger, chain: seq<Block>) {
    forall h :: 0 <= h < |chain| ==> Sound(l, chain[h])
  }

  lemma AnswersStay(b: Block, s: State, p: Reporter)
    requires Inv(s) && s.phase.Holding? && HeightStep(b, s.phase.taken, s.phase.height, s.reporter, p)
    ensures forall r :: r in s.reporter.answers ==> r in p.answers
  {
    HeldAreNew(s);
    if s.phase.taken != [] || FilterMatches(b.filter, s.reporter.entries) {
      ProcessedAdvances(s.reporter, b.txs, s.phase.taken, s.phase.height, p);
    }
  }

  lemma DrainAnswers(history: seq<State>, s: State, rs: seq<Request>)
    requires IsRun(history) && s == history[|history| - 1] && Selects(s.pq, (r: Request) => true, rs)
    ensures var answers := DeliverAll(s.reporter, rs, Failed(SHUTTING_DOWN)).answers;
      && (forall r :: r in s.pq ==> r in answers && answers[r] == Failed(SHUTTING_DOWN))
      && (forall r :: r in s.reporter.answers ==> r in answers && answers[r] == s.reporter.answers[r])
  {
    RunKeepsInvariant(history, |history| - 1);
    forall r | r in rs
      ensures r !in s.reporter.answers
    {
      assert Places(s, r) == One(r in s.accepted);
    }
    DeliverAllIs(s.reporter, rs, Failed(SHUTTING_DOWN));
  }

  lemma Longer(history: seq<State>, s: State)
    requires IsRun(history) && Next(history[|history| - 1], s)
    ensures IsRun(history + [s])
  {
    var longer := history + [s];
    forall k | 0 <= k < |longer| - 1
      ensures StepAtIndex(longer, k)
    {
      if k < |history| - 1 {
        assert StepAtIndex(history, k);
      }
    }
  }

  lemma SelectsRest(start: set<Request>, rest: set<Request>, height: nat, rs: seq<Request>)
    requires rest == set r | r in start && r.birth >= height
    requires Selects(rest, (r: Request) => r.birth < height + 1, rs)
    ensures Selects(start, (r: Request) => r.birth == height, rs)
  {
  }
}
