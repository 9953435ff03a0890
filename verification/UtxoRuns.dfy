/** Every run of the UTXO scanner, cmd/spv/utxoscanner.go: callers enqueueing, the batch manager and Stop, step by
    step. The lock is held for one step, except by Enqueue, which looks at the quit channel in one step and pushes
    in another: Stop closes the channel without taking the lock. */
module UtxoRuns {
  import opened Wrappers
  import opened Rescan
  import opened SpendReporter
  import opened UtxoBatch

  /** Where the batch manager is. `Holding`: it has dequeued requests but not yet handed them to the reporter.
      `Closed`: it has returned and Stop has emptied the queue. */
  datatype Phase =
    | Idle
    | Ready
    | Scanning
    | Holding(height: nat, taken: seq<Request>)
    | Exited
    | Closed

  /** `accepted` and `lost` record what happened: the requests Enqueue returned, and those that were dropped. */
  datatype State = State(
    pq: set<Request>,
    next: seq<Request>,
    entering: Option<Request>,
    reporter: Reporter,
    quit: bool,
    phase: Phase,
    accepted: set<Request>,
    lost: set<Request>)

  ghost predicate Init(s: State) {
    s == State({}, [], None, Fresh(map[]), false, Idle, {}, {})
  }

  // -------------------------------------------------------------------------
  // Steps
  // -------------------------------------------------------------------------

  /** A new request passes the check of the quit channel; Enqueue now holds the lock. */
  ghost predicate Enter(s: State, s': State) {
    && s.entering.None? && !s.quit
    && s'.entering.Some? && s'.entering.value !in s.accepted
    && s' == s.(entering := s'.entering)
  }

  ghost predicate Push(s: State, s': State) {
    && s.entering.Some?
    && var r := s.entering.value; s' == s.(pq := s.pq + {r}, accepted := s.accepted + {r}, entering := None)
  }

  ghost predicate Quit(s: State, s': State) {
    s' == s.(quit := true)
  }

  ghost function Members(rs: seq<Request>): set<Request> { set r | r in rs }

  ghost predicate Requeue(s: State, s': State) {
    && s.phase.Idle? && s.entering.None?
    && s' == s.(phase := Ready, pq := s.pq + Members(s.next), next := [])
  }

  /** A batch begins when there is something in the queue, with a new reporter. */
  ghost predicate Begin(s: State, s': State) {
    && s.phase.Ready? && s.entering.None?
    && s.pq != {}
    && s' == s.(phase := Scanning, reporter := Fresh(s.reporter.answers).(duplicates := s.reporter.duplicates))
  }

  /** With an empty queue the manager wakes up to this holding the lock; otherwise it has let go of it. */
  ghost predicate Exit(s: State, s': State) {
    s.phase.Ready? && s.quit && (s.pq == {} ==> s.entering.None?) && s' == s.(phase := Exited)
  }

  /** `rs` lists the requests of `from` that satisfy `keep`, each once. */
  ghost predicate Selects(from: set<Request>, keep: Request -> bool, rs: seq<Request>) {
    Distinct(rs) && forall r :: r in rs <==> r in from && keep(r)
  }

  ghost predicate Dequeue(s: State, s': State) {
    && s.phase.Scanning? && s.entering.None? && s'.phase.Holding?
    && var h := s'.phase.height;
    && |s.next| <= |s'.next| && s'.next[..|s.next|] == s.next
    && Selects(s.pq, (r: Request) => r.birth < h, s'.next[|s.next|..])
    && Selects(s.pq, (r: Request) => r.birth == h, s'.phase.taken)
    && s' == s.(phase := s'.phase, next := s'.next, pq := set r | r in s.pq && r.birth > h)
  }

  /** The height is done: whatever the block, its filter decided whether the reporter saw it. */
  ghost predicate Process(s: State, s': State) {
    && s.phase.Holding?
    && (exists b: Block :: HeightStep(b, s.phase.taken, s.phase.height, s.reporter, s'.reporter))
    && s' == s.(phase := Scanning, reporter := s'.reporter)
  }

  /** An error or the quit channel ends the batch: the reporter fails its requests. Those that were dequeued
      but not handed over are in nobody's hands. */
  ghost predicate Fail(s: State, s': State) {
    && (s.phase.Scanning? || s.phase.Holding?)
    && (exists e: nat :: Drained(s.reporter, found => Failed(e), s'.reporter))
    && s' == s.(phase := Idle, reporter := s'.reporter, lost := s.lost + Members(Taken(s)))
  }

  ghost predicate Finish(s: State, s': State) {
    && s.phase.Scanning? && Finished(s.reporter, s'.reporter)
    && s' == s.(phase := Idle, reporter := s'.reporter)
  }

  /** Stop cancels what is left in the queue, without the lock. */
  ghost predicate Drain(s: State, s': State) {
    && s.phase.Exited?
    && exists rs, e: nat :: Selects(s.pq, (r: Request) => true, rs)
        && s' == s.(phase := Closed, pq := {}, reporter := DeliverAll(s.reporter, rs, Failed(e)))
  }

  ghost predicate Next(s: State, s': State) {
    || Enter(s, s') || Push(s, s') || Quit(s, s') || Requeue(s, s') || Begin(s, s') || Exit(s, s')
    || Dequeue(s, s') || Process(s, s') || Fail(s, s') || Finish(s, s') || Drain(s, s')
  }

  ghost predicate IsRun(run: seq<State>) {
    && run != [] && Init(run[0])
    && forall k :: 0 <= k < |run| - 1 ==> StepAtIndex(run, k)
  }

  ghost predicate StepAtIndex(run: seq<State>, k: int)
    requires 0 <= k < |run| - 1
  {
    Next(run[k], run[k + 1])
  }

  // -------------------------------------------------------------------------
  // The invariant
  // -------------------------------------------------------------------------

  function Taken(s: State): seq<Request> {
    if s.phase.Holding? then s.phase.taken else []
  }

  ghost function One(b: bool): nat { if b then 1 else 0 }

  /** In how many places a request is. */
  ghost function Places(s: State, r: Request): nat {
    One(r in s.pq) + One(r in s.next) + One(r in Taken(s)) + One(Waiting(s.reporter, r))
      + One(r in s.reporter.answers) + One(r in s.lost)
  }

  ghost predicate Conserved(s: State) {
    && Distinct(s.next) && Distinct(Taken(s))
    && forall r :: Places(s, r) == One(r in s.accepted)
  }

  /** What holds of the phases. */
  ghost predicate Phased(s: State) {
    && (!s.phase.Scanning? && !s.phase.Holding? ==> s.reporter.requests.Keys == {})
    && (s.phase.Ready? || s.phase.Exited? || s.phase.Closed? ==> s.next == [])
    && (s.entering.Some? ==> s.entering.value !in s.accepted)
    && (s.phase.Exited? || s.phase.Closed? ==> s.quit)
    && (s.phase.Closed? ==> |s.pq| <= 1 && (s.entering.Some? ==> s.pq == {}))
  }

  ghost predicate Inv(s: State) {
    Coherent(s.reporter) && Conserved(s) && Phased(s)
  }

  lemma InitKeeps(s: State)
    requires Init(s)
    ensures Inv(s)
  {
  }

  lemma PushKeeps(s: State, s': State)
    requires Inv(s) && Push(s, s')
    ensures Inv(s')
  {
    forall r
      ensures Places(s', r) == One(r in s'.accepted)
    {
      assert Places(s, r) == One(r in s.accepted);
    }
  }

  lemma RequeueKeeps(s: State, s': State)
    requires Inv(s) && Requeue(s, s')
    ensures Inv(s')
  {
    forall r
      ensures Places(s', r) == One(r in s'.accepted)
    {
      assert Places(s, r) == One(r in s.accepted);
    }
  }

  lemma BeginKeeps(s: State, s': State)
    requires Inv(s) && Begin(s, s')
    ensures Inv(s')
  {
    forall r
      ensures Places(s', r) == One(r in s'.accepted)
    {
      assert Places(s, r) == One(r in s.accepted);
    }
  }

  lemma DequeueKeeps(s: State, s': State)
    requires Inv(s) && Dequeue(s, s')
    ensures Inv(s')
  {
    var before, older := s.next, s'.next[|s.next|..];
    assert s'.next == before + older;
    forall r
      ensures Places(s', r) == One(r in s'.accepted)
      ensures r in older ==> r !in before
    {
      assert Places(s, r) == One(r in s.accepted);
    }
    DistinctAppend(before, older);
  }

  lemma DistinctAppend(a: seq<Request>, b: seq<Request>)
    requires Distinct(a) && Distinct(b) && forall r :: r in b ==> r !in a
    ensures Distinct(a + b)
  {
    forall i, j | 0 <= i < j < |a + b|
      ensures (a + b)[i] != (a + b)[j]
    {
      if i < |a| <= j {
        assert b[j - |a|] !in a;
      }
    }
  }

  /** Moving requests between the reporter's lists and the answers keeps every count. */
  lemma ReporterMoves(s: State, s': State)
    requires Conserved(s) && s'.pq == s.pq && s'.next == s.next && s'.accepted == s.accepted && Distinct(Taken(s'))
    requires forall r ::
      One(Waiting(s'.reporter, r)) + One(r in s'.reporter.answers) + One(r in Taken(s')) + One(r in s'.lost)
      == One(Waiting(s.reporter, r)) + One(r in s.reporter.answers) + One(r in Taken(s)) + One(r in s.lost)
    ensures Conserved(s')
  {
    forall r
      ensures Places(s', r) == One(r in s'.accepted)
    {
      assert Places(s, r) == One(r in s.accepted);
    }
  }

  lemma ProcessKeeps(s: State, s': State)
    requires Inv(s) && Process(s, s')
    ensures Inv(s')
  {
    var b: Block :| HeightStep(b, s.phase.taken, s.phase.height, s.reporter, s'.reporter);
    HeldAreNew(s);
    if Taken(s) != [] || FilterMatches(b.filter, s.reporter.entries) {
      ProcessedAdvances(s.reporter, b.txs, Taken(s), s.phase.height, s'.reporter);
      AdvancedMoves(s.reporter, b.txs, Taken(s), s.phase.height, s'.reporter);
    }
    ReporterMoves(s, s');
  }

  /** Requests in the manager's hands are in nobody else's. */
  lemma HeldAreNew(s: State)
    requires Conserved(s)
    ensures Newcomers(s.reporter, Taken(s))
  {
    forall r | r in Taken(s)
      ensures r !in s.reporter.answers && !Waiting(s.reporter, r)
    {
      assert Places(s, r) == One(r in s.accepted);
    }
  }

  lemma AdvancedMoves(p: Reporter, txs: seq<Tx>, rs: seq<Request>, height: nat, q: Reporter)
    requires QueuesOk(p) && Newcomers(p, rs) && Sorted(p, txs, rs, height, q)
    ensures forall r ::
      One(Waiting(q, r)) + One(r in q.answers) == One(Waiting(p, r)) + One(r in p.answers) + One(r in rs)
  {
    forall r
      ensures One(Waiting(q, r)) + One(r in q.answers) == One(Waiting(p, r)) + One(r in p.answers) + One(r in rs)
    {
      if Waiting(p, r) {
        var op := r.outpoint;
        var i :| 0 <= i < |p.requests[op]| && p.requests[op][i] == r;
        assert p.requests[op][i] !in p.answers;
      }
    }
  }

  lemma DrainedMoves(s: State, answer: Option<Script> -> Answer, s': State)
    requires Inv(s) && Drained(s.reporter, answer, s'.reporter)
    ensures Coherent(s'.reporter)
    ensures forall r :: !Waiting(s'.reporter, r)
    ensures forall r :: r in s'.reporter.answers <==> r in s.reporter.answers || Waiting(s.reporter, r)
    ensures forall r :: One(Waiting(s.reporter, r)) + One(r in s.reporter.answers) <= 1
  {
    forall r
      ensures One(Waiting(s.reporter, r)) + One(r in s.reporter.answers) <= 1
    {
      assert Places(s, r) == One(r in s.accepted);
    }
  }

  lemma FailKeeps(s: State, s': State)
    requires Inv(s) && Fail(s, s')
    ensures Inv(s')
  {
    var e: nat :| Drained(s.reporter, found => Failed(e), s'.reporter);
    DrainedMoves(s, found => Failed(e), s');
    forall r
      ensures One(r in Taken(s)) + One(r in s.lost) == One(r in s'.lost)
    {
      assert Places(s, r) == One(r in s.accepted);
    }
    ReporterMoves(s, s');
  }

  lemma FinishKeeps(s: State, s': State)
    requires Inv(s) && Finish(s, s')
    ensures Inv(s')
  {
    DrainedMoves(s, found => FromOutput(found), s');
    ReporterMoves(s, s');
  }

  lemma DrainKeeps(s: State, s': State)
    requires Inv(s) && Drain(s, s')
    ensures Inv(s')
  {
    var rs, e: nat :| Selects(s.pq, (r: Request) => true, rs)
        && s' == s.(phase := Closed, pq := {}, reporter := DeliverAll(s.reporter, rs, Failed(e)));
    forall r
      ensures One(r in rs) + One(r in s.reporter.answers) <= 1
    {
      assert Places(s, r) == One(r in s.accepted);
    }
    DeliverAllIs(s.reporter, rs, Failed(e));
    forall r
      ensures Places(s', r) == One(r in s'.accepted)
    {
      assert Places(s, r) == One(r in s.accepted);
    }
  }

  lemma StepKeeps(s: State, s': State)
    requires Inv(s) && Next(s, s')
    ensures Inv(s')
  {
    if Push(s, s') {
      PushKeeps(s, s');
    } else if Requeue(s, s') {
      RequeueKeeps(s, s');
    } else if Begin(s, s') {
      BeginKeeps(s, s');
    } else if Dequeue(s, s') {
      DequeueKeeps(s, s');
    } else if Process(s, s') {
      ProcessKeeps(s, s');
    } else if Fail(s, s') {
      FailKeeps(s, s');
    } else if Finish(s, s') {
      FinishKeeps(s, s');
    } else if Drain(s, s') {
      DrainKeeps(s, s');
    } else {
      OtherKeeps(s, s');
    }
  }

  lemma OtherKeeps(s: State, s': State)
    requires Inv(s) && (Enter(s, s') || Quit(s, s') || Exit(s, s'))
    ensures Inv(s')
  {
    ReporterMoves(s, s');
  }

  lemma {:induction false} RunKeepsInvariant(run: seq<State>, k: nat)
    requires IsRun(run) && k < |run|
    ensures Inv(run[k])
  {
    if k == 0 {
      InitKeeps(run[0]);
    } else {
      RunKeepsInvariant(run, k - 1);
      assert StepAtIndex(run, k - 1);
      StepKeeps(run[k - 1], run[k]);
    }
  }

  // -------------------------------------------------------------------------
  // Main results
  // -------------------------------------------------------------------------

  /** In every reachable state each accepted request is in exactly one place, no other request is anywhere, and
      no result was ever refused as a duplicate. The reporter's three maps have the same keys. */
  lemma RequestsAreConserved(run: seq<State>, k: nat, r: Request)
    requires IsRun(run) && k < |run|
    ensures Places(run[k], r) == One(r in run[k].accepted)
    ensures run[k].reporter.duplicates == 0
    ensures run[k].reporter.initial.Keys == run[k].reporter.requests.Keys == run[k].reporter.outpoints.Keys
  {
    RunKeepsInvariant(run, k);
  }

  /** A batch ends while the manager holds requests that never reached the reporter. */
  ghost predicate Drops(s: State, s': State) {
    s.phase.Holding? && s.phase.taken != [] && s'.phase.Idle?
  }

  ghost predicate DropsAt(run: seq<State>, k: int)
    requires 0 <= k < |run| - 1
  {
    Drops(run[k], run[k + 1])
  }

  lemma LostByDropping(s: State, s': State)
    requires Next(s, s')
    ensures s.lost <= s'.lost
    ensures s'.lost != s.lost ==> Drops(s, s')
    ensures Drops(s, s') ==> s'.lost != {}
  {
    if Drops(s, s') {
      assert s.phase.taken[0] in Members(Taken(s));
    }
  }

  /** Requests are lost exactly when some batch was cut short between dequeueing them and handing them over. */
  lemma {:induction false} NothingLostUnlessDropped(run: seq<State>, n: nat)
    requires IsRun(run) && n < |run|
    ensures run[n].lost == {} <==> forall k :: 0 <= k < n ==> !DropsAt(run, k)
  {
    if n > 0 {
      NothingLostUnlessDropped(run, n - 1);
      assert StepAtIndex(run, n - 1);
      LostByDropping(run[n - 1], run[n]);
      assert DropsAt(run, n - 1) <==> Drops(run[n - 1], run[n]);
    }
  }

  /** A lost request is lost for the rest of the run: nothing is ever put into its result channel. Its caller goes on
      only by cancelling, or when the scanner is stopped. */
  lemma {:induction false} LostForGood(run: seq<State>, k: nat, m: nat, r: Request)
    requires IsRun(run) && k <= m < |run| && r in run[k].lost
    ensures r in run[m].lost && r !in run[m].reporter.answers
  {
    if k < m {
      LostForGood(run, k, m - 1, r);
      assert StepAtIndex(run, m - 1);
      LostByDropping(run[m - 1], run[m]);
    }
    RunKeepsInvariant(run, m);
    assert Places(run[m], r) == One(r in run[m].accepted);
  }

  /** When Stop is done, every accepted request that was not dropped has its result, except at most one: a request
      whose Enqueue had looked at the quit channel before it was closed and pushed after the queue was emptied. */
  lemma StopAnswersEveryone(run: seq<State>, k: nat, r: Request)
    requires IsRun(run) && k < |run| && run[k].phase.Closed? && r in run[k].accepted && r !in run[k].lost
    ensures r in run[k].reporter.answers || run[k].pq == {r}
  {
    RunKeepsInvariant(run, k);
    var s := run[k];
    assert Places(s, r) == One(r in s.accepted);
    if r in s.pq {
      OnlyOne(s.pq, r);
    }
  }

  lemma OnlyOne(q: set<Request>, r: Request)
    requires |q| <= 1 && r in q
    ensures q == {r}
  {
    assert q == (q - {r}) + {r};
    assert |q - {r}| == 0;
  }

  /** A request is dequeued and the block cannot be fetched; by `LostForGood` nobody will ever answer it. */
  lemma FailedFetchLosesRequest(r: Request, e: nat) returns (run: seq<State>)
    ensures IsRun(run)
    ensures var last := run[|run| - 1]; last.phase.Idle? && r in last.accepted && last.lost == {r}
  {
    var s0 := State({}, [], None, Fresh(map[]), false, Idle, {}, {});
    var s1 := s0.(entering := Some(r));
    var s2 := s0.(pq := {r}, accepted := {r});
    var s3 := s2.(phase := Ready);
    var s4 := s2.(phase := Scanning);
    var s5 := s2.(phase := Holding(r.birth, [r]), pq := {});
    var s6 := s2.(pq := {}, lost := {r});
    assert Push(s1, s2) && Requeue(s2, s3) && Begin(s3, s4);
    assert [] + s5.next == [] && s5.next[|s4.next|..] == [];
    assert Dequeue(s4, s5);
    assert Drained(s5.reporter, found => Failed(e), s6.reporter);
    assert Members(Taken(s5)) == {r};
    assert Fail(s5, s6);
    run := [s0, s1, s2, s3, s4, s5, s6];
  }

  /** The exception of `StopAnswersEveryone` happens. */
  lemma LateEnqueueIsStranded(x: Request, r: Request, e: nat) returns (run: seq<State>)
    requires x != r
    ensures IsRun(run)
    ensures var last := run[|run| - 1];
      last.phase.Closed? && last.pq == {r} && last.lost == {} && r in last.accepted && r !in last.reporter.answers
  {
    var s0 := State({}, [], None, Fresh(map[]), false, Idle, {}, {});
    var s1 := s0.(phase := Ready);
    var s2 := s1.(entering := Some(x));
    var s3 := s1.(pq := {x}, accepted := {x});
    var s4 := s3.(entering := Some(r));
    var s5 := s4.(quit := true);
    var s6 := s5.(phase := Exited);
    var p := DeliverAll(s6.reporter, [x], Failed(e));
    var s7 := s6.(phase := Closed, pq := {}, reporter := p);
    var s8 := s7.(entering := None, pq := {r}, accepted := {x, r});
    assert Requeue(s0, s1) && Push(s2, s3);
    DeliverAllIs(s6.reporter, [x], Failed(e));
    assert Selects(s6.pq, (q: Request) => true, [x]);
    assert Drain(s6, s7);
    assert Push(s7, s8);
    run := [s0, s1, s2, s3, s4, s5, s6, s7, s8];
  }
}
