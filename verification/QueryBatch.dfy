/** How a batch of queries is shared between peers, cmd/spv/query.go: one goroutine per peer claims queries in a
    shared array by compare-and-swap, and the main goroutine looks from time to time whether all are answered. Every
    atomic operation is a step of its own. */
module QueryBatch {

  datatype Query = WaitSubmit | WaitResponse | Answered

  /** Where a peer's goroutine is.
      `Top`: at the head of its loop. `Look(i)`: about to look at query i. `Claim(i)`: about to compare-and-swap
      query i. `Working(i)`: waiting for the peer's answer to query i. `Resting`: it found nothing to do.
      `Finished`: it returned because every query is answered. `Quit`: it was told to, or its peer had gone.
      `QuitAt(i)`: it was told to while working on query i. */
  datatype Place =
    | Top
    | Look(i: nat)
    | Claim(i: nat)
    | Working(i: nat)
    | Resting
    | Finished
    | Quit
    | QuitAt(i: nat)

  datatype Worker = Worker(firstUnfinished: nat, place: Place)

  /** `Checking(i, allDone)`: it is going through the states, one load at a time. */
  datatype Main = Waiting | Checking(i: nat, allDone: bool) | Complete | Aborted

  datatype State = State(queries: seq<Query>, workers: seq<Worker>, main: Main)

  ghost predicate Init(s: State) {
    && (forall i :: 0 <= i < |s.queries| ==> s.queries[i] == WaitSubmit)
    && s.workers == [] && s.main == Waiting
  }

  // -------------------------------------------------------------------------
  // Steps of a peer's goroutine
  // -------------------------------------------------------------------------

  /** What worker `v` may become in one step, and what that does to the queries. `connected` and the choice of the
      step stand for timers, signals and the network. */
  ghost predicate WorkerStep(q: seq<Query>, v: Worker, q': seq<Query>, v': Worker) {
    var n := |q|;
    match v.place
    case Top =>
      q' == q &&
      if v.firstUnfinished >= n then v' == v.(place := Finished)
      else v' == v.(place := Quit) || v' == v.(place := Look(v.firstUnfinished))
    case Look(i) =>
      q' == q &&
      if i >= n then v' == v.(place := if v.firstUnfinished == n then Finished else Resting)
      else if i == v.firstUnfinished && q[i] == Answered then v' == Worker(v.firstUnfinished + 1, Look(i + 1))
      else v' == v.(place := Claim(i))
    case Claim(i) =>
      i < n &&
      if q[i] == WaitSubmit then q' == q[i := WaitResponse] && v' == v.(place := Working(i))
      else q' == q && v' == v.(place := Look(i + 1))
    case Resting => q' == q && (v' == v.(place := Top) || v' == v.(place := Quit))
    case Working(i) =>
      i < n &&
      (|| (q' == q && v' == v.(place := QuitAt(i)))
       || (q' == q[i := WaitSubmit] && (v' == v.(place := Top) || v' == v.(place := Quit)))
       || (q' == q[i := Answered] && v' == v.(place := Top)))
    case Finished => false
    case Quit => false
    case QuitAt(_) => false
  }

  ghost predicate PeerStep(s: State, s': State, w: nat) {
    && w < |s.workers| == |s'.workers|
    && WorkerStep(s.queries, s.workers[w], s'.queries, s'.workers[w])
    && s'.workers == s.workers[w := s'.workers[w]]
    && s'.main == s.main
  }

  // -------------------------------------------------------------------------
  // Steps of the main goroutine
  // -------------------------------------------------------------------------

  ghost predicate StartPeer(s: State, s': State) {
    s.main == Waiting && s' == s.(workers := s.workers + [Worker(0, Top)])
  }

  ghost predicate MainStep(s: State, s': State) {
    && s' == s.(main := s'.main)
    && match s.main
       case Waiting => s'.main == Checking(0, true) || s'.main == Aborted
       case Checking(i, allDone) =>
         if i < |s.queries| then s'.main == Checking(i + 1, allDone && s.queries[i] == Answered)
         else s'.main == if allDone then Complete else Waiting
       case Complete => false
       case Aborted => false
  }

  ghost predicate Next(s: State, s': State) {
    StartPeer(s, s') || MainStep(s, s') || exists w: nat :: PeerStep(s, s', w)
  }

  ghost predicate IsRun(run: seq<State>) {
    && run != [] && Init(run[0])
    && forall k :: 0 <= k < |run| - 1 ==> StepAt(run, k)
  }

  ghost predicate StepAt(run: seq<State>, k: int)
    requires 0 <= k < |run| - 1
  {
    Next(run[k], run[k + 1])
  }

  // -------------------------------------------------------------------------
  // The invariant
  // -------------------------------------------------------------------------

  /** The worker has claimed the query and not given it back. */
  predicate Holds(v: Worker, i: nat) {
    v.place == Working(i) || v.place == QuitAt(i)
  }

  ghost predicate AnsweredBelow(q: seq<Query>, k: nat) {
    k <= |q| && forall i :: 0 <= i < k ==> q[i] == Answered
  }

  ghost predicate WorkerOk(q: seq<Query>, v: Worker) {
    && AnsweredBelow(q, v.firstUnfinished)
    && (v.place.Look? ==> v.firstUnfinished <= v.place.i <= |q|)
    && (v.place.Claim? ==> v.firstUnfinished <= v.place.i < |q|)
    && (v.place.Working? || v.place.QuitAt? ==> v.place.i < |q| && q[v.place.i] == WaitResponse)
    && (v.place.Finished? ==> v.firstUnfinished == |q|)
  }

  ghost predicate WorkersOk(s: State) {
    forall w :: 0 <= w < |s.workers| ==> WorkerOk(s.queries, s.workers[w])
  }

  /** A query waits for a response exactly when some worker holds it, and only one does. */
  ghost predicate Held(s: State) {
    && (forall i :: 0 <= i < |s.queries| && s.queries[i] == WaitResponse ==> exists w :: 0 <= w < |s.workers| && Holds(s.workers[w], i))
    && (forall i: nat, v, w :: 0 <= v < |s.workers| && 0 <= w < |s.workers| && Holds(s.workers[v], i) && Holds(s.workers[w], i) ==> v == w)
  }

  ghost predicate MainOk(s: State) {
    match s.main
    case Checking(i, allDone) => i <= |s.queries| && (allDone ==> AnsweredBelow(s.queries, i))
    case Complete => AnsweredBelow(s.queries, |s.queries|)
    case _ => true
  }

  ghost predicate Inv(s: State) {
    WorkersOk(s) && Held(s) && MainOk(s)
  }

  /** From `q` to `q'` only query `i` changes, and not if it was answered. */
  ghost predicate Touches(q: seq<Query>, i: nat, q': seq<Query>) {
    i < |q| == |q'| && q[i] != Answered && forall j :: 0 <= j < |q| && j != i ==> q'[j] == q[j]
  }

  /** A worker's step changes nothing, or the query it claims or holds. */
  lemma StepTouches(q: seq<Query>, v: Worker, q': seq<Query>, v': Worker)
    requires WorkerOk(q, v) && WorkerStep(q, v, q', v')
    ensures q' == q
      || (v.place.Claim? && Touches(q, v.place.i, q') && q[v.place.i] == WaitSubmit)
      || (v.place.Working? && Touches(q, v.place.i, q'))
  {
  }

  lemma StepOk(q: seq<Query>, v: Worker, q': seq<Query>, v': Worker)
    requires WorkerOk(q, v) && WorkerStep(q, v, q', v')
    ensures WorkerOk(q', v')
  {
  }

  /** Somebody else's step: answered queries stay, and so does what this worker holds. */
  lemma OtherOk(q: seq<Query>, v: Worker, i: nat, q': seq<Query>)
    requires WorkerOk(q, v) && Touches(q, i, q') && !Holds(v, i)
    ensures WorkerOk(q', v)
  {
  }

  lemma PeerKeepsWorkers(s: State, s': State, w: nat)
    requires Inv(s) && PeerStep(s, s', w)
    ensures WorkersOk(s')
  {
    var v := s.workers[w];
    StepOk(s.queries, v, s'.queries, s'.workers[w]);
    StepTouches(s.queries, v, s'.queries, s'.workers[w]);
    forall u | 0 <= u < |s'.workers|
      ensures WorkerOk(s'.queries, s'.workers[u])
    {
      if u != w && s'.queries != s.queries {
        var i := v.place.i;
        assert v.place.Working? ==> Holds(v, i);
        OtherOk(s.queries, s.workers[u], i, s'.queries);
      }
    }
  }

  /** What the step does to who holds what: others are not affected; the worker itself holds what waits for a
      response. */
  lemma StepHolds(q: seq<Query>, v: Worker, q': seq<Query>, v': Worker, i: nat)
    requires WorkerOk(q, v) && WorkerStep(q, v, q', v') && i < |q|
    ensures |q'| == |q|
    ensures Holds(v', i) ==> Holds(v, i) || q[i] == WaitSubmit
    ensures q'[i] == WaitResponse ==> Holds(v', i) || (q[i] == WaitResponse && !Holds(v, i))
  {
  }

  lemma PeerKeepsHeld(s: State, s': State, w: nat)
    requires Inv(s) && PeerStep(s, s', w)
    ensures Held(s')
  {
    var v := s.workers[w];
    PeerKeepsWorkers(s, s', w);
    forall i | 0 <= i < |s'.queries| && s'.queries[i] == WaitResponse
      ensures exists u :: 0 <= u < |s'.workers| && Holds(s'.workers[u], i)
    {
      StepTouches(s.queries, v, s'.queries, s'.workers[w]);
      StepHolds(s.queries, v, s'.queries, s'.workers[w], i);
      if !Holds(s'.workers[w], i) {
        var u :| 0 <= u < |s.workers| && Holds(s.workers[u], i);
        assert s'.workers[u] == s.workers[u];
      }
    }
    forall i: nat, t, u | 0 <= t < |s'.workers| && 0 <= u < |s'.workers| && Holds(s'.workers[t], i) && Holds(s'.workers[u], i)
      ensures t == u
    {
      StepTouches(s.queries, v, s'.queries, s'.workers[w]);
      StepHolds(s.queries, v, s'.queries, s'.workers[w], i);
      assert WorkerOk(s.queries, s.workers[t]) && WorkerOk(s.queries, s.workers[u]);
    }
  }

  /** Answered queries stay answered. */
  lemma AnswersStay(s: State, s': State, i: nat)
    requires Inv(s) && Next(s, s') && i < |s.queries| && s.queries[i] == Answered
    ensures |s'.queries| == |s.queries| && s'.queries[i] == Answered
  {
    if w: nat :| PeerStep(s, s', w) {
      StepTouches(s.queries, s.workers[w], s'.queries, s'.workers[w]);
    }
  }

  lemma PeerKeepsMain(s: State, s': State, w: nat)
    requires Inv(s) && PeerStep(s, s', w)
    ensures MainOk(s')
  {
    StepTouches(s.queries, s.workers[w], s'.queries, s'.workers[w]);
  }

  lemma StepKeeps(s: State, s': State)
    requires Inv(s) && Next(s, s')
    ensures Inv(s')
  {
    if w: nat :| PeerStep(s, s', w) {
      PeerKeepsWorkers(s, s', w);
      PeerKeepsHeld(s, s', w);
      PeerKeepsMain(s, s', w);
    } else if StartPeer(s, s') {
      forall i | 0 <= i < |s'.queries| && s'.queries[i] == WaitResponse
        ensures exists u :: 0 <= u < |s'.workers| && Holds(s'.workers[u], i)
      {
        var u :| 0 <= u < |s.workers| && Holds(s.workers[u], i);
        assert s'.workers[u] == s.workers[u];
      }
    }
  }

  lemma {:induction false} RunKeepsInvariant(run: seq<State>, k: nat)
    requires IsRun(run) && k < |run|
    ensures Inv(run[k])
  {
    if k > 0 {
      RunKeepsInvariant(run, k - 1);
      assert StepAt(run, k - 1);
      StepKeeps(run[k - 1], run[k]);
    }
  }

  // -------------------------------------------------------------------------
  // Main results
  // -------------------------------------------------------------------------

  /** No two goroutines work on the same query. */
  lemma Exclusion(run: seq<State>, k: nat, v: nat, w: nat, i: nat)
    requires IsRun(run) && k < |run| && v < |run[k].workers| && w < |run[k].workers|
    requires run[k].workers[v].place == Working(i) && run[k].workers[w].place == Working(i)
    ensures v == w && i < |run[k].queries| && run[k].queries[i] == WaitResponse
  {
    RunKeepsInvariant(run, k);
    assert Holds(run[k].workers[v], i) && Holds(run[k].workers[w], i);
    assert WorkerOk(run[k].queries, run[k].workers[v]);
  }

  /** An answered query is answered for the rest of the run. */
  lemma {:induction false} AnsweredForGood(run: seq<State>, k: nat, m: nat, i: nat)
    requires IsRun(run) && k <= m < |run| && i < |run[k].queries| && run[k].queries[i] == Answered
    ensures i < |run[m].queries| && run[m].queries[i] == Answered
  {
    if k < m {
      AnsweredForGood(run, k, m - 1, i);
      RunKeepsInvariant(run, m - 1);
      assert StepAt(run, m - 1);
      AnswersStay(run[m - 1], run[m], i);
    }
  }

  /** Every query below a goroutine's `firstUnfinished` is answered; a goroutine that returns because it finds
      everything done is right, and so is the main goroutine, though it loads the states one by one. */
  lemma DoneMeansAnswered(run: seq<State>, k: nat, i: nat)
    requires IsRun(run) && k < |run| && i < |run[k].queries|
    requires
      || run[k].main == Complete
      || (exists w :: 0 <= w < |run[k].workers| && (run[k].workers[w].place == Finished || i < run[k].workers[w].firstUnfinished))
    ensures run[k].queries[i] == Answered
  {
    RunKeepsInvariant(run, k);
    if run[k].main != Complete {
      var w :| 0 <= w < |run[k].workers| && (run[k].workers[w].place == Finished || i < run[k].workers[w].firstUnfinished);
      assert WorkerOk(run[k].queries, run[k].workers[w]);
    }
  }

  /** A goroutine that was told to quit while working leaves its query claimed. */
  ghost predicate Abandoned(s: State, i: nat) {
    exists w :: 0 <= w < |s.workers| && s.workers[w].place == QuitAt(i)
  }

  lemma AbandonedStays(s: State, s': State, i: nat)
    requires Inv(s) && Next(s, s') && Abandoned(s, i)
    ensures Abandoned(s', i)
  {
    var w :| 0 <= w < |s.workers| && s.workers[w].place == QuitAt(i);
    if u: nat :| PeerStep(s, s', u) {
      assert u != w;
      assert s'.workers[w] == s.workers[w];
    } else {
      assert s'.workers[w] == s.workers[w];
    }
  }

  /** An abandoned query is never answered again: no goroutine ever claims it, none finishes, and the main goroutine
      never completes; the batch can only end by being aborted. */
  lemma {:induction false} AbandonedForGood(run: seq<State>, k: nat, m: nat, i: nat)
    requires IsRun(run) && k <= m < |run| && Abandoned(run[k], i)
    ensures Abandoned(run[m], i)
    ensures i < |run[m].queries| && run[m].queries[i] == WaitResponse && run[m].main != Complete
    ensures forall v :: 0 <= v < |run[m].workers| ==>
      run[m].workers[v].place != Working(i) && run[m].workers[v].place != Finished
  {
    if k < m {
      AbandonedForGood(run, k, m - 1, i);
      RunKeepsInvariant(run, m - 1);
      assert StepAt(run, m - 1);
      AbandonedStays(run[m - 1], run[m], i);
    }
    RunKeepsInvariant(run, m);
    var w :| 0 <= w < |run[m].workers| && run[m].workers[w].place == QuitAt(i);
    assert WorkerOk(run[m].queries, run[m].workers[w]);
    forall v | 0 <= v < |run[m].workers|
      ensures run[m].workers[v].place != Working(i) && run[m].workers[v].place != Finished
    {
      assert WorkerOk(run[m].queries, run[m].workers[v]);
      assert Holds(run[m].workers[w], i);
    }
  }

  // -------------------------------------------------------------------------
  // When a batch can still complete
  // -------------------------------------------------------------------------

  function Last(run: seq<State>): State
    requires run != []
  {
    run[|run| - 1]
  }

  /** A goroutine is told to quit while it works: the query is abandoned although the batch goes on. */
  lemma QuitWhileWorkingAbandons() returns (run: seq<State>)
    ensures IsRun(run) && Last(run).main == Waiting && |Last(run).queries| == 1 && Abandoned(Last(run), 0)
  {
    var s0 := State([WaitSubmit], [], Waiting);
    var s1 := s0.(workers := [Worker(0, Top)]);
    var s2 := s0.(workers := [Worker(0, Look(0))]);
    var s3 := s0.(workers := [Worker(0, Claim(0))]);
    var s4 := State([WaitResponse], [Worker(0, Working(0))], Waiting);
    var s5 := s4.(workers := [Worker(0, QuitAt(0))]);
    assert StartPeer(s0, s1);
    assert PeerStep(s1, s2, 0) && PeerStep(s2, s3, 0) && PeerStep(s3, s4, 0) && PeerStep(s4, s5, 0);
    assert s5.workers[0].place == QuitAt(0);
    run := [s0, s1, s2, s3, s4, s5];
  }

  lemma Longer(run: seq<State>, s: State)
    requires IsRun(run) && Next(Last(run), s)
    ensures IsRun(run + [s])
  {
    var longer := run + [s];
    forall k | 0 <= k < |longer| - 1
      ensures StepAt(longer, k)
    {
      if k < |run| - 1 {
        assert StepAt(run, k);
      }
    }
  }

  /** One step of worker `w`. */
  lemma Walk(run: seq<State>, w: nat, q: seq<Query>, v: Worker) returns (longer: seq<State>)
    requires IsRun(run) && w < |Last(run).workers| && WorkerStep(Last(run).queries, Last(run).workers[w], q, v)
    ensures IsRun(longer) && run <= longer
    ensures Last(longer) == State(q, Last(run).workers[w := v], Last(run).main)
  {
    var s := State(q, Last(run).workers[w := v], Last(run).main);
    assert PeerStep(Last(run), s, w);
    Longer(run, s);
    longer := run + [s];
  }

  ghost predicate NoneAbandoned(s: State) {
    forall w :: 0 <= w < |s.workers| ==> !s.workers[w].place.QuitAt?
  }

  /** The main goroutine finishes the check it is in. */
  lemma {:induction false} FinishCheck(run: seq<State>) returns (longer: seq<State>)
    requires IsRun(run) && Last(run).main.Checking?
    ensures IsRun(longer) && run <= longer
    ensures Last(longer) == Last(run).(main := Last(longer).main)
    ensures Last(longer).main == Waiting || Last(longer).main == Complete
    ensures Last(run).main.allDone && AnsweredBelow(Last(run).queries, |Last(run).queries|) ==> Last(longer).main == Complete
    decreases |Last(run).queries| - Last(run).main.i
  {
    RunKeepsInvariant(run, |run| - 1);
    var s := Last(run);
    var i, allDone := s.main.i, s.main.allDone;
    var s' := s.(main := if i < |s.queries| then Checking(i + 1, allDone && s.queries[i] == Answered)
                         else if allDone then Complete else Waiting);
    assert MainStep(s, s');
    Longer(run, s');
    longer := run + [s'];
    if i < |s.queries| {
      longer := FinishCheck(longer);
    }
  }

  /** A new peer walks over answered queries to the first that is not, claims it and answers it. */
  lemma {:induction false} WalkTo(run: seq<State>, w: nat, k: nat) returns (longer: seq<State>)
    requires IsRun(run) && w < |Last(run).workers| && k < |Last(run).queries|
    requires AnsweredBelow(Last(run).queries, k) && Last(run).queries[k] != Answered
    requires Last(run).workers[w].firstUnfinished <= k
    requires Last(run).workers[w].place == Look(Last(run).workers[w].firstUnfinished)
    ensures IsRun(longer) && run <= longer
    ensures Last(longer) == Last(run).(workers := Last(run).workers[w := Worker(k, Look(k))])
    decreases k - Last(run).workers[w].firstUnfinished
  {
    var s := Last(run);
    var f := s.workers[w].firstUnfinished;
    if f == k {
      longer := run;
      assert s.workers[w := Worker(k, Look(k))] == s.workers;
    } else {
      longer := Walk(run, w, s.queries, Worker(f + 1, Look(f + 1)));
      longer := WalkTo(longer, w, k);
    }
  }

  lemma AnswerByNewPeer(run: seq<State>, k: nat) returns (longer: seq<State>)
    requires IsRun(run) && Last(run).main == Waiting && NoneAbandoned(Last(run))
    requires k < |Last(run).queries| && AnsweredBelow(Last(run).queries, k) && Last(run).queries[k] == WaitSubmit
    ensures IsRun(longer) && run <= longer
    ensures Last(longer).main == Waiting && NoneAbandoned(Last(longer))
    ensures Last(longer).queries == Last(run).queries[k := Answered]
  {
    var s := Last(run);
    var w := |s.workers|;
    var started := s.(workers := s.workers + [Worker(0, Top)]);
    assert StartPeer(s, started);
    Longer(run, started);
    longer := run + [started];
    longer := Walk(longer, w, s.queries, Worker(0, Look(0)));
    longer := WalkTo(longer, w, k);
    longer := Walk(longer, w, s.queries, Worker(k, Claim(k)));
    longer := Walk(longer, w, s.queries[k := WaitResponse], Worker(k, Working(k)));
    longer := Walk(longer, w, s.queries[k := Answered], Worker(k, Top));
  }

  lemma AnswerByHolder(run: seq<State>, k: nat) returns (longer: seq<State>)
    requires IsRun(run) && Last(run).main == Waiting && NoneAbandoned(Last(run))
    requires k < |Last(run).queries| && Last(run).queries[k] == WaitResponse
    ensures IsRun(longer) && run <= longer
    ensures Last(longer).main == Waiting && NoneAbandoned(Last(longer))
    ensures Last(longer).queries == Last(run).queries[k := Answered]
  {
    RunKeepsInvariant(run, |run| - 1);
    var s := Last(run);
    var w :| 0 <= w < |s.workers| && Holds(s.workers[w], k);
    longer := Walk(run, w, s.queries[k := Answered], s.workers[w].(place := Top));
  }

  /** Everything from `k` on can be answered. */
  lemma {:induction false} AnswerFrom(run: seq<State>, k: nat) returns (longer: seq<State>)
    requires IsRun(run) && Last(run).main == Waiting && NoneAbandoned(Last(run)) && AnsweredBelow(Last(run).queries, k)
    ensures IsRun(longer) && run <= longer && Last(longer).main == Waiting
    ensures AnsweredBelow(Last(longer).queries, |Last(longer).queries|)
    decreases |Last(run).queries| - k
  {
    var q := Last(run).queries;
    longer := run;
    if k < |q| {
      if q[k] == WaitSubmit {
        longer := AnswerByNewPeer(run, k);
      } else if q[k] == WaitResponse {
        longer := AnswerByHolder(run, k);
      }
      longer := AnswerFrom(longer, k + 1);
    }
  }

  lemma CompleteWaiting(run: seq<State>) returns (longer: seq<State>)
    requires IsRun(run) && Last(run).main == Waiting && NoneAbandoned(Last(run))
    ensures IsRun(longer) && run <= longer && Last(longer).main == Complete
  {
    longer := AnswerFrom(run, 0);
    var s := Last(longer);
    var checking := s.(main := Checking(0, true));
    assert MainStep(s, checking);
    Longer(longer, checking);
    longer := FinishCheck(longer + [checking]);
  }

  /** A run in which the main goroutine has not ended can be continued until it completes if and only if no query is
      abandoned. */
  lemma CanCompleteUnlessAbandoned(run: seq<State>)
    requires IsRun(run) && !Last(run).main.Complete? && !Last(run).main.Aborted?
    ensures (exists longer :: IsRun(longer) && run <= longer && Last(longer).main == Complete) <==>
      forall i: nat :: !Abandoned(Last(run), i)
  {
    if forall i: nat :: !Abandoned(Last(run), i) {
      var s := Last(run);
      assert forall w :: 0 <= w < |s.workers| && s.workers[w].place.QuitAt? ==> Abandoned(s, s.workers[w].place.i);
      var longer := run;
      if s.main.Checking? {
        longer := FinishCheck(run);
      }
      if Last(longer).main == Waiting {
        longer := CompleteWaiting(longer);
      }
      assert IsRun(longer) && run <= longer && Last(longer).main == Complete;
    }
    forall longer, i: nat | IsRun(longer) && run <= longer && Abandoned(Last(run), i)
      ensures Last(longer).main != Complete
    {
      assert longer[|run| - 1] == Last(run);
      AbandonedForGood(longer, |run| - 1, |longer| - 1, i);
    }
  }
}
