/** The parallel verification queue of legacy/src/checkqueue.h.

    One master and any number of workers share a stack of checks under one mutex.
    Every critical section of `Loop` and `Add` is one atomic step; running one check of
    a batch is a step of its own, so that batches interleave freely.
 */
module CheckQueue {

  /** A verification job together with what calling it returns. */
  datatype Check = Check(id: nat, passes: bool)

  ghost predicate AllPass(checks: seq<Check>) {
    forall c :: c in checks ==> c.passes
  }

  // -------------------------------------------------------------------------
  // The state behind the mutex, and what one critical section does to it
  // -------------------------------------------------------------------------

  datatype Shared = Shared(
    queue: seq<Check>, nIdle: int, nTotal: int, allOk: bool, nTodo: int, quit: bool, batchSize: nat)

  /** Why a thread is inside the critical section of `Loop`. */
  datatype Entry = First | AfterBatch(nNow: nat, ok: bool) | AfterWake

  /** How it leaves: returning, blocking on its condition variable, or with a batch to run. */
  datatype Outcome = Leave(result: bool) | Sleep | Take(batch: seq<Check>)

  function Prologue(s: Shared, entry: Entry): (s': Shared)
    ensures s'.queue == s.queue && s'.quit == s.quit && s'.batchSize == s.batchSize
  {
    match entry
    case First => s.(nTotal := s.nTotal + 1)
    case AfterBatch(nNow, ok) => s.(allOk := s.allOk && ok, nTodo := s.nTodo - nNow)
    case AfterWake => s.(nIdle := s.nIdle - 1)
  }

  /** The batch length: an even share of the queue, at least 1 and at most `batchSize`. */
  function BatchLength(s: Shared): (n: nat)
    requires s.queue != [] && s.nTotal >= 0 && s.nIdle >= 0
    ensures 1 <= n <= |s.queue|
    ensures n <= s.batchSize || n == 1
  {
    var share := Share(|s.queue|, s.nTotal + s.nIdle + 1);
    var capped := if s.batchSize < share then s.batchSize else share;
    if capped < 1 then 1 else capped
  }

  function Share(n: nat, k: nat): (q: nat)
    requires k > 0
    ensures q <= n
  {
    ShareBound(n, k);
    n / k
  }

  lemma ShareBound(n: nat, k: nat)
    requires k > 0
    ensures 0 <= n / k <= n
    ensures (n / k) * k <= n
  {
    var q := n / k;
    assert n == q * k + n % k;
    MulAtLeast(q, k);
  }

  lemma MulAtLeast(q: int, k: nat)
    requires k > 0
    ensures q >= 0 ==> q <= q * k
  {
  }

  /** Every thread in the loop, the idle ones counted twice, and one more could take as large a batch. */
  lemma BatchLeavesWork(s: Shared)
    requires s.queue != [] && s.nTotal >= 0 && s.nIdle >= 0 && BatchLength(s) > 1
    ensures BatchLength(s) * (s.nTotal + s.nIdle + 1) <= |s.queue|
  {
    var k := s.nTotal + s.nIdle + 1;
    ShareBound(|s.queue|, k);
    MulMono(BatchLength(s), Share(|s.queue|, k), k);
  }

  /** The batch is the largest that is within `batchSize` and leaves each of them as much; or a single check. */
  lemma BatchIsLargest(s: Shared, m: nat)
    requires s.queue != [] && s.nTotal >= 0 && s.nIdle >= 0
    requires m <= s.batchSize && m * (s.nTotal + s.nIdle + 1) <= |s.queue|
    ensures m <= BatchLength(s)
  {
    var k := s.nTotal + s.nIdle + 1;
    ShareBound(|s.queue|, k);
    var share := Share(|s.queue|, k);
    assert |s.queue| < (share + 1) * k;
    if m > share {
      MulMono(share + 1, m, k);
    }
  }

  lemma MulMono(a: int, b: int, k: nat)
    requires a <= b
    ensures a * k <= b * k
  {
  }

  /** The last `n` checks, the top of the stack first. */
  function Top(queue: seq<Check>, n: nat): (batch: seq<Check>)
    requires n <= |queue|
    ensures |batch| == n
  {
    if n == 0 then [] else [queue[|queue| - 1]] + Top(queue[..|queue| - 1], n - 1)
  }

  lemma {:induction false} TopAt(queue: seq<Check>, n: nat, j: nat)
    requires j < n <= |queue|
    ensures Top(queue, n)[j] == queue[|queue| - 1 - j]
  {
    if j > 0 {
      TopAt(queue[..|queue| - 1], n - 1, j - 1);
    }
  }

  /** Every check of the queue is either in the batch taken off it or still in the rest. */
  lemma TopMembers(queue: seq<Check>, n: nat, c: Check)
    requires n <= |queue|
    ensures c in queue <==> c in Top(queue, n) || c in queue[..|queue| - n]
  {
    forall j | 0 <= j < n
      ensures Top(queue, n)[j] == queue[|queue| - 1 - j]
    {
      TopAt(queue, n, j);
    }
    if i :| 0 <= i < |queue| && queue[i] == c {
      if i < |queue| - n {
        assert queue[..|queue| - n][i] == c;
      } else {
        assert Top(queue, n)[|queue| - 1 - i] == c;
      }
    }
  }

  /** The body of the critical section after its prologue. */
  function Settle(s: Shared, master: bool): (Shared, Outcome)
    requires s.nTotal >= 0 && s.nIdle >= 0
  {
    if s.queue == [] then
      if (master || s.quit) && s.nTodo == 0 then
        (s.(nTotal := s.nTotal - 1, allOk := master || s.allOk), Leave(s.allOk))
      else
        (s.(nIdle := s.nIdle + 1), Sleep)
    else
      var n := BatchLength(s);
      (s.(queue := s.queue[..|s.queue| - n]), Take(Top(s.queue, n)))
  }

  function AddChecks(s: Shared, checks: seq<Check>): Shared {
    s.(queue := s.queue + checks, nTodo := s.nTodo + |checks|)
  }

  // -------------------------------------------------------------------------
  // The queue object
  // -------------------------------------------------------------------------

  datatype Notify = NoOne | OneWorker | AllWorkers

  class Queue {
    var queue: seq<Check>
    var nIdle: int
    var nTotal: int
    var allOk: bool
    var nTodo: int
    var quit: bool
    const batchSize: nat

    function State(): Shared
      reads this
    {
      Shared(queue, nIdle, nTotal, allOk, nTodo, quit, batchSize)
    }

    constructor (batchSize: nat)
      ensures State() == Fresh(batchSize)
    {
      this.batchSize := batchSize;
      queue, nIdle, nTotal, allOk, nTodo, quit := [], 0, 0, true, 0, false;
    }

    method Add(checks: seq<Check>) returns (notify: Notify)
      modifies this
      ensures State() == AddChecks(old(State()), checks)
      ensures queue == old(queue) + checks && nTodo == old(nTodo) + |checks|
      ensures nIdle == old(nIdle) && nTotal == old(nTotal) && allOk == old(allOk) && quit == old(quit)
      ensures notify == if |checks| == 0 then NoOne else if |checks| == 1 then OneWorker else AllWorkers
    {
      for i := 0 to |checks|
        invariant State() == old(State()).(queue := old(queue) + checks[..i])
      {
        queue := queue + [checks[i]];
      }
      assert checks[..|checks|] == checks;
      nTodo := nTodo + |checks|;
      if |checks| == 1 {
        notify := OneWorker;
      } else if |checks| > 1 {
        notify := AllWorkers;
      } else {
        notify := NoOne;
      }
    }

    /** One pass through the critical section of `Loop`, up to the point where the mutex is given up. */
    method CriticalSection(entry: Entry, master: bool) returns (outcome: Outcome, notifyMaster: bool)
      requires Prologue(State(), entry).nTotal >= 0 && Prologue(State(), entry).nIdle >= 0
      modifies this
      ensures (State(), outcome) == Settle(Prologue(old(State()), entry), master)
      ensures notifyMaster <==> entry.AfterBatch? && !master && old(nTodo) == entry.nNow
    {
      notifyMaster := false;
      match entry {
        case First => nTotal := nTotal + 1;
        case AfterBatch(nNow, ok) =>
          allOk := allOk && ok;
          nTodo := nTodo - nNow;
          notifyMaster := nTodo == 0 && !master;
        case AfterWake => nIdle := nIdle - 1;
      }
      if queue == [] {
        if (master || quit) && nTodo == 0 {
          nTotal := nTotal - 1;
          outcome := Leave(allOk);
          if master {
            allOk := true;
          }
        } else {
          nIdle := nIdle + 1;
          outcome := Sleep;
        }
      } else {
        var batch := TakeBatch();
        outcome := Take(batch);
      }
    }

    method TakeBatch() returns (batch: seq<Check>)
      requires queue != [] && nTotal >= 0 && nIdle >= 0
      modifies this`queue
      ensures queue == old(queue)[..|old(queue)| - BatchLength(old(State()))]
      ensures batch == Top(old(queue), BatchLength(old(State())))
    {
      ghost var q := queue;
      var nNow := BatchLength(State());
      batch := [];
      for i := 0 to nNow
        invariant queue == q[..|q| - i]
        invariant Top(q, nNow) == batch + Top(queue, nNow - i)
      {
        var last := |queue| - 1;
        ghost var rest := Top(queue, nNow - i);
        assert rest == [queue[last]] + Top(queue[..last], nNow - i - 1);
        assert batch + rest == (batch + [queue[last]]) + Top(queue[..last], nNow - i - 1);
        batch := batch + [queue[last]];
        queue := queue[..last];
      }
    }
  }

  /** Running a batch outside the mutex: once a check has failed the rest is skipped. */
  method ExecuteBatch(batch: seq<Check>, allOk: bool) returns (ok: bool)
    ensures ok <==> allOk && AllPass(batch)
  {
    ok := allOk;
    for i := 0 to |batch|
      invariant ok <==> allOk && AllPass(batch[..i])
    {
      assert batch[..i + 1] == batch[..i] + [batch[i]];
      if ok {
        ok := batch[i].passes;
      }
    }
    assert batch[..|batch|] == batch;
  }

  // -------------------------------------------------------------------------
  // Any number of threads around the queue; thread 0 is the master
  // -------------------------------------------------------------------------

  /** `Waiting` is blocked in `cond.wait`; `Woken` has been notified and still needs the mutex. */
  datatype Thread = Outside | Waiting | Woken | Running(batch: seq<Check>, done: nat, ok: bool)

  datatype State = State(shared: Shared, threads: seq<Thread>)

  datatype Event =
    | Add(checks: seq<Check>, notified: nat)
    | Critical(thread: nat, outcome: Outcome)
    | Execute(thread: nat)
    | Spurious(thread: nat)

  function Fresh(batchSize: nat): Shared {
    Shared([], 0, 0, true, 0, false, batchSize)
  }

  ghost predicate Init(s: State) {
    && |s.threads| > 0
    && (forall i :: 0 <= i < |s.threads| ==> s.threads[i] == Outside)
    && s.shared == Fresh(s.shared.batchSize)
  }

  /** `notify_one` on the workers' condition: some blocked worker wakes, if there is one. */
  ghost predicate NotifiedOne(ts: seq<Thread>, ts': seq<Thread>, chosen: nat) {
    if exists i :: 1 <= i < |ts| && ts[i].Waiting? then
      1 <= chosen < |ts| && ts[chosen].Waiting? && ts' == ts[chosen := Woken]
    else
      ts' == ts
  }

  ghost predicate NotifiedAll(ts: seq<Thread>, ts': seq<Thread>) {
    && |ts'| == |ts| > 0
    && ts'[0] == ts[0]
    && forall i :: 1 <= i < |ts| ==> ts'[i] == if ts[i].Waiting? then Woken else ts[i]
  }

  function NotifyMaster(ts: seq<Thread>): seq<Thread> {
    if |ts| > 0 && ts[0].Waiting? then ts[0 := Woken] else ts
  }

  predicate AtMutex(t: Thread) {
    t.Outside? || t.Woken? || (t.Running? && t.done == |t.batch|)
  }

  function EntryOf(t: Thread): Entry
    requires AtMutex(t)
  {
    match t
    case Outside => First
    case Woken => AfterWake
    case Running(batch, _, ok) => AfterBatch(|batch|, ok)
  }

  function Afterwards(outcome: Outcome, allOk: bool): Thread {
    match outcome
    case Leave(_) => Outside
    case Sleep => Waiting
    case Take(batch) => Running(batch, 0, allOk)
  }

  ghost predicate AddStep(s: State, checks: seq<Check>, notified: nat, s': State) {
    && |s.threads| > 0
    && s.threads[0].Outside?   // only the master adds work, and not while it is waiting
    && s'.shared == AddChecks(s.shared, checks)
    && (if |checks| == 0 then s'.threads == s.threads
        else if |checks| == 1 then NotifiedOne(s.threads, s'.threads, notified)
        else NotifiedAll(s.threads, s'.threads))
  }

  ghost predicate CriticalStep(s: State, t: nat, outcome: Outcome, s': State) {
    && t < |s.threads|
    && AtMutex(s.threads[t])
    && var entered := Prologue(s.shared, EntryOf(s.threads[t]));
       && entered.nTotal >= 0 && entered.nIdle >= 0
       && (s'.shared, outcome) == Settle(entered, t == 0)
       && var signalled := s.threads[t].Running? && t != 0 && entered.nTodo == 0;
          s'.threads == (if signalled then NotifyMaster(s.threads) else s.threads)
                        [t := Afterwards(outcome, s'.shared.allOk)]
  }

  ghost predicate ExecuteStep(s: State, t: nat, s': State) {
    && t < |s.threads|
    && s.threads[t].Running?
    && var th := s.threads[t];
       && th.done < |th.batch|
       && s' == s.(threads := s.threads[t := th.(done := th.done + 1, ok := th.ok && th.batch[th.done].passes)])
  }

  ghost predicate SpuriousStep(s: State, t: nat, s': State) {
    t < |s.threads| && s.threads[t].Waiting? && s' == s.(threads := s.threads[t := Woken])
  }

  ghost predicate Next(s: State, e: Event, s': State) {
    match e
    case Add(checks, notified) => AddStep(s, checks, notified, s')
    case Critical(t, outcome) => CriticalStep(s, t, outcome, s')
    case Execute(t) => ExecuteStep(s, t, s')
    case Spurious(t) => SpuriousStep(s, t, s')
  }

  ghost predicate IsRun(states: seq<State>, events: seq<Event>) {
    && |states| == |events| + 1
    && Init(states[0])
    && forall i :: 0 <= i < |events| ==> Next(states[i], events[i], states[i + 1])
  }

  function Master(s: State): Thread {
    if s.threads == [] then Outside else s.threads[0]
  }

  /** The checks added since the master's last `Wait` returned. */
  function Round(events: seq<Event>): seq<Check> {
    if events == [] then []
    else After(Round(events[..|events| - 1]), events[|events| - 1])
  }

  function After(round: seq<Check>, e: Event): seq<Check> {
    match e
    case Add(checks, _) => round + checks
    case Critical(t, Leave(_)) => if t == 0 then [] else round
    case _ => round
  }

  // -------------------------------------------------------------------------
  // Sums over the threads
  // -------------------------------------------------------------------------

  function Load(t: Thread): nat { if t.Running? then |t.batch| else 0 }
  function Idle(t: Thread): nat { if t.Waiting? || t.Woken? then 1 else 0 }
  function InLoop(t: Thread): nat { if t.Outside? then 0 else 1 }
  function Busy(t: Thread): nat { if t.Running? then 1 else 0 }

  function Sum(ts: seq<Thread>, f: Thread -> nat): nat {
    if ts == [] then 0 else f(ts[0]) + Sum(ts[1..], f)
  }

  lemma {:induction false} SumUpdate(ts: seq<Thread>, i: nat, t: Thread, f: Thread -> nat)
    requires i < |ts|
    ensures Sum(ts[i := t], f) == Sum(ts, f) - f(ts[i]) + f(t)
  {
    if i == 0 {
      assert ts[0 := t][1..] == ts[1..];
    } else {
      SumUpdate(ts[1..], i - 1, t, f);
      assert ts[i := t][1..] == ts[1..][i - 1 := t];
    }
  }

  lemma {:induction false} SumAgrees(ts: seq<Thread>, ts': seq<Thread>, f: Thread -> nat)
    requires |ts| == |ts'|
    requires forall i :: 0 <= i < |ts| ==> f(ts[i]) == f(ts'[i])
    ensures Sum(ts, f) == Sum(ts', f)
  {
    if ts != [] {
      SumAgrees(ts[1..], ts'[1..], f);
    }
  }

  lemma {:induction false} SumAtLeast(ts: seq<Thread>, i: nat, f: Thread -> nat)
    requires i < |ts|
    ensures Sum(ts, f) >= f(ts[i])
  {
    if i > 0 {
      SumAtLeast(ts[1..], i - 1, f);
    }
  }

  lemma {:induction false} SumPositive(ts: seq<Thread>, f: Thread -> nat) returns (i: nat)
    requires Sum(ts, f) > 0
    ensures i < |ts| && f(ts[i]) > 0
  {
    if f(ts[0]) > 0 {
      i := 0;
    } else {
      i := SumPositive(ts[1..], f);
      i := i + 1;
    }
  }

  lemma {:induction false} LoopSplits(ts: seq<Thread>)
    ensures Sum(ts, InLoop) == Sum(ts, Idle) + Sum(ts, Busy)
  {
    if ts != [] {
      LoopSplits(ts[1..]);
    }
  }

  // -------------------------------------------------------------------------
  // What every step keeps
  // -------------------------------------------------------------------------

  ghost predicate Counters(s: State) {
    && |s.threads| > 0
    && s.shared.nTodo == |s.shared.queue| + Sum(s.threads, Load)
    && s.shared.nIdle == Sum(s.threads, Idle)
    && s.shared.nTotal == Sum(s.threads, InLoop)
    && (forall i :: 0 <= i < |s.threads| && s.threads[i].Running? ==>
          0 < |s.threads[i].batch| && s.threads[i].done <= |s.threads[i].batch|)
    && (s.threads[0].Waiting? ==> s.shared.queue == [] && s.shared.nTodo > 0)
  }

  ghost predicate Outstanding(s: State, c: Check) {
    c in s.shared.queue || exists i :: 0 <= i < |s.threads| && s.threads[i].Running? && c in s.threads[i].batch
  }

  ghost predicate Verdicts(s: State, round: seq<Check>) {
    && (forall c :: Outstanding(s, c) ==> c in round)
    && (s.shared.allOk ==> forall c :: c in round ==> c.passes || Outstanding(s, c))
    && (!s.shared.allOk ==> !AllPass(round))
    && (forall i :: 0 <= i < |s.threads| && s.threads[i].Running? ==>
          var t := s.threads[i];
          && (t.ok ==> forall j :: 0 <= j < t.done && j < |t.batch| ==> t.batch[j].passes)
          && (!t.ok ==> !AllPass(round)))
  }

  lemma NothingOutstanding(s: State)
    requires Counters(s) && s.shared.nTodo == 0
    ensures s.shared.queue == [] && Sum(s.threads, Load) == 0
    ensures forall i :: 0 <= i < |s.threads| ==> !s.threads[i].Running?
    ensures forall c :: !Outstanding(s, c)
  {
    forall i | 0 <= i < |s.threads|
      ensures !s.threads[i].Running?
    {
      SumAtLeast(s.threads, i, Load);
    }
  }

  lemma CriticalKeepsCounters(s: State, t: nat, outcome: Outcome, s': State)
    requires Counters(s) && CriticalStep(s, t, outcome, s')
    ensures Counters(s')
  {
    var th := s.threads[t];
    var entered := Prologue(s.shared, EntryOf(th));
    var signalled := th.Running? && t != 0 && entered.nTodo == 0;
    var mid := if signalled then NotifyMaster(s.threads) else s.threads;
    SumAgrees(s.threads, mid, Load);
    SumAgrees(s.threads, mid, Idle);
    SumAgrees(s.threads, mid, InLoop);
    var th' := Afterwards(outcome, s'.shared.allOk);
    SumUpdate(mid, t, th', Load);
    SumUpdate(mid, t, th', Idle);
    SumUpdate(mid, t, th', InLoop);
    SumAtLeast(s.threads, t, Load);
  }

  /** Threads that keep their batch, and are idle or in the loop as before, keep the sums. */
  lemma SameSums(ts: seq<Thread>, ts': seq<Thread>)
    requires |ts| == |ts'|
    requires forall i :: 0 <= i < |ts| ==>
      Load(ts'[i]) == Load(ts[i]) && Idle(ts'[i]) == Idle(ts[i]) && InLoop(ts'[i]) == InLoop(ts[i])
    ensures Sum(ts', Load) == Sum(ts, Load) && Sum(ts', Idle) == Sum(ts, Idle) && Sum(ts', InLoop) == Sum(ts, InLoop)
  {
    SumAgrees(ts, ts', Load);
    SumAgrees(ts, ts', Idle);
    SumAgrees(ts, ts', InLoop);
  }

  lemma AddKeepsCounters(s: State, checks: seq<Check>, notified: nat, s': State)
    requires Counters(s) && AddStep(s, checks, notified, s')
    ensures Counters(s')
  {
    SameSums(s.threads, s'.threads);
  }

  lemma StepKeepsCounters(s: State, e: Event, s': State)
    requires Counters(s) && Next(s, e, s')
    ensures Counters(s')
  {
    match e {
      case Add(checks, notified) => AddKeepsCounters(s, checks, notified, s');
      case Critical(t, outcome) => CriticalKeepsCounters(s, t, outcome, s');
      case _ => SameSums(s.threads, s'.threads);
    }
  }

  lemma AddKeepsVerdicts(s: State, checks: seq<Check>, notified: nat, s': State, round: seq<Check>)
    requires Counters(s) && Verdicts(s, round) && AddStep(s, checks, notified, s')
    ensures Verdicts(s', round + checks)
  {
    assert forall i :: 0 <= i < |s.threads| && s.threads[i].Running? ==> s'.threads[i] == s.threads[i];
    assert forall i :: 0 <= i < |s.threads| && s'.threads[i].Running? ==> s'.threads[i] == s.threads[i];
    forall c
      ensures Outstanding(s', c) <==> Outstanding(s, c) || c in checks
    {}
  }

  /** A thread that gives up its finished batch without having failed has only passing checks in it. */
  lemma FinishedBatch(s: State, t: nat, round: seq<Check>)
    requires Counters(s) && Verdicts(s, round)
    requires t < |s.threads| && s.threads[t].Running? && AtMutex(s.threads[t]) && s.threads[t].ok
    ensures AllPass(s.threads[t].batch)
  {
    var th := s.threads[t];
    forall c | c in th.batch
      ensures c.passes
    {
      var j :| 0 <= j < |th.batch| && th.batch[j] == c;
    }
  }

  lemma CriticalKeepsVerdicts(s: State, t: nat, outcome: Outcome, s': State, round: seq<Check>)
    requires Counters(s) && Verdicts(s, round) && CriticalStep(s, t, outcome, s')
    ensures t == 0 && outcome.Leave? ==> (outcome.result <==> AllPass(round))
    ensures Verdicts(s', After(round, Critical(t, outcome)))
  {
    CriticalKeepsCounters(s, t, outcome, s');
    var th := s.threads[t];
    var entered := Prologue(s.shared, EntryOf(th));
    assert forall i :: 0 <= i < |s.threads| && i != t ==>
        (s.threads[i].Running? || s'.threads[i].Running? ==> s'.threads[i] == s.threads[i]);
    if th.Running? && th.ok {
      FinishedBatch(s, t, round);
    }
    assert entered.allOk ==> forall c :: c in round && Outstanding(s, c) && !c.passes ==>
        c in entered.queue || exists i :: 0 <= i < |s.threads| && i != t && s.threads[i].Running? && c in s.threads[i].batch;
    assert !entered.allOk ==> !AllPass(round);
    if outcome.Leave? {
      NothingOutstandingAfterLeave(s, t, outcome, s');
      if t == 0 {
        LeaveIsExact(s, outcome, s', round);
      }
    } else {
      if outcome.Take? {
        forall c {
          TopMembers(entered.queue, BatchLength(entered), c);
        }
        assert s'.threads[t].Running? && s'.threads[t].batch == outcome.batch;
      }
      assert forall c :: c in entered.queue ==> Outstanding(s', c);
    }
  }

  lemma NothingOutstandingAfterLeave(s: State, t: nat, outcome: Outcome, s': State)
    requires Counters(s) && CriticalStep(s, t, outcome, s') && outcome.Leave?
    ensures Counters(s') && s'.shared.nTodo == 0 && forall c :: !Outstanding(s', c)
    ensures forall i :: 0 <= i < |s.threads| && i != t ==> !s.threads[i].Running?
    ensures s.shared.queue == []
  {
    CriticalKeepsCounters(s, t, outcome, s');
    NothingOutstanding(s');
    forall i | 0 <= i < |s.threads| && i != t
      ensures !s.threads[i].Running?
    {
      assert !s'.threads[i].Running?;
    }
  }

  lemma LeaveIsExact(s: State, outcome: Outcome, s': State, round: seq<Check>)
    requires Counters(s) && Verdicts(s, round) && CriticalStep(s, 0, outcome, s') && outcome.Leave?
    ensures outcome.result <==> AllPass(round)
    ensures s'.shared.allOk
  {
    NothingOutstandingAfterLeave(s, 0, outcome, s');
    var th := s.threads[0];
    if th.Running? && th.ok {
      FinishedBatch(s, 0, round);
    }
    if outcome.result {
      forall c | c in round
        ensures c.passes
      {
        assert c.passes || Outstanding(s, c);
      }
    }
  }

  lemma SameOutstanding(s: State, s': State)
    requires s'.shared.queue == s.shared.queue && |s'.threads| == |s.threads|
    requires forall i :: 0 <= i < |s.threads| ==>
      (s.threads[i].Running? <==> s'.threads[i].Running?) &&
      (s.threads[i].Running? ==> s'.threads[i].batch == s.threads[i].batch)
    ensures forall c :: Outstanding(s', c) <==> Outstanding(s, c)
  {
    forall c
      ensures Outstanding(s', c) <==> Outstanding(s, c)
    {
      if i :| 0 <= i < |s.threads| && s.threads[i].Running? && c in s.threads[i].batch {
        assert s'.threads[i].Running?;
      }
      if i :| 0 <= i < |s'.threads| && s'.threads[i].Running? && c in s'.threads[i].batch {
        assert s.threads[i].Running?;
      }
    }
  }

  lemma StepKeepsVerdicts(s: State, e: Event, s': State, round: seq<Check>)
    requires Counters(s) && Verdicts(s, round) && Next(s, e, s')
    ensures Verdicts(s', After(round, e))
  {
    match e {
      case Add(checks, notified) => AddKeepsVerdicts(s, checks, notified, s', round);
      case Critical(t, outcome) => CriticalKeepsVerdicts(s, t, outcome, s', round);
      case Execute(t) =>
        assert Outstanding(s, s.threads[t].batch[s.threads[t].done]);
        SameOutstanding(s, s');
      case Spurious(t) => SameOutstanding(s, s');
    }
  }

  lemma {:induction false} RunKeepsInvariant(states: seq<State>, events: seq<Event>, i: nat)
    requires IsRun(states, events) && i <= |events|
    ensures Counters(states[i]) && Verdicts(states[i], Round(events[..i]))
  {
    if i == 0 {
      var s := states[0];
      SumAgrees(s.threads, seq(|s.threads|, _ => Outside), Load);
      OutsideSums(|s.threads|, Load);
      SumAgrees(s.threads, seq(|s.threads|, _ => Outside), Idle);
      OutsideSums(|s.threads|, Idle);
      SumAgrees(s.threads, seq(|s.threads|, _ => Outside), InLoop);
      OutsideSums(|s.threads|, InLoop);
    } else {
      RunKeepsInvariant(states, events, i - 1);
      StepKeepsCounters(states[i - 1], events[i - 1], states[i]);
      StepKeepsVerdicts(states[i - 1], events[i - 1], states[i], Round(events[..i - 1]));
      assert events[..i][..i - 1] == events[..i - 1];
    }
  }

  lemma {:induction false} OutsideSums(n: nat, f: Thread -> nat)
    requires f(Outside) == 0
    ensures Sum(seq(n, _ => Outside), f) == 0
  {
    if n > 0 {
      OutsideSums(n - 1, f);
      assert seq(n, _ => Outside)[1..] == seq(n - 1, _ => Outside);
    }
  }

  // -------------------------------------------------------------------------
  // Main results: for every run, any number of threads, any batch size
  // -------------------------------------------------------------------------

  /** `Wait` returns true exactly when every check added since the previous `Wait` passes. */
  lemma WaitIsExact(states: seq<State>, events: seq<Event>, i: nat)
    requires IsRun(states, events) && i < |events|
    requires events[i].Critical? && events[i].thread == 0 && events[i].outcome.Leave?
    ensures events[i].outcome.result <==> AllPass(Round(events[..i]))
  {
    RunKeepsInvariant(states, events, i);
    CriticalKeepsVerdicts(states[i], 0, events[i].outcome, states[i + 1], Round(events[..i]));
  }

  /** The counters are exact whenever the mutex is free. */
  lemma CountersAreExact(states: seq<State>, events: seq<Event>, i: nat)
    requires IsRun(states, events) && i <= |events|
    ensures states[i].shared.nTodo == |states[i].shared.queue| + Sum(states[i].threads, Load)
    ensures states[i].shared.nTotal - states[i].shared.nIdle == Sum(states[i].threads, Busy)
  {
    RunKeepsInvariant(states, events, i);
    LoopSplits(states[i].threads);
  }

  /** The three assertions of the queue's controller hold whenever the master is outside
      and has added nothing since its last `Wait`. */
  lemma ControllerAssertionsHold(states: seq<State>, events: seq<Event>, i: nat)
    requires IsRun(states, events) && i <= |events|
    requires Master(states[i]).Outside? && Round(events[..i]) == []
    ensures states[i].shared.nTotal == states[i].shared.nIdle
    ensures states[i].shared.nTodo == 0 && states[i].shared.allOk
  {
    RunKeepsInvariant(states, events, i);
    var s := states[i];
    if s.shared.queue != [] {
      assert Outstanding(s, s.shared.queue[0]);
    }
    LoopSplits(s.threads);
    if Sum(s.threads, Load) > 0 {
      var t := SumPositive(s.threads, Load);
      assert Outstanding(s, s.threads[t].batch[0]);
    }
    if Sum(s.threads, Busy) > 0 {
      var t := SumPositive(s.threads, Busy);
      assert Outstanding(s, s.threads[t].batch[0]);
    }
  }

  /** The controller reads the counters without taking the mutex. While some worker is inside its critical section,
      between coming in and going to sleep, its first assertion fails: exactly then, since by the lemma above all
      three hold when nobody is inside. */
  lemma ControllerReadsTooEarly(states: seq<State>, events: seq<Event>, i: nat, t: nat)
    requires IsRun(states, events) && i <= |events|
    requires Master(states[i]).Outside? && Round(events[..i]) == []
    requires 0 < t < |states[i].threads| && AtMutex(states[i].threads[t])
    ensures var inside := Prologue(states[i].shared, EntryOf(states[i].threads[t]));
      inside.nTotal == inside.nIdle + 1 && inside.nTodo == 0 && inside.allOk
  {
    ControllerAssertionsHold(states, events, i);
    RunKeepsInvariant(states, events, i);
    NothingOutstanding(states[i]);
  }

  /** This happens, for one, when a worker has just been started. */
  lemma ReadsTooEarlyAtStart(batchSize: nat) returns (states: seq<State>)
    ensures IsRun(states, []) && Master(states[0]).Outside? && |states[0].threads| == 2 && AtMutex(states[0].threads[1])
  {
    states := [State(Fresh(batchSize), [Outside, Outside])];
  }

  /** A master blocked without a pending signal is waiting for some worker that is still running a batch. */
  lemma MasterIsNeverStranded(states: seq<State>, events: seq<Event>, i: nat) returns (worker: nat)
    requires IsRun(states, events) && i <= |events|
    requires Master(states[i]).Waiting?
    ensures states[i].shared.nTodo > 0 && states[i].shared.queue == []
    ensures 0 < worker < |states[i].threads| && states[i].threads[worker].Running?
  {
    RunKeepsInvariant(states, events, i);
    worker := SumPositive(states[i].threads, Load);
  }

  /** Nothing ever sets the flag that would let workers go. */
  lemma {:induction false} NeverQuits(states: seq<State>, events: seq<Event>, i: nat)
    requires IsRun(states, events) && i <= |events|
    ensures !states[i].shared.quit
  {
    if i > 0 {
      NeverQuits(states, events, i - 1);
      assert Next(states[i - 1], events[i - 1], states[i - 1 + 1]);
    }
  }

  /** No check is queued or in anybody's batch. */
  ghost predicate NoneLeft(s: State) {
    && s.shared.queue == []
    && forall t :: 0 <= t < |s.threads| && s.threads[t].Running? ==> s.threads[t].batch == []
  }

  /** A thread that finds work takes some; without work a worker goes to sleep and never leaves; the master leaves
      exactly when no check is left. */
  lemma OutcomeIs(states: seq<State>, events: seq<Event>, i: nat)
    requires IsRun(states, events) && i < |events| && events[i].Critical?
    ensures events[i].outcome.Take? <==> states[i].shared.queue != []
    ensures events[i].thread != 0 ==> !events[i].outcome.Leave?
    ensures events[i].thread == 0 ==> (events[i].outcome.Leave? <==> NoneLeft(states[i + 1]))
  {
    var s, s' := states[i], states[i + 1];
    NeverQuits(states, events, i);
    RunKeepsInvariant(states, events, i + 1);
    if events[i].outcome.Take? {
      var t := events[i].thread;
      assert s'.threads[t].Running?;
    } else if s'.shared.nTodo == 0 {
      NothingOutstanding(s');
    } else {
      var t := SumPositive(s'.threads, Load);
    }
  }

  /** A worker that has come in stays in. */
  lemma {:induction false} WorkersStay(states: seq<State>, events: seq<Event>, i: nat, j: nat, t: nat)
    requires IsRun(states, events) && i <= j <= |events|
    requires 0 < t < |states[i].threads| && !states[i].threads[t].Outside?
    ensures t < |states[j].threads| && !states[j].threads[t].Outside?
  {
    if i < j {
      WorkersStay(states, events, i, j - 1, t);
      assert Next(states[j - 1], events[j - 1], states[j - 1 + 1]);
      if events[j - 1].Critical? {
        OutcomeIs(states, events, j - 1);
      }
    }
  }

  /** New work wakes sleepers: one of them for one check, all of them for more. */
  lemma AddWakesWorkers(states: seq<State>, events: seq<Event>, i: nat, t: nat)
    requires IsRun(states, events) && i < |events| && events[i].Add? && 0 < t < |states[i].threads|
    ensures t < |states[i + 1].threads|
    ensures |events[i].checks| > 1 ==> !states[i + 1].threads[t].Waiting?
    ensures |events[i].checks| == 1 && states[i].threads[t].Waiting? ==>
      exists w :: 0 < w < |states[i].threads| && states[i].threads[w].Waiting? && states[i + 1].threads[w].Woken?
    ensures |events[i].checks| == 0 ==> states[i + 1] == states[i]
  {
    assert Next(states[i], events[i], states[i + 1]);
  }
}
