/**
  The bound on concurrent loads (`loader.rs`, `load_uncached`): sixteen permits, taken by a call
  before it starts a thread, moved into the thread, and given back only when the thread ends,
  whether or not the call is still there to hear its answer.
 */
module LoadPermits {
  import opened Options

  const MAX_CONCURRENT_LOADS: nat := 16

  datatype Outcome = Answer(identifier: string, payload: int) | ThreadPanicked | SpawnFailed

  /** One call of `load_uncached`; dropped when its caller is cancelled at a wait. */
  datatype CallStage =
    | Waiting
    | Holding
    | Awaiting(thread: nat)
    | Finished(outcome: Outcome)
    | Dropped

  datatype Call = Call(identifier: string, stage: CallStage)

  /** An operating system thread; `said` is what it put in its one-shot channel, if anything. */
  datatype Phase = Running | Leaving | Ended

  datatype Thread = Thread(identifier: string, phase: Phase, said: Option<int>)

  datatype State = State(available: nat, calls: seq<Call>, threads: seq<Thread>)
  {
    function At(c: nat, stage: CallStage): State
      requires c < |calls|
    {
      this.(calls := calls[c := calls[c].(stage := stage)])
    }
  }

  const START := State(MAX_CONCURRENT_LOADS, [], [])

  datatype Step =
    | Enter(identifier: string)
    | Acquire(c: nat)
    | Spawn(c: nat)
    | FailToSpawn(c: nat)
    | Report(t: nat, payload: int)
    | Panic(t: nat)
    | End(t: nat)
    | Receive(c: nat)
    | Cancel(c: nat)

  predicate Enabled(s: State, step: Step) {
    match step
    case Enter(_) => true
    case Acquire(c) => c < |s.calls| && s.calls[c].stage.Waiting? && s.available > 0
    case Spawn(c) => c < |s.calls| && s.calls[c].stage.Holding?
    case FailToSpawn(c) => c < |s.calls| && s.calls[c].stage.Holding?
    case Report(t, _) => t < |s.threads| && s.threads[t].phase.Running?
    case Panic(t) => t < |s.threads| && s.threads[t].phase.Running?
    case End(t) => t < |s.threads| && s.threads[t].phase.Leaving?
    case Receive(c) =>
      && c < |s.calls| && s.calls[c].stage.Awaiting? && s.calls[c].stage.thread < |s.threads|
      && !s.threads[s.calls[c].stage.thread].phase.Running?
    case Cancel(c) =>
      c < |s.calls| && (s.calls[c].stage.Waiting? || s.calls[c].stage.Holding? || s.calls[c].stage.Awaiting?)
  }

  function Do(s: State, step: Step): State
    requires Enabled(s, step)
  {
    match step
    case Enter(identifier) => s.(calls := s.calls + [Call(identifier, Waiting)])
    case Acquire(c) => s.(available := s.available - 1).At(c, Holding)
    case Spawn(c) =>
      s.(threads := s.threads + [Thread(s.calls[c].identifier, Running, None)]).At(c, Awaiting(|s.threads|))
    case FailToSpawn(c) => s.(available := s.available + 1).At(c, Finished(SpawnFailed))
    case Report(t, payload) => s.(threads := s.threads[t := s.threads[t].(phase := Leaving, said := Some(payload))])
    case Panic(t) => s.(threads := s.threads[t := s.threads[t].(phase := Leaving)])
    case End(t) => s.(available := s.available + 1, threads := s.threads[t := s.threads[t].(phase := Ended)])
    case Receive(c) =>
      var thread := s.threads[s.calls[c].stage.thread];
      s.At(c, Finished(if thread.said.Some? then Answer(thread.identifier, thread.said.value) else ThreadPanicked))
    case Cancel(c) =>
      (if s.calls[c].stage.Holding? then s.(available := s.available + 1) else s).At(c, Dropped)
  }

  function Holders(calls: seq<Call>): nat {
    if calls == [] then 0
    else Holders(calls[..|calls| - 1]) + if calls[|calls| - 1].stage.Holding? then 1 else 0
  }

  /** Threads that have not ended, their permits with them. */
  function Alive(threads: seq<Thread>): nat {
    if threads == [] then 0
    else Alive(threads[..|threads| - 1]) + if threads[|threads| - 1].phase.Ended? then 0 else 1
  }

  lemma {:induction false} HoldersAfter(calls: seq<Call>, c: nat, call: Call)
    requires c < |calls|
    ensures Holders(calls[c := call])
         == Holders(calls) - (if calls[c].stage.Holding? then 1 else 0) + (if call.stage.Holding? then 1 else 0)
  {
    var front := calls[..|calls| - 1];
    if c < |calls| - 1 {
      HoldersAfter(front, c, call);
      assert calls[c := call][..|calls| - 1] == front[c := call];
    } else {
      assert calls[c := call][..|calls| - 1] == front;
    }
  }

  lemma {:induction false} AliveAfter(threads: seq<Thread>, t: nat, thread: Thread)
    requires t < |threads|
    ensures Alive(threads[t := thread])
         == Alive(threads) - (if threads[t].phase.Ended? then 0 else 1) + (if thread.phase.Ended? then 0 else 1)
  {
    var front := threads[..|threads| - 1];
    if t < |threads| - 1 {
      AliveAfter(front, t, thread);
      assert threads[t := thread][..|threads| - 1] == front[t := thread];
    } else {
      assert threads[t := thread][..|threads| - 1] == front;
    }
  }

  ghost predicate Conserved(s: State) {
    s.available + Holders(s.calls) + Alive(s.threads) == MAX_CONCURRENT_LOADS
  }

  ghost predicate CallOk(s: State, c: nat)
    requires c < |s.calls|
  {
    match s.calls[c].stage
    case Awaiting(t) => t < |s.threads| && s.threads[t].identifier == s.calls[c].identifier
    case Finished(outcome) => outcome.Answer? ==> outcome.identifier == s.calls[c].identifier
    case _ => true
  }

  ghost predicate Inv(s: State) {
    && Conserved(s)
    && (forall c | 0 <= c < |s.calls| :: CallOk(s, c))
  }

  lemma StepConserves(s: State, step: Step)
    requires Conserved(s) && Enabled(s, step)
    ensures Conserved(Do(s, step))
  {
    match step
    case Enter(identifier) => assert Do(s, step).calls[..|s.calls|] == s.calls;
    case Spawn(c) =>
      assert Do(s, step).threads[..|s.threads|] == s.threads;
      HoldersAfter(s.calls, c, Do(s, step).calls[c]);
    case Report(t, _) => AliveAfter(s.threads, t, Do(s, step).threads[t]);
    case Panic(t) => AliveAfter(s.threads, t, Do(s, step).threads[t]);
    case End(t) => AliveAfter(s.threads, t, Do(s, step).threads[t]);
    case Acquire(c) => HoldersAfter(s.calls, c, Do(s, step).calls[c]);
    case FailToSpawn(c) => HoldersAfter(s.calls, c, Do(s, step).calls[c]);
    case Receive(c) => HoldersAfter(s.calls, c, Do(s, step).calls[c]);
    case Cancel(c) => HoldersAfter(s.calls, c, Do(s, step).calls[c]);
  }

  lemma StepKeepsInv(s: State, step: Step)
    requires Inv(s) && Enabled(s, step)
    ensures Inv(Do(s, step))
  {
    StepConserves(s, step);
    hide Conserved;
    forall c | 0 <= c < |Do(s, step).calls| ensures CallOk(Do(s, step), c) {
      StepKeepsCallOk(s, step, c);
    }
  }

  /** A thread keeps its identifier, and a call is answered for its thread's. */
  lemma StepKeepsCallOk(s: State, step: Step, c: nat)
    requires Enabled(s, step) && c < |Do(s, step).calls|
    requires c < |s.calls| ==> CallOk(s, c)
    ensures CallOk(Do(s, step), c)
  {
  }

  ghost predicate Leads(first: State, steps: seq<Step>, last: State)
    decreases |steps|
  {
    if steps == [] then first == last
    else Enabled(first, steps[0]) && Leads(Do(first, steps[0]), steps[1..], last)
  }

  lemma {:induction false} RunKeepsInv(first: State, steps: seq<Step>, last: State)
    requires Inv(first) && Leads(first, steps, last)
    ensures Inv(last)
    decreases |steps|
  {
    if steps != [] {
      StepKeepsInv(first, steps[0]);
      RunKeepsInv(Do(first, steps[0]), steps[1..], last);
    }
  }

  /**
    Permits are conserved under every schedule of arrivals, cancellations, failed spawns, panics
    and completions, so no schedule ever has more than sixteen threads, and none leaks a permit.
   */
  lemma PermitsAreConserved(steps: seq<Step>, last: State)
    requires Leads(START, steps, last)
    ensures last.available + Holders(last.calls) + Alive(last.threads) == MAX_CONCURRENT_LOADS
    ensures Alive(last.threads) <= MAX_CONCURRENT_LOADS
    ensures Holders(last.calls) == 0 && Alive(last.threads) == 0 ==> last.available == MAX_CONCURRENT_LOADS
  {
    RunKeepsInv(START, steps, last);
  }

  /** A waiting call can go on exactly while fewer than sixteen calls and threads have permits. */
  lemma WaitsOnlyForAPermit(steps: seq<Step>, last: State, c: nat)
    requires Leads(START, steps, last) && c < |last.calls| && last.calls[c].stage.Waiting?
    ensures Enabled(last, Acquire(c)) <==> Holders(last.calls) + Alive(last.threads) < MAX_CONCURRENT_LOADS
  {
    RunKeepsInv(START, steps, last);
  }

  /** Cancelling a call that started its thread frees nothing: the thread keeps the permit. */
  lemma CancellingKeepsTheThread(s: State, c: nat)
    requires Enabled(s, Cancel(c)) && s.calls[c].stage.Awaiting?
    ensures Do(s, Cancel(c)).available == s.available && Alive(Do(s, Cancel(c)).threads) == Alive(s.threads)
    ensures Holders(Do(s, Cancel(c)).calls) == Holders(s.calls)
  {
    HoldersAfter(s.calls, c, Do(s, Cancel(c)).calls[c]);
  }

  /** Every answer is for the identifier the call asked, and a call never waits on a finished thread. */
  lemma AnswersMatchTheirCalls(steps: seq<Step>, last: State, c: nat)
    requires Leads(START, steps, last) && c < |last.calls|
    ensures
      var stage := last.calls[c].stage;
      && (stage.Finished? && stage.outcome.Answer? ==> stage.outcome.identifier == last.calls[c].identifier)
      && (stage.Awaiting? ==>
            && stage.thread < |last.threads|
            && (Enabled(last, Receive(c)) || Enabled(last, Panic(stage.thread))))
  {
    RunKeepsInv(START, steps, last);
    assert CallOk(last, c);
  }
}
