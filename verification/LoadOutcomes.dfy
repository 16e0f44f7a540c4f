/**
  What the callers of the bounded loads are told (`loader.rs`, `load_uncached`), over whole runs:
  every outcome is traced back to the steps of the run that brought it about.
 */
module LoadOutcomes {
  import opened Options
  import opened LoadPermits

  // What a run has done, from its steps alone.

  /** The identifiers asked for, call by call. */
  function Asked(steps: seq<Step>): seq<string> {
    if steps == [] then []
    else Asked(steps[..|steps| - 1]) + if steps[|steps| - 1].Enter? then [steps[|steps| - 1].identifier] else []
  }

  /** The calls that started a thread, thread by thread. */
  function Spawned(steps: seq<Step>): seq<nat> {
    if steps == [] then []
    else Spawned(steps[..|steps| - 1]) + if steps[|steps| - 1].Spawn? then [steps[|steps| - 1].c] else []
  }

  predicate Started(steps: seq<Step>, c: nat, t: nat) {
    t < |Spawned(steps)| && Spawned(steps)[t] == c
  }

  // What a call and a thread are, by what the run has done.

  ghost predicate ThreadFollows(steps: seq<Step>, s: State, t: nat)
    requires t < |s.threads|
  {
    var thread := s.threads[t];
    && (forall p :: Report(t, p) in steps <==> thread.said == Some(p))
    && (Panic(t) in steps <==> !thread.phase.Running? && thread.said.None?)
    && (thread.phase.Running? ==> thread.said.None?)
    && (End(t) in steps <==> thread.phase.Ended?)
  }

  ghost predicate CallFollows(steps: seq<Step>, s: State, c: nat)
    requires c < |s.calls|
  {
    var stage := s.calls[c].stage;
    && (Receive(c) in steps <==> stage.Finished? && stage.outcome != SpawnFailed)
    && (FailToSpawn(c) in steps <==> stage == Finished(SpawnFailed))
    && (Cancel(c) in steps <==> stage.Dropped?)
    && (stage.Waiting? <==> Acquire(c) !in steps && Cancel(c) !in steps)
    && (stage.Waiting? || stage.Holding? || stage == Finished(SpawnFailed) ==> c !in Spawned(steps))
    && (stage.Awaiting? ==> Started(steps, c, stage.thread))
  }

  /** A call that heard from its thread ended as the thread did. */
  ghost predicate OutcomeFollows(steps: seq<Step>, s: State, c: nat)
    requires c < |s.calls|
  {
    s.calls[c].stage.Finished? && s.calls[c].stage.outcome != SpawnFailed ==>
      exists t: nat :: t < |s.threads| && Started(steps, c, t) && EndedAs(s, c, t)
  }

  predicate EndedAs(s: State, c: nat, t: nat)
    requires c < |s.calls| && t < |s.threads|
  {
    var thread := s.threads[t];
    && !thread.phase.Running?
    && s.calls[c].stage == Finished(
         if thread.said.Some? then Answer(s.calls[c].identifier, thread.said.value) else ThreadPanicked)
  }

  ghost predicate Follows(steps: seq<Step>, s: State) {
    && |s.calls| == |Asked(steps)| && (forall c | 0 <= c < |s.calls| :: s.calls[c].identifier == Asked(steps)[c])
    && |s.threads| == |Spawned(steps)|
    && (forall t, u | 0 <= t < u < |Spawned(steps)| :: Spawned(steps)[t] != Spawned(steps)[u])
    && (forall c | 0 <= c < |s.calls| :: CallFollows(steps, s, c) && OutcomeFollows(steps, s, c))
    && (forall t | 0 <= t < |s.threads| :: ThreadFollows(steps, s, t))
    && (forall step | step in steps :: Past(step, s))
  }

  /** A step of the past speaks of calls and threads that exist. */
  predicate Past(step: Step, s: State) {
    match step
    case Enter(_) => true
    case Report(t, _) => t < |s.threads|
    case Panic(t) => t < |s.threads|
    case End(t) => t < |s.threads|
    case _ => step.c < |s.calls|
  }

  lemma OneMoreStep(steps: seq<Step>, step: Step)
    ensures Asked(steps + [step]) == Asked(steps) + if step.Enter? then [step.identifier] else []
    ensures Spawned(steps + [step]) == Spawned(steps) + if step.Spawn? then [step.c] else []
    ensures forall x :: x in steps + [step] <==> x in steps || x == step
  {
    assert (steps + [step])[..|steps|] == steps;
  }

  lemma {:induction false} SpawnedByCalls(steps: seq<Step>, c: nat)
    requires c in Spawned(steps)
    ensures Spawn(c) in steps
  {
    if c in Spawned(steps[..|steps| - 1]) {
      SpawnedByCalls(steps[..|steps| - 1], c);
    }
  }

  lemma ThreadsAfter(s: State, step: Step)
    requires Enabled(s, step)
    ensures
      Do(s, step).threads == match step
                             case Spawn(c) => s.threads + [Thread(s.calls[c].identifier, Running, None)]
                             case Report(t, p) => s.threads[t := s.threads[t].(phase := Leaving, said := Some(p))]
                             case Panic(t) => s.threads[t := s.threads[t].(phase := Leaving)]
                             case End(t) => s.threads[t := s.threads[t].(phase := Ended)]
                             case _ => s.threads
  {
  }

  lemma ThreadsFollow(steps: seq<Step>, s: State, step: Step, t: nat)
    requires Enabled(s, step) && t < |Do(s, step).threads|
    requires t < |s.threads| ==> ThreadFollows(steps, s, t)
    requires t == |s.threads| ==> forall x | x in steps :: Past(x, s)
    ensures ThreadFollows(steps + [step], Do(s, step), t)
  {
    hide Do;
    ThreadsAfter(s, step);
    OneMoreStep(steps, step);
  }

  /** A step moves the one call it names, if it names one. */
  lemma StageAfter(s: State, step: Step, c: nat)
    requires Enabled(s, step) && c < |s.calls|
    ensures |Do(s, step).calls| == |s.calls| + if step.Enter? then 1 else 0
    ensures
      var stage := Do(s, step).calls[c].stage;
      if step == Acquire(c) then stage.Holding?
      else if step == Spawn(c) then stage == Awaiting(|s.threads|)
      else if step == FailToSpawn(c) then stage == Finished(SpawnFailed)
      else if step == Receive(c) then stage.Finished? && stage.outcome != SpawnFailed
      else if step == Cancel(c) then stage.Dropped?
      else stage == s.calls[c].stage
  {
  }

  lemma NewCall(s: State, step: Step)
    requires Enabled(s, step) && |Do(s, step).calls| > |s.calls|
    ensures step.Enter? && Do(s, step).calls == s.calls + [Call(step.identifier, Waiting)]
  {
  }

  lemma CallsFollow(steps: seq<Step>, s: State, step: Step, c: nat)
    requires Enabled(s, step) && c < |Do(s, step).calls| && |s.threads| == |Spawned(steps)|
    requires c < |s.calls| ==> CallFollows(steps, s, c)
    requires c == |s.calls| ==> forall x | x in steps :: Past(x, s)
    ensures CallFollows(steps + [step], Do(s, step), c)
  {
    hide Spawned, Do, Asked;
    OneMoreStep(steps, step);
    if c < |s.calls| {
      StageAfter(s, step, c);
    } else {
      NewCall(s, step);
      if c in Spawned(steps) {
        SpawnedByCalls(steps, c);
        assert false;
      }
    }
  }

  lemma OutcomesFollow(steps: seq<Step>, s: State, step: Step, c: nat)
    requires Enabled(s, step) && c < |Do(s, step).calls| && |s.threads| == |Spawned(steps)|
    requires c < |s.calls| ==>
      CallOk(s, c) && CallFollows(steps, s, c) && OutcomeFollows(steps, s, c)
    ensures OutcomeFollows(steps + [step], Do(s, step), c)
  {
    var after := Do(s, step);
    OneMoreStep(steps, step);
    if after.calls[c].stage.Finished? && after.calls[c].stage.outcome != SpawnFailed {
      var t: nat :| t < |s.threads| && Started(steps, c, t)
        && (if step == Receive(c) then t == s.calls[c].stage.thread else EndedAs(s, c, t));
      assert Started(steps + [step], c, t) && EndedAs(after, c, t);
    }
  }

  lemma StepFollows(steps: seq<Step>, s: State, step: Step)
    requires Follows(steps, s) && Inv(s) && Enabled(s, step)
    ensures Follows(steps + [step], Do(s, step))
  {
    hide CallFollows, OutcomeFollows, ThreadFollows;
    OneMoreStep(steps, step);
    ThreadsAfter(s, step);
    var after := Do(s, step);
    forall c | 0 <= c < |after.calls|
      ensures CallFollows(steps + [step], after, c) && OutcomeFollows(steps + [step], after, c)
    {
      CallsFollow(steps, s, step, c);
      OutcomesFollow(steps, s, step, c);
    }
    forall t | 0 <= t < |after.threads| ensures ThreadFollows(steps + [step], after, t) {
      ThreadsFollow(steps, s, step, t);
    }
    if step.Spawn? {
      NotSpawnedBefore(steps, s, step.c);
    }
  }

  lemma NotSpawnedBefore(steps: seq<Step>, s: State, c: nat)
    requires c < |s.calls| && s.calls[c].stage.Holding? && CallFollows(steps, s, c)
    ensures c !in Spawned(steps)
  {
  }

  lemma {:induction false} RunFollows(before: seq<Step>, first: State, steps: seq<Step>, last: State)
    requires Follows(before, first) && Inv(first) && Leads(first, steps, last)
    ensures Follows(before + steps, last)
    decreases |steps|
  {
    if steps == [] {
      assert before + steps == before;
    } else {
      StepFollows(before, first, steps[0]);
      StepKeepsInv(first, steps[0]);
      RunFollows(before + [steps[0]], Do(first, steps[0]), steps[1..], last);
      assert before + [steps[0]] + steps[1..] == before + steps;
    }
  }

  /**
    Every caller that heard from its thread was told what that thread did: its payload, for the
    identifier asked, exactly when the thread reported it, and a panic exactly when it panicked.
   */
  lemma ReceivedIsWhatTheThreadDid(steps: seq<Step>, last: State, c: nat) returns (t: nat)
    requires Leads(START, steps, last) && Receive(c) in steps
    ensures c < |last.calls| && last.calls[c].stage.Finished? && c < |Asked(steps)|
    ensures Started(steps, c, t) && forall u | Started(steps, c, u) :: u == t
    ensures forall p :: last.calls[c].stage.outcome == Answer(Asked(steps)[c], p) <==> Report(t, p) in steps
    ensures last.calls[c].stage.outcome == ThreadPanicked <==> Panic(t) in steps
    ensures last.calls[c].stage.outcome != SpawnFailed
  {
    RunFollows([], START, steps, last);
    assert [] + steps == steps;
    assert Past(Receive(c), last) && CallFollows(steps, last, c) && OutcomeFollows(steps, last, c);
    t :| t < |last.threads| && Started(steps, c, t) && EndedAs(last, c, t);
    assert ThreadFollows(steps, last, t);
  }

  /** A call ends otherwise only in a failed spawn or a cancellation, and is where it is for a reason. */
  lemma StagesHaveCauses(steps: seq<Step>, last: State, c: nat)
    requires Leads(START, steps, last) && c < |last.calls|
    ensures |last.calls| == |Asked(steps)| && last.calls[c].identifier == Asked(steps)[c]
    ensures last.calls[c].stage == Finished(SpawnFailed) <==> FailToSpawn(c) in steps
    ensures last.calls[c].stage.Dropped? <==> Cancel(c) in steps
    ensures last.calls[c].stage.Finished? <==> FailToSpawn(c) in steps || Receive(c) in steps
    ensures last.calls[c].stage.Waiting? <==> Acquire(c) !in steps && Cancel(c) !in steps
    ensures last.calls[c].stage.Awaiting? ==> Started(steps, c, last.calls[c].stage.thread)
  {
    RunFollows([], START, steps, last);
    assert [] + steps == steps;
    assert CallFollows(steps, last, c);
  }
}
