/**
  What the callers of the loader are answered, over whole runs (`loader.rs`): the runs of single
  flight seen through the cache they share.
 */
module LoadAnswers {
  import opened Options
  import opened LoadTables
  import opened SingleFlight

  /** What a step does to the cache, if anything. */
  function OnCache(w: World, step: Step): seq<CacheOp>
    requires Enabled(w, step)
  {
    match step
    case LookUp(r, now) => [CacheOp.LookUp(w.requests[r].identifier, now)]
    case Store(r, now, stored) => [Keep(w.requests[r].stage.result, now, stored)]
    case Sweep(now) => [CacheOp.Sweep(now)]
    case _ => []
  }

  ghost function CacheRun(first: World, steps: seq<Step>, last: World): seq<CacheOp>
    requires Leads(first, steps, last)
    decreases |steps|
  {
    if steps == [] then [] else OnCache(first, steps[0]) + CacheRun(Do(first, steps[0]), steps[1..], last)
  }

  const NO_TABLES := Tables(map[], map[])

  /** Nothing done to the cache looks at the loads in flight. */
  lemma CacheAlone(a: Tables, b: Tables)
    requires a.cache == b.cache
    ensures forall op :: LoadTables.After(a, op).cache == LoadTables.After(b, op).cache
  {
  }

  lemma StepIsOnCache(ops: seq<CacheOp>, w: World, step: Step)
    requires Enabled(w, step) && Ran(NO_TABLES, ops).cache == w.tables.cache
    ensures Ran(NO_TABLES, ops + OnCache(w, step)).cache == Do(w, step).tables.cache
  {
    hide Tables.Cached, Tables.Store, Tables.SweepExpired;
    CacheAlone(Ran(NO_TABLES, ops), w.tables);
    if OnCache(w, step) == [] {
      assert ops + OnCache(w, step) == ops;
    } else {
      assert (ops + OnCache(w, step))[..|ops|] == ops;
    }
  }

  lemma {:induction false} CacheFollows(ops: seq<CacheOp>, first: World, steps: seq<Step>, last: World)
    requires Leads(first, steps, last) && Ran(NO_TABLES, ops).cache == first.tables.cache
    ensures Ran(NO_TABLES, ops + CacheRun(first, steps, last)).cache == last.tables.cache
    decreases |steps|
  {
    hide Ran, OnCache, Do, Enabled;
    if steps == [] {
      assert ops + [] == ops;
    } else {
      StepIsOnCache(ops, first, steps[0]);
      CacheFollows(ops + OnCache(first, steps[0]), Do(first, steps[0]), steps[1..], last);
      assert ops + OnCache(first, steps[0]) + CacheRun(Do(first, steps[0]), steps[1..], last)
          == ops + CacheRun(first, steps, last);
    }
  }

  /**
    A request is answered at once exactly when the newest result that was kept for its identifier
    in the run is less than a minute old, with that result; otherwise it goes on to join or lead.
   */
  lemma LookUpAnswers(steps: seq<Step>, last: World, r: nat, now: Instant, start: Instant)
    requires Leads(START, steps, last) && Enabled(last, Step.LookUp(r, now))
    requires Ordered(CacheRun(START, steps, last), start) && Clock(CacheRun(START, steps, last), start) <= now
    ensures
      var newest, identifier := Newest(CacheRun(START, steps, last)), last.requests[r].identifier;
      Do(last, Step.LookUp(r, now)).requests[r].stage
        == if identifier in newest && now < newest[identifier].expiresAt
           then Answered(newest[identifier].result) else Joining
  {
    var ops := CacheRun(START, steps, last);
    CacheFollows([], START, steps, last);
    assert [] + ops == ops;
    LookUpAnswersTheNewest(ops, start, last.requests[r].identifier, now);
  }

  // Where every answer comes from.

  /** Some leader's load came back with this result. */
  ghost predicate WasLoaded(steps: seq<Step>, result: LoadResult) {
    exists r :: Load(r, result) in steps
  }

  /** Everything the cache, the channels and the requests hold was loaded in the run. */
  ghost predicate AllLoaded(steps: seq<Step>, w: World) {
    && (forall id | id in w.tables.cache :: WasLoaded(steps, w.tables.cache[id].result))
    && (forall c | 0 <= c < |w.channels| :: w.channels[c].sent.Some? ==> WasLoaded(steps, w.channels[c].sent.value))
    && (forall r | 0 <= r < |w.requests| ::
          w.requests[r].stage.InHand().Some? ==> WasLoaded(steps, w.requests[r].stage.InHand().value))
  }

  lemma StillLoaded(steps: seq<Step>, step: Step)
    ensures forall result :: WasLoaded(steps, result) ==> WasLoaded(steps + [step], result)
    ensures step.Load? ==> WasLoaded(steps + [step], step.result)
  {
    forall result | WasLoaded(steps, result) ensures WasLoaded(steps + [step], result) {
      var r :| Load(r, result) in steps;
      assert Load(r, result) in steps + [step];
    }
    if step.Load? {
      assert Load(step.r, step.result) in steps + [step];
    }
  }

  lemma CachedIsLoaded(steps: seq<Step>, w: World, step: Step)
    requires AllLoaded(steps, w) && Enabled(w, step)
    ensures forall id | id in Do(w, step).tables.cache :: WasLoaded(steps, Do(w, step).tables.cache[id].result)
  {
    hide WasLoaded;
  }

  lemma SentIsLoaded(steps: seq<Step>, w: World, step: Step)
    requires AllLoaded(steps, w) && Enabled(w, step)
    ensures forall c | 0 <= c < |Do(w, step).channels| ::
              Do(w, step).channels[c].sent.Some? ==> WasLoaded(steps, Do(w, step).channels[c].sent.value)
  {
    hide WasLoaded, Tables.Cached, Tables.SweepExpired, Tables.Store, Tables.RemoveIfStillOurs;
  }

  lemma InHandIsLoaded(steps: seq<Step>, w: World, step: Step, r: nat)
    requires AllLoaded(steps, w) && Enabled(w, step) && r < |Do(w, step).requests|
    ensures
      var stage := Do(w, step).requests[r].stage;
      stage.InHand().Some? ==>
        WasLoaded(steps, stage.InHand().value) || (step.Load? && stage.InHand().value == step.result)
  {
    hide WasLoaded, Tables.SweepExpired, Tables.Store, Tables.RemoveIfStillOurs;
  }

  lemma StepKeepsLoaded(steps: seq<Step>, w: World, step: Step)
    requires AllLoaded(steps, w) && Enabled(w, step)
    ensures AllLoaded(steps + [step], Do(w, step))
  {
    hide WasLoaded, Do;
    StillLoaded(steps, step);
    CachedIsLoaded(steps, w, step);
    SentIsLoaded(steps, w, step);
    forall r | 0 <= r < |Do(w, step).requests|
      ensures
        var stage := Do(w, step).requests[r].stage;
        stage.InHand().Some? ==> WasLoaded(steps + [step], stage.InHand().value)
    {
      InHandIsLoaded(steps, w, step, r);
    }
  }

  lemma {:induction false} RunKeepsLoaded(before: seq<Step>, first: World, steps: seq<Step>, last: World)
    requires AllLoaded(before, first) && Leads(first, steps, last)
    ensures AllLoaded(before + steps, last)
    decreases |steps|
  {
    if steps == [] {
      assert before + steps == before;
    } else {
      StepKeepsLoaded(before, first, steps[0]);
      RunKeepsLoaded(before + [steps[0]], Do(first, steps[0]), steps[1..], last);
      assert before + [steps[0]] + steps[1..] == before + steps;
    }
  }

  /** Whoever is answered, from the cache, a channel or a load of its own, gets what a load of its identifier gave. */
  lemma AnswersWereLoaded(steps: seq<Step>, last: World, r: nat)
    requires Leads(START, steps, last) && r < |last.requests| && last.requests[r].stage.Answered?
    ensures WasLoaded(steps, last.requests[r].stage.result)
    ensures last.requests[r].stage.result.identifier == last.requests[r].identifier
  {
    RunKeepsLoaded([], START, steps, last);
    assert [] + steps == steps;
    RunKeepsInv(START, steps, last);
    assert RequestOk(last, r);
  }
}
