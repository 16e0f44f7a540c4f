/**
  One more promise of the registry over whole runs of the world (`session.rs`): nobody who leaves it
  is forgotten.
 */
module Shutdowns {
  import opened Options
  import opened Sinks
  import opened Sessions
  import opened SessionLife
  import opened Connections

  /** Still registered, its sink closed, or about to be closed by whoever removed it. */
  predicate Accounted(w: World, s: nat)
    requires s in w.registry.records
  {
    Registered(w, s) || w.registry.records[s].sink.closed || s in w.closing
  }

  ghost predicate AllAccounted(w: World) {
    forall s | s in w.registry.records :: Accounted(w, s)
  }

  lemma PumpNeverReopens(d: Drive, a: PumpAction)
    requires CanPump(d, a)
    ensures d.record.sink.closed ==> Pump(d, a).record.sink.closed
    ensures Pump(d, a).record.id == d.record.id
  {
  }

  lemma TaskStepAccounts(w: World, t: nat, a: PumpAction)
    requires Ownership(w) && AllAccounted(w) && Enabled(w, TaskStep(t, a))
    ensures AllAccounted(Next(w, TaskStep(t, a)))
  {
    hide Ownership, Pump, CanPump;
    PumpNeverReopens(DriveOf(w, t), a);
    forall s | s in Next(w, TaskStep(t, a)).registry.records ensures Accounted(Next(w, TaskStep(t, a)), s) {
      assert Accounted(w, s);
    }
  }

  lemma ClaimAccounts(w: World, id: string, now: Instant)
    requires Ownership(w) && AllAccounted(w)
    ensures AllAccounted(AfterClaim(w, id, now))
  {
    var after := AfterClaim(w, id, now);
    forall s | s in after.registry.records ensures Accounted(after, s) {
      assert Accounted(w, s);
    }
  }

  lemma DisconnectAccounts(w: World, t: nat, now: Instant)
    requires Ownership(w) && AllAccounted(w) && At(w, t, Leaving)
    ensures AllAccounted(AfterDisconnect(w, t, now))
  {
    var after := AfterDisconnect(w, t, now);
    forall s | s in after.registry.records ensures Accounted(after, s) {
      assert Accounted(w, s);
    }
  }

  lemma DestroyAccounts(w: World, t: nat)
    requires Ownership(w) && AllAccounted(w) && At(w, t, Closing)
    ensures AllAccounted(AfterDestroy(w, t))
  {
    var after := AfterDestroy(w, t);
    forall s | s in after.registry.records ensures Accounted(after, s) {
      assert Accounted(w, s);
    }
  }

  lemma SweepAccounts(w: World, j: nat, id: string)
    requires Ownership(w) && AllAccounted(w) && CanSweep(w, j, id)
    ensures AllAccounted(AfterSweepRemove(w, j, id))
  {
    var after := AfterSweepRemove(w, j, id);
    forall s | s in after.registry.records ensures Accounted(after, s) {
      assert Accounted(w, s);
    }
  }

  lemma OtherStepsAccount(w: World, step: Step)
    requires Ownership(w) && AllAccounted(w) && Enabled(w, step)
    requires step.Open? || step.Send? || step.Configure? || step.SweepScan? || step.CloseSink?
    ensures AllAccounted(Next(w, step))
  {
    var after := Next(w, step);
    forall s | s in after.registry.records ensures Accounted(after, s) {
      if s in w.registry.records {
        assert Accounted(w, s);
      }
    }
  }

  lemma StepAccounts(w: World, step: Step)
    requires Connections.Inv(w) && AllAccounted(w) && Enabled(w, step)
    ensures AllAccounted(Next(w, step))
  {
    hide Ownership, AllAccounted;
    match step
    case TaskStep(t, a) => TaskStepAccounts(w, t, a);
    case Claim(id, now) => ClaimAccounts(w, id, now);
    case Disconnect(t, now) => DisconnectAccounts(w, t, now);
    case Destroy(t) => DestroyAccounts(w, t);
    case SweepRemove(j, id) => SweepAccounts(w, j, id);
    case _ => OtherStepsAccount(w, step);
  }

  lemma {:induction false} RunAccounts(w: World, steps: seq<Step>)
    requires Connections.Inv(w) && AllAccounted(w) && ValidRun(w, steps)
    ensures AllAccounted(Run(w, steps))
    decreases |steps|
  {
    if steps != [] {
      StepAccounts(w, steps[0]);
      StepKeepsInv(w, steps[0]);
      RunAccounts(Next(w, steps[0]), steps[1..]);
    }
  }

  /**
    Whoever is taken out of the registry, by a disconnect, an overflow or a sweep, has its sink
    closed or somebody about to close it, and nobody registered has.
   */
  lemma NobodyIsForgotten(w: World, s: nat)
    requires Reachable(w) && s in w.registry.records
    ensures !Registered(w, s) ==> w.registry.records[s].sink.closed || s in w.closing
    ensures s in w.closing ==> !Registered(w, s)
    ensures s in w.closing ==> Enabled(w, CloseSink(s)) && Next(w, CloseSink(s)).registry.records[s].sink.closed
  {
    var steps :| ValidRun(START, steps) && Run(START, steps) == w;
    RunAccounts(START, steps);
    ReachableInv(w);
    assert Accounted(w, s);
  }

  /** An expired session goes: a sweep finds it, and its second look takes it out and has it shut down. */
  lemma ExpiredAreSwept(w: World, id: string, now: Instant)
    requires Reachable(w) && w.registry.WellFormed() && id in w.registry.Expired(now)
    ensures
      var scanned, remove := Next(w, SweepScan(now)), SweepRemove(|w.sweeps|, id);
      && Enabled(scanned, remove)
      && id !in Next(scanned, remove).registry.entries
      && w.registry.entries[id].session in Next(scanned, remove).closing
  {
    var scanned := Next(w, SweepScan(now));
    assert scanned.registry == w.registry && scanned.sweeps[|w.sweeps|] == Sweep(now, w.registry.Expired(now));
  }
}
