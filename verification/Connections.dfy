/**
  The node's WebSocket side as a step system: connection tasks (`ws.rs`), producers holding a
  session, the registry (`session.rs`) and the two-pass sweep. Each step is one lock-held
  section or one await. Sessions are numbered by creation, which is the identity of the source's
  `Arc<Session>`; tasks find them in the registry by id, and an id may be drawn again once free.
 */
module Connections {
  import opened Options
  import opened Sinks
  import opened Sessions
  import opened SessionLife

  datatype Task = Task(session: nat, connection: Connection)

  datatype Sweep = Sweep(now: Instant, ids: set<string>)

  datatype World = World(
    registry: Registry<nat>,
    tasks: seq<Task>,
    owner: map<nat, nat>,       // the task each session was last handed to
    closing: set<nat>,          // removed from the registry, sink not closed yet
    sweeps: seq<Sweep>,
    history: map<nat, History>)

  const START := World(Registry(map[], map[]), [], map[], {}, [], map[])

  datatype Step =
    | Open(id: string, session: nat)
    | Claim(id: string, now: Instant)
    | TaskStep(t: nat, a: PumpAction)
    | Destroy(t: nat)
    | Disconnect(t: nat, now: Instant)
    | Send(session: nat, m: Message)
    | Configure(session: nat, resuming: bool, secs: int)
    | SweepScan(now: Instant)
    | SweepRemove(j: nat, id: string)
    | CloseSink(session: nat)

  predicate Live(w: World, t: int) {
    0 <= t < |w.tasks| && w.tasks[t].connection.pc != Ended
  }

  predicate Known(w: World, session: nat) {
    session in w.registry.records && session in w.history
  }

  function DriveOf(w: World, t: nat): Drive
    requires t < |w.tasks| && Known(w, w.tasks[t].session)
  {
    var task := w.tasks[t];
    Drive(w.registry.records[task.session], task.connection, w.history[task.session])
  }

  function WithDrive(w: World, t: nat, d: Drive): World
    requires t < |w.tasks|
  {
    var session := w.tasks[t].session;
    w.(registry := w.registry.(records := w.registry.records[session := d.record]),
       tasks := w.tasks[t := Task(session, d.connection)],
       history := w.history[session := d.history])
  }

  /** A registry removal hands the session to a shutdown, which closes its sink later. */
  function Removed(w: World, removal: (Registry<nat>, Option<nat>)): World {
    w.(registry := removal.0, closing := w.closing + if removal.1.Some? then {removal.1.value} else {})
  }

  function End(w: World, t: nat): World
    requires t < |w.tasks|
  {
    w.(tasks := w.tasks[t := w.tasks[t].(connection := w.tasks[t].connection.(pc := Ended))])
  }

  // The steps.

  predicate CanOpen(w: World, id: string, session: nat) {
    id !in w.registry.entries && session !in w.registry.records && session !in w.history
  }

  function AfterOpen(w: World, id: string, session: nat): World {
    w.(registry := w.registry.Open(id, session),
       tasks := w.tasks + [Task(session, NEW_CONNECTION)],
       owner := w.owner[session := |w.tasks|],
       history := w.history[session := NO_HISTORY])
  }

  function AfterClaim(w: World, id: string, now: Instant): World
    requires w.registry.WellFormed()
  {
    var (registry, claimed) := w.registry.Claim(id, now);
    if claimed.None? then w
    else
      w.(registry := registry,
         tasks := w.tasks + [Task(claimed.value, RESUMED_CONNECTION)],
         owner := w.owner[claimed.value := |w.tasks|])
  }

  predicate At(w: World, t: nat, pc: Pc) {
    t < |w.tasks| && Known(w, w.tasks[t].session) && w.tasks[t].connection.pc == pc
  }

  function AfterDestroy(w: World, t: nat): World
    requires At(w, t, Closing)
  {
    End(Removed(w, w.registry.Remove(w.registry.records[w.tasks[t].session].id)), t)
  }

  function AfterDisconnect(w: World, t: nat, now: Instant): World
    requires At(w, t, Leaving) && w.registry.WellFormed()
  {
    End(Removed(w, w.registry.Disconnect(w.registry.records[w.tasks[t].session].id, now)), t)
  }

  function AfterSend(w: World, session: nat, m: Message): World
    requires Known(w, session)
  {
    var l := Produce(Life(w.registry.records[session], Gone, w.history[session]), m);
    w.(registry := w.registry.(records := w.registry.records[session := l.record]),
       history := w.history[session := l.history])
  }

  function AfterConfigure(w: World, session: nat, resuming: bool, secs: int): World
    requires Known(w, session)
  {
    var record := w.registry.records[session].(resuming := resuming, resumeTimeoutSecs := secs);
    w.(registry := w.registry.(records := w.registry.records[session := record]))
  }

  ghost predicate CanSweep(w: World, j: nat, id: string) {
    j < |w.sweeps| && id in w.sweeps[j].ids && w.registry.WellFormed()
  }

  ghost function AfterSweepRemove(w: World, j: nat, id: string): World
    requires CanSweep(w, j, id)
  {
    Removed(w, w.registry.RemoveIfStillExpired(id, w.sweeps[j].now))
      .(sweeps := w.sweeps[j := w.sweeps[j].(ids := w.sweeps[j].ids - {id})])
  }

  function AfterCloseSink(w: World, session: nat): World
    requires Known(w, session)
  {
    w.(registry := w.registry.SetSink(session, w.registry.records[session].sink.Close()),
       history := w.history[session := w.history[session].(lost := true)],
       closing := w.closing - {session})
  }

  ghost predicate Enabled(w: World, step: Step) {
    match step
    case Open(id, session) => CanOpen(w, id, session)
    case Claim(_, _) => w.registry.WellFormed()
    case TaskStep(t, a) => t < |w.tasks| && Known(w, w.tasks[t].session) && CanPump(DriveOf(w, t), a)
    case Destroy(t) => At(w, t, Closing)
    case Disconnect(t, _) => At(w, t, Leaving) && w.registry.WellFormed()
    case Send(session, m) => Known(w, session) && !m.Ready?
    case Configure(session, _, _) => Known(w, session)
    case SweepScan(_) => w.registry.WellFormed()
    case SweepRemove(j, id) => CanSweep(w, j, id)
    case CloseSink(session) => session in w.closing && Known(w, session)
  }

  ghost function Next(w: World, step: Step): World
    requires Enabled(w, step)
  {
    match step
    case Open(id, session) => AfterOpen(w, id, session)
    case Claim(id, now) => AfterClaim(w, id, now)
    case TaskStep(t, a) => WithDrive(w, t, Pump(DriveOf(w, t), a))
    case Destroy(t) => AfterDestroy(w, t)
    case Disconnect(t, now) => AfterDisconnect(w, t, now)
    case Send(session, m) => AfterSend(w, session, m)
    case Configure(session, resuming, secs) => AfterConfigure(w, session, resuming, secs)
    case SweepScan(now) => w.(sweeps := w.sweeps + [Sweep(now, w.registry.Expired(now))])
    case SweepRemove(j, id) => AfterSweepRemove(w, j, id)
    case CloseSink(session) => AfterCloseSink(w, session)
  }

  ghost predicate ValidRun(w: World, steps: seq<Step>)
    decreases |steps|
  {
    steps == [] || (Enabled(w, steps[0]) && ValidRun(Next(w, steps[0]), steps[1..]))
  }

  ghost function Run(w: World, steps: seq<Step>): World
    requires ValidRun(w, steps)
    decreases |steps|
  {
    if steps == [] then w else Run(Next(w, steps[0]), steps[1..])
  }

  // Who owns what.

  predicate Registered(w: World, session: nat) {
    session in w.registry.records &&
    w.registry.records[session].id in w.registry.entries &&
    w.registry.entries[w.registry.records[session].id].session == session
  }

  predicate RegisteredOpen(w: World, session: nat) {
    Registered(w, session) && w.registry.entries[w.registry.records[session].id].state.Open?
  }

  predicate Owned(w: World, session: nat) {
    session in w.owner && Live(w, w.owner[session]) && w.tasks[w.owner[session]].session == session
  }

  ghost predicate Ownership(w: World) {
    && w.registry.WellFormed()
    && w.registry.records.Keys == w.history.Keys
    && (forall t | 0 <= t < |w.tasks| :: w.tasks[t].session in w.registry.records)
    && (forall t | Live(w, t) :: Owned(w, w.tasks[t].session) && w.owner[w.tasks[t].session] == t)
    && (forall s | s in w.registry.records :: RegisteredOpen(w, s) <==> Owned(w, s))
    && (forall s | s in w.closing :: s in w.registry.records && !Registered(w, s))
  }

  /** One session of the world, seen alone. */
  function LifeOf(w: World, session: nat): Life
    requires Known(w, session) && (RegisteredOpen(w, session) ==> Owned(w, session))
  {
    var stage :=
      if !Registered(w, session) then Gone
      else
        match w.registry.entries[w.registry.records[session].id].state
        case Resumable(deadline) => Detached(deadline)
        case Open => Connected(w.tasks[w.owner[session]].connection);
    Life(w.registry.records[session], stage, w.history[session])
  }

  ghost predicate Inv(w: World) {
    && Ownership(w)
    && (forall s | s in w.registry.records :: SessionLife.Inv(LifeOf(w, s)))
  }

  /** What a step of the world does to one session that existed before it. */
  ghost function ActionOn(w: World, step: Step, s: nat): Option<Action>
    requires Ownership(w) && s in w.registry.records && Enabled(w, step)
  {
    match step
    case Claim(id, now) =>
      if Registered(w, s) && w.registry.records[s].id == id && CanClaim(LifeOf(w, s), now)
      then Some(Claimed(now)) else None
    case TaskStep(t, a) => if w.tasks[t].session == s then Some(Driven(a)) else None
    case Destroy(t) => if w.tasks[t].session == s then Some(Destroyed) else None
    case Disconnect(t, now) => if w.tasks[t].session == s then Some(Disconnected(now)) else None
    case Send(session, m) => if session == s then Some(Produced(m)) else None
    case Configure(session, resuming, secs) => if session == s then Some(Configured(resuming, secs)) else None
    case SweepRemove(j, id) =>
      if Registered(w, s) && w.registry.records[s].id == id && LifeOf(w, s).stage.Detached?
      && !CanClaim(LifeOf(w, s), w.sweeps[j].now)
      then Some(Swept(w.sweeps[j].now)) else None
    case CloseSink(session) => if session == s then Some(SinkClosed) else None
    case _ => None
  }

  // Ownership survives every step.

  lemma OpenKeepsOwnership(w: World, id: string, session: nat)
    requires Ownership(w) && CanOpen(w, id, session)
    ensures Ownership(AfterOpen(w, id, session))
  {
  }

  lemma ClaimKeepsOwnership(w: World, id: string, now: Instant)
    requires Ownership(w)
    ensures Ownership(AfterClaim(w, id, now))
  {
  }

  /** A pump action neither ends its task nor renames its session. */
  lemma PumpStaysLive(d: Drive, a: PumpAction)
    requires CanPump(d, a)
    ensures d.connection.pc != Ended && Pump(d, a).connection.pc != Ended && Pump(d, a).record.id == d.record.id
  {
  }

  lemma DrivingKeepsOwnership(w: World, t: nat, d: Drive)
    requires Ownership(w) && Live(w, t) && d.connection.pc != Ended
    requires w.tasks[t].session in w.registry.records && d.record.id == w.registry.records[w.tasks[t].session].id
    ensures Ownership(WithDrive(w, t, d))
  {
  }

  lemma TaskStepKeepsOwnership(w: World, t: nat, a: PumpAction)
    requires Ownership(w) && Enabled(w, TaskStep(t, a))
    ensures Ownership(Next(w, TaskStep(t, a)))
  {
    hide Ownership, WithDrive, Pump, CanPump;
    PumpStaysLive(DriveOf(w, t), a);
    DrivingKeepsOwnership(w, t, Pump(DriveOf(w, t), a));
  }

  lemma DestroyKeepsOwnership(w: World, t: nat)
    requires Ownership(w) && At(w, t, Closing)
    ensures Ownership(AfterDestroy(w, t))
  {
  }

  lemma DisconnectKeepsOwnership(w: World, t: nat, now: Instant)
    requires Ownership(w) && At(w, t, Leaving)
    ensures Ownership(AfterDisconnect(w, t, now))
  {
  }

  lemma SweepRemoveKeepsOwnership(w: World, j: nat, id: string)
    requires Ownership(w) && CanSweep(w, j, id)
    ensures Ownership(AfterSweepRemove(w, j, id))
  {
  }

  lemma OtherKeepsOwnership(w: World, step: Step)
    requires Ownership(w) && Enabled(w, step)
    requires step.Send? || step.Configure? || step.SweepScan? || step.CloseSink?
    ensures Ownership(Next(w, step))
  {
  }

  lemma StepKeepsOwnership(w: World, step: Step)
    requires Ownership(w) && Enabled(w, step)
    ensures Ownership(Next(w, step))
  {
    match step
    case Open(id, session) => OpenKeepsOwnership(w, id, session);
    case Claim(id, now) => ClaimKeepsOwnership(w, id, now);
    case TaskStep(t, a) => TaskStepKeepsOwnership(w, t, a);
    case Destroy(t) => DestroyKeepsOwnership(w, t);
    case Disconnect(t, now) => DisconnectKeepsOwnership(w, t, now);
    case SweepRemove(j, id) => SweepRemoveKeepsOwnership(w, j, id);
    case _ => OtherKeepsOwnership(w, step);
  }

  // The world moves each session as its own machine does.

  /** After a step, a session that was there before has done the one action, or none. */
  ghost predicate Follows(w: World, step: Step, s: nat)
    requires Ownership(w) && s in w.registry.records && Enabled(w, step)
  {
    var v := Next(w, step);
    var a := ActionOn(w, step, s);
    && Known(v, s) && (RegisteredOpen(v, s) ==> Owned(v, s))
    && (a.Some? ==> Can(LifeOf(w, s), a.value))
    && LifeOf(v, s) == if a.Some? then Do(LifeOf(w, s), a.value) else LifeOf(w, s)
  }

  lemma ClaimFollows(w: World, id: string, now: Instant, s: nat)
    requires Ownership(w) && s in w.registry.records
    requires id in w.registry.entries ==> !w.registry.records[w.registry.entries[id].session].sink.closed
    ensures Follows(w, Claim(id, now), s)
  {
  }

  lemma TaskStepFollows(w: World, t: nat, a: PumpAction, s: nat)
    requires Ownership(w) && s in w.registry.records && Enabled(w, TaskStep(t, a))
    ensures Follows(w, TaskStep(t, a), s)
  {
  }

  lemma DestroyFollows(w: World, t: nat, s: nat)
    requires Ownership(w) && s in w.registry.records && At(w, t, Closing)
    ensures Follows(w, Destroy(t), s)
  {
  }

  lemma DisconnectFollows(w: World, t: nat, now: Instant, s: nat)
    requires Ownership(w) && s in w.registry.records && At(w, t, Leaving)
    ensures Follows(w, Disconnect(t, now), s)
  {
  }

  lemma SweepRemoveFollows(w: World, j: nat, id: string, s: nat)
    requires Ownership(w) && s in w.registry.records && CanSweep(w, j, id)
    ensures Follows(w, SweepRemove(j, id), s)
  {
  }

  lemma OpenFollows(w: World, id: string, session: nat, s: nat)
    requires Ownership(w) && s in w.registry.records && CanOpen(w, id, session)
    ensures Follows(w, Step.Open(id, session), s)
  {
  }

  lemma OtherFollows(w: World, step: Step, s: nat)
    requires Ownership(w) && s in w.registry.records && Enabled(w, step)
    requires step.Configure? || step.SweepScan? || step.CloseSink?
    ensures Follows(w, step, s)
  {
  }

  lemma SendFollows(w: World, session: nat, m: Message, s: nat)
    requires Ownership(w) && s in w.registry.records && Enabled(w, Send(session, m))
    ensures Follows(w, Send(session, m), s)
  {
  }

  lemma StepFollows(w: World, step: Step, s: nat)
    requires Inv(w) && s in w.registry.records && Enabled(w, step)
    ensures Follows(w, step, s)
  {
    match step
    case Open(id, session) => OpenFollows(w, id, session, s);
    case Claim(id, now) =>
      if id in w.registry.entries {
        assert SessionLife.Inv(LifeOf(w, w.registry.entries[id].session));
      }
      ClaimFollows(w, id, now, s);
    case TaskStep(t, a) => TaskStepFollows(w, t, a, s);
    case Destroy(t) => DestroyFollows(w, t, s);
    case Disconnect(t, now) => DisconnectFollows(w, t, now, s);
    case Send(session, m) => SendFollows(w, session, m, s);
    case SweepRemove(j, id) => SweepRemoveFollows(w, j, id, s);
    case _ => OtherFollows(w, step, s);
  }

  lemma StepKeepsInv(w: World, step: Step)
    requires Inv(w) && Enabled(w, step)
    ensures Inv(Next(w, step))
  {
    var v := Next(w, step);
    StepKeepsOwnership(w, step);
    forall s | s in v.registry.records ensures SessionLife.Inv(LifeOf(v, s)) {
      if s in w.registry.records {
        StepFollows(w, step, s);
        var a := ActionOn(w, step, s);
        if a.Some? {
          ActionKeepsInv(LifeOf(w, s), a.value);
        }
      } else {
        OnlyOpenCreates(w, step, s);
        NewLifeInv(step.id);
      }
    }
  }

  lemma OnlyOpenCreates(w: World, step: Step, s: nat)
    requires Ownership(w) && Enabled(w, step) && Ownership(Next(w, step))
    requires s !in w.registry.records && s in Next(w, step).registry.records
    ensures step.Open? && LifeOf(Next(w, step), s) == NewLife(step.id)
  {
  }

  lemma {:induction false} RunKeepsInv(w: World, steps: seq<Step>)
    requires Inv(w) && ValidRun(w, steps)
    ensures Inv(Run(w, steps))
    decreases |steps|
  {
    if steps != [] {
      StepKeepsInv(w, steps[0]);
      RunKeepsInv(Next(w, steps[0]), steps[1..]);
    }
  }

  // Whole-run theorems.

  ghost predicate Reachable(w: World) {
    exists steps :: ValidRun(START, steps) && Run(START, steps) == w
  }

  lemma ReachableInv(w: World)
    requires Reachable(w)
    ensures Inv(w)
  {
    var steps :| ValidRun(START, steps) && Run(START, steps) == w;
    RunKeepsInv(START, steps);
  }

  /** Single ownership: an open session has exactly one task, a resumable one none; looking and claiming agree. */
  lemma EverySessionHasOneOwner(w: World, id: string, now: Instant)
    requires Reachable(w) && id in w.registry.entries
    ensures
      var entry := w.registry.entries[id];
      && w.registry.WellFormed() && entry.session in w.registry.records
      && (entry.state.Open? ==>
            Owned(w, entry.session)
            && forall t | Live(w, t) && w.tasks[t].session == entry.session :: t == w.owner[entry.session])
      && (entry.state.Resumable? ==> forall t | Live(w, t) :: w.tasks[t].session != entry.session)
      && (entry.state.Resumable? <==> w.registry.records[entry.session].sink.paused)
      && !w.registry.records[entry.session].sink.closed && entry.session !in w.closing
      && (w.registry.CanResume(id, now) <==> w.registry.Claim(id, now).1.Some?)
  {
    ReachableInv(w);
    var s := w.registry.entries[id].session;
    assert SessionLife.Inv(LifeOf(w, s));
    CanResumeIffClaimSucceeds(w.registry, id, now);
    assert Registered(w, s);
    assert RegisteredOpen(w, s) <==> Owned(w, s);
  }

  /** A live task's session is registered under the id the task will disconnect or destroy it by. */
  lemma TasksFindTheirOwnSession(w: World, t: nat)
    requires Reachable(w) && Live(w, t)
    ensures
      var s := w.tasks[t].session;
      && s in w.registry.records && w.registry.records[s].id in w.registry.entries
      && w.registry.entries[w.registry.records[s].id] == Entry(s, SessionState.Open)
  {
    ReachableInv(w);
    assert Owned(w, w.tasks[t].session);
    assert RegisteredOpen(w, w.tasks[t].session);
  }

  /** However stale its scan, a sweep takes a waiting session only when no claim at the scan's time could have it. */
  lemma SweepNeverTakesAnOpenSession(w: World, j: nat, id: string, s: nat)
    requires Reachable(w) && CanSweep(w, j, id) && Registered(w, s)
    requires !Registered(AfterSweepRemove(w, j, id), s)
    ensures w.registry.records[s].id == id && id in w.registry.entries
    ensures w.registry.entries[id].state.Resumable? && !w.registry.CanResume(id, w.sweeps[j].now)
    ensures forall t | Live(w, t) :: w.tasks[t].session != s
  {
    ReachableInv(w);
    assert RegisteredOpen(w, s) <==> Owned(w, s);
  }

  /**
    Exact replay: whoever claims a session gets Ready first, and the events written so far with
    those now queued are every event the session ever accepted, in order, each once.
   */
  lemma ClaimReplaysExactly(w: World, id: string, now: Instant)
    requires Reachable(w) && w.registry.WellFormed() && w.registry.Claim(id, now).1.Some?
    ensures
      var s := w.registry.Claim(id, now).1.value;
      var queue := w.registry.Claim(id, now).0.records[s].sink.essential;
      && s in w.history
      && queue != [] && queue[0] == Ready(true, id)
      && Events(w.history[s].written) + Events(queue) == w.history[s].accepted
  {
    ReachableInv(w);
    var s := w.registry.Claim(id, now).1.value;
    ClaimIsTheSessionsOwn(w, id, now);
    ClaimedReplaysExactly(LifeOf(w, s), now);
  }

  lemma ClaimIsTheSessionsOwn(w: World, id: string, now: Instant)
    requires Inv(w) && w.registry.Claim(id, now).1.Some?
    ensures
      var s := w.registry.Claim(id, now).1.value;
      && Known(w, s) && w.registry.records[s].id == id
      && SessionLife.Inv(LifeOf(w, s)) && CanClaim(LifeOf(w, s), now)
      && w.registry.Claim(id, now).0.records[s] == Do(LifeOf(w, s), Claimed(now)).record
  {
  }

  /**
    While a connection lasts, a leaving one included, nothing accepted is missing, doubled or out of
    order, unless the restore of its failed write was refused; a resumed one hears Ready first.
   */
  lemma LiveHistoryIsExact(w: World, t: nat)
    requires Reachable(w) && Live(w, t)
    ensures
      var c := w.tasks[t].connection;
      var s := w.tasks[t].session;
      && Known(w, s)
      && (!w.history[s].lost ==>
            Events(w.history[s].written) + Events(Hand(Connected(c))) + Events(w.registry.records[s].sink.essential)
            == w.history[s].accepted)
      && (w.history[s].lost ==> c.pc == Leaving && w.registry.records[s].sink.IsOverflowing())
      && (c.resumed && c.received != [] ==> c.received[0] == Ready(true, w.registry.records[s].id))
  {
    ReachableInv(w);
    assert Owned(w, w.tasks[t].session);
    assert SessionLife.Inv(LifeOf(w, w.tasks[t].session));
  }

  lemma {:induction false} DoomedForever(w: World, steps: seq<Step>, s: nat)
    requires Inv(w) && ValidRun(w, steps) && s in w.registry.records && Doomed(LifeOf(w, s))
    ensures Inv(Run(w, steps)) && s in Run(w, steps).registry.records && Doomed(LifeOf(Run(w, steps), s))
    decreases |steps|
  {
    if steps != [] {
      StepKeepsInv(w, steps[0]);
      StepFollows(w, steps[0], s);
      var a := ActionOn(w, steps[0], s);
      if a.Some? {
        DoomedStays(LifeOf(w, s), a.value);
      }
      DoomedForever(Next(w, steps[0]), steps[1..], s);
    }
  }

  /** The step of the world that makes a session do one of its own actions. */
  lemma Lift(w: World, s: nat, a: Action) returns (step: Step)
    requires Inv(w) && s in w.registry.records && Can(LifeOf(w, s), a) && Ordinary(a)
    ensures Enabled(w, step) && ActionOn(w, step, s) == Some(a)
  {
    match a
    case Driven(p) => step := TaskStep(w.owner[s], p);
    case Produced(m) => step := Send(s, m);
    case Configured(resuming, secs) => step := Configure(s, resuming, secs);
    case Claimed(now) => step := Claim(w.registry.records[s].id, now);
    case Disconnected(now) => step := Disconnect(w.owner[s], now);
  }

  lemma {:induction false} LiftAll(w: World, s: nat, actions: seq<Action>) returns (steps: seq<Step>)
    requires Inv(w) && s in w.registry.records
    requires ValidActions(LifeOf(w, s), actions) && forall a | a in actions :: Ordinary(a)
    ensures ValidRun(w, steps) && Inv(Run(w, steps)) && s in Run(w, steps).registry.records
    ensures LifeOf(Run(w, steps), s) == DoAll(LifeOf(w, s), actions)
    decreases |actions|
  {
    if actions == [] {
      steps := [];
    } else {
      var step := Lift(w, s, actions[0]);
      StepKeepsInv(w, step);
      StepFollows(w, step, s);
      var rest := LiftAll(Next(w, step), s, actions[1..]);
      steps := [step] + rest;
      assert steps[1..] == rest;
    }
  }

  /** Somebody claims this session in some later state. */
  ghost predicate ClaimedLater(w: World, s: nat) {
    exists steps, id, now :: ClaimedAfter(w, s, steps, id, now)
  }

  ghost predicate ClaimedAfter(w: World, s: nat, steps: seq<Step>, id: string, now: Instant) {
    ValidRun(w, steps) && Run(w, steps).registry.WellFormed() && Run(w, steps).registry.Claim(id, now).1 == Some(s)
  }

  lemma DoomedCannotBeClaimed(w: World, s: nat, id: string, now: Instant)
    requires Inv(w) && s in w.registry.records && Doomed(LifeOf(w, s))
    ensures w.registry.Claim(id, now).1 != Some(s)
  {
  }

  lemma DoomedIsNotClaimedLater(w: World, s: nat)
    requires Inv(w) && s in w.registry.records && Doomed(LifeOf(w, s))
    ensures !ClaimedLater(w, s)
  {
    forall steps, id, now | ValidRun(w, steps) ensures !ClaimedAfter(w, s, steps, id, now) {
      DoomedForever(w, steps, s);
      DoomedCannotBeClaimed(Run(w, steps), s, id, now);
    }
  }

  lemma GraceIsClaimedLater(w: World, s: nat)
    requires Inv(w) && s in w.registry.records
    requires InGrace(LifeOf(w, s)) && w.registry.records[s].sink.IsOverflowing()
    ensures ClaimedLater(w, s)
  {
    var actions := GraceEndsInAClaim(LifeOf(w, s));
    var steps := LiftAll(w, s, actions);
    CanClaimMeansClaim(Run(w, steps), s, 0);
    assert ClaimedAfter(w, s, steps, Run(w, steps).registry.records[s].id, 0);
  }

  lemma CanClaimMeansClaim(w: World, s: nat, now: Instant)
    requires Inv(w) && s in w.registry.records && CanClaim(LifeOf(w, s), now)
    ensures w.registry.Claim(w.registry.records[s].id, now).1 == Some(s)
  {
    assert SessionLife.Inv(LifeOf(w, s));
  }

  /**
    When a gap can go unnoticed. A session whose queue is full refuses the next event. That event
    can be missing from a later resume exactly when the refusal falls in the pump's grace period:
    before the pump computes `overflow_armed`, or in the select while it is false.
   */
  lemma SilentGapIffInGrace(w: World, s: nat)
    requires Reachable(w) && s in w.registry.records && w.registry.records[s].sink.IsOverflowing()
    ensures Known(w, s) && (RegisteredOpen(w, s) ==> Owned(w, s))
    ensures ClaimedLater(w, s) <==> InGrace(LifeOf(w, s))
  {
    ReachableInv(w);
    assert SessionLife.Inv(LifeOf(w, s));
    FullQueueDoomsOutsideGrace(LifeOf(w, s));
    if InGrace(LifeOf(w, s)) {
      GraceIsClaimedLater(w, s);
    } else {
      DoomedIsNotClaimedLater(w, s);
    }
  }

  /** A failed write whose event no longer fits back into the queue is never papered over by a resume. */
  lemma RefusedRestoreIsNeverResumed(w: World, t: nat)
    requires Reachable(w) && Enabled(w, TaskStep(t, WriteFailed))
    requires !RestoreUndelivered(w.registry.records[w.tasks[t].session].sink, w.tasks[t].connection.pc.message).1
    ensures !ClaimedLater(Next(w, TaskStep(t, WriteFailed)), w.tasks[t].session)
  {
    hide SessionLife.Inv, Reachable, ClaimedLater, Next, Doomed;
    ReachableInv(w);
    RefusalDoomsItsOwner(w, t);
    DoomingStepIsFinal(w, TaskStep(t, WriteFailed), w.tasks[t].session, Driven(WriteFailed));
  }

  lemma RefusalDoomsItsOwner(w: World, t: nat)
    requires Inv(w) && Enabled(w, TaskStep(t, WriteFailed))
    requires !RestoreUndelivered(w.registry.records[w.tasks[t].session].sink, w.tasks[t].connection.pc.message).1
    ensures
      var s := w.tasks[t].session;
      && s in w.registry.records && ActionOn(w, TaskStep(t, WriteFailed), s) == Some(Driven(WriteFailed))
      && Can(LifeOf(w, s), Driven(WriteFailed)) && Doomed(Do(LifeOf(w, s), Driven(WriteFailed)))
  {
    hide SessionLife.Inv, Doomed;
    var s := w.tasks[t].session;
    assert Owned(w, s) && w.owner[s] == t;
    RefusedRestoreDooms(LifeOf(w, s));
  }

  lemma DoomingStepIsFinal(w: World, step: Step, s: nat, a: Action)
    requires Inv(w) && s in w.registry.records && Enabled(w, step) && ActionOn(w, step, s) == Some(a)
    requires Can(LifeOf(w, s), a) && Doomed(Do(LifeOf(w, s), a))
    ensures !ClaimedLater(Next(w, step), s)
  {
    StepKeepsInv(w, step);
    StepFollows(w, step, s);
    DoomedIsNotClaimedLater(Next(w, step), s);
  }

  /** The gap is real: any new session can come to a full queue inside the grace period of a resume. */
  lemma NewSessionCanReachTheGap(w: World, id: string, s: nat) returns (steps: seq<Step>)
    requires Inv(w) && CanOpen(w, id, s)
    ensures ValidRun(w, steps) && Inv(Run(w, steps)) && s in Run(w, steps).registry.records
    ensures
      var l := LifeOf(Run(w, steps), s);
      && l.record.sink.IsOverflowing()
      && l.stage == Connected(RESUMED_CONNECTION.(pc := Idle(false)))
      && ClaimedLater(Run(w, steps), s)
  {
    var first := Step.Open(id, s);
    var begun := Next(w, first);
    StepKeepsInv(w, first);
    OnlyOpenCreates(w, first, s);
    var actions := GraceMeetsAFullQueue(id);
    var rest := LiftAll(begun, s, actions);
    GraceIsClaimedLater(Run(begun, rest), s);
    steps := [first] + rest;
    assert steps[1..] == rest;
  }

  lemma SilentGapIsReachable() returns (w: World)
    ensures Reachable(w) && Inv(w) && 0 in w.registry.records
    ensures LifeOf(w, 0).record.sink.IsOverflowing() && InGrace(LifeOf(w, 0)) && ClaimedLater(w, 0)
  {
    var steps := NewSessionCanReachTheGap(START, "", 0);
    w := Run(START, steps);
  }
}
