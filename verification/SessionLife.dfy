/**
  One session, seen alone: its sink, where its lifecycle stands, and the one connection task
  that drives it while it is open (`ws.rs` `run` and `pump`). Each action is one lock-held
  section or one await. `Connections` shows that the registry with all its tasks and sweeps
  behaves, for every session, like this machine.
 */
module SessionLife {
  import opened Sinks
  import opened Sessions

  const OVERFLOW_THRESHOLD: nat := 2048

  /** Where a connection task stands; `armed` is the pump's `overflow_armed`. */
  datatype Pc =
    | Opened                                 // session created, its Ready not queued yet
    | Starting                               // `pump` entered, `overflow_armed` not computed yet
    | Idle(armed: bool)                      // in the select
    | InHand(armed: bool, message: Message)  // received, being written
    | Checking(armed: bool)                  // a select arm is done; the overflow check is next
    | Closing                                // the check asked for a close; `destroy` is next
    | Leaving                                // the pump has ended; `on_disconnect` is next
    | Ended

  datatype Connection = Connection(pc: Pc, resumed: bool, received: seq<Message>)

  const NEW_CONNECTION := Connection(Opened, false, [])
  const RESUMED_CONNECTION := Connection(Starting, true, [])

  /** What an observer remembers: events accepted, essentials written, the essential being written. */
  datatype History = History(accepted: seq<Message>, written: seq<Message>, hand: seq<Message>, lost: bool)

  const NO_HISTORY := History([], [], [], false)

  datatype Stage = Connected(connection: Connection) | Detached(deadline: Instant) | Gone

  datatype Life = Life(record: SessionRecord, stage: Stage, history: History)

  function NewLife(id: string): Life {
    Life(NewRecord(id), Connected(NEW_CONNECTION), NO_HISTORY)
  }

  /** `overflow_closes`: whether to close, and the flag afterwards. */
  function OverflowCloses(armed: bool, pending: nat): (bool, bool) {
    if pending >= ESSENTIAL_CAPACITY then (true, armed)
    else if pending >= OVERFLOW_THRESHOLD then (armed, armed)
    else (false, true)
  }

  /** `restore_undelivered`: the sink afterwards, and whether the message was kept or needed no keeping. */
  function RestoreUndelivered(sink: SinkState, m: Message): (SinkState, bool) {
    if !Essential(m) then (sink, true)
    else var (restored, outcome) := sink.SendFirst(m); (restored, outcome == Sent)
  }

  // What a connection task does with the session it holds.

  datatype Drive = Drive(record: SessionRecord, connection: Connection, history: History)

  datatype PumpAction =
    | SendReady
    | StartPump
    | Incoming
    | PeerGone
    | Receive
    | WriteOk
    | WriteFailed
    | CheckOverflow

  ghost predicate CanPump(d: Drive, a: PumpAction) {
    match a
    case SendReady => d.connection.pc == Opened
    case StartPump => d.connection.pc == Starting
    case Incoming => d.connection.pc.Idle?
    case PeerGone => d.connection.pc.Idle?
    case Receive => d.connection.pc.Idle? && (d.record.sink.TryRecv().1.Some? || d.record.sink.closed)
    case WriteOk => d.connection.pc.InHand?
    case WriteFailed => d.connection.pc.InHand?
    case CheckOverflow => d.connection.pc.Checking?
  }

  ghost function Pump(d: Drive, a: PumpAction): Drive
    requires CanPump(d, a)
  {
    var pc := d.connection.pc;
    var sink := d.record.sink;
    match a
    case SendReady => Goto(d, Starting).(record := d.record.(sink := sink.SendFirst(Ready(false, d.record.id)).0))
    case StartPump => Goto(d, Idle(|sink.essential| < OVERFLOW_THRESHOLD))
    case Incoming => Goto(d, Checking(pc.armed))
    case PeerGone => Goto(d, Leaving)
    case Receive =>
      var (rest, taken) := sink.TryRecv();
      if taken.None? then Goto(d, Leaving)
      else
        var m := taken.value;
        Drive(d.record.(sink := rest),
              d.connection.(pc := InHand(pc.armed, m), received := d.connection.received + [m]),
              d.history.(hand := if Essential(m) then [m] else []))
    case WriteOk =>
      Goto(d, Checking(pc.armed)).(history := d.history.(written := d.history.written + d.history.hand, hand := []))
    case WriteFailed =>
      var (restored, kept) := RestoreUndelivered(sink, pc.message);
      Drive(d.record.(sink := restored), d.connection.(pc := Leaving),
            d.history.(hand := [], lost := d.history.lost || !kept))
    case CheckOverflow =>
      var (closes, armed) := OverflowCloses(pc.armed, |sink.essential|);
      Goto(d, if closes then Closing else Idle(armed))
  }

  function Goto(d: Drive, pc: Pc): Drive {
    d.(connection := d.connection.(pc := pc))
  }

  // What others do to the session.

  datatype Action =
    | Driven(a: PumpAction)
    | Produced(m: Message)                          // a `send` by anyone holding the session
    | Configured(resuming: bool, secs: int)
    | Claimed(now: Instant)
    | Disconnected(now: Instant)
    | Destroyed
    | Swept(now: Instant)
    | SinkClosed                                    // the end of a shutdown

  ghost predicate Can(l: Life, a: Action) {
    match a
    case Driven(p) => l.stage.Connected? && CanPump(Drive(l.record, l.stage.connection, l.history), p)
    case Produced(m) => !m.Ready?
    case Configured(_, _) => true
    case Claimed(now) => CanClaim(l, now)
    case Disconnected(_) => l.stage.Connected? && l.stage.connection.pc == Leaving
    case Destroyed => l.stage.Connected? && l.stage.connection.pc == Closing
    case Swept(now) => l.stage.Detached? && !CanClaim(l, now)
    case SinkClosed => l.stage.Gone?
  }

  predicate CanClaim(l: Life, now: Instant) {
    l.stage.Detached? && l.stage.deadline > now && !l.record.sink.IsOverflowing()
  }

  ghost function Do(l: Life, a: Action): Life
    requires Can(l, a)
  {
    match a
    case Driven(p) =>
      var d := Pump(Drive(l.record, l.stage.connection, l.history), p);
      Life(d.record, Connected(d.connection), d.history)
    case Produced(m) => Produce(l, m)
    case Configured(resuming, secs) => l.(record := l.record.(resuming := resuming, resumeTimeoutSecs := secs))
    case Claimed(_) =>
      Life(l.record.(sink := l.record.sink.ResumeWithFirst(Ready(true, l.record.id)).0),
           Connected(RESUMED_CONNECTION), l.history)
    case Disconnected(now) =>
      if l.record.resuming
      then Life(l.record.(sink := l.record.sink.Pause()),
           Detached(Deadline(now, l.record.resumeTimeoutSecs)), l.history)
      else l.(stage := Gone)
    case Destroyed => l.(stage := Gone)
    case Swept(_) => l.(stage := Gone)
    case SinkClosed => l.(record := l.record.(sink := l.record.sink.Close()), history := l.history.(lost := true))
  }

  function Produce(l: Life, m: Message): Life {
    var (sink, outcome) := l.record.sink.Send(m);
    l.(record := l.record.(sink := sink),
       history := if Essential(m) && outcome == Sent then l.history.(accepted := l.history.accepted + [m])
                  else l.history)
  }

  // What holds of a session at every moment.

  function Events(ms: seq<Message>): seq<Message> {
    if ms == [] then [] else if ms[0].Ready? then Events(ms[1..]) else [ms[0]] + Events(ms[1..])
  }

  lemma {:induction false} EventsConcat(a: seq<Message>, b: seq<Message>)
    ensures Events(a + b) == Events(a) + Events(b)
  {
    if a == [] {
      assert a + b == b;
    } else {
      EventsConcat(a[1..], b);
      assert (a + b)[0] == a[0] && (a + b)[1..] == a[1..] + b;
    }
  }

  lemma EventsOfOneMore(m: Message, ms: seq<Message>)
    ensures Events([m] + ms) == (if m.Ready? then [] else [m]) + Events(ms)
    ensures Events([m]) == if m.Ready? then [] else [m]
  {
    assert ([m] + ms)[0] == m && ([m] + ms)[1..] == ms;
    assert [m][1..] == [];
  }

  /** The events accepted are those written, then the one in hand, then the queue, in that order, each once. */
  predicate Exact(l: Life) {
    Events(l.history.written) + Events(l.history.hand) + Events(l.record.sink.essential) == l.history.accepted
  }

  function Hand(stage: Stage): seq<Message> {
    if stage.Connected? && stage.connection.pc.InHand? && Essential(stage.connection.pc.message)
    then [stage.connection.pc.message] else []
  }

  /** A resumed connection has received its Ready first, or finds it at the head of the queue. */
  predicate Greeted(l: Life, c: Connection) {
    var ready := Ready(true, l.record.id);
    && c.pc != Opened
    && (if c.received != [] then c.received[0] == ready
        else !c.pc.InHand? && l.record.sink.essential != [] && l.record.sink.essential[0] == ready)
  }

  ghost predicate Inv(l: Life) {
    var sink := l.record.sink;
    && sink.WellFormed()
    && (!l.stage.Gone? ==> !sink.closed && (sink.paused <==> l.stage.Detached?) && l.history.hand == Hand(l.stage))
    && (!l.history.lost ==> Exact(l))
    && (l.stage.Connected? && l.stage.connection.resumed ==> Greeted(l, l.stage.connection))
    && (l.stage.Connected? ==> l.stage.connection.pc != Ended)
    && (l.history.lost ==> Doomed(l) && (l.stage.Connected? ==> l.stage.connection.pc == Leaving))
  }

  // When a full queue can no longer be replayed to anyone.

  /**
    No claim of this session can ever succeed again: it is gone, it waits with a full queue, or
    its pump cannot get back to its select without closing it or leaving it with a full queue.
   */
  predicate Doomed(l: Life) {
    var n := |l.record.sink.essential|;
    match l.stage
    case Gone => true
    case Detached(_) => n >= ESSENTIAL_CAPACITY
    case Connected(c) =>
      match c.pc
      case Opened => false
      case Starting => false
      case Idle(armed) => armed && n >= ESSENTIAL_CAPACITY
      case InHand(armed, m) => n >= if armed && Essential(m) then ESSENTIAL_CAPACITY - 1 else ESSENTIAL_CAPACITY
      case Checking(armed) => n >= if armed then OVERFLOW_THRESHOLD else ESSENTIAL_CAPACITY
      case Closing => true
      case Leaving => n >= ESSENTIAL_CAPACITY
      case Ended => true
  }

  /** The grace the pump gives a resumed backlog: from registration until enforcement arms. */
  predicate InGrace(l: Life) {
    l.stage.Connected? && l.stage.connection.pc in {Opened, Starting, Idle(false)}
  }

  lemma NewLifeInv(id: string)
    ensures Inv(NewLife(id))
  {
  }

  lemma ReceiveKeepsInv(l: Life)
    requires Inv(l) && Can(l, Driven(Receive))
    ensures Inv(Do(l, Driven(Receive)))
  {
    var sink := l.record.sink;
    var (rest, taken) := sink.TryRecv();
    ReceiveTakesOldestEssential(sink);
    var after := Do(l, Driven(Receive));
    if taken.Some? && Essential(taken.value) {
      EventsOfOneMore(taken.value, rest.essential);
      assert Exact(l) ==> Exact(after);
    }
    assert taken.Some? && l.stage.connection.resumed ==> Greeted(after, after.stage.connection);
  }

  lemma WriteFailedKeepsInv(l: Life)
    requires Inv(l) && Can(l, Driven(WriteFailed))
    ensures Inv(Do(l, Driven(WriteFailed)))
  {
    SectionsKeepWellFormed(l.record.sink, l.stage.connection.pc.message);
    assert !l.history.lost;
    EventsOfOneMore(l.stage.connection.pc.message, l.record.sink.essential);
  }

  lemma PumpKeepsInv(l: Life, a: PumpAction)
    requires Inv(l) && Can(l, Driven(a))
    ensures Inv(Do(l, Driven(a)))
  {
    match a
    case SendReady => SectionsKeepWellFormed(l.record.sink, Ready(false, l.record.id));
    case Receive => ReceiveKeepsInv(l);
    case WriteOk => EventsConcat(l.history.written, l.history.hand);
    case WriteFailed => WriteFailedKeepsInv(l);
    case _ =>
  }

  lemma ProducedKeepsInv(l: Life, m: Message)
    requires Inv(l) && Can(l, Produced(m))
    ensures Inv(Do(l, Produced(m)))
  {
    if l.history.lost { DoomedStays(l, Produced(m)); }
    SectionsKeepWellFormed(l.record.sink, m);
    EventsConcat(l.record.sink.essential, [m]);
    EventsOfOneMore(m, []);
  }

  lemma DoomedStays(l: Life, a: Action)
    requires Inv(l) && Can(l, a) && Doomed(l)
    ensures Doomed(Do(l, a))
  {
    if a == Driven(Receive) {
      ReceiveTakesOldestEssential(l.record.sink);
    }
  }

  lemma ActionKeepsInv(l: Life, a: Action)
    requires Inv(l) && Can(l, a)
    ensures Inv(Do(l, a))
  {
    if l.history.lost { DoomedStays(l, a); }
    match a
    case Driven(p) => PumpKeepsInv(l, p);
    case Produced(m) => ProducedKeepsInv(l, m);
    case Claimed(_) => SectionsKeepWellFormed(l.record.sink, Ready(true, l.record.id));
    case _ =>
  }

  ghost predicate ValidActions(l: Life, actions: seq<Action>)
    decreases |actions|
  {
    actions == [] || (Can(l, actions[0]) && ValidActions(Do(l, actions[0]), actions[1..]))
  }

  ghost function DoAll(l: Life, actions: seq<Action>): Life
    requires ValidActions(l, actions)
    decreases |actions|
  {
    if actions == [] then l else DoAll(Do(l, actions[0]), actions[1..])
  }

  lemma {:induction false} DoAllConcat(l: Life, a: seq<Action>, b: seq<Action>)
    requires ValidActions(l, a) && ValidActions(DoAll(l, a), b)
    ensures ValidActions(l, a + b) && DoAll(l, a + b) == DoAll(DoAll(l, a), b)
    decreases |a|
  {
    if a == [] {
      assert a + b == b;
    } else {
      DoAllConcat(Do(l, a[0]), a[1..], b);
      assert (a + b)[1..] == a[1..] + b;
    }
  }

  lemma {:induction false} DoomedIsNeverClaimed(l: Life, actions: seq<Action>, now: Instant)
    requires Inv(l) && Doomed(l) && ValidActions(l, actions)
    ensures !CanClaim(DoAll(l, actions), now)
    decreases |actions|
  {
    if actions != [] {
      DoomedStays(l, actions[0]);
      ActionKeepsInv(l, actions[0]);
      DoomedIsNeverClaimed(Do(l, actions[0]), actions[1..], now);
    }
  }

  /** A full queue outside the grace period dooms the session, whatever its task is doing. */
  lemma FullQueueDoomsOutsideGrace(l: Life)
    requires Inv(l) && l.record.sink.IsOverflowing()
    ensures Doomed(l) <==> !InGrace(l)
  {
  }

  /** So does a failed write whose message no longer fits back. */
  lemma RefusedRestoreDooms(l: Life)
    requires Inv(l) && Can(l, Driven(WriteFailed))
    requires !RestoreUndelivered(l.record.sink, l.stage.connection.pc.message).1
    ensures Doomed(Do(l, Driven(WriteFailed)))
  {
  }

  lemma ThenAll(l: Life, a: Action, rest: seq<Action>)
    requires Can(l, a) && ValidActions(Do(l, a), rest)
    ensures ValidActions(l, [a] + rest) && DoAll(l, [a] + rest) == DoAll(Do(l, a), rest)
  {
    assert ([a] + rest)[1..] == rest;
  }

  /** All but the ends of a session. */
  predicate Ordinary(a: Action) {
    !a.Destroyed? && !a.Swept? && !a.SinkClosed?
  }

  /** The client turns resuming on, leaves, and its pump's disconnect follows. */
  lemma LeaveResumable(l: Life) returns (actions: seq<Action>)
    requires l.stage.Connected? && l.stage.connection.pc.Idle?
    ensures ValidActions(l, actions) && forall a | a in actions :: Ordinary(a)
    ensures DoAll(l, actions) == Life(
      SessionRecord(l.record.id, l.record.sink.Pause(), true, DEFAULT_RESUME_TIMEOUT_SECS),
      Detached(Deadline(0, DEFAULT_RESUME_TIMEOUT_SECS)), l.history)
  {
    var l1 := Do(l, Configured(true, DEFAULT_RESUME_TIMEOUT_SECS));
    var l2 := Do(l1, Driven(PeerGone));
    ThenAll(l2, Disconnected(0), []);
    ThenAll(l1, Driven(PeerGone), [Disconnected(0)]);
    ThenAll(l, Configured(true, DEFAULT_RESUME_TIMEOUT_SECS), [Driven(PeerGone)] + [Disconnected(0)]);
    actions := [Configured(true, DEFAULT_RESUME_TIMEOUT_SECS)] + ([Driven(PeerGone)] + [Disconnected(0)]);
  }

  /** In the grace period a full queue goes on draining, and the client that leaves later can resume. */
  lemma GraceEndsInAClaim(l: Life) returns (actions: seq<Action>)
    requires Inv(l) && InGrace(l) && l.record.sink.IsOverflowing()
    ensures ValidActions(l, actions) && forall a | a in actions :: Ordinary(a)
    ensures CanClaim(DoAll(l, actions), 0)
    decreases match l.stage.connection.pc case Opened => 2 case Starting => 1 case _ => 0
  {
    if l.stage.connection.pc == Opened {
      var rest := GraceEndsInAClaim(Do(l, Driven(SendReady)));
      ThenAll(l, Driven(SendReady), rest);
      actions := [Driven(SendReady)] + rest;
    } else if l.stage.connection.pc == Starting {
      ActionKeepsInv(l, Driven(StartPump));
      var rest := GraceEndsInAClaim(Do(l, Driven(StartPump)));
      ThenAll(l, Driven(StartPump), rest);
      actions := [Driven(StartPump)] + rest;
    } else {
      ReceiveTakesOldestEssential(l.record.sink);
      var l1 := Do(l, Driven(Receive));
      var l2 := Do(l1, Driven(WriteOk));
      var l3 := Do(l2, Driven(CheckOverflow));
      var rest := LeaveResumable(l3);
      ThenAll(l2, Driven(CheckOverflow), rest);
      ThenAll(l1, Driven(WriteOk), [Driven(CheckOverflow)] + rest);
      ThenAll(l, Driven(Receive), [Driven(WriteOk)] + ([Driven(CheckOverflow)] + rest));
      actions := [Driven(Receive)] + ([Driven(WriteOk)] + ([Driven(CheckOverflow)] + rest));
    }
  }

  /** A claim succeeds only with everything accepted written or queued, and puts Ready at the head. */
  lemma ClaimedReplaysExactly(l: Life, now: Instant)
    requires Inv(l) && CanClaim(l, now)
    ensures
      var queue := Do(l, Claimed(now)).record.sink.essential;
      && queue != [] && queue[0] == Ready(true, l.record.id)
      && Events(l.history.written) + Events(queue) == l.history.accepted
  {
    EventsOfOneMore(Ready(true, l.record.id), l.record.sink.essential);
    assert Events(l.history.written) + [] == Events(l.history.written);
  }

  lemma {:induction false} ProduceMany(l: Life, n: nat) returns (actions: seq<Action>)
    requires !l.record.sink.closed && |l.record.sink.essential| + n <= ESSENTIAL_CAPACITY
    ensures ValidActions(l, actions) && forall a | a in actions :: Ordinary(a)
    ensures
      var after := DoAll(l, actions);
      && |after.record.sink.essential| == |l.record.sink.essential| + n
      && after.record.sink == l.record.sink.(essential := after.record.sink.essential)
      && after.stage == l.stage
    decreases n
  {
    if n == 0 {
      actions := [];
    } else {
      var produced := Produced(Event("", n));
      var rest := ProduceMany(Do(l, produced), n - 1);
      ThenAll(l, produced, rest);
      actions := [produced] + rest;
    }
  }

  /** The grace period is met with a full queue: a client resumes onto a backlog of 4095. */
  lemma GraceMeetsAFullQueue(id: string) returns (actions: seq<Action>)
    ensures ValidActions(NewLife(id), actions) && forall a | a in actions :: Ordinary(a)
    ensures
      var l := DoAll(NewLife(id), actions);
      l.record.sink.IsOverflowing() && !l.record.sink.closed
      && l.stage == Connected(RESUMED_CONNECTION.(pc := Idle(false)))
  {
    var l1 := Do(NewLife(id), Driven(SendReady));
    var l2 := Do(l1, Driven(StartPump));
    var leave := LeaveResumable(l2);
    var l3 := DoAll(l2, leave);
    var fill := ProduceMany(l3, ESSENTIAL_CAPACITY - 2);
    var l4 := DoAll(l3, fill);
    var l5 := Do(l4, Claimed(0));
    ThenAll(l4, Claimed(0), [Driven(StartPump)]);
    ThenAll(l5, Driven(StartPump), []);
    assert [Claimed(0)] + [Driven(StartPump)] == [Claimed(0), Driven(StartPump)];
    DoAllConcat(l3, fill, [Claimed(0), Driven(StartPump)]);
    DoAllConcat(l2, leave, fill + [Claimed(0), Driven(StartPump)]);
    ThenAll(l1, Driven(StartPump), leave + (fill + [Claimed(0), Driven(StartPump)]));
    actions := [Driven(StartPump)] + (leave + (fill + [Claimed(0), Driven(StartPump)]));
    ThenAll(NewLife(id), Driven(SendReady), actions);
    actions := [Driven(SendReady)] + actions;
  }
}
