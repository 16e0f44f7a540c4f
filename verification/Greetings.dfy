/** What a connection hears first (`ws.rs`, `run` and `pump`), over the runs of one session. */
module Greetings {
  import opened Sinks
  import opened Sessions
  import opened SessionLife

  /** The connection has heard `first` before anything else, or finds it at the head of the queue. */
  predicate HearsFirst(l: Life, first: Message) {
    l.stage.Connected? ==>
      var c := l.stage.connection;
      && c.pc != Opened
      && (if c.received != [] then c.received[0] == first
          else !c.pc.InHand? && l.record.sink.essential != [] && l.record.sink.essential[0] == first)
  }

  lemma StepHearsFirst(l: Life, a: Action, first: Message)
    requires Inv(l) && Can(l, a) && !a.Claimed? && HearsFirst(l, first)
    ensures HearsFirst(Do(l, a), first)
  {
    if a == Driven(Receive) {
      ReceiveTakesOldestEssential(l.record.sink);
      if l.record.sink.essential != [] {
        assert Essential(l.record.sink.essential[0]);
      }
    }
  }

  lemma {:induction false} RunHearsFirst(l: Life, actions: seq<Action>, first: Message)
    requires Inv(l) && ValidActions(l, actions) && (forall a | a in actions :: !a.Claimed?) && HearsFirst(l, first)
    ensures HearsFirst(DoAll(l, actions), first)
    decreases |actions|
  {
    if actions != [] {
      StepHearsFirst(l, actions[0], first);
      ActionKeepsInv(l, actions[0]);
      RunHearsFirst(Do(l, actions[0]), actions[1..], first);
    }
  }

  /**
    A new connection hears that its session is new before any event, snapshot or what else comes,
    unless its queue was filled before the greeting went in: then there is none, and it hears the
    oldest event first.
   */
  lemma NewConnectionsHearReadyFirst(l: Life, actions: seq<Action>)
    requires Inv(l) && l.stage.Connected? && l.stage.connection.pc == Opened && l.stage.connection.received == []
    requires actions != [] && actions[0] == Driven(SendReady) && ValidActions(l, actions)
    requires forall a | a in actions :: !a.Claimed?
    ensures
      var last, queue := DoAll(l, actions), l.record.sink.essential;
      last.stage.Connected? && last.stage.connection.received != [] ==>
        last.stage.connection.received[0]
          == if |queue| < ESSENTIAL_CAPACITY then Ready(false, l.record.id) else queue[0]
  {
    var queue := l.record.sink.essential;
    var first := if |queue| < ESSENTIAL_CAPACITY then Ready(false, l.record.id) else queue[0];
    ActionKeepsInv(l, actions[0]);
    assert HearsFirst(Do(l, actions[0]), first);
    RunHearsFirst(Do(l, actions[0]), actions[1..], first);
  }

  /** So does a resumed one, of the session it has taken over. */
  lemma ResumedConnectionsHearReadyFirst(l: Life, now: Instant, actions: seq<Action>)
    requires Inv(l) && Can(l, Claimed(now)) && ValidActions(Do(l, Claimed(now)), actions)
    requires forall a | a in actions :: !a.Claimed?
    ensures
      var last := DoAll(Do(l, Claimed(now)), actions);
      last.stage.Connected? && last.stage.connection.received != [] ==>
        last.stage.connection.received[0] == Ready(true, l.record.id)
  {
    ActionKeepsInv(l, Claimed(now));
    RunHearsFirst(Do(l, Claimed(now)), actions, Ready(true, l.record.id));
  }

  /** A pump whose sink was closed under it ends without destroying anything. */
  lemma ClosedSinkEndsThePump(d: Drive)
    requires d.connection.pc.Idle? && d.record.sink.closed
    ensures CanPump(d, Receive) && Pump(d, Receive) == Goto(d, Leaving)
  {
  }
}
