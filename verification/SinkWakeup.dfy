/**
  `Sink::recv` against its notifiers (`sink.rs`), with a one-permit `Notify`. A sender, resumer
  or closer changes the sink under its lock and notifies afterwards, so the two are separate
  steps; the receiver's poll of the queue, its look at `closed` and its await are separate too.
 */
module SinkWakeup {
  import opened Sinks

  datatype Receiver =
    | Absent                  // no `recv` in progress
    | Trying                  // about to call `try_recv`
    | SawEmpty                // `try_recv` gave nothing; about to look at `closed`
    | SawOpen                 // not closed; about to await the notification
    | Parked                  // registered with the Notify
    | Woken(byPermit: bool)   // notified, not polled yet; by `notify_one` or by `notify_waiters`

  datatype World = World(
    sink: SinkState,
    permit: bool,
    receiver: Receiver,
    notifying: nat,   // callers between their state change and their `notify_one`
    closers: nat)     // callers of `close` before their `notify_waiters`

  const START := World(EMPTY_SINK, false, Absent, 0, 0)

  datatype Step =
    | Send(m: Message)
    | SendFirst(m: Message)
    | ResumeWithFirst(m: Message)
    | Resume
    | Pause
    | Close
    | NotifyWaiters
    | NotifyOne
    | StartRecv
    | TryRecv
    | CheckClosed
    | Await
    | Wake
    | DropRecv

  predicate Enabled(w: World, step: Step) {
    match step
    case NotifyWaiters => w.closers > 0
    case NotifyOne => w.notifying > 0
    case StartRecv => w.receiver == Absent
    case TryRecv => w.receiver == Trying
    case CheckClosed => w.receiver == SawEmpty
    case Await => w.receiver == SawOpen
    case Wake => w.receiver.Woken?
    case DropRecv => w.receiver != Absent
    case _ => true
  }

  function Changed(w: World, sink: SinkState, notifies: bool): World {
    w.(sink := sink, notifying := w.notifying + if notifies then 1 else 0)
  }

  ghost function Next(w: World, step: Step): World
    requires Enabled(w, step)
  {
    match step
    case Send(m) =>
      var (sink, outcome) := w.sink.Send(m);
      // A snapshot handed to a paused sink is dropped before the notification.
      Changed(w, sink, outcome == Sent && !(w.sink.paused && !Essential(m)))
    case SendFirst(m) =>
      var (sink, outcome) := w.sink.SendFirst(m);
      Changed(w, sink, outcome == Sent)
    case ResumeWithFirst(m) =>
      var (sink, outcome) := w.sink.ResumeWithFirst(m);
      Changed(w, sink, outcome == Sent)
    case Resume => Changed(w, w.sink.Resume(), true)
    case Pause => Changed(w, w.sink.Pause(), false)
    case Close => w.(sink := w.sink.Close(), closers := w.closers + 1)
    case NotifyWaiters =>
      w.(closers := w.closers - 1, notifying := w.notifying + 1,
         receiver := if w.receiver == Parked then Woken(false) else w.receiver)
    case NotifyOne =>
      if w.receiver == Parked then w.(notifying := w.notifying - 1, receiver := Woken(true))
      else w.(notifying := w.notifying - 1, permit := true)
    case StartRecv => w.(receiver := Trying)
    case TryRecv =>
      var (sink, message) := w.sink.TryRecv();
      w.(sink := sink, receiver := if message.Some? then Absent else SawEmpty)
    case CheckClosed => w.(receiver := if w.sink.closed then Absent else SawOpen)
    case Await =>
      if w.permit then w.(permit := false, receiver := Trying) else w.(receiver := Parked)
    case Wake => w.(receiver := Trying)
    // Dropping a future that holds a `notify_one` gives the permit back.
    case DropRecv => w.(receiver := Absent, permit := w.permit || w.receiver == Woken(true))
  }

  ghost predicate ValidRun(w: World, steps: seq<Step>)
    decreases |steps|
  {
    steps == [] || (Enabled(w, steps[0]) && ValidRun(Next(w, steps[0]), steps[1..]))
  }

  ghost function Run(w: World, steps: seq<Step>): World
    requires ValidRun(w, steps)
    decreases |steps|
  {
    if steps == [] then w else Run(Next(w, steps[0]), steps[1..])
  }

  ghost predicate Deliverable(s: SinkState) {
    s.TryRecv().1.Some?
  }

  ghost predicate NobodyNotifying(w: World) {
    w.notifying == 0 && w.closers == 0
  }

  ghost predicate Inv(w: World) {
    && (w.receiver == Parked ==> !w.permit)
    && ((Deliverable(w.sink) || w.sink.closed) && NobodyNotifying(w) && !w.permit ==>
          || w.receiver in {Absent, Trying}
          || w.receiver.Woken?
          || (w.receiver == SawEmpty && w.sink.closed))
  }

  lemma StepKeepsInv(w: World, step: Step)
    requires Inv(w) && Enabled(w, step)
    ensures Inv(Next(w, step))
  {
  }

  lemma {:induction false} RunKeepsInv(w: World, steps: seq<Step>)
    requires Inv(w) && ValidRun(w, steps)
    ensures Inv(Run(w, steps))
    decreases |steps|
  {
    if steps != [] {
      StepKeepsInv(w, steps[0]);
      RunKeepsInv(Next(w, steps[0]), steps[1..]);
    }
  }

  /** No lost wakeup: a receiver parks only while somebody is about to notify it, or there is nothing to do. */
  lemma NoLostWakeup(steps: seq<Step>)
    requires ValidRun(START, steps) && Run(START, steps).receiver == Parked
    ensures
      var w := Run(START, steps);
      && !w.permit
      && (NobodyNotifying(w) ==> !w.sink.closed && !Deliverable(w.sink))
  {
    RunKeepsInv(START, steps);
  }

  /**
    What that buys: once something can be delivered to a parked receiver, the notifications
    already under way, and the receiver's own steps, are enough to hand it over.
   */
  lemma ParkedReceiverIsServed(steps: seq<Step>)
    requires ValidRun(START, steps) && Run(START, steps).receiver == Parked
    requires Deliverable(Run(START, steps).sink)
    ensures
      var w := Run(START, steps);
      exists waking: Step |
        waking in {NotifyOne, NotifyWaiters} && ValidRun(w, [waking, Wake, TryRecv]) ::
        var served := Run(w, [waking, Wake, TryRecv]);
        served.receiver == Absent && served.sink == w.sink.TryRecv().0
  {
    NoLostWakeup(steps);
    var w := Run(START, steps);
    var waking := if w.notifying > 0 then NotifyOne else NotifyWaiters;
    var woken := Next(w, waking);
    var trying := Next(woken, Wake);
    var served := Next(trying, TryRecv);
    assert [waking, Wake, TryRecv][1..] == [Wake, TryRecv] && [Wake, TryRecv][1..] == [TryRecv];
    assert ValidRun(served, []) && ValidRun(trying, [TryRecv]) && ValidRun(woken, [Wake, TryRecv]);
    assert Run(trying, [TryRecv]) == served;
    assert Run(woken, [Wake, TryRecv]) == served;
    assert Run(w, [waking, Wake, TryRecv]) == served;
  }
}
