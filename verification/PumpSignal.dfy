/**
  The command handshake between the engine and the pump. `signal_pump` (`engine.rs`) sends a
  command and only then raises the interrupt flag; `drain_commands` (`pump.rs`) takes commands
  until it finds the channel empty, clears the flag, and leaves only on finding the channel
  empty once more. Any number of senders run in between every two steps of the pump.
 */
module PumpSignal {

  datatype Pump =
    | Outside                   // decoding or waiting; a stalled source consults the flag
    | Draining(cleared: bool)   // about to call `try_recv`
    | Clearing                  // found the channel empty; about to store `false`

  /** Commands are numbered in the order they are sent. */
  datatype World = World(
    sent: nat,
    channel: seq<nat>,
    applied: seq<nat>,
    unraised: set<nat>,   // commands whose sender has not raised the flag yet
    interrupt: bool,
    pump: Pump)

  const START := World(0, [], [], {}, false, Outside)

  datatype Step = Send | Raise(command: nat) | EnterDrain | Take | FindEmpty | Clear | Leave

  predicate Enabled(w: World, step: Step) {
    match step
    case Send => true
    case Raise(command) => command in w.unraised
    case EnterDrain => w.pump == Outside
    case Take => w.pump.Draining? && w.channel != []
    case FindEmpty => w.pump == Draining(false) && w.channel == []
    case Clear => w.pump == Clearing
    case Leave => w.pump == Draining(true) && w.channel == []
  }

  function Next(w: World, step: Step): World
    requires Enabled(w, step)
  {
    match step
    case Send => w.(sent := w.sent + 1, channel := w.channel + [w.sent], unraised := w.unraised + {w.sent})
    case Raise(command) => w.(unraised := w.unraised - {command}, interrupt := true)
    case EnterDrain => w.(pump := Draining(false))
    case Take => w.(channel := w.channel[1..], applied := w.applied + [w.channel[0]], pump := Draining(false))
    case FindEmpty => w.(pump := Clearing)
    case Clear => w.(interrupt := false, pump := Draining(true))
    case Leave => w.(pump := Outside)
  }

  predicate ValidRun(w: World, steps: seq<Step>)
    decreases |steps|
  {
    steps == [] || (Enabled(w, steps[0]) && ValidRun(Next(w, steps[0]), steps[1..]))
  }

  function Run(w: World, steps: seq<Step>): World
    requires ValidRun(w, steps)
    decreases |steps|
  {
    if steps == [] then w else Run(Next(w, steps[0]), steps[1..])
  }

  /** A stalled source is told of the command, or its sender is still about to tell it. */
  predicate Announced(w: World, command: nat) {
    w.interrupt || command in w.unraised
  }

  ghost predicate Inv(w: World) {
    && (w.pump == Outside ==> forall c | c in w.channel :: Announced(w, c))
    && w.applied + w.channel == seq(w.sent, i => i)
    && (forall c | c in w.unraised :: c < w.sent)
  }

  lemma StepKeepsInv(w: World, step: Step)
    requires Inv(w) && Enabled(w, step)
    ensures Inv(Next(w, step))
  {
    var v := Next(w, step);
    match step
    case Send => assert v.applied + v.channel == seq(w.sent, i => i) + [w.sent];
    case Take => assert v.applied + v.channel == w.applied + w.channel;
    case _ =>
  }

  lemma {:induction false} RunKeepsInv(w: World, steps: seq<Step>)
    requires Inv(w) && ValidRun(w, steps)
    ensures Inv(Run(w, steps))
    decreases |steps|
  {
    if steps != [] {
      StepKeepsInv(w, steps[0]);
      RunKeepsInv(Next(w, steps[0]), steps[1..]);
    }
  }

  /**
    No command waits behind a stall: outside the drain every queued command has the flag up or
    its sender still about to raise it. And every command is applied once, in the order sent.
   */
  lemma NoCommandWaitsUnannounced(steps: seq<Step>)
    requires ValidRun(START, steps)
    ensures
      var w := Run(START, steps);
      && (w.pump == Outside ==> forall c | c in w.channel :: Announced(w, c))
      && w.applied + w.channel == seq(w.sent, i => i)
  {
    RunKeepsInv(START, steps);
  }

  /**
    Why a single clear is not enough: leaving right after it can strand a command that was sent
    and announced between the empty look and the clear.
   */
  lemma LeavingAfterOneClearStrandsACommand()
    ensures
      var steps := [EnterDrain, FindEmpty, Send, Raise(0), Clear];
      && ValidRun(START, steps)
      && var w := Run(START, steps).(pump := Outside);
         w.channel == [0] && !Announced(w, 0)
  {
    var steps := [EnterDrain, FindEmpty, Send, Raise(0), Clear];
    var w1 := Next(START, EnterDrain);
    var w2 := Next(w1, FindEmpty);
    var w3 := Next(w2, Send);
    var w4 := Next(w3, Raise(0));
    var w5 := Next(w4, Clear);
    assert steps[1..] == [FindEmpty, Send, Raise(0), Clear] && steps[1..][1..] == [Send, Raise(0), Clear];
    assert [Send, Raise(0), Clear][1..] == [Raise(0), Clear] && [Raise(0), Clear][1..] == [Clear];
    assert ValidRun(w4, [Clear]) && Run(w4, [Clear]) == w5;
    assert ValidRun(w3, [Raise(0), Clear]) && Run(w3, [Raise(0), Clear]) == w5;
    assert ValidRun(w2, [Send, Raise(0), Clear]) && Run(w2, [Send, Raise(0), Clear]) == w5;
    assert ValidRun(w1, steps[1..]) && Run(w1, steps[1..]) == w5;
  }
}
