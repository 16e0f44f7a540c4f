/**
  The decode loop (`pump.rs`): the methods of `State` that move audio from the decoder to the ring
  while commands arrive. What the pump cannot decide itself comes from `Surroundings`, which also
  keeps what the pump did to it.
 */
module Pump {
  import opened Options
  import opened AudioFlow
  import opened PumpOutside
  import PumpSignal

  datatype ControlFlow = Continue(reset: bool) | Finished | Stopped

  datatype Outcome = TrackFinished | TrackStopped | TrackFailed(started: bool)

  /** The ring has not taken a single sample. */
  ghost predicate Silent(received: seq<seq<Sample>>) {
    forall e | 0 <= e < |received| :: received[e] == []
  }

  /** The ring takes samples only once `produced` is up. */
  lemma ReceivedStays(received: seq<seq<Sample>>, samples: seq<Sample>, n: nat)
    requires n <= |samples|
    ensures |PutLast(received, samples[..n])| == if received == [] then 1 else |received|
    ensures samples == [] && Silent(received) ==> Silent(PutLast(received, samples[..n]))
  {
  }

  /**
    How a run may end. Unless it was stopped nobody told it to stop or closed the ring on it, and
    the ring knows that nothing more comes. It finishes with the ring drained, or when the listener
    has reached the end it was last given; a failure that is not called a start never gave the ring
    a sample.
   */
  ghost predicate EndsWith(outside: Surroundings, first: Settings, outcome: Outcome)
    reads outside`finished, outside`seenClosed, outside`polls, outside`received, outside`drained, outside`position
  {
    match outcome
    case TrackFinished =>
      && outside.finished && !outside.seenClosed && GoesOn(outside.polls)
      && (outside.drained || Past(Applied(first, outside.polls).endTimeMs, outside.position))
    case TrackStopped => StopsAtOnce(outside.polls)
    case TrackFailed(started) =>
      outside.finished && !outside.seenClosed && GoesOn(outside.polls) && (!started ==> Silent(outside.received))
  }

  predicate Past(endTimeMs: Option<int>, position: int) {
    endTimeMs.Some? && position >= endTimeMs.value
  }

  class State {
    const outside: Surroundings
    const first: Settings
    var planar: seq<Sample>
    var pendingFilterTail: seq<Sample>
    var volume: int
    var endTimeMs: Option<int>
    var produced: bool
    var consecutiveErrors: nat
    ghost var epoch: nat   // seeks landed so far
    ghost var ring: seq<Sample>
    ghost var writing: seq<Sample>
    ghost var made: seq<Sample>
    ghost var stale: seq<Sample>
    ghost var faithful: bool
    ghost var current: bool
    ghost var past: seq<EpochLog>
    ghost var allEnabled: bool

    ghost function Flow(): Flow
      reads this, outside`chain, outside`heldBack, outside`output, outside`received
    {
      AudioFlow.Flow(epoch, outside.chain, outside.heldBack, planar, ring, writing, pendingFilterTail, made, stale,
                     faithful, current, past, outside.output, outside.received, allEnabled)
    }

    function InEffect(): Settings
      reads outside`chain, this`volume, this`endTimeMs
    {
      Settings(outside.chain.id, outside.chain.enabled, outside.chain.lone, volume, endTimeMs)
    }

    /** The settings are those of the commands taken so far. */
    ghost predicate InForce()
      reads outside`chain, this`volume, this`endTimeMs, outside`polls
    {
      InEffect() == Applied(first, outside.polls)
    }

    /** `produced` is up by the time the ring takes a sample. */
    ghost predicate Honest()
      reads this`produced, outside`received
    {
      produced || Silent(outside.received)
    }

    ghost predicate CountsErrors()
      reads this`consecutiveErrors, outside`packets
    {
      consecutiveErrors == CorruptRun(outside.packets) <= MAX_CONSECUTIVE_ERRORS
    }

    /** The listener had not reached the configured end when last looked at. */
    predicate InTime()
      reads this`endTimeMs, outside`position
    {
      !Past(endTimeMs, outside.position)
    }

    /** What only a packet changes, or a look at the ring before it. */
    function Steady(): (nat, seq<Packet>, bool)
      reads this`consecutiveErrors, outside`packets, outside`askedIfClosed
    {
      (consecutiveErrors, outside.packets, outside.askedIfClosed)
    }

    /** What every step of the loop keeps. */
    ghost predicate Good()
      reads this, outside`chain, outside`heldBack, outside`output, outside`received, outside`polls, outside`packets
      reads outside`fed, outside`resampled, outside`filtered, outside`sought, outside`settled, outside`landings
    {
      Sound(Flow()) && outside.PassedOn() && InForce() && Honest()
    }

    ghost predicate MayGoOn()
      reads outside`signal, outside`polls, outside`finished, outside`seenClosed, outside`rebuildDue
    {
      outside.Running() && !outside.finished && !outside.seenClosed && !outside.rebuildDue
    }

    /** What a step leaves behind, by how it ended. */
    ghost predicate After(flow: ControlFlow)
      reads outside`signal, outside`polls, outside`finished, outside`seenClosed, outside`drained, outside`position
      reads outside`rebuildDue, this`endTimeMs
    {
      match flow
      case Continue(_) => MayGoOn()
      case Finished =>
        outside.finished && !outside.seenClosed && GoesOn(outside.polls) && (outside.drained || !InTime())
      case Stopped => StopsAtOnce(outside.polls)
    }

    constructor (outside: Surroundings, enabled: bool, lone: bool, volume: int, endTimeMs: Option<int>)
      requires outside.output == outside.received == [[]] && outside.polls == [] && outside.packets == []
      requires outside.chain == Chain(0, enabled, enabled && lone, []) && outside.heldBack == []
      ensures this.outside == outside && Flow() == StartFlow(enabled, lone)
      ensures first == First(enabled, lone, volume, endTimeMs) && InForce() && Honest() && CountsErrors()
    {
      this.outside := outside;
      first := First(enabled, lone, volume, endTimeMs);
      planar, pendingFilterTail := [], [];
      this.volume, this.endTimeMs, produced, consecutiveErrors := volume, endTimeMs, false, 0;
      epoch, ring, writing, made, stale, allEnabled := 0, [], [], [], [], enabled;
      faithful, current, past := true, true, [];
    }

    /** Pushes the chain's tail behind what waits already, or what the scratch still holds. */
    method FlushFiltersIntoPending() returns (ghost tail: seq<Raw>)
      modifies this`planar, this`pendingFilterTail, this`made, this`stale, this`faithful, this`current
      modifies outside`chain, outside`output
      ensures CanFlush(old(Flow()), tail) && Flow() == Flush(old(Flow()), tail) && InEffect() == old(InEffect())
    {
      hide PutLast, Made, FromEpoch, Epochs;
      tail := [];
      if outside.chain.enabled {
        var flushed := outside.FlushChain();
        tail := flushed;
        planar := Made(flushed, outside.chain.id, true);
        made := made + planar;
      } else {
        stale := stale + planar;
        faithful, current := faithful && planar == [], current && FromEpoch(planar, epoch);
      }
      pendingFilterTail := pendingFilterTail + planar;
    }

    /** A seek of the container; only one that lands throws away the state behind it. */
    method SeekTo(positionMs: int) returns (landed: bool)
      modifies outside`chain, outside`heldBack, outside`sought, outside`landings
      ensures outside.heldBack == (if landed then [] else old(outside.heldBack))
      ensures outside.chain == if landed then old(outside.chain).(held := []) else old(outside.chain)
      ensures outside.sought == old(outside.sought) + [Sought(NotNegative(positionMs), landed)]
      ensures outside.landings == old(outside.landings) + if landed then 1 else 0
    {
      landed := outside.SeekContainer(NotNegative(positionMs));
      if landed {
        outside.ResetStages();
      }
    }

    /** What a landed seek does beyond the container: `writer.reset`, and the waiting tail is dropped. */
    method DiscardForSeek(positionMs: int)
      requires outside.heldBack == [] && outside.chain.held == []
      modifies this`pendingFilterTail, this`epoch, this`ring, this`writing, this`made, this`stale
      modifies this`faithful, this`current, this`past
      modifies outside`received, outside`output, outside`settled, outside`finished
      ensures Flow() == LandSeek(old(Flow())) && !outside.finished
      ensures outside.received == old(outside.received) + [[]]
      ensures outside.settled == old(outside.settled) + [Sought(positionMs, true)]
    {
      hide LogOf;
      ghost var at := Flow();
      outside.ResetRing(positionMs);
      ring, writing, made, stale, pendingFilterTail := [], [], [], [], [];
      epoch, past, faithful, current := epoch + 1, past + [LogOf(at)], true, true;
      assert Flow() == AudioFlow.Flow(at.epoch + 1, at.chain, [], at.planar, [], [], [], [], [], true, true,
                                      at.past + [LogOf(at)], at.output + [[]], at.received + [[]], at.allEnabled);
    }

    method InstallFilters(enabled: bool, lone: bool) returns (ghost tail: seq<Raw>)
      modifies this`planar, this`pendingFilterTail, this`made, this`stale
      modifies this`faithful, this`current, this`allEnabled, outside`chain, outside`output
      ensures CanFlush(old(Flow()), tail) && Flow() == AudioFlow.SetFilters(old(Flow()), tail, enabled, lone)
    {
      tail := FlushFiltersIntoPending();
      outside.NewChain(enabled, lone);
      allEnabled := allEnabled && enabled;
    }

    /** A `Seek` command: what was buffered is discarded only if it landed. */
    method ApplySeek(positionMs: int) returns (landed: bool)
      modifies this`pendingFilterTail, this`epoch, this`ring, this`writing, this`made, outside`chain, outside`heldBack
      modifies this`stale, this`faithful, this`current, this`past
      modifies outside`received, outside`output, outside`sought, outside`settled, outside`landings, outside`finished
      ensures Flow() == if landed then LandSeek(old(Flow())) else old(Flow())
      ensures InEffect() == old(InEffect()) && outside.finished == (old(outside.finished) && !landed)
      ensures outside.received == if landed then old(outside.received) + [[]] else old(outside.received)
      ensures outside.landings == old(outside.landings) + if landed then 1 else 0
      ensures outside.sought == old(outside.sought) + [Sought(NotNegative(positionMs), landed)]
      ensures outside.settled == old(outside.settled) + [Sought(positionMs, landed)]
    {
      hide LogOf;
      landed := SeekTo(positionMs);
      if landed {
        ghost var at := Flow();
        DiscardForSeek(positionMs);
        LandingForgets(old(Flow()), at);
      } else {
        outside.CancelSeek(positionMs);
      }
    }

    /** One command other than Stop: just what it asks for, and whether it was a seek that landed. */
    method ApplyCommand(command: Command) returns (landed: bool, ghost effects: seq<Effect>)
      requires command != Stop
      modifies this`planar, this`pendingFilterTail, this`volume, this`endTimeMs, outside`chain, outside`heldBack
      modifies this`epoch, this`ring, this`writing, this`made, this`stale, this`allEnabled
      modifies this`faithful, this`current, this`past
      modifies outside`received, outside`output, outside`sought, outside`settled, outside`landings, outside`finished
      ensures CanApply(old(Flow()), effects) && Flow() == Apply(old(Flow()), effects)
      ensures landed <==> SeekLanded in effects
      ensures InEffect() == OnSettings(old(InEffect()), Got(command))
      ensures outside.finished == (old(outside.finished) && !landed)
      ensures outside.received == if landed then old(outside.received) + [[]] else old(outside.received)
      ensures outside.landings == old(outside.landings) + if landed then 1 else 0
      ensures
        match command
        case Seek(positionMs) =>
          && effects == (if landed then [SeekLanded] else [])
          && outside.sought == old(outside.sought) + [Sought(NotNegative(positionMs), landed)]
          && outside.settled == old(outside.settled) + [Sought(positionMs, landed)]
        case SetFilters(enabled, lone) =>
          && |effects| == 1 && effects[0].FiltersSet? && effects[0].enabled == enabled && effects[0].lone == lone
          && outside.sought == old(outside.sought) && outside.settled == old(outside.settled)
        case _ =>
          effects == [] && outside.sought == old(outside.sought) && outside.settled == old(outside.settled)
    {
      hide Flush, LandSeek, CanFlush;
      landed, effects := false, [];
      match command {
        case Seek(positionMs) =>
          landed := ApplySeek(positionMs);
          effects := if landed then [SeekLanded] else [];
        case SetFilters(enabled, lone) =>
          ghost var tail := InstallFilters(enabled, lone);
          effects := [FiltersSet(tail, enabled, lone)];
        case SetVolume(v) => volume := v;
        case SetEndTime(end) => endTimeMs := end;
      }
    }

    /** Takes commands until `Stop`, or an empty channel seen after the interrupt flag was cleared. */
    method TakeCommands() returns (stopped: bool, reset: bool, ghost batch: seq<Polled>, ghost effects: seq<Effect>)
      requires outside.Running() && outside.PassedOn() && InForce() && Honest()
      modifies this`planar, this`pendingFilterTail, this`volume, this`endTimeMs, outside`chain, outside`heldBack
      modifies this`epoch, this`ring, this`writing, this`made, this`stale, this`allEnabled
      modifies this`faithful, this`current, this`past
      modifies outside`budget, outside`signal, outside`polls, outside`drainedForWrite, outside`drainedForPacket
      modifies outside`received, outside`output, outside`sought, outside`settled, outside`landings, outside`finished
      ensures outside.budget <= old(outside.budget)
      ensures !stopped ==> outside.Running() && outside.budget < old(outside.budget)
      ensures !stopped ==> outside.drainedForWrite && outside.drainedForPacket
      ensures stopped ==> StopsAtOnce(outside.polls)
      ensures CanApply(old(Flow()), effects) && Flow() == Apply(old(Flow()), effects)
      ensures reset <==> SeekLanded in effects
      ensures outside.polls == old(outside.polls) + batch && Drained(batch, stopped)
      ensures outside.PassedOn() && InForce() && Honest()
      ensures outside.finished == (old(outside.finished) && !reset)
    {
      hide PumpSignal.Inv, Apply, CanApply, Surroundings.SettledFor, Applied, Honest, GoesOn, StopsAtOnce;
      hide Drained, Draining, InForce, Surroundings.Valid, Ends;
      ghost var before := Flow();
      NoEffects(before);
      StartDraining();
      var cleared := false;
      stopped, reset, batch, effects := false, false, [], [];
      outside.EnterDrain();
      while !stopped
        invariant outside.budget <= old(outside.budget) && outside.Valid()
        invariant CanApply(before, effects) && Flow() == Apply(before, effects)
        invariant reset <==> SeekLanded in effects
        invariant outside.polls == old(outside.polls) + batch
        invariant stopped ==> Drained(batch, true) && StopsAtOnce(outside.polls)
        invariant !stopped ==> outside.signal.pump == PumpSignal.Draining(cleared) && Draining(batch, cleared)
        invariant !stopped ==> GoesOn(outside.polls)
        invariant cleared ==> outside.budget < old(outside.budget)
        invariant outside.SettledFor(outside.polls) && InForce() && Honest()
        invariant outside.finished == (old(outside.finished) && !reset)
        decreases outside.budget, !stopped
      {
        var polled, landed;
        ghost var more;
        polled, landed, more := TakeNext(cleared);
        ApplyMore(before, effects, more);
        OneMoreDrained(batch, cleared, polled);
        batch, effects, reset := batch + [polled], effects + more, reset || landed;
        if polled == Empty && cleared {
          break;
        }
        cleared := polled == Empty;
        stopped := Ends(polled);
      }
    }

    lemma NothingAsked(before: seq<Polled>, polled: Polled)
      requires polled == Empty || Ends(polled)
      requires outside.polls == before + [polled] && outside.SettledFor(before) && InEffect() == Applied(first, before)
      ensures outside.SettledFor(outside.polls) && InForce()
    {
      outside.NothingToSettle(before, polled);
      OneMorePoll(first, before, polled);
    }

    /** One poll and what it asks for; an empty channel has the interrupt flag cleared, once. */
    method TakeNext(cleared: bool) returns (polled: Polled, landed: bool, ghost effects: seq<Effect>)
      requires outside.Valid() && outside.signal.pump == PumpSignal.Draining(cleared) && GoesOn(outside.polls)
      requires outside.SettledFor(outside.polls) && InForce() && Honest()
      modifies this`planar, this`pendingFilterTail, this`volume, this`endTimeMs, outside`chain, outside`heldBack
      modifies this`epoch, this`ring, this`writing, this`made, this`stale, this`allEnabled
      modifies this`faithful, this`current, this`past
      modifies outside`budget, outside`signal, outside`polls, outside`drainedForWrite, outside`drainedForPacket
      modifies outside`received, outside`output, outside`sought, outside`settled, outside`landings, outside`finished
      ensures outside.budget <= old(outside.budget) && (polled != Disconnected ==> outside.budget < old(outside.budget))
      ensures outside.polls == old(outside.polls) + [polled]
      ensures if Ends(polled) then StopsAtOnce(outside.polls) else GoesOn(outside.polls)
      ensures outside.Valid() && (polled == Empty && cleared ==> outside.signal.pump == PumpSignal.Outside)
      ensures polled == Empty && cleared ==> outside.drainedForWrite && outside.drainedForPacket
      ensures !Ends(polled) && !(polled == Empty && cleared) ==>
        outside.signal.pump == PumpSignal.Draining(polled == Empty)
      ensures CanApply(old(Flow()), effects) && Flow() == Apply(old(Flow()), effects)
      ensures landed <==> SeekLanded in effects
      ensures outside.SettledFor(outside.polls) && InForce() && Honest()
      ensures outside.finished == (old(outside.finished) && !landed)
    {
      hide PumpSignal.Inv, Apply, CanApply, Surroundings.SettledFor, Applied, Honest, GoesOn, StopsAtOnce;
      hide OnSettings, SeekOf, Surroundings.Valid;
      ghost var polls := outside.polls;
      landed, effects := false, [];
      NoEffects(Flow());
      polled := outside.TryRecv();
      OneMorePoll(first, polls, polled);
      if polled == Empty {
        NothingAsked(polls, polled);
        if !cleared {
          outside.ClearInterrupt();
        }
      } else if polled == Disconnected || polled.command == Stop {
        NothingAsked(polls, polled);
      } else {
        landed, effects := TakeOne(polled.command, polls);
      }
    }

    /** A command just polled is applied, and answered for. */
    method TakeOne(command: Command, ghost before: seq<Polled>) returns (landed: bool, ghost effects: seq<Effect>)
      requires command != Stop && outside.polls == before + [Got(command)]
      requires outside.SettledFor(before) && InEffect() == Applied(first, before) && Honest()
      modifies this`planar, this`pendingFilterTail, this`volume, this`endTimeMs, outside`chain, outside`heldBack
      modifies this`epoch, this`ring, this`writing, this`made, this`stale, this`allEnabled
      modifies this`faithful, this`current, this`past
      modifies outside`received, outside`output, outside`sought, outside`settled, outside`landings, outside`finished
      ensures CanApply(old(Flow()), effects) && Flow() == Apply(old(Flow()), effects)
      ensures landed <==> SeekLanded in effects
      ensures outside.SettledFor(outside.polls) && InForce() && Honest()
      ensures outside.finished == (old(outside.finished) && !landed)
    {
      hide Apply, CanApply, Settled, Targets, Applied, SeeksIn;
      OneMorePoll(first, before, Got(command));
      if command.Seek? {
        OneMoreSettled(outside.sought, outside.settled, command.positionMs, true);
        OneMoreSettled(outside.sought, outside.settled, command.positionMs, false);
      }
      landed, effects := ApplyCommand(command);
    }

    /** Applies the commands that have arrived, and reports whether a seek landed among them. */
    method DrainCommands() returns (flow: ControlFlow)
      requires Good() && outside.Running()
      modifies this, outside
      ensures outside.budget <= old(outside.budget) && (flow.Continue? ==> outside.budget < old(outside.budget))
      ensures Good() && flow != Finished && produced == old(produced) && Steady() == old(Steady())
      ensures flow.Continue? ==> outside.Running() && outside.finished == (old(outside.finished) && !flow.reset)
      ensures flow.Continue? ==> outside.drainedForWrite && outside.drainedForPacket
      ensures outside.seenClosed == old(outside.seenClosed) && outside.rebuildDue == old(outside.rebuildDue)
      ensures old(MayGoOn()) ==> After(flow)
      ensures flow == Stopped ==> StopsAtOnce(outside.polls)
      ensures old(outside.polls) <= outside.polls
      ensures Drained(outside.polls[|old(outside.polls)|..], flow == Stopped)
      ensures flow == Continue(false) ==> Extends(old(Flow()), Flow())
      ensures flow == Continue(true) ==> Discards(old(Flow()), Flow())
    {
      hide Sound, Surroundings.Running, Surroundings.PassedOn, InForce, Honest, Extends, Discards, Apply, CanApply;
      hide Drained, Ranked;
      ghost var before := Flow();
      ghost var polls := outside.polls;
      var stopped, reset;
      ghost var batch, effects;
      stopped, reset, batch, effects := TakeCommands();
      BatchEffect(before, effects);
      assert outside.polls[|polls|..] == batch;
      flow := if stopped then Stopped else Continue(reset);
    }

    /** Whether the listener has reached the configured end, by the shared position. */
    method EndReached() returns (reached: bool)
      modifies outside`position
      ensures reached <==> endTimeMs.Some? && outside.position >= endTimeMs.value
    {
      reached := false;
      if endTimeMs.Some? {
        var position := outside.ReadPosition();
        reached := position >= endTimeMs.value;
      }
    }

    /** The end the track was given is enforced against the listener's position. */
    method FinishAtTheEnd() returns (flow: ControlFlow)
      requires MayGoOn()
      modifies outside`position, outside`finished
      ensures After(flow) && (flow == Continue(false) || flow == Finished)
      ensures flow == Continue(false) <==> InTime()
    {
      var reached := EndReached();
      if reached {
        outside.FinishRing();
      }
      flow := if reached then Finished else Continue(false);
    }

    /** Whether the reader has closed the ring, on which the loop gives up. */
    method ReaderClosed() returns (closed: bool)
      requires MayGoOn()
      modifies outside`seenClosed, outside`askedIfClosed
      ensures (if closed then After(Stopped) else MayGoOn()) && outside.askedIfClosed
    {
      GivingUp();
      closed := outside.IsClosed();
    }

    /**
      Writes `samples`, draining commands between attempts. The whole buffer reaches the ring
      ahead of anything pushed meanwhile, or a landed seek takes the rest of it away.
     */
    method WriteInterruptibly(samples: seq<Sample>) returns (flow: ControlFlow)
      requires Good() && MayGoOn() && samples == writing && (samples != [] ==> produced)
      modifies this, outside
      ensures Good() && After(flow) && Steady() == old(Steady()) && produced == old(produced)
      ensures outside.budget <= old(outside.budget) && (flow.Continue? ==> outside.budget < old(outside.budget))
      ensures flow.Continue? ==> outside.drainedForPacket
      ensures flow == Continue(false) ==> Delivers(old(Flow()), Flow())
      ensures flow == Continue(true) ==> Discards(old(Flow()), Flow())
    {
      hide Sound, Ranked, Good, MayGoOn, Discards, Extends, InTime, Steady;
      ghost var before := Flow();
      var remaining := samples;
      while true
        invariant Good() && MayGoOn() && remaining == writing && Advances(before, Flow())
        invariant outside.budget <= old(outside.budget) && (remaining != [] ==> produced)
        invariant Steady() == old(Steady()) && produced == old(produced)
        decreases outside.budget
      {
        flow := DrainOrEnd(before);
        if flow != Continue(false) {
          return;
        }
        var closed;
        remaining, closed := TryWrite(remaining, before);
        if closed {
          return Stopped;
        }
        if remaining == [] {
          return Continue(false);
        }

        flow := DrainOrEnd(before);
        if flow != Continue(false) {
          return;
        }
        var open := WaitForSpace();
        if !open {
          return Stopped;
        }
      }
    }

    method WaitForSpace() returns (open: bool)
      requires MayGoOn() && outside.drainedForWrite
      modifies outside`seenClosed
      ensures if open then MayGoOn() else After(Stopped)
    {
      GivingUp();
      open := outside.WaitForSpace();
    }

    /** The loop can be given up wherever it could go on. */
    lemma GivingUp()
      requires MayGoOn()
      ensures After(Stopped)
    {
    }

    /** One attempt of `RingWriter::try_write`: what did not fit, and whether the ring is closed. */
    method TryWrite(remaining: seq<Sample>, ghost before: Flow) returns (rest: seq<Sample>, closed: bool)
      requires Good() && Advances(before, Flow()) && remaining == writing && MayGoOn()
      requires (remaining != [] ==> produced) && InTime() && outside.drainedForWrite
      modifies this`ring, this`writing, outside`received, outside`drainedForWrite, outside`seenClosed
      ensures if closed then After(Stopped) else MayGoOn()
      ensures Good() && Advances(before, Flow()) && rest == writing
      ensures exists n: nat | n <= |remaining| :: Flow() == Write(old(Flow()), n)
    {
      hide Sound, MayGoOn, StopsAtOnce, Surroundings.PassedOn, InForce, Honest;
      ghost var at := Flow();
      EpochsReceived(at);
      var written;
      written, closed := Put(remaining);
      AdvancesByWriting(before, at, written);
      ring, writing := ring + remaining[..written], remaining[written..];
      rest := remaining[written..];
    }

    method Put(samples: seq<Sample>) returns (n: nat, closed: bool)
      requires MayGoOn() && outside.drainedForWrite && (samples != [] ==> produced) && outside.received != []
      requires outside.PassedOn() && Honest()
      modifies outside`received, outside`drainedForWrite, outside`seenClosed
      ensures n <= |samples| && outside.received == PutLast(old(outside.received), samples[..n])
      ensures outside.PassedOn() && Honest() && if closed then After(Stopped) else MayGoOn()
    {
      hide Settled, DecodedIn, SeeksIn;
      GivingUp();
      n, closed := outside.TryPut(samples);
      ReceivedStays(old(outside.received), samples, n);
    }

    /** The check before and after each attempt to write, `before` being where the buffer started. */
    method DrainOrEnd(ghost before: Flow) returns (flow: ControlFlow)
      requires Good() && MayGoOn() && Advances(before, Flow())
      modifies this, outside
      ensures Good() && After(flow) && produced == old(produced) && Steady() == old(Steady())
      ensures outside.budget <= old(outside.budget) && (flow.Continue? ==> outside.budget < old(outside.budget))
      ensures flow == Continue(false) ==> Advances(before, Flow()) && writing == old(writing) && InTime()
      ensures flow.Continue? ==> outside.drainedForWrite && outside.drainedForPacket
      ensures flow == Continue(true) ==> Discards(before, Flow())
      ensures flow == Finished ==> !InTime()
    {
      hide Sound, Surroundings.PassedOn, InForce, Honest;
      ghost var at := Flow();
      flow := DrainCommands();
      AdvancesThen(before, at, Flow());
      if flow == Continue(false) {
        flow := FinishAtTheEnd();
      }
    }

    method WritePendingFilterTail() returns (flow: ControlFlow)
      requires Good() && MayGoOn() && writing == []
      modifies this, outside
      ensures Good() && After(flow) && Steady() == old(Steady())
      ensures outside.budget <= old(outside.budget)
      ensures flow.Continue? && old(outside.drainedForPacket) ==> outside.drainedForPacket
      ensures flow == Continue(false) ==> Settles(old(Flow()), Flow())
      ensures flow == Continue(true) ==> Discards(old(Flow()), Flow())
    {
      hide Sound, Ranked, Surroundings.PassedOn, InForce, Surroundings.Idle;
      ghost var before := Flow();
      while pendingFilterTail != []
        invariant Good() && MayGoOn() && writing == [] && outside.budget <= old(outside.budget)
        invariant epoch == before.epoch && before.ring <= ring && outside.heldBack == before.resampled
        invariant before.made <= made && (Unflushed(before) ==> Unflushed(Flow()))
        invariant before.chain.held == [] ==> outside.chain.held == []
        invariant old(outside.drainedForPacket) ==> outside.drainedForPacket
        invariant Steady() == old(Steady())
        decreases outside.budget
      {
        ghost var at := Flow();
        var tail := pendingFilterTail;
        writing, pendingFilterTail := tail, [];
        produced := true;
        PendingDelivered(before, at, at);
        flow := WriteInterruptibly(tail);
        PendingDelivered(before, at, Flow());
        if flow != Continue(false) {
          return;
        }
      }
      flow := Continue(false);
    }

    /** `filter_interleaved`, with the volume, into the buffer about to be written. */
    method FilterInterleaved(pcm: seq<Raw>) returns (filtered: seq<Sample>, ghost out: seq<Raw>)
      requires pcm != []
      modifies this`planar, this`writing, this`made, outside`chain, outside`filtered, outside`output
      ensures CanFilter(old(Flow()), pcm, out, outside.chain.held)
      ensures Flow() == Filter(old(Flow()), out, outside.chain.held)
      ensures filtered == writing && outside.filtered == old(outside.filtered) + pcm && InEffect() == old(InEffect())
    {
      hide CanResample, CanFilter, Made, PutLast;
      ghost var at := Flow();
      var processed := outside.Process(pcm);
      out := processed;
      ProcessedIsFiltered(at, pcm, out, outside.chain.held);
      filtered := Made(processed, outside.chain.id, false);
      if outside.chain.enabled && !outside.chain.lone {
        planar := filtered;
      }
      writing, made := filtered, made + filtered;
    }

    method FilterInto(pcm: seq<Raw>) returns (filtered: seq<Sample>)
      requires Sound(Flow()) && Ready(Flow()) && Epochs(pcm) <= {epoch} && pcm != []
      modifies this`planar, this`writing, this`made, this`produced
      modifies outside`chain, outside`filtered, outside`output
      ensures Sound(Flow()) && Unflushed(Flow()) && filtered == writing && produced == (old(produced) || filtered != [])
      ensures exists out, held :: CanFilter(old(Flow()), pcm, out, held) && Flow() == Filter(old(Flow()), out, held)
      ensures outside.filtered == old(outside.filtered) + pcm && InEffect() == old(InEffect())
    {
      hide Sound, Ready, Epochs, Unflushed, CanFilter, Filter;
      ghost var at := Flow();
      ghost var out;
      filtered, out := FilterInterleaved(pcm);
      FilterKeepsSound(at, pcm, out, outside.chain.held);
      produced := produced || filtered != [];
    }

    /** What is decoded or left in the resampler, through the chain and into the ring. */
    method PlayPcm(pcm: seq<Raw>) returns (flow: ControlFlow)
      requires Sound(Flow()) && Ready(Flow()) && InForce() && Honest() && MayGoOn()
      requires Epochs(pcm) <= {epoch}
      requires outside.fed == DecodedIn(outside.packets) && outside.resampled == outside.filtered + pcm
      requires outside.SettledFor(outside.polls)
      modifies this, outside
      ensures Good() && After(flow) && Steady() == old(Steady())
      ensures outside.budget <= old(outside.budget)
      ensures flow == Continue(false) ==>
        epoch == old(epoch) && writing == [] && Unflushed(Flow()) && outside.heldBack == old(outside.heldBack)
      ensures flow == Continue(true) ==> epoch > old(epoch) && Unflushed(Flow()) && Ready(Flow())
    {
      hide Sound, Epochs, Ranked, Unflushed, Applied, Surroundings.SettledFor, Silent;
      if pcm == [] {
        return Continue(false);
      }
      var filtered := FilterInto(pcm);
      flow := WriteInterruptibly(filtered);
    }

    /** One packet's audio, from the decoder to the ring. */
    method PlayPacket(values: seq<Raw>) returns (flow: ControlFlow)
      requires Sound(Flow()) && Ready(Flow()) && InForce() && Honest() && MayGoOn()
      requires forall x | x in values :: x.epoch == epoch
      requires outside.fed + values == DecodedIn(outside.packets) && outside.filtered == outside.resampled
      requires outside.SettledFor(outside.polls)
      modifies this, outside
      ensures Good() && After(flow) && Steady() == old(Steady())
      ensures outside.budget <= old(outside.budget)
      ensures flow.Continue? ==> Unflushed(Flow()) && writing == []
    {
      hide Sound, Epochs, Ranked, InForce, Honest, Surroundings.Running, Surroundings.SettledFor;
      hide DecodedIn, InTime, Steady;
      var rebuilt := outside.FormatDiffers();
      if rebuilt {
        EmptyResamplerKeepsSound(Flow());
        outside.RebuildResampler();
      }
      if values == [] {
        return Continue(false);
      }
      var pcm := ResamplePacket(values);
      flow := PlayPcm(pcm);
    }

    method ResamplePacket(values: seq<Raw>) returns (pcm: seq<Raw>)
      requires Sound(Flow()) && Ready(Flow()) && forall x | x in values :: x.epoch == epoch
      requires values != [] && !outside.rebuildDue
      modifies outside`heldBack, outside`fed, outside`resampled
      ensures Sound(Flow()) && Ready(Flow()) && Epochs(pcm) <= {epoch}
      ensures outside.fed == old(outside.fed) + values && outside.resampled == old(outside.resampled) + pcm
    {
      hide Sound, Ranked;
      DecodedNow(values, epoch);
      EpochsConcat(outside.heldBack, values);
      ResamplerHoldsTheEpoch(Flow());
      ghost var before := Flow();
      pcm := outside.Resample(values);
      ResamplerMayHold(before, outside.heldBack);
    }

    /** The resampler's own tail, after which it holds nothing. */
    method FinishResampler() returns (pcm: seq<Raw>)
      requires Sound(Flow()) && Ready(Flow())
      modifies outside`heldBack, outside`resampled
      ensures outside.heldBack == [] && Epochs(pcm) <= {epoch} && Sound(Flow()) && Ready(Flow())
      ensures outside.resampled == old(outside.resampled) + pcm
    {
      hide Sound, Ranked;
      EmptyResamplerKeepsSound(Flow());
      ResamplerHoldsTheEpoch(Flow());
      pcm := outside.FinishResampling();
    }

    /** Delivers the tails at a clean end of stream, then waits for the ring to drain. A seek can reopen the stream. */
    method FinishAndDrain() returns (flow: ControlFlow)
      requires Good() && MayGoOn() && Ready(Flow())
      modifies this, outside
      ensures Good() && After(flow) && consecutiveErrors == old(consecutiveErrors)
      ensures outside.packets == old(outside.packets)
      ensures outside.budget <= old(outside.budget)
      ensures flow.Continue? ==> flow.reset && Ready(Flow()) && epoch > old(epoch)
    {
      hide Sound, Epochs, Ranked, Unflushed, InForce, Honest, MayGoOn, Surroundings.SettledFor;
      var pcm := FinishResampler();
      flow := PlayPcm(pcm);
      if flow != Continue(false) {
        return;
      }
      assert outside.heldBack == [];

      flow := WriteLastTail();
      if flow != Continue(false) {
        return;
      }

      flow := WaitForDrain();
    }

    /** The installed chain's own tail, behind whatever waits: then nothing is held back anywhere. */
    method WriteLastTail() returns (flow: ControlFlow)
      requires Good() && MayGoOn() && writing == []
      modifies this, outside
      ensures Good() && After(flow) && Steady() == old(Steady())
      ensures outside.budget <= old(outside.budget)
      ensures flow == Continue(false) ==>
        && writing == pendingFilterTail == [] && epoch == old(epoch)
        && outside.chain.held == [] && outside.heldBack == old(outside.heldBack)
      ensures flow == Continue(true) ==> epoch > old(epoch) && Ready(Flow())
    {
      hide Sound, Ranked, Unflushed, Applied, MayGoOn, Surroundings.PassedOn, Honest, Flush, CanFlush, InTime;
      ghost var at := Flow();
      ghost var tail := FlushFiltersIntoPending();
      FlushKeepsSound(at, tail);
      FlushedHoldsNothing(at, tail);
      flow := WritePendingFilterTail();
    }

    /** The ring is marked finished; a command can still arrive until the reader has emptied it. */
    method WaitForDrain() returns (flow: ControlFlow)
      requires Good() && MayGoOn()
      requires writing == pendingFilterTail == [] && outside.chain.held == [] && outside.heldBack == []
      modifies this, outside
      ensures Good() && After(flow) && consecutiveErrors == old(consecutiveErrors)
      ensures outside.packets == old(outside.packets)
      ensures outside.budget <= old(outside.budget)
      ensures flow.Continue? ==> flow.reset && Ready(Flow()) && epoch > old(epoch)
    {
      hide Sound, Ranked, Unflushed, InForce, Honest, Surroundings.PassedOn, Drained, InTime;
      hide Surroundings.Running, GoesOn, StopsAtOnce;
      GoesOnRunning();
      outside.FinishRing();
      while true
        invariant Good() && outside.Running() && outside.finished && !outside.seenClosed && !outside.rebuildDue
        invariant writing == [] && epoch == old(epoch) && outside.chain.held == [] && outside.heldBack == []
        invariant outside.budget <= old(outside.budget) && consecutiveErrors == old(consecutiveErrors)
        invariant outside.packets == old(outside.packets)
        decreases outside.budget
      {
        flow := DrainCommands();
        if flow != Continue(false) {
          return;
        }
        outside.MayBeStopped();
        var drained := outside.WaitForDrain();
        if drained {
          return Finished;
        }
        var closed := outside.IsClosed();
        if closed {
          return Stopped;
        }
      }
    }

    /** One packet: one the decoder refuses is counted, a new format has the resampler rebuilt. */
    method TakePacket() returns (packet: Packet, failed: bool)
      requires Good() && Ready(Flow()) && MayGoOn() && CountsErrors()
      requires InTime() && outside.drainedForPacket && outside.askedIfClosed
      modifies this`consecutiveErrors, outside`packets, outside`drainedForPacket, outside`askedIfClosed
      modifies outside`rebuildDue, outside`heldBack, outside`finished
      ensures |outside.packets| > |old(outside.packets)| && (failed <==> Fails(outside.packets))
      ensures Sound(Flow()) && Ready(Flow()) && InForce() && Honest()
      ensures if failed then EndsWith(outside, first, TrackFailed(produced)) else MayGoOn() && CountsErrors()
      ensures if packet.Decoded?
        then !failed && outside.fed + packet.values == DecodedIn(outside.packets)
             && outside.filtered == outside.resampled && outside.SettledFor(outside.polls)
             && forall x | x in packet.values :: x.epoch == epoch
        else Good()
    {
      hide Sound, Ranked, InForce, DecodedIn, CorruptRun, Fails, Surroundings.SettledFor, Surroundings.PassedOn;
      failed := false;
      ghost var packets := outside.packets;
      EpochsReceived(Flow());
      outside.PassedOnSoFar();
      packet := outside.NextPacket();
      OneMorePacket(packets, packet);
      outside.PacketTaken(packets, packet);
      match packet {
        case FormatChanged =>
          EmptyResamplerKeepsSound(Flow());
          outside.RebuildResampler();
        case Corrupt =>
          if consecutiveErrors < MAX_CONSECUTIVE_ERRORS {
            consecutiveErrors := consecutiveErrors + 1;
          } else {
            failed := true;
          }
        case Broken => failed := true;
        case Decoded(_) => consecutiveErrors := 0;
        case _ =>
      }
      if failed {
        outside.FinishRing();
      }
    }

    /** One packet, or the end of the stream; `failed` when the container or the decoder gives up. */
    method PlayNext() returns (flow: ControlFlow, failed: bool)
      requires Good() && Ready(Flow()) && MayGoOn() && CountsErrors()
      requires InTime() && outside.drainedForPacket && outside.askedIfClosed
      modifies this, outside
      ensures Good() && outside.budget <= old(outside.budget) && (failed <==> Fails(outside.packets))
      ensures |outside.packets| > |old(outside.packets)|
      ensures if failed then EndsWith(outside, first, TrackFailed(produced)) else After(flow)
      ensures !failed && flow.Continue? ==> Clear(Flow()) && CountsErrors()
    {
      hide Sound, Ranked, InForce, Honest, DecodedIn, CorruptRun, Fails, Surroundings.SettledFor, MayGoOn, InTime;
      hide Surroundings.PassedOn, EndsWith;
      flow := Continue(false);
      var packet;
      packet, failed := TakePacket();
      if failed {
        return;
      }
      match packet {
        case EndOfStream => flow := FinishAndDrain();
        case Decoded(values) => flow := PlayPacket(values);
        case _ =>
      }
    }

    lemma GoesOnRunning()
      requires MayGoOn()
      ensures outside.Running()
    {
    }

    lemma EndsSo(flow: ControlFlow)
      requires After(flow) && InForce()
      ensures flow == Finished ==> EndsWith(outside, first, TrackFinished)
      ensures flow == Stopped ==> EndsWith(outside, first, TrackStopped)
    {
    }

    /** What comes before each packet: commands, a closed ring, tails that wait, the configured end. */
    method BeforePacket() returns (flow: ControlFlow)
      requires Good() && Clear(Flow()) && MayGoOn()
      modifies this, outside
      ensures Good() && After(flow) && consecutiveErrors == old(consecutiveErrors)
      ensures outside.packets == old(outside.packets)
      ensures outside.budget <= old(outside.budget) && (flow.Continue? ==> outside.budget < old(outside.budget))
      ensures flow.Continue? ==> Ready(Flow()) && InTime() && outside.drainedForPacket && outside.askedIfClosed
    {
      hide Sound, Ready, Clear, InForce, Honest, Surroundings.PassedOn, GoesOn, Drained, StopsAtOnce;
      hide Extends, Discards, Settles, MayGoOn, Surroundings.Running, InTime;
      ghost var at := Flow();
      GoesOnRunning();
      flow := DrainCommands();
      if !flow.Continue? {
        return;
      }
      DrainStaysClear(at, Flow());
      var closed := ReaderClosed();
      if closed {
        return Stopped;
      }
      at := Flow();
      ReadyIsClear(at);
      flow := WritePendingFilterTail();
      if !flow.Continue? {
        return;
      }
      SettlesReady(at, Flow());
      flow := FinishAtTheEnd();
    }

    /** Runs the track, to whichever end it comes. */
    method DecodeLoop() returns (outcome: Outcome)
      requires Good() && Ready(Flow()) && MayGoOn() && CountsErrors() && !Fails(outside.packets)
      modifies this, outside
      ensures Good() && (outcome.TrackFailed? <==> Fails(outside.packets)) && EndsWith(outside, first, outcome)
    {
      hide Sound, Ready, Clear, InForce, Honest, Fails, Surroundings.PassedOn, EndsWith, CorruptRun, MayGoOn, InTime;
      ReadyIsClear(Flow());
      while true
        invariant Good() && Clear(Flow()) && MayGoOn()
        invariant CountsErrors() && !Fails(outside.packets)
        decreases outside.budget
      {
        var flow := BeforePacket();
        EndsSo(flow);
        match flow {
          case Continue(_) =>
          case Finished => return TrackFinished;
          case Stopped => return TrackStopped;
        }

        var failed;
        flow, failed := PlayNext();
        if failed {
          return TrackFailed(produced);
        }
        EndsSo(flow);
        match flow {
          case Continue(_) =>
          case Finished => return TrackFinished;
          case Stopped => return TrackStopped;
        }
      }
    }
  }

  /**
    The log of an epoch, against what the chains gave and the ring received in it: both promises
    are kept exactly when the epoch's flushes met their guards, and then by what the ring received.
   */
  predicate IsLogOf(log: EpochLog, epoch: nat, output: seq<Sample>, received: seq<Sample>) {
    && log.made == output && log.ring == received
    && received <= log.heard && InChainOrder(output) && FromEpoch(output, epoch)
    && (log.heard == output <==> log.faithful)
    && (FromEpoch(log.heard, epoch) <==> log.current)
    && (log.faithful ==> received <= output && InChainOrder(received))
    && (log.current ==> FromEpoch(received, epoch))
    && (forall x | x in received :: x in output || x.tail)
  }

  /** The ring received the first of what the chains gave in the epoch, in their order, each sample once. */
  predicate ReceivedAsMade(received: seq<Sample>, output: seq<Sample>, epoch: nat) {
    received <= output && InChainOrder(received) && FromEpoch(received, epoch)
  }

  /**
    A whole run of the pump, from opening the source to whichever end it comes to, under any
    commands at any time. Everything decoded goes through the resampler, all of that through the
    chains, and the ring receives, epoch by epoch, what the chains gave. In every epoch what was
    heard keeps both promises exactly when each flush of the epoch met its guard, and then so does
    what the ring received; with a filter enabled in every chain installed the ring received just the
    first of what the chains gave in that epoch, in their order, each sample once. Every seek taken
    was tried once and answered for, the settings are those of the newest commands, and a `Stop`
    is the last thing polled.
   */
  method Run(outside: Surroundings, opening: Opening, enabled: bool, lone: bool, volume: int, endTimeMs: Option<int>,
             startPositionMs: int)
    returns (outcome: Outcome, ghost final: Flow)
    requires outside.Idle() && outside.Fresh() && opening.start.None? && opening.base.None?
    modifies outside, opening
    ensures Sound(final) && final.output == outside.output && final.received == outside.received
    ensures |final.past| == final.epoch && |outside.output| == |outside.received| == final.epoch + 1
    ensures forall e: nat | e <= final.epoch :: IsLogOf(LogAt(final, e), e, outside.output[e], outside.received[e])
    ensures final.allEnabled ==>
      forall e: nat | e <= final.epoch :: ReceivedAsMade(outside.received[e], outside.output[e], e)
    ensures outside.PassedOn() && EndsWith(outside, First(enabled, lone, volume, endTimeMs), outcome)
    ensures SettingsOf(final) == ChainSettings(Applied(First(enabled, lone, volume, endTimeMs), outside.polls))
    ensures outcome.TrackFailed? <==> !opening.isOpen || Fails(outside.packets)
    ensures opening.isOpen ==> Begins(opening, startPositionMs)
  {
    hide Sound, EndsWith, Surroundings.Idle, Surroundings.PassedOn, Applied, LogAt, IsLogOf, ReceivedAsMade;
    hide State.InForce, State.Honest, State.CountsErrors, State.Flow, StartFlow, Fails;
    outside.FreshIsPassedOn();
    opening.OpenSource();
    if opening.isOpen {
      var base := 0;
      if startPositionMs > 0 {
        var landed := opening.SeekToStart(startPositionMs);
        base := if landed then startPositionMs else 0;
      }
      opening.BeginRing(base);
      outside.BuildStages(enabled, lone);
      var state := new State(outside, enabled, lone, volume, endTimeMs);
      outcome, final := RunOpened(state);
    } else {
      outside.FinishRing();
      outcome, final := TrackFailed(false), StartFlow(enabled, lone);
      NothingHappened(outside, enabled, lone, volume, endTimeMs);
    }
    PromisesOfARun(final);
  }

  function First(enabled: bool, lone: bool, volume: int, endTimeMs: Option<int>): Settings {
    Settings(0, enabled, enabled && lone, volume, endTimeMs)
  }

  /** The chain in force, of which the settings say which one it is and what it does. */
  function SettingsOf(f: Flow): (nat, bool, bool) {
    (f.chain.id, f.chain.enabled, f.chain.lone)
  }

  function ChainSettings(s: Settings): (nat, bool, bool) {
    (s.chains, s.enabled, s.lone)
  }

  /** Playback begins where it was asked to if the source could seek there, and else at 0. */
  predicate Begins(opening: Opening, startPositionMs: int)
    reads opening
  {
    && opening.base == Some(if opening.start == Some(Sought(startPositionMs, true)) then startPositionMs else 0)
    && (startPositionMs > 0 ==> opening.start.Some? && opening.start.value.positionMs == startPositionMs)
  }

  lemma NothingHappened(outside: Surroundings, enabled: bool, lone: bool, volume: int, endTimeMs: Option<int>)
    requires outside.finished && !outside.seenClosed
    requires outside.polls == [] && outside.output == outside.received == [[]]
    ensures EndsWith(outside, First(enabled, lone, volume, endTimeMs), TrackFailed(false))
    ensures Sound(StartFlow(enabled, lone))
    ensures
      var flow := StartFlow(enabled, lone);
      && flow.output == outside.output && flow.received == outside.received
      && SettingsOf(flow) == ChainSettings(Applied(First(enabled, lone, volume, endTimeMs), outside.polls))
  {
    StartIsSound(enabled, lone);
  }

  /** The loop, from a state that has just begun. */
  method RunOpened(state: State) returns (outcome: Outcome, ghost final: Flow)
    requires state.outside.Idle() && state.outside.PassedOn()
    requires state.InForce() && state.Honest() && state.CountsErrors()
    requires exists enabled, lone :: state.Flow() == StartFlow(enabled, lone)
    requires state.outside.polls == [] && state.outside.packets == []
    requires !state.outside.finished && !state.outside.seenClosed && !state.outside.rebuildDue
    modifies state, state.outside
    ensures Sound(final) && final.output == state.outside.output && final.received == state.outside.received
    ensures state.outside.PassedOn() && EndsWith(state.outside, state.first, outcome)
    ensures SettingsOf(final) == ChainSettings(Applied(state.first, state.outside.polls))
    ensures outcome.TrackFailed? <==> Fails(state.outside.packets)
  {
    hide Sound, EndsWith, Surroundings.Idle, Surroundings.PassedOn, Applied, State.Honest, State.CountsErrors;
    ghost var enabled, lone :| state.Flow() == StartFlow(enabled, lone);
    StartIsSound(enabled, lone);
    outcome := state.DecodeLoop();
    final := state.Flow();
  }

  /** What a sound flow says of every epoch. */
  lemma PromisesOfARun(final: Flow)
    requires Sound(final)
    ensures |final.past| == final.epoch && |final.output| == |final.received| == final.epoch + 1
    ensures forall e: nat | e <= final.epoch :: IsLogOf(LogAt(final, e), e, final.output[e], final.received[e])
    ensures final.allEnabled ==>
      forall e: nat | e <= final.epoch :: ReceivedAsMade(final.received[e], final.output[e], e)
  {
    hide Sound;
    SoundIsReceived(final);
    forall e: nat | e <= final.epoch
      ensures IsLogOf(LogAt(final, e), e, final.output[e], final.received[e])
      ensures final.allEnabled ==> ReceivedAsMade(final.received[e], final.output[e], e)
    {
      EveryEpochKeepsPromises(final, e);
      if final.allEnabled {
        EnabledChainsKeepBothPromises(final, e);
      }
    }
  }

}
