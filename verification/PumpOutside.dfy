/**
  Everything around the decode loop (`pump.rs`): the command channel, the container and its
  decoder, the resampler's and the filters' arithmetic, and the ring. Each may answer as it likes;
  what it was asked and what it answered is written down, and the loop is judged by that.
 */
module PumpOutside {
  import opened Options
  import opened AudioFlow
  import PumpSignal

  datatype Command =
    | Seek(positionMs: int)
    | SetFilters(enabled: bool, lone: bool)
    | SetVolume(volume: int)
    | SetEndTime(endTimeMs: Option<int>)
    | Stop

  datatype Polled = Got(command: Command) | Empty | Disconnected

  datatype Packet =
    | Decoded(values: seq<Raw>)
    | Corrupt                    // the decoder refuses the packet
    | Skipped                    // another track, or an early wakeup
    | FormatChanged
    | EndOfStream
    | Broken                     // the container fails, or the track or its format is lost

  /** A seek of the container, or the ring's side of it: rebased if it landed, cancelled if not. */
  datatype Sought = Sought(positionMs: int, landed: bool)

  const MAX_CONSECUTIVE_ERRORS: nat := 32

  // What the commands taken so far ask for.

  datatype Settings = Settings(chains: nat, enabled: bool, lone: bool, volume: int, endTimeMs: Option<int>)

  function OnSettings(s: Settings, polled: Polled): Settings {
    match polled
    case Got(SetFilters(enabled, lone)) => s.(chains := s.chains + 1, enabled := enabled, lone := enabled && lone)
    case Got(SetVolume(volume)) => s.(volume := volume)
    case Got(SetEndTime(end)) => s.(endTimeMs := end)
    case _ => s
  }

  function Applied(first: Settings, polls: seq<Polled>): Settings {
    if polls == [] then first else OnSettings(Applied(first, polls[..|polls| - 1]), polls[|polls| - 1])
  }

  /** The targets of the seeks taken, in order. */
  function SeeksIn(polls: seq<Polled>): seq<int> {
    if polls == [] then [] else SeeksIn(polls[..|polls| - 1]) + SeekOf(polls[|polls| - 1])
  }

  function SeekOf(polled: Polled): seq<int> {
    match polled
    case Got(Seek(positionMs)) => [positionMs]
    case _ => []
  }

  /** The pump has been told to stop, or nobody is left to tell it anything. */
  predicate Ends(polled: Polled) {
    polled == Got(Stop) || polled == Disconnected
  }

  predicate Ended(polls: seq<Polled>) {
    polls != [] && Ends(polls[|polls| - 1])
  }

  predicate GoesOn(polls: seq<Polled>) {
    forall i | 0 <= i < |polls| :: !Ends(polls[i])
  }

  /** Nothing is polled after the pump was told to stop. */
  predicate StopsAtOnce(polls: seq<Polled>) {
    polls != [] ==> GoesOn(polls[..|polls| - 1])
  }

  /** A drain leaves on the first two empty polls in a row, or as soon as it is told to stop. */
  predicate Drained(batch: seq<Polled>, stopped: bool) {
    && batch != [] && GoesOn(batch[..|batch| - 1])
    && (stopped <==> Ended(batch))
    && (!stopped ==> |batch| >= 2 && batch[|batch| - 1] == batch[|batch| - 2] == Empty)
    && (forall i | 0 < i < |batch| - 1 :: batch[i - 1] != Empty || batch[i] != Empty)
  }

  /** What the packets so far decoded to. */
  function DecodedIn(packets: seq<Packet>): seq<Raw> {
    if packets == [] then []
    else
      DecodedIn(packets[..|packets| - 1])
      + if packets[|packets| - 1].Decoded? then packets[|packets| - 1].values else []
  }

  /** How many packets the decoder has refused since it last decoded one. */
  function CorruptRun(packets: seq<Packet>): nat {
    if packets == [] then 0
    else
      match packets[|packets| - 1]
      case Corrupt => CorruptRun(packets[..|packets| - 1]) + 1
      case Decoded(_) => 0
      case _ => CorruptRun(packets[..|packets| - 1])
  }

  /** In the middle of a drain: `cleared` since the last command, that is after one empty poll. */
  predicate Draining(batch: seq<Polled>, cleared: bool) {
    && GoesOn(batch)
    && (cleared <==> batch != [] && batch[|batch| - 1] == Empty)
    && (forall i | 0 < i < |batch| :: batch[i - 1] != Empty || batch[i] != Empty)
  }

  lemma StartDraining()
    ensures Draining([], false) && !Ends(Empty) && Ends(Disconnected)
  {
  }

  lemma OneMoreDrained(batch: seq<Polled>, cleared: bool, polled: Polled)
    requires Draining(batch, cleared)
    ensures polled == Empty && cleared ==> Drained(batch + [polled], false)
    ensures Ends(polled) ==> Drained(batch + [polled], true)
    ensures !Ends(polled) && !(polled == Empty && cleared) ==> Draining(batch + [polled], polled == Empty)
  {
    assert (batch + [polled])[..|batch|] == batch;
  }

  /** The container has failed, or the decoder has refused more packets in a row than it may. */
  predicate Fails(packets: seq<Packet>) {
    && packets != []
    && var last := packets[|packets| - 1];
       last.Broken? || (last.Corrupt? && CorruptRun(packets) > MAX_CONSECUTIVE_ERRORS)
  }

  function NotNegative(x: int): int {
    if x < 0 then 0 else x
  }

  /** Every seek of the container has been told to the ring, with its outcome, in order. */
  predicate Settled(sought: seq<Sought>, settled: seq<Sought>) {
    && |sought| == |settled|
    && forall i | 0 <= i < |sought| :: sought[i] == Sought(NotNegative(settled[i].positionMs), settled[i].landed)
  }

  function Targets(settled: seq<Sought>): (r: seq<int>)
    ensures |r| == |settled|
  {
    seq(|settled|, i requires 0 <= i < |settled| => settled[i].positionMs)
  }

  /**
    `signal` is the command channel with the interrupt flag and the senders between their send and
    their raise. `budget` is the number of polls left in the run; the engine has dropped its sender
    when it is spent.
   */
  class Surroundings {
    var budget: nat
    var signal: PumpSignal.World
    var polls: seq<Polled>             // every answer of the channel
    var packets: seq<Packet>           // every answer of the container and its decoder
    var chain: Chain                   // the filters installed, with the audio they hold back
    var heldBack: seq<Raw>             // the audio the resampler holds back
    var rebuildDue: bool               // the resampler is for another format than what comes next
    var fed: seq<Raw>                  // what the resampler was given
    var resampled: seq<Raw>            // what it gave
    var filtered: seq<Raw>             // what the filter chains were given
    var output: seq<seq<Sample>>       // what they gave, tails included, from each reset of the ring to the next
    var received: seq<seq<Sample>>     // what the ring took, likewise
    var finished: bool                 // the ring has been told, since its last reset, that nothing more comes
    var drained: bool                  // the reader has taken everything, and nothing more comes
    var seenClosed: bool               // the pump has been told that the ring's reader has closed it
    var landings: nat                  // seeks of the container that landed while the loop ran
    var sought: seq<Sought>            // every seek of the container while the loop ran
    var settled: seq<Sought>           // what the ring was told of them
    var position: int                  // the shared position, when it was last looked at
    var drainedForWrite: bool          // the commands have been drained since the last attempt to write
    var askedIfClosed: bool            // the ring has been asked, since the last packet, whether it is closed
    var drainedForPacket: bool         // and since the last packet

    constructor (budget: nat)
      ensures Idle() && Fresh()
    {
      this.budget, signal, polls, packets := budget, PumpSignal.START, [], [];
      fed, resampled, filtered, output, received := [], [], [], [[]], [[]];
      finished, landings, sought, settled := false, 0, [], [];
      position, drainedForWrite, drainedForPacket, seenClosed, drained := 0, false, false, false, false;
      askedIfClosed := false;
      chain, heldBack, rebuildDue := Chain(0, false, false, []), [], false;
    }

    ghost predicate Fresh()
      reads this
    {
      && polls == [] && packets == [] && fed == resampled == filtered == [] && output == received == [[]]
      && !finished && !seenClosed && !rebuildDue && landings == 0 && sought == settled == []
    }

    ghost predicate Valid()
      reads this`signal
    {
      PumpSignal.Inv(signal)
    }

    /** Outside a drain: every command still queued is announced, or its sender is about to announce it. */
    ghost predicate Idle()
      reads this`signal
    {
      Valid() && signal.pump == PumpSignal.Outside
    }

    ghost predicate Running()
      reads this`signal, this`polls
    {
      Idle() && GoesOn(polls)
    }

    /**
      What came out of each stage went into the next, all of it and in order; and every seek taken
      off the channel was tried once, in order, and its outcome told to the ring.
     */
    ghost predicate PassedOn()
      reads this`packets, this`fed, this`resampled, this`filtered, this`sought, this`settled, this`polls
      reads this`received, this`landings
    {
      fed == DecodedIn(packets) && filtered == resampled && SettledFor(polls)
    }

    /** A poll that brings no seek leaves nothing to settle. */
    lemma NothingToSettle(before: seq<Polled>, polled: Polled)
      requires SettledFor(before) && SeekOf(polled) == []
      ensures SettledFor(before + [polled])
    {
      OneMorePoll(Settings(0, false, false, 0, None), before, polled);
    }

    ghost predicate SettledFor(taken: seq<Polled>)
      reads this`sought, this`settled, this`received, this`landings
    {
      Settled(sought, settled) && Targets(settled) == SeeksIn(taken) && |received| == 1 + landings
    }

    lemma FreshIsPassedOn()
      requires Fresh()
      ensures PassedOn() && GoesOn(polls) && !Fails(packets)
    {
    }

    lemma MayBeStopped()
      requires Running()
      ensures GoesOn(polls) && StopsAtOnce(polls)
    {
    }

    lemma PassedOnSoFar()
      requires PassedOn()
      ensures fed == DecodedIn(packets) && filtered == resampled && SettledFor(polls) && |received| == 1 + landings
    {
    }

    /** A packet is still to be passed on only if it was decoded. */
    lemma PacketTaken(before: seq<Packet>, packet: Packet)
      requires packets == before + [packet]
      requires fed == DecodedIn(before) && filtered == resampled && SettledFor(polls)
      ensures packet.Decoded? ==> fed + packet.values == DecodedIn(packets)
      ensures !packet.Decoded? ==> PassedOn()
    {
      OneMorePacket(before, packet);
    }

    // The commands.

    /** Any number of senders, each sending a command or raising the flag for one it sent. */
    method Senders()
      requires Valid()
      modifies this`signal
      ensures Valid() && signal.pump == old(signal.pump)
    {
      hide PumpSignal.Inv;
      var steps: nat := *;
      while steps > 0
        invariant Valid() && signal.pump == old(signal.pump)
      {
        var step := PumpSignal.Send;
        var raises: bool := *;
        if raises && signal.unraised != {} {
          var command :| command in signal.unraised;
          step := PumpSignal.Raise(command);
        }
        PumpSignal.StepKeepsInv(signal, step);
        signal := PumpSignal.Next(signal, step);
        steps := steps - 1;
      }
    }

    method EnterDrain()
      requires Idle()
      modifies this`signal
      ensures Valid() && signal.pump == PumpSignal.Draining(false)
    {
      hide PumpSignal.Inv;
      PumpSignal.StepKeepsInv(signal, PumpSignal.EnterDrain);
      signal := PumpSignal.Next(signal, PumpSignal.EnterDrain);
    }

    /** A poll of the channel; an empty one after a clear ends the drain. */
    method TryRecv() returns (polled: Polled)
      requires Valid() && signal.pump.Draining?
      modifies this`budget, this`signal, this`polls, this`drainedForWrite, this`drainedForPacket
      ensures Valid() && budget <= old(budget) && (!polled.Disconnected? ==> budget < old(budget))
      ensures polls == old(polls) + [polled]
      ensures polled.Got? ==> signal.pump == PumpSignal.Draining(false)
      ensures polled == Empty ==>
        signal.pump == if old(signal.pump.cleared) then PumpSignal.Outside else PumpSignal.Clearing
      ensures polled == Empty && old(signal.pump.cleared) ==> drainedForWrite && drainedForPacket
    {
      hide PumpSignal.Inv;
      Senders();
      if budget == 0 {
        polls := polls + [Disconnected];
        return Disconnected;
      }
      budget := budget - 1;
      var step := if signal.channel != [] then PumpSignal.Take
                  else if signal.pump.cleared then PumpSignal.Leave else PumpSignal.FindEmpty;
      if signal.channel == [] {
        polled := Empty;
      } else {
        var command: Command := *;
        polled := Got(command);
      }
      polls := polls + [polled];
      if step == PumpSignal.Leave {
        drainedForWrite, drainedForPacket := true, true;
      }
      PumpSignal.StepKeepsInv(signal, step);
      signal := PumpSignal.Next(signal, step);
    }

    /** The store of `false`, with senders at work since the empty poll before it. */
    method ClearInterrupt()
      requires Valid() && signal.pump == PumpSignal.Clearing
      modifies this`signal
      ensures Valid() && signal.pump == PumpSignal.Draining(true) && !signal.interrupt
    {
      hide PumpSignal.Inv;
      Senders();
      PumpSignal.StepKeepsInv(signal, PumpSignal.Clear);
      signal := PumpSignal.Next(signal, PumpSignal.Clear);
    }

    // The container, its decoder and the arithmetic.

    method SeekContainer(positionMs: int) returns (landed: bool)
      requires positionMs >= 0
      modifies this`sought, this`landings
      ensures sought == old(sought) + [Sought(positionMs, landed)]
      ensures landings == old(landings) + if landed then 1 else 0
    {
      landed := *;
      sought := sought + [Sought(positionMs, landed)];
      landings := if landed then landings + 1 else landings;
    }

    /** Decoder, resampler and filters forget what they hold. */
    method ResetStages()
      modifies this`chain, this`heldBack
      ensures chain == old(chain).(held := []) && heldBack == []
    {
      chain, heldBack := chain.(held := []), [];
    }

    /** What is decoded belongs to the epoch of the last seek that landed. */
    method NextPacket() returns (packet: Packet)
      requires drainedForPacket && askedIfClosed && !seenClosed && !rebuildDue
      modifies this`packets, this`drainedForPacket, this`askedIfClosed, this`rebuildDue
      ensures rebuildDue == packet.FormatChanged?
      ensures packets == old(packets) + [packet]
      ensures packet.Decoded? ==> forall x | x in packet.values :: x.epoch == landings
    {
      packet := *;
      if packet.Decoded? {
        var values, epoch := packet.values, landings;
        packet := Decoded(seq(|values|, i requires 0 <= i < |values| => Raw(epoch, values[i].value)));
      }
      packets, drainedForPacket, askedIfClosed := packets + [packet], false, false;
      rebuildDue := packet.FormatChanged?;
    }

    /** Whether the decoder's format is another than the resampler's. */
    method FormatDiffers() returns (yes: bool)
      modifies this`rebuildDue
      ensures rebuildDue == yes
    {
      yes := *;
      rebuildDue := yes;
    }

    method BuildStages(enabled: bool, lone: bool)
      modifies this`chain, this`heldBack
      ensures chain == Chain(0, enabled, enabled && lone, []) && heldBack == []
    {
      chain, heldBack := Chain(0, enabled, enabled && lone, []), [];
    }

    /** A resampler for another format: what the old one held back is gone. */
    method RebuildResampler()
      requires rebuildDue
      modifies this`heldBack, this`rebuildDue
      ensures heldBack == [] && !rebuildDue
    {
      heldBack, rebuildDue := [], false;
    }

    method Resample(input: seq<Raw>) returns (out: seq<Raw>)
      requires input != [] && !rebuildDue
      modifies this`heldBack, this`fed, this`resampled
      ensures CanResample(old(heldBack), input, out, heldBack)
      ensures fed == old(fed) + input && resampled == old(resampled) + out
    {
      var held := heldBack;
      out, heldBack := *, *;
      if !CanResample(held, input, out, heldBack) {
        out, heldBack := [], [];
      }
      fed, resampled := fed + input, resampled + out;
    }

    method FinishResampling() returns (out: seq<Raw>)
      modifies this`heldBack, this`resampled
      ensures Epochs(out) <= Epochs(old(heldBack)) && heldBack == [] && resampled == old(resampled) + out
    {
      out := *;
      if !(Epochs(out) <= Epochs(heldBack)) {
        out := [];
      }
      heldBack, resampled := [], resampled + out;
    }

    /** One buffer through the chain, which copies it when no filter is enabled. */
    method Process(input: seq<Raw>) returns (out: seq<Raw>)
      requires input != []
      modifies this`chain, this`filtered, this`output
      ensures chain == old(chain).(held := chain.held)
      ensures
        if chain.enabled then CanResample(old(chain).held, input, out, chain.held) else out == input && chain.held == []
      ensures filtered == old(filtered) + input && output == PutLast(old(output), Made(out, chain.id, false))
    {
      var held: seq<Raw> := [];
      out := input;
      if chain.enabled {
        out, held := *, *;
        if !CanResample(chain.held, input, out, held) {
          out, held := [], [];
        }
      }
      chain := chain.(held := held);
      filtered, output := filtered + input, PutLast(output, Made(out, chain.id, false));
    }

    method FlushChain() returns (tail: seq<Raw>)
      modifies this`chain, this`output
      ensures Epochs(tail) <= Epochs(old(chain).held) && chain == old(chain).(held := [])
      ensures output == PutLast(old(output), Made(tail, chain.id, true))
    {
      tail := *;
      if !(Epochs(tail) <= Epochs(chain.held)) {
        tail := [];
      }
      chain, output := chain.(held := []), PutLast(output, Made(tail, chain.id, true));
    }

    /** The chain it replaces must have been flushed. */
    method NewChain(enabled: bool, lone: bool)
      requires chain.enabled ==> chain.held == []
      modifies this`chain
      ensures chain == Chain(old(chain).id + 1, enabled, enabled && lone, [])
    {
      chain := Chain(chain.id + 1, enabled, enabled && lone, []);
    }

    // The ring.

    /** `RingWriter::try_write`: the ring takes what fits, or nothing once its reader has closed it. */
    method TryPut(samples: seq<Sample>) returns (n: nat, closed: bool)
      requires !finished && !seenClosed && drainedForWrite
      modifies this`received, this`drainedForWrite, this`seenClosed
      ensures n <= |samples| && (closed ==> n == 0) && seenClosed == closed
      ensures received == PutLast(old(received), samples[..n])
    {
      n, closed := *, *;
      if closed {
        n := 0;
      } else if n > |samples| {
        n := |samples|;
      }
      received, drainedForWrite, seenClosed := PutLast(received, samples[..n]), false, closed;
    }

    /** A wait for space, which the reader's end may cut short. */
    method WaitForSpace() returns (open: bool)
      requires drainedForWrite && !seenClosed
      modifies this`seenClosed
      ensures seenClosed == !open
    {
      open := *;
      seenClosed := !open;
    }

    /** A look at a ring that is finished, after the last of what the stages held has gone into it. */
    method WaitForDrain() returns (done: bool)
      requires finished && chain.held == [] && heldBack == []
      modifies this`drained
      ensures drained == done
    {
      done := *;
      drained := done;
    }

    method IsClosed() returns (closed: bool)
      modifies this`seenClosed, this`askedIfClosed
      ensures seenClosed == (old(seenClosed) || closed) && askedIfClosed
    {
      closed, askedIfClosed := *, true;
      seenClosed := seenClosed || closed;
    }

    /** `RingWriter::reset` for a seek that landed. */
    method ResetRing(positionMs: int)
      modifies this`received, this`output, this`settled, this`finished
      ensures received == old(received) + [[]] && output == old(output) + [[]] && !finished
      ensures settled == old(settled) + [Sought(positionMs, true)]
    {
      received, output, finished := received + [[]], output + [[]], false;
      settled := settled + [Sought(positionMs, true)];
    }

    /** `RingWriter::cancel_seek` for one that did not. */
    method CancelSeek(positionMs: int)
      modifies this`settled
      ensures settled == old(settled) + [Sought(positionMs, false)]
    {
      settled := settled + [Sought(positionMs, false)];
    }

    method FinishRing()
      modifies this`finished
      ensures finished
    {
      finished := true;
    }

    method ReadPosition() returns (positionMs: int)
      modifies this`position
      ensures position == positionMs
    {
      positionMs := *;
      position := positionMs;
    }
  }

  /** Opening the source, before the loop begins. */
  class Opening {
    var isOpen: bool
    var start: Option<Sought>   // the seek to the start position
    var base: Option<int>       // where the ring was told that playback begins

    constructor ()
      ensures !isOpen && start.None? && base.None?
    {
      isOpen, start, base := false, None, None;
    }

    method OpenSource()
      modifies this`isOpen
    {
      isOpen := *;
    }

    method SeekToStart(positionMs: int) returns (landed: bool)
      modifies this`start
      ensures start == Some(Sought(positionMs, landed))
    {
      landed := *;
      start := Some(Sought(positionMs, landed));
    }

    /** The reset that opening ends with. */
    method BeginRing(positionMs: int)
      modifies this`base
      ensures base == Some(positionMs)
    {
      base := Some(positionMs);
    }
  }

  // One more of each.

  lemma OneMorePoll(first: Settings, polls: seq<Polled>, polled: Polled)
    ensures Applied(first, polls + [polled]) == OnSettings(Applied(first, polls), polled)
    ensures SeeksIn(polls + [polled]) == SeeksIn(polls) + SeekOf(polled)
    ensures GoesOn(polls + [polled]) <==> GoesOn(polls) && !Ends(polled)
    ensures Ended(polls + [polled]) <==> Ends(polled)
    ensures StopsAtOnce(polls + [polled]) <==> GoesOn(polls)
  {
    assert (polls + [polled])[..|polls|] == polls;
    if GoesOn(polls + [polled]) {
      forall i | 0 <= i < |polls| ensures !Ends(polls[i]) {
        assert !Ends((polls + [polled])[i]);
      }
      assert !Ends((polls + [polled])[|polls|]);
    }
  }

  lemma OneMorePacket(packets: seq<Packet>, packet: Packet)
    ensures DecodedIn(packets + [packet]) == DecodedIn(packets) + if packet.Decoded? then packet.values else []
    ensures Fails(packets + [packet]) <==>
      packet.Broken? || (packet.Corrupt? && CorruptRun(packets) >= MAX_CONSECUTIVE_ERRORS)
    ensures CorruptRun(packets + [packet])
         == if packet.Corrupt? then CorruptRun(packets) + 1 else if packet.Decoded? then 0 else CorruptRun(packets)
  {
    assert (packets + [packet])[..|packets|] == packets;
  }

  lemma OneMoreSettled(sought: seq<Sought>, settled: seq<Sought>, positionMs: int, landed: bool)
    requires Settled(sought, settled)
    ensures Settled(sought + [Sought(NotNegative(positionMs), landed)], settled + [Sought(positionMs, landed)])
    ensures Targets(settled + [Sought(positionMs, landed)]) == Targets(settled) + [positionMs]
  {
  }

  // What the settings mean.

  predicate Concerns(polled: Polled, kind: Command) {
    polled.Got? && match kind
                   case Seek(_) => polled.command.Seek?
                   case SetFilters(_, _) => polled.command.SetFilters?
                   case SetVolume(_) => polled.command.SetVolume?
                   case SetEndTime(_) => polled.command.SetEndTime?
                   case Stop => polled.command.Stop?
  }

  /** The newest command of its kind decides: nothing else touches what it set. */
  lemma {:induction false} NewestCommandDecides(first: Settings, polls: seq<Polled>, i: nat)
    requires i < |polls| && polls[i].Got?
    requires forall j | i < j < |polls| :: !Concerns(polls[j], polls[i].command)
    ensures
      var s := Applied(first, polls);
      match polls[i].command
      case SetFilters(enabled, lone) => s.enabled == enabled && s.lone == (enabled && lone)
      case SetVolume(volume) => s.volume == volume
      case SetEndTime(end) => s.endTimeMs == end
      case _ => true
  {
    var front := polls[..|polls| - 1];
    if i < |polls| - 1 {
      assert front[i] == polls[i];
      forall j | i < j < |front| ensures !Concerns(front[j], front[i].command) {
        assert front[j] == polls[j];
      }
      NewestCommandDecides(first, front, i);
      assert !Concerns(polls[|polls| - 1], polls[i].command);
    }
  }

  function FilterChanges(polls: seq<Polled>): nat {
    if polls == [] then 0
    else
      FilterChanges(polls[..|polls| - 1])
      + if polls[|polls| - 1].Got? && polls[|polls| - 1].command.SetFilters? then 1 else 0
  }

  /** Without a command of its kind a setting stays what it was, and each filter change makes a chain. */
  lemma {:induction false} OnlyItsCommandsChangeASetting(first: Settings, polls: seq<Polled>)
    ensures
      var s := Applied(first, polls);
      && s.chains == first.chains + FilterChanges(polls)
      && (FilterChanges(polls) == 0 ==> s.enabled == first.enabled && s.lone == first.lone)
      && ((forall j | 0 <= j < |polls| :: !Concerns(polls[j], SetVolume(0))) ==> s.volume == first.volume)
      && ((forall j | 0 <= j < |polls| :: !Concerns(polls[j], SetEndTime(None))) ==> s.endTimeMs == first.endTimeMs)
  {
    if polls != [] {
      OnlyItsCommandsChangeASetting(first, polls[..|polls| - 1]);
    }
  }
}
