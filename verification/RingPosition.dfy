/**
  The playback position that a ring reports (`ring.rs`): frames counted from the samples handed
  over, a base rebased by seeks, the target of an announced seek, and the right to write the
  counter that all rings of a player share.
 */
module RingPosition {
  const SAMPLE_RATE: nat := 48_000
  const CHANNELS: nat := 2
  const NO_SEEK: int := -1

  datatype Clock = Clock(consumedFrames: nat, remainder: nat, base: int, pending: int, owns: bool)
  {
    /** The value of the shared counter after `refresh_position`. */
    function Refresh(position: int): int {
      if !owns then position
      else if pending != NO_SEEK then pending
      else base + consumedFrames * 1000 / SAMPLE_RATE
    }

    function Advance(samples: nat): Clock {
      this.(consumedFrames := consumedFrames + (remainder + samples) / CHANNELS,
            remainder := (remainder + samples) % CHANNELS)
    }

    function ClearPending(target: int): Clock {
      if pending == target then this.(pending := NO_SEEK) else this
    }

    function Reset(target: int): Clock {
      this.(consumedFrames := 0, remainder := 0, base := target).ClearPending(target)
    }

    function BeginSeek(target: int): Clock {
      this.(pending := target)
    }

    function CancelSeek(target: int): Clock {
      ClearPending(target)
    }

    function Detach(): Clock {
      this.(owns := false)
    }
  }

  const NEW_CLOCK := Clock(0, 0, 0, NO_SEEK, true)

  /** Landing the announced seek hands reporting back without the reported value changing. */
  lemma LandingIsSeamless(c: Clock, position: int)
    ensures c.pending != NO_SEEK ==> c.Reset(c.pending).Refresh(position) == c.Refresh(position)
  {
  }

  // Announced seeks: the engine announces and queues, the pump lands or cancels in that order.

  /**
    One ring's seeks: targets not yet finished (the oldest may be the start position that the
    pump resets to when it opens the source), the targets finished since the newest announcement,
    and the last target landed with the samples handed over since.
   */
  datatype Seeks = Seeks(
    clock: Clock,
    unfinished: seq<int>,
    announced: bool,
    since: seq<int>,
    landed: int,
    played: nat)
  {
    /** The newest announced seek is still unfinished. */
    predicate Underway() {
      announced && unfinished != []
    }

    function Target(): int
      requires unfinished != []
    {
      unfinished[|unfinished| - 1]
    }
  }

  datatype SeekStep = Announce(target: int) | Land | Cancel | Play(samples: nat)

  function Opening(start: int): Seeks {
    Seeks(NEW_CLOCK, [start], false, [], 0, 0)
  }

  predicate CanTake(s: Seeks, step: SeekStep) {
    step.Land? || step.Cancel? ==> s.unfinished != []
  }

  function Take(s: Seeks, step: SeekStep): Seeks
    requires CanTake(s, step)
  {
    match step
    case Announce(target) =>
      s.(clock := s.clock.BeginSeek(target), unfinished := s.unfinished + [target], announced := true, since := [])
    case Land =>
      s.(clock := s.clock.Reset(s.unfinished[0]), unfinished := s.unfinished[1..],
         since := s.since + [s.unfinished[0]], landed := s.unfinished[0], played := 0)
    case Cancel =>
      s.(clock := s.clock.CancelSeek(s.unfinished[0]), unfinished := s.unfinished[1..],
         since := s.since + [s.unfinished[0]])
    case Play(samples) => s.(clock := s.clock.Advance(samples), played := s.played + samples)
  }

  ghost predicate Steps(first: Seeks, steps: seq<SeekStep>, last: Seeks)
    decreases |steps|
  {
    if steps == [] then first == last
    else CanTake(first, steps[0]) && Steps(Take(first, steps[0]), steps[1..], last)
  }

  /** What is pending, exactly: the newest target, unless an equal one has been retired since. */
  ghost predicate PendingIsExact(s: Seeks) {
    s.clock.pending == if s.Underway() && s.Target() !in s.since then s.Target() else NO_SEEK
  }

  /** The frames counted are those of all the samples handed over since the last seek landed. */
  ghost predicate CountIsExact(s: Seeks) {
    && s.clock.base == s.landed
    && s.clock.consumedFrames == s.played / CHANNELS && s.clock.remainder == s.played % CHANNELS
  }

  lemma {:induction false} StaysExact(first: Seeks, steps: seq<SeekStep>, last: Seeks)
    requires PendingIsExact(first) && CountIsExact(first) && Steps(first, steps, last)
    ensures PendingIsExact(last) && CountIsExact(last) && last.clock.owns == first.clock.owns
    decreases |steps|
  {
    if steps != [] {
      OneStepStaysExact(first, steps[0]);
      StaysExact(Take(first, steps[0]), steps[1..], last);
    }
  }

  lemma OneStepStaysExact(s: Seeks, step: SeekStep)
    requires PendingIsExact(s) && CanTake(s, step)
    ensures PendingIsExact(Take(s, step))
    ensures CountIsExact(s) ==> CountIsExact(Take(s, step))
  {
    if step.Land? || step.Cancel? {
      var after := Take(s, step);
      assert after.since == s.since + [s.unfinished[0]];
      if |s.unfinished| > 1 {
        assert after.Target() == s.Target();
      }
    }
  }

  /**
    The reported position in every run of one ring: the target of the newest announced seek while
    it is unfinished and no equal target was retired since, and otherwise the last landed target
    plus the time of the whole frames handed over since, 96 samples to the millisecond, however the
    samples were split into reads.
   */
  lemma ReportedPosition(start: int, steps: seq<SeekStep>, last: Seeks, position: int)
    requires Steps(Opening(start), steps, last)
    ensures last.clock.Refresh(position)
         == if last.Underway() && last.Target() !in last.since && last.Target() != NO_SEEK then last.Target()
            else last.landed + last.played / 96
  {
    hide Steps, Take, CanTake;
    OpeningIsExact(start);
    StaysExact(Opening(start), steps, last);
    ExactReport(last, position);
  }

  lemma OpeningIsExact(start: int)
    ensures PendingIsExact(Opening(start)) && CountIsExact(Opening(start)) && Opening(start).clock.owns
  {
  }

  lemma Milliseconds(samples: nat)
    ensures samples / CHANNELS * 1000 / SAMPLE_RATE == samples / 96
  {
    var whole, rest := samples / 96, samples % 96;
    assert samples / 2 == 48 * whole + rest / 2;
    assert samples / 2 * 1000 == 48_000 * whole + rest / 2 * 1000 && rest / 2 * 1000 < 48_000;
  }

  lemma ExactReport(s: Seeks, position: int)
    requires PendingIsExact(s) && CountIsExact(s) && s.clock.owns
    ensures s.clock.Refresh(position)
         == if s.Underway() && s.Target() !in s.since && s.Target() != NO_SEEK then s.Target()
            else s.landed + s.played / 96
  {
    Milliseconds(s.played);
  }

  /** Only steps that finish older seeks, or play: the newest announcement stays unfinished. */
  ghost predicate KeepsUnderway(s: Seeks, steps: seq<SeekStep>, last: Seeks) {
    Steps(s, steps, last) && last.unfinished != [] && forall i :: 0 <= i < |steps| ==> !steps[i].Announce?
  }

  /**
    An announced seek is reported for as long as it is unfinished, in every run, if and only if
    its target is a position and no seek still unfinished at the announcement has the same one.
   */
  lemma AnnouncedSeekHoldsIff(s: Seeks, target: int)
    requires PendingIsExact(s)
    ensures
      (forall steps, last | KeepsUnderway(Take(s, Announce(target)), steps, last) ::
        last.clock.pending == target != NO_SEEK)
      <==> target != NO_SEEK && target !in s.unfinished
  {
    var announced := Take(s, Announce(target));
    OneStepStaysExact(s, Announce(target));
    if target == NO_SEEK {
      assert KeepsUnderway(announced, [], announced);
    } else if target in s.unfinished {
      var steps, last := LandThrough(announced, target);
    } else {
      forall steps, last | KeepsUnderway(announced, steps, last) ensures last.clock.pending == target {
        HoldsWhileUnderway(announced, steps, last);
      }
    }
  }

  lemma {:induction false} HoldsWhileUnderway(s: Seeks, steps: seq<SeekStep>, last: Seeks)
    requires KeepsUnderway(s, steps, last) && s.announced && s.unfinished != []
    requires s.Target() !in s.unfinished[..|s.unfinished| - 1]
    requires s.clock.pending == s.Target() != NO_SEEK
    ensures last.clock.pending == s.Target()
    decreases |steps|
  {
    if steps != [] {
      var next := Take(s, steps[0]);
      EnoughLeft(next, steps[1..], last);
      if steps[0].Land? || steps[0].Cancel? {
        assert s.unfinished[0] == s.unfinished[..|s.unfinished| - 1][0];
        assert next.unfinished[..|next.unfinished| - 1] == s.unfinished[..|s.unfinished| - 1][1..];
      }
      HoldsWhileUnderway(next, steps[1..], last);
    }
  }

  lemma {:induction false} EnoughLeft(s: Seeks, steps: seq<SeekStep>, last: Seeks)
    requires Steps(s, steps, last) && forall i :: 0 <= i < |steps| ==> !steps[i].Announce?
    ensures |last.unfinished| <= |s.unfinished|
    decreases |steps|
  {
    if steps != [] {
      EnoughLeft(Take(s, steps[0]), steps[1..], last);
    }
  }

  /** Landing the older seeks up to one with the same target retires the newest announcement too. */
  lemma {:induction false} LandThrough(s: Seeks, target: int) returns (steps: seq<SeekStep>, last: Seeks)
    requires |s.unfinished| > 1 && s.Target() == target && target in s.unfinished[..|s.unfinished| - 1]
    ensures KeepsUnderway(s, steps, last)
    ensures s.clock.pending == NO_SEEK || s.clock.pending == target ==> last.clock.pending == NO_SEEK
    decreases |s.unfinished|
  {
    var next := Take(s, Land);
    if s.unfinished[0] == target {
      steps, last := [Land], next;
      assert Steps(next, [], next);
    } else {
      assert next.unfinished[..|next.unfinished| - 1] == s.unfinished[..|s.unfinished| - 1][1..];
      var more;
      more, last := LandThrough(next, target);
      steps := [Land] + more;
      assert steps[1..] == more;
    }
  }
}
