/**
  The ring itself (`ring.rs`): its shared fields, the writer's and the reader's operations on
  them, and the byte-level read, each proved against the streams of `RingBytes`, the clock of
  `RingPosition` and the counters of `FrameLedger`.
 */
module Rings {
  import opened Octets
  import opened RingBytes
  import opened RingPosition
  import FrameLedger

  /** The counter that all rings of one player share. */
  class PositionCell {
    var value: int

    constructor ()
      ensures value == 0
    {
      value := 0;
    }
  }

  /** Overwrites the bytes of `out` from `at` on. */
  method CopyInto(out: array<Byte>, at: nat, bytes: seq<Byte>)
    requires at + |bytes| <= out.Length
    modifies out
    ensures out[..at] == old(out[..at]) && out[at..at + |bytes|] == bytes
    ensures out[at + |bytes|..] == old(out[at + |bytes|..])
  {
    forall i | 0 <= i < |bytes| {
      out[at + i] := bytes[i];
    }
  }

  lemma ImageOfOneMore(samples: seq<Sample>, i: nat)
    requires i < |samples|
    ensures Image(Plays(samples[..i + 1])) == Image(Plays(samples[..i])) + Bytes(samples[i])
  {
    assert Plays(samples[..i + 1])[..i] == Plays(samples[..i]);
  }

  lemma {:induction false} ImageOfSilence(n: nat)
    ensures Image(Silences(n)) == seq(4 * n, _ => 0)
  {
    if n > 0 {
      ImageOfSilence(n - 1);
      assert Silences(n)[..n - 1] == Silences(n - 1);
    }
  }

  /** Writes whole samples, low byte first, from the start of `out`. */
  method WriteSamples(out: array<Byte>, samples: seq<Sample>) returns (written: nat)
    requires 4 * |samples| <= out.Length
    modifies out
    ensures written == 4 * |samples|
    ensures out[..written] == Image(Plays(samples)) && out[written..] == old(out[written..])
  {
    ghost var before := out[..];
    written := 0;
    var i := 0;
    while i < |samples|
      invariant 0 <= i <= |samples| && written == 4 * i
      invariant out[..written] == Image(Plays(samples[..i])) && out[written..] == before[written..]
    {
      CopyInto(out, written, Bytes(samples[i]));
      ImageOfOneMore(samples, i);
      assert out[..written + 4] == out[..written] + out[written..written + 4];
      assert before[written..][4..] == before[written + 4..];
      written := written + 4;
      i := i + 1;
    }
    assert samples[..i] == samples;
  }

  class Ring {
    const capacity: nat
    const position: PositionCell
    const frames: FrameLedger.FrameCounters
    var buffer: seq<Sample>
    var finished: bool
    var closed: bool
    var consumedFrames: nat
    var remainder: nat
    var base: int
    var pending: int
    var owns: bool
    /** The reader's bytes of a sample that did not fit its last buffer. */
    var leftover: seq<Byte>

    function AsStream(): Stream
      reads this
    {
      Stream(buffer, capacity, finished, closed, leftover)
    }

    function AsClock(): Clock
      reads this
    {
      Clock(consumedFrames, remainder, base, pending, owns)
    }

    constructor (bufferMs: nat, position: PositionCell, frames: FrameLedger.FrameCounters)
      ensures this.position == position && this.frames == frames
      ensures capacity == SAMPLE_RATE * (if bufferMs < 20 then 20 else bufferMs) / 1000 * CHANNELS
      ensures AsStream() == Stream([], capacity, false, false, []) && AsClock() == NEW_CLOCK
    {
      capacity := SAMPLE_RATE * (if bufferMs < 20 then 20 else bufferMs) / 1000 * CHANNELS;
      this.position, this.frames := position, frames;
      buffer, finished, closed, leftover := [], false, false, [];
      consumedFrames, remainder, base, pending, owns := 0, 0, 0, NO_SEEK, true;
    }

    // Shared.

    method RefreshPosition()
      modifies position
      ensures position.value == AsClock().Refresh(old(position.value))
    {
      if !owns {
        return;
      }
      if pending != NO_SEEK {
        position.value := pending;
        return;
      }
      var elapsedMs := consumedFrames * 1000 / SAMPLE_RATE;
      position.value := base + elapsedMs;
    }

    method ClearPendingSeek(target: int)
      modifies this`pending
      ensures AsClock() == old(AsClock()).ClearPending(target)
    {
      if pending == target {
        pending := NO_SEEK;
      }
    }

    method AdvanceFrames(samples: nat)
      modifies this`consumedFrames, this`remainder
      ensures AsClock() == old(AsClock()).Advance(samples)
    {
      var total := remainder + samples;
      consumedFrames := consumedFrames + total / CHANNELS;
      remainder := total % CHANNELS;
    }

    // The writer.

    method TryWrite(samples: seq<Sample>) returns (written: nat, isClosed: bool)
      requires AsStream().Valid()
      modifies this`buffer
      ensures (AsStream(), written) == old(AsStream()).Write(samples) && isClosed == closed
      ensures AsClock() == old(AsClock())
    {
      if closed {
        return 0, true;
      }
      var room := capacity - |buffer|;
      var take := Min(room, |samples|);
      buffer := buffer + samples[..take];
      return take, false;
    }

    method FinishWriting()
      modifies this`finished
      ensures AsStream() == old(AsStream()).Finish() && AsClock() == old(AsClock())
    {
      finished := true;
    }

    method DetachPosition()
      modifies this`owns
      ensures AsClock() == old(AsClock()).Detach() && AsStream() == old(AsStream())
    {
      owns := false;
    }

    method ResetTo(target: int)
      modifies this, position
      ensures AsStream() == old(AsStream()).Reset()
      ensures AsClock() == old(AsClock()).Reset(target)
      ensures position.value == AsClock().Refresh(old(position.value))
    {
      buffer := [];
      finished := false;
      consumedFrames := 0;
      remainder := 0;
      base := target;
      ClearPendingSeek(target);
      RefreshPosition();
    }

    method BeginSeek(target: int)
      modifies this`pending
      ensures AsClock() == old(AsClock()).BeginSeek(target) && AsStream() == old(AsStream())
    {
      pending := target;
    }

    method CancelSeek(target: int)
      modifies this`pending
      ensures AsClock() == old(AsClock()).CancelSeek(target) && AsStream() == old(AsStream())
    {
      ClearPendingSeek(target);
    }

    // The reader.

    method CloseReader()
      modifies this`closed
      ensures AsStream() == old(AsStream()).Close() && AsClock() == old(AsClock())
    {
      closed := true;
    }

    /** The position bookkeeping both branches of a read do before they release the lock. */
    method HandOver(samples: nat)
      modifies this`consumedFrames, this`remainder, position
      ensures AsClock() == old(AsClock()).Advance(samples)
      ensures position.value == AsClock().Refresh(old(position.value))
    {
      AdvanceFrames(samples);
      RefreshPosition();
    }

    /** The bytes that the last read left over come before anything else. */
    method ReadLeftover(out: array<Byte>) returns (written: nat)
      requires leftover != [] && AsStream().Valid()
      modifies this`leftover, out
      ensures written <= out.Length && (AsStream(), out[..written]) == old(AsStream()).Read(out.Length)
      ensures out[written..] == old(out[written..])
    {
      written := Min(|leftover|, out.Length);
      CopyInto(out, 0, leftover[..written]);
      leftover := leftover[written..];
      assert out[..written] == old(leftover)[..written];
    }

    /** The silence of a starved read, whole samples unless `out` cannot hold one. */
    method WriteSilence(out: array<Byte>, samples: nat) returns (written: nat)
      requires AsStream().Valid() && leftover == [] && AsStream().Next(out.Length) == Silences(samples) != []
      modifies this`leftover, out
      ensures written <= out.Length && (AsStream(), out[..written]) == old(AsStream()).Read(out.Length)
      ensures out[written..] == old(out[written..])
    {
      ImageOfSilence(samples);
      NoneReal(samples);
      if out.Length >= 4 {
        written := samples * 4;
        CopyInto(out, 0, seq(written, _ => 0));
      } else {
        written := out.Length;
        CopyInto(out, 0, seq(written, _ => 0));
        leftover := seq(4 - written, _ => 0);
      }
      assert out[..written] + leftover == seq(4 * samples, _ => 0);
      SplitImage(old(AsStream()), out.Length, out[..written], leftover);
    }

    /** The oldest samples of the queue, straight into `out` unless it cannot hold one. */
    method DrainSamples(out: array<Byte>, take: nat) returns (written: nat)
      requires AsStream().Valid() && leftover == [] && 0 < take <= |buffer|
      requires AsStream().Next(out.Length) == Plays(buffer[..take])
      modifies this`leftover, this`buffer, out
      ensures written <= out.Length && (AsStream(), out[..written]) == old(AsStream()).Read(out.Length)
      ensures out[written..] == old(out[written..])
    {
      AllReal(buffer[..take]);
      if out.Length >= 4 {
        written := WriteSamples(out, buffer[..take]);
        assert out[..written] + leftover == Image(Plays(buffer[..take]));
      } else {
        ImageOfOneMore(buffer, 0);
        var bytes := Bytes(buffer[0]);
        written := out.Length;
        CopyInto(out, 0, bytes[..written]);
        leftover := bytes[written..];
        assert out[..written] + leftover == bytes == Image(Plays(buffer[..take]));
      }
      SplitImage(old(AsStream()), out.Length, out[..written], leftover);
      buffer := buffer[take..];
    }

    method Read(out: array<Byte>, now: int) returns (written: nat)
      requires AsStream().Valid() && frames.Valid()
      modifies this, out, position, frames, frames.minutes
      ensures AsStream().Valid() && frames.Valid() && written <= out.Length
      ensures (AsStream(), out[..written]) == old(AsStream()).Read(out.Length)
      ensures out[written..] == old(out[written..])
      ensures
        var heard := old(AsStream()).Next(out.Length);
        var path := if old(buffer) == [] then FrameLedger.Nulled else FrameLedger.Sent;
        if heard == [] then
          AsClock() == old(AsClock()) && position.value == old(position.value) && frames.history == old(frames.history)
        else
          && AsClock() == old(AsClock()).Advance(|heard|)
          && position.value == AsClock().Refresh(old(position.value))
          && frames.history == old(frames.history) + [FrameLedger.Samples(now, path, |heard|)]
    {
      if out.Length == 0 {
        return 0;
      }

      if leftover != [] {
        written := ReadLeftover(out);
        return;
      }

      if closed {
        return 0;
      }

      var wantedSamples := if out.Length / 4 == 0 then 1 else out.Length / 4;

      if buffer == [] {
        if finished {
          return 0;
        }
        var silenceSamples := Min(wantedSamples, FrameLedger.FRAME_SAMPLES);
        HandOver(silenceSamples);
        frames.RecordAt(FrameLedger.Nulled, silenceSamples, now);
        written := WriteSilence(out, silenceSamples);
        return;
      }

      var take := Min(wantedSamples, |buffer|);
      written := DrainSamples(out, take);
      HandOver(take);
      frames.RecordAt(FrameLedger.Sent, take, now);
    }
  }
}
