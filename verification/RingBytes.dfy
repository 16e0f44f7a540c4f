/**
  The samples and bytes of one ring (`ring.rs`): a bounded queue of 32-bit samples written by the
  pump and read as a little-endian byte stream, with the bytes of a half-read sample left over.
  Samples are the bit patterns of the source's floats.
 */
module RingBytes {
  import FrameLedger
  import opened Octets

  type Sample = s: nat | s < 0x1_0000_0000

  /** A sample given to the reader: one the pump wrote, or the silence of a starved read. */
  datatype Heard = Played(sample: Sample) | Silence
  {
    function Value(): Sample {
      if Played? then sample else 0
    }
  }

  function Bytes(s: Sample): (r: seq<Byte>)
    ensures |r| == 4
  {
    [s % 0x100, s / 0x100 % 0x100, s / 0x1_0000 % 0x100, s / 0x100_0000]
  }

  function Image(heard: seq<Heard>): (r: seq<Byte>)
    ensures |r| == 4 * |heard|
  {
    if heard == [] then [] else Image(heard[..|heard| - 1]) + Bytes(heard[|heard| - 1].Value())
  }

  function Min(a: nat, b: nat): nat {
    if a <= b then a else b
  }

  function Silences(n: nat): seq<Heard> {
    seq(n, _ => Silence)
  }

  function Plays(samples: seq<Sample>): seq<Heard> {
    seq(|samples|, i requires 0 <= i < |samples| => Played(samples[i]))
  }

  datatype Stream = Stream(
    buffer: seq<Sample>,
    capacity: nat,
    finished: bool,
    closed: bool,
    leftover: seq<Byte>)
  {
    predicate Valid() {
      |buffer| <= capacity && |leftover| < 4
    }

    function Write(samples: seq<Sample>): (Stream, nat)
      requires Valid()
    {
      if closed then (this, 0)
      else
        var take := Min(capacity - |buffer|, |samples|);
        (this.(buffer := buffer + samples[..take]), take)
    }

    function Reset(): Stream {
      this.(buffer := [], finished := false)
    }

    function Finish(): Stream {
      this.(finished := true)
    }

    function Close(): Stream {
      this.(closed := true)
    }

    /** What a read of `n` bytes takes from the queue, or invents when it is starved. */
    function Next(n: nat): (heard: seq<Heard>)
      ensures 0 < n < 4 ==> |heard| <= 1
      ensures 4 <= n ==> 4 * |heard| <= n
      ensures |Real(heard)| <= |buffer| && Real(heard) == buffer[..|Real(heard)|]
    {
      if n == 0 || leftover != [] || closed || (buffer == [] && finished) then []
      else
        var wanted := if n / 4 == 0 then 1 else n / 4;
        if buffer == [] then
          NoneReal(Min(wanted, FrameLedger.FRAME_SAMPLES));
          Silences(Min(wanted, FrameLedger.FRAME_SAMPLES))
        else
          AllReal(buffer[..Min(wanted, |buffer|)]);
          Plays(buffer[..Min(wanted, |buffer|)])
    }

    /** One read into `n` bytes: the new state and the bytes handed over. */
    function Read(n: nat): (Stream, seq<Byte>)
      requires Valid()
    {
      if leftover != [] then
        var take := Min(|leftover|, n);
        (this.(leftover := leftover[take..]), leftover[..take])
      else
        var heard := Next(n);
        var image := Image(heard);
        var written := Min(|image|, n);
        (this.(buffer := buffer[|Real(heard)|..], leftover := image[written..]), image[..written])
    }
  }

  function Real(heard: seq<Heard>): (r: seq<Sample>)
    ensures |r| <= |heard|
  {
    if heard == [] then []
    else
      Real(heard[..|heard| - 1])
      + if heard[|heard| - 1].Played? then [heard[|heard| - 1].sample] else []
  }

  /** A read from the queue is settled by how its image was split. */
  lemma SplitImage(s: Stream, n: nat, bytes: seq<Byte>, rest: seq<Byte>)
    requires s.Valid() && s.leftover == [] && bytes + rest == Image(s.Next(n)) && |bytes| == Min(|bytes + rest|, n)
    ensures s.Read(n) == (s.(buffer := s.buffer[|Real(s.Next(n))|..], leftover := rest), bytes)
  {
    assert (bytes + rest)[..|bytes|] == bytes && (bytes + rest)[|bytes|..] == rest;
  }

  lemma {:induction false} AllReal(samples: seq<Sample>)
    ensures Real(Plays(samples)) == samples
  {
    if samples != [] {
      AllReal(samples[..|samples| - 1]);
      assert Plays(samples)[..|samples| - 1] == Plays(samples[..|samples| - 1]);
    }
  }

  lemma {:induction false} NoneReal(n: nat)
    ensures Real(Silences(n)) == []
  {
    if n > 0 {
      NoneReal(n - 1);
      assert Silences(n)[..n - 1] == Silences(n - 1);
    }
  }

  lemma {:induction false} RealConcat(a: seq<Heard>, b: seq<Heard>)
    ensures Real(a + b) == Real(a) + Real(b)
  {
    if b == [] {
      assert a + b == a;
    } else {
      RealConcat(a, b[..|b| - 1]);
      assert (a + b)[..|a + b| - 1] == a + b[..|b| - 1];
    }
  }

  lemma {:induction false} ImageConcat(a: seq<Heard>, b: seq<Heard>)
    ensures Image(a + b) == Image(a) + Image(b)
  {
    if b == [] {
      assert a + b == a;
    } else {
      ImageConcat(a, b[..|b| - 1]);
      assert (a + b)[..|a + b| - 1] == a + b[..|b| - 1];
    }
  }

  /** The byte image determines every sample, so a stream of images cannot hide a lost one. */
  lemma BytesDetermineTheSample(s: Sample)
    ensures
      var b := Bytes(s);
      b[0] as int + b[1] as int * 0x100 + b[2] as int * 0x1_0000 + b[3] as int * 0x100_0000 == s
  {
    assert s / 0x1_0000 == s / 0x100 / 0x100 && s / 0x100_0000 == s / 0x1_0000 / 0x100;
  }

  // Runs: any interleaving of writes, resets and reads.

  datatype Op = Write(samples: seq<Sample>) | Reset | Finish | Close | Read(size: nat)

  function Do(s: Stream, op: Op): (r: Stream)
    requires s.Valid()
    ensures r.Valid() && r.capacity == s.capacity
  {
    match op
    case Write(samples) => s.Write(samples).0
    case Reset => s.Reset()
    case Finish => s.Finish()
    case Close => s.Close()
    case Read(n) => ReadKeepsValid(s, n); s.Read(n).0
  }

  lemma ReadKeepsValid(s: Stream, n: nat)
    requires s.Valid()
    ensures s.Read(n).0.Valid()
  {
  }

  function End(s: Stream, ops: seq<Op>): (r: Stream)
    requires s.Valid()
    ensures r.Valid() && r.capacity == s.capacity
  {
    if ops == [] then s else Do(End(s, ops[..|ops| - 1]), ops[|ops| - 1])
  }

  // What one operation accepts, returns, lets be heard, and lets leave the queue.

  function AcceptedBy(s: Stream, op: Op): seq<Sample>
    requires s.Valid()
  {
    if op.Write? then op.samples[..s.Write(op.samples).1] else []
  }

  function ReturnedBy(s: Stream, op: Op): seq<Byte>
    requires s.Valid()
  {
    if op.Read? then s.Read(op.size).1 else []
  }

  function HeardBy(s: Stream, op: Op): seq<Heard> {
    if op.Read? then s.Next(op.size) else []
  }

  /** How many samples left the queue, by its length before and after. */
  function LeftBy(s: Stream, op: Op): int
    requires s.Valid()
  {
    |s.buffer| + |AcceptedBy(s, op)| - |Do(s, op).buffer|
  }

  // The same over a run.

  function Accepted(s: Stream, ops: seq<Op>): seq<Sample>
    requires s.Valid()
  {
    if ops == [] then []
    else Accepted(s, ops[..|ops| - 1]) + AcceptedBy(End(s, ops[..|ops| - 1]), ops[|ops| - 1])
  }

  function Returned(s: Stream, ops: seq<Op>): seq<Byte>
    requires s.Valid()
  {
    if ops == [] then []
    else Returned(s, ops[..|ops| - 1]) + ReturnedBy(End(s, ops[..|ops| - 1]), ops[|ops| - 1])
  }

  function HeardIn(s: Stream, ops: seq<Op>): seq<Heard>
    requires s.Valid()
  {
    if ops == [] then []
    else HeardIn(s, ops[..|ops| - 1]) + HeardBy(End(s, ops[..|ops| - 1]), ops[|ops| - 1])
  }

  /** The samples that one operation took off the queue, and those it let be heard. */
  datatype Departure = Departure(left: seq<Sample>, heard: seq<Sample>)

  function Departures(s: Stream, ops: seq<Op>): (r: seq<Departure>)
    requires s.Valid()
    ensures |r| == |ops|
  {
    if ops == [] then []
    else
      var before, op := End(s, ops[..|ops| - 1]), ops[|ops| - 1];
      StepIsFifo(before, op);
      Departures(s, ops[..|ops| - 1]) + [Departure(before.buffer[..LeftBy(before, op)], Real(HeardBy(before, op)))]
  }

  function Gone(ds: seq<Departure>): seq<Sample> {
    if ds == [] then [] else Gone(ds[..|ds| - 1]) + ds[|ds| - 1].left
  }

  function HeardOf(ds: seq<Departure>): seq<Sample> {
    if ds == [] then [] else HeardOf(ds[..|ds| - 1]) + ds[|ds| - 1].heard
  }

  /**
    Alignment: what the reader has been handed, with the bytes still left over, is the image of
    whole samples, whatever sizes it reads in.
   */
  lemma {:induction false} ReturnedIsAnImage(s: Stream, ops: seq<Op>)
    requires s.Valid()
    ensures Returned(s, ops) + End(s, ops).leftover == s.leftover + Image(HeardIn(s, ops))
  {
    if ops != [] {
      var front, op := ops[..|ops| - 1], ops[|ops| - 1];
      var before := End(s, front);
      ReturnedIsAnImage(s, front);
      StepConservesBytes(before, op);
      ImageConcat(HeardIn(s, front), HeardBy(before, op));
      Glue(s.leftover, Image(HeardIn(s, front)), Image(HeardBy(before, op)), Returned(s, front),
           before.leftover, ReturnedBy(before, op), Do(before, op).leftover);
    }
  }

  lemma Glue(first: seq<Byte>, image: seq<Byte>, more: seq<Byte>, out: seq<Byte>,
             before: seq<Byte>, read: seq<Byte>, after: seq<Byte>)
    requires out + before == first + image && read + after == before + more
    ensures out + read + after == first + (image + more)
  {
    calc {
      out + read + after;
      out + (read + after);
      out + before + more;
      first + image + more;
      first + (image + more);
    }
  }

  lemma StepConservesBytes(s: Stream, op: Op)
    requires s.Valid()
    ensures ReturnedBy(s, op) + Do(s, op).leftover == s.leftover + Image(HeardBy(s, op))
    ensures op.Read? ==> |ReturnedBy(s, op)| <= op.size
  {
    if op.Read? && s.leftover == [] {
      var image := Image(s.Next(op.size));
      var written := Min(|image|, op.size);
      assert image[..written] + image[written..] == [] + image;
    } else if op.Read? {
      var take := Min(|s.leftover|, op.size);
      assert s.Next(op.size) == [];
      assert s.leftover[..take] + s.leftover[take..] == s.leftover + [];
    } else {
      assert [] + s.leftover == s.leftover + [];
    }
  }

  lemma StepIsFifo(s: Stream, op: Op)
    requires s.Valid()
    ensures 0 <= LeftBy(s, op) <= |s.buffer|
    ensures Do(s, op).buffer == s.buffer[LeftBy(s, op)..] + AcceptedBy(s, op)
    ensures Real(HeardBy(s, op)) == if op == Reset then [] else s.buffer[..LeftBy(s, op)]
  {
  }

  /** Order: what left the queue, then what is still in it, is everything accepted, in order. */
  lemma {:induction false} QueueIsFifo(s: Stream, ops: seq<Op>)
    requires s.Valid()
    ensures Gone(Departures(s, ops)) + End(s, ops).buffer == s.buffer + Accepted(s, ops)
  {
    if ops != [] {
      var front, op := ops[..|ops| - 1], ops[|ops| - 1];
      var before, gone := End(s, front), Gone(Departures(s, front));
      QueueIsFifo(s, front);
      StepIsFifo(before, op);
      assert Departures(s, ops)[..|front|] == Departures(s, front);
      Regroup(gone, before.buffer, LeftBy(before, op), AcceptedBy(before, op), s.buffer, Accepted(s, front));
    }
  }

  lemma Regroup(gone: seq<Sample>, queue: seq<Sample>, left: nat, accepted: seq<Sample>,
                first: seq<Sample>, earlier: seq<Sample>)
    requires left <= |queue| && gone + queue == first + earlier
    ensures gone + queue[..left] + (queue[left..] + accepted) == first + (earlier + accepted)
  {
    assert queue == queue[..left] + queue[left..];
    assert gone + queue[..left] + (queue[left..] + accepted) == gone + queue + accepted;
  }

  /** The real samples of a run are those its operations let be heard. */
  lemma {:induction false} HeardAddsUp(s: Stream, ops: seq<Op>)
    requires s.Valid()
    ensures Real(HeardIn(s, ops)) == HeardOf(Departures(s, ops))
  {
    if ops != [] {
      var front, op := ops[..|ops| - 1], ops[|ops| - 1];
      HeardAddsUp(s, front);
      RealConcat(HeardIn(s, front), HeardBy(End(s, front), op));
      assert Departures(s, ops)[..|front|] == Departures(s, front);
    }
  }

  /** Loss: whatever leaves the queue is heard, except in a reset, which silences the whole queue. */
  lemma {:induction false} OnlyResetsDiscard(s: Stream, ops: seq<Op>, i: nat)
    requires s.Valid() && i < |ops|
    ensures
      var gone := Departures(s, ops)[i];
      if ops[i] == Reset then gone == Departure(End(s, ops[..i]).buffer, []) else gone.heard == gone.left
  {
    if i < |ops| - 1 {
      OnlyResetsDiscard(s, ops[..|ops| - 1], i);
      assert ops[..|ops| - 1][..i] == ops[..i];
    } else {
      StepIsFifo(End(s, ops[..i]), ops[i]);
    }
  }

  /** Between resets the queue is a lossless FIFO. */
  lemma WithoutResetNothingIsLost(s: Stream, ops: seq<Op>)
    requires s.Valid() && Reset !in ops
    ensures s.buffer + Accepted(s, ops) == Real(HeardIn(s, ops)) + End(s, ops).buffer
  {
    QueueIsFifo(s, ops);
    HeardAddsUp(s, ops);
    forall i | 0 <= i < |ops| ensures Departures(s, ops)[i].heard == Departures(s, ops)[i].left {
      OnlyResetsDiscard(s, ops, i);
    }
    AllHeard(Departures(s, ops));
  }

  lemma {:induction false} AllHeard(ds: seq<Departure>)
    requires forall i | 0 <= i < |ds| :: ds[i].heard == ds[i].left
    ensures HeardOf(ds) == Gone(ds)
  {
    if ds != [] {
      AllHeard(ds[..|ds| - 1]);
    }
  }

  // What a reset does not take back.

  /** No sample still queued at a reset is taken off the queue to be heard later. */
  lemma NoSampleFromBeforeAReset(s: Stream, ops: seq<Op>)
    requires s.Valid() && Reset !in ops
    ensures Accepted(Do(s, Reset), ops) == Real(HeardIn(Do(s, Reset), ops)) + End(Do(s, Reset), ops).buffer
  {
    WithoutResetNothingIsLost(Do(s, Reset), ops);
    assert Do(s, Reset).buffer + Accepted(Do(s, Reset), ops) == Accepted(Do(s, Reset), ops);
  }

  /**
    But the reader keeps the bytes of a sample it has half read. The bytes handed over after a
    reset, with those left over again, are an image of what is taken off the queue after it if and
    only if no such bytes were left over at the reset; otherwise those come first.
   */
  lemma BytesFromAfterAResetIff(s: Stream, ops: seq<Op>)
    requires s.Valid()
    ensures
      var after := Do(s, Reset);
      var bytes := Returned(after, ops) + End(after, ops).leftover;
      && bytes == s.leftover + Image(HeardIn(after, ops))
      && (bytes == Image(HeardIn(after, ops)) <==> s.leftover == [])
  {
    ReturnedIsAnImage(Do(s, Reset), ops);
    assert [] + Image(HeardIn(Do(s, Reset), ops)) == Image(HeardIn(Do(s, Reset), ops));
  }

  /** A reader that never asks for one to three bytes never leaves any of a sample behind. */
  lemma {:induction false} LargeReadsLeaveNothing(s: Stream, ops: seq<Op>)
    requires s.Valid() && s.leftover == [] && ReadsWholeSamples(ops)
    ensures End(s, ops).leftover == []
  {
    if ops != [] {
      var op := ops[|ops| - 1];
      assert op in ops;
      LargeReadsLeaveNothing(s, ops[..|ops| - 1]);
    }
  }

  predicate ReadsWholeSamples(ops: seq<Op>) {
    forall op | op in ops :: op.Read? ==> op.size == 0 || 4 <= op.size
  }

  /** The failing input: one sample written, one byte read, a reset, and three bytes read. */
  lemma HalfReadSampleCrossesAReset(x: Sample, capacity: nat)
    requires capacity > 0
    ensures
      var after := Do(Do(Do(Stream([], capacity, false, false, []), Write([x])), Read(1)), Reset);
      after.buffer == [] && after.Next(3) == [] && after.Read(3).1 == Bytes(x)[1..]
  {
    var written := Do(Stream([], capacity, false, false, []), Write([x]));
    assert [x][..1] == [x] && [] + [x] == [x];
    assert written.buffer == [x];
    AllReal([x]);
    assert Plays([x]) == [Played(x)];
    assert Image([Played(x)]) == Bytes(x) by {
      assert [Played(x)][..0] == [];
    }
    assert Do(written, Read(1)).leftover == Bytes(x)[1..];
  }

  /**
    Silence is invented only by a starved read of a ring that goes on, and never mixed with samples:
    a read hears what is queued, or silence for as much of the request as one frame holds.
   */
  lemma SilenceOnlyWhenStarved(s: Stream, n: nat)
    ensures Silence in s.Next(n) ==> s.buffer == [] && !s.finished && !s.closed && s.leftover == []
    ensures Silence !in s.Next(n) || forall h | h in s.Next(n) :: h == Silence
    ensures Silence in s.Next(n) ==> Real(s.Next(n)) == []
    ensures Silence in s.Next(n) && 4 <= n ==>
      4 * |s.Next(n)| == if n < 4 * FrameLedger.FRAME_SAMPLES then n - n % 4 else 4 * FrameLedger.FRAME_SAMPLES
    ensures n > 0 && s.buffer == [] && !s.finished && !s.closed && s.leftover == [] ==> Silence in s.Next(n)
  {
    var wanted := Min(if n / 4 == 0 then 1 else n / 4, FrameLedger.FRAME_SAMPLES);
    NoneReal(wanted);
    if s.buffer == [] && n > 0 {
      assert Silences(wanted)[0] == Silence;
    }
  }

  /** A write that does not take everything leaves the ring full, unless the reader has closed it. */
  lemma WritesTakeWhatFits(s: Stream, samples: seq<Sample>)
    requires s.Valid()
    ensures AcceptedBy(s, Write(samples)) <= samples
    ensures s.closed ==> AcceptedBy(s, Write(samples)) == []
    ensures !s.closed && AcceptedBy(s, Write(samples)) != samples ==> |Do(s, Write(samples)).buffer| == s.capacity
  {
    assert samples[..|samples|] == samples;
  }

  function Remaining(s: Stream): nat {
    |s.leftover| + 4 * |s.buffer|
  }

  /**
    End of stream: an open reader is told the stream ended exactly when the producer finished and
    every byte of every sample has been handed over; until then each read makes progress.
   */
  lemma EndOfStreamIff(s: Stream, n: nat)
    requires s.Valid() && !s.closed && n > 0
    ensures s.Read(n).1 == [] <==> s.finished && Remaining(s) == 0
    ensures Remaining(s) > 0 ==> Remaining(s.Read(n).0) == Remaining(s) - |s.Read(n).1| < Remaining(s)
    ensures s.leftover == [] && 4 <= n <= 4 * |s.buffer| ==> |s.Read(n).1| == n / 4 * 4
  {
    if s.leftover == [] && s.buffer != [] {
      AllReal(s.buffer[..Min(if n / 4 == 0 then 1 else n / 4, |s.buffer|)]);
    }
  }
}
