/**
  The low-quality resampler (`resample.rs`): any source rate and channel count to 48 kHz stereo,
  one buffer at a time. Positions are exact: the cursor counts 48000ths of a source frame.
 */
module Resampling {
  import opened CatmullRom

  const SAMPLE_RATE: nat := 48_000
  const CHANNELS: nat := 2
  const PROLOGUE_FRAMES: nat := 3

  type Rate = r: nat | r > 0 witness 1
  type ChannelCount = c: nat | c > 0 witness 1

  datatype Frame = Frame(left: real, right: real)

  // The reference: the whole stream at once.

  /** The stereo frame of one group of interleaved source samples. */
  function Stereo(group: seq<real>): Frame
    requires group != []
  {
    if |group| == 1 then Frame(group[0], group[0]) else Frame(group[0], group[1])
  }

  /** Mono is doubled, surround loses all but its front pair, and an incomplete group is dropped. */
  function StereoFrames(input: seq<real>, channels: ChannelCount): seq<Frame> {
    if |input| < channels then []
    else [Stereo(input[..channels])] + StereoFrames(input[channels..], channels)
  }

  /** Group by group: mono on both sides, the front pair of anything wider. */
  lemma {:induction false} StereoFramesAt(input: seq<real>, channels: ChannelCount, k: nat)
    ensures k < |StereoFrames(input, channels)| <==> (k + 1) * channels <= |input|
    ensures k < |StereoFrames(input, channels)| ==>
      var left := k * channels;
      left < |input| && (channels > 1 ==> left + 1 < |input|)
      && StereoFrames(input, channels)[k] == Frame(input[left], input[if channels == 1 then left else left + 1])
    decreases |input|
  {
    assert (k + 1) * channels == k * channels + channels;
    if |input| >= channels && k > 0 {
      assert k * channels == (k - 1) * channels + channels;
      StereoFramesAt(input[channels..], channels, k - 1);
    }
  }

  /** Left, then right, of every frame in turn. */
  lemma {:induction false} InterleavedAt(frames: seq<Frame>, k: nat)
    ensures |Interleaved(frames)| == 2 * |frames|
    ensures k < |frames| ==>
      Interleaved(frames)[2 * k] == frames[k].left && Interleaved(frames)[2 * k + 1] == frames[k].right
  {
    if frames != [] {
      InterleavedAt(frames[..|frames| - 1], k);
    }
  }

  function Interleaved(frames: seq<Frame>): seq<real> {
    if frames == [] then []
    else Interleaved(frames[..|frames| - 1]) + [frames[|frames| - 1].left, frames[|frames| - 1].right]
  }

  /** Where output frame `n` sits in the source, in 48000ths of a frame. */
  function Position(n: nat, rate: Rate): nat {
    if n == 0 then 0 else Position(n - 1, rate) + rate
  }

  lemma {:induction false} PositionIsProduct(n: nat, rate: Rate)
    ensures Position(n, rate) == n * rate
  {
    if n > 0 {
      PositionIsProduct(n - 1, rate);
      assert n * rate == (n - 1) * rate + rate;
    }
  }

  lemma {:induction false} PositionsAscend(a: nat, b: nat, rate: Rate)
    requires a < b
    ensures Position(a, rate) < Position(b, rate)
  {
    if a < b - 1 {
      PositionsAscend(a, b - 1, rate);
    }
  }

  function FirstAtOrPast(end: int, rate: Rate, n: nat): (r: nat)
    requires n > 0 ==> Position(n - 1, rate) < end
    ensures Position(r, rate) >= end && (r > 0 ==> Position(r - 1, rate) < end)
    decreases end - Position(n, rate)
  {
    if Position(n, rate) >= end then n else FirstAtOrPast(end, rate, n + 1)
  }

  /** How many output frames lie before the last two source frames. */
  function Count(total: nat, rate: Rate): nat {
    FirstAtOrPast((total - 2) * SAMPLE_RATE, rate, 0)
  }

  /** Frame `n` is emitted exactly when it lies before the last two source frames. */
  lemma CountIffBefore(total: nat, rate: Rate, n: nat)
    ensures n < Count(total, rate) <==> Position(n, rate) < (total - 2) * SAMPLE_RATE
  {
    var count := Count(total, rate);
    if n + 1 < count {
      PositionsAscend(n, count - 1, rate);
    } else if n > count {
      PositionsAscend(count, n, rate);
    }
  }

  /** The stream at a position in 48000ths of a frame; the first frame is its own left neighbour. */
  function At(stream: seq<Frame>, position: nat): Frame
    requires position < (|stream| - 2) * SAMPLE_RATE
  {
    var index := position / SAMPLE_RATE;
    var weights := WeightsAt((position % SAMPLE_RATE) as real / SAMPLE_RATE as real);
    var p0, p1, p2, p3 := stream[if index == 0 then 0 else index - 1],
      stream[index], stream[index + 1], stream[index + 2];
    Frame(Blend(p0.left, p1.left, p2.left, p3.left, weights),
          Blend(p0.right, p1.right, p2.right, p3.right, weights))
  }

  // What interpolation is: the source's own frames, and the quadratic through their neighbours.

  /** On a frame the stream is that frame. */
  lemma AtAFrame(stream: seq<Frame>, k: nat)
    requires k + 2 < |stream|
    ensures At(stream, k * SAMPLE_RATE) == stream[k]
  {
    assert k * SAMPLE_RATE / SAMPLE_RATE == k && k * SAMPLE_RATE % SAMPLE_RATE == 0;
  }

  /** Frames sampled from a parabola in each channel, from some time on. */
  ghost predicate OnParabolas(stream: seq<Frame>, left: Parabola, right: Parabola) {
    forall i | 0 <= i < |stream| :: stream[i] == Frame(left.Value(i as real), right.Value(i as real))
  }

  datatype Parabola = Parabola(constant: real, slope: real, bend: real)
  {
    function Value(x: real): real {
      constant + slope * x + bend * x * x
    }
  }

  lemma ParabolaFrom(p: Parabola, x: real, d: real)
    ensures p.Value(x + d) == p.Value(x) + d * (p.slope + 2.0 * p.bend * x) + d * d * p.bend
  {
    var b := p.bend;
    assert b * (x + d) * (x + d) == b * x * x + d * (2.0 * b * x) + d * d * b;
  }

  lemma CurveOfDifferences(start: real, slope: real, bend: real, t: real)
    ensures Curve(start - slope + bend, start, start + slope + bend, start + 2.0 * slope + 4.0 * bend, t)
         == start + t * slope + t * t * bend
  {
    hide Curve;
    CurveLeaves(start - slope + bend, start, start + slope + bend, start + 2.0 * slope + 4.0 * bend, t);
  }

  /** Four points of a parabola around a segment: the curve is the parabola there. */
  lemma CurveOnAParabola(p: Parabola, x: real, t: real)
    ensures Curve(p.Value(x - 1.0), p.Value(x), p.Value(x + 1.0), p.Value(x + 2.0), t) == p.Value(x + t)
  {
    hide Curve, Parabola.Value;
    ParabolaFrom(p, x, -1.0);
    ParabolaFrom(p, x, 1.0);
    ParabolaFrom(p, x, 2.0);
    ParabolaFrom(p, x, t);
    var start, slope := p.Value(x), p.slope + 2.0 * p.bend * x;
    assert x + -1.0 == x - 1.0 && p.Value(x - 1.0) == start - slope + p.bend;
    assert p.Value(x + 1.0) == start + slope + p.bend;
    assert p.Value(x + 2.0) == start + 2.0 * slope + 4.0 * p.bend;
    CurveOfDifferences(start, slope, p.bend, t);
  }

  /** A channel that runs along a parabola is resampled along it, each channel along its own. */
  lemma AtOnParabolas(stream: seq<Frame>, position: nat, left: Parabola, right: Parabola)
    requires OnParabolas(stream, left, right)
    requires SAMPLE_RATE <= position < (|stream| - 2) * SAMPLE_RATE
    ensures
      var time := position as real / SAMPLE_RATE as real;
      At(stream, position) == Frame(left.Value(time), right.Value(time))
  {
    hide WeightsAt, Parabola.Value;
    var index, t := position / SAMPLE_RATE, (position % SAMPLE_RATE) as real / SAMPLE_RATE as real;
    assert position as real / SAMPLE_RATE as real == index as real + t by {
      assert position == index * SAMPLE_RATE + position % SAMPLE_RATE;
    }
    CurveOnAParabola(left, index as real, t);
    CurveOnAParabola(right, index as real, t);
  }

  /** The start: the stream plays as if its first frame had come twice. */
  lemma FirstFrameIsItsOwnNeighbour(stream: seq<Frame>, position: nat)
    requires position < (|stream| - 2) * SAMPLE_RATE
    ensures At(stream, position) == At([stream[0]] + stream, position + SAMPLE_RATE)
  {
    hide WeightsAt, Blend;
    var longer, index := [stream[0]] + stream, position / SAMPLE_RATE;
    OneFrameOn(position);
    assert longer[index] == stream[if index == 0 then 0 else index - 1];
    assert longer[index + 1] == stream[index] && longer[index + 2] == stream[index + 1];
    assert longer[index + 3] == stream[index + 2];
  }

  lemma OneFrameOn(position: nat)
    ensures (position + SAMPLE_RATE) / SAMPLE_RATE == position / SAMPLE_RATE + 1
    ensures (position + SAMPLE_RATE) % SAMPLE_RATE == position % SAMPLE_RATE
  {
  }

  /** Output frames from `from` up to `until`: each at its position. */
  function Span(stream: seq<Frame>, rate: Rate, from: nat, until: nat): (r: seq<Frame>)
    requires from <= until <= Count(|stream|, rate)
    ensures |r| == until - from
  {
    if from == until then []
    else
      CountIffBefore(|stream|, rate, until - 1);
      Span(stream, rate, from, until - 1) + [At(stream, Position(until - 1, rate))]
  }

  function OneShot(stream: seq<Frame>, rate: Rate): seq<Frame> {
    Span(stream, rate, 0, Count(|stream|, rate))
  }

  lemma {:induction false} SpanAt(stream: seq<Frame>, rate: Rate, from: nat, until: nat, n: nat)
    requires from <= n < until <= Count(|stream|, rate)
    ensures Position(n, rate) < (|stream| - 2) * SAMPLE_RATE
    ensures Span(stream, rate, from, until)[n - from] == At(stream, Position(n, rate))
    decreases until
  {
    CountIffBefore(|stream|, rate, n);
    if n < until - 1 {
      SpanAt(stream, rate, from, until - 1, n);
    }
  }

  /** The one-shot output: frame `n` sits at `n * rate`, for exactly the `n` before the last two frames. */
  lemma OneShotIsExact(stream: seq<Frame>, rate: Rate, n: nat)
    ensures n < |OneShot(stream, rate)| <==> n * rate < (|stream| - 2) * SAMPLE_RATE
    ensures n < |OneShot(stream, rate)| ==> OneShot(stream, rate)[n] == At(stream, n * rate)
  {
    PositionIsProduct(n, rate);
    CountIffBefore(|stream|, rate, n);
    if n < Count(|stream|, rate) {
      SpanAt(stream, rate, 0, Count(|stream|, rate), n);
    }
  }

  /** Where an output frame falls on a source frame it is that frame. */
  lemma OneShotHitsTheFrames(stream: seq<Frame>, rate: Rate, n: nat, k: nat)
    requires n < |OneShot(stream, rate)| && n * rate == k * SAMPLE_RATE
    ensures k < |stream| && OneShot(stream, rate)[n] == stream[k]
  {
    OneShotIsExact(stream, rate, n);
    AtAFrame(stream, k);
  }

  /** What a whole source stream becomes. */
  function Resampled(stream: seq<Frame>, rate: Rate): seq<Frame> {
    if rate == SAMPLE_RATE then stream else OneShot(stream, rate)
  }

  lemma {:induction false} InterleavedConcat(a: seq<Frame>, b: seq<Frame>)
    ensures Interleaved(a + b) == Interleaved(a) + Interleaved(b)
  {
    if b == [] {
      assert a + b == a;
    } else {
      InterleavedConcat(a, b[..|b| - 1]);
      assert (a + b)[..|a + b| - 1] == a + b[..|b| - 1];
    }
  }

  /** A whole number of groups of `channels` samples. */
  predicate WholeGroups(samples: nat, channels: ChannelCount) {
    if samples < channels then samples == 0 else WholeGroups(samples - channels, channels)
  }

  lemma {:induction false} GroupsAdd(a: nat, b: nat, channels: ChannelCount)
    requires WholeGroups(a, channels) && WholeGroups(b, channels)
    ensures WholeGroups(a + b, channels)
  {
    if a > 0 {
      GroupsAdd(a - channels, b, channels);
    }
  }

  lemma {:induction false} StereoFramesConcat(a: seq<real>, b: seq<real>, channels: ChannelCount)
    requires WholeGroups(|a|, channels)
    ensures StereoFrames(a + b, channels) == StereoFrames(a, channels) + StereoFrames(b, channels)
    decreases |a|
  {
    if |a| < channels {
      assert a + b == b;
    } else {
      StereoFramesConcat(a[channels..], b, channels);
      assert (a + b)[channels..] == a[channels..] + b && (a + b)[..channels] == a[..channels];
    }
  }

  /** A 48 kHz stereo source already is its own output, up to an odd last sample. */
  lemma {:induction false} PassthroughIsIdentity(input: seq<real>)
    ensures Interleaved(StereoFrames(input, 2)) == input[..|input| - |input| % CHANNELS]
    decreases |input|
  {
    if |input| >= 2 {
      PassthroughIsIdentity(input[2..]);
      InterleavedConcat([Stereo(input[..2])], StereoFrames(input[2..], 2));
      assert Interleaved([Stereo(input[..2])]) == input[..2] by {
        assert [Stereo(input[..2])][..0] == [];
      }
      var rest := input[2..];
      assert input[..2] + rest[..|rest| - |rest| % CHANNELS] == input[..|input| - |input| % CHANNELS];
    }
  }

  // More of the stream never changes what was already emitted.

  lemma CountGrows(total: nat, more: nat, rate: Rate)
    ensures Count(total, rate) <= Count(total + more, rate)
  {
    if Count(total, rate) > 0 {
      CountIffBefore(total, rate, Count(total, rate) - 1);
      CountIffBefore(total + more, rate, Count(total, rate) - 1);
    }
  }

  lemma {:induction false} SpanOfMore(stream: seq<Frame>, more: seq<Frame>, rate: Rate, from: nat, until: nat)
    requires from <= until <= Count(|stream|, rate)
    ensures until <= Count(|stream + more|, rate)
    ensures Span(stream + more, rate, from, until) == Span(stream, rate, from, until)
    decreases until
  {
    CountGrows(|stream|, |more|, rate);
    if from < until {
      SpanOfMore(stream, more, rate, from, until - 1);
      CountIffBefore(|stream|, rate, until - 1);
    }
  }

  lemma {:induction false} SpanSplits(stream: seq<Frame>, rate: Rate, from: nat, mid: nat, until: nat)
    requires from <= mid <= until <= Count(|stream|, rate)
    ensures Span(stream, rate, from, until) == Span(stream, rate, from, mid) + Span(stream, rate, mid, until)
    decreases until
  {
    if mid < until {
      SpanSplits(stream, rate, from, mid, until - 1);
    }
  }

  /** What one more buffer adds to the output: the frames it makes reachable, and no others. */
  lemma MoreInputAddsFrames(stream: seq<Frame>, more: seq<Frame>, rate: Rate)
    ensures Count(|stream|, rate) <= Count(|stream + more|, rate)
    ensures OneShot(stream + more, rate) ==
      OneShot(stream, rate) + Span(stream + more, rate, Count(|stream|, rate), Count(|stream + more|, rate))
  {
    CountGrows(|stream|, |more|, rate);
    SpanOfMore(stream, more, rate, 0, Count(|stream|, rate));
    SpanSplits(stream + more, rate, 0, Count(|stream|, rate), Count(|stream + more|, rate));
  }

  /** The samples that one more buffer brings out. */
  function NewOutput(history: seq<Frame>, more: seq<Frame>, rate: Rate): seq<real> {
    if rate == SAMPLE_RATE then Interleaved(more)
    else
      CountGrows(|history|, |more|, rate);
      Interleaved(Span(history + more, rate, Count(|history|, rate), Count(|history + more|, rate)))
  }

  lemma NoInputNoOutput(history: seq<Frame>, rate: Rate)
    ensures NewOutput(history, [], rate) == []
  {
    assert history + [] == history;
  }

  lemma NewOutputIsTheRest(history: seq<Frame>, more: seq<Frame>, rate: Rate)
    requires rate != SAMPLE_RATE
    ensures
      var from, until := Count(|history|, rate), Count(|history + more|, rate);
      from <= until && NewOutput(history, more, rate) == Interleaved(Span(history + more, rate, from, until))
  {
    CountGrows(|history|, |more|, rate);
  }

  lemma OutputGrows(history: seq<Frame>, more: seq<Frame>, rate: Rate)
    ensures Interleaved(Resampled(history + more, rate))
         == Interleaved(Resampled(history, rate)) + NewOutput(history, more, rate)
  {
    if rate == SAMPLE_RATE {
      InterleavedConcat(history, more);
    } else {
      MoreInputAddsFrames(history, more, rate);
      InterleavedConcat(OneShot(history, rate),
                        Span(history + more, rate, Count(|history|, rate), Count(|history + more|, rate)));
    }
  }

  lemma SpanOneMore(stream: seq<Frame>, rate: Rate, from: nat, n: nat)
    requires from <= n < Count(|stream|, rate)
    ensures Position(n, rate) < (|stream| - 2) * SAMPLE_RATE
    ensures
      var frame := At(stream, Position(n, rate));
      Interleaved(Span(stream, rate, from, n + 1))
      == Interleaved(Span(stream, rate, from, n)) + [frame.left, frame.right]
  {
    CountIffBefore(|stream|, rate, n);
    assert Span(stream, rate, from, n + 1)[..n - from] == Span(stream, rate, from, n);
  }

  /**
    A buffer that starts `dropped` frames into the stream interpolates the same frame there,
    provided its first frame is only ever its own left neighbour at the start of the stream.
   */
  lemma AtInBuffer(stream: seq<Frame>, dropped: nat, position: nat)
    requires dropped <= |stream| && position < (|stream[dropped..]| - 2) * SAMPLE_RATE
    requires dropped > 0 ==> position >= SAMPLE_RATE
    ensures At(stream[dropped..], position) == At(stream, position + dropped * SAMPLE_RATE)
  {
    var index := position / SAMPLE_RATE;
    assert (position + dropped * SAMPLE_RATE) / SAMPLE_RATE == index + dropped;
    assert (position + dropped * SAMPLE_RATE) % SAMPLE_RATE == position % SAMPLE_RATE;
    assert index > 0 ==> stream[dropped..][index - 1] == stream[index + dropped - 1];
  }

  /** Once frames are dropped, the next output lies at least one frame past the kept tail's first. */
  lemma CarriedPastTheFirst(total: nat, rate: Rate)
    ensures total > PROLOGUE_FRAMES ==>
      Position(Count(total, rate), rate) >= (total - PROLOGUE_FRAMES + 1) * SAMPLE_RATE
  {
  }

  function Min(a: nat, b: nat): nat {
    if a <= b then a else b
  }

  /** The frames a buffer boundary keeps. */
  function Tail(stream: seq<Frame>): seq<Frame> {
    stream[|stream| - Min(PROLOGUE_FRAMES, |stream|)..]
  }

  method InterpolateAt(source: seq<Frame>, position: nat) returns (frame: Frame)
    requires position < (|source| - 2) * SAMPLE_RATE
    ensures frame == At(source, position)
  {
    var index := position / SAMPLE_RATE;
    var weights := WeightsAt((position % SAMPLE_RATE) as real / SAMPLE_RATE as real);
    if index == 0 {
      frame := Frame(Blend(source[0].left, source[0].left, source[1].left, source[2].left, weights),
                     Blend(source[0].right, source[0].right, source[1].right, source[2].right, weights));
    } else {
      var window := source[index - 1..index + 3];
      frame := Frame(Blend(window[0].left, window[1].left, window[2].left, window[3].left, weights),
                     Blend(window[0].right, window[1].right, window[2].right, window[3].right, weights));
    }
  }

  /** Where the loop stands: output frame `n` of the stream is next, at `position` in the buffer. */
  ghost predicate Next(stream: seq<Frame>, dropped: nat, rate: Rate, n: nat, position: nat) {
    && dropped < |stream|
    && position + dropped * SAMPLE_RATE == Position(n, rate)
    && (dropped > 0 ==> position >= SAMPLE_RATE)
    && n <= Count(|stream|, rate)
  }

  /** The samples of a buffer from a position on, and the position where they end. */
  function Rest(source: seq<Frame>, position: nat, rate: Rate): seq<real>
    decreases (|source| - 2) * SAMPLE_RATE - position
  {
    if position >= (|source| - 2) * SAMPLE_RATE then []
    else
      var frame := At(source, position);
      [frame.left, frame.right] + Rest(source, position + rate, rate)
  }

  function EndPosition(source: seq<Frame>, position: nat, rate: Rate): nat
    decreases (|source| - 2) * SAMPLE_RATE - position
  {
    if position >= (|source| - 2) * SAMPLE_RATE then position else EndPosition(source, position + rate, rate)
  }

  /** The interpolation loop, from the cursor to the last position with both right-hand neighbours. */
  method Interpolate(source: seq<Frame>, cursor: nat, rate: Rate) returns (out: seq<real>, last: nat)
    ensures out == Rest(source, cursor, rate) && last == EndPosition(source, cursor, rate)
  {
    hide At;
    var usable := if |source| < 2 then 0 else |source| - 2;
    out, last := [], cursor;
    while last < usable * SAMPLE_RATE
      invariant out + Rest(source, last, rate) == Rest(source, cursor, rate)
      invariant EndPosition(source, last, rate) == EndPosition(source, cursor, rate)
      decreases usable * SAMPLE_RATE - last
    {
      var frame := InterpolateAt(source, last);
      out := out + [frame.left, frame.right];
      last := last + rate;
    }
  }

  lemma FirstOfSpan(stream: seq<Frame>, rate: Rate, n: nat)
    requires n < Count(|stream|, rate)
    ensures Position(n, rate) < (|stream| - 2) * SAMPLE_RATE
    ensures
      var frame, count := At(stream, Position(n, rate)), Count(|stream|, rate);
      Interleaved(Span(stream, rate, n, count))
      == [frame.left, frame.right] + Interleaved(Span(stream, rate, n + 1, count))
  {
    hide At, Count, Position;
    var count := Count(|stream|, rate);
    CountIffBefore(|stream|, rate, n);
    SpanSplits(stream, rate, n, n + 1, count);
    InterleavedConcat(Span(stream, rate, n, n + 1), Span(stream, rate, n + 1, count));
    SpanOneMore(stream, rate, n, n);
  }

  lemma NextMoves(stream: seq<Frame>, dropped: nat, rate: Rate, n: nat, position: nat)
    requires Next(stream, dropped, rate, n, position)
    ensures n < Count(|stream|, rate) <==> position < (|stream[dropped..]| - 2) * SAMPLE_RATE
    ensures n < Count(|stream|, rate) ==>
      && Next(stream, dropped, rate, n + 1, position + rate)
      && Position(n, rate) < (|stream| - 2) * SAMPLE_RATE
      && At(stream[dropped..], position) == At(stream, Position(n, rate))
  {
    CountIffBefore(|stream|, rate, n);
    if n < Count(|stream|, rate) {
      AtInBuffer(stream, dropped, position);
    }
  }

  /** The rest of a buffer is the rest of the stream, from the output frame that is next. */
  lemma {:induction false} RestOfTheStream(stream: seq<Frame>, dropped: nat, rate: Rate, n: nat, position: nat)
    requires Next(stream, dropped, rate, n, position)
    ensures Rest(stream[dropped..], position, rate) == Interleaved(Span(stream, rate, n, Count(|stream|, rate)))
    ensures Next(stream, dropped, rate, Count(|stream|, rate), EndPosition(stream[dropped..], position, rate))
    decreases Count(|stream|, rate) - n
  {
    hide At, Count, Position;
    NextMoves(stream, dropped, rate, n, position);
    if n < Count(|stream|, rate) {
      FirstOfSpan(stream, rate, n);
      RestOfTheStream(stream, dropped, rate, n + 1, position + rate);
    }
  }

  /** The kept tail and the cursor from its start, exactly where the next output frame of the stream is. */
  ghost predicate Carried(kept: seq<Frame>, cursor: nat, stream: seq<Frame>, rate: Rate) {
    kept == Tail(stream) && cursor + (|stream| - |kept|) * SAMPLE_RATE == Position(Count(|stream|, rate), rate)
  }

  lemma NothingIsCarried(rate: Rate)
    ensures Count(0, rate) == 0 && Position(0, rate) == 0 && Carried([], 0, [], rate)
  {
  }

  lemma CarriedIsNext(kept: seq<Frame>, cursor: nat, history: seq<Frame>, more: seq<Frame>, rate: Rate)
    requires Carried(kept, cursor, history, rate) && more != []
    ensures
      var stream := history + more;
      && kept + more == stream[|history| - |kept|..]
      && Next(stream, |history| - |kept|, rate, Count(|history|, rate), cursor)
  {
    CarriedPastTheFirst(|history|, rate);
    CountGrows(|history|, |more|, rate);
  }

  class Resampler {
    const sourceRate: Rate
    const sourceChannels: ChannelCount
    const prologue: array<Frame>
    var prologueLen: nat
    /** The read position from the start of the prologue, in 48000ths of a frame. */
    var cursor: nat
    /** The working buffer: the live prologue, then the converted input. */
    var frames: seq<Frame>
    /** Every source frame since the start of the stream or the last reset. */
    ghost var history: seq<Frame>

    ghost predicate Valid()
      reads this, prologue
    {
      && prologue.Length == PROLOGUE_FRAMES && prologueLen <= PROLOGUE_FRAMES
      && if sourceRate == SAMPLE_RATE then cursor == 0 && prologueLen == 0
         else Carried(prologue[..prologueLen], cursor, history, sourceRate)
    }

    constructor (rate: nat, channels: nat)
      ensures Valid() && history == [] && fresh(prologue)
      ensures sourceRate == (if rate == 0 then 1 else rate) && sourceChannels == (if channels == 0 then 1 else channels)
    {
      hide Carried, Count, Position;
      sourceRate := if rate == 0 then 1 else rate;
      sourceChannels := if channels == 0 then 1 else channels;
      prologue := new Frame[PROLOGUE_FRAMES](_ => Frame(0.0, 0.0));
      prologueLen, cursor, frames := 0, 0, [];
      history := [];
      new;
      NothingIsCarried(sourceRate);
      assert prologue[..0] == [];
    }

    method Reset()
      requires Valid()
      modifies this
      ensures Valid() && history == []
    {
      hide Carried, Count, Position;
      cursor, prologueLen := 0, 0;
      history := [];
      NothingIsCarried(sourceRate);
      assert prologue[..0] == [];
    }

    method FillStereoFrames(input: seq<real>, live: nat)
      requires live <= prologue.Length
      modifies this`frames
      ensures frames == prologue[..live] + StereoFrames(input, sourceChannels)
    {
      frames := prologue[..live];
      var i := 0;
      while i + sourceChannels <= |input|
        invariant 0 <= i <= |input|
        invariant frames + StereoFrames(input[i..], sourceChannels)
          == prologue[..live] + StereoFrames(input, sourceChannels)
      {
        var group := input[i..i + sourceChannels];
        assert input[i..][..sourceChannels] == group && input[i..][sourceChannels..] == input[i + sourceChannels..];
        frames := frames + [if sourceChannels == 1 then Frame(group[0], group[0]) else Frame(group[0], group[1])];
        i := i + sourceChannels;
      }
    }

    /** Keeps the last frames for the next call and rebases the position onto them. */
    method CarryTail(last: nat, ghost stream: seq<Frame>)
      requires prologue.Length == PROLOGUE_FRAMES
      requires Min(PROLOGUE_FRAMES, |stream|) <= |frames| <= |stream| && frames == stream[|stream| - |frames|..]
      requires Next(stream, |stream| - |frames|, sourceRate, Count(|stream|, sourceRate), last)
      modifies this`prologueLen, this`cursor, prologue
      ensures prologueLen <= PROLOGUE_FRAMES && Carried(prologue[..prologueLen], cursor, stream, sourceRate)
    {
      var keep := Min(PROLOGUE_FRAMES, |frames|);
      var dropped := |frames| - keep;
      CarriedPastTheFirst(|stream|, sourceRate);
      forall i | 0 <= i < keep {
        prologue[i] := frames[dropped + i];
      }
      assert prologue[..keep] == frames[dropped..] == Tail(stream);
      prologueLen := keep;
      cursor := last - dropped * SAMPLE_RATE;
    }

    /** The path that changes the rate: convert, interpolate, carry the tail. */
    method ProcessRate(input: seq<real>) returns (out: seq<real>)
      requires Valid() && sourceRate != SAMPLE_RATE
      modifies this, prologue
      ensures Valid() && history == old(history) + StereoFrames(input, sourceChannels)
      ensures out == NewOutput(old(history), StereoFrames(input, sourceChannels), sourceRate)
    {
      hide Next, Count, Position, Rest, EndPosition, StereoFrames, NewOutput;
      ghost var more := StereoFrames(input, sourceChannels);
      FillStereoFrames(input, prologueLen);
      if |frames| <= prologueLen {
        assert history + more == history;
        NoInputNoOutput(history, sourceRate);
        return [];
      }
      CarriedIsNext(prologue[..prologueLen], cursor, history, more, sourceRate);
      NewOutputIsTheRest(history, more, sourceRate);
      ghost var stream := history + more;
      RestOfTheStream(stream, |stream| - |frames|, sourceRate, Count(|history|, sourceRate), cursor);
      var last;
      out, last := Interpolate(frames, cursor, sourceRate);
      CarryTail(last, stream);
      history := stream;
    }

    method ProcessInto(input: seq<real>) returns (out: seq<real>)
      requires Valid()
      modifies this, prologue
      ensures Valid() && history == old(history) + StereoFrames(input, sourceChannels)
      ensures Interleaved(Resampled(history, sourceRate)) == Interleaved(Resampled(old(history), sourceRate)) + out
    {
      ghost var more := StereoFrames(input, sourceChannels);
      OutputGrows(history, more, sourceRate);
      if sourceRate == SAMPLE_RATE && sourceChannels == CHANNELS {
        cursor, prologueLen := 0, 0;
        out := input[..|input| - |input| % CHANNELS];
        PassthroughIsIdentity(input);
        history := history + more;
        return;
      }

      if sourceRate == SAMPLE_RATE {
        FillStereoFrames(input, 0);
        cursor, prologueLen := 0, 0;
        assert frames == more;
        out := Flattened(frames);
        history := history + more;
        return;
      }

      out := ProcessRate(input);
    }
  }

  method Flattened(frames: seq<Frame>) returns (out: seq<real>)
    ensures out == Interleaved(frames)
  {
    out := [];
    for i := 0 to |frames|
      invariant out == Interleaved(frames[..i])
    {
      assert frames[..i + 1][..i] == frames[..i];
      out := out + [frames[i].left, frames[i].right];
    }
    assert frames[..|frames|] == frames;
  }

  function Concat(chunks: seq<seq<real>>): seq<real> {
    if chunks == [] then [] else Concat(chunks[..|chunks| - 1]) + chunks[|chunks| - 1]
  }

  lemma {:induction false} AlignedConcat(chunks: seq<seq<real>>, channels: ChannelCount)
    requires forall c | c in chunks :: WholeGroups(|c|, channels)
    ensures WholeGroups(|Concat(chunks)|, channels)
  {
    if chunks != [] {
      AlignedConcat(chunks[..|chunks| - 1], channels);
      GroupsAdd(|Concat(chunks[..|chunks| - 1])|, |chunks[|chunks| - 1]|, channels);
    }
  }

  /**
    However a frame-aligned stream is cut into buffers, empty and one-frame ones included, the
    outputs together are the one-shot output of the whole stream.
   */
  method ProcessAll(rate: nat, channels: nat, chunks: seq<seq<real>>) returns (out: seq<real>)
    requires forall c | c in chunks :: WholeGroups(|c|, if channels == 0 then 1 else channels)
    ensures
      out == Interleaved(Resampled(StereoFrames(Concat(chunks), if channels == 0 then 1 else channels),
                                   if rate == 0 then 1 else rate))
  {
    var resampler := new Resampler(rate, channels);
    out := [];
    for i := 0 to |chunks|
      invariant fresh(resampler) && fresh(resampler.prologue) && resampler.Valid()
      invariant resampler.history == StereoFrames(Concat(chunks[..i]), resampler.sourceChannels)
      invariant out == Interleaved(Resampled(resampler.history, resampler.sourceRate))
    {
      AlignedConcat(chunks[..i], resampler.sourceChannels);
      StereoFramesConcat(Concat(chunks[..i]), chunks[i], resampler.sourceChannels);
      assert chunks[..i + 1][..i] == chunks[..i];
      var more := resampler.ProcessInto(chunks[i]);
      out := out + more;
    }
    assert chunks[..|chunks|] == chunks;
  }
}
