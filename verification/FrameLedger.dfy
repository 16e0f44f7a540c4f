/**
  The per-minute frame ledger of the ring (`ring.rs`): two buckets indexed by the parity of the
  minute, each a 64-bit word holding the frames sent in its high half and the frames nulled in
  its low half, and a carried remainder for each sample path.
 */
module FrameLedger {
  const FRAME_SAMPLES: nat := 1920
  const MINUTE_MS: nat := 60_000
  const TWO_32: nat := 0x1_0000_0000
  const TWO_64: nat := 0x1_0000_0000_0000_0000

  type Word = w: nat | w < TWO_64

  datatype Path = Sent | Nulled

  /** A call on the counters, in the order the calls are made. */
  datatype Reading =
    | Samples(now: int, path: Path, samples: nat)
    | WholeFrames(now: int, frames: nat)
    | Query(now: int)

  datatype Bucket = Bucket(minute: int, frames: Word)

  function MinuteOf(r: Reading): int {
    r.now / MINUTE_MS
  }

  ghost predicate Sorted(h: seq<Reading>) {
    forall i, j :: 0 <= i < j < |h| ==> h[i].now <= h[j].now
  }

  // What should be reported: the frames completed in a minute, with no carried state.

  /** All the samples handed to one path. */
  function Total(h: seq<Reading>, path: Path): nat {
    if h == [] then 0
    else
      var last := h[|h| - 1];
      Total(h[..|h| - 1], path) + if last.Samples? && last.path == path then last.samples else 0
  }

  /** The frames of one path that the last reading completed. */
  function NewFrames(h: seq<Reading>, path: Path): int
    requires h != []
  {
    match h[|h| - 1]
    case Samples(_, _, _) => Total(h, path) / FRAME_SAMPLES - Total(h[..|h| - 1], path) / FRAME_SAMPLES
    case WholeFrames(_, frames) => if path == Sent then frames else 0
    case Query(_) => 0
  }

  function Completed(h: seq<Reading>, path: Path, minute: int): int {
    if h == [] then 0
    else
      Completed(h[..|h| - 1], path, minute)
      + if MinuteOf(h[|h| - 1]) == minute then NewFrames(h, path) else 0
  }

  // What the counters hold.

  function Shifted(path: Path, frames: nat): nat {
    if path == Sent then frames * TWO_32 else frames
  }

  /** The whole frames that the samples of the last reading make up with the carried remainder. */
  function Carried(h: seq<Reading>): nat
    requires h != [] && h[|h| - 1].Samples?
  {
    (Total(h[..|h| - 1], h[|h| - 1].path) % FRAME_SAMPLES + h[|h| - 1].samples) / FRAME_SAMPLES
  }

  /** `record` touches no bucket when the frames of one call do not fit 32 bits. */
  predicate Skipped(h: seq<Reading>)
    requires h != []
  {
    h[|h| - 1].Samples? && Carried(h) >= TWO_32
  }

  function Added(h: seq<Reading>): nat
    requires h != []
  {
    match h[|h| - 1]
    case Samples(_, path, _) => Shifted(path, Carried(h))
    case WholeFrames(_, frames) => Shifted(Sent, frames)
    case Query(_) => 0
  }

  function Rotated(b: Bucket, minute: int): Bucket {
    if b.minute == minute then b else Bucket(minute, 0)
  }

  function Plus(b: Bucket, amount: nat): Bucket {
    b.(frames := (b.frames + amount) % TWO_64)
  }

  function BucketAfter(h: seq<Reading>, parity: int): Bucket {
    if h == [] then Bucket(-1, 0)
    else
      var before := BucketAfter(h[..|h| - 1], parity);
      var minute := MinuteOf(h[|h| - 1]);
      if minute % 2 == parity && !Skipped(h) then Plus(Rotated(before, minute), Added(h)) else before
  }

  function Unpack(frames: Word): (nat, nat) {
    (frames / TWO_32, frames % TWO_32)
  }

  function Reported(h: seq<Reading>, now: int): (nat, nat) {
    var previous := now / MINUTE_MS - 1;
    var bucket := BucketAfter(h, previous % 2);
    Unpack(if bucket.minute == previous then bucket.frames else 0)
  }

  lemma CarryingLosesNothing(total: nat, samples: nat)
    ensures (total % FRAME_SAMPLES + samples) / FRAME_SAMPLES
         == (total + samples) / FRAME_SAMPLES - total / FRAME_SAMPLES
    ensures (total % FRAME_SAMPLES + samples) % FRAME_SAMPLES == (total + samples) % FRAME_SAMPLES
  {
    assert total == total / FRAME_SAMPLES * FRAME_SAMPLES + total % FRAME_SAMPLES;
  }

  lemma {:induction false} NewFramesAreCounts(h: seq<Reading>, path: Path)
    requires h != []
    ensures NewFrames(h, path) >= 0
    ensures h[|h| - 1].Samples? && h[|h| - 1].path != path ==> NewFrames(h, path) == 0
  {
    if h[|h| - 1].Samples? {
      CarryingLosesNothing(Total(h[..|h| - 1], path), Total(h, path) - Total(h[..|h| - 1], path));
    }
  }

  lemma {:induction false} CompletedIsACount(h: seq<Reading>, path: Path, minute: int)
    ensures Completed(h, path, minute) >= 0
  {
    if h != [] {
      CompletedIsACount(h[..|h| - 1], path, minute);
      NewFramesAreCounts(h, path);
    }
  }

  /** The word of a minute whose counts fit. */
  function Packed(h: seq<Reading>, minute: int): int {
    Completed(h, Sent, minute) * TWO_32 + Completed(h, Nulled, minute)
  }

  ghost predicate Fits(h: seq<Reading>, minute: int) {
    Completed(h, Sent, minute) < TWO_32 && Completed(h, Nulled, minute) < TWO_32
  }

  /** One reading adds to its minute exactly the frames it completed, while both counts fit. */
  lemma {:induction false} OneReadingAdds(h: seq<Reading>, minute: int)
    requires h != [] && MinuteOf(h[|h| - 1]) == minute && Fits(h, minute)
    ensures !Skipped(h) && Fits(h[..|h| - 1], minute)
    ensures 0 <= Packed(h[..|h| - 1], minute) && Packed(h[..|h| - 1], minute) + Added(h) == Packed(h, minute) < TWO_64
  {
    var front := h[..|h| - 1];
    CompletedIsACount(front, Sent, minute);
    CompletedIsACount(front, Nulled, minute);
    NewFramesAreCounts(h, Sent);
    NewFramesAreCounts(h, Nulled);
    if h[|h| - 1].Samples? {
      CarryingLosesNothing(Total(front, h[|h| - 1].path), h[|h| - 1].samples);
    }
  }

  /**
    With clocks that do not run backwards, the bucket of a parity has moved on at least to every
    minute that has counts, and never past the newest reading.
   */
  lemma {:induction false} BucketReachedTheMinute(h: seq<Reading>, path: Path, minute: int)
    requires Sorted(h) && Fits(h, minute) && Completed(h, path, minute) > 0
    ensures minute <= BucketAfter(h, minute % 2).minute <= MinuteOf(h[|h| - 1])
    ensures BucketAfter(h, minute % 2).minute % 2 == minute % 2
  {
    var front, last := h[..|h| - 1], MinuteOf(h[|h| - 1]);
    if last == minute {
      OneReadingAdds(h, minute);
    } else {
      BucketReachedTheMinute(front, path, minute);
      assert front[|front| - 1].now <= h[|h| - 1].now;
    }
  }

  lemma NothingCountedSinceRotation(h: seq<Reading>, path: Path)
    requires h != [] && Sorted(h)
    requires
      var front, minute := h[..|h| - 1], MinuteOf(h[|h| - 1]);
      Fits(front, minute) && BucketAfter(front, minute % 2).minute != minute
    ensures Completed(h[..|h| - 1], path, MinuteOf(h[|h| - 1])) == 0
  {
    var front, minute := h[..|h| - 1], MinuteOf(h[|h| - 1]);
    CompletedIsACount(front, path, minute);
    if Completed(front, path, minute) > 0 {
      assert front[|front| - 1].now <= h[|h| - 1].now;
      BucketReachedTheMinute(front, path, minute);
    }
  }

  lemma NewestMinute(h: seq<Reading>)
    requires h != []
    requires
      var minute := MinuteOf(h[|h| - 1]);
      && Fits(h, minute)
      && Rotated(BucketAfter(h[..|h| - 1], minute % 2), minute).frames == Packed(h[..|h| - 1], minute)
    ensures BucketAfter(h, MinuteOf(h[|h| - 1]) % 2).frames == Packed(h, MinuteOf(h[|h| - 1]))
  {
    hide Packed, Added, Skipped, Fits;
    OneReadingAdds(h, MinuteOf(h[|h| - 1]));
  }

  lemma LaterMinute(h: seq<Reading>, minute: int)
    requires h != [] && MinuteOf(h[|h| - 1]) != minute && BucketAfter(h, minute % 2).minute == minute
    ensures BucketAfter(h[..|h| - 1], minute % 2) == BucketAfter(h, minute % 2)
    ensures Packed(h[..|h| - 1], minute) == Packed(h, minute)
    ensures Fits(h[..|h| - 1], minute) <==> Fits(h, minute)
  {
  }

  /** While the counts of its minute fit, a bucket holds exactly those counts. */
  lemma {:induction false} BucketHoldsItsMinute(h: seq<Reading>, minute: int)
    requires Sorted(h) && BucketAfter(h, minute % 2).minute == minute && Fits(h, minute)
    requires h == [] ==> minute % 2 == 1
    ensures BucketAfter(h, minute % 2).frames == Packed(h, minute)
  {
    if h != [] {
      var front := h[..|h| - 1];
      if MinuteOf(h[|h| - 1]) == minute {
        OneReadingAdds(h, minute);
        if BucketAfter(front, minute % 2).minute == minute {
          BucketHoldsItsMinute(front, minute);
        } else {
          NothingCountedSinceRotation(h, Sent);
          NothingCountedSinceRotation(h, Nulled);
        }
        NewestMinute(h);
      } else {
        LaterMinute(h, minute);
        BucketHoldsItsMinute(front, minute);
      }
    }
  }

  /**
    `stats_at` reports the frames of the previous minute exactly, however often it is asked, if
    and only if both counts of that minute fit 32 bits.
   */
  lemma ReportedIsExactIff(h: seq<Reading>, now: int)
    requires Sorted(h + [Query(now)])
    ensures
      var previous := now / MINUTE_MS - 1;
      Reported(h, now) == (Completed(h, Sent, previous), Completed(h, Nulled, previous)) <==> Fits(h, previous)
  {
    var previous := now / MINUTE_MS - 1;
    var all := h + [Query(now)];
    forall i, j | 0 <= i < j < |h| ensures h[i].now <= h[j].now {
      assert all[i].now <= all[j].now;
    }
    CompletedIsACount(h, Sent, previous);
    CompletedIsACount(h, Nulled, previous);
    if Fits(h, previous) {
      if BucketAfter(h, previous % 2).minute == previous {
        BucketHoldsItsMinute(h, previous);
        Divides(Completed(h, Sent, previous), Completed(h, Nulled, previous));
      } else {
        NothingOfAnOlderMinute(h, now, Sent);
        NothingOfAnOlderMinute(h, now, Nulled);
      }
    }
  }

  lemma NothingOfAnOlderMinute(h: seq<Reading>, now: int, path: Path)
    requires Sorted(h) && Sorted(h + [Query(now)]) && Fits(h, now / MINUTE_MS - 1)
    requires BucketAfter(h, (now / MINUTE_MS - 1) % 2).minute != now / MINUTE_MS - 1
    ensures Completed(h, path, now / MINUTE_MS - 1) == 0
  {
    var previous := now / MINUTE_MS - 1;
    CompletedIsACount(h, path, previous);
    if Completed(h, path, previous) > 0 {
      assert h[|h| - 1].now <= now by {
        assert (h + [Query(now)])[|h| - 1].now <= (h + [Query(now)])[|h|].now;
      }
      BucketReachedTheMinute(h, path, previous);
    }
  }

  lemma Divides(high: nat, low: nat)
    requires low < TWO_32
    ensures (high * TWO_32 + low) / TWO_32 == high && (high * TWO_32 + low) % TWO_32 == low
  {
  }

  /** A query changes no count, so asking twice gives the same answer. */
  lemma QueriesChangeNoCount(h: seq<Reading>, now: int, path: Path, minute: int)
    ensures Completed(h + [Query(now)], path, minute) == Completed(h, path, minute)
    ensures Total(h + [Query(now)], path) == Total(h, path)
  {
    assert (h + [Query(now)])[..|h|] == h;
  }

  function PreviousMinute(h: seq<Reading>, now: int): (int, int) {
    (Completed(h, Sent, now / MINUTE_MS - 1), Completed(h, Nulled, now / MINUTE_MS - 1))
  }

  lemma AnswersAreExactIff(h: seq<Reading>, now: int)
    ensures Sorted(h + [Query(now)]) ==>
      (Reported(h, now) == PreviousMinute(h + [Query(now)], now) <==> Fits(h + [Query(now)], now / MINUTE_MS - 1))
  {
    if Sorted(h + [Query(now)]) {
      ReportedIsExactIff(h, now);
      QueriesChangeNoCount(h, now, Sent, now / MINUTE_MS - 1);
      QueriesChangeNoCount(h, now, Nulled, now / MINUTE_MS - 1);
    }
  }

  // Splitting: only the total of the samples matters.

  /** The frames that arrived whole on a path: the direct path's, all of them sent. */
  function Whole(h: seq<Reading>, path: Path): nat {
    if h == [] then 0
    else Whole(h[..|h| - 1], path) + if h[|h| - 1].WholeFrames? && path == Sent then h[|h| - 1].frames else 0
  }

  /** The counts of one path over the minutes from `first` up to `last`. */
  function OverMinutes(h: seq<Reading>, path: Path, first: int, last: int): int
    decreases last - first
  {
    if first >= last then 0 else Completed(h, path, first) + OverMinutes(h, path, first + 1, last)
  }

  lemma {:induction false} OneReadingOverMinutes(h: seq<Reading>, path: Path, first: int, last: int)
    requires h != []
    ensures
      var minute := MinuteOf(h[|h| - 1]);
      OverMinutes(h, path, first, last)
        == OverMinutes(h[..|h| - 1], path, first, last) + if first <= minute < last then NewFrames(h, path) else 0
    decreases last - first
  {
    if first < last {
      OneReadingOverMinutes(h, path, first + 1, last);
    }
  }

  lemma {:induction false} NoReadingsNoCounts(path: Path, first: int, last: int)
    ensures OverMinutes([], path, first, last) == 0
    decreases last - first
  {
    if first < last {
      NoReadingsNoCounts(path, first + 1, last);
    }
  }

  /**
    Over all the minutes of a history, the counts of a path are its samples over 1920, and the
    frames that arrived whole: nothing is lost or doubled at a minute or a call boundary.
   */
  lemma {:induction false} MinutesAddUp(h: seq<Reading>, path: Path, first: int, last: int)
    requires forall i | 0 <= i < |h| :: first <= MinuteOf(h[i]) < last
    ensures OverMinutes(h, path, first, last) == Total(h, path) / FRAME_SAMPLES + Whole(h, path)
  {
    if h == [] {
      NoReadingsNoCounts(path, first, last);
    } else {
      MinutesAddUp(h[..|h| - 1], path, first, last);
      OneReadingOverMinutes(h, path, first, last);
    }
  }

  /** So histories that split the same samples differently count the same frames. */
  lemma SplittingDoesNotMatter(h: seq<Reading>, g: seq<Reading>, path: Path, first: int, last: int)
    requires forall i | 0 <= i < |h| :: first <= MinuteOf(h[i]) < last
    requires forall i | 0 <= i < |g| :: first <= MinuteOf(g[i]) < last
    requires Total(h, path) == Total(g, path) && Whole(h, path) == Whole(g, path)
    ensures OverMinutes(h, path, first, last) == OverMinutes(g, path, first, last)
  {
    MinutesAddUp(h, path, first, last);
    MinutesAddUp(g, path, first, last);
  }

  // One more reading, as the counters see it.

  lemma OneMoreBucket(h: seq<Reading>, r: Reading, parity: int)
    ensures
      var before, minute := BucketAfter(h, parity), MinuteOf(r);
      BucketAfter(h + [r], parity)
        == if minute % 2 == parity && !Skipped(h + [r]) then Plus(Rotated(before, minute), Added(h + [r])) else before
  {
    assert (h + [r])[..|h|] == h;
  }

  lemma OneMoreTotal(h: seq<Reading>, r: Reading, path: Path)
    ensures Total(h + [r], path) == Total(h, path) + if r.Samples? && r.path == path then r.samples else 0
  {
    assert (h + [r])[..|h|] == h;
  }

  /** What `record` computes from the remainder it carries. */
  lemma OneMoreCarried(h: seq<Reading>, path: Path, samples: nat, now: int)
    ensures
      var r := Samples(now, path, samples);
      && Carried(h + [r]) == (Total(h, path) % FRAME_SAMPLES + samples) / FRAME_SAMPLES
      && Total(h + [r], path) % FRAME_SAMPLES == (Total(h, path) % FRAME_SAMPLES + samples) % FRAME_SAMPLES
  {
    OneMoreTotal(h, Samples(now, path, samples), path);
    CarryingLosesNothing(Total(h, path), samples);
    assert (h + [Samples(now, path, samples)])[..|h|] == h;
  }

  lemma AddingNothing(b: Bucket)
    ensures Plus(b, 0) == b
  {
  }

  // The imperative counters.

  class FrameCounters {
    const minutes: array<Bucket>
    var sentRemainder: nat
    var nulledRemainder: nat
    ghost var history: seq<Reading>

    ghost predicate Valid()
      reads this, minutes
    {
      && minutes.Length == 2
      && minutes[0] == BucketAfter(history, 0) && minutes[1] == BucketAfter(history, 1)
      && sentRemainder == Total(history, Sent) % FRAME_SAMPLES
      && nulledRemainder == Total(history, Nulled) % FRAME_SAMPLES
    }

    constructor ()
      ensures Valid() && history == [] && fresh(minutes)
    {
      minutes := new Bucket[2](_ => Bucket(-1, 0));
      sentRemainder, nulledRemainder := 0, 0;
      history := [];
    }

    /** Rotates the bucket of the current minute if it still holds an older one. */
    method Minute(now: int) returns (index: nat)
      requires minutes.Length == 2
      modifies minutes
      ensures index == (now / MINUTE_MS) % 2
      ensures minutes[index] == Rotated(old(minutes[index]), now / MINUTE_MS)
      ensures minutes[1 - index] == old(minutes[1 - index])
    {
      var minute := now / MINUTE_MS;
      index := minute % 2;
      if minutes[index].minute != minute {
        minutes[index] := Bucket(minute, 0);
      }
    }

    method RecordSentFramesAt(frames: nat, now: int)
      requires Valid() && frames < TWO_32
      modifies this, minutes
      ensures Valid() && history == old(history) + [WholeFrames(now, frames)]
    {
      hide BucketAfter, Total, Plus, Rotated;
      ghost var r := WholeFrames(now, frames);
      OneMoreBucket(history, r, 0);
      OneMoreBucket(history, r, 1);
      OneMoreTotal(history, r, Sent);
      OneMoreTotal(history, r, Nulled);
      var index := Minute(now);
      minutes[index] := Plus(minutes[index], Shifted(Sent, frames));
      history := history + [r];
    }

    method RecordAt(path: Path, samples: nat, now: int)
      requires Valid()
      modifies this, minutes
      ensures Valid() && history == old(history) + [Samples(now, path, samples)]
    {
      hide BucketAfter, Total, Plus, Rotated, Carried;
      ghost var r := Samples(now, path, samples);
      OneMoreBucket(history, r, 0);
      OneMoreBucket(history, r, 1);
      OneMoreTotal(history, r, Sent);
      OneMoreTotal(history, r, Nulled);
      OneMoreCarried(history, path, samples, now);
      var total := (if path == Sent then sentRemainder else nulledRemainder) + samples;
      var frames := total / FRAME_SAMPLES;
      if frames < TWO_32 {
        var index := Minute(now);
        minutes[index] := Plus(minutes[index], Shifted(path, frames));
      }
      if path == Sent {
        sentRemainder := total % FRAME_SAMPLES;
      } else {
        nulledRemainder := total % FRAME_SAMPLES;
      }
      history := history + [r];
    }

    method StatsAt(now: int) returns (sent: nat, nulled: nat)
      requires Valid()
      modifies this, minutes
      ensures Valid() && history == old(history) + [Query(now)]
      ensures (sent, nulled) == Reported(old(history), now)
      ensures Sorted(history) ==>
        ((sent, nulled) == PreviousMinute(history, now) <==> Fits(history, now / MINUTE_MS - 1))
    {
      hide BucketAfter, Total, Plus, Rotated, Sorted, PreviousMinute, Fits;
      ghost var before := history;
      OneMoreBucket(history, Query(now), 0);
      OneMoreBucket(history, Query(now), 1);
      OneMoreTotal(history, Query(now), Sent);
      OneMoreTotal(history, Query(now), Nulled);
      AnswersAreExactIff(history, now);
      var currentMinute := now / MINUTE_MS;
      var _ := Minute(now);
      AddingNothing(minutes[currentMinute % 2]);
      var previousMinute := currentMinute - 1;
      var bucket := minutes[previousMinute % 2];
      var frames := if bucket.minute == previousMinute then bucket.frames else 0;
      sent, nulled := Unpack(frames).0, Unpack(frames).1;
      history := history + [Query(now)];
    }
  }
}
