/**
  From the pump to the reader: one ring's run split at its resets, and what the reader of each
  epoch is handed of what the pump put in it (`pump.rs`, `ring.rs`).
 */
module RingEpochs {
  import opened Octets
  import opened RingBytes
  import AudioFlow

  /**
    One epoch of the ring, from a reset to the next: the samples it accepted, what its reads let be
    heard, the bytes handed over, and the bytes of a half-read sample left over before and after.
   */
  datatype Epoch = Epoch(
    accepted: seq<Sample>,
    heard: seq<Heard>,
    returned: seq<Byte>,
    carried: seq<Byte>,
    left: seq<Byte>)

  function NewEpoch(leftover: seq<Byte>): Epoch {
    Epoch([], [], [], leftover, leftover)
  }

  /** The epoch with one more operation that is no reset, from the state it was done in. */
  function Extended(e: Epoch, s: Stream, op: Op): Epoch
    requires s.Valid()
  {
    e.(accepted := e.accepted + AcceptedBy(s, op), heard := e.heard + HeardBy(s, op),
       returned := e.returned + ReturnedBy(s, op), left := Do(s, op).leftover)
  }

  /** A reset begins a new epoch; anything else goes on with the newest. */
  function Then(epochs: seq<Epoch>, s: Stream, op: Op): (r: seq<Epoch>)
    requires s.Valid() && epochs != []
    ensures r != []
  {
    if op == Reset then epochs + [NewEpoch(s.leftover)]
    else epochs[..|epochs| - 1] + [Extended(epochs[|epochs| - 1], s, op)]
  }

  function EpochsOf(s: Stream, ops: seq<Op>): (r: seq<Epoch>)
    requires s.Valid()
    ensures r != []
  {
    if ops == [] then [NewEpoch(s.leftover)]
    else Then(EpochsOf(s, ops[..|ops| - 1]), End(s, ops[..|ops| - 1]), ops[|ops| - 1])
  }

  function AllReturned(epochs: seq<Epoch>): seq<Byte> {
    if epochs == [] then [] else AllReturned(epochs[..|epochs| - 1]) + epochs[|epochs| - 1].returned
  }

  lemma OneMoreReturned(epochs: seq<Epoch>, s: Stream, op: Op)
    requires s.Valid() && epochs != []
    ensures AllReturned(Then(epochs, s, op)) == AllReturned(epochs) + ReturnedBy(s, op)
  {
    hide Extended, ReturnedBy;
    ReturnedSoFar(epochs[|epochs| - 1], s, op);
    var after := Then(epochs, s, op);
    if op == Reset {
      assert after[..|epochs|] == epochs;
    } else {
      assert after[..|epochs| - 1] == epochs[..|epochs| - 1];
    }
  }

  lemma ReturnedSoFar(e: Epoch, s: Stream, op: Op)
    requires s.Valid()
    ensures Extended(e, s, op).returned == e.returned + ReturnedBy(s, op)
    ensures op == Reset ==> ReturnedBy(s, op) == []
  {
  }

  /** The epochs are the whole run: together they returned every byte it returned. */
  lemma {:induction false} EpochsReturnEverything(s: Stream, ops: seq<Op>)
    requires s.Valid()
    ensures AllReturned(EpochsOf(s, ops)) == Returned(s, ops)
  {
    hide ReturnedBy, Then;
    if ops == [] {
      assert [NewEpoch(s.leftover)][..0] == [];
    } else {
      EpochsReturnEverything(s, ops[..|ops| - 1]);
      OneMoreReturned(EpochsOf(s, ops[..|ops| - 1]), End(s, ops[..|ops| - 1]), ops[|ops| - 1]);
    }
  }

  /**
    What an epoch of the ring promises: what is heard is a prefix of what was accepted, silence
    aside, and the bytes handed over are its image, behind what the reader still held.
   */
  predicate Faithful(e: Epoch) {
    && Real(e.heard) <= e.accepted
    && e.returned + e.left == e.carried + Image(e.heard)
  }

  predicate AllFaithful(epochs: seq<Epoch>) {
    && (forall i | 0 <= i < |epochs| :: Faithful(epochs[i]))
    && (forall i | 0 < i < |epochs| :: epochs[i].carried == epochs[i - 1].left)
  }

  /** The newest epoch still holds what it accepted and has not let be heard. */
  predicate UpToNow(epochs: seq<Epoch>, s: Stream)
    requires epochs != []
  {
    var newest := epochs[|epochs| - 1];
    newest.accepted == Real(newest.heard) + s.buffer && newest.left == s.leftover
  }

  lemma {:induction false} EpochsAreFaithful(s: Stream, ops: seq<Op>)
    requires s.Valid() && s.buffer == []
    ensures AllFaithful(EpochsOf(s, ops)) && EpochsOf(s, ops)[0].carried == s.leftover
    ensures UpToNow(EpochsOf(s, ops), End(s, ops))
  {
    hide Then, AllFaithful, UpToNow;
    if ops == [] {
      FirstEpochIsFaithful(s);
    } else {
      EpochsAreFaithful(s, ops[..|ops| - 1]);
      ThenIsFaithful(EpochsOf(s, ops[..|ops| - 1]), End(s, ops[..|ops| - 1]), ops[|ops| - 1]);
    }
  }

  lemma FirstEpochIsFaithful(s: Stream)
    requires s.Valid() && s.buffer == []
    ensures AllFaithful([NewEpoch(s.leftover)]) && UpToNow([NewEpoch(s.leftover)], s)
  {
  }

  lemma ThenIsFaithful(epochs: seq<Epoch>, s: Stream, op: Op)
    requires s.Valid() && epochs != [] && AllFaithful(epochs) && UpToNow(epochs, s)
    ensures AllFaithful(Then(epochs, s, op)) && UpToNow(Then(epochs, s, op), Do(s, op))
    ensures Then(epochs, s, op)[0].carried == epochs[0].carried
  {
    hide Stream.Read, Stream.Write, Stream.Next, AcceptedBy, HeardBy, ReturnedBy, Image;
    if op == Reset {
      FirstEpochIsFaithful(s.Reset());
    } else {
      OneMoreOperation(epochs[|epochs| - 1], s, op);
    }
  }

  lemma OneMoreOperation(e: Epoch, s: Stream, op: Op)
    requires s.Valid() && op != Reset && Faithful(e)
    requires e.accepted == Real(e.heard) + s.buffer && e.left == s.leftover
    ensures Faithful(Extended(e, s, op))
    ensures Extended(e, s, op).accepted == Real(Extended(e, s, op).heard) + Do(s, op).buffer
  {
    hide Image, Real, AcceptedBy, HeardBy, ReturnedBy, LeftBy, Do;
    StepConservesBytes(s, op);
    StepIsFifo(s, op);
    RealConcat(e.heard, HeardBy(s, op));
    ImageConcat(e.heard, HeardBy(s, op));
    Glue(e.carried, Image(e.heard), Image(HeardBy(s, op)), e.returned, e.left, ReturnedBy(s, op), Do(s, op).leftover);
    var left := LeftBy(s, op);
    assert s.buffer == s.buffer[..left] + s.buffer[left..];
    assert Real(e.heard) + s.buffer + AcceptedBy(s, op)
        == Real(e.heard) + s.buffer[..left] + (s.buffer[left..] + AcceptedBy(s, op));
  }

  predicate NothingCarried(epochs: seq<Epoch>) {
    forall i | 0 <= i < |epochs| :: epochs[i].carried == epochs[i].left == []
  }

  /** A reader of whole samples is handed, in each epoch, exactly the image of what it lets be heard. */
  lemma {:induction false} WholeSampleReadersCarryNothing(s: Stream, ops: seq<Op>)
    requires s.Valid() && s.leftover == [] && ReadsWholeSamples(ops)
    ensures NothingCarried(EpochsOf(s, ops))
  {
    hide Do, AcceptedBy, HeardBy, ReturnedBy;
    if ops != [] {
      WholeSampleReadersCarryNothing(s, ops[..|ops| - 1]);
      LargeReadsLeaveNothing(s, ops[..|ops| - 1]);
      LargeReadsLeaveNothing(s, ops);
    }
  }

  // The end of the stream.

  /** The producer's last word since the newest reset is that it has finished. */
  predicate FinishedSinceReset(ops: seq<Op>) {
    ops != [] && (ops[|ops| - 1] == Finish || (ops[|ops| - 1] != Reset && FinishedSinceReset(ops[..|ops| - 1])))
  }

  lemma {:induction false} FlagsFollow(s: Stream, ops: seq<Op>)
    requires s.Valid() && !s.finished && !s.closed
    ensures End(s, ops).finished <==> FinishedSinceReset(ops)
    ensures End(s, ops).closed <==> Close in ops
  {
    if ops != [] {
      FlagsFollow(s, ops[..|ops| - 1]);
      assert ops == ops[..|ops| - 1] + [ops[|ops| - 1]];
    }
  }

  /** Every sample of the newest epoch has been let be heard, and its last byte handed over. */
  predicate AllHandedOver(e: Epoch) {
    e.accepted == Real(e.heard) && e.returned == e.carried + Image(e.heard)
  }

  /**
    What tells the mixer that the track is over. In every run of a ring that starts empty, a read
    of an open ring gets nothing exactly when the producer has finished since the newest reset and
    every sample accepted since then has been handed over to its last byte. Once the reader has
    closed it, it gets nothing as soon as no half-read sample is left.
   */
  lemma NothingToReadIff(s: Stream, ops: seq<Op>, n: nat)
    requires s.Valid() && s.buffer == [] && s.leftover == [] && !s.finished && !s.closed && n > 0
    ensures
      var epochs := EpochsOf(s, ops);
      var newest := epochs[|epochs| - 1];
      End(s, ops).Read(n).1 == [] <==>
        if Close in ops then newest.returned == newest.carried + Image(newest.heard)
        else FinishedSinceReset(ops) && AllHandedOver(newest)
  {
    hide Then;
    FlagsFollow(s, ops);
    EpochsAreFaithful(s, ops);
    var epochs, last := EpochsOf(s, ops), End(s, ops);
    var newest := epochs[|epochs| - 1];
    assert Faithful(newest) && UpToNow(epochs, last);
    assert newest.left == [] <==> newest.returned == newest.carried + Image(newest.heard) by {
      assert newest.returned + [] == newest.returned;
    }
    assert last.buffer == [] <==> newest.accepted == Real(newest.heard);
    NothingNow(last, n);
  }

  lemma NothingNow(s: Stream, n: nat)
    requires s.Valid() && n > 0
    ensures s.Read(n).1 == [] <==> s.leftover == [] && (s.closed || (s.finished && s.buffer == []))
  {
    if s.leftover == [] && s.buffer != [] && !s.closed {
      AllReal(s.buffer[..Min(if n / 4 == 0 then 1 else n / 4, |s.buffer|)]);
    }
  }

  /**
    A seek that lands while the last of a track drains reopens the stream: after a reset no read
    comes back empty until the producer finishes again or the reader closes the ring.
   */
  lemma {:induction false} AResetReopens(s: Stream, ops: seq<Op>, n: nat)
    requires s.Valid() && !s.closed && Finish !in ops && Close !in ops && n > 0
    ensures !End(Do(s, Reset), ops).finished && !End(Do(s, Reset), ops).closed
    ensures End(Do(s, Reset), ops).Read(n).1 != []
  {
    if ops != [] {
      assert ops[|ops| - 1] in ops;
      AResetReopens(s, ops[..|ops| - 1], n);
    }
    NothingNow(End(Do(s, Reset), ops), n);
  }

  // The pump's samples, as the bit patterns it writes.

  function Bits(samples: seq<AudioFlow.Sample>, bits: AudioFlow.Sample -> Sample): (r: seq<Sample>)
    ensures |r| == |samples|
  {
    seq(|samples|, i requires 0 <= i < |samples| => bits(samples[i]))
  }

  /** The ring took just what the pump gave it: puts in order, and its resets where the pump reset it. */
  predicate Carries(f: AudioFlow.Flow, epochs: seq<Epoch>, bits: AudioFlow.Sample -> Sample) {
    |f.received| == |epochs| && forall i | 0 <= i < |epochs| :: epochs[i].accepted == Bits(f.received[i], bits)
  }

  /** The samples of an epoch that have been heard. */
  function HeardOfPump(f: AudioFlow.Flow, epochs: seq<Epoch>, e: nat): seq<AudioFlow.Sample>
    requires |f.received| == |epochs| && e < |epochs| && |Real(epochs[e].heard)| <= |f.received[e]|
  {
    f.received[e][..|Real(epochs[e].heard)|]
  }

  /**
    The seek barrier and the hot-swap order where they matter, at the reader. Whatever the pump
    did, however the reads fall between its puts and resets and whatever their sizes, the samples
    heard between two resets are the first ones the pump put there: of that epoch when its flushes
    met their guard for the barrier, and in the chains' order, each once, when they met it for the
    order. The bytes handed over are their image, silence aside, behind those of a
    half-read sample, and theirs alone if and only if no such bytes were left over.
   */
  lemma ReaderHearsTheEpoch(f: AudioFlow.Flow, s: Stream, ops: seq<Op>, bits: AudioFlow.Sample -> Sample, e: nat)
    requires AudioFlow.Sound(f) && s.Valid() && s.buffer == []
    requires Carries(f, EpochsOf(s, ops), bits) && e < |EpochsOf(s, ops)|
    ensures
      var epoch, log := EpochsOf(s, ops)[e], AudioFlow.LogAt(f, e);
      && |Real(epoch.heard)| <= |f.received[e]|
      && var heard := HeardOfPump(f, EpochsOf(s, ops), e);
        && Real(epoch.heard) == Bits(heard, bits)
        && (log.current ==> AudioFlow.FromEpoch(heard, e))
        && (log.faithful ==> heard <= log.made && AudioFlow.InChainOrder(heard))
        && epoch.returned + epoch.left == epoch.carried + Image(epoch.heard)
        && (epoch.returned + epoch.left == Image(epoch.heard) <==> epoch.carried == [])
  {
    hide AudioFlow.Sound;
    EpochsAreFaithful(s, ops);
    AudioFlow.SoundIsReceived(f);
    AudioFlow.EveryEpochKeepsPromises(f, e);
    var epoch := EpochsOf(s, ops)[e];
    assert Faithful(epoch);
    var heard := HeardOfPump(f, EpochsOf(s, ops), e);
    assert forall x | x in heard :: x in f.received[e];
    assert Real(epoch.heard) == Bits(heard, bits) by {
      assert Real(epoch.heard) == epoch.accepted[..|Real(epoch.heard)|];
    }
    assert [] + Image(epoch.heard) == Image(epoch.heard);
  }

  /**
    With a filter enabled in every chain and a reader of whole samples, both promises hold outright:
    the bytes of each epoch are the image of that epoch's own samples, in order, each once.
   */
  lemma EachEpochsBytesAreItsOwn(f: AudioFlow.Flow, s: Stream, ops: seq<Op>, bits: AudioFlow.Sample -> Sample, e: nat)
    requires AudioFlow.Sound(f) && f.allEnabled && s.Valid() && s.buffer == [] && s.leftover == []
    requires ReadsWholeSamples(ops) && Carries(f, EpochsOf(s, ops), bits) && e < |EpochsOf(s, ops)|
    ensures
      var epoch, made := EpochsOf(s, ops)[e], AudioFlow.LogAt(f, e).made;
      && epoch.returned == Image(epoch.heard) && |Real(epoch.heard)| <= |made|
      && var heard := made[..|Real(epoch.heard)|];
        Real(epoch.heard) == Bits(heard, bits) && AudioFlow.InChainOrder(heard) && AudioFlow.FromEpoch(heard, e)
  {
    hide AudioFlow.Sound;
    ReaderHearsTheEpoch(f, s, ops, bits, e);
    WholeSampleReadersCarryNothing(s, ops);
    AudioFlow.SoundIsReceived(f);
    AudioFlow.EnabledChainsKeepBothPromises(f, e);
    var epoch := EpochsOf(s, ops)[e];
    var heard := HeardOfPump(f, EpochsOf(s, ops), e);
    assert heard == AudioFlow.LogAt(f, e).made[..|Real(epoch.heard)|];
  }
}
