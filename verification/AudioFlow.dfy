/**
  What the pump does to the audio, apart from when it does it: a decoder handing out samples, the
  resampler, the filter chain and its hot swap, the tail waiting to be written, and the ring
  (`pump.rs`, `filter.rs`). Sample values are opaque; a sample carries the epoch it was decoded in,
  the number of seeks that had landed by then.
 */
module AudioFlow {

  datatype Raw = Raw(epoch: nat, value: int)

  /** A sample leaving the filters: which chain made it, and whether in its flushed tail. */
  datatype Sample = Sample(raw: Raw, chain: nat, tail: bool)

  /** A chain holds back the input it has not turned into output yet; a lone timescale bypasses the planar scratch. */
  datatype Chain = Chain(id: nat, enabled: bool, lone: bool, held: seq<Raw>)

  function Epochs(s: seq<Raw>): set<nat> {
    set x | x in s :: x.epoch
  }

  function Made(s: seq<Raw>, chain: nat, tail: bool): seq<Sample> {
    seq(|s|, i requires 0 <= i < |s| => Sample(s[i], chain, tail))
  }

  /**
    One epoch of a run, from a landed seek to the next: everything put in the ring, the same with
    what was being written and what waited when it ended, and everything the chains made. The two
    flags are the guards of the epoch's flushes: `faithful` says that each was of an enabled chain
    or found the scratch empty, `current` that each was of an enabled chain or found nothing older
    than the epoch in it.
   */
  datatype EpochLog = EpochLog(
    ring: seq<Sample>,
    heard: seq<Sample>,
    made: seq<Sample>,
    faithful: bool,
    current: bool)

  /**
    The pump's audio. `resampled` is what the resampler holds back and `planar` the transpose
    scratch. The rest is bookkeeping since the last landed seek: everything put in the ring,
    the buffer being written, everything the chains have made, everything a disabled chain
    pushed again, and the guards of the flushes; and the logs of the epochs before.
   */
  datatype Flow = Flow(
    epoch: nat,
    chain: Chain,
    resampled: seq<Raw>,
    planar: seq<Sample>,
    ring: seq<Sample>,
    writing: seq<Sample>,
    pending: seq<Sample>,
    made: seq<Sample>,
    stale: seq<Sample>,
    faithful: bool,
    current: bool,
    past: seq<EpochLog>,
    output: seq<seq<Sample>>,     // what the chains gave, epoch by epoch
    received: seq<seq<Sample>>,   // what the ring was given, epoch by epoch
    allEnabled: bool)   // every chain installed so far has had a filter enabled

  function StartFlow(enabled: bool, lone: bool): Flow {
    Flow(0, Chain(0, enabled, enabled && lone, []), [], [], [], [], [], [], [], true, true, [], [[]], [[]], enabled)
  }

  /** What is in the ring, being written and waiting, in the order it will be heard. */
  function Heard(f: Flow): seq<Sample> {
    f.ring + f.writing + f.pending
  }

  /** The log of the epoch under way. */
  function LogOf(f: Flow): EpochLog {
    EpochLog(f.ring, Heard(f), f.made, f.faithful, f.current)
  }

  function LogAt(f: Flow, epoch: nat): EpochLog
    requires epoch <= |f.past|
  {
    if epoch < |f.past| then f.past[epoch] else LogOf(f)
  }

  // Steps. Nondeterministic results of the decoder, resampler and filters are parameters.

  /** The resampler turns input into output, keeping some back; a rebuilt one keeps nothing. */
  predicate CanResample(held: seq<Raw>, input: seq<Raw>, out: seq<Raw>, kept: seq<Raw>) {
    Epochs(out) <= Epochs(held + input) && Epochs(kept) <= Epochs(held + input)
  }

  /** `filter_interleaved`: a disabled chain copies, an enabled one may hold audio back. */
  predicate CanFilter(f: Flow, input: seq<Raw>, out: seq<Raw>, held: seq<Raw>) {
    if f.chain.enabled then CanResample(f.chain.held, input, out, held) else out == input && held == []
  }

  lemma ProcessedIsFiltered(f: Flow, input: seq<Raw>, out: seq<Raw>, held: seq<Raw>)
    requires if f.chain.enabled then CanResample(f.chain.held, input, out, held) else out == input && held == []
    ensures CanFilter(f, input, out, held)
  {
  }

  function Filter(f: Flow, out: seq<Raw>, held: seq<Raw>): Flow {
    var made := Made(out, f.chain.id, false);
    f.(chain := f.chain.(held := held),
       planar := if f.chain.enabled && !f.chain.lone then made else f.planar,
       writing := made,
       made := f.made + made,
       output := PutLast(f.output, made))
  }

  /** More samples in the newest epoch. */
  function PutLast<T>(epochs: seq<seq<T>>, more: seq<T>): seq<seq<T>> {
    if epochs == [] then [more] else epochs[..|epochs| - 1] + [epochs[|epochs| - 1] + more]
  }

  /** `try_write` took the first `n` samples. */
  function Write(f: Flow, n: nat): Flow
    requires n <= |f.writing|
  {
    f.(ring := f.ring + f.writing[..n], writing := f.writing[n..], received := PutLast(f.received, f.writing[..n]))
  }

  function TakePending(f: Flow): Flow {
    f.(writing := f.pending, pending := [])
  }

  /** A flushed chain turns what it holds into its tail, and has none left. */
  predicate CanFlush(f: Flow, tail: seq<Raw>) {
    if f.chain.enabled then Epochs(tail) <= Epochs(f.chain.held) else tail == []
  }

  /** `flush_filters_into_pending`: a disabled chain leaves the scratch alone, and it is pushed as it is. */
  function Flush(f: Flow, tail: seq<Raw>): Flow {
    if f.chain.enabled then
      var made := Made(tail, f.chain.id, true);
      f.(chain := f.chain.(held := []), planar := made, pending := f.pending + made, made := f.made + made,
         output := PutLast(f.output, made))
    else
      f.(pending := f.pending + f.planar, stale := f.stale + f.planar,
         faithful := f.faithful && f.planar == [], current := f.current && FromEpoch(f.planar, f.epoch))
  }

  function SetFilters(f: Flow, tail: seq<Raw>, enabled: bool, lone: bool): Flow {
    var flushed := Flush(f, tail);
    flushed.(chain := Chain(f.chain.id + 1, enabled, enabled && lone, []), allEnabled := f.allEnabled && enabled)
  }

  /** A seek that landed: decoder, resampler and chain reset, ring and pending tail discarded. */
  function LandSeek(f: Flow): Flow {
    Flow(f.epoch + 1, f.chain.(held := []), [], f.planar, [], [], [], [], [], true, true,
         f.past + [LogOf(f)], f.output + [[]], f.received + [[]], f.allEnabled)
  }

  // What holds between any two steps.

  predicate FromEpoch(s: seq<Sample>, epoch: nat) {
    forall x | x in s :: x.raw.epoch == epoch
  }

  function Rank(x: Sample): nat {
    2 * x.chain + if x.tail then 1 else 0
  }

  predicate Ranked(s: seq<Sample>, rank: nat) {
    forall x | x in s :: Rank(x) <= rank
  }

  /** For each chain in turn, all it processed and then its tail. */
  predicate InChainOrder(s: seq<Sample>) {
    forall i, j | 0 <= i < j < |s| :: Rank(s[i]) <= Rank(s[j])
  }

  predicate Sound(f: Flow) {
    && Epochs(f.chain.held) <= {f.epoch} && Epochs(f.resampled) <= {f.epoch}
    && FromEpoch(f.made, f.epoch)
    && InChainOrder(f.made) && Ranked(f.made, 2 * f.chain.id + 1)
    && |Heard(f)| == |f.made| + |f.stale|
    && (f.stale == [] ==> Heard(f) == f.made)
    && (forall x | x in Heard(f) :: x in f.made || x in f.stale)
    && (forall x | x in f.stale :: x in Heard(f))
    && (!f.chain.enabled ==> f.chain.held == [])
    && OnlyTailsComeAgain(f)
    && (f.faithful <==> f.stale == []) && (f.current <==> FromEpoch(f.stale, f.epoch))
    && |f.past| == f.epoch && PastKeepsPromises(f.past)
    && f.output == Mades(f.past) + [f.made] && f.received == Rings(f.past) + [f.ring]
    && (f.allEnabled ==> f.chain.enabled && f.faithful && f.current && PastIsFaithful(f.past))
  }

  /** What a disabled chain has pushed again, or could, are tails of the chains before it. */
  predicate OnlyTailsComeAgain(f: Flow) {
    (forall x | x in f.stale :: x.tail) && (!f.chain.enabled ==> forall x | x in f.planar :: x.tail)
  }

  /**
    The two promises of an epoch, each with its exact condition. Hot-swap order: what is heard is
    exactly what the chains made, chain by chain, processed audio before tail, each sample once.
    Seek barrier: what is heard was decoded in the epoch. Whatever else is heard is some chain's tail.
   */
  predicate KeepsPromises(log: EpochLog, epoch: nat) {
    && log.ring <= log.heard
    && InChainOrder(log.made) && FromEpoch(log.made, epoch)
    && (log.heard == log.made <==> log.faithful)
    && (FromEpoch(log.heard, epoch) <==> log.current)
    && (forall x | x in log.heard :: x in log.made || x.tail)
  }

  predicate PastKeepsPromises(past: seq<EpochLog>) {
    forall e | 0 <= e < |past| :: KeepsPromises(past[e], e)
  }

  function Rings(past: seq<EpochLog>): (r: seq<seq<Sample>>)
    ensures |r| == |past|
  {
    seq(|past|, e requires 0 <= e < |past| => past[e].ring)
  }

  function Mades(past: seq<EpochLog>): (r: seq<seq<Sample>>)
    ensures |r| == |past|
  {
    seq(|past|, e requires 0 <= e < |past| => past[e].made)
  }

  predicate PastIsFaithful(past: seq<EpochLog>) {
    forall e | 0 <= e < |past| :: past[e].faithful && past[e].current
  }

  /** The installed chain has not been flushed: it may still process. */
  predicate Unflushed(f: Flow) {
    Ranked(f.made, 2 * f.chain.id)
  }

  lemma DecodedNow(s: seq<Raw>, epoch: nat)
    requires forall x | x in s :: x.epoch == epoch
    ensures Epochs(s) <= {epoch}
  {
  }

  lemma MadeEpochs(s: seq<Raw>, chain: nat, tail: bool, epoch: nat)
    requires Epochs(s) <= {epoch}
    ensures FromEpoch(Made(s, chain, tail), epoch)
  {
    forall x | x in Made(s, chain, tail) ensures x.raw.epoch == epoch {
      assert x.raw in s;
      assert x.raw.epoch in Epochs(s);
    }
  }

  lemma NoEpochsNoSamples(s: seq<Raw>)
    ensures Epochs(s) == {} <==> s == []
  {
    if s != [] {
      assert s[0].epoch in Epochs(s);
    }
  }

  lemma EpochsConcat(a: seq<Raw>, b: seq<Raw>)
    ensures Epochs(a + b) == Epochs(a) + Epochs(b)
  {
    assert forall x | x in a :: x in a + b;
    assert forall x | x in b :: x in a + b;
  }

  /** The pump may process audio: nothing is being written, and nothing waits that is not stale. */
  predicate Ready(f: Flow) {
    Unflushed(f) && f.writing == [] && (f.stale == [] ==> f.pending == [])
  }

  predicate Clear(f: Flow) {
    Unflushed(f) && f.writing == []
  }

  lemma ReadyIsClear(f: Flow)
    ensures Ready(f) ==> Clear(f)
    ensures Clear(f) ==> f.writing == []
  {
  }

  lemma DrainStaysClear(f: Flow, g: Flow)
    requires Extends(f, g) || Discards(f, g)
    ensures Clear(f) ==> Clear(g)
  {
  }

  lemma SettlesReady(f: Flow, g: Flow)
    requires Settles(f, g) || Discards(f, g)
    ensures Clear(f) ==> Ready(g)
  {
  }

  /** Rebuilding or finishing the resampler drops what it held. */
  lemma EmptyResamplerKeepsSound(f: Flow)
    requires Sound(f)
    ensures Sound(f.(resampled := []))
  {
    assert Heard(f.(resampled := [])) == Heard(f);
  }

  lemma ResamplerHoldsTheEpoch(f: Flow)
    requires Sound(f)
    ensures Epochs(f.resampled) <= {f.epoch}
  {
  }

  lemma EpochsReceived(f: Flow)
    requires Sound(f)
    ensures |f.received| == f.epoch + 1
  {
  }

  lemma ResamplerMayHold(f: Flow, kept: seq<Raw>)
    requires Sound(f) && Epochs(kept) <= {f.epoch}
    ensures Sound(f.(resampled := kept))
  {
    assert Heard(f.(resampled := kept)) == Heard(f);
  }

  /** What the seek of the container already threw away makes no difference to the landing. */
  lemma LandingForgets(f: Flow, g: Flow)
    requires g == f.(resampled := [], chain := f.chain.(held := []))
    ensures LandSeek(g) == LandSeek(f)
  {
  }

  lemma FilterKeepsSound(f: Flow, input: seq<Raw>, out: seq<Raw>, held: seq<Raw>)
    requires Sound(f) && Ready(f)
    requires Epochs(input) <= {f.epoch} && CanFilter(f, input, out, held)
    ensures Sound(Filter(f, out, held)) && Unflushed(Filter(f, out, held))
  {
    EpochsConcat(f.chain.held, input);
    MadeEpochs(out, f.chain.id, false, f.epoch);
    var g := Filter(f, out, held);
    assert Heard(f) == f.ring + f.pending;
    assert Heard(g) == f.ring + Made(out, f.chain.id, false) + f.pending;
  }

  /** Moving samples between what waits, what is being written and the ring changes nothing heard. */
  lemma MovingKeepsSound(f: Flow, ring: seq<Sample>, writing: seq<Sample>, pending: seq<Sample>)
    requires Sound(f) && ring + writing + pending == Heard(f)
    ensures Sound(f.(ring := ring, writing := writing, pending := pending, received := Rings(f.past) + [ring]))
  {
  }

  /** What the chains gave and the ring was given are every epoch's logs, the one under way last. */
  lemma SoundIsReceived(f: Flow)
    requires Sound(f)
    ensures f.output == Mades(f.past) + [f.made] && f.received == Rings(f.past) + [f.ring] && |f.past| == f.epoch
    ensures forall e | 0 <= e <= f.epoch :: f.output[e] == LogAt(f, e).made && f.received[e] == LogAt(f, e).ring
  {
  }

  lemma WriteKeepsSound(f: Flow, n: nat)
    requires Sound(f) && n <= |f.writing|
    ensures Sound(Write(f, n)) && Heard(Write(f, n)) == Heard(f)
  {
    hide Sound, Rings, Mades, PutLast;
    assert f.writing[..n] + f.writing[n..] == f.writing;
    assert Heard(Write(f, n)) == Heard(f);
    MovingKeepsSound(f, f.ring + f.writing[..n], f.writing[n..], f.pending);
    SoundIsReceived(f);
    PutBehind(Rings(f.past), f.ring, f.writing[..n]);
  }

  lemma PutBehind<T>(past: seq<seq<T>>, last: seq<T>, more: seq<T>)
    ensures PutLast(past + [last], more) == past + [last + more]
  {
  }

  lemma TakePendingKeepsSound(f: Flow)
    requires Sound(f) && f.writing == []
    ensures Sound(TakePending(f)) && Heard(TakePending(f)) == Heard(f)
  {
    assert Heard(TakePending(f)) == Heard(f);
  }

  lemma FlushKeepsSound(f: Flow, tail: seq<Raw>)
    requires Sound(f) && CanFlush(f, tail)
    ensures Sound(Flush(f, tail))
  {
    if f.chain.enabled {
      FlushingATailKeepsSound(f, tail);
    } else {
      PushingAgainKeepsSound(f, tail);
    }
  }

  lemma FlushingATailKeepsSound(f: Flow, tail: seq<Raw>)
    requires Sound(f) && CanFlush(f, tail) && f.chain.enabled
    ensures Sound(Flush(f, tail))
  {
    MadeEpochs(tail, f.chain.id, true, f.epoch);
    assert Heard(Flush(f, tail)) == Heard(f) + Made(tail, f.chain.id, true);
  }

  lemma PushingAgainKeepsSound(f: Flow, tail: seq<Raw>)
    requires Sound(f) && CanFlush(f, tail) && !f.chain.enabled
    ensures Sound(Flush(f, tail))
  {
    var g := Flush(f, tail);
    assert Heard(g) == Heard(f) + f.planar;
    assert forall x | x in f.planar :: x in g.stale;
  }

  lemma FlushedHoldsNothing(f: Flow, tail: seq<Raw>)
    requires Sound(f)
    ensures
      var g := Flush(f, tail);
      g.chain.held == [] && g.resampled == f.resampled && g.epoch == f.epoch && g.writing == f.writing
  {
  }

  lemma SetFiltersKeepsSound(f: Flow, tail: seq<Raw>, enabled: bool, lone: bool)
    requires Sound(f) && CanFlush(f, tail)
    ensures Sound(SetFilters(f, tail, enabled, lone)) && Unflushed(SetFilters(f, tail, enabled, lone))
  {
    FlushKeepsSound(f, tail);
    assert Heard(SetFilters(f, tail, enabled, lone)) == Heard(Flush(f, tail));
  }

  lemma LandSeekKeepsSound(f: Flow)
    requires Sound(f)
    ensures Sound(LandSeek(f)) && Unflushed(LandSeek(f))
  {
    assert Heard(LandSeek(f)) == [];
    CurrentLogKeepsPromises(f);
    assert Rings(f.past + [LogOf(f)]) == Rings(f.past) + [f.ring];
    assert Mades(f.past + [LogOf(f)]) == Mades(f.past) + [f.made];
  }

  // The two promises, and exactly when they are kept.

  /** A flush keeps the order exactly when its chain is enabled or the scratch is empty. */
  lemma FlushKeepsOrderIff(f: Flow, tail: seq<Raw>)
    requires Sound(f) && Heard(f) == f.made && CanFlush(f, tail)
    ensures Heard(Flush(f, tail)) == Flush(f, tail).made <==> f.chain.enabled || f.planar == []
  {
    FlushKeepsSound(f, tail);
    CurrentLogKeepsPromises(f);
    CurrentLogKeepsPromises(Flush(f, tail));
  }

  /** It keeps the barrier exactly when its chain is enabled or the scratch holds nothing older. */
  lemma FlushKeepsBarrierIff(f: Flow, tail: seq<Raw>)
    requires Sound(f) && FromEpoch(Heard(f), f.epoch) && CanFlush(f, tail)
    ensures FromEpoch(Heard(Flush(f, tail)), f.epoch) <==> f.chain.enabled || FromEpoch(f.planar, f.epoch)
  {
    FlushKeepsSound(f, tail);
    CurrentLogKeepsPromises(f);
    CurrentLogKeepsPromises(Flush(f, tail));
  }

  /** What is heard of the epoch under way keeps each promise exactly when its flushes met the guard. */
  lemma CurrentLogKeepsPromises(f: Flow)
    requires Sound(f)
    ensures KeepsPromises(LogOf(f), f.epoch)
  {
    assert Heard(f) == f.ring + (f.writing + f.pending);
    if f.stale != [] {
      assert |Heard(f)| > |f.made|;
    }
    if !f.current {
      var x :| x in f.stale && x.raw.epoch != f.epoch;
      assert x in Heard(f);
    }
  }

  /** Every epoch of a run keeps its promises under the condition of its own flushes. */
  lemma EveryEpochKeepsPromises(f: Flow, epoch: nat)
    requires Sound(f) && epoch <= |f.past|
    ensures KeepsPromises(LogAt(f, epoch), epoch)
    ensures LogAt(f, epoch).faithful ==>
      LogAt(f, epoch).ring <= LogAt(f, epoch).made && InChainOrder(LogAt(f, epoch).ring)
    ensures LogAt(f, epoch).current ==> FromEpoch(LogAt(f, epoch).ring, epoch)
  {
    var log := LogAt(f, epoch);
    CurrentLogKeepsPromises(f);
    assert forall x | x in log.ring :: x in log.heard;
    if log.faithful {
      assert forall i | 0 <= i < |log.ring| :: log.ring[i] == log.made[i];
    }
  }

  /** With a filter enabled in every chain installed, both promises hold outright, in every epoch. */
  lemma EnabledChainsKeepBothPromises(f: Flow, epoch: nat)
    requires Sound(f) && f.allEnabled && epoch <= |f.past|
    ensures
      var log := LogAt(f, epoch);
      log.heard == log.made && log.ring <= log.made && InChainOrder(log.ring) && FromEpoch(log.ring, epoch)
  {
    EveryEpochKeepsPromises(f, epoch);
  }

  lemma StartIsSound(enabled: bool, lone: bool)
    ensures Sound(StartFlow(enabled, lone)) && Ready(StartFlow(enabled, lone))
  {
  }

  /**
    The failing case: a lone timescale is swapped for a chain with no filter, a seek lands, and
    the filters are set once more. The old tail, decoded before the seek, is pushed again behind it.
   */
  lemma StaleTailCrossesASeek(raw: Raw)
    requires raw.epoch == 0
    ensures
      var f0 := StartFlow(true, true);
      var f1 := Filter(f0, [], [raw]);
      var f2 := SetFilters(f1, [raw], false, false);
      var f3 := LandSeek(f2);
      var f4 := SetFilters(f3, [], true, true);
      && Sound(f0) && CanFilter(f0, [raw], [], [raw]) && CanFlush(f1, [raw]) && CanFlush(f3, [])
      && f4.epoch == 1 && Heard(f4) == [Sample(raw, 0, true)] && !FromEpoch(Heard(f4), f4.epoch)
      && f4.made == []
  {
    hide Sound;
    StartIsSound(true, true);
    var f0 := StartFlow(true, true);
    var f1 := Filter(f0, [], [raw]);
    var f2 := SetFilters(f1, [raw], false, false);
    assert f2.planar == [Sample(raw, 0, true)];
    var f4 := SetFilters(LandSeek(f2), [], true, true);
    assert Heard(f4) == [Sample(raw, 0, true)];
    assert Sample(raw, 0, true) in Heard(f4);
    assert raw in [] + [raw];
  }

  /** What a lone timescale processes never passes through the scratch; only its tail does. */
  predicate LoneBypassesScratch(f: Flow) {
    forall x | x in f.planar :: x.chain < f.chain.id || (x.chain == f.chain.id && (f.chain.lone ==> x.tail))
  }

  lemma LoneKeepsBypassing(f: Flow, out: seq<Raw>, held: seq<Raw>, effect: Effect)
    requires LoneBypassesScratch(f)
    ensures LoneBypassesScratch(Filter(f, out, held)) && LoneBypassesScratch(ApplyOne(f, effect))
    ensures f.chain.enabled && !f.chain.lone ==> Filter(f, out, held).planar == Made(out, f.chain.id, false)
  {
  }

  // Batches of commands.

  /** What a drained command did to the audio. */
  datatype Effect = SeekLanded | FiltersSet(tail: seq<Raw>, enabled: bool, lone: bool)

  predicate CanApply(f: Flow, effects: seq<Effect>)
    decreases |effects|
  {
    effects == []
    || ((effects[0].FiltersSet? ==> CanFlush(f, effects[0].tail))
         && CanApply(ApplyOne(f, effects[0]), effects[1..]))
  }

  function ApplyOne(f: Flow, e: Effect): Flow {
    match e
    case SeekLanded => LandSeek(f)
    case FiltersSet(tail, enabled, lone) => SetFilters(f, tail, enabled, lone)
  }

  function Apply(f: Flow, effects: seq<Effect>): Flow
    decreases |effects|
  {
    if effects == [] then f else Apply(ApplyOne(f, effects[0]), effects[1..])
  }

  lemma NoEffects(f: Flow)
    ensures CanApply(f, []) && Apply(f, []) == f
  {
  }

  lemma {:induction false} ApplyMore(f: Flow, effects: seq<Effect>, more: seq<Effect>)
    requires CanApply(f, effects) && CanApply(Apply(f, effects), more)
    ensures CanApply(f, effects + more) && Apply(f, effects + more) == Apply(Apply(f, effects), more)
    decreases |effects|
  {
    if effects == [] {
      assert effects + more == more;
    } else {
      ApplyMore(ApplyOne(f, effects[0]), effects[1..], more);
      assert (effects + more)[1..] == effects[1..] + more;
    }
  }

  /** A batch without a landed seek only adds to what waits behind the buffer being written. */
  predicate Extends(f: Flow, g: Flow) {
    && g.epoch == f.epoch && g.ring == f.ring && g.writing == f.writing && g.resampled == f.resampled
    && f.pending <= g.pending && f.made <= g.made && f.stale <= g.stale
    && (Unflushed(f) ==> Unflushed(g)) && (f.chain.held == [] ==> g.chain.held == [])
  }

  /** Part of the buffer being written has moved to the ring, and more may wait behind it. */
  predicate Advances(f: Flow, g: Flow) {
    && g.epoch == f.epoch && g.ring + g.writing == f.ring + f.writing && g.resampled == f.resampled
    && f.pending <= g.pending && f.made <= g.made && f.stale <= g.stale
    && (Unflushed(f) ==> Unflushed(g)) && (f.chain.held == [] ==> g.chain.held == [])
  }

  lemma AdvancesThen(f: Flow, g: Flow, h: Flow)
    requires Advances(f, g)
    ensures Extends(g, h) ==> Advances(f, h)
    ensures Discards(g, h) ==> Discards(f, h)
  {
  }

  lemma AdvancesByWriting(f: Flow, g: Flow, n: nat)
    requires Advances(f, g) && n <= |g.writing| && Sound(g)
    ensures Advances(f, Write(g, n)) && Sound(Write(g, n))
  {
    WriteKeepsSound(g, n);
    assert g.writing == g.writing[..n] + g.writing[n..];
  }

  predicate Delivers(f: Flow, g: Flow) {
    Advances(f, g) && g.writing == []
  }

  /** Everything waiting has reached the ring, behind what was there. */
  predicate Settles(f: Flow, g: Flow) {
    && g.epoch == f.epoch && f.ring <= g.ring && g.writing == g.pending == [] && g.resampled == f.resampled
    && f.made <= g.made && (Unflushed(f) ==> Unflushed(g)) && (f.chain.held == [] ==> g.chain.held == [])
  }

  lemma PendingDelivered(f: Flow, g: Flow, h: Flow)
    requires Sound(g) && g.writing == [] && f.epoch == g.epoch && f.ring <= g.ring && g.resampled == f.resampled
    requires f.made <= g.made && (Unflushed(f) ==> Unflushed(g)) && (f.chain.held == [] ==> g.chain.held == [])
    ensures Sound(TakePending(g))
    ensures Delivers(TakePending(g), h) ==>
      && h.writing == [] && f.epoch == h.epoch && f.ring <= h.ring && h.resampled == f.resampled
      && f.made <= h.made && (Unflushed(f) ==> Unflushed(h)) && (f.chain.held == [] ==> h.chain.held == [])
    ensures Discards(TakePending(g), h) ==> Discards(f, h)
  {
    TakePendingKeepsSound(g);
    if Delivers(TakePending(g), h) {
      assert h.ring == h.ring + h.writing == g.ring + g.pending;
    }
  }

  /** A batch with a landed seek leaves nothing from before it, in the ring, being written or waiting. */
  predicate Discards(f: Flow, g: Flow) {
    g.epoch > f.epoch && g.ring == g.writing == g.made == [] && g.resampled == []
    && g.pending == g.stale && Unflushed(g)
  }

  lemma SetFiltersExtends(f: Flow, tail: seq<Raw>, enabled: bool, lone: bool)
    requires Sound(f) && CanFlush(f, tail)
    ensures Extends(f, SetFilters(f, tail, enabled, lone))
  {
    SetFiltersKeepsSound(f, tail, enabled, lone);
  }

  lemma ExtendsThen(f: Flow, g: Flow, h: Flow)
    requires Extends(f, g)
    ensures Extends(g, h) ==> Extends(f, h)
    ensures Discards(g, h) ==> Discards(f, h)
  {
  }

  lemma {:induction false} BatchEffect(f: Flow, effects: seq<Effect>)
    requires Sound(f) && CanApply(f, effects)
    ensures Sound(Apply(f, effects))
    ensures SeekLanded !in effects ==> Extends(f, Apply(f, effects))
    ensures SeekLanded in effects ==> Discards(f, Apply(f, effects))
    decreases |effects|
  {
    if effects != [] {
      var e := effects[0];
      var g := ApplyOne(f, e);
      assert effects == [e] + effects[1..];
      if e.SeekLanded? {
        LandSeekKeepsSound(f);
        BatchEffect(g, effects[1..]);
        AfterLanding(g, effects[1..]);
      } else {
        SetFiltersKeepsSound(f, e.tail, e.enabled, e.lone);
        SetFiltersExtends(f, e.tail, e.enabled, e.lone);
        BatchEffect(g, effects[1..]);
        ExtendsThen(f, g, Apply(g, effects[1..]));
      }
    }
  }

  /** Each command that sets filters finds an enabled chain or an empty scratch. */
  predicate MeetsGuard(f: Flow, effects: seq<Effect>)
    decreases |effects|
  {
    effects == []
    || ((effects[0].FiltersSet? ==> f.chain.enabled || f.planar == [])
         && MeetsGuard(ApplyOne(f, effects[0]), effects[1..]))
  }

  /** A batch without a landed seek keeps the order exactly when each of its flushes meets the guard. */
  lemma {:induction false} BatchKeepsOrderIff(f: Flow, effects: seq<Effect>)
    requires Sound(f) && Heard(f) == f.made && CanApply(f, effects) && SeekLanded !in effects
    ensures Heard(Apply(f, effects)) == Apply(f, effects).made <==> MeetsGuard(f, effects)
  {
    CurrentLogKeepsPromises(f);
    BatchEffect(f, effects);
    CurrentLogKeepsPromises(Apply(f, effects));
    FaithfulIffGuarded(f, effects);
  }

  lemma {:induction false} FaithfulIffGuarded(f: Flow, effects: seq<Effect>)
    requires CanApply(f, effects) && SeekLanded !in effects
    ensures Apply(f, effects).faithful <==> f.faithful && MeetsGuard(f, effects)
    decreases |effects|
  {
    if effects != [] {
      assert effects[0] in effects;
      FaithfulIffGuarded(ApplyOne(f, effects[0]), effects[1..]);
    }
  }

  /** After a landing the chains hold nothing, so the rest of the batch can only push stale samples. */
  lemma {:induction false} AfterLanding(f: Flow, effects: seq<Effect>)
    requires Sound(f) && CanApply(f, effects) && f.chain.held == [] && f.resampled == []
    requires f.ring == f.writing == f.made == [] && f.pending == f.stale
    ensures
      var g := Apply(f, effects);
      && g.ring == g.writing == g.made == [] && g.resampled == [] && g.pending == g.stale && g.epoch >= f.epoch
    decreases |effects|
  {
    if effects != [] {
      var e := effects[0];
      match e {
        case SeekLanded => LandSeekKeepsSound(f);
        case FiltersSet(tail, enabled, lone) =>
          SetFiltersKeepsSound(f, tail, enabled, lone);
          NoEpochsNoSamples(tail);
      }
      AfterLanding(ApplyOne(f, e), effects[1..]);
    }
  }
}
