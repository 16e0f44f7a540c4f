/**
  The position counter of one player and all that store into it: the rings made for it one after
  another (`ring.rs`), the reports and seeks of direct playbacks (`engine.rs`), and the player's
  actor with the engine calls it makes (`actor.rs`, `engine.rs`). Each step is one store, or one
  section under a lock. A ring that `start_pump` makes is nobody's until the section that installs
  it: its reader and its writer are handed out only after that.
 */
module PlayerPosition {
  import opened Options
  import opened RingPosition

  /** What the engine holds: nothing, the newest ring, or a direct playback. */
  datatype Held = Nothing | NewestRing | Direct(playback: nat)

  /**
    A direct playback's store that has found its playback current and is still to come: a report,
    which goes on only if it finds no seek pending, or the end of a seek, which clears it first.
   */
  datatype Late =
    | Report(playback: nat, passed: bool)
    | SeekEnd(playback: nat, cleared: bool, landed: Option<int>)
  {
    /** Only its last step is left. */
    predicate Ready() {
      match this
      case Report(_, passed) => passed
      case SeekEnd(_, cleared, _) => cleared
    }
  }

  /** The rest of what the actor is doing; it finishes one request before the next. */
  datatype Actor =
    | Free
    | Storing(value: int, rest: Actor)
    | Taking(rest: Actor)                    // `stop_active` takes what is held
    | Detaching(ring: nat, rest: Actor)      // and then detaches the ring it took
    | Starting                               // about to install a ring or a direct playback

  /**
    The rings made so far with their clocks and unfinished seeks, and the pending seeks of the
    direct playbacks made so far.
   */
  datatype Player = Player(
    rings: seq<Seeks>,
    directs: seq<int>,
    position: int,
    held: Held,
    late: seq<Late>,
    actor: Actor)

  const IDLE_PLAYER := Player([], [], 0, Nothing, [], Free)

  datatype Step =
    | BeginSeek(target: int)      // announces where the engine holds something; a store follows
    | BeginStop(zeros: nat)       // `stop_track` stores 0 twice, `stop` once, `shutdown` never
    | BeginPlay(position: int)
    | Store
    | Take
    | Detach
    | StartRing(start: int)
    | StartDirect
    | Transition(start: int)       // a direct playback gives way to a ring
    | Hand(ring: nat, samples: nat)
    | LandAt(ring: nat)            // the pump finishes its oldest seek
    | CancelAt(ring: nat)
    | CheckReport
    | CheckSeekEnd(landed: Option<int>)
    | LookAtPending(i: nat)
    | ClearPending(i: nat)
    | StoreLate(i: nat, observed: int)

  function Zeros(n: nat): Actor {
    if n == 0 then Free else Storing(0, Zeros(n - 1))
  }

  /** The player's requests, which the actor takes up only when it is free. */
  predicate Begins(step: Step) {
    step.BeginSeek? || step.BeginStop? || step.BeginPlay?
  }

  predicate Enabled(p: Player, step: Step) {
    match step
    case BeginSeek(_) => p.actor.Free?
    case BeginStop(_) => p.actor.Free?
    case BeginPlay(_) => p.actor.Free?
    case Store => p.actor.Storing?
    case Take => p.actor.Taking?
    case Detach => p.actor.Detaching? && p.actor.ring < |p.rings|
    case StartRing(_) => p.actor.Starting? && p.held.Nothing?
    case StartDirect => p.actor.Starting? && p.held.Nothing?
    case Transition(_) => p.held.Direct?
    case Hand(ring, _) => ring < |p.rings|
    case LandAt(ring) => ring < |p.rings| && CanTake(p.rings[ring], Land)
    case CancelAt(ring) => ring < |p.rings| && CanTake(p.rings[ring], Cancel)
    case CheckReport => p.held.Direct?
    case CheckSeekEnd(_) => p.held.Direct?
    case LookAtPending(i) =>
      i < |p.late| && p.late[i].Report? && !p.late[i].Ready() && p.late[i].playback < |p.directs|
    case ClearPending(i) =>
      i < |p.late| && p.late[i].SeekEnd? && !p.late[i].Ready() && p.late[i].playback < |p.directs|
    case StoreLate(i, _) => i < |p.late| && p.late[i].Ready()
  }

  function WithRing(p: Player, ring: nat, s: Seeks): Player
    requires ring < |p.rings|
  {
    p.(rings := p.rings[ring := s])
  }

  /** A ring's step after which it refreshes the counter. */
  function Refreshed(p: Player, ring: nat, s: Seeks): Player
    requires ring < |p.rings|
  {
    WithRing(p, ring, s).(position := s.clock.Refresh(p.position))
  }

  function WithoutLate(p: Player, i: nat): Player
    requires i < |p.late|
  {
    p.(late := p.late[..i] + p.late[i + 1..])
  }

  function Announced(p: Player, target: int): Player {
    match p.held
    case Nothing => p
    case NewestRing =>
      if p.rings == [] then p
      else WithRing(p, |p.rings| - 1, RingPosition.Take(p.rings[|p.rings| - 1], Announce(target)))
    case Direct(d) => if d < |p.directs| then p.(directs := p.directs[d := target]) else p
  }

  function Perform(p: Player, step: Step): Player
    requires Enabled(p, step)
  {
    match step
    case BeginSeek(target) => Announced(p, target).(actor := Storing(target, Free))
    case BeginStop(zeros) => p.(actor := Taking(Zeros(zeros)))
    case BeginPlay(position) => p.(actor := Storing(position, Taking(Starting)))
    case Store => p.(position := p.actor.value, actor := p.actor.rest)
    case Take =>
      p.(held := Nothing,
         actor := if p.held.NewestRing? && p.rings != [] then Detaching(|p.rings| - 1, p.actor.rest) else p.actor.rest)
    case Detach =>
      var ring := p.rings[p.actor.ring];
      WithRing(p, p.actor.ring, ring.(clock := ring.clock.Detach())).(actor := p.actor.rest)
    case StartRing(start) => p.(rings := p.rings + [Opening(start)], held := NewestRing, actor := Free)
    case StartDirect => p.(directs := p.directs + [NO_SEEK], held := Direct(|p.directs|), actor := Free)
    case Transition(start) => p.(rings := p.rings + [Opening(start)], held := NewestRing)
    case Hand(ring, samples) => Refreshed(p, ring, RingPosition.Take(p.rings[ring], Play(samples)))
    case LandAt(ring) => Refreshed(p, ring, RingPosition.Take(p.rings[ring], Land))
    case CancelAt(ring) => WithRing(p, ring, RingPosition.Take(p.rings[ring], Cancel))
    case CheckReport => p.(late := p.late + [Report(p.held.playback, false)])
    case CheckSeekEnd(landed) => p.(late := p.late + [SeekEnd(p.held.playback, false, landed)])
    case ClearPending(i) =>
      p.(directs := p.directs[p.late[i].playback := NO_SEEK], late := p.late[i := p.late[i].(cleared := true)])
    case LookAtPending(i) =>
      if p.directs[p.late[i].playback] == NO_SEEK then p.(late := p.late[i := p.late[i].(passed := true)])
      else WithoutLate(p, i)
    case StoreLate(i, observed) =>
      var stored := match p.late[i]
                    case Report(_, _) => observed
                    case SeekEnd(_, _, landed) => if landed.Some? then landed.value else p.position;
      WithoutLate(p, i).(position := stored)
  }

  /** Whether a step stores into the counter, be it the value already there. */
  predicate Stores(p: Player, step: Step)
    requires Enabled(p, step)
  {
    match step
    case Store => true
    case Hand(ring, _) => p.rings[ring].clock.owns
    case LandAt(ring) => p.rings[ring].clock.owns
    case StoreLate(i, _) => p.late[i].Report? || p.late[i].landed.Some?
    case _ => false
  }

  predicate ByHeldRing(p: Player, step: Step) {
    p.held.NewestRing? && (step.Hand? || step.LandAt?) && step.ring == |p.rings| - 1
  }

  ghost predicate Performs(first: Player, steps: seq<Step>, last: Player)
    decreases |steps|
  {
    if steps == [] then first == last
    else Enabled(first, steps[0]) && Performs(Perform(first, steps[0]), steps[1..], last)
  }

  ghost predicate Reachable(p: Player) {
    exists steps :: Performs(IDLE_PLAYER, steps, p)
  }

  /** A step that is no store leaves the counter alone. */
  lemma OnlyStoresMoveTheCounter(p: Player, step: Step)
    requires Enabled(p, step) && !Stores(p, step)
    ensures Perform(p, step).position == p.position
  {
  }

  // Who owns the counter.

  /** The ring that may store: the held one, or one taken out and not yet detached. */
  predicate MayOwn(p: Player, ring: int) {
    ring == |p.rings| - 1 && (p.held.NewestRing? || (p.actor.Detaching? && p.actor.ring == ring))
  }

  ghost predicate Inv(p: Player) {
    OwnersOk(p) && LateOk(p) && RingsOk(p) && StartsAfterTaking(p.actor)
  }

  ghost predicate OwnersOk(p: Player) {
    && (forall i | 0 <= i < |p.rings| :: p.rings[i].clock.owns <==> MayOwn(p, i))
    && (p.held.NewestRing? ==> p.rings != [])
    && (p.actor.Detaching? ==> p.held.Nothing? && p.actor.ring == |p.rings| - 1)
    && (p.actor.Starting? ==> p.held.Nothing?)
  }

  /** Every ring, held or not, knows exactly what is pending and what has been played. */
  ghost predicate RingsOk(p: Player) {
    forall i | 0 <= i < |p.rings| :: PendingIsExact(p.rings[i]) && CountIsExact(p.rings[i])
  }

  predicate LateOk(p: Player) {
    && (p.held.Direct? ==> p.held.playback < |p.directs|)
    && (forall i | 0 <= i < |p.late| :: p.late[i].playback < |p.directs|)
  }

  /** A start is only ever the last thing, right after a taking and its detaching. */
  predicate StartsAfterTaking(a: Actor) {
    match a
    case Free => true
    case Starting => true
    case Storing(_, rest) => !rest.Starting? && !rest.Detaching? && StartsAfterTaking(rest)
    case Taking(rest) => !rest.Detaching? && StartsAfterTaking(rest)
    case Detaching(_, rest) => !rest.Detaching? && StartsAfterTaking(rest)
  }

  lemma {:induction false} ZerosAreStores(n: nat)
    ensures StartsAfterTaking(Zeros(n)) && !Zeros(n).Starting? && !Zeros(n).Detaching?
  {
    if n > 0 {
      ZerosAreStores(n - 1);
    }
  }

  lemma StepKeepsLateOk(p: Player, step: Step)
    requires LateOk(p) && Enabled(p, step)
    ensures LateOk(Perform(p, step))
  {
  }

  lemma StepKeepsOwnersOk(p: Player, step: Step)
    requires OwnersOk(p) && StartsAfterTaking(p.actor) && Enabled(p, step)
    ensures OwnersOk(Perform(p, step)) && StartsAfterTaking(Perform(p, step).actor)
  {
    if step.BeginStop? {
      ZerosAreStores(step.zeros);
    }
  }

  lemma StepKeepsRingsOk(p: Player, step: Step)
    requires RingsOk(p) && Enabled(p, step)
    ensures RingsOk(Perform(p, step))
  {
    hide PendingIsExact, CountIsExact, RingPosition.Take;
    if step.Hand? {
      OneStepStaysExact(p.rings[step.ring], Play(step.samples));
    } else if step.LandAt? {
      OneStepStaysExact(p.rings[step.ring], Land);
    } else if step.CancelAt? {
      OneStepStaysExact(p.rings[step.ring], Cancel);
    } else if step.BeginSeek? && p.held.NewestRing? && p.rings != [] {
      OneStepStaysExact(p.rings[|p.rings| - 1], Announce(step.target));
    } else if step.Detach? {
      DetachingStaysExact(p.rings[p.actor.ring]);
    } else if step.StartRing? || step.Transition? {
      OpeningIsExact(step.start);
    }
  }

  lemma DetachingStaysExact(s: Seeks)
    requires PendingIsExact(s) && CountIsExact(s)
    ensures PendingIsExact(s.(clock := s.clock.Detach())) && CountIsExact(s.(clock := s.clock.Detach()))
  {
  }

  lemma StepKeepsInv(p: Player, step: Step)
    requires Inv(p) && Enabled(p, step)
    ensures Inv(Perform(p, step))
  {
    hide OwnersOk, LateOk, RingsOk, StartsAfterTaking;
    StepKeepsRingsOk(p, step);
    StepKeepsLateOk(p, step);
    StepKeepsOwnersOk(p, step);
  }

  lemma {:induction false} RunKeepsInv(first: Player, steps: seq<Step>, last: Player)
    requires Inv(first) && Performs(first, steps, last)
    ensures Inv(last)
    decreases |steps|
  {
    if steps != [] {
      StepKeepsInv(first, steps[0]);
      RunKeepsInv(Perform(first, steps[0]), steps[1..], last);
    }
  }

  lemma ReachableKeepsInv(p: Player)
    requires Reachable(p)
    ensures Inv(p)
  {
    var steps :| Performs(IDLE_PLAYER, steps, p);
    RunKeepsInv(IDLE_PLAYER, steps, p);
  }

  /** Of all rings only the newest may store, and only until the engine has detached it. */
  lemma OneRingOwns(p: Player, i: nat)
    requires Reachable(p) && i < |p.rings|
    ensures p.rings[i].clock.owns <==> i == |p.rings| - 1 && (p.held.NewestRing? || p.actor.Detaching?)
  {
    ReachableKeepsInv(p);
  }

  /** A detached ring never stores again, in any run, whatever it plays or lands. */
  lemma {:induction false} DetachedForever(p: Player, steps: seq<Step>, last: Player, ring: nat)
    requires Performs(p, steps, last) && ring < |p.rings| && !p.rings[ring].clock.owns
    ensures ring < |last.rings| && !last.rings[ring].clock.owns
    ensures forall step: Step | (step.Hand? || step.LandAt?) && step.ring == ring ::
              Enabled(last, step) ==> !Stores(last, step)
    decreases |steps|
  {
    if steps != [] {
      DetachedForever(Perform(p, steps[0]), steps[1..], last, ring);
    }
  }

  /**
    What the held ring stores, over all the rings a player has had: the target of its newest
    announced seek while that is unfinished and no equal target was retired since, and otherwise
    the last target it landed plus the time of the whole frames it has handed over since.
   */
  lemma HeldRingReports(p: Player, step: Step)
    requires Reachable(p) && Enabled(p, step) && ByHeldRing(p, step)
    ensures |Perform(p, step).rings| == |p.rings|
    ensures
      var s := Perform(p, step).rings[step.ring];
      Perform(p, step).position
        == if s.Underway() && s.Target() !in s.since && s.Target() != NO_SEEK then s.Target()
           else s.landed + s.played / 96
  {
    ReachableKeepsInv(p);
    StepKeepsRingsOk(p, step);
    HeldRingRefreshes(p, step);
    ExactReport(Perform(p, step).rings[step.ring], p.position);
  }

  lemma HeldRingRefreshes(p: Player, step: Step)
    requires Enabled(p, step) && ByHeldRing(p, step) && OwnersOk(p)
    ensures |Perform(p, step).rings| == |p.rings| && Perform(p, step).rings[step.ring].clock.owns
    ensures Perform(p, step).position == Perform(p, step).rings[step.ring].clock.Refresh(p.position)
  {
  }

  // What the actor and the direct playbacks store.

  /** The values the actor has yet to store. */
  function Awaited(a: Actor): seq<int> {
    match a
    case Storing(value, rest) => [value] + Awaited(rest)
    case Taking(rest) => Awaited(rest)
    case Detaching(_, rest) => Awaited(rest)
    case _ => []
  }

  /** What the requests of a run ask to be stored: a seek its target, a play its start, a stop its zeros. */
  function Requested(steps: seq<Step>): seq<int> {
    if steps == [] then []
    else
      (match steps[0]
       case BeginSeek(target) => [target]
       case BeginPlay(position) => [position]
       case BeginStop(zeros) => seq(zeros, _ => 0)
       case _ => [])
      + Requested(steps[1..])
  }

  /** The positions right after the actor's own stores of a run. */
  ghost function Stored(first: Player, steps: seq<Step>, last: Player): seq<int>
    requires Performs(first, steps, last)
    decreases |steps|
  {
    if steps == [] then []
    else
      (if steps[0].Store? then [Perform(first, steps[0]).position] else [])
      + Stored(Perform(first, steps[0]), steps[1..], last)
  }

  lemma {:induction false} ZerosAreAwaited(n: nat)
    ensures Awaited(Zeros(n)) == seq(n, _ => 0)
  {
    if n > 0 {
      ZerosAreAwaited(n - 1);
      assert seq(n, _ => 0) == [0] + seq(n - 1, _ => 0);
    }
  }

  /** A request is taken up only by a free actor, and a start only comes last. */
  lemma OneStepAwaits(p: Player, step: Step)
    requires Enabled(p, step)
    ensures Begins(step) ==> Awaited(p.actor) == [] && Awaited(Perform(p, step).actor) == Requested([step])
    ensures step.Store? ==> Awaited(p.actor) == [Perform(p, step).position] + Awaited(Perform(p, step).actor)
    ensures !Begins(step) && !step.Store? ==> Awaited(Perform(p, step).actor) == Awaited(p.actor)
    ensures !Begins(step) ==> Requested([step]) == []
  {
    assert [step][1..] == [];
    if step.BeginStop? {
      ZerosAreAwaited(step.zeros);
    }
  }

  /** Every value a request asks for is stored once, in order, and the actor stores nothing else. */
  lemma {:induction false} ActorStoresWhatWasRequested(first: Player, steps: seq<Step>, last: Player)
    requires Performs(first, steps, last)
    ensures Stored(first, steps, last) + Awaited(last.actor) == Awaited(first.actor) + Requested(steps)
    decreases |steps|
  {
    hide Perform, Awaited, Requested, Enabled;
    FirstRequest(steps);
    if steps != [] {
      var next := Perform(first, steps[0]);
      OneStepAwaits(first, steps[0]);
      ActorStoresWhatWasRequested(next, steps[1..], last);
      var later, left := Stored(next, steps[1..], last), Awaited(last.actor);
      if steps[0].Store? {
        assert Stored(first, steps, last) + left == [next.position] + (later + left);
      } else {
        assert Stored(first, steps, last) == later;
      }
    }
  }

  lemma FirstRequest(steps: seq<Step>)
    ensures steps == [] ==> Requested(steps) == []
    ensures steps != [] ==> Requested(steps) == Requested([steps[0]]) + Requested(steps[1..])
  {
    if steps != [] {
      assert [steps[0]][1..] == [];
    }
  }

  /** A step that leaves the announced seek of a direct playback pending. */
  predicate LeavesPending(p: Player, step: Step, d: nat)
    requires Enabled(p, step)
  {
    !step.BeginSeek? && !(step.ClearPending? && p.late[step.i].playback == d)
  }

  ghost predicate AllLeavePending(first: Player, steps: seq<Step>, last: Player, d: nat)
    requires Performs(first, steps, last)
    decreases |steps|
  {
    steps == []
    || (LeavesPending(first, steps[0], d) && AllLeavePending(Perform(first, steps[0]), steps[1..], last, d))
  }

  /**
    While a seek of a direct playback is pending its reports are dropped: from its announcement to
    its end, in every run, a report that looks finds it and goes no further.
   */
  lemma PendingSeekSilencesReports(p: Player, target: int, steps: seq<Step>, last: Player)
    requires LateOk(p) && p.held.Direct? && p.actor.Free? && target != NO_SEEK
    requires Performs(Perform(p, BeginSeek(target)), steps, last)
    requires AllLeavePending(Perform(p, BeginSeek(target)), steps, last, p.held.playback)
    ensures p.held.playback < |last.directs| && last.directs[p.held.playback] == target
    ensures forall i | 0 <= i < |last.late| && last.late[i] == Report(p.held.playback, false) ::
              Enabled(last, LookAtPending(i)) && Perform(last, LookAtPending(i)) == WithoutLate(last, i)
  {
    StaysPending(Perform(p, BeginSeek(target)), steps, last, p.held.playback);
  }

  lemma {:induction false} StaysPending(first: Player, steps: seq<Step>, last: Player, d: nat)
    requires Performs(first, steps, last) && AllLeavePending(first, steps, last, d) && d < |first.directs|
    ensures d < |last.directs| && last.directs[d] == first.directs[d]
    decreases |steps|
  {
    if steps != [] {
      StaysPending(Perform(first, steps[0]), steps[1..], last, d);
    }
  }

  /** A direct seek reports where it landed once its pending target is cleared; one that failed, nothing. */
  lemma DirectSeekEnds(p: Player, landed: Option<int>, observed: int) returns (ended: Player)
    requires Reachable(p) && p.held.Direct?
    ensures Performs(p, [CheckSeekEnd(landed), ClearPending(|p.late|), StoreLate(|p.late|, observed)], ended)
    ensures p.held.playback < |p.directs| == |ended.directs| && ended.directs[p.held.playback] == NO_SEEK
    ensures ended.position == if landed.Some? then landed.value else p.position
  {
    ReachableKeepsInv(p);
    var i := |p.late|;
    var checked := Perform(p, CheckSeekEnd(landed));
    assert checked.late[i] == SeekEnd(p.held.playback, false, landed);
    var cleared := Perform(checked, ClearPending(i));
    assert cleared.late[i] == SeekEnd(p.held.playback, true, landed);
    ended := Perform(cleared, StoreLate(i, observed));
    TwoSteps(checked, ClearPending(i), StoreLate(i, observed));
    var steps := [CheckSeekEnd(landed), ClearPending(i), StoreLate(i, observed)];
    assert steps[1..] == [ClearPending(i), StoreLate(i, observed)];
  }

  // When the held ring is the only one to store.

  /** A store of a direct playback that can still come, now or once a seek of it has cleared its target. */
  ghost predicate CanStore(p: Player, l: Late) {
    match l
    case SeekEnd(_, _, landed) => landed.Some?
    case Report(d, passed) =>
      passed || (d < |p.directs| && (p.directs[d] == NO_SEEK || exists m :: m in p.late && Clears(m, d)))
  }

  predicate Clears(m: Late, d: nat) {
    m.SeekEnd? && m.playback == d && !m.cleared
  }

  /** The actor is free, and no store of a direct playback can still come. */
  ghost predicate Alone(p: Player) {
    p.actor.Free? && forall l | l in p.late :: !CanStore(p, l)
  }

  ghost predicate Quiet(steps: seq<Step>) {
    forall i | 0 <= i < |steps| :: !Begins(steps[i])
  }

  /** Until the actor takes up another request, whatever stores is the ring then held. */
  ghost predicate HeldRingStoresAlone(p: Player) {
    forall steps, mid, step | Performs(p, steps, mid) && Quiet(steps) && Enabled(mid, step) && Stores(mid, step) ::
      ByHeldRing(mid, step)
  }

  lemma AloneStays(p: Player, step: Step)
    requires Inv(p) && p.held.NewestRing? && Alone(p) && Enabled(p, step) && !Begins(step)
    ensures Alone(Perform(p, step)) && Perform(p, step).held.NewestRing?
    ensures Stores(p, step) ==> ByHeldRing(p, step)
  {
    var after := Perform(p, step);
    if step.ClearPending? {
      ClearingStaysAlone(p, step.i);
    } else {
      if step.StoreLate? || step.LookAtPending? {
        assert p.late[step.i] in p.late && !CanStore(p, p.late[step.i]);
      }
      assert forall m | m in after.late :: m in p.late;
      forall l | l in after.late ensures !CanStore(after, l) {
        assert !CanStore(p, l);
      }
    }
  }

  lemma ClearingStaysAlone(p: Player, i: nat)
    requires Inv(p) && Alone(p) && Enabled(p, ClearPending(i))
    ensures Alone(Perform(p, ClearPending(i)))
  {
    var after, cleared := Perform(p, ClearPending(i)), p.late[i];
    assert cleared in p.late && Clears(cleared, cleared.playback);
    forall l | l in after.late ensures !CanStore(after, l) {
      var j :| 0 <= j < |after.late| && after.late[j] == l;
      assert p.late[j] in p.late && !CanStore(p, p.late[j]);
      if l.Report? {
        assert l in p.late;
        assert l.playback != cleared.playback;
        forall m | m in after.late ensures !Clears(m, l.playback) {
          assert m in p.late || m == cleared.(cleared := true);
        }
      }
    }
  }

  lemma {:induction false} AloneThroughout(p: Player, steps: seq<Step>, mid: Player)
    requires Inv(p) && p.held.NewestRing? && Alone(p) && Performs(p, steps, mid) && Quiet(steps)
    ensures Inv(mid) && Alone(mid) && mid.held.NewestRing?
    decreases |steps|
  {
    if steps != [] {
      StepKeepsInv(p, steps[0]);
      AloneStays(p, steps[0]);
      AloneThroughout(Perform(p, steps[0]), steps[1..], mid);
    }
  }

  /** Otherwise some run has a store by another than the held ring. */
  lemma AnotherCanStore(p: Player) returns (steps: seq<Step>, mid: Player, step: Step)
    requires Inv(p) && p.held.NewestRing? && !Alone(p)
    ensures Performs(p, steps, mid) && Quiet(steps) && Enabled(mid, step) && Stores(mid, step) && !ByHeldRing(mid, step)
  {
    steps, mid := [], p;
    if p.actor.Storing? {
      step := Store;
    } else if p.actor.Taking? {
      mid := Perform(p, Take);
      OneStep(p, Take);
      steps, step := [Take], Hand(|p.rings| - 1, 1);
    } else {
      var l :| l in p.late && CanStore(p, l);
      var i :| 0 <= i < |p.late| && p.late[i] == l;
      step := StoreLate(i, 0);
      if l.SeekEnd? && !l.cleared {
        steps, mid := [ClearPending(i)], Perform(p, ClearPending(i));
        OneStep(p, ClearPending(i));
      } else if l.Report? && !l.passed {
        steps, mid := ReportCanPass(p, i);
      }
    }
  }

  /** A report whose playback has no seek pending, or has one about to be cleared, can come to its store. */
  lemma ReportCanPass(p: Player, i: nat) returns (steps: seq<Step>, mid: Player)
    requires i < |p.late| && p.late[i].Report? && !p.late[i].passed && CanStore(p, p.late[i])
    ensures Performs(p, steps, mid) && Quiet(steps)
    ensures i < |mid.late| && mid.late[i].Report? && mid.late[i].passed
  {
    var l := p.late[i];
    if p.directs[l.playback] == NO_SEEK {
      OneStep(p, LookAtPending(i));
      steps, mid := [LookAtPending(i)], Perform(p, LookAtPending(i));
    } else {
      var m :| m in p.late && Clears(m, l.playback);
      var j :| 0 <= j < |p.late| && p.late[j] == m;
      TwoSteps(p, ClearPending(j), LookAtPending(i));
      steps, mid := [ClearPending(j), LookAtPending(i)], Perform(Perform(p, ClearPending(j)), LookAtPending(i));
    }
  }

  lemma OneStep(p: Player, step: Step)
    requires Enabled(p, step)
    ensures Performs(p, [step], Perform(p, step))
  {
    assert [step][1..] == [];
  }

  lemma TwoSteps(p: Player, a: Step, b: Step)
    requires Enabled(p, a) && Enabled(Perform(p, a), b)
    ensures Performs(p, [a, b], Perform(Perform(p, a), b))
  {
    OneStep(Perform(p, a), b);
    assert [a, b][1..] == [b];
  }

  /**
    While a ring is held, every store until the actor's next request is that ring's, in every run, if
    and only if the actor is free and no store of an earlier direct playback is still to come.
   */
  lemma HeldRingStoresAloneIff(p: Player)
    requires Reachable(p) && p.held.NewestRing?
    ensures HeldRingStoresAlone(p) <==> Alone(p)
  {
    ReachableKeepsInv(p);
    if Alone(p) {
      forall steps, mid, step | Performs(p, steps, mid) && Quiet(steps) && Enabled(mid, step) && Stores(mid, step)
        ensures ByHeldRing(mid, step)
      {
        AloneThroughout(p, steps, mid);
        AloneStays(mid, step);
      }
    } else {
      var steps, mid, step := AnotherCanStore(p);
    }
  }

  // The ways another stores after all.

  /**
    The actor's own store after a seek can come after the ring has landed the seek and played on,
    and puts the position back to the target.
   */
  lemma SeekStoreComesLate(p: Player, target: int, samples: nat) returns (ring: nat, played: Player)
    requires Reachable(p) && p.held.NewestRing? && p.actor.Free?
    requires p.rings != [] && p.rings[|p.rings| - 1].unfinished == []
    ensures Performs(p, [BeginSeek(target), LandAt(ring), Hand(ring, samples)], played)
    ensures played.held.NewestRing? && ring == |played.rings| - 1
    ensures played.position == target + 1000 * (samples / CHANNELS) / SAMPLE_RATE
    ensures Enabled(played, Store) && Perform(played, Store).position == target
  {
    ReachableKeepsInv(p);
    ring := |p.rings| - 1;
    var begun := Perform(p, BeginSeek(target));
    TwoSteps(begun, LandAt(ring), Hand(ring, samples));
    played := Perform(Perform(begun, LandAt(ring)), Hand(ring, samples));
    assert [BeginSeek(target), LandAt(ring), Hand(ring, samples)][1..] == [LandAt(ring), Hand(ring, samples)];
  }

  /** Or after the pump has cancelled the seek, and then it reports a target that nothing will reach. */
  lemma CancelledSeekIsStored(p: Player, target: int) returns (ring: nat, cancelled: Player)
    requires Reachable(p) && p.held.NewestRing? && p.actor.Free?
    requires p.rings != [] && p.rings[|p.rings| - 1].unfinished == []
    ensures Performs(p, [BeginSeek(target), CancelAt(ring)], cancelled)
    ensures ring == |cancelled.rings| - 1 == |p.rings| - 1
    ensures cancelled.rings[ring].unfinished == [] && cancelled.rings[ring].clock == p.rings[ring].clock
    ensures Enabled(cancelled, Store) && Perform(cancelled, Store).position == target
  {
    ReachableKeepsInv(p);
    ring := |p.rings| - 1;
    TwoSteps(p, BeginSeek(target), CancelAt(ring));
    cancelled := Perform(Perform(p, BeginSeek(target)), CancelAt(ring));
  }

  /** And a report of a direct playback that gave way to a ring can store over the ring's position. */
  lemma ReportComesLate(p: Player, start: int, observed: int) returns (ring: Player)
    requires Reachable(p) && p.held.Direct?
    ensures p.held.playback < |p.directs|
    ensures Performs(p, [CheckReport, Transition(start)], ring) && ring.held.NewestRing?
    ensures p.directs[p.held.playback] == NO_SEEK ==>
      var i := |p.late|;
      && Enabled(ring, LookAtPending(i)) && Enabled(Perform(ring, LookAtPending(i)), StoreLate(i, observed))
      && Perform(Perform(ring, LookAtPending(i)), StoreLate(i, observed)).position == observed
  {
    ReachableKeepsInv(p);
    TwoSteps(p, CheckReport, Transition(start));
    ring := Perform(Perform(p, CheckReport), Transition(start));
    assert ring.late[|p.late|] == Report(p.held.playback, false);
  }
}
