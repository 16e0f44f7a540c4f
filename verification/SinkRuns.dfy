/**
  The outbound queue over whole runs of its locked sections (`sink.rs`): what each lane holds, and
  what a send is told, by the sections of the run alone.
 */
module SinkRuns {
  import opened Options
  import opened Sinks

  datatype Section =
    | Sending(m: Message)
    | SendingFirst(m: Message)
    | ResumingWith(m: Message)
    | Receiving
    | Pausing
    | Resuming
    | Closing

  ghost function After(s: SinkState, section: Section): SinkState {
    match section
    case Sending(m) => s.Send(m).0
    case SendingFirst(m) => s.SendFirst(m).0
    case ResumingWith(m) => s.ResumeWithFirst(m).0
    case Receiving => s.TryRecv().0
    case Pausing => s.Pause()
    case Resuming => s.Resume()
    case Closing => s.Close()
  }

  /** Only essentials go ahead of the backlog. */
  predicate Allowed(section: Section) {
    match section
    case SendingFirst(m) => Essential(m)
    case ResumingWith(m) => Essential(m)
    case _ => true
  }

  predicate AllAllowed(run: seq<Section>) {
    forall section | section in run :: Allowed(section)
  }

  ghost function Sink(run: seq<Section>): SinkState {
    if run == [] then EMPTY_SINK else After(Sink(run[..|run| - 1]), run[|run| - 1])
  }

  lemma {:induction false} SinkIsWellFormed(run: seq<Section>)
    requires AllAllowed(run)
    ensures Sink(run).WellFormed()
  {
    if run != [] {
      var front, last := run[..|run| - 1], run[|run| - 1];
      SinkIsWellFormed(front);
      assert last in run;
      SectionsKeepWellFormed(Sink(front), match last
                                          case Sending(m) => m
                                          case SendingFirst(m) => m
                                          case ResumingWith(m) => m
                                          case _ => Stats(0));
    }
  }

  // What should be there, from the sections alone.

  /** The run has closed the sink: a close is final. */
  predicate IsClosed(run: seq<Section>) {
    Closing in run
  }

  /** Paused by the newest of the pauses and resumptions that took place. */
  ghost predicate IsPaused(run: seq<Section>)
    decreases |run|, 0
  {
    run != []
    && var front, last := run[..|run| - 1], run[|run| - 1];
      if last.Pausing? then true
      else if last.Resuming? then false
      else if last.ResumingWith? && HasRoom(front) then false
      else IsPaused(front)
  }

  /** The sink takes another essential. */
  ghost predicate HasRoom(run: seq<Section>)
    decreases |run|, 1
  {
    !IsClosed(run) && |Lane(run)| < ESSENTIAL_CAPACITY
  }

  /** The essentials waiting: taken from the front, added at the back, or put back at the front. */
  ghost function Lane(run: seq<Section>): seq<Message>
    decreases |run|, 0
  {
    if run == [] then []
    else
      var front, last := run[..|run| - 1], run[|run| - 1];
      match last
      case Closing => []
      case Receiving =>
        if IsClosed(front) || IsPaused(front) || Lane(front) == [] then Lane(front) else Lane(front)[1..]
      case Sending(m) => if Essential(m) && HasRoom(front) then Lane(front) + [m] else Lane(front)
      case SendingFirst(m) => if HasRoom(front) then [m] + Lane(front) else Lane(front)
      case ResumingWith(m) => if HasRoom(front) then [m] + Lane(front) else Lane(front)
      case _ => Lane(front)
  }

  /**
    The snapshot waiting under a key: the newest one sent for it while the sink was open and not
    paused, unless it was received since, or thrown away by a pause or a close.
   */
  ghost function Waiting(run: seq<Section>, key: SnapshotKey): Option<Message> {
    if run == [] then None
    else
      var front, last := run[..|run| - 1], run[|run| - 1];
      match last
      case Closing => None
      case Pausing => None
      case Sending(m) =>
        if CoalesceKey(m) == Some(key) && !IsClosed(front) && !IsPaused(front) then Some(m) else Waiting(front, key)
      case Receiving => if Taken(front) == Waiting(front, key) then None else Waiting(front, key)
      case _ => Waiting(front, key)
  }

  /** What a receive after the run gets: the oldest essential, or else a snapshot. */
  ghost function Taken(run: seq<Section>): Option<Message> {
    Sink(run).TryRecv().1
  }

  lemma ClosedHoldsNothing(run: seq<Section>)
    requires AllAllowed(run)
    ensures Sink(run).closed ==> Sink(run).essential == []
  {
    SinkIsWellFormed(run);
  }

  lemma OneSection(run: seq<Section>, last: Section)
    requires Sink(run).closed <==> IsClosed(run)
    requires Sink(run).paused <==> IsPaused(run)
    requires Sink(run).essential == Lane(run) && (IsClosed(run) ==> Lane(run) == [])
    requires Allowed(last)
    ensures
      var after := After(Sink(run), last);
      && (after.closed <==> IsClosed(run) || last.Closing?)
      && (after.paused <==> IsPaused(run + [last]))
      && after.essential == Lane(run + [last])
  {
    hide Sink;
    assert (run + [last])[..|run|] == run;
  }

  lemma {:induction false} FlagsAndLaneFollow(run: seq<Section>)
    requires AllAllowed(run)
    ensures Sink(run).closed <==> IsClosed(run)
    ensures Sink(run).paused <==> IsPaused(run)
    ensures Sink(run).essential == Lane(run)
  {
    hide SinkState.WellFormed;
    if run != [] {
      var front, last := run[..|run| - 1], run[|run| - 1];
      FlagsAndLaneFollow(front);
      assert run == front + [last];
      assert last in run && Allowed(last);
      ClosedHoldsNothing(front);
      hide AllAllowed;
      OneSection(front, last);
    }
  }

  /** Each snapshot waiting is the newest of its key, and nothing else waits. */
  lemma {:induction false} SnapshotsAreTheNewest(run: seq<Section>, key: SnapshotKey)
    requires AllAllowed(run)
    ensures Waiting(run, key) == if key in Sink(run).snapshots then Some(Sink(run).snapshots[key]) else None
  {
    if run != [] {
      var front, last := run[..|run| - 1], run[|run| - 1];
      SnapshotsAreTheNewest(front, key);
      FlagsAndLaneFollow(front);
      SinkIsWellFormed(front);
      if last.Receiving? {
        ReceiveEmptiesItsKey(Sink(front), key);
      }
    }
  }

  lemma ReceiveEmptiesItsKey(s: SinkState, key: SnapshotKey)
    requires s.WellFormed()
    ensures
      var (rest, taken) := s.TryRecv();
      if key in s.snapshots && taken == Some(s.snapshots[key]) then key !in rest.snapshots
      else (key in rest.snapshots <==> key in s.snapshots)
           && (key in s.snapshots ==> rest.snapshots[key] == s.snapshots[key])
  {
    if s.essential != [] {
      assert Essential(s.essential[0]);
    }
  }

  /**
    What a receive hands over in any run: the essential that has waited longest, and otherwise, for
    the least key with a snapshot, the newest sent for it. It gets nothing only if the sink is
    closed or paused or holds nothing.
   */
  lemma ReceivedIsTheNewest(run: seq<Section>)
    requires AllAllowed(run)
    ensures Lane(run) != [] ==>
      Taken(run) == if IsClosed(run) || IsPaused(run) then None else Some(Lane(run)[0])
    ensures Lane(run) == [] && Taken(run).Some? ==>
      exists key :: IsLeastWaiting(run, key) && Taken(run) == Waiting(run, key)
    ensures Lane(run) == [] && Taken(run).None? ==> forall key :: Waiting(run, key).None?
  {
    FlagsAndLaneFollow(run);
    SinkIsWellFormed(run);
    ReceiveTakesLeastSnapshot(Sink(run));
    forall key ensures Waiting(run, key).Some? <==> key in Sink(run).snapshots {
      SnapshotsAreTheNewest(run, key);
    }
    if Lane(run) == [] && Taken(run).Some? {
      var key :| IsLeastKey(key, Sink(run).snapshots.Keys) && Taken(run) == Some(Sink(run).snapshots[key]);
      SnapshotsAreTheNewest(run, key);
      assert IsLeastWaiting(run, key);
    }
  }

  ghost predicate IsLeastWaiting(run: seq<Section>, key: SnapshotKey) {
    Waiting(run, key).Some? && forall other :: Waiting(run, other).Some? ==> KeyLeq(key, other)
  }

  /** A send is refused exactly when the sink is closed, or is full and the message may not be dropped. */
  lemma RefusedIff(run: seq<Section>, m: Message)
    requires AllAllowed(run)
    ensures Sink(run).Send(m).1
         == if IsClosed(run) then Refused(Closed)
            else if Essential(m) && !HasRoom(run) then Refused(Overflow) else Sent
    ensures Sink(run).SendFirst(m).1
         == if IsClosed(run) then Refused(Closed) else if !HasRoom(run) then Refused(Overflow) else Sent
    ensures Sink(run).ResumeWithFirst(m).1 == Sink(run).SendFirst(m).1
    ensures Sink(run).IsOverflowing() <==> |Lane(run)| == ESSENTIAL_CAPACITY
  {
    FlagsAndLaneFollow(run);
    SinkIsWellFormed(run);
  }

  /** After a send is accepted unpaused its snapshot is the one that waits, and nothing else has changed. */
  lemma SendReplacesItsKey(run: seq<Section>, m: Message, key: SnapshotKey)
    requires AllAllowed(run) && CoalesceKey(m) == Some(key) && !IsClosed(run) && !IsPaused(run)
    ensures Sink(run + [Sending(m)]).snapshots == Sink(run).snapshots[key := m]
    ensures Sink(run + [Sending(m)]).essential == Sink(run).essential
  {
    FlagsAndLaneFollow(run);
    assert (run + [Sending(m)])[..|run|] == run;
  }

  /** Ready and events must arrive; of the rest only the newest counts, one of each player and one of the node. */
  lemma WhatCoalesces(a: Message, b: Message)
    ensures Essential(a) <==> a.Ready? || a.Event?
    ensures !Essential(a) && !Essential(b) ==>
      (CoalesceKey(a) == CoalesceKey(b) <==>
        (a.Stats? && b.Stats?) || (a.PlayerUpdate? && b.PlayerUpdate? && a.guild == b.guild))
  {
  }

  /** Stats come before every player, and players by the first character in which their guilds differ. */
  lemma {:induction false} SnapshotsComeInOrder(common: string, a: string, b: string)
    ensures KeyLeq(StatsKey, PlayerKey(a)) && !KeyLeq(PlayerKey(a), StatsKey)
    ensures KeyLeq(PlayerKey(common), PlayerKey(common + a))
    ensures a != [] && b != [] && a[0] < b[0] ==>
      KeyLeq(PlayerKey(common + a), PlayerKey(common + b)) && !KeyLeq(PlayerKey(common + b), PlayerKey(common + a))
  {
    if common == [] {
      assert common + a == a && common + b == b;
    } else {
      SnapshotsComeInOrder(common[1..], a, b);
      assert (common + a)[1..] == common[1..] + a && (common + b)[1..] == common[1..] + b;
    }
  }
}
