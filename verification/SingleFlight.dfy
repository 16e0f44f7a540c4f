/**
  Single flight under cancellation (`loader.rs`): any number of requests for any identifiers,
  each following the load in flight or leading one of its own, and dropped at any of its waits.
  Every step is one section under a lock, one send or one drop of the source.
 */
module SingleFlight {
  import opened Options
  import opened LoadTables

  /** How far one call of `load` is. A leader carries its channel until its senders are dropped. */
  datatype Stage =
    | Arrived
    | Joining
    | Following(channel: ChannelId)
    | Leading(channel: ChannelId)
    | Loaded(channel: ChannelId, result: LoadResult)
    | Stored(channel: ChannelId, result: LoadResult)
    | Removed(channel: ChannelId, result: LoadResult)
    | Published(channel: ChannelId, result: LoadResult)
    | Unwinding(channel: ChannelId)
    | Unguarded(channel: ChannelId, answer: Option<LoadResult>)
    | Answered(result: LoadResult)
    | Cancelled
  {
    /** The channel this request sends on, while it holds a sender. */
    function Owned(): Option<ChannelId> {
      match this
      case Leading(c) => Some(c)
      case Loaded(c, _) => Some(c)
      case Stored(c, _) => Some(c)
      case Removed(c, _) => Some(c)
      case Published(c, _) => Some(c)
      case Unwinding(c) => Some(c)
      case Unguarded(c, _) => Some(c)
      case _ => None
    }

    /** Before its removal, a leader's own entry is the one in flight. */
    predicate Registered() {
      Leading? || Loaded? || Stored? || Unwinding?
    }

    /** The result a leader has in hand. */
    function InHand(): Option<LoadResult> {
      match this
      case Loaded(_, r) => Some(r)
      case Stored(_, r) => Some(r)
      case Removed(_, r) => Some(r)
      case Published(_, r) => Some(r)
      case Unguarded(_, answer) => answer
      case Answered(r) => Some(r)
      case _ => None
    }
  }

  datatype Request = Request(identifier: string, stage: Stage)

  /** A broadcast channel: who made it, what was sent on it, and whether any sender is left. */
  datatype Channel = Channel(identifier: string, owner: nat, sent: Option<LoadResult>, open: bool)

  datatype World = World(tables: Tables, requests: seq<Request>, channels: seq<Channel>)
  {
    function At(r: nat, stage: Stage): World
      requires r < |requests|
    {
      this.(requests := requests[r := requests[r].(stage := stage)])
    }
  }

  const START := World(Tables(map[], map[]), [], [])

  datatype Step =
    | Arrive(identifier: string)
    | LookUp(r: nat, now: Instant)
    | Join(r: nat)
    | Hear(r: nat)
    | Load(r: nat, result: LoadResult)
    | Store(r: nat, now: Instant, stored: Instant)
    | Remove(r: nat)
    | Send(r: nat)
    | Cancel(r: nat)
    | DropGuard(r: nat)
    | DropSenders(r: nat)
    | Sweep(now: Instant)

  predicate Enabled(w: World, step: Step) {
    match step
    case Arrive(_) => true
    case Sweep(_) => true
    case LookUp(r, _) => r < |w.requests| && w.requests[r].stage.Arrived?
    case Join(r) => r < |w.requests| && w.requests[r].stage.Joining?
    case Hear(r) =>
      && r < |w.requests| && w.requests[r].stage.Following?
      && var c := w.requests[r].stage.channel;
         c < |w.channels| && (w.channels[c].sent.Some? || !w.channels[c].open)
    case Load(r, result) =>
      r < |w.requests| && w.requests[r].stage.Leading? && result.identifier == w.requests[r].identifier
    case Store(r, _, _) => r < |w.requests| && w.requests[r].stage.Loaded?
    case Remove(r) => r < |w.requests| && w.requests[r].stage.Stored?
    case Send(r) => r < |w.requests| && w.requests[r].stage.Removed? && w.requests[r].stage.channel < |w.channels|
    // A future is dropped only where it waits.
    case Cancel(r) =>
      r < |w.requests|
      && (w.requests[r].stage.Arrived? || w.requests[r].stage.Following? || w.requests[r].stage.Leading?)
    case DropGuard(r) => r < |w.requests| && (w.requests[r].stage.Published? || w.requests[r].stage.Unwinding?)
    case DropSenders(r) =>
      r < |w.requests| && w.requests[r].stage.Unguarded? && w.requests[r].stage.channel < |w.channels|
  }

  function Do(w: World, step: Step): World
    requires Enabled(w, step)
  {
    match step
    case Arrive(identifier) => w.(requests := w.requests + [Request(identifier, Arrived)])
    case Sweep(now) => w.(tables := w.tables.SweepExpired(now))
    case LookUp(r, now) =>
      var (tables, answer) := w.tables.Cached(w.requests[r].identifier, now);
      w.(tables := tables).At(r, if answer.Some? then Answered(answer.value) else Joining)
    case Join(r) =>
      var identifier, own := w.requests[r].identifier, |w.channels|;
      var (tables, joined) := w.tables.JoinOrLead(identifier, own);
      if joined.Some? then w.At(r, Following(joined.value))
      else
        w.(tables := tables, channels := w.channels + [Channel(identifier, r, None, true)]).At(r, Leading(own))
    case Hear(r) =>
      var channel := w.channels[w.requests[r].stage.channel];
      w.At(r, if channel.sent.Some? then Answered(channel.sent.value) else Joining)
    case Load(r, result) => w.At(r, Loaded(w.requests[r].stage.channel, result))
    case Store(r, now, stored) =>
      var stage := w.requests[r].stage;
      w.(tables := w.tables.Store(stage.result, now, stored)).At(r, Stored(stage.channel, stage.result))
    case Remove(r) =>
      var stage := w.requests[r].stage;
      w.(tables := w.tables.RemoveIfStillOurs(w.requests[r].identifier, stage.channel))
       .At(r, Removed(stage.channel, stage.result))
    case Send(r) =>
      var stage := w.requests[r].stage;
      var channel := w.channels[stage.channel].(sent := Some(stage.result));
      w.(channels := w.channels[stage.channel := channel]).At(r, Published(stage.channel, stage.result))
    case Cancel(r) =>
      var stage := w.requests[r].stage;
      w.At(r, if stage.Leading? then Unwinding(stage.channel) else Cancelled)
    case DropGuard(r) =>
      var stage := w.requests[r].stage;
      w.(tables := w.tables.RemoveIfStillOurs(w.requests[r].identifier, stage.channel))
       .At(r, Unguarded(stage.channel, if stage.Published? then Some(stage.result) else None))
    case DropSenders(r) =>
      var stage := w.requests[r].stage;
      var channel := w.channels[stage.channel].(open := false);
      w.(channels := w.channels[stage.channel := channel])
       .At(r, if stage.answer.Some? then Answered(stage.answer.value) else Cancelled)
  }

  // The invariant, one request, one channel and one entry at a time.

  /** What a request knows of the channel it uses and of the result it has. */
  ghost predicate RequestOk(w: World, r: nat)
    requires r < |w.requests|
  {
    var request := w.requests[r];
    && (request.stage.InHand().Some? ==> request.stage.InHand().value.identifier == request.identifier)
    && (request.stage.Following? ==>
          && request.stage.channel < |w.channels|
          && w.channels[request.stage.channel].identifier == request.identifier)
    && (request.stage.Owned().Some? ==>
          var c := request.stage.Owned().value;
          && c < |w.channels|
          && w.channels[c].identifier == request.identifier && w.channels[c].owner == r && w.channels[c].open
          && w.channels[c].sent ==
               (if request.stage.Published? || request.stage.Unguarded? then request.stage.InHand() else None)
          && (request.stage.Registered() <==>
                request.identifier in w.tables.inFlight && w.tables.inFlight[request.identifier] == c))
  }

  /** An open channel has a live owner; a closed one says how its owner ended. */
  ghost predicate ChannelOk(w: World, c: ChannelId)
    requires c < |w.channels|
  {
    var channel := w.channels[c];
    && channel.owner < |w.requests|
    && var owner := w.requests[channel.owner];
      && owner.identifier == channel.identifier
      && (channel.sent.Some? ==> channel.sent.value.identifier == channel.identifier)
      && if channel.open then owner.stage.Owned() == Some(c)
         else owner.stage == if channel.sent.Some? then Answered(channel.sent.value) else Cancelled
  }

  /** An entry in flight belongs to a live leader that has neither removed nor sent anything. */
  ghost predicate EntryOk(w: World, identifier: string)
    requires identifier in w.tables.inFlight
  {
    var c := w.tables.inFlight[identifier];
    && c < |w.channels|
    && w.channels[c].identifier == identifier && w.channels[c].open
    && w.channels[c].owner < |w.requests|
    && w.requests[w.channels[c].owner].stage.Registered()
  }

  ghost predicate Inv(w: World) {
    && (forall r | 0 <= r < |w.requests| :: RequestOk(w, r))
    && (forall c | 0 <= c < |w.channels| :: ChannelOk(w, c))
    && (forall id | id in w.tables.inFlight :: EntryOk(w, id))
    && w.tables.Valid()
  }

  ghost predicate Reachable(w: World) {
    exists steps :: Leads(START, steps, w)
  }

  ghost predicate Leads(first: World, steps: seq<Step>, last: World)
    decreases |steps|
  {
    if steps == [] then first == last
    else Enabled(first, steps[0]) && Leads(Do(first, steps[0]), steps[1..], last)
  }

  lemma TablesStayValid(w: World, step: Step)
    requires Inv(w) && Enabled(w, step)
    ensures Do(w, step).tables.Valid()
  {
    match step
    case LookUp(r, now) => CacheAnswersOnlyTheLive(w.tables, w.requests[r].identifier, now);
    case Store(r, now, stored) => StoreKeepsTheBound(w.tables, w.requests[r].stage.result, now, stored);
    case Sweep(now) => CacheAnswersOnlyTheLive(w.tables, "", now);
    case _ =>
  }

  lemma StepKeepsInv(w: World, step: Step)
    requires Inv(w) && Enabled(w, step)
    ensures Inv(Do(w, step))
  {
    TablesStayValid(w, step);
    var after := Do(w, step);
    forall r | 0 <= r < |after.requests| ensures RequestOk(after, r) {
      StepKeepsRequest(w, step, r);
    }
    forall c | 0 <= c < |after.channels| ensures ChannelOk(after, c) {
      StepKeepsChannel(w, step, c);
    }
    forall id | id in after.tables.inFlight ensures EntryOk(after, id) {
      StepKeepsEntry(w, step, id);
    }
  }

  lemma StepKeepsRequest(w: World, step: Step, r: nat)
    requires Inv(w) && Enabled(w, step) && r < |Do(w, step).requests|
    ensures RequestOk(Do(w, step), r)
  {
    if r < |w.requests| {
      if !step.Arrive? && !step.Sweep? && step.r == r {
        ActorStaysOk(w, step);
      } else {
        assert RequestOk(w, r);
        if !step.Arrive? && !step.Sweep? {
          assert RequestOk(w, step.r);
        }
        BystanderStaysOk(w, step, r);
      }
    }
  }

  lemma ActorStaysOk(w: World, step: Step)
    requires Inv(w) && Enabled(w, step) && !step.Arrive? && !step.Sweep?
    ensures RequestOk(Do(w, step), step.r)
  {
    assert RequestOk(w, step.r);
    match step
    case LookUp(r, now) => CacheAnswersOnlyTheLive(w.tables, w.requests[r].identifier, now);
    case Hear(r) => assert ChannelOk(w, w.requests[r].stage.channel);
    case Join(r) => JoinerStaysOk(w, r);
    case _ => LeaderStaysOk(w, step);
  }

  lemma JoinerStaysOk(w: World, r: nat)
    requires Inv(w) && Enabled(w, Join(r))
    ensures RequestOk(Do(w, Join(r)), r)
  {
    if w.requests[r].identifier in w.tables.inFlight {
      assert EntryOk(w, w.requests[r].identifier);
    }
  }

  lemma LeaderStaysOk(w: World, step: Step)
    requires Enabled(w, step)
    requires !step.Arrive? && !step.Sweep? && !step.LookUp? && !step.Hear? && !step.Join?
    requires RequestOk(w, step.r)
    ensures RequestOk(Do(w, step), step.r)
  {
    hide Tables.Cached, Tables.JoinOrLead, Tables.SweepExpired;
  }

  lemma BystanderStaysOk(w: World, step: Step, r: nat)
    requires Enabled(w, step) && r < |w.requests| && RequestOk(w, r)
    requires step.Arrive? || step.Sweep? || (step.r != r && RequestOk(w, step.r))
    ensures RequestOk(Do(w, step), r)
  {
  }

  lemma StepKeepsChannel(w: World, step: Step, c: ChannelId)
    requires Inv(w) && Enabled(w, step) && c < |Do(w, step).channels|
    ensures ChannelOk(Do(w, step), c)
  {
    if !step.Arrive? && !step.Sweep? {
      assert RequestOk(w, step.r);
    }
    if c < |w.channels| {
      assert ChannelOk(w, c);
      assert RequestOk(w, w.channels[c].owner);
      ChannelStaysOk(w, step, c);
    }
  }

  lemma ChannelStaysOk(w: World, step: Step, c: ChannelId)
    requires Enabled(w, step) && c < |w.channels| && ChannelOk(w, c) && RequestOk(w, w.channels[c].owner)
    requires step.Arrive? || step.Sweep? || RequestOk(w, step.r)
    ensures ChannelOk(Do(w, step), c)
  {
    hide Tables.Cached, Tables.SweepExpired, Tables.Store, Tables.RemoveIfStillOurs;
  }

  lemma StepKeepsEntry(w: World, step: Step, id: string)
    requires Inv(w) && Enabled(w, step) && id in Do(w, step).tables.inFlight
    ensures EntryOk(Do(w, step), id)
  {
    if !step.Arrive? && !step.Sweep? {
      assert RequestOk(w, step.r);
    }
    if id in w.tables.inFlight {
      assert EntryOk(w, id);
      assert ChannelOk(w, w.tables.inFlight[id]);
      EntryStaysOk(w, step, id);
    }
  }

  lemma EntryStaysOk(w: World, step: Step, id: string)
    requires Enabled(w, step) && id in w.tables.inFlight && id in Do(w, step).tables.inFlight
    requires EntryOk(w, id) && ChannelOk(w, w.tables.inFlight[id])
    requires step.Arrive? || step.Sweep? || RequestOk(w, step.r)
    ensures EntryOk(Do(w, step), id)
  {
    hide Tables.Cached, Tables.Store, Tables.SweepExpired;
    TablesKeepEntry(w, step, id);
  }

  /** Only `Join` and the removals touch the loads in flight, and an entry keeps its channel. */
  lemma TablesKeepEntry(w: World, step: Step, id: string)
    requires Enabled(w, step) && id in w.tables.inFlight && id in Do(w, step).tables.inFlight
    ensures Do(w, step).tables.inFlight[id] == w.tables.inFlight[id]
  {
  }

  lemma {:induction false} RunKeepsInv(first: World, steps: seq<Step>, last: World)
    requires Inv(first) && Leads(first, steps, last)
    ensures Inv(last)
    decreases |steps|
  {
    if steps != [] {
      StepKeepsInv(first, steps[0]);
      RunKeepsInv(Do(first, steps[0]), steps[1..], last);
    }
  }

  lemma ReachableKeepsInv(w: World)
    requires Reachable(w)
    ensures Inv(w)
  {
    var steps :| Leads(START, steps, w);
    RunKeepsInv(START, steps, w);
  }

  // The theorems.

  /** Single flight: no two requests for one identifier are loading, storing or unwinding at once. */
  lemma OneLeaderPerIdentifier(w: World, a: nat, b: nat)
    requires Reachable(w) && a < |w.requests| && b < |w.requests|
    requires w.requests[a].identifier == w.requests[b].identifier
    requires w.requests[a].stage.Registered() && w.requests[b].stage.Registered()
    ensures a == b
  {
    ReachableKeepsInv(w);
    assert RequestOk(w, a) && RequestOk(w, b);
  }

  /** The request that can still finish the load of a channel. */
  ghost predicate Live(w: World, c: ChannelId) {
    && c < |w.channels| && w.channels[c].open && w.channels[c].owner < |w.requests|
    && w.requests[w.channels[c].owner].stage.Owned() == Some(c)
    && w.requests[w.channels[c].owner].identifier == w.channels[c].identifier
  }

  /** Every entry in flight has a live leader, for the same identifier. */
  lemma EntriesHaveLiveLeaders(w: World, id: string)
    requires Reachable(w) && id in w.tables.inFlight
    ensures Live(w, w.tables.inFlight[id]) && w.channels[w.tables.inFlight[id]].identifier == id
  {
    ReachableKeepsInv(w);
    assert EntryOk(w, id) && ChannelOk(w, w.tables.inFlight[id]);
  }

  /** No follower hangs: it can go on now, or its channel has a live leader that can go on. */
  lemma FollowersAreNeverStranded(w: World, r: nat)
    requires Reachable(w) && r < |w.requests| && w.requests[r].stage.Following?
    ensures Enabled(w, Hear(r)) || Live(w, w.requests[r].stage.channel)
  {
    ReachableKeepsInv(w);
    assert RequestOk(w, r) && ChannelOk(w, w.requests[r].stage.channel);
  }

  /** A leader is never blocked by another request: it has a step of its own, or waits for its load. */
  lemma LeadersCanGoOn(w: World, c: ChannelId)
    requires Live(w, c)
    ensures
      var leader := w.channels[c].owner;
      || Enabled(w, Store(leader, 0, 0)) || Enabled(w, Remove(leader)) || Enabled(w, Send(leader))
      || Enabled(w, DropGuard(leader)) || Enabled(w, DropSenders(leader))
      || (w.requests[leader].stage.Leading?
          && Enabled(w, Load(leader, LoadResult(w.requests[leader].identifier, true, 0))))
  {
  }

  /** How many steps of its own a leader is from dropping its senders. */
  function StepsLeft(stage: Stage): nat {
    match stage
    case Leading(_) => 6
    case Loaded(_, _) => 5
    case Stored(_, _) => 4
    case Removed(_, _) => 3
    case Published(_, _) => 2
    case Unwinding(_) => 2
    case Unguarded(_, _) => 1
    case _ => 0
  }

  /** The leader's next step of its own; a leader that still waits for its load is answered with `loaded`. */
  function NextOf(leader: nat, stage: Stage, loaded: LoadResult): Step
    requires stage.Owned().Some?
  {
    match stage
    case Leading(_) => Load(leader, loaded)
    case Loaded(_, _) => Store(leader, 0, 0)
    case Stored(_, _) => Remove(leader)
    case Removed(_, _) => Send(leader)
    case Published(_, _) => DropGuard(leader)
    case Unwinding(_) => DropGuard(leader)
    case Unguarded(_, _) => DropSenders(leader)
  }

  /** The result a leader will send, or none if it was cancelled. */
  function Promised(stage: Stage, loaded: LoadResult): Option<LoadResult> {
    if stage.Leading? then Some(loaded) else stage.InHand()
  }

  lemma LeaderStep(w: World, c: ChannelId, loaded: LoadResult)
    requires Live(w, c) && RequestOk(w, w.channels[c].owner) && loaded.identifier == w.channels[c].identifier
    ensures
      var leader := w.channels[c].owner;
      var step := NextOf(leader, w.requests[leader].stage, loaded);
      && Enabled(w, step) && step.r == leader
      && Do(w, step).requests == w.requests[leader := Do(w, step).requests[leader]]
      && c < |Do(w, step).channels| && Do(w, step).channels[c].owner == leader
      && Do(w, step).channels[c].identifier == w.channels[c].identifier
      && Promised(Do(w, step).requests[leader].stage, loaded) == Promised(w.requests[leader].stage, loaded)
      && StepsLeft(Do(w, step).requests[leader].stage) == StepsLeft(w.requests[leader].stage) - 1
      && (StepsLeft(w.requests[leader].stage) > 1 ==> Live(Do(w, step), c))
      && (StepsLeft(w.requests[leader].stage) == 1 ==>
            Do(w, step).channels[c] ==
              w.channels[c].(sent := Promised(w.requests[leader].stage, loaded), open := false))
  {
  }

  /** The leader's own steps finish its channel, with what it promised. */
  lemma {:induction false} LeaderFinishes(w: World, c: ChannelId, loaded: LoadResult)
    returns (steps: seq<Step>, last: World)
    requires Inv(w) && Live(w, c) && loaded.identifier == w.channels[c].identifier
    ensures Leads(w, steps, last) && Inv(last)
    ensures forall step | step in steps :: !step.Arrive? && !step.Sweep? && step.r == w.channels[c].owner
    ensures |last.requests| == |w.requests|
    ensures forall r | 0 <= r < |w.requests| && r != w.channels[c].owner :: last.requests[r] == w.requests[r]
    ensures
      && c < |last.channels| && !last.channels[c].open
      && last.channels[c].sent == Promised(w.requests[w.channels[c].owner].stage, loaded)
    decreases StepsLeft(w.requests[w.channels[c].owner].stage)
  {
    var leader := w.channels[c].owner;
    var step := NextOf(leader, w.requests[leader].stage, loaded);
    assert RequestOk(w, leader);
    LeaderStep(w, c, loaded);
    StepKeepsInv(w, step);
    var next := Do(w, step);
    if StepsLeft(w.requests[leader].stage) == 1 {
      steps, last := [step], next;
      assert Leads(next, [], next);
    } else {
      var more;
      more, last := LeaderFinishes(next, c, loaded);
      steps := [step] + more;
      assert steps[1..] == more;
    }
  }

  lemma {:induction false} LeadsOneMore(first: World, steps: seq<Step>, mid: World, step: Step)
    requires Leads(first, steps, mid) && Enabled(mid, step)
    ensures Leads(first, steps + [step], Do(mid, step))
    decreases |steps|
  {
    if steps == [] {
      assert [step][1..] == [];
    } else {
      LeadsOneMore(Do(first, steps[0]), steps[1..], mid, step);
      assert (steps + [step])[1..] == steps[1..] + [step];
    }
  }

  /**
    Every waiting follower is served: from any reachable world the leader's own steps, and then one
    of its own, bring it the leader's result, or back to join again if the leader was cancelled.
    `loaded` is what the load returns if the leader still waits for it.
   */
  lemma FollowerIsServed(w: World, r: nat, loaded: LoadResult) returns (steps: seq<Step>, last: World)
    requires Reachable(w) && r < |w.requests| && w.requests[r].stage.Following?
    requires loaded.identifier == w.requests[r].identifier
    ensures Leads(w, steps, last) && |last.requests| == |w.requests|
    ensures
      var c := w.requests[r].stage.channel;
      && c < |w.channels| && w.channels[c].owner < |w.requests|
      && (forall step | step in steps :: !step.Arrive? && !step.Sweep? && step.r in {r, w.channels[c].owner})
      && var leader := w.requests[w.channels[c].owner].stage;
         last.requests[r].stage
           == if Promised(leader, loaded).Some? then Answered(Promised(leader, loaded).value) else Joining
  {
    ReachableKeepsInv(w);
    var c := w.requests[r].stage.channel;
    assert RequestOk(w, r) && ChannelOk(w, c);
    assert RequestOk(w, w.channels[c].owner);
    var mid := w;
    steps := [];
    if w.channels[c].open {
      steps, mid := LeaderFinishes(w, c, loaded);
    }
    last := Do(mid, Hear(r));
    LeadsOneMore(w, steps, mid, Hear(r));
    steps := steps + [Hear(r)];
  }

  /** A guard, stale or not, never takes another leader's entry out of flight. */
  lemma OnlyTheOwnerRemoves(w: World, step: Step, id: string)
    requires Reachable(w) && Enabled(w, step)
    requires id in w.tables.inFlight && id !in Do(w, step).tables.inFlight
    ensures (step.Remove? || step.DropGuard?) && w.requests[step.r].stage.Owned() == Some(w.tables.inFlight[id])
    ensures Live(w, w.tables.inFlight[id]) && w.channels[w.tables.inFlight[id]].owner == step.r
  {
    RemovalIsOwn(w, step, id);
    ReachableKeepsInv(w);
    EntriesHaveLiveLeaders(w, id);
    assert RequestOk(w, step.r);
  }

  lemma RemovalIsOwn(w: World, step: Step, id: string)
    requires Enabled(w, step)
    requires id in w.tables.inFlight && id !in Do(w, step).tables.inFlight
    ensures (step.Remove? || step.DropGuard?) && w.requests[step.r].stage.Owned() == Some(w.tables.inFlight[id])
  {
  }

  /** An entry is never replaced under a leader: it only comes and goes. */
  lemma EntriesAreNeverReplaced(w: World, step: Step, id: string)
    requires Enabled(w, step) && id in w.tables.inFlight && id in Do(w, step).tables.inFlight
    ensures Do(w, step).tables.inFlight[id] == w.tables.inFlight[id]
  {
  }

  /**
    A follower is answered exactly when its leader finished, with exactly the leader's answer and
    for its own identifier; a cancelled leader sends it back to join again.
   */
  lemma FollowersGetTheLeadersAnswer(w: World, r: nat)
    requires Reachable(w) && Enabled(w, Hear(r))
    ensures w.channels[w.requests[r].stage.channel].owner < |w.requests|
    ensures
      var owner := w.requests[w.channels[w.requests[r].stage.channel].owner].stage;
      var after := Do(w, Hear(r)).requests[r].stage;
      if owner.InHand().Some? then after == Answered(owner.InHand().value) else owner.Cancelled? && after.Joining?
    ensures
      var after := Do(w, Hear(r)).requests[r].stage;
      after.Answered? ==> after.result.identifier == w.requests[r].identifier
  {
    ReachableKeepsInv(w);
    var c := w.requests[r].stage.channel;
    assert RequestOk(w, r) && ChannelOk(w, c);
    assert RequestOk(w, w.channels[c].owner);
  }

  /** A load that was answered stays answered, with the same result. */
  lemma {:induction false} AnswersAreFinal(first: World, steps: seq<Step>, last: World, r: nat)
    requires Leads(first, steps, last) && r < |first.requests|
    requires first.requests[r].stage.Answered? || first.requests[r].stage.Cancelled?
    ensures r < |last.requests| && last.requests[r] == first.requests[r]
    decreases |steps|
  {
    if steps != [] {
      AnswersAreFinal(Do(first, steps[0]), steps[1..], last, r);
    }
  }

  /** Once a leader sent its result, every request following it is answered with that result. */
  lemma {:induction false} SentIsFinal(first: World, steps: seq<Step>, last: World, c: ChannelId)
    requires Inv(first) && Leads(first, steps, last) && c < |first.channels| && first.channels[c].sent.Some?
    ensures c < |last.channels| && last.channels[c].sent == first.channels[c].sent
    decreases |steps|
  {
    if steps != [] {
      StepKeepsInv(first, steps[0]);
      if steps[0].Send? {
        assert RequestOk(first, steps[0].r);
      }
      SentIsFinal(Do(first, steps[0]), steps[1..], last, c);
    }
  }
}
