/**
  When the pump of a connection closes a client that does not drain its events (`ws.rs`,
  `overflow_closes`), told by the backlogs it has looked at alone.
 */
module OverflowChecks {
  import opened Sinks
  import opened SessionLife

  /** The backlog, if an action looks at it: as the pump starts, and after every select arm. */
  function Look(l: Life, a: Action): seq<nat> {
    if a == Driven(StartPump) || a == Driven(CheckOverflow) then [|l.record.sink.essential|] else []
  }

  /** The backlogs looked at in a run. */
  ghost function Looks(l: Life, actions: seq<Action>): seq<nat>
    requires ValidActions(l, actions)
    decreases |actions|
  {
    if actions == [] then [] else Look(l, actions[0]) + Looks(Do(l, actions[0]), actions[1..])
  }

  /** The select arms a run has gone through: something came in, or a message was written. */
  function Arms(actions: seq<Action>): nat {
    if actions == [] then 0
    else Arms(actions[1..]) + if actions[0] == Driven(Incoming) || actions[0] == Driven(WriteOk) then 1 else 0
  }

  /** The backlog has been seen below the threshold, so the client has once kept up. */
  predicate KeptUp(looks: seq<nat>) {
    exists i :: 0 <= i < |looks| && looks[i] < OVERFLOW_THRESHOLD
  }

  /**
    The newest look finds a queue that refuses events, or a backlog over the threshold from a
    client that had kept up before. The look at the start of the pump closes nothing.
   */
  predicate Closes(looks: seq<nat>) {
    && |looks| > 1
    && var newest := looks[|looks| - 1];
       newest >= ESSENTIAL_CAPACITY || (newest >= OVERFLOW_THRESHOLD && KeptUp(looks[..|looks| - 1]))
  }

  /** What the pump knows, by its looks: armed exactly once the client has kept up, and one look for every arm. */
  predicate Follows(looks: seq<nat>, arms: nat, l: Life) {
    l.stage.Connected? ==>
      match l.stage.connection.pc
      case Opened => false
      case Starting => looks == [] && arms == 0
      case Idle(armed) => |looks| == arms + 1 && (armed <==> KeptUp(looks)) && !Closes(looks)
      case InHand(armed, _) => |looks| == arms + 1 && (armed <==> KeptUp(looks)) && !Closes(looks)
      case Checking(armed) => |looks| == arms > 0 && (armed <==> KeptUp(looks)) && !Closes(looks)
      case Closing => |looks| == arms + 1 && Closes(looks)
      case Leaving => |looks| == arms + 1 && !Closes(looks)
      case Ended => false
  }

  predicate SameConnection(actions: seq<Action>) {
    forall a | a in actions :: !a.Claimed?
  }

  lemma OneMoreLook(looks: seq<nat>, n: nat)
    ensures KeptUp(looks + [n]) <==> KeptUp(looks) || n < OVERFLOW_THRESHOLD
    ensures looks == [] ==> !KeptUp(looks)
    ensures Closes(looks + [n]) <==>
      looks != [] && (n >= ESSENTIAL_CAPACITY || (n >= OVERFLOW_THRESHOLD && KeptUp(looks)))
  {
    assert (looks + [n])[..|looks|] == looks && (looks + [n])[|looks|] == n;
    if KeptUp(looks) {
      var i :| 0 <= i < |looks| && looks[i] < OVERFLOW_THRESHOLD;
      assert (looks + [n])[i] < OVERFLOW_THRESHOLD;
    }
  }

  lemma StepFollows(looks: seq<nat>, arms: nat, l: Life, a: Action)
    requires Follows(looks, arms, l) && Can(l, a) && !a.Claimed?
    ensures Follows(looks + Look(l, a), arms + Arms([a]), Do(l, a))
  {
    hide KeptUp, Closes;
    OneMoreLook(looks, |l.record.sink.essential|);
    assert Arms([a]) == if a == Driven(Incoming) || a == Driven(WriteOk) then 1 else 0 by {
      assert [a][1..] == [];
    }
    assert looks + [] == looks;
  }

  lemma {:induction false} RunFollows(looks: seq<nat>, arms: nat, l: Life, actions: seq<Action>)
    requires Follows(looks, arms, l) && ValidActions(l, actions) && SameConnection(actions)
    ensures Follows(looks + Looks(l, actions), arms + Arms(actions), DoAll(l, actions))
    decreases |actions|
  {
    hide Follows, Can, Do;
    if actions == [] {
      assert looks + [] == looks;
    } else {
      StepFollows(looks, arms, l, actions[0]);
      assert [actions[0]][1..] == [];
      assert forall a | a in actions[1..] :: a in actions;
      RunFollows(looks + Look(l, actions[0]), arms + Arms([actions[0]]), Do(l, actions[0]), actions[1..]);
      assert looks + Look(l, actions[0]) + Looks(Do(l, actions[0]), actions[1..]) == looks + Looks(l, actions);
    }
  }

  /**
    In every run of one pump: it looks at the backlog once as it starts and once after every
    select arm, and it closes the session exactly at the first look, after that at the start, that finds
    the queue full, or over the threshold after it has been seen below.
   */
  lemma ClosedExactlyWhenNotDraining(l: Life, actions: seq<Action>)
    requires ValidActions(l, actions) && SameConnection(actions)
    requires l.stage.Connected? && l.stage.connection.pc == Starting
    requires DoAll(l, actions).stage.Connected?
    ensures
      var pc, looks := DoAll(l, actions).stage.connection.pc, Looks(l, actions);
      && (pc == Closing <==> Closes(looks))
      && (pc != Starting ==> |looks| == Arms(actions) + if pc.Checking? then 0 else 1)
      && (pc.Idle? ==> (pc.armed <==> KeptUp(looks)))
  {
    RunFollows([], 0, l, actions);
    assert [] + Looks(l, actions) == Looks(l, actions);
  }
}
