/**
  The outbound queue of one session (`sink.rs`): a bounded FIFO of essential messages,
  a map of snapshots coalesced by key, and the `paused` and `closed` flags. Every function
  below is one section that the source runs under the sink's lock.
 */
module Sinks {
  import opened Options

  const ESSENTIAL_CAPACITY: nat := 4096

  datatype Message =
    | Ready(resumed: bool, sessionId: string)
    | Event(guild: string, payload: int)
    | PlayerUpdate(guild: string, position: int)
    | Stats(sample: int)

  datatype SnapshotKey = StatsKey | PlayerKey(guild: string)

  function CoalesceKey(m: Message): Option<SnapshotKey> {
    match m
    case PlayerUpdate(guild, _) => Some(PlayerKey(guild))
    case Stats(_) => Some(StatsKey)
    case _ => None
  }

  predicate Essential(m: Message) {
    CoalesceKey(m).None?
  }

  datatype SendError = Overflow | Closed

  datatype Outcome = Sent | Refused(error: SendError)

  datatype SinkState = SinkState(
    essential: seq<Message>,
    snapshots: map<SnapshotKey, Message>,
    paused: bool,
    closed: bool)
  {
    function Send(m: Message): (SinkState, Outcome) {
      if closed then (this, Refused(Closed))
      else
        match CoalesceKey(m)
        case Some(key) =>
          if paused then (this, Sent) else (this.(snapshots := snapshots[key := m]), Sent)
        case None =>
          if |essential| >= ESSENTIAL_CAPACITY then (this, Refused(Overflow))
          else (this.(essential := essential + [m]), Sent)
    }

    function SendFirst(m: Message): (SinkState, Outcome) {
      if closed then (this, Refused(Closed))
      else if |essential| >= ESSENTIAL_CAPACITY then (this, Refused(Overflow))
      else (this.(essential := [m] + essential), Sent)
    }

    function ResumeWithFirst(m: Message): (SinkState, Outcome) {
      var (sent, outcome) := SendFirst(m);
      (if outcome == Sent then sent.(paused := false) else sent, outcome)
    }

    ghost function TryRecv(): (SinkState, Option<Message>) {
      if paused || closed then (this, None)
      else if essential != [] then (this.(essential := essential[1..]), Some(essential[0]))
      else if snapshots.Keys != {} then
        var key := LeastKey(snapshots.Keys);
        (this.(snapshots := snapshots - {key}), Some(snapshots[key]))
      else (this, None)
    }

    function Pause(): SinkState {
      this.(paused := true, snapshots := map[])
    }

    function Resume(): SinkState {
      this.(paused := false)
    }

    function Close(): SinkState {
      this.(closed := true, essential := [], snapshots := map[])
    }

    predicate IsOverflowing() {
      |essential| >= ESSENTIAL_CAPACITY
    }

    /** What every locked section keeps: the bound, the two lanes apart, nothing kept once closed. */
    ghost predicate WellFormed() {
      && |essential| <= ESSENTIAL_CAPACITY
      && (forall m | m in essential :: Essential(m))
      && (forall k | k in snapshots :: CoalesceKey(snapshots[k]) == Some(k))
      && (paused || closed ==> snapshots == map[])
      && (closed ==> essential == [])
    }
  }

  const EMPTY_SINK := SinkState([], map[], false, false)

  // The order of the snapshot map: stats first, then players by guild.

  predicate StringLeq(a: string, b: string) {
    a == [] || (b != [] && (a[0] < b[0] || (a[0] == b[0] && StringLeq(a[1..], b[1..]))))
  }

  predicate KeyLeq(a: SnapshotKey, b: SnapshotKey) {
    a.StatsKey? || (b.PlayerKey? && StringLeq(a.guild, b.guild))
  }

  lemma {:induction false} StringLeqOrders(a: string, b: string, c: string)
    ensures StringLeq(a, a)
    ensures StringLeq(a, b) || StringLeq(b, a)
    ensures StringLeq(a, b) && StringLeq(b, a) ==> a == b
    ensures StringLeq(a, b) && StringLeq(b, c) ==> StringLeq(a, c)
    decreases |a| + |b| + |c|
  {
    if a != [] {
      StringLeqOrders(a[1..], if b == [] then [] else b[1..], if c == [] then [] else c[1..]);
      if b != [] {
        assert a == [a[0]] + a[1..] && b == [b[0]] + b[1..];
      }
    }
  }

  ghost predicate IsLeastKey(k: SnapshotKey, keys: set<SnapshotKey>) {
    k in keys && forall j | j in keys :: KeyLeq(k, j)
  }

  lemma {:induction false} LeastKeyExists(keys: set<SnapshotKey>)
    requires keys != {}
    ensures exists k :: IsLeastKey(k, keys)
    ensures forall k, j | IsLeastKey(k, keys) && IsLeastKey(j, keys) :: k == j
  {
    forall k, j | IsLeastKey(k, keys) && IsLeastKey(j, keys) ensures k == j {
      if k.PlayerKey? && j.PlayerKey? {
        StringLeqOrders(k.guild, j.guild, []);
      }
    }
    var k :| k in keys;
    if keys == {k} {
      if k.PlayerKey? { StringLeqOrders(k.guild, k.guild, []); }
      assert IsLeastKey(k, keys);
    } else {
      var rest := keys - {k};
      assert keys == rest + {k};
      LeastKeyExists(rest);
      var least :| IsLeastKey(least, rest);
      var winner := if KeyLeq(k, least) then k else least;
      forall j | j in keys ensures KeyLeq(winner, j) {
        var a := if k.PlayerKey? then k.guild else [];
        var b := if least.PlayerKey? then least.guild else [];
        var c := if j.PlayerKey? then j.guild else [];
        StringLeqOrders(a, b, c);
        StringLeqOrders(a, a, c);
        assert j == k || j in rest;
      }
      assert IsLeastKey(winner, keys);
    }
  }

  ghost function LeastKey(keys: set<SnapshotKey>): (k: SnapshotKey)
    requires keys != {}
    ensures k in keys
  {
    LeastKeyExists(keys);
    var k :| IsLeastKey(k, keys);
    k
  }

  lemma SectionsKeepWellFormed(s: SinkState, m: Message)
    requires s.WellFormed()
    ensures s.Send(m).0.WellFormed() && s.TryRecv().0.WellFormed()
    ensures Essential(m) ==> s.SendFirst(m).0.WellFormed() && s.ResumeWithFirst(m).0.WellFormed()
    ensures s.Pause().WellFormed() && s.Close().WellFormed() && s.Resume().WellFormed()
  {
    var (received, message) := s.TryRecv();
    assert forall x | x in received.essential :: x in s.essential;
  }

  lemma ReceiveTakesOldestEssential(s: SinkState)
    requires s.WellFormed()
    ensures
      var (rest, taken) := s.TryRecv();
      && rest.WellFormed() && rest.paused == s.paused && rest.closed == s.closed
      && (taken.None? ==> rest == s)
      && (taken.Some? ==> !s.paused && !s.closed)
      && (taken.Some? && Essential(taken.value) ==>
            s.essential == [taken.value] + rest.essential && rest.snapshots == s.snapshots)
      && (taken.Some? && !Essential(taken.value) ==> s.essential == rest.essential == [])
  {
    SectionsKeepWellFormed(s, Stats(0));
    if s.essential != [] {
      assert s.essential[0] in s.essential;
    }
  }

  /** A receive comes up empty only with nothing to give, and takes the snapshot with the least key. */
  lemma ReceiveTakesLeastSnapshot(s: SinkState)
    requires s.WellFormed()
    ensures s.TryRecv().1.Some? <==> !s.paused && !s.closed && (s.essential != [] || s.snapshots != map[])
    ensures s.TryRecv().1.Some? && s.essential == [] ==>
      exists k ::
        && IsLeastKey(k, s.snapshots.Keys) && s.TryRecv().1.value == s.snapshots[k]
        && s.TryRecv().0.snapshots == s.snapshots - {k}
  {
    if s.snapshots.Keys == {} {
      assert s.snapshots == map[];
    } else {
      assert IsLeastKey(LeastKey(s.snapshots.Keys), s.snapshots.Keys);
    }
  }

  /** The sink itself: its lock-protected fields and the methods that update them. */
  class Sink {
    var essential: seq<Message>
    var snapshots: map<SnapshotKey, Message>
    var paused: bool
    var closed: bool

    function State(): SinkState
      reads this
    {
      SinkState(essential, snapshots, paused, closed)
    }

    constructor ()
      ensures State() == EMPTY_SINK
    {
      essential, snapshots, paused, closed := [], map[], false, false;
    }

    method Send(m: Message) returns (outcome: Outcome)
      modifies this
      ensures (State(), outcome) == old(State()).Send(m)
    {
      if closed {
        return Refused(Closed);
      }
      match CoalesceKey(m) {
        case Some(key) =>
          if paused {
            return Sent;
          }
          snapshots := snapshots[key := m];
        case None =>
          if |essential| >= ESSENTIAL_CAPACITY {
            return Refused(Overflow);
          }
          essential := essential + [m];
      }
      outcome := Sent;
    }

    method SendFirst(m: Message) returns (outcome: Outcome)
      requires Essential(m)
      modifies this
      ensures (State(), outcome) == old(State()).SendFirst(m)
    {
      if closed {
        return Refused(Closed);
      }
      if |essential| >= ESSENTIAL_CAPACITY {
        return Refused(Overflow);
      }
      essential := [m] + essential;
      outcome := Sent;
    }

    method ResumeWithFirst(m: Message) returns (outcome: Outcome)
      requires Essential(m)
      modifies this
      ensures (State(), outcome) == old(State()).ResumeWithFirst(m)
      ensures outcome != Sent ==> State() == old(State())
    {
      if closed {
        return Refused(Closed);
      }
      if |essential| >= ESSENTIAL_CAPACITY {
        return Refused(Overflow);
      }
      essential := [m] + essential;
      paused := false;
      outcome := Sent;
    }

    method TryRecv() returns (message: Option<Message>)
      modifies this
      ensures (State(), message) == old(State()).TryRecv()
    {
      if paused || closed {
        return None;
      }
      if essential != [] {
        message, essential := Some(essential[0]), essential[1..];
      } else if snapshots.Keys != {} {
        LeastKeyExists(snapshots.Keys);
        var key :| key in snapshots.Keys && forall j | j in snapshots.Keys :: KeyLeq(key, j);
        assert IsLeastKey(key, snapshots.Keys);
        message, snapshots := Some(snapshots[key]), snapshots - {key};
      } else {
        message := None;
      }
    }

    method Pause()
      modifies this
      ensures State() == old(State()).Pause()
    {
      paused, snapshots := true, map[];
    }

    method Resume()
      modifies this
      ensures State() == old(State()).Resume()
    {
      paused := false;
    }

    method Close()
      modifies this
      ensures State() == old(State()).Close()
    {
      closed, essential, snapshots := true, [], map[];
    }
  }
}
