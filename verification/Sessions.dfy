/**
  The session registry (`session.rs`): one map from session id to a session and its lifecycle
  state. The functions of `Registry` are the sections the source runs under the registry lock,
  over any type of session handle; `SessionRegistry` runs them on real sessions and sinks.
 */
module Sessions {
  import opened Options
  import opened Sinks

  const DEFAULT_RESUME_TIMEOUT_SECS: int := 60
  const MAX_SANE_RESUME_TIMEOUT_SECS: int := 100 * 365 * 24 * 60 * 60

  /** Milliseconds on the monotonic clock. */
  type Instant = int

  datatype SessionState = Open | Resumable(deadline: Instant)

  datatype SessionRecord = SessionRecord(
    id: string,
    sink: SinkState,
    resuming: bool,
    resumeTimeoutSecs: int)

  datatype Entry<S> = Entry(session: S, state: SessionState)

  function NewRecord(id: string): SessionRecord {
    SessionRecord(id, EMPTY_SINK, false, DEFAULT_RESUME_TIMEOUT_SECS)
  }

  /** A client-supplied timeout outside the sane range counts as already expired. */
  function Deadline(now: Instant, requestedSecs: int): Instant {
    if 0 <= requestedSecs <= MAX_SANE_RESUME_TIMEOUT_SECS then now + requestedSecs * 1000 else now
  }

  predicate IsResumable(state: SessionState, sink: SinkState, now: Instant) {
    state.Resumable? && state.deadline > now && !sink.IsOverflowing()
  }

  predicate IsExpired(state: SessionState, sink: SinkState, now: Instant) {
    state.Resumable? && !IsResumable(state, sink, now)
  }

  /** The registered entries, and the record of every session ever created, registered or not. */
  datatype Registry<!S(==)> = Registry(entries: map<string, Entry<S>>, records: map<S, SessionRecord>)
  {
    ghost predicate WellFormed() {
      forall id | id in entries ::
        entries[id].session in records && records[entries[id].session].id == id
    }

    function SetSink(session: S, sink: SinkState): Registry<S>
      requires session in records
    {
      this.(records := records[session := records[session].(sink := sink)])
    }

    function Open(id: string, session: S): Registry<S> {
      Registry(entries[id := Entry(session, SessionState.Open)], records[session := NewRecord(id)])
    }

    predicate CanResume(id: string, now: Instant)
      requires WellFormed()
    {
      id in entries && IsResumable(entries[id].state, records[entries[id].session].sink, now)
    }

    function Claim(id: string, now: Instant): (Registry<S>, Option<S>)
      requires WellFormed()
    {
      if !CanResume(id, now) then (this, None)
      else
        var session := entries[id].session;
        var (sink, outcome) := records[session].sink.ResumeWithFirst(Ready(true, id));
        if outcome != Sent then (this, None)
        else
          (SetSink(session, sink).(entries := entries[id := Entry(session, SessionState.Open)]), Some(session))
    }

    function Remove(id: string): (Registry<S>, Option<S>) {
      if id in entries then (this.(entries := entries - {id}), Some(entries[id].session)) else (this, None)
    }

    function Disconnect(id: string, now: Instant): (Registry<S>, Option<S>)
      requires WellFormed()
    {
      if id !in entries || !entries[id].state.Open? then (this, None)
      else
        var session := entries[id].session;
        if records[session].resuming then
          var deadline := Deadline(now, records[session].resumeTimeoutSecs);
          (SetSink(session, records[session].sink.Pause())
             .(entries := entries[id := Entry(session, Resumable(deadline))]), None)
        else Remove(id)
    }

    function Expired(now: Instant): set<string>
      requires WellFormed()
    {
      set id | id in entries && IsExpired(entries[id].state, records[entries[id].session].sink, now)
    }

    function RemoveIfStillExpired(id: string, now: Instant): (Registry<S>, Option<S>)
      requires WellFormed()
    {
      if id in Expired(now) then Remove(id) else (this, None)
    }
  }

  /** `can_resume` promises a claim exactly when the claim would succeed. */
  lemma CanResumeIffClaimSucceeds<S>(r: Registry<S>, id: string, now: Instant)
    requires r.WellFormed()
    requires id in r.entries ==> !r.records[r.entries[id].session].sink.closed
    ensures r.CanResume(id, now) <==> r.Claim(id, now).1.Some?
  {
  }

  /** A claim hands over the one session, unpaused, with Ready ahead of the untouched backlog. */
  lemma ClaimReopens<S>(r: Registry<S>, id: string, now: Instant)
    requires r.WellFormed() && r.Claim(id, now).1.Some?
    ensures
      var (after, claimed) := r.Claim(id, now);
      var before := r.records[claimed.value].sink;
      && after.WellFormed()
      && after.entries[id] == Entry(claimed.value, SessionState.Open)
      && after.records[claimed.value].sink ==
           before.(essential := [Ready(true, id)] + before.essential, paused := false)
      && !after.CanResume(id, now) && id !in after.Expired(now)
      && (forall other | other in r.entries && other != id ::
            other in after.entries && after.entries[other] == r.entries[other])
      && (forall s | s in r.records && s != claimed.value :: s in after.records && after.records[s] == r.records[s])
  {
  }

  /** Under one clock value a resumable entry is claimable or expired, never both, and an open one neither. */
  lemma ClaimableXorExpired<S>(r: Registry<S>, id: string, now: Instant)
    requires r.WellFormed() && id in r.entries
    ensures r.entries[id].state.Resumable? <==> (r.CanResume(id, now) != (id in r.Expired(now)))
    ensures r.entries[id].state.Open? ==> !r.CanResume(id, now) && id !in r.Expired(now)
  {
  }

  /**
    A resuming session that disconnects can be claimed for exactly its timeout, if that is a sane
    one and its queue has room; disconnecting it once more changes nothing.
   */
  lemma WaitsForItsTimeout<S>(r: Registry<S>, id: string, now: Instant, later: Instant)
    requires r.WellFormed() && id in r.entries && r.entries[id].state.Open? && now <= later
    requires r.records[r.entries[id].session].resuming
    ensures
      var record := r.records[r.entries[id].session];
      var after := r.Disconnect(id, now).0;
      && after.WellFormed() && after.records[r.entries[id].session].sink.paused
      && after.Disconnect(id, later) == (after, None)
      && (after.CanResume(id, later) <==>
            && 0 <= record.resumeTimeoutSecs <= MAX_SANE_RESUME_TIMEOUT_SECS
            && later < now + 1000 * record.resumeTimeoutSecs
            && !record.sink.IsOverflowing())
  {
  }

  lemma SweepTakesOne<S>(r: Registry<S>, swept: set<string>, id: string, now: Instant)
    requires r.WellFormed() && swept <= r.Expired(now) && id in r.Expired(now) - swept
    ensures r.(entries := r.entries - swept).WellFormed()
    ensures r.(entries := r.entries - swept).RemoveIfStillExpired(id, now)
         == (r.(entries := r.entries - (swept + {id})), Some(r.entries[id].session))
  {
    assert r.entries - swept - {id} == r.entries - (swept + {id});
  }

  // The imperative registry.

  class Session {
    const id: string
    const sink: Sink
    var resuming: bool
    var resumeTimeoutSecs: int

    constructor (id: string)
      ensures this.id == id && fresh(sink) && sink.State() == EMPTY_SINK
      ensures !resuming && resumeTimeoutSecs == DEFAULT_RESUME_TIMEOUT_SECS
    {
      this.id := id;
      sink := new Sink();
      resuming, resumeTimeoutSecs := false, DEFAULT_RESUME_TIMEOUT_SECS;
    }

    function Record(): SessionRecord
      reads this, sink
    {
      SessionRecord(id, sink.State(), resuming, resumeTimeoutSecs)
    }
  }

  class SessionRegistry {
    var entries: map<string, Entry<Session>>
    /** Every session ever registered here; removed ones stay alive in their tasks. */
    ghost var known: set<Session>

    ghost predicate Valid()
      reads this, known
    {
      && (forall id | id in entries :: entries[id].session in known && entries[id].session.id == id)
      && (forall s, t | s in known && t in known && s != t :: s.sink != t.sink)
    }

    ghost function Records(): map<Session, SessionRecord>
      reads this`known, known, set s | s in known :: s.sink
    {
      map s | s in known :: s.Record()
    }

    ghost function SinkAt(id: string): set<Sink>
      reads this
    {
      if id in entries then {entries[id].session.sink} else {}
    }

    ghost function Abstract(): (r: Registry<Session>)
      requires Valid()
      reads this, known, set s | s in known :: s.sink
      ensures r.WellFormed()
    {
      Registry(entries, Records())
    }

    constructor ()
      ensures Valid() && Abstract() == Registry(map[], map[])
    {
      entries, known := map[], {};
    }

    /** `candidate` is a freshly drawn id; the source draws again while it is taken. */
    method Open(candidate: string) returns (session: Session)
      requires Valid() && candidate !in entries
      modifies this
      ensures Valid() && fresh(session) && known == old(known) + {session}
      ensures Abstract() == old(Abstract()).Open(candidate, session)
    {
      session := new Session(candidate);
      entries := entries[candidate := Entry(session, SessionState.Open)];
      known := known + {session};
      assert Records() == old(Records())[session := NewRecord(candidate)];
    }

    method CanResume(id: string, now: Instant) returns (can: bool)
      requires Valid()
      ensures can == Abstract().CanResume(id, now)
    {
      if id !in entries {
        return false;
      }
      var entry := entries[id];
      can := IsResumable(entry.state, entry.session.sink.State(), now);
    }

    /** Ready ahead of the backlog and the sink unpaused, in one locked section of the sink. */
    method GreetAgain(session: Session) returns (outcome: Outcome)
      requires Valid() && session in known
      modifies session.sink
      ensures Valid() && entries == old(entries)
      ensures
        var (sink, said) := old(session.sink.State()).ResumeWithFirst(Ready(true, session.id));
        outcome == said && Abstract() == old(Abstract()).SetSink(session, sink)
      ensures outcome != Sent ==> Abstract() == old(Abstract())
    {
      ghost var before := Abstract();
      outcome := session.sink.ResumeWithFirst(Ready(true, session.id));
      assert Records() == before.records[session := session.Record()];
      if outcome != Sent {
        assert Records() == before.records;
      }
    }

    method ClaimForResume(id: string, now: Instant) returns (claimed: Option<Session>)
      requires Valid()
      modifies this`entries, SinkAt(id)
      ensures Valid()
      ensures (Abstract(), claimed) == old(Abstract()).Claim(id, now)
    {
      hide SinkState.ResumeWithFirst;
      if id !in entries {
        return None;
      }
      var entry := entries[id];
      if !IsResumable(entry.state, entry.session.sink.State(), now) {
        return None;
      }
      var session := entry.session;
      var outcome := GreetAgain(session);
      if outcome != Sent {
        return None;
      }
      entries := entries[id := Entry(session, SessionState.Open)];
      claimed := Some(session);
    }

    method OnDisconnect(id: string, now: Instant) returns (closing: Option<Session>)
      requires Valid()
      modifies this`entries, SinkAt(id)
      ensures Valid()
      ensures (Abstract(), closing) == old(Abstract()).Disconnect(id, now)
    {
      if id !in entries || !entries[id].state.Open? {
        return None;
      }
      var session := entries[id].session;
      if session.resuming {
        entries := entries[id := Entry(session, Resumable(Deadline(now, session.resumeTimeoutSecs)))];
        session.sink.Pause();
        assert Records() == old(Records())[session := session.Record()];
        return None;
      }
      entries := entries - {id};
      closing := Some(session);
    }

    method RemoveIfStillExpired(id: string, now: Instant) returns (removed: Option<Session>)
      requires Valid()
      modifies this`entries
      ensures Valid()
      ensures (Abstract(), removed) == old(Abstract()).RemoveIfStillExpired(id, now)
    {
      if id in entries && IsExpired(entries[id].state, entries[id].session.sink.State(), now) {
        removed := Some(entries[id].session);
        entries := entries - {id};
      } else {
        removed := None;
      }
    }

    /** The first pass of a sweep: what looks expired. */
    method Scan(now: Instant) returns (expired: set<string>)
      requires Valid()
      ensures expired == Abstract().Expired(now)
    {
      expired := set id | id in entries && IsExpired(entries[id].state, entries[id].session.sink.State(), now);
    }

    /**
      The two passes of `sweep_expired` with nothing in between: exactly the expired entries
      leave, and their sessions are what is returned.
     */
    method SweepExpired(now: Instant) returns (removed: set<Session>)
      requires Valid()
      modifies this`entries
      ensures Valid()
      ensures entries == old(entries) - old(Abstract()).Expired(now)
      ensures removed == set id | id in old(Abstract()).Expired(now) :: old(entries)[id].session
    {
      hide IsResumable, Registry.WellFormed, IsExpired;
      ghost var before := Abstract();
      var expired := Scan(now);
      removed := {};
      var pending := expired;
      ghost var swept := {};
      assert before.entries - {} == before.entries;
      while pending != {}
        invariant Valid() && swept <= expired && pending == expired - swept
        invariant Abstract() == before.(entries := before.entries - swept)
        invariant removed == set id | id in swept :: before.entries[id].session
        decreases pending
      {
        var id :| id in pending;
        SweepTakesOne(before, swept, id, now);
        var session := RemoveIfStillExpired(id, now);
        pending, swept := pending - {id}, swept + {id};
        removed := removed + {session.value};
      }
      assert swept == expired;
    }

    /** The locked part of `destroy`; the caller then shuts the session down. */
    method Remove(id: string) returns (removed: Option<Session>)
      requires Valid()
      modifies this`entries
      ensures Valid()
      ensures (Abstract(), removed) == old(Abstract()).Remove(id)
    {
      if id in entries {
        removed := Some(entries[id].session);
        entries := entries - {id};
      } else {
        removed := None;
      }
    }
  }
}
