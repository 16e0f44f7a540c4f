/**
  The loader's two tables (`loader.rs`): the cache of results with their expiry, and the channel
  of the load in flight for each identifier. The functions of `Tables` are the sections the
  source runs under one of the two locks; `Loader` runs them in place.
 */
module LoadTables {
  import opened Options

  const CACHE_TTL_MS: nat := 60_000
  const MAX_CACHE_ENTRIES: nat := 10_000

  /** Milliseconds on the monotonic clock. */
  type Instant = int

  /** A finished load: what was asked for, and what came back. */
  datatype LoadResult = LoadResult(identifier: string, failed: bool, payload: int)

  datatype CacheEntry = CacheEntry(result: LoadResult, expiresAt: Instant)

  /** A broadcast channel; a later leader of the same identifier has another one. */
  type ChannelId = nat

  function Unexpired(cache: map<string, CacheEntry>, now: Instant): map<string, CacheEntry> {
    map id | id in cache && cache[id].expiresAt > now :: cache[id]
  }

  datatype Tables = Tables(cache: map<string, CacheEntry>, inFlight: map<string, ChannelId>)
  {
    function Cached(identifier: string, now: Instant): (Tables, Option<LoadResult>) {
      if identifier !in cache then (this, None)
      else if cache[identifier].expiresAt <= now then (this.(cache := cache - {identifier}), None)
      else (this, Some(cache[identifier].result))
    }

    /** The channel to wait on, or none after registering `own` as this caller's own. */
    function JoinOrLead(identifier: string, own: ChannelId): (Tables, Option<ChannelId>) {
      if identifier in inFlight then (this, Some(inFlight[identifier]))
      else (this.(inFlight := inFlight[identifier := own]), None)
    }

    function RemoveIfStillOurs(identifier: string, ours: ChannelId): Tables {
      if identifier in inFlight && inFlight[identifier] == ours then this.(inFlight := inFlight - {identifier})
      else this
    }

    /** Keeps a result that is not an error, unless the cache is full of live entries. */
    function Store(result: LoadResult, now: Instant, stored: Instant): Tables {
      if result.failed then this
      else
        var kept := if |cache| >= MAX_CACHE_ENTRIES then Unexpired(cache, now) else cache;
        if |kept| < MAX_CACHE_ENTRIES
        then this.(cache := kept[result.identifier := CacheEntry(result, stored + CACHE_TTL_MS)])
        else this.(cache := kept)
    }

    function SweepExpired(now: Instant): Tables {
      this.(cache := Unexpired(cache, now))
    }

    ghost predicate Valid() {
      && |cache| <= MAX_CACHE_ENTRIES
      && forall id | id in cache :: !cache[id].result.failed && cache[id].result.identifier == id
    }
  }

  lemma UnexpiredIsSmaller(cache: map<string, CacheEntry>, now: Instant)
    ensures |Unexpired(cache, now)| <= |cache|
  {
    SubsetIsSmaller(Unexpired(cache, now).Keys, cache.Keys);
  }

  lemma {:induction false} SubsetIsSmaller<T>(small: set<T>, large: set<T>)
    requires small <= large
    ensures |small| <= |large|
  {
    if small != {} {
      var x :| x in small;
      SubsetIsSmaller(small - {x}, large - {x});
    }
  }

  /** The cache answers only for the identifier asked, never with an error, never past an expiry. */
  lemma CacheAnswersOnlyTheLive(t: Tables, identifier: string, now: Instant)
    requires t.Valid()
    ensures t.Cached(identifier, now).0.Valid() && t.SweepExpired(now).Valid()
    ensures
      var answer := t.Cached(identifier, now).1;
      answer.Some? ==>
        answer.value.identifier == identifier && !answer.value.failed && t.cache[identifier].expiresAt > now
  {
    UnexpiredIsSmaller(t.cache, now);
    SubsetIsSmaller((t.cache - {identifier}).Keys, t.cache.Keys);
  }

  /** Storing never lets the cache outgrow its bound, full or not. */
  lemma StoreKeepsTheBound(t: Tables, result: LoadResult, now: Instant, stored: Instant)
    requires t.Valid()
    ensures t.Store(result, now, stored).Valid()
  {
    UnexpiredIsSmaller(t.cache, now);
    OneMoreKey(if |t.cache| >= MAX_CACHE_ENTRIES then Unexpired(t.cache, now) else t.cache,
               result.identifier, CacheEntry(result, stored + CACHE_TTL_MS));
  }

  lemma OneMoreKey(cache: map<string, CacheEntry>, id: string, entry: CacheEntry)
    ensures |cache[id := entry]| <= |cache| + 1
  {
    assert cache[id := entry].Keys == cache.Keys + {id};
  }

  // Runs of the cache: look-ups, stores and sweeps as they take the lock.

  datatype CacheOp =
    | LookUp(identifier: string, now: Instant)
    | Keep(result: LoadResult, now: Instant, stored: Instant)
    | Sweep(now: Instant)

  /** The newest clock value a section has read. A sweep reads its own before it takes the lock. */
  function Clock(ops: seq<CacheOp>, start: Instant): Instant {
    if ops == [] then start
    else
      var before := Clock(ops[..|ops| - 1], start);
      match ops[|ops| - 1]
      case LookUp(_, now) => Later(before, now)
      case Keep(_, _, stored) => Later(before, stored)
      case Sweep(now) => Later(before, now)
  }

  function Later(a: Instant, b: Instant): Instant {
    if a < b then b else a
  }

  /** Sections read a clock that does not run backwards; a sweep may have read it long before. */
  ghost predicate Ordered(ops: seq<CacheOp>, start: Instant) {
    ops == []
    || (Ordered(ops[..|ops| - 1], start)
        && match ops[|ops| - 1]
           case LookUp(_, now) => Clock(ops[..|ops| - 1], start) <= now
           case Keep(_, now, stored) => Clock(ops[..|ops| - 1], start) <= now <= stored
           case Sweep(_) => true)
  }

  function After(t: Tables, op: CacheOp): Tables {
    match op
    case LookUp(identifier, now) => t.Cached(identifier, now).0
    case Keep(result, now, stored) => t.Store(result, now, stored)
    case Sweep(now) => t.SweepExpired(now)
  }

  function Ran(t: Tables, ops: seq<CacheOp>): Tables {
    if ops == [] then t else After(Ran(t, ops[..|ops| - 1]), ops[|ops| - 1])
  }

  /**
    The newest entry of every identifier, with nothing ever swept, evicted or pruned. A store takes
    effect when its result is no error and fewer than the bound of entries are live.
   */
  function Newest(ops: seq<CacheOp>): map<string, CacheEntry> {
    if ops == [] then map[]
    else
      var before, op := Newest(ops[..|ops| - 1]), ops[|ops| - 1];
      if op.Keep? && TakesEffect(before, op)
      then before[op.result.identifier := CacheEntry(op.result, op.stored + CACHE_TTL_MS)]
      else before
  }

  predicate TakesEffect(newest: map<string, CacheEntry>, op: CacheOp)
    requires op.Keep?
  {
    !op.result.failed && |Unexpired(newest, op.now)| < MAX_CACHE_ENTRIES
  }

  function LiveAt(m: map<string, CacheEntry>, id: string, t: Instant): Option<CacheEntry> {
    if id in m && m[id].expiresAt > t then Some(m[id]) else None
  }

  /** From a time on, two tables hold the same live entries. */
  ghost predicate SameLive(a: map<string, CacheEntry>, b: map<string, CacheEntry>, from: Instant) {
    forall id :: LiveAt(a, id, from) == LiveAt(b, id, from)
  }

  lemma SameLiveLater(a: map<string, CacheEntry>, b: map<string, CacheEntry>, from: Instant, t: Instant)
    requires SameLive(a, b, from) && from <= t
    ensures SameLive(a, b, t) && Unexpired(a, t) == Unexpired(b, t)
  {
    forall id ensures LiveAt(a, id, t) == LiveAt(b, id, t) {
      assert LiveAt(a, id, from) == LiveAt(b, id, from);
    }
    forall id ensures id in Unexpired(a, t) <==> id in Unexpired(b, t) {
      assert LiveAt(a, id, t) == LiveAt(b, id, t);
    }
    forall id | id in Unexpired(a, t) ensures Unexpired(a, t)[id] == Unexpired(b, t)[id] {
      assert LiveAt(a, id, t) == LiveAt(b, id, t);
    }
  }

  /** The cache, however it was pruned, always holds the live part of the newest entries. */
  lemma {:induction false} CacheHoldsTheLive(ops: seq<CacheOp>, start: Instant)
    requires Ordered(ops, start)
    ensures SameLive(Ran(Tables(map[], map[]), ops).cache, Newest(ops), Clock(ops, start))
  {
    if ops != [] {
      var front, op := ops[..|ops| - 1], ops[|ops| - 1];
      CacheHoldsTheLive(front, start);
      OneSectionHoldsTheLive(Ran(Tables(map[], map[]), front), Newest(front), op, Clock(front, start));
    }
  }

  lemma OneSectionHoldsTheLive(t: Tables, newest: map<string, CacheEntry>, op: CacheOp, clock: Instant)
    requires SameLive(t.cache, newest, clock)
    requires op.LookUp? ==> clock <= op.now
    requires op.Keep? ==> clock <= op.now <= op.stored
    ensures
      match op
      case LookUp(_, now) => SameLive(After(t, op).cache, newest, now)
      case Keep(result, _, stored) =>
        SameLive(After(t, op).cache,
                 if TakesEffect(newest, op) then newest[result.identifier := CacheEntry(result, stored + CACHE_TTL_MS)]
                 else newest,
                 stored)
      case Sweep(now) => SameLive(After(t, op).cache, newest, Later(clock, now))
  {
    match op
    case LookUp(_, now) => DroppingTheDead(t.cache, After(t, op).cache, newest, clock, now);
    case Sweep(now) => DroppingTheDead(t.cache, After(t, op).cache, newest, clock, Later(clock, now));
    case Keep(result, now, stored) => KeepingHoldsTheLive(t, newest, result, now, stored, clock);
  }

  lemma KeepingHoldsTheLive(t: Tables, newest: map<string, CacheEntry>, result: LoadResult,
                            now: Instant, stored: Instant, clock: Instant)
    requires SameLive(t.cache, newest, clock) && clock <= now <= stored
    ensures
      var op := Keep(result, now, stored);
      SameLive(t.Store(result, now, stored).cache,
               if TakesEffect(newest, op) then newest[result.identifier := CacheEntry(result, stored + CACHE_TTL_MS)]
               else newest,
               stored)
  {
    var kept := if |t.cache| >= MAX_CACHE_ENTRIES then Unexpired(t.cache, now) else t.cache;
    UnexpiredIsSmaller(t.cache, now);
    SameLiveLater(t.cache, newest, clock, now);
    SameLiveLater(t.cache, newest, clock, stored);
    DroppingTheDead(t.cache, kept, newest, clock, stored);
    AddingTheSame(kept, newest, result.identifier, CacheEntry(result, stored + CACHE_TTL_MS), stored);
  }

  /** Taking out entries that have expired takes out nothing live. */
  lemma DroppingTheDead(cache: map<string, CacheEntry>, kept: map<string, CacheEntry>, newest: map<string, CacheEntry>,
                        clock: Instant, from: Instant)
    requires SameLive(cache, newest, clock) && clock <= from
    requires forall id | id in kept :: id in cache && kept[id] == cache[id]
    requires forall id | id in cache && id !in kept :: cache[id].expiresAt <= from
    ensures SameLive(kept, newest, from)
  {
    SameLiveLater(cache, newest, clock, from);
    forall id ensures LiveAt(kept, id, from) == LiveAt(newest, id, from) {
      assert LiveAt(cache, id, from) == LiveAt(newest, id, from);
    }
  }

  lemma AddingTheSame(a: map<string, CacheEntry>, b: map<string, CacheEntry>,
                      id: string, entry: CacheEntry, from: Instant)
    requires SameLive(a, b, from)
    ensures SameLive(a[id := entry], b[id := entry], from)
  {
    var x, y := a[id := entry], b[id := entry];
    forall k ensures LiveAt(x, k, from) == LiveAt(y, k, from) {
      assert LiveAt(a, k, from) == LiveAt(b, k, from);
    }
  }

  /**
    What a look-up answers, over every run: the result of the newest store of that identifier that
    took effect, if that was less than a minute ago, however often the cache was swept, pruned or
    looked into in between.
   */
  lemma LookUpAnswersTheNewest(ops: seq<CacheOp>, start: Instant, identifier: string, now: Instant)
    requires Ordered(ops, start) && Clock(ops, start) <= now
    ensures
      var newest := Newest(ops);
      Ran(Tables(map[], map[]), ops).Cached(identifier, now).1
        == if identifier in newest && now < newest[identifier].expiresAt then Some(newest[identifier].result) else None
  {
    CacheHoldsTheLive(ops, start);
    SameLiveLater(Ran(Tables(map[], map[]), ops).cache, Newest(ops), Clock(ops, start), now);
    assert LiveAt(Ran(Tables(map[], map[]), ops).cache, identifier, now) == LiveAt(Newest(ops), identifier, now);
  }

  /** A newest entry is that of a store of the run, made a minute before it expires, and the last to take effect. */
  lemma {:induction false} NewestIsTheLastStore(ops: seq<CacheOp>, identifier: string) returns (i: nat)
    requires identifier in Newest(ops)
    ensures i < |ops| && ops[i].Keep? && ops[i].result.identifier == identifier
    ensures Newest(ops)[identifier] == CacheEntry(ops[i].result, ops[i].stored + CACHE_TTL_MS)
    ensures TakesEffect(Newest(ops[..i]), ops[i])
    ensures forall j | i < j < |ops| && ops[j].Keep? && ops[j].result.identifier == identifier ::
              !TakesEffect(Newest(ops[..j]), ops[j])
  {
    var front, op := ops[..|ops| - 1], ops[|ops| - 1];
    if op.Keep? && TakesEffect(Newest(front), op) && op.result.identifier == identifier {
      i := |ops| - 1;
    } else {
      i := NewestIsTheLastStore(front, identifier);
      assert forall j | 0 <= j < |front| :: front[j] == ops[j] && front[..j] == ops[..j];
    }
  }

  // The imperative tables.

  class Loader {
    var cache: map<string, CacheEntry>
    var inFlight: map<string, ChannelId>

    function State(): Tables
      reads this
    {
      Tables(cache, inFlight)
    }

    constructor ()
      ensures State() == Tables(map[], map[])
    {
      cache, inFlight := map[], map[];
    }

    method Cached(identifier: string, now: Instant) returns (answer: Option<LoadResult>)
      modifies this`cache
      ensures (State(), answer) == old(State()).Cached(identifier, now)
    {
      if identifier !in cache {
        return None;
      }
      var entry := cache[identifier];
      if entry.expiresAt <= now {
        cache := cache - {identifier};
        return None;
      }
      return Some(entry.result);
    }

    method JoinOrLead(identifier: string, own: ChannelId) returns (joined: Option<ChannelId>)
      modifies this`inFlight
      ensures (State(), joined) == old(State()).JoinOrLead(identifier, own)
    {
      if identifier in inFlight {
        joined := Some(inFlight[identifier]);
      } else {
        inFlight := inFlight[identifier := own];
        joined := None;
      }
    }

    method RemoveIfStillOurs(identifier: string, ours: ChannelId)
      modifies this`inFlight
      ensures State() == old(State()).RemoveIfStillOurs(identifier, ours)
    {
      if identifier in inFlight && inFlight[identifier] == ours {
        inFlight := inFlight - {identifier};
      }
    }

    method Store(result: LoadResult, now: Instant, stored: Instant)
      modifies this`cache
      ensures State() == old(State()).Store(result, now, stored)
    {
      if !result.failed {
        if |cache| >= MAX_CACHE_ENTRIES {
          cache := Retained(cache, now);
        }
        if |cache| < MAX_CACHE_ENTRIES {
          cache := cache[result.identifier := CacheEntry(result, stored + CACHE_TTL_MS)];
        }
      }
    }

    method SweepExpired(now: Instant)
      modifies this`cache
      ensures State() == old(State()).SweepExpired(now)
    {
      cache := Retained(cache, now);
    }
  }

  /** `retain`: visits every entry once and keeps those not yet expired. */
  method Retained(cache: map<string, CacheEntry>, now: Instant) returns (kept: map<string, CacheEntry>)
    ensures kept == Unexpired(cache, now)
  {
    kept := cache;
    var unvisited := cache.Keys;
    while unvisited != {}
      invariant unvisited <= cache.Keys && kept.Keys <= cache.Keys
      invariant forall id | id in kept :: kept[id] == cache[id]
      invariant forall id | id in cache :: id in kept <==> id in unvisited || cache[id].expiresAt > now
      decreases |unvisited|
    {
      var id :| id in unvisited;
      if cache[id].expiresAt <= now {
        kept := kept - {id};
      }
      unvisited := unvisited - {id};
    }
  }
}
