/**
 Reserve, publish, commit (src/darkpulse/ingestion/pipeline.py, dedup.py, publisher.py).
 A dedup marker has no owner and may expire, be released by somebody else or be forgotten at
 any time; the unique key of the raw collection is what decides who published.
 */
module Dedup {
  const COMMIT_RETRIES := 3

  datatype Marker = Pending | Done

  type Markers = map<string, Marker>

  /** `SET key pending EX ttl NX`, and the in-memory `reserve`. */
  function Reserve(m: Markers, k: string): Markers {
    if k in m then m else m[k := Pending]
  }

  function Release(m: Markers, k: string): Markers {
    if k in m && m[k] == Pending then m - {k} else m
  }

  function Forget(m: Markers, k: string): Markers {
    m - {k}
  }

  /** The Redis script commits only a marker that is still pending; the in-memory store sets it anyway. */
  function Commit(m: Markers, k: string, redis: bool): Markers {
    if redis && !(k in m && m[k] == Pending) then m else m[k := Done]
  }

  /**
   `update_one({"dedup_key": k}, {"$setOnInsert": ...}, upsert=True)`: raw rows by dedup key, with
   the call that inserted them.
   */
  function Upsert(raw: map<string, nat>, k: string, call: nat): map<string, nat> {
    if k in raw then raw else raw[k := call]
  }

  // --- what a marker store promises -------------------------------------------------------------

  /** A reservation that is released leaves the store as it was; a done marker cannot be released. */
  lemma ReleaseUndoesReserve(m: Markers, k: string)
    ensures k !in m ==> Release(Reserve(m, k), k) == m
    ensures k in m && m[k] == Done ==> Release(Reserve(m, k), k) == m
    ensures forall j :: j != k ==> (j in Release(m, k) <==> j in m) && (j in m ==> Release(m, k)[j] == m[j])
  {
    if k !in m { assert m[k := Pending] - {k} == m; }
  }

  datatype Operation = Reserving(key: string) | Undoing(key: string) | Marking(key: string) | Forgetting(key: string)

  function Perform(m: Markers, o: Operation, redis: bool): Markers {
    match o
    case Reserving(k) => Reserve(m, k)
    case Undoing(k) => Release(m, k)
    case Marking(k) => Commit(m, k, redis)
    case Forgetting(k) => Forget(m, k)
  }

  function PerformAll(m: Markers, os: seq<Operation>, redis: bool): Markers
    decreases |os|
  {
    if os == [] then m else PerformAll(Perform(m, os[0], redis), os[1..], redis)
  }

  /** A done marker outlives every operation but `forget`, on either store. */
  lemma {:induction false} DoneUntilForgotten(m: Markers, os: seq<Operation>, redis: bool, k: string)
    requires k in m && m[k] == Done && Forgetting(k) !in os
    ensures var n := PerformAll(m, os, redis); k in n && n[k] == Done
    decreases |os|
  {
    if os != [] {
      assert os[0] in os;
      DoneUntilForgotten(Perform(m, os[0], redis), os[1..], redis, k);
    }
  }

  /**
   On Redis a key that nobody has marked can only become done by being reserved first: a commit
   that comes after expiry or `forget` leaves no marker. The in-memory store marks it all the same.
   */
  lemma {:induction false} DoneOnlyAfterReserve(m: Markers, os: seq<Operation>, k: string)
    requires k !in m && Reserving(k) !in os
    ensures k !in PerformAll(m, os, true)
    ensures Commit(m, k, false) == m[k := Done]
    decreases |os|
  {
    if os != [] {
      assert os[0] in os;
      DoneOnlyAfterReserve(Perform(m, os[0], true), os[1..], k);
    }
  }

  // --- any number of interleaved calls --------------------------------------------------------

  datatype Outcome = Published | Duplicate | Rejected | Raised | Crashed

  /** A call of `process` between two awaits. Calls are numbered in the order they begin. */
  datatype Call =
    | Start(key: string)
    | Reserved(key: string)
    | Releasing(key: string)
    | Committing(key: string, inserted: bool, failures: nat)
    | Ended(key: string, outcome: Outcome)

  datatype System = System(markers: Markers, raw: map<string, nat>, calls: seq<Call>)

  datatype Event =
    | Begin(key: string, accepted: bool)
    | Expire(key: string)
    | ForgetKey(key: string)
    | ReserveKey(c: nat)
    | Refuse(c: nat)
    | PublishRow(c: nat, acknowledged: bool)
    | ReleaseKey(c: nat)
    | CommitKey(c: nat)
    | CommitFails(c: nat)
    | StoreFails(c: nat)
    | Crash(c: nat)

  predicate Enabled(s: System, e: Event) {
    match e
    case Begin(_, _) | Expire(_) | ForgetKey(_) => true
    case ReserveKey(c) => c < |s.calls| && s.calls[c].Start?
    case Refuse(c) => c < |s.calls| && s.calls[c].Reserved?
    case PublishRow(c, _) => c < |s.calls| && s.calls[c].Reserved?
    case ReleaseKey(c) => c < |s.calls| && s.calls[c].Releasing?
    case CommitKey(c) => c < |s.calls| && s.calls[c].Committing?
    case CommitFails(c) => c < |s.calls| && s.calls[c].Committing?
    case StoreFails(c) => c < |s.calls| && (s.calls[c].Start? || s.calls[c].Releasing?)
    case Crash(c) => c < |s.calls| && !s.calls[c].Ended?
  }

  function Moved(s: System, c: nat, to: Call): System
    requires c < |s.calls|
  {
    s.(calls := s.calls[c := to])
  }

  /** `redis` selects the store. */
  function Apply(s: System, e: Event, redis: bool): System
    requires Enabled(s, e)
  {
    match e
    case Begin(k, accepted) => s.(calls := s.calls + [if accepted then Start(k) else Ended(k, Rejected)])
    case Expire(k) => s.(markers := s.markers - {k})
    case ForgetKey(k) => s.(markers := Forget(s.markers, k))
    case ReserveKey(c) =>
      var k := s.calls[c].key;
      Moved(s.(markers := Reserve(s.markers, k)), c, if k in s.markers then Ended(k, Duplicate) else Reserved(k))
    case Refuse(c) =>
      // the contract record or its validation raises, or publishing raises without a write
      Moved(s, c, Releasing(s.calls[c].key))
    case PublishRow(c, acknowledged) =>
      // an insert whose answer is lost raises like one that never happened
      var k := s.calls[c].key;
      Moved(s.(raw := Upsert(s.raw, k, c)), c,
            if acknowledged then Committing(k, k !in s.raw, 0) else Releasing(k))
    case ReleaseKey(c) =>
      var k := s.calls[c].key;
      Moved(s.(markers := Release(s.markers, k)), c, Ended(k, Raised))
    case CommitKey(c) =>
      var k := s.calls[c].key;
      Moved(s.(markers := Commit(s.markers, k, redis)), c,
            Ended(k, if s.calls[c].inserted then Published else Duplicate))
    case CommitFails(c) =>
      var call := s.calls[c];
      if call.inserted && call.failures < COMMIT_RETRIES
      then Moved(s, c, call.(failures := call.failures + 1))
      else Moved(s, c, Ended(call.key, Raised))
    case StoreFails(c) => Moved(s, c, Ended(s.calls[c].key, Raised))
    case Crash(c) => Moved(s, c, Ended(s.calls[c].key, Crashed))
  }

  predicate Runnable(s: System, es: seq<Event>, redis: bool)
    decreases |es|
  {
    es == [] || (Enabled(s, es[0]) && Runnable(Apply(s, es[0], redis), es[1..], redis))
  }

  function Run(s: System, es: seq<Event>, redis: bool): System
    requires Runnable(s, es, redis)
    decreases |es|
  {
    if es == [] then s else Run(Apply(s, es[0], redis), es[1..], redis)
  }

  const EMPTY := System(map[], map[], [])

  /** Call c created the row of its key. */
  predicate Owns(s: System, c: nat) {
    c < |s.calls| && s.calls[c].key in s.raw && s.raw[s.calls[c].key] == c
  }

  ghost predicate CallOk(s: System, c: nat)
    requires c < |s.calls|
  {
    match s.calls[c]
    case Start(_) => !Owns(s, c)
    case Reserved(_) => !Owns(s, c)
    case Releasing(_) => true
    case Committing(k, inserted, _) => k in s.raw && (inserted <==> Owns(s, c))
    case Ended(k, Published) => Owns(s, c)
    case Ended(k, Duplicate) => !Owns(s, c)
    case Ended(k, Rejected) => !Owns(s, c)
    case Ended(k, _) => true
  }

  ghost predicate Ok(s: System) {
    && (forall k :: k in s.markers && s.markers[k] == Done ==> k in s.raw)
    && (forall k :: k in s.raw ==> s.raw[k] < |s.calls| && s.calls[s.raw[k]].key == k)
    && (forall c :: 0 <= c < |s.calls| ==> CallOk(s, c))
  }

  lemma CallStaysOk(s: System, e: Event, redis: bool, c: nat)
    requires Ok(s) && Enabled(s, e) && c < |Apply(s, e, redis).calls|
    ensures CallOk(Apply(s, e, redis), c)
  {
    if c < |s.calls| { assert CallOk(s, c); }
  }

  lemma StepKeepsOk(s: System, e: Event, redis: bool)
    requires Ok(s) && Enabled(s, e)
    ensures Ok(Apply(s, e, redis))
  {
    var t := Apply(s, e, redis);
    assert e.CommitKey? ==> s.calls[e.c].key in s.raw by {
      if e.CommitKey? { assert CallOk(s, e.c); }
    }
    forall c | 0 <= c < |t.calls| ensures CallOk(t, c) { CallStaysOk(s, e, redis, c); }
    hide CallOk, Owns;
  }

  lemma {:induction false} RunKeepsOk(s: System, es: seq<Event>, redis: bool)
    requires Ok(s) && Runnable(s, es, redis)
    ensures Ok(Run(s, es, redis))
    decreases |es|
  {
    if es != [] {
      StepKeepsOk(s, es[0], redis);
      RunKeepsOk(Apply(s, es[0], redis), es[1..], redis);
    }
  }

  lemma {:induction false} RowsAreWrittenOnce(s: System, es: seq<Event>, redis: bool, k: string)
    requires Runnable(s, es, redis) && k in s.raw
    ensures k in Run(s, es, redis).raw && Run(s, es, redis).raw[k] == s.raw[k]
    decreases |es|
  {
    if es != [] {
      RowsAreWrittenOnce(Apply(s, es[0], redis), es[1..], redis, k);
    }
  }

  lemma {:induction false} EndedCallsStay(s: System, es: seq<Event>, redis: bool, c: nat)
    requires Runnable(s, es, redis) && c < |s.calls| && s.calls[c].Ended?
    ensures var t := Run(s, es, redis); c < |t.calls| && t.calls[c] == s.calls[c]
    decreases |es|
  {
    if es != [] {
      EndedCallsStay(Apply(s, es[0], redis), es[1..], redis, c);
    }
  }

  /**
   Any number of calls, in any interleaving with expiry, foreign releases, `forget`, failures and
   crashes, on either store: a key is published by at most one call, which is the one that created
   its only row; the call that created the row never answers "duplicate"; and a done marker means
   that the row is there.
   */
  lemma PublishedAtMostOnce(es: seq<Event>, redis: bool)
    requires Runnable(EMPTY, es, redis)
    ensures var t := Run(EMPTY, es, redis);
            && (forall b, c | 0 <= b < |t.calls| && 0 <= c < |t.calls|
                              && t.calls[b] == t.calls[c] && t.calls[b].Ended? && t.calls[b].outcome == Published
                  :: b == c)
            && (forall c | 0 <= c < |t.calls| && t.calls[c].Ended? ::
                  && (t.calls[c].outcome == Published ==> Owns(t, c))
                  && (Owns(t, c) ==> t.calls[c].outcome in {Published, Raised, Crashed}))
            && (forall k :: k in t.markers && t.markers[k] == Done ==> k in t.raw)
  {
    RunKeepsOk(EMPTY, es, redis);
    var t := Run(EMPTY, es, redis);
    forall c | 0 <= c < |t.calls| && t.calls[c].Ended?
      ensures t.calls[c].outcome == Published ==> Owns(t, c)
      ensures Owns(t, c) ==> t.calls[c].outcome in {Published, Raised, Crashed}
    {
      assert CallOk(t, c);
    }
  }

  // --- duplicates without a row ------------------------------------------------------------------

  /** A call that has reserved its key, or may have, and not stored anything for it. */
  predicate MayHold(call: Call, k: string) {
    call.key == k && (call.Reserved? || call.Releasing? || (call.Ended? && call.outcome in {Raised, Crashed}))
  }

  /** A marker without a row goes back to a call that is between its awaits, has failed or is dead. */
  ghost predicate MarkersHeld(s: System) {
    forall k :: k in s.markers && k !in s.raw ==> exists h :: 0 <= h < |s.calls| && MayHold(s.calls[h], k)
  }

  lemma StepKeepsHeld(s: System, e: Event, redis: bool)
    requires Ok(s) && MarkersHeld(s) && Enabled(s, e)
    ensures MarkersHeld(Apply(s, e, redis))
  {
    var t := Apply(s, e, redis);
    assert e.CommitKey? ==> s.calls[e.c].key in s.raw by {
      if e.CommitKey? { assert CallOk(s, e.c); }
    }
    forall k | k in t.markers && k !in t.raw ensures exists h :: 0 <= h < |t.calls| && MayHold(t.calls[h], k) {
      if k in s.markers {
        var h :| 0 <= h < |s.calls| && MayHold(s.calls[h], k);
        assert MayHold(t.calls[h], k);
      } else {
        assert e.ReserveKey? && MayHold(t.calls[e.c], k);
      }
    }
  }

  lemma {:induction false} RunKeepsHeld(s: System, es: seq<Event>, redis: bool)
    requires Ok(s) && MarkersHeld(s) && Runnable(s, es, redis)
    ensures MarkersHeld(Run(s, es, redis))
    decreases |es|
  {
    if es != [] {
      StepKeepsHeld(s, es[0], redis);
      StepKeepsOk(s, es[0], redis);
      RunKeepsHeld(Apply(s, es[0], redis), es[1..], redis);
    }
  }

  /** Whether a reservation of k stands after the event: reserving sets it; expiry, forgetting and any release clear it. */
  predicate StandsAfter(s: System, e: Event, k: string, was: bool)
    requires Enabled(s, e)
  {
    match e
    case ReserveKey(c) => was || s.calls[c].key == k
    case Expire(j) => was && j != k
    case ForgetKey(j) => was && j != k
    case ReleaseKey(c) => was && s.calls[c].key != k
    case _ => was
  }

  predicate Stands(s: System, es: seq<Event>, redis: bool, k: string, was: bool)
    requires Runnable(s, es, redis)
    decreases |es|
  {
    if es == [] then was else Stands(Apply(s, es[0], redis), es[1..], redis, k, StandsAfter(s, es[0], k, was))
  }

  /** Some call's insert for k reached the database, acknowledged or not. */
  predicate Stores(s: System, es: seq<Event>, redis: bool, k: string)
    requires Runnable(s, es, redis)
    decreases |es|
  {
    es != [] && ((es[0].PublishRow? && s.calls[es[0].c].key == k) || Stores(Apply(s, es[0], redis), es[1..], redis, k))
  }

  /** Until the first insert for k, its marker is there exactly while a reservation stands. */
  lemma {:induction false} MarkerWithoutARow(s: System, es: seq<Event>, redis: bool, k: string)
    requires Ok(s) && Runnable(s, es, redis) && k !in s.raw
    ensures var t := Run(s, es, redis);
            && (k in t.raw <==> Stores(s, es, redis, k))
            && (k !in t.raw ==> (k in t.markers <==> Stands(s, es, redis, k, k in s.markers)))
    decreases |es|
  {
    if es != [] {
      var e, next := es[0], Apply(s, es[0], redis);
      StepKeepsOk(s, e, redis);
      if k in next.raw {
        RowsAreWrittenOnce(next, es[1..], redis, k);
      } else {
        if e.CommitKey? { assert CallOk(s, e.c); }
        MarkerWithoutARow(next, es[1..], redis, k);
      }
    }
  }

  /**
   A call is answered "duplicate" with nothing stored exactly when no insert for its key has been
   made and a reservation of the key, by whatever call, has not expired, been released or been
   forgotten since. That reservation then belongs to a call that is still at it, has failed or is
   dead.
   */
  lemma DuplicateWithoutARow(es: seq<Event>, redis: bool, c: nat)
    requires Runnable(EMPTY, es, redis) && Enabled(Run(EMPTY, es, redis), ReserveKey(c))
    ensures var s := Run(EMPTY, es, redis);
            var k, t := s.calls[c].key, Apply(s, ReserveKey(c), redis);
            && (t.calls[c] == Ended(k, Duplicate) && k !in t.raw
                <==> !Stores(EMPTY, es, redis, k) && Stands(EMPTY, es, redis, k, false))
            && (t.calls[c] == Ended(k, Duplicate) && k !in t.raw ==>
                  exists h :: 0 <= h < |s.calls| && h != c && MayHold(s.calls[h], k))
  {
    var s := Run(EMPTY, es, redis);
    MarkerWithoutARow(EMPTY, es, redis, s.calls[c].key);
    RunKeepsHeld(EMPTY, es, redis);
  }

  lemma OneEvent(s: System, e: Event, rest: seq<Event>, redis: bool)
    requires Enabled(s, e) && Runnable(Apply(s, e, redis), rest, redis)
    ensures Runnable(s, [e] + rest, redis) && Run(s, [e] + rest, redis) == Run(Apply(s, e, redis), rest, redis)
  {
    assert ([e] + rest)[1..] == rest;
  }

  /** Which does happen: a crashed call's reservation turns the next call away with nothing stored. */
  lemma DuplicateOfACrashedCall(redis: bool) returns (es: seq<Event>)
    ensures Runnable(EMPTY, es, redis)
    ensures var t := Run(EMPTY, es, redis); t.raw == map[] && Ended("k", Duplicate) in t.calls
  {
    var s1 := Apply(EMPTY, Begin("k", true), redis);
    var s2 := Apply(s1, ReserveKey(0), redis);
    var s3 := Apply(s2, Crash(0), redis);
    var s4 := Apply(s3, Begin("k", true), redis);
    var s5 := Apply(s4, ReserveKey(1), redis);
    assert s5.calls[1] == Ended("k", Duplicate);
    es := [];
    OneEvent(s4, ReserveKey(1), es, redis); es := [ReserveKey(1)] + es;
    OneEvent(s3, Begin("k", true), es, redis); es := [Begin("k", true)] + es;
    OneEvent(s2, Crash(0), es, redis); es := [Crash(0)] + es;
    OneEvent(s1, ReserveKey(0), es, redis); es := [ReserveKey(0)] + es;
    OneEvent(EMPTY, Begin("k", true), es, redis); es := [Begin("k", true)] + es;
  }

  // --- the stores and the pipeline as objects --------------------------------------------------

  class InMemoryDedupStore {
    var states: Markers

    constructor ()
      ensures states == map[]
    {
      states := map[];
    }

    method ReserveKey(k: string) returns (reserved: bool)
      modifies this
      ensures reserved <==> k !in old(states)
      ensures states == Reserve(old(states), k)
    {
      if k in states {
        return false;
      }
      states := states[k := Pending];
      return true;
    }

    method CommitKey(k: string)
      modifies this
      ensures states == Commit(old(states), k, false)
      ensures k in states && states[k] == Done
      ensures forall j :: j != k ==> (j in states <==> j in old(states)) && (j in states ==> states[j] == old(states)[j])
    {
      states := states[k := Done];
    }

    method ReleaseKey(k: string)
      modifies this
      ensures states == Release(old(states), k)
      ensures k in states <==> k in old(states) && old(states)[k] == Done
      ensures forall j :: j != k ==> (j in states <==> j in old(states)) && (j in states ==> states[j] == old(states)[j])
    {
      if k in states && states[k] == Pending {
        states := states - {k};
      }
    }

    method ForgetKey(k: string)
      modifies this
      ensures states == Forget(old(states), k)
    {
      states := states - {k};
    }
  }

  class RedisDedupStore {
    var keys: Markers

    constructor ()
      ensures keys == map[]
    {
      keys := map[];
    }

    method ReserveKey(k: string) returns (reserved: bool)
      modifies this
      ensures reserved <==> k !in old(keys)
      ensures keys == Reserve(old(keys), k)
    {
      reserved := k !in keys;
      if reserved {
        keys := keys[k := Pending];
      }
    }

    method CommitKey(k: string)
      modifies this
      ensures keys == Commit(old(keys), k, true)
      ensures k in keys <==> k in old(keys)
      ensures k in keys ==> keys[k] == Done
      ensures forall j :: j != k ==> (j in keys <==> j in old(keys)) && (j in keys ==> keys[j] == old(keys)[j])
    {
      if k in keys && keys[k] == Pending {
        keys := keys[k := Done];
      }
    }

    method ReleaseKey(k: string)
      modifies this
      ensures keys == Release(old(keys), k)
      ensures k in keys <==> k in old(keys) && old(keys)[k] == Done
      ensures forall j :: j != k ==> (j in keys <==> j in old(keys)) && (j in keys ==> keys[j] == old(keys)[j])
    {
      if k in keys && keys[k] == Pending {
        keys := keys - {k};
      }
    }

    method ForgetKey(k: string)
      modifies this
      ensures keys == Forget(old(keys), k)
    {
      keys := keys - {k};
    }
  }

  /** Validating or publishing may raise without a write, or the answer to the insert be lost. */
  datatype PublishFault = NoFault | BeforeInsert | AfterInsert

  /** What fails during one call; `commits` is how many commits in a row fail. */
  datatype Faults = Faults(reserve: bool, publish: PublishFault, release: bool, commits: nat)

  class IngestionPipeline {
    const store: RedisDedupStore
    var raw: map<string, nat>

    constructor (store: RedisDedupStore)
      requires store.keys == map[]
      ensures this.store == store && raw == map[] && Valid()
    {
      this.store := store;
      raw := map[];
    }

    ghost predicate Valid()
      reads this, store
    {
      forall k :: k in store.keys && store.keys[k] == Done ==> k in raw
    }

    /** Rows are never replaced, and no other call writes under this call's number. */
    twostate predicate OthersMoved(call: nat)
      reads this
    {
      && (forall k :: k in old(raw) ==> k in raw && raw[k] == old(raw)[k])
      && (forall k :: k in raw && raw[k] == call ==> k in old(raw))
    }

    /** Other calls, expiry and `forget` act while this call awaits, unless it is `alone`. */
    method Await(call: nat, alone: bool)
      requires Valid()
      modifies this, store
      ensures Valid() && OthersMoved(call)
      ensures alone ==> raw == old(raw) && store.keys == old(store.keys)
    {
      if alone {
        return;
      }
      var more: map<string, nat> :| forall k :: k in more ==> k !in raw && more[k] != call;
      raw := raw + more;
      var markers: Markers :| forall k :: k in markers && markers[k] == Done ==> k in raw;
      store.keys := markers;
    }

    /** `MongoPublisher.publish`; true when this call inserted the row. */
    method Publish(k: string, call: nat) returns (inserted: bool)
      modifies this
      ensures raw == Upsert(old(raw), k, call)
      ensures inserted <==> k !in old(raw)
    {
      inserted := k !in raw;
      if inserted {
        raw := raw[k := call];
      }
    }

    /** The first commit and its three retries; the first `failing` of them fail. */
    method CommitWithRetries(k: string, call: nat, failing: nat, alone: bool) returns (committed: bool)
      requires Valid() && k in raw
      modifies this, store
      ensures Valid() && OthersMoved(call)
      ensures committed <==> failing <= COMMIT_RETRIES
      ensures alone ==> raw == old(raw)
      ensures alone ==> store.keys == if committed then Commit(old(store.keys), k, true) else old(store.keys)
    {
      committed := false;
      var attempt := 0;
      while attempt <= COMMIT_RETRIES && !committed
        invariant attempt <= COMMIT_RETRIES + 1
        invariant Valid() && OthersMoved(call)
        invariant committed ==> failing < attempt
        invariant !committed ==> attempt <= failing
        invariant alone ==> raw == old(raw)
        invariant alone ==> store.keys == if committed then Commit(old(store.keys), k, true) else old(store.keys)
      {
        Await(call, alone);
        if failing <= attempt {
          store.CommitKey(k);
          committed := true;
        }
        attempt := attempt + 1;
      }
    }

    /** No row is replaced, and only k's can be this call's. */
    twostate predicate OnlyMine(k: string, call: nat)
      reads this
    {
      && (forall j :: j in old(raw) ==> j in raw && raw[j] == old(raw)[j])
      && (forall j :: j in raw && raw[j] == call ==> j == k)
    }

    /** `process` from the publication on, with the key reserved. */
    method PublishReserved(k: string, call: nat, faults: Faults, alone: bool) returns (outcome: Outcome)
      requires Valid() && call !in raw.Values
      modifies this, store
      ensures Valid() && OnlyMine(k, call)
      ensures outcome == Published ==> k !in old(raw) && k in raw && raw[k] == call
      ensures outcome == Duplicate ==> call !in raw.Values
      ensures outcome in {Published, Duplicate, Raised}
      ensures alone && !faults.publish.NoFault? ==>
                && outcome == Raised
                && raw == (if faults.publish.AfterInsert? then Upsert(old(raw), k, call) else old(raw))
                && store.keys == if faults.release then old(store.keys) else Release(old(store.keys), k)
      ensures alone && faults.publish.NoFault? ==>
                && outcome == (if k in old(raw) then if faults.commits == 0 then Duplicate else Raised
                               else if faults.commits <= COMMIT_RETRIES then Published else Raised)
                && raw == Upsert(old(raw), k, call)
                && store.keys == if outcome == Raised then old(store.keys) else Commit(old(store.keys), k, true)
    {
      Await(call, alone);
      assert call !in raw.Values;
      var inserted := false;
      if !faults.publish.BeforeInsert? {
        inserted := Publish(k, call);
      }
      if !faults.publish.NoFault? {
        Await(call, alone);
        if !faults.release {
          store.ReleaseKey(k);
        }
        return Raised;
      }
      if !inserted {
        Await(call, alone);
        if faults.commits > 0 {
          return Raised;
        }
        store.CommitKey(k);
        return Duplicate;
      }
      var committed := CommitWithRetries(k, call, faults.commits, alone);
      return if committed then Published else Raised;
    }

    /**
     `process` on an evaluated record; `accepted` is the safety policy's decision. Among other
     calls it never publishes over an existing row; on its own its answer, the row and the marker
     are determined by the stores as they were and by what fails.
     */
    method Process(k: string, accepted: bool, call: nat, faults: Faults, alone: bool) returns (outcome: Outcome)
      requires Valid() && call !in raw.Values
      modifies this, store
      ensures Valid() && OnlyMine(k, call)
      ensures outcome == Rejected <==> !accepted
      ensures outcome == Rejected || (alone && (faults.reserve || k in old(store.keys))) ==>
                raw == old(raw) && store.keys == old(store.keys)
      ensures outcome == Published ==> k !in old(raw) && k in raw && raw[k] == call
      ensures outcome == Duplicate ==> call !in raw.Values
      ensures alone && accepted && faults.reserve ==> outcome == Raised
      ensures alone && accepted && !faults.reserve && k in old(store.keys) ==> outcome == Duplicate
      ensures alone && accepted && !faults.reserve && k !in old(store.keys) && !faults.publish.NoFault? ==>
                && outcome == Raised
                && raw == (if faults.publish.AfterInsert? then Upsert(old(raw), k, call) else old(raw))
                && store.keys == if faults.release then old(store.keys)[k := Pending] else old(store.keys)
      ensures alone && accepted && !faults.reserve && k !in old(store.keys) && faults.publish.NoFault? ==>
                && outcome == (if k in old(raw) then if faults.commits == 0 then Duplicate else Raised
                               else if faults.commits <= COMMIT_RETRIES then Published else Raised)
                && raw == Upsert(old(raw), k, call)
                && store.keys == old(store.keys)[k := if outcome == Raised then Pending else Done]
    {
      if !accepted {
        return Rejected;
      }
      Await(call, alone);
      if faults.reserve {
        return Raised;
      }
      var reserved := store.ReserveKey(k);
      if !reserved {
        return Duplicate;
      }
      outcome := PublishReserved(k, call, faults, alone);
    }
  }
}
