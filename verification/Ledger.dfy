/**
 The hash-linked evidence ledger (src/darkpulse/api/routes/evidence.py,
 src/darkpulse/evidence/sealing.py). Records are kept in `_id` order, which is insertion order.
 Appending is optimistic: a caller reads the last record and inserts, and the only
 synchronisation are the unique indexes on `hash_sha256` and on string-valued `previous_hash`
 (src/darkpulse/storage/mongodb.py:331-345).
 */
module Ledger {
  import opened Common

  const MAX_TRIES := 5
  const VERIFY_CAP := 100_000

  /** SHA-256 as a free constructor: collisions are not part of this model. */
  datatype Hash = Sha256(payload: string)

  datatype Seal = Seal(hash: Hash, previous: Option<Hash>, sealedAt: int)

  function Find(l: seq<Seal>, h: Hash): (r: Option<Seal>)
    ensures r.Some? ==> r.value in l && r.value.hash == h
    ensures r.None? ==> forall k :: 0 <= k < |l| ==> l[k].hash != h
  {
    if l == [] then None else if l[0].hash == h then Some(l[0]) else Find(l[1..], h)
  }

  function LastHash(l: seq<Seal>): Option<Hash> {
    if l == [] then None else Some(l[|l| - 1].hash)
  }

  /** Neither unique index refuses the new record. The second one ignores a null `previous_hash`. */
  predicate Insertable(l: seq<Seal>, s: Seal) {
    forall k :: 0 <= k < |l| ==> l[k].hash != s.hash && (s.previous.Some? ==> l[k].previous != s.previous)
  }

  /** What chain verification looks at. */
  predicate Linked(l: seq<Seal>) {
    forall k :: 1 <= k < |l| ==> l[k].previous == Some(l[k - 1].hash)
  }

  /** One chain from one root, with every payload sealed once. */
  predicate Linear(l: seq<Seal>) {
    && Linked(l)
    && (l != [] ==> l[0].previous == None)
    && (forall j, k :: 0 <= j < k < |l| ==> l[j].hash != l[k].hash)
  }

  // --- any number of interleaved callers -----------------------------------------------------

  /**
   A call of `generate_seal` between two awaits. `tries` are the tries that failed, `start` is
   the length of the ledger when the call began and `seen` its length at the last lookup.
   */
  datatype Caller =
    | Idle
    | Checking(payload: string, tries: nat, start: nat)
    | Reading(payload: string, tries: nat, start: nat, seen: nat)
    | Inserting(payload: string, tries: nat, start: nat, seen: nat, previous: Option<Hash>)
    | Returned(payload: string, seal: Seal)
    | Conflicted(payload: string, start: nat)

  datatype System = System(ledger: seq<Seal>, callers: seq<Caller>)

  datatype Event = Call(c: nat, payload: string) | Check(c: nat) | Read(c: nat) | Insert(c: nat, at: int) | Abandon(c: nat)

  predicate Enabled(s: System, e: Event) {
    && e.c < |s.callers|
    && match e
       case Call(c, _) => s.callers[c].Idle? || s.callers[c].Returned? || s.callers[c].Conflicted?
       case Check(c) => s.callers[c].Checking?
       case Read(c) => s.callers[c].Reading?
       case Insert(c, _) => s.callers[c].Inserting?
       case Abandon(_) => true
  }

  /** The record an insert would write. */
  function Proposed(c: Caller, at: int): Seal
    requires c.Inserting?
  {
    Seal(Sha256(c.payload), c.previous, at)
  }

  function NextLedger(s: System, e: Event): seq<Seal>
    requires Enabled(s, e)
  {
    if e.Insert? && Insertable(s.ledger, Proposed(s.callers[e.c], e.at))
    then s.ledger + [Proposed(s.callers[e.c], e.at)]
    else s.ledger
  }

  function NextCaller(s: System, e: Event): Caller
    requires Enabled(s, e)
  {
    var c := s.callers[e.c];
    match e
    case Call(_, payload) => Checking(payload, 0, |s.ledger|)
    case Check(_) =>
      var existing := Find(s.ledger, Sha256(c.payload));
      if existing.Some? then Returned(c.payload, existing.value)
      else Reading(c.payload, c.tries, c.start, |s.ledger|)
    case Read(_) => Inserting(c.payload, c.tries, c.start, c.seen, LastHash(s.ledger))
    case Insert(_, at) =>
      if Insertable(s.ledger, Proposed(c, at)) then Returned(c.payload, Proposed(c, at))
      else if c.tries + 1 < MAX_TRIES then Checking(c.payload, c.tries + 1, c.start)
      else Conflicted(c.payload, c.start)
    case Abandon(_) => Idle
  }

  function Apply(s: System, e: Event): System
    requires Enabled(s, e)
  {
    System(NextLedger(s, e), s.callers[e.c := NextCaller(s, e)])
  }

  predicate Runnable(s: System, es: seq<Event>)
    decreases |es|
  {
    es == [] || (Enabled(s, es[0]) && Runnable(Apply(s, es[0]), es[1..]))
  }

  function Run(s: System, es: seq<Event>): System
    requires Runnable(s, es)
    decreases |es|
  {
    if es == [] then s else Run(Apply(s, es[0]), es[1..])
  }

  /** `previous` is the last hash of the ledger as it was at some length from `seen` on. */
  ghost predicate WasLast(l: seq<Seal>, seen: nat, previous: Option<Hash>) {
    exists m :: seen <= m <= |l| && LastHash(l[..m]) == previous
  }

  ghost predicate CallerOk(l: seq<Seal>, c: Caller) {
    match c
    case Idle => true
    case Checking(_, tries, start) => tries < MAX_TRIES && start + tries <= |l|
    case Reading(p, tries, start, seen) =>
      tries < MAX_TRIES && start + tries <= seen <= |l| && Find(l[..seen], Sha256(p)).None?
    case Inserting(p, tries, start, seen, previous) =>
      && tries < MAX_TRIES && start + tries <= seen <= |l|
      && Find(l[..seen], Sha256(p)).None? && WasLast(l, seen, previous)
    case Returned(p, seal) => seal in l && seal.hash == Sha256(p)
    case Conflicted(_, start) => start + MAX_TRIES <= |l|
  }

  ghost predicate Ok(s: System) {
    Linear(s.ledger) && forall c :: 0 <= c < |s.callers| ==> CallerOk(s.ledger, s.callers[c])
  }

  /** The one step that breaks the chain: a second root, from a caller that read the ledger while it was empty. */
  predicate Forks(s: System, e: Event) {
    && Enabled(s, e) && e.Insert?
    && s.callers[e.c].previous.None? && s.ledger != []
    && Find(s.ledger, Sha256(s.callers[e.c].payload)).None?
  }

  lemma FindInPrefix(l: seq<Seal>, n: nat, h: Hash)
    requires n <= |l| && Find(l[..n], h).None?
    ensures forall k :: 0 <= k < n ==> l[k].hash != h
  {
    forall k | 0 <= k < n ensures l[k].hash != h {
      assert l[..n][k] == l[k];
    }
  }

  lemma CallerOkGrows(l: seq<Seal>, s: Seal, c: Caller)
    requires CallerOk(l, c)
    ensures CallerOk(l + [s], c)
  {
    match c {
      case Reading(_, _, _, seen) => assert (l + [s])[..seen] == l[..seen];
      case Inserting(_, _, _, seen, previous) =>
        assert (l + [s])[..seen] == l[..seen];
        var m :| seen <= m <= |l| && LastHash(l[..m]) == previous;
        assert (l + [s])[..m] == l[..m];
      case _ =>
    }
  }

  lemma FollowsTheLast(l: seq<Seal>, m: nat)
    requires Linear(l) && m < |l|
    ensures l[m].previous == LastHash(l[..m])
  {
  }

  /** An insert goes through only behind the record that is still the last one. */
  lemma InsertsOnlyAtTheEnd(l: seq<Seal>, c: Caller, at: int)
    requires Linear(l) && CallerOk(l, c) && c.Inserting? && Insertable(l, Proposed(c, at))
    ensures c.previous.Some? ==> c.previous == LastHash(l)
    ensures c.previous.Some? || l == [] ==> Linear(l + [Proposed(c, at)])
  {
    if c.previous.Some? {
      var m :| c.seen <= m <= |l| && LastHash(l[..m]) == c.previous;
      if m < |l| {
        FollowsTheLast(l, m);
        assert false;
      }
      assert l[..m] == l;
    }
  }

  /** A refused insert means that the ledger has grown since the caller looked. */
  lemma RefusedOnlyAfterGrowth(l: seq<Seal>, c: Caller, at: int)
    requires Linear(l) && CallerOk(l, c) && c.Inserting? && !Insertable(l, Proposed(c, at))
    ensures c.seen < |l|
  {
    FindInPrefix(l, c.seen, Sha256(c.payload));
    var k :| 0 <= k < |l|
             && (l[k].hash == Sha256(c.payload) || (c.previous.Some? && l[k].previous == c.previous));
    if l[k].hash != Sha256(c.payload) {
      var m :| c.seen <= m <= |l| && LastHash(l[..m]) == c.previous;
      assert l[k].previous == Some(l[k - 1].hash);
      assert l[..m][m - 1] == l[m - 1];
      assert k - 1 == m - 1;
    }
  }

  /** What a caller that looked the payload up at length `seen` and read the last record later may rely on. */
  lemma LookedUpThenRead(l: seq<Seal>, payload: string, tries: nat, start: nat, seen: nat, m: nat)
    requires tries < MAX_TRIES && start + tries <= seen <= m <= |l| && Find(l[..seen], Sha256(payload)).None?
    ensures CallerOk(l, Inserting(payload, tries, start, seen, LastHash(l[..m])))
  {
  }

  lemma ActorStaysOk(s: System, e: Event)
    requires Ok(s) && Enabled(s, e)
    ensures CallerOk(NextLedger(s, e), NextCaller(s, e))
  {
    var c := s.callers[e.c];
    match e {
      case Check(_) => assert s.ledger[..|s.ledger|] == s.ledger;
      case Read(_) => assert s.ledger[..|s.ledger|] == s.ledger;
      case Insert(_, at) =>
        if !Insertable(s.ledger, Proposed(c, at)) { RefusedOnlyAfterGrowth(s.ledger, c, at); }
      case _ =>
    }
  }

  lemma StepKeepsOk(s: System, e: Event)
    requires Ok(s) && Enabled(s, e) && !Forks(s, e)
    ensures Ok(Apply(s, e))
  {
    var t := Apply(s, e);
    ActorStaysOk(s, e);
    forall c | 0 <= c < |t.callers| ensures CallerOk(t.ledger, t.callers[c]) {
      if c != e.c && t.ledger != s.ledger {
        CallerOkGrows(s.ledger, Proposed(s.callers[e.c], e.at), s.callers[c]);
      }
    }
    if t.ledger != s.ledger {
      InsertsOnlyAtTheEnd(s.ledger, s.callers[e.c], e.at);
    }
  }

  /** For each single step the chain stays one chain exactly when the step is not a second root. */
  lemma BreaksExactlyWhenForking(s: System, e: Event)
    requires Ok(s) && Enabled(s, e)
    ensures Linked(Apply(s, e).ledger) <==> !Forks(s, e)
  {
    if Forks(s, e) {
      var l, n := s.ledger, Apply(s, e).ledger;
      assert Insertable(l, Proposed(s.callers[e.c], e.at));
      assert n == l + [Proposed(s.callers[e.c], e.at)];
      assert n[|l|].previous != Some(n[|l| - 1].hash);
    } else {
      StepKeepsOk(s, e);
    }
  }

  predicate ForkedSomewhere(s: System, es: seq<Event>)
    requires Runnable(s, es)
    decreases |es|
  {
    es != [] && (Forks(s, es[0]) || ForkedSomewhere(Apply(s, es[0]), es[1..]))
  }

  lemma {:induction false} BrokenStaysBroken(s: System, es: seq<Event>)
    requires Runnable(s, es) && !Linked(s.ledger)
    ensures !Linked(Run(s, es).ledger)
    decreases |es|
  {
    if es != [] {
      var k :| 1 <= k < |s.ledger| && s.ledger[k].previous != Some(s.ledger[k - 1].hash);
      var n := Apply(s, es[0]).ledger;
      assert n[k] == s.ledger[k] && n[k - 1] == s.ledger[k - 1];
      BrokenStaysBroken(Apply(s, es[0]), es[1..]);
    }
  }

  /** Over whole runs, from any ledger, empty or not. */
  lemma {:induction false} LinkedExactlyWithoutFork(s: System, es: seq<Event>)
    requires Ok(s) && Runnable(s, es)
    ensures Linked(Run(s, es).ledger) <==> !ForkedSomewhere(s, es)
    ensures !ForkedSomewhere(s, es) ==> Ok(Run(s, es))
    decreases |es|
  {
    if es != [] {
      BreaksExactlyWhenForking(s, es[0]);
      if Forks(s, es[0]) {
        BrokenStaysBroken(Apply(s, es[0]), es[1..]);
      } else {
        StepKeepsOk(s, es[0]);
        LinkedExactlyWithoutFork(Apply(s, es[0]), es[1..]);
      }
    }
  }

  /** No caller still holds what it read from an empty ledger. */
  predicate NoRootPending(s: System) {
    s.ledger != [] && forall c :: 0 <= c < |s.callers| && s.callers[c].Inserting? ==> s.callers[c].previous.Some?
  }

  lemma {:induction false} NeverForksAfterGenesis(s: System, es: seq<Event>)
    requires NoRootPending(s) && Runnable(s, es)
    ensures !ForkedSomewhere(s, es) && NoRootPending(Run(s, es))
    decreases |es|
  {
    if es != [] {
      NeverForksAfterGenesis(Apply(s, es[0]), es[1..]);
    }
  }

  lemma {:induction false} OnlyAppends(s: System, es: seq<Event>)
    requires Runnable(s, es)
    ensures s.ledger <= Run(s, es).ledger
    decreases |es|
  {
    if es != [] {
      OnlyAppends(Apply(s, es[0]), es[1..]);
    }
  }

  /**
   With its genesis record in place the ledger stays one chain under every interleaving; every
   call that returns a seal returns the ledger's only seal of its payload, and a call gives up
   with a conflict only after five other appends.
   */
  lemma SealingIsLinear(s: System, es: seq<Event>)
    requires Linear(s.ledger) && s.ledger != [] && Runnable(s, es)
    requires forall c :: 0 <= c < |s.callers| ==> s.callers[c] == Idle
    ensures var t := Run(s, es);
            && s.ledger <= t.ledger && Linear(t.ledger)
            && (forall c :: 0 <= c < |t.callers| && t.callers[c].Returned? ==>
                  t.callers[c].seal in t.ledger && t.callers[c].seal.hash == Sha256(t.callers[c].payload))
            && (forall b, c :: 0 <= b < |t.callers| && 0 <= c < |t.callers|
                               && t.callers[b].Returned? && t.callers[c].Returned?
                               && t.callers[b].payload == t.callers[c].payload ==>
                  t.callers[b].seal == t.callers[c].seal)
            && (forall c :: 0 <= c < |t.callers| && t.callers[c].Conflicted? ==>
                  t.callers[c].start + MAX_TRIES <= |t.ledger|)
  {
    NeverForksAfterGenesis(s, es);
    LinkedExactlyWithoutFork(s, es);
    OnlyAppends(s, es);
    var t := Run(s, es);
    forall c | 0 <= c < |t.callers| ensures CallerOk(t.ledger, t.callers[c]) {}
  }

  lemma OneEvent(s: System, e: Event, rest: seq<Event>)
    requires Enabled(s, e) && Runnable(Apply(s, e), rest)
    ensures Runnable(s, [e] + rest) && Run(s, [e] + rest) == Run(Apply(s, e), rest)
  {
    assert ([e] + rest)[1..] == rest;
  }

  /** On an empty ledger two calls can both become roots. */
  lemma TwoRootsOnAnEmptyLedger() returns (es: seq<Event>)
    ensures var s := System([], [Idle, Idle]);
            Runnable(s, es) && !Linked(Run(s, es).ledger)
  {
    var s0 := System([], [Idle, Idle]);
    var s1 := Apply(s0, Call(0, "a"));
    var s2 := Apply(s1, Call(1, "b"));
    var s3 := Apply(s2, Check(0));
    var s4 := Apply(s3, Check(1));
    var s5 := Apply(s4, Read(0));
    var s6 := Apply(s5, Read(1));
    assert s6 == System([], [Inserting("a", 0, 0, 0, None), Inserting("b", 0, 0, 0, None)]);
    var s7 := Apply(s6, Insert(0, 0));
    var s8 := Apply(s7, Insert(1, 0));
    assert s8.ledger == [Seal(Sha256("a"), None, 0), Seal(Sha256("b"), None, 0)];
    assert s8.ledger[1].previous != Some(s8.ledger[0].hash);
    es := [];
    OneEvent(s7, Insert(1, 0), es); es := [Insert(1, 0)] + es;
    OneEvent(s6, Insert(0, 0), es); es := [Insert(0, 0)] + es;
    OneEvent(s5, Read(1), es); es := [Read(1)] + es;
    OneEvent(s4, Read(0), es); es := [Read(0)] + es;
    OneEvent(s3, Check(1), es); es := [Check(1)] + es;
    OneEvent(s2, Check(0), es); es := [Check(0)] + es;
    OneEvent(s1, Call(1, "b"), es); es := [Call(1, "b")] + es;
    OneEvent(s0, Call(0, "a"), es); es := [Call(0, "a")] + es;
  }

  // --- chain verification ----------------------------------------------------------------------

  datatype Break = Break(record: nat, expected: Hash, actual: Option<Hash>)

  predicate BreakAt(l: seq<Seal>, k: int) {
    1 <= k < |l| && l[k].previous != Some(l[k - 1].hash)
  }

  /** The broken links among the first n records, in order. */
  function Breaks(l: seq<Seal>, n: nat): seq<Break>
    requires n <= |l|
  {
    if n == 0 then []
    else if BreakAt(l, n - 1) then Breaks(l, n - 1) + [Break(n - 1, l[n - 2].hash, l[n - 1].previous)]
    else Breaks(l, n - 1)
  }

  /** Exactly the broken links are reported. */
  lemma {:induction false} BreaksExact(l: seq<Seal>, n: nat, b: Break)
    requires n <= |l|
    ensures b in Breaks(l, n) <==>
              && b.record < n && BreakAt(l, b.record)
              && b.expected == l[b.record - 1].hash && b.actual == l[b.record].previous
  {
    if n > 0 {
      BreaksExact(l, n - 1, b);
    }
  }

  lemma {:induction false} BreaksAscend(l: seq<Seal>, n: nat)
    requires n <= |l|
    ensures forall i, j :: 0 <= i < j < |Breaks(l, n)| ==> Breaks(l, n)[i].record < Breaks(l, n)[j].record
  {
    if n > 0 {
      BreaksAscend(l, n - 1);
      var less := Breaks(l, n - 1);
      forall i | 0 <= i < |less| ensures less[i].record < n - 1 {
        BreaksExact(l, n - 1, less[i]);
      }
    }
  }

  lemma NoBreaksMeansLinked(l: seq<Seal>)
    ensures Breaks(l, |l|) == [] <==> Linked(l)
  {
    var all := Breaks(l, |l|);
    if all == [] {
      forall k | 1 <= k < |l| ensures l[k].previous == Some(l[k - 1].hash) {
        BreaksExact(l, |l|, Break(k, l[k - 1].hash, l[k].previous));
      }
    } else {
      BreaksExact(l, |l|, all[0]);
    }
  }

  lemma {:induction false} BreaksOfPrefix(l: seq<Seal>, m: nat, n: nat)
    requires n <= m <= |l|
    ensures Breaks(l[..m], n) == Breaks(l, n)
  {
    if n > 0 {
      BreaksOfPrefix(l, m, n - 1);
    }
  }

  /** `verify_chain`: every broken link, in order, among the first 100,000 records. */
  method VerifyChain(ledger: seq<Seal>) returns (verified: bool, truncated: bool, breaks: seq<Break>)
    ensures truncated <==> |ledger| > VERIFY_CAP
    ensures verified <==> |ledger| <= VERIFY_CAP && Linked(ledger)
    ensures breaks == Breaks(ledger, if |ledger| > VERIFY_CAP then VERIFY_CAP else |ledger|)
  {
    truncated := |ledger| > VERIFY_CAP;
    var docs := if truncated then ledger[..VERIFY_CAP] else ledger;
    breaks := [];
    var previous: Option<Hash> := None;
    var i := 0;
    while i < |docs|
      invariant i <= |docs|
      invariant previous == if i == 0 then None else Some(docs[i - 1].hash)
      invariant breaks == Breaks(docs, i)
    {
      if previous.Some? && docs[i].previous != previous {
        breaks := breaks + [Break(i, previous.value, docs[i].previous)];
      }
      previous := Some(docs[i].hash);
      i := i + 1;
    }
    verified := breaks == [] && !truncated;
    if truncated { BreaksOfPrefix(ledger, VERIFY_CAP, VERIFY_CAP); }
    NoBreaksMeansLinked(docs);
  }

  // --- the call as it is written, with interference at every await --------------------------------

  lemma FoundIsTheOnlyOne(l: seq<Seal>, payload: string)
    requires Linear(l)
    ensures forall s :: s in l && s.hash == Sha256(payload) ==> Find(l, Sha256(payload)) == Some(s)
  {
  }

  class EvidenceStore {
    var records: seq<Seal>

    constructor (genesis: Seal)
      requires genesis.previous == None
      ensures records == [genesis] && Linear(records)
    {
      records := [genesis];
    }

    /** Other callers append while this one awaits; SealingIsLinear says how. */
    method Await()
      requires Linear(records) && records != []
      modifies this
      ensures Linear(records) && old(records) <= records
    {
      assert records + [] == records;
      var more: seq<Seal> :| Linear(records + more);
      records := records + more;
    }

    /** `insert_one`; false is a DuplicateKeyError. */
    method InsertOne(seal: Seal) returns (inserted: bool)
      modifies this
      ensures inserted <==> Insertable(old(records), seal)
      ensures records == if inserted then old(records) + [seal] else old(records)
    {
      inserted := Insertable(records, seal);
      if inserted {
        records := records + [seal];
      }
    }

    /** `generate_seal`; None is the 409 answer. */
    method GenerateSeal(payload: string, now: int) returns (result: Option<Seal>)
      requires Linear(records) && records != []
      modifies this
      ensures Linear(records) && old(records) <= records
      ensures result.Some? ==> result.value in records && result.value.hash == Sha256(payload)
      ensures result.None? ==> |old(records)| + MAX_TRIES <= |records|
      ensures forall s :: s in old(records) && s.hash == Sha256(payload) ==> result == Some(s)
    {
      hide Linear, CallerOk, Insertable;
      ghost var start := records;
      FoundIsTheOnlyOne(start, payload);
      var tries := 0;
      while tries < MAX_TRIES
        invariant tries <= MAX_TRIES
        invariant Linear(records) && records != [] && start <= records
        invariant |start| + tries <= |records|
        invariant tries > 0 ==> Find(start, Sha256(payload)).None?
      {
        Await();
        var existing := Find(records, Sha256(payload));
        FoundIsTheOnlyOne(records, payload);
        if existing.Some? {
          return existing;
        }
        ghost var seen := records;
        Await();
        var previous := LastHash(records);
        ghost var read := records;
        Await();
        assert records[..|seen|] == seen && records[..|read|] == read;
        var seal := Seal(Sha256(payload), previous, now);
        ghost var caller := Inserting(payload, tries, |start|, |seen|, previous);
        LookedUpThenRead(records, payload, tries, |start|, |seen|, |read|);
        var inserted := InsertOne(seal);
        if inserted {
          InsertsOnlyAtTheEnd(records[..|records| - 1], caller, now);
          return Some(seal);
        }
        RefusedOnlyAfterGrowth(records, caller, now);
        tries := tries + 1;
      }
      return None;
    }
  }
}
