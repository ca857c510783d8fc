/**
 The leased work queue kept in the `processing` sub-document of every raw record
 (src/darkpulse/broker/processor.py). The collection is a sequence of rows in `_id` order,
 so that "the first match by `_id`" is "the least matching index".

 The first half says what each single database statement does to one row. The second half
 runs those statements as one live processor does, with crashes, restarts, shutdowns and
 dead-letter retries allowed between any two of them.
 */
module Queue {
  import opened Common

  const DEPENDENCY_WAIT_LIMIT := 100
  const DEPENDENCY_RETRY_SECONDS := 15

  /** `Absent` is a record that has no `processing` sub-document yet. */
  datatype Status = Absent | Pending | Processing | Failed | Waiting | Exhausted | Completed | Dropped

  datatype Phase = NoPhase | IntelSaved | PhaseCompleted

  /** `derive_intel_id`, as a free constructor: distinct ingests get distinct intel ids. */
  datatype IntelId = DerivedFrom(ingest: nat)

  datatype Row = Row(
    status: Status, attempts: int, lease: Option<int>, waits: nat, phase: Phase, intelId: Option<IntelId>)

  datatype Settings = Settings(maxAttempts: nat, leaseSeconds: nat)

  /** The configuration model refuses fewer than one attempt. */
  predicate Sane(cfg: Settings) {
    cfg.maxAttempts >= 1
  }

  const PUBLISHED := Row(Pending, 0, None, 0, NoPhase, None)
  const LEGACY := Row(Absent, 0, None, 0, NoPhase, None)

  // --- single statements on one row -------------------------------------------------------

  /** A null lease never compares below a date. */
  predicate LeaseOver(r: Row, now: int) {
    r.lease.Some? && r.lease.value <= now
  }

  predicate Claimable(cfg: Settings, r: Row, now: int) {
    match r.status
    case Absent => true
    case Pending => true
    case Failed => r.attempts < cfg.maxAttempts
    case Processing => LeaseOver(r, now) && r.attempts < cfg.maxAttempts
    case Waiting => LeaseOver(r, now)
    case _ => false
  }

  predicate Stale(cfg: Settings, r: Row, now: int) {
    r.status == Processing && LeaseOver(r, now) && r.attempts >= cfg.maxAttempts
  }

  predicate Final(r: Row) {
    r.status in {Exhausted, Completed, Dropped}
  }

  function Claimed(cfg: Settings, r: Row, now: int): Row {
    r.(status := Processing, attempts := r.attempts + 1, lease := Some(now + cfg.leaseSeconds))
  }

  function StaleSwept(cfg: Settings, r: Row, now: int): Row {
    if Stale(cfg, r, now) then r.(status := Exhausted, lease := None) else r
  }

  function Released(r: Row): Row {
    if r.status == Processing then r.(status := Pending, attempts := r.attempts - 1, lease := None) else r
  }

  function Oversized(r: Row): Row {
    r.(status := Failed, lease := None)
  }

  function FailureRecorded(cfg: Settings, r: Row, attemptsAtClaim: int): Row {
    r.(status := if attemptsAtClaim >= cfg.maxAttempts then Exhausted else Failed, lease := None)
  }

  /** `seen` is the wait count that was read just before this write. */
  function WaitRecorded(r: Row, seen: nat, intel: IntelId, now: int): Row {
    var terminal := seen + 1 >= DEPENDENCY_WAIT_LIMIT;
    r.(status := if terminal then Exhausted else Waiting,
       attempts := r.attempts - 1,
       lease := if terminal then None else Some(now + DEPENDENCY_RETRY_SECONDS),
       waits := r.waits + 1,
       phase := IntelSaved,
       intelId := Some(intel))
  }

  function Finished(r: Row, dropped: bool): Row {
    r.(status := if dropped then Dropped else Completed, lease := None, phase := PhaseCompleted)
  }

  function Retried(r: Row): Row {
    if r.status == Exhausted then r.(status := Pending, attempts := 0) else r
  }

  /** `find_one_and_update(..., sort=[("_id", 1)])`: the least claimable index. */
  function FirstClaimable(cfg: Settings, rows: seq<Row>, now: int, from: nat := 0): (r: Option<nat>)
    requires from <= |rows|
    ensures r.Some? ==>
      from <= r.value < |rows| && Claimable(cfg, rows[r.value], now)
      && forall k :: from <= k < r.value ==> !Claimable(cfg, rows[k], now)
    ensures r.None? ==> forall k :: from <= k < |rows| ==> !Claimable(cfg, rows[k], now)
    decreases |rows| - from
  {
    if from == |rows| then None
    else if Claimable(cfg, rows[from], now) then Some(from)
    else FirstClaimable(cfg, rows, now, from + 1)
  }

  function SweptRows(cfg: Settings, rows: seq<Row>, now: int): (r: seq<Row>)
    ensures |r| == |rows|
  {
    seq(|rows|, i requires 0 <= i < |rows| => StaleSwept(cfg, rows[i], now))
  }

  function ReleasedRows(rows: seq<Row>): (r: seq<Row>)
    ensures |r| == |rows|
  {
    seq(|rows|, i requires 0 <= i < |rows| => Released(rows[i]))
  }

  // --- one live processor ------------------------------------------------------------------

  /** The record in hand; `marked` after the first of the two writes for oversized content. */
  datatype Hand = Hand(row: nat, attempts: int, marked: bool)

  datatype State = State(rows: seq<Row>, hand: Option<Hand>, now: int)

  /**
   Every await point may be followed by `Crash`, which abandons the record in hand (the process
   dies, or it lives on but the write of its exception handler fails), or by `Stop` (shutdown).
   */
  datatype Event =
    | Tick(seconds: nat)
    | Insert(legacy: bool)
    | ExhaustStale
    | Claim
    | Oversize
    | Fail
    | Wait
    | Finish(dropped: bool)
    | Crash
    | Stop
    | Retry(row: nat)

  predicate Enabled(cfg: Settings, s: State, e: Event) {
    match e
    case Tick(_) => true
    case Insert(_) => true
    case ExhaustStale => s.hand.None?
    case Claim => s.hand.None? && FirstClaimable(cfg, s.rows, s.now).Some?
    case Oversize => s.hand.Some? && s.hand.value.row < |s.rows| && !s.hand.value.marked
    case Fail => s.hand.Some? && s.hand.value.row < |s.rows|
    case Wait => s.hand.Some? && s.hand.value.row < |s.rows| && !s.hand.value.marked
    case Finish(_) => s.hand.Some? && s.hand.value.row < |s.rows| && !s.hand.value.marked
    case Crash => true
    case Stop => true
    case Retry(i) => i < |s.rows| && s.rows[i].status == Exhausted
  }

  function Apply(cfg: Settings, s: State, e: Event): State
    requires Enabled(cfg, s, e)
  {
    match e
    case Tick(dt) => s.(now := s.now + dt)
    case Insert(legacy) => s.(rows := s.rows + [if legacy then LEGACY else PUBLISHED])
    case ExhaustStale => s.(rows := SweptRows(cfg, s.rows, s.now))
    case Claim =>
      var i := FirstClaimable(cfg, s.rows, s.now).value;
      var r := Claimed(cfg, s.rows[i], s.now);
      s.(rows := s.rows[i := r], hand := Some(Hand(i, r.attempts, false)))
    case Oversize =>
      var h := s.hand.value;
      s.(rows := s.rows[h.row := Oversized(s.rows[h.row])], hand := Some(h.(marked := true)))
    case Fail =>
      var h := s.hand.value;
      s.(rows := s.rows[h.row := FailureRecorded(cfg, s.rows[h.row], h.attempts)], hand := None)
    case Wait =>
      var h := s.hand.value;
      var r := s.rows[h.row];
      s.(rows := s.rows[h.row := WaitRecorded(r, r.waits, DerivedFrom(h.row), s.now)], hand := None)
    case Finish(dropped) =>
      var h := s.hand.value;
      s.(rows := s.rows[h.row := Finished(s.rows[h.row], dropped)], hand := None)
    case Crash => s.(hand := None)
    case Stop => s.(rows := ReleasedRows(s.rows), hand := None)
    case Retry(i) => s.(rows := s.rows[i := Retried(s.rows[i])])
  }

  /** A finite run: every event is enabled where it happens. */
  predicate Runnable(cfg: Settings, s: State, es: seq<Event>)
    decreases |es|
  {
    es == [] || (Enabled(cfg, s, es[0]) && Runnable(cfg, Apply(cfg, s, es[0]), es[1..]))
  }

  function Run(cfg: Settings, s: State, es: seq<Event>): State
    requires Runnable(cfg, s, es)
    decreases |es|
  {
    if es == [] then s else Run(cfg, Apply(cfg, s, es[0]), es[1..])
  }

  const EMPTY := State([], None, 0)

  predicate RowOk(cfg: Settings, r: Row) {
    && 0 <= r.attempts <= cfg.maxAttempts
    && (r.status in {Absent, Pending, Waiting} ==> r.attempts < cfg.maxAttempts)
    && (r.status == Processing ==> r.attempts >= 1 && r.lease.Some?)
    && (r.status == Waiting ==> r.lease.Some?)
  }

  /** What every reachable state of a single live processor satisfies. */
  predicate Ok(cfg: Settings, s: State) {
    && (forall i :: 0 <= i < |s.rows| ==> RowOk(cfg, s.rows[i]))
    && (s.hand.Some? ==>
          var h := s.hand.value;
          && h.row < |s.rows|
          && s.rows[h.row].status == (if h.marked then Failed else Processing)
          && s.rows[h.row].attempts == h.attempts
          && h.attempts >= 1)
  }

  lemma StepKeepsOk(cfg: Settings, s: State, e: Event)
    requires Sane(cfg) && Ok(cfg, s) && Enabled(cfg, s, e)
    ensures Ok(cfg, Apply(cfg, s, e))
  {
  }

  lemma {:induction false} RunKeepsOk(cfg: Settings, s: State, es: seq<Event>)
    requires Sane(cfg) && Ok(cfg, s) && Runnable(cfg, s, es)
    ensures Ok(cfg, Run(cfg, s, es))
    decreases |es|
  {
    if es != [] {
      StepKeepsOk(cfg, s, es[0]);
      RunKeepsOk(cfg, Apply(cfg, s, es[0]), es[1..]);
    }
  }

  // --- conservation of claims --------------------------------------------------------------

  /** What happened to one row over a run. `forgiven` are the attempts that retries reset to zero. */
  datatype Tally = Tally(claims: nat, releases: nat, retries: nat, forgiven: int)

  function Counted(cfg: Settings, s: State, e: Event, i: nat): Tally
    requires Enabled(cfg, s, e)
  {
    match e
    case Claim => Tally(if FirstClaimable(cfg, s.rows, s.now) == Some(i) then 1 else 0, 0, 0, 0)
    case Stop => Tally(0, if i < |s.rows| && s.rows[i].status == Processing then 1 else 0, 0, 0)
    case Retry(k) => if k == i then Tally(0, 0, 1, s.rows[i].attempts) else Tally(0, 0, 0, 0)
    case _ => Tally(0, 0, 0, 0)
  }

  function Tallied(cfg: Settings, s: State, es: seq<Event>, i: nat): Tally
    requires Runnable(cfg, s, es)
    decreases |es|
  {
    if es == [] then Tally(0, 0, 0, 0)
    else
      var a := Counted(cfg, s, es[0], i);
      var b := Tallied(cfg, Apply(cfg, s, es[0]), es[1..], i);
      Tally(a.claims + b.claims, a.releases + b.releases, a.retries + b.retries, a.forgiven + b.forgiven)
  }

  /** attempts + dependency_waits of a row; zero before the row exists. */
  function Spent(s: State, i: nat): int {
    if i < |s.rows| then s.rows[i].attempts + s.rows[i].waits else 0
  }

  lemma StepConserves(cfg: Settings, s: State, e: Event, i: nat)
    requires Ok(cfg, s) && Enabled(cfg, s, e)
    ensures var c := Counted(cfg, s, e, i);
            c.claims == Spent(Apply(cfg, s, e), i) - Spent(s, i) + c.releases + c.forgiven
  {
  }

  /** claims = attempts + dependency_waits + releases, and what retries forgave, over any run. */
  lemma {:induction false} ClaimsConserved(cfg: Settings, s: State, es: seq<Event>, i: nat)
    requires Sane(cfg) && Ok(cfg, s) && Runnable(cfg, s, es)
    ensures var t := Tallied(cfg, s, es, i);
            t.claims == Spent(Run(cfg, s, es), i) - Spent(s, i) + t.releases + t.forgiven
    decreases |es|
  {
    if es != [] {
      StepConserves(cfg, s, es[0], i);
      StepKeepsOk(cfg, s, es[0]);
      ClaimsConserved(cfg, Apply(cfg, s, es[0]), es[1..], i);
    }
  }

  /** A row that is still in play has waited at most 99 times, plus once for every retry. */
  predicate WaitsWithin(s: State, i: nat, retries: nat) {
    i < |s.rows| ==>
      s.rows[i].waits <= (if Final(s.rows[i]) then DEPENDENCY_WAIT_LIMIT else DEPENDENCY_WAIT_LIMIT - 1) + retries
  }

  lemma StepWaits(cfg: Settings, s: State, e: Event, i: nat, before: nat)
    requires Sane(cfg) && Ok(cfg, s) && Enabled(cfg, s, e) && WaitsWithin(s, i, before)
    ensures WaitsWithin(Apply(cfg, s, e), i, before + Counted(cfg, s, e, i).retries)
    ensures Counted(cfg, s, e, i).forgiven <= Counted(cfg, s, e, i).retries * cfg.maxAttempts
  {
  }

  lemma {:induction false} WaitsBounded(cfg: Settings, s: State, es: seq<Event>, i: nat, before: nat)
    requires Sane(cfg) && Ok(cfg, s) && Runnable(cfg, s, es) && WaitsWithin(s, i, before)
    ensures WaitsWithin(Run(cfg, s, es), i, before + Tallied(cfg, s, es, i).retries)
    ensures Tallied(cfg, s, es, i).forgiven <= Tallied(cfg, s, es, i).retries * cfg.maxAttempts
    decreases |es|
  {
    if es != [] {
      var next := Apply(cfg, s, es[0]);
      var a := Counted(cfg, s, es[0], i).retries;
      StepKeepsOk(cfg, s, es[0]);
      StepWaits(cfg, s, es[0], i, before);
      hide Ok, WaitsWithin, Counted, Apply, Enabled;
      WaitsBounded(cfg, next, es[1..], i, before + a);
      var b := Tallied(cfg, next, es[1..], i).retries;
      assert (a + b) * cfg.maxAttempts == a * cfg.maxAttempts + b * cfg.maxAttempts;
    }
  }

  /**
   The accounting of a record from the empty collection on. Without retries it reads
   claims = attempts + waits + releases <= max_attempts + 100 + releases; every dead-letter
   retry buys at most max_attempts + 1 further claims.
   */
  lemma AccountingOfARecord(cfg: Settings, es: seq<Event>, i: nat)
    requires Sane(cfg) && Runnable(cfg, EMPTY, es) && i < |Run(cfg, EMPTY, es).rows|
    ensures var r := Run(cfg, EMPTY, es).rows[i];
            var t := Tallied(cfg, EMPTY, es, i);
            && 0 <= r.attempts <= cfg.maxAttempts
            && r.waits <= DEPENDENCY_WAIT_LIMIT + t.retries
            && t.claims == r.attempts + r.waits + t.releases + t.forgiven
            && (t.retries == 0 ==> t.claims == r.attempts + r.waits + t.releases)
            && t.claims <= cfg.maxAttempts + DEPENDENCY_WAIT_LIMIT + t.releases
                           + t.retries * (cfg.maxAttempts + 1)
  {
    hide Run, Runnable, Tallied;
    RunKeepsOk(cfg, EMPTY, es);
    ClaimsConserved(cfg, EMPTY, es, i);
    WaitsBounded(cfg, EMPTY, es, i, 0);
    ForgivenOnlyByRetries(cfg, EMPTY, es, i);
    var t := Tallied(cfg, EMPTY, es, i);
    assert t.retries * (cfg.maxAttempts + 1) == t.retries * cfg.maxAttempts + t.retries;
  }

  lemma {:induction false} ForgivenOnlyByRetries(cfg: Settings, s: State, es: seq<Event>, i: nat)
    requires Runnable(cfg, s, es)
    ensures Tallied(cfg, s, es, i).retries == 0 ==> Tallied(cfg, s, es, i).forgiven == 0
    decreases |es|
  {
    if es != [] {
      ForgivenOnlyByRetries(cfg, Apply(cfg, s, es[0]), es[1..], i);
    }
  }

  // --- which records can be stranded -------------------------------------------------------

  /** Neither claimable nor exhaustible, now or later, and yet not final. */
  predicate Stranded(cfg: Settings, r: Row) {
    r.status == Failed && r.attempts >= cfg.maxAttempts
  }

  /** Once its lease time has passed, a live record is served exactly when it is not stranded. */
  lemma ServedUnlessStranded(cfg: Settings, r: Row, now: int)
    requires RowOk(cfg, r) && !Final(r) && (r.lease.Some? ==> r.lease.value <= now)
    ensures (Claimable(cfg, r, now) || Stale(cfg, r, now)) <==> !Stranded(cfg, r)
  {
  }

  /** The record is abandoned or the processor shut down between the two writes for oversized content, on the last attempt. */
  predicate Torn(cfg: Settings, s: State, e: Event) {
    && (e.Crash? || e.Stop?)
    && s.hand.Some? && s.hand.value.marked && s.hand.value.attempts >= cfg.maxAttempts
  }

  predicate InHand(s: State, i: nat) {
    s.hand.Some? && s.hand.value.row == i
  }

  predicate NoneStranded(cfg: Settings, s: State) {
    forall i :: 0 <= i < |s.rows| && !InHand(s, i) ==> !Stranded(cfg, s.rows[i])
  }

  /** Exactly one event can strand a record. */
  lemma StrandsExactlyWhenTorn(cfg: Settings, s: State, e: Event)
    requires Sane(cfg) && Ok(cfg, s) && Enabled(cfg, s, e) && NoneStranded(cfg, s)
    ensures NoneStranded(cfg, Apply(cfg, s, e)) <==> !Torn(cfg, s, e)
  {
    if Torn(cfg, s, e) {
      var i := s.hand.value.row;
      assert Stranded(cfg, Apply(cfg, s, e).rows[i]) && !InHand(Apply(cfg, s, e), i);
    }
  }

  predicate TornSomewhere(cfg: Settings, s: State, es: seq<Event>)
    requires Runnable(cfg, s, es)
    decreases |es|
  {
    es != [] && (Torn(cfg, s, es[0]) || TornSomewhere(cfg, Apply(cfg, s, es[0]), es[1..]))
  }

  lemma {:induction false} StrandedStays(cfg: Settings, s: State, es: seq<Event>, i: nat)
    requires Sane(cfg) && Ok(cfg, s) && Runnable(cfg, s, es)
    requires i < |s.rows| && !InHand(s, i) && Stranded(cfg, s.rows[i])
    ensures var end := Run(cfg, s, es);
            i < |end.rows| && !InHand(end, i) && Stranded(cfg, end.rows[i])
    decreases |es|
  {
    if es != [] {
      StepKeepsOk(cfg, s, es[0]);
      StrandedStays(cfg, Apply(cfg, s, es[0]), es[1..], i);
    }
  }

  /** Over whole runs: some record ends up stranded exactly when the run was torn somewhere. */
  lemma {:induction false} StrandedExactlyAfterTorn(cfg: Settings, s: State, es: seq<Event>)
    requires Sane(cfg) && Ok(cfg, s) && Runnable(cfg, s, es) && NoneStranded(cfg, s)
    ensures NoneStranded(cfg, Run(cfg, s, es)) <==> !TornSomewhere(cfg, s, es)
    decreases |es|
  {
    if es != [] {
      var next := Apply(cfg, s, es[0]);
      StrandsExactlyWhenTorn(cfg, s, es[0]);
      StepKeepsOk(cfg, s, es[0]);
      if Torn(cfg, s, es[0]) {
        var i :| 0 <= i < |next.rows| && !InHand(next, i) && Stranded(cfg, next.rows[i]);
        StrandedStays(cfg, next, es[1..], i);
      } else {
        StrandedExactlyAfterTorn(cfg, next, es[1..]);
      }
    }
  }

  /** The shortest such run: one attempt allowed, one oversized record, one crash. */
  lemma StrandedByACrash()
    ensures var cfg := Settings(1, 900);
            var es := [Insert(false), Claim, Oversize, Crash];
            Runnable(cfg, EMPTY, es) && Stranded(cfg, Run(cfg, EMPTY, es).rows[0])
  {
    var cfg := Settings(1, 900);
    var s1 := Apply(cfg, EMPTY, Insert(false));
    assert FirstClaimable(cfg, s1.rows, s1.now) == Some(0);
    var s2 := Apply(cfg, s1, Claim);
    var s3 := Apply(cfg, s2, Oversize);
    var s4 := Apply(cfg, s3, Crash);
    assert Runnable(cfg, s4, []);
    assert [Crash][1..] == [];
    assert Runnable(cfg, s3, [Crash]);
    assert [Oversize, Crash][1..] == [Crash];
    assert Runnable(cfg, s2, [Oversize, Crash]);
    assert [Claim, Oversize, Crash][1..] == [Oversize, Crash];
    assert Runnable(cfg, s1, [Claim, Oversize, Crash]);
    assert [Insert(false), Claim, Oversize, Crash][1..] == [Claim, Oversize, Crash];
  }

  // --- termination -------------------------------------------------------------------------

  function Rank(r: Row): nat {
    if r.status == Processing then 2 else 0
  }

  function WaitsLeft(r: Row): nat {
    if r.waits < DEPENDENCY_WAIT_LIMIT then DEPENDENCY_WAIT_LIMIT - r.waits else 0
  }

  /** (100 - waits, max_attempts - attempts, status rank), weighed into one number; zero when final. */
  function Budget(cfg: Settings, r: Row): nat
    requires RowOk(cfg, r)
  {
    if Final(r) then 0 else 1 + 3 * WaitsLeft(r) + 3 * (cfg.maxAttempts - r.attempts) + Rank(r)
  }

  function RowsBudget(cfg: Settings, rows: seq<Row>): nat
    requires forall i :: 0 <= i < |rows| ==> RowOk(cfg, rows[i])
  {
    if rows == [] then 0 else Budget(cfg, rows[0]) + RowsBudget(cfg, rows[1..])
  }

  function Remaining(cfg: Settings, s: State): nat
    requires Ok(cfg, s)
  {
    RowsBudget(cfg, s.rows) + (if s.hand.Some? && s.hand.value.marked then 1 else 0)
  }

  lemma {:induction false} BudgetOfUpdate(cfg: Settings, rows: seq<Row>, i: nat, r: Row, updated: seq<Row>)
    requires forall k :: 0 <= k < |rows| ==> RowOk(cfg, rows[k])
    requires i < |rows| && RowOk(cfg, r) && updated == rows[i := r]
    ensures forall k :: 0 <= k < |updated| ==> RowOk(cfg, updated[k])
    ensures RowsBudget(cfg, updated) == RowsBudget(cfg, rows) - Budget(cfg, rows[i]) + Budget(cfg, r)
  {
    if i == 0 {
      assert updated[1..] == rows[1..];
    } else {
      assert updated[1..] == rows[1..][i - 1 := r];
      BudgetOfUpdate(cfg, rows[1..], i - 1, r, updated[1..]);
    }
  }

  lemma {:induction false} BudgetOfSweep(cfg: Settings, rows: seq<Row>, swept: seq<Row>)
    requires |rows| == |swept|
    requires forall k :: 0 <= k < |rows| ==> RowOk(cfg, rows[k]) && RowOk(cfg, swept[k])
    requires forall k :: 0 <= k < |rows| ==> Budget(cfg, swept[k]) <= Budget(cfg, rows[k])
    ensures RowsBudget(cfg, swept) <= RowsBudget(cfg, rows)
    ensures forall k :: 0 <= k < |rows| && Budget(cfg, swept[k]) < Budget(cfg, rows[k]) ==>
              RowsBudget(cfg, swept) < RowsBudget(cfg, rows)
  {
    if rows != [] {
      BudgetOfSweep(cfg, rows[1..], swept[1..]);
      forall k | 0 <= k < |rows| && Budget(cfg, swept[k]) < Budget(cfg, rows[k])
        ensures RowsBudget(cfg, swept) < RowsBudget(cfg, rows)
      {
        if k > 0 {
          assert Budget(cfg, swept[1..][k - 1]) < Budget(cfg, rows[1..][k - 1]);
        }
      }
    }
  }

  /** Events that put work back: arrivals, shutdown releases and dead-letter retries. */
  predicate Refills(e: Event) {
    e.Insert? || e.Stop? || e.Retry?
  }

  /** Events that change a row's place in the queue. */
  predicate Works(cfg: Settings, s: State, e: Event) {
    match e
    case Claim | Oversize | Fail | Wait | Finish(_) => true
    case ExhaustStale => exists i :: 0 <= i < |s.rows| && Stale(cfg, s.rows[i], s.now)
    case _ => false
  }

  lemma HandWorkSpendsBudget(cfg: Settings, s: State, e: Event)
    requires Sane(cfg) && Ok(cfg, s) && Enabled(cfg, s, e)
    requires e.Oversize? || e.Fail? || e.Wait? || e.Finish?
    requires Ok(cfg, Apply(cfg, s, e))
    ensures Remaining(cfg, Apply(cfg, s, e)) + 1 <= Remaining(cfg, s)
  {
    var i := s.hand.value.row;
    var next := Apply(cfg, s, e);
    var r := next.rows[i];
    assert RowOk(cfg, r);
    BudgetOfUpdate(cfg, s.rows, i, r, next.rows);
  }

  lemma ClaimSpendsBudget(cfg: Settings, s: State)
    requires Sane(cfg) && Ok(cfg, s) && Enabled(cfg, s, Claim)
    requires Ok(cfg, Apply(cfg, s, Claim))
    ensures Remaining(cfg, Apply(cfg, s, Claim)) + 1 <= Remaining(cfg, s)
  {
    var i := FirstClaimable(cfg, s.rows, s.now).value;
    var next := Apply(cfg, s, Claim);
    var r := next.rows[i];
    assert RowOk(cfg, r);
    BudgetOfUpdate(cfg, s.rows, i, r, next.rows);
  }

  lemma WorkSpendsBudget(cfg: Settings, s: State, e: Event)
    requires Sane(cfg) && Ok(cfg, s) && Enabled(cfg, s, e) && !Refills(e)
    ensures Ok(cfg, Apply(cfg, s, e))
    ensures Remaining(cfg, Apply(cfg, s, e)) + (if Works(cfg, s, e) then 1 else 0) <= Remaining(cfg, s)
  {
    StepKeepsOk(cfg, s, e);
    match e {
      case Claim => ClaimSpendsBudget(cfg, s);
      case Oversize | Fail | Wait | Finish(_) => HandWorkSpendsBudget(cfg, s, e);
      case ExhaustStale =>
        var next := Apply(cfg, s, e);
        BudgetOfSweep(cfg, s.rows, next.rows);
        if Works(cfg, s, e) {
          var i :| 0 <= i < |s.rows| && Stale(cfg, s.rows[i], s.now);
          assert Budget(cfg, next.rows[i]) < Budget(cfg, s.rows[i]);
        }
      case _ =>
    }
  }

  function WorkDone(cfg: Settings, s: State, es: seq<Event>): nat
    requires Runnable(cfg, s, es)
    decreases |es|
  {
    if es == [] then 0
    else (if Works(cfg, s, es[0]) then 1 else 0) + WorkDone(cfg, Apply(cfg, s, es[0]), es[1..])
  }

  predicate NoRefills(es: seq<Event>) {
    forall e :: e in es ==> !Refills(e)
  }

  /** Without refills only boundedly much work can happen, over all records together. */
  lemma {:induction false} WorkBounded(cfg: Settings, s: State, es: seq<Event>)
    requires Sane(cfg) && Ok(cfg, s) && Runnable(cfg, s, es)
    requires NoRefills(es)
    ensures Ok(cfg, Run(cfg, s, es))
    ensures WorkDone(cfg, s, es) + Remaining(cfg, Run(cfg, s, es)) <= Remaining(cfg, s)
    decreases |es|
  {
    if es != [] {
      WorkSpendsBudget(cfg, s, es[0]);
      WorkBounded(cfg, Apply(cfg, s, es[0]), es[1..]);
    }
  }

  predicate LeasesOver(s: State) {
    forall i :: 0 <= i < |s.rows| && s.rows[i].lease.Some? ==> s.rows[i].lease.value <= s.now
  }

  predicate AllFinal(s: State) {
    forall i :: 0 <= i < |s.rows| ==> Final(s.rows[i])
  }

  /** With free hands and lease times passed, either everything is final or a working event is enabled. */
  lemma WorkEnabledUntilFinal(cfg: Settings, s: State)
    requires Sane(cfg) && Ok(cfg, s) && NoneStranded(cfg, s) && s.hand.None? && LeasesOver(s)
    ensures !AllFinal(s) ==>
              || (Enabled(cfg, s, Claim) && Works(cfg, s, Claim))
              || (Enabled(cfg, s, ExhaustStale) && Works(cfg, s, ExhaustStale))
    ensures AllFinal(s) ==> !Enabled(cfg, s, Claim) && !Works(cfg, s, ExhaustStale)
  {
    if !AllFinal(s) {
      var i :| 0 <= i < |s.rows| && !Final(s.rows[i]);
      assert !InHand(s, i);
      ServedUnlessStranded(cfg, s.rows[i], s.now);
    }
  }

  /** Nobody is at work, all lease times have passed, and neither a claim nor a sweep finds anything to do. */
  predicate AtRest(cfg: Settings, s: State) {
    s.hand.None? && LeasesOver(s) && !Enabled(cfg, s, Claim) && !Works(cfg, s, ExhaustStale)
  }

  /**
   Whatever happened, refills included: a run that comes to rest has settled every record exactly
   when it was not torn.
   */
  lemma RestIsSettledUnlessTorn(cfg: Settings, s: State, es: seq<Event>)
    requires Sane(cfg) && Ok(cfg, s) && NoneStranded(cfg, s) && Runnable(cfg, s, es)
    requires AtRest(cfg, Run(cfg, s, es))
    ensures AllFinal(Run(cfg, s, es)) <==> !TornSomewhere(cfg, s, es)
  {
    RunKeepsOk(cfg, s, es);
    StrandedExactlyAfterTorn(cfg, s, es);
    var end := Run(cfg, s, es);
    if NoneStranded(cfg, end) {
      WorkEnabledUntilFinal(cfg, end);
    } else {
      var i :| 0 <= i < |end.rows| && !InHand(end, i) && Stranded(cfg, end.rows[i]);
      assert !Final(end.rows[i]);
    }
  }

  /** How long to wait for every lease to run out. */
  function LongestLease(rows: seq<Row>, now: int): (dt: nat)
    ensures forall i :: 0 <= i < |rows| && rows[i].lease.Some? ==> rows[i].lease.value <= now + dt
  {
    if rows == [] then 0
    else
      var rest := LongestLease(rows[1..], now);
      if rows[0].lease.Some? && rows[0].lease.value - now > rest then rows[0].lease.value - now else rest
  }

  /** The next step towards rest: fail what is in hand, wait for the leases, then claim or sweep. */
  function NextStep(cfg: Settings, s: State): Event {
    if s.hand.Some? then Fail
    else if !LeasesOver(s) then Tick(LongestLease(s.rows, s.now))
    else if Enabled(cfg, s, Claim) then Claim
    else ExhaustStale
  }

  lemma NextStepGetsCloser(cfg: Settings, s: State)
    requires Sane(cfg) && Ok(cfg, s) && NoneStranded(cfg, s) && !AllFinal(s)
    ensures var e := NextStep(cfg, s);
            && Enabled(cfg, s, e) && !Refills(e)
            && Ok(cfg, Apply(cfg, s, e)) && NoneStranded(cfg, Apply(cfg, s, e))
            && (Remaining(cfg, Apply(cfg, s, e)) < Remaining(cfg, s)
                || (Remaining(cfg, Apply(cfg, s, e)) == Remaining(cfg, s) && !LeasesOver(s) && LeasesOver(Apply(cfg, s, e))))
  {
    var e := NextStep(cfg, s);
    if s.hand.None? && LeasesOver(s) {
      WorkEnabledUntilFinal(cfg, s);
    }
    WorkSpendsBudget(cfg, s, e);
    StrandsExactlyWhenTorn(cfg, s, e);
  }

  /** Settling stays possible: some run without refills or tears settles every record. */
  lemma {:induction false} CanSettle(cfg: Settings, s: State) returns (es: seq<Event>)
    requires Sane(cfg) && Ok(cfg, s) && NoneStranded(cfg, s)
    ensures NoRefills(es) && Runnable(cfg, s, es) && !TornSomewhere(cfg, s, es) && AllFinal(Run(cfg, s, es))
    decreases Remaining(cfg, s), !LeasesOver(s)
  {
    if AllFinal(s) {
      es := [];
    } else {
      NextStepGetsCloser(cfg, s);
      var e := NextStep(cfg, s);
      var rest := CanSettle(cfg, Apply(cfg, s, e));
      es := [e] + rest;
      assert es[1..] == rest;
    }
  }

  /** Exactly the states without a stranded record can still be settled. */
  lemma SettlesUnlessStranded(cfg: Settings, s: State)
    requires Sane(cfg) && Ok(cfg, s)
    ensures (exists es :: Runnable(cfg, s, es) && NoRefills(es) && AllFinal(Run(cfg, s, es))) <==> NoneStranded(cfg, s)
  {
    if NoneStranded(cfg, s) {
      var es := CanSettle(cfg, s);
    } else {
      var i :| 0 <= i < |s.rows| && !InHand(s, i) && Stranded(cfg, s.rows[i]);
      forall es | Runnable(cfg, s, es) ensures !AllFinal(Run(cfg, s, es)) {
        StrandedStays(cfg, s, es, i);
        assert !Final(Run(cfg, s, es).rows[i]);
      }
    }
  }

  /**
   Settling is also unavoidable: a run without refills does at most `Remaining` working events,
   and once it has come to rest untorn every record is settled.
   */
  lemma RestIsReachedAndSettled(cfg: Settings, s: State, es: seq<Event>)
    requires Sane(cfg) && Ok(cfg, s) && NoneStranded(cfg, s) && Runnable(cfg, s, es) && NoRefills(es)
    ensures WorkDone(cfg, s, es) <= Remaining(cfg, s)
    ensures AtRest(cfg, Run(cfg, s, es)) ==> (AllFinal(Run(cfg, s, es)) <==> !TornSomewhere(cfg, s, es))
    ensures !TornSomewhere(cfg, s, es) && !AllFinal(Run(cfg, s, es)) ==>
              exists more :: NoRefills(more) && Runnable(cfg, Run(cfg, s, es), more)
                             && AllFinal(Run(cfg, Run(cfg, s, es), more))
  {
    WorkBounded(cfg, s, es);
    if AtRest(cfg, Run(cfg, s, es)) {
      RestIsSettledUnlessTorn(cfg, s, es);
    }
    if !TornSomewhere(cfg, s, es) {
      StrandedExactlyAfterTorn(cfg, s, es);
      var more := CanSettle(cfg, Run(cfg, s, es));
    }
  }

  /**
   A claim that ends in a dependency wait costs no attempt. The record can be claimed again from
   15 seconds later on and never gets stale, until the hundredth wait settles it.
   */
  lemma WaitAfterClaim(cfg: Settings, r: Row, now: int, seen: nat, intel: IntelId, later: int, t: int)
    requires seen == r.waits
    ensures var w := WaitRecorded(Claimed(cfg, r, now), seen, intel, later);
            && w.attempts == r.attempts && w.waits == r.waits + 1 && w.intelId == Some(intel)
            && (Final(w) <==> r.waits + 1 >= DEPENDENCY_WAIT_LIMIT)
            && (Claimable(cfg, w, t) <==> r.waits + 1 < DEPENDENCY_WAIT_LIMIT && t >= later + DEPENDENCY_RETRY_SECONDS)
            && !Stale(cfg, w, t)
  {
  }
}
