/**
 `MongoProcessor` (src/darkpulse/broker/processor.py) as an object that updates its stores in
 place. Each method is one method of the source, run without interleaving, with an exception
 possible at every await; the interleavings are the subject of modules Queue and Effects.
 */
module Processor {
  import opened Common
  import opened Queue
  import opened Alerts

  /** What validation and the content checks make of a raw record. */
  datatype Content = Invalid | Blank | TooLarge | Usable

  /** What the NLP pipeline makes of it: an exception, nothing worth keeping, or a record. */
  datatype Analysis = Raises | Nothing | Found(payload: Payload)

  /** The statement that raises, if the call gets there; `AtAlert` is the one after so many alerts. */
  datatype Fault = NoFault | AtMark | AtSave | AtForget | AtWait | AtAlert(raised: nat) | AtSnapshot | AtFinish

  /** `handlerUp` is whether the write of the exception handler succeeds. */
  datatype Conditions = Conditions(graphUp: bool, fault: Fault, handlerUp: bool, now: int)

  datatype Stores = Stores(
    rows: seq<Row>, intel: map<IntelId, Payload>, graph: set<IntelId>,
    alerts: set<AlertId>, broadcasts: seq<AlertId>, snapshots: set<IntelId>)

  // --- which alerts are announced --------------------------------------------------------------

  /** The ids of `ids` that were not seen before, each once, in order. */
  function FirstTimes(seen: set<AlertId>, ids: seq<AlertId>): seq<AlertId>
    decreases |ids|
  {
    if ids == [] then []
    else if ids[0] in seen then FirstTimes(seen, ids[1..])
    else [ids[0]] + FirstTimes(seen + {ids[0]}, ids[1..])
  }

  lemma {:induction false} FirstTimesExact(seen: set<AlertId>, ids: seq<AlertId>)
    ensures NoDup(FirstTimes(seen, ids))
    ensures Elems(FirstTimes(seen, ids)) == Elems(ids) - seen
    decreases |ids|
  {
    if ids != [] {
      var more := if ids[0] in seen then seen else seen + {ids[0]};
      FirstTimesExact(more, ids[1..]);
      var rest := FirstTimes(more, ids[1..]);
      assert forall a :: a in ids <==> a == ids[0] || a in ids[1..];
      assert forall a :: a in rest <==> a in Elems(rest);
      if ids[0] !in seen {
        assert forall a :: a in [ids[0]] + rest <==> a == ids[0] || a in rest;
      }
    }
  }

  lemma {:induction false} FirstTimesAppend(seen: set<AlertId>, a: seq<AlertId>, b: seq<AlertId>)
    ensures FirstTimes(seen, a + b) == FirstTimes(seen, a) + FirstTimes(seen + Elems(a), b)
    decreases |a|
  {
    if a == [] {
      assert a + b == b && seen + Elems(a) == seen;
    } else {
      var more := if a[0] in seen then seen else seen + {a[0]};
      FirstTimesAppend(more, a[1..], b);
      assert (a + b)[1..] == a[1..] + b;
      assert forall x :: x in a <==> x == a[0] || x in a[1..];
      assert more + Elems(a[1..]) == seen + Elems(a);
    }
  }

  /** Replaying an evaluation announces nothing. */
  lemma {:induction false} ReplayAnnouncesNothing(seen: set<AlertId>, ids: seq<AlertId>)
    requires forall a :: a in ids ==> a in seen
    ensures FirstTimes(seen, ids) == []
  {
    if ids != [] {
      assert ids[0] in ids;
      ReplayAnnouncesNothing(seen, ids[1..]);
    }
  }

  /** The stores after rows for the alerts were inserted in order. */
  function Alerted(o: Stores, ids: seq<AlertId>): Stores {
    o.(alerts := o.alerts + Elems(ids), broadcasts := o.broadcasts + FirstTimes(o.alerts, ids))
  }

  lemma AlertedAppend(o: Stores, a: seq<AlertId>, b: seq<AlertId>)
    ensures Alerted(o, a + b) == Alerted(Alerted(o, a), b)
  {
    FirstTimesAppend(o.alerts, a, b);
    assert Elems(a + b) == Elems(a) + Elems(b);
    assert o.broadcasts + FirstTimes(o.alerts, a + b)
        == o.broadcasts + FirstTimes(o.alerts, a) + FirstTimes(o.alerts + Elems(a), b);
  }

  lemma AlertedByNone(o: Stores)
    ensures Alerted(o, []) == o
  {
    assert o.alerts + Elems([]) == o.alerts;
  }

  lemma AlertedByOne(o: Stores, id: AlertId)
    ensures Alerted(o, [id])
         == if id in o.alerts then o else o.(alerts := o.alerts + {id}, broadcasts := o.broadcasts + [id])
  {
    assert [id][1..] == [] && FirstTimes(o.alerts + {id}, []) == [];
    assert Elems([id]) == {id};
    if id in o.alerts { assert o.alerts + {id} == o.alerts; }
  }

  // --- what a call leaves behind ---------------------------------------------------------------

  /** All alerts that the configuration calls for. */
  function AlertsFor(rules: seq<Rule>, lists: seq<Watchlist>, p: Payload): seq<AlertId> {
    RuleAlerts(rules, p) + ListAlerts(ListsRead(lists), p)
  }

  /** The evaluation raises at an insert, or at a read before the first alert or between the two loops. */
  predicate EvaluationFails(fault: Fault, rules: seq<Rule>, lists: seq<Watchlist>, p: Payload) {
    && fault.AtAlert?
    && (fault.raised < |AlertsFor(rules, lists, p)| || fault.raised == |RuleAlerts(rules, p)|)
  }

  function AlertsReached(fault: Fault, rules: seq<Rule>, lists: seq<Watchlist>, p: Payload): seq<AlertId> {
    var ids := AlertsFor(rules, lists, p);
    if EvaluationFails(fault, rules, lists, p) then ids[..fault.raised] else ids
  }

  datatype Progress = Raised | Waits | Saved

  /** `_process_intel` */
  function AfterIntel(o: Stores, p: Payload, rules: seq<Rule>, lists: seq<Watchlist>, c: Conditions): (Stores, Progress)
    requires p.ingest < |o.rows|
  {
    var x, i := IntelIdOf(p), p.ingest;
    if c.fault.AtSave? then (o, Raised)
    else
      var saved := if x in o.intel then o else o.(intel := o.intel[x := p]);
      if x in o.intel && c.fault.AtForget? then (saved, Raised)
      else if !c.graphUp then
        if c.fault.AtWait? then (saved, Raised)
        else (saved.(rows := o.rows[i := WaitRecorded(o.rows[i], o.rows[i].waits, x, c.now)]), Waits)
      else
        (Alerted(saved.(graph := o.graph + {x}), AlertsReached(c.fault, rules, lists, p)),
         if EvaluationFails(c.fault, rules, lists, p) then Raised else Saved)
  }

  /** The end of `_process_doc`, shared with `_resume_saved`; the flag is whether it raises. */
  function AfterSettling(o: Stores, p: Payload, rules: seq<Rule>, lists: seq<Watchlist>, c: Conditions): (Stores, bool)
    requires p.ingest < |o.rows|
  {
    var (n, progress) := AfterIntel(o, p, rules, lists, c);
    match progress
    case Raised => (n, true)
    case Waits => (n, false)
    case Saved =>
      if c.fault.AtSnapshot? then (n, true)
      else
        var shot := n.(snapshots := n.snapshots + {IntelIdOf(p)});
        if c.fault.AtFinish? then (shot, true)
        else (shot.(rows := n.rows[p.ingest := Finished(n.rows[p.ingest], false)]), false)
  }

  function AfterDropping(o: Stores, i: nat, c: Conditions): (Stores, bool)
    requires i < |o.rows|
  {
    if c.fault.AtFinish? then (o, true) else (o.(rows := o.rows[i := Finished(o.rows[i], true)]), false)
  }

  /** Intel rows carry the id derived from their ingest. */
  ghost predicate IntelOk(intel: map<IntelId, Payload>) {
    forall x :: x in intel ==> IntelIdOf(intel[x]) == x
  }

  /** What is known of record i before the call: its saved id, if any, and its analysis are its own. */
  predicate AboutRecord(i: nat, doc: Row, analysis: Analysis) {
    && (doc.intelId.Some? ==> doc.intelId.value == DerivedFrom(i))
    && (analysis.Found? ==> analysis.payload.ingest == i)
  }

  /** The payload that the call goes on with, if it gets that far. */
  function Chosen(content: Content, analysis: Analysis, doc: Row, intel: map<IntelId, Payload>): Option<Payload> {
    if !content.Usable? then None
    else if Resumable(doc, intel) then Some(intel[doc.intelId.value])
    else if analysis.Found? then Some(analysis.payload)
    else None
  }

  /** The body of the `try`. */
  function AfterTry(
    o: Stores, i: nat, doc: Row, content: Content, analysis: Analysis,
    rules: seq<Rule>, lists: seq<Watchlist>, c: Conditions): (r: (Stores, bool))
    requires i < |o.rows| && AboutRecord(i, doc, analysis) && IntelOk(o.intel)
    ensures |r.0.rows| == |o.rows| && forall k :: 0 <= k < |o.rows| && k != i ==> r.0.rows[k] == o.rows[k]
  {
    match Chosen(content, analysis, doc, o.intel)
    case Some(p) => AfterSettling(o, p, rules, lists, c)
    case None =>
      if content.Invalid? then (o, true)
      else if content.Blank? then AfterDropping(o, i, c)
      else if content.TooLarge? then
        if c.fault.AtMark? then (o, true) else (o.(rows := o.rows[i := Oversized(o.rows[i])]), true)
      else if analysis.Raises? then (o, true)
      else AfterDropping(o, i, c)
  }

  /** `_process_doc` */
  function AfterDoc(
    cfg: Settings, o: Stores, i: nat, doc: Row, content: Content, analysis: Analysis,
    rules: seq<Rule>, lists: seq<Watchlist>, c: Conditions): (r: (Stores, bool))
    requires i < |o.rows| && AboutRecord(i, doc, analysis) && IntelOk(o.intel)
    ensures |r.0.rows| == |o.rows| && forall k :: 0 <= k < |o.rows| && k != i ==> r.0.rows[k] == o.rows[k]
  {
    var (n, raised) := AfterTry(o, i, doc, content, analysis, rules, lists, c);
    if raised && c.handlerUp
    then (n.(rows := n.rows[i := FailureRecorded(cfg, n.rows[i], doc.attempts)]), true)
    else (n, raised)
  }

  // --- what that means ---------------------------------------------------------------------------

  /**
   Intel rows are never replaced, graph, alerts and snapshots only grow, and what is broadcast are
   exactly the alerts that got their row, each once.
   */
  ghost predicate Kept(o: Stores, n: Stores) {
    && IntelOk(n.intel) && (forall x :: x in o.intel ==> x in n.intel && n.intel[x] == o.intel[x])
    && o.graph <= n.graph && o.alerts <= n.alerts && o.snapshots <= n.snapshots
    && Announces(o, n)
  }

  ghost predicate Announces(o: Stores, n: Stores) {
    && o.broadcasts <= n.broadcasts && NoDup(n.broadcasts[|o.broadcasts|..])
    && Elems(n.broadcasts[|o.broadcasts|..]) == n.alerts - o.alerts
  }

  lemma AlertedAnnounces(o: Stores, m: Stores, n: Stores, ids: seq<AlertId>)
    requires m.alerts == o.alerts && m.broadcasts == o.broadcasts
    requires n.alerts == Alerted(m, ids).alerts && n.broadcasts == Alerted(m, ids).broadcasts
    ensures Announces(o, n)
  {
    FirstTimesExact(o.alerts, ids);
    assert n.broadcasts[|o.broadcasts|..] == FirstTimes(o.alerts, ids);
    assert n.alerts - o.alerts == Elems(ids) - o.alerts;
  }

  lemma NothingAnnounced(o: Stores, n: Stores)
    requires n.alerts == o.alerts && n.broadcasts == o.broadcasts
    ensures Announces(o, n)
  {
    assert n.broadcasts[|o.broadcasts|..] == [] && n.alerts - o.alerts == {};
  }

  lemma IntelKeepsStores(o: Stores, p: Payload, rules: seq<Rule>, lists: seq<Watchlist>, c: Conditions)
    requires p.ingest < |o.rows| && IntelOk(o.intel)
    ensures Kept(o, AfterIntel(o, p, rules, lists, c).0)
  {
    hide Announces;
    var n := AfterIntel(o, p, rules, lists, c).0;
    var x := IntelIdOf(p);
    var saved := if x in o.intel then o else o.(intel := o.intel[x := p]);
    if c.graphUp && !c.fault.AtSave? && !(x in o.intel && c.fault.AtForget?) {
      AlertedAnnounces(o, saved.(graph := o.graph + {x}), n, AlertsReached(c.fault, rules, lists, p));
    } else {
      NothingAnnounced(o, n);
    }
  }

  /** What each way to end means. */
  lemma IntelMeans(o: Stores, p: Payload, rules: seq<Rule>, lists: seq<Watchlist>, c: Conditions)
    requires p.ingest < |o.rows| && IntelOk(o.intel)
    ensures var (n, progress) := AfterIntel(o, p, rules, lists, c);
            && Kept(o, n)
            && (progress == Saved ==>
                  && n.rows == o.rows && IntelIdOf(p) in n.intel && IntelIdOf(p) in n.graph
                  && forall a :: a in AlertsFor(rules, lists, p) ==> a in n.alerts)
            && (progress == Waits ==>
                  && !c.graphUp && n.graph == o.graph && n.alerts == o.alerts && n.broadcasts == o.broadcasts
                  && n.rows[p.ingest].status in {Waiting, Exhausted} && n.rows[p.ingest].phase == IntelSaved)
            && (progress == Raised ==> n.rows == o.rows)
  {
    hide Kept, RuleAlerts, ListAlerts, FirstTimes;
    IntelKeepsStores(o, p, rules, lists, c);
  }

  /** Whatever fails. */
  lemma DocKeepsStores(
    cfg: Settings, o: Stores, i: nat, doc: Row, content: Content, analysis: Analysis,
    rules: seq<Rule>, lists: seq<Watchlist>, c: Conditions)
    requires i < |o.rows| && AboutRecord(i, doc, analysis) && IntelOk(o.intel)
    ensures Kept(o, AfterDoc(cfg, o, i, doc, content, analysis, rules, lists, c).0)
  {
    hide AfterIntel;
    NothingAnnounced(o, o);
    match Chosen(content, analysis, doc, o.intel) {
      case Some(p) => IntelKeepsStores(o, p, rules, lists, c);
      case None =>
    }
  }

  /** The call gets through everything that it does for a payload. */
  predicate GetsThrough(p: Payload, intel: map<IntelId, Payload>, rules: seq<Rule>, lists: seq<Watchlist>, c: Conditions) {
    && c.graphUp
    && (c.fault in {NoFault, AtMark, AtWait} || (c.fault.AtForget? && IntelIdOf(p) !in intel)
        || (c.fault.AtAlert? && !EvaluationFails(c.fault, rules, lists, p)))
  }

  /** The stores hold everything that settling the payload produces. */
  ghost predicate HasEffects(n: Stores, p: Payload, rules: seq<Rule>, lists: seq<Watchlist>) {
    && IntelIdOf(p) in n.intel && IntelIdOf(p) in n.graph && IntelIdOf(p) in n.snapshots
    && forall a :: a in AlertsFor(rules, lists, p) ==> a in n.alerts
  }

  lemma SettledExactly(o: Stores, p: Payload, rules: seq<Rule>, lists: seq<Watchlist>, c: Conditions)
    requires p.ingest < |o.rows| && o.rows[p.ingest].status != Completed
    ensures var (n, raised) := AfterSettling(o, p, rules, lists, c);
            && |n.rows| == |o.rows|
            && (n.rows[p.ingest].status == Completed <==> GetsThrough(p, o.intel, rules, lists, c))
            && (n.rows[p.ingest].status == Completed ==> !raised && HasEffects(n, p, rules, lists))
  {
    hide RuleAlerts, ListAlerts, ListsRead, FirstTimes;
  }

  /** The row becomes completed exactly when it goes on with a payload and gets through, and then all effects are there. */
  lemma CompletedExactly(
    cfg: Settings, o: Stores, i: nat, doc: Row, content: Content, analysis: Analysis,
    rules: seq<Rule>, lists: seq<Watchlist>, c: Conditions)
    requires i < |o.rows| && AboutRecord(i, doc, analysis) && IntelOk(o.intel)
    requires o.rows[i].status != Completed
    ensures var n := AfterDoc(cfg, o, i, doc, content, analysis, rules, lists, c).0;
            var p := Chosen(content, analysis, doc, o.intel);
            && (n.rows[i].status == Completed <==> p.Some? && GetsThrough(p.value, o.intel, rules, lists, c))
            && (n.rows[i].status == Completed ==> HasEffects(n, p.value, rules, lists))
  {
    hide AfterSettling, HasEffects, GetsThrough;
    match Chosen(content, analysis, doc, o.intel) {
      case Some(p) => SettledExactly(o, p, rules, lists, c);
      case None =>
    }
  }

  /** A claimed row does not stay processing, unless the write of the exception handler itself fails. */
  lemma NeverLeftProcessing(
    cfg: Settings, o: Stores, i: nat, doc: Row, content: Content, analysis: Analysis,
    rules: seq<Rule>, lists: seq<Watchlist>, c: Conditions)
    requires i < |o.rows| && AboutRecord(i, doc, analysis) && IntelOk(o.intel)
    requires o.rows[i].status == Processing && c.handlerUp
    ensures var (n, raised) := AfterDoc(cfg, o, i, doc, content, analysis, rules, lists, c);
            && n.rows[i].status in {Completed, Dropped, Waiting, Exhausted, Failed}
            && (raised ==> n.rows[i].status == if doc.attempts >= cfg.maxAttempts then Exhausted else Failed)
  {
  }

  /** The four facts together. */
  lemma DocMeans(
    cfg: Settings, o: Stores, i: nat, doc: Row, content: Content, analysis: Analysis,
    rules: seq<Rule>, lists: seq<Watchlist>, c: Conditions)
    requires i < |o.rows| && AboutRecord(i, doc, analysis) && IntelOk(o.intel)
    ensures var n := AfterDoc(cfg, o, i, doc, content, analysis, rules, lists, c).0;
            && Kept(o, n)
            && (o.rows[i].status == Processing && c.handlerUp ==> n.rows[i].status != Processing)
            && (o.rows[i].status != Completed ==>
                  var p := Chosen(content, analysis, doc, o.intel);
                  && (n.rows[i].status == Completed <==> p.Some? && GetsThrough(p.value, o.intel, rules, lists, c))
                  && (n.rows[i].status == Completed ==> HasEffects(n, p.value, rules, lists)))
  {
    hide AfterDoc, Kept, HasEffects, GetsThrough, Chosen, Resumable;
    DocKeepsStores(cfg, o, i, doc, content, analysis, rules, lists, c);
    if o.rows[i].status != Completed {
      CompletedExactly(cfg, o, i, doc, content, analysis, rules, lists, c);
    }
    if o.rows[i].status == Processing && c.handlerUp {
      NeverLeftProcessing(cfg, o, i, doc, content, analysis, rules, lists, c);
    }
  }

  lemma SettlingAgain(n: Stores, p: Payload, rules: seq<Rule>, lists: seq<Watchlist>, c: Conditions)
    requires p.ingest < |n.rows| && HasEffects(n, p, rules, lists)
    ensures AfterSettling(n, p, rules, lists, c).0.(rows := n.rows) == n
  {
    var ids := AlertsReached(c.fault, rules, lists, p);
    forall a | a in ids ensures a in n.alerts { assert a in AlertsFor(rules, lists, p); }
    ReplayAnnouncesNothing(n.alerts, ids);
    assert n.alerts + Elems(ids) == n.alerts;
    assert n.graph + {IntelIdOf(p)} == n.graph && n.snapshots + {IntelIdOf(p)} == n.snapshots;
  }

  /** Processing a settled record again, whatever fails then, changes no store but its row and announces nothing. */
  lemma ReplayChangesNothing(
    cfg: Settings, n: Stores, i: nat, doc: Row, content: Content, analysis: Analysis, p: Payload,
    rules: seq<Rule>, lists: seq<Watchlist>, c: Conditions)
    requires i < |n.rows| && IntelOk(n.intel) && AboutRecord(i, doc, analysis)
    requires Chosen(content, analysis, doc, n.intel) == Some(p) && HasEffects(n, p, rules, lists)
    ensures AfterDoc(cfg, n, i, doc, content, analysis, rules, lists, c).0.(rows := n.rows) == n
  {
    hide AfterSettling;
    SettlingAgain(n, p, rules, lists, c);
  }

  // --- the methods --------------------------------------------------------------------------------

  class MongoProcessor {
    const cfg: Settings
    var rows: seq<Row>
    var intel: map<IntelId, Payload>
    var graph: set<IntelId>
    var alerts: set<AlertId>
    var broadcasts: seq<AlertId>
    var snapshots: set<IntelId>
    var rules: seq<Rule>
    var lists: seq<Watchlist>
    /** Ingests whose dedup key is still marked. */
    var marked: set<nat>
    var fatalError: Option<string>

    ghost predicate Valid()
      reads this
    {
      && Sane(cfg) && IntelOk(intel) && snapshots <= intel.Keys
      && (forall i :: 0 <= i < |rows| && rows[i].intelId.Some? ==> rows[i].intelId.value == DerivedFrom(i))
      && AlertsOk()
    }

    ghost predicate AlertsOk()
      reads this`alerts, this`broadcasts
    {
      NoDup(broadcasts) && forall a :: a in broadcasts ==> a in alerts
    }

    function Contents(): Stores
      reads this
    {
      Stores(rows, intel, graph, alerts, broadcasts, snapshots)
    }

    constructor (cfg: Settings, rules: seq<Rule>, lists: seq<Watchlist>)
      requires Sane(cfg)
      ensures Valid() && Contents() == Stores([], map[], {}, {}, [], {}) && fatalError == None
    {
      this.cfg := cfg;
      this.rules := rules;
      this.lists := lists;
      rows, intel, graph, alerts, broadcasts, snapshots, marked := [], map[], {}, {}, [], {}, {};
      fatalError := None;
    }

    method ExhaustStaleLeases(now: int)
      requires Valid()
      modifies this`rows
      ensures Valid()
      ensures rows == SweptRows(cfg, old(rows), now)
      ensures forall i :: 0 <= i < |rows| ==> !Stale(cfg, rows[i], now)
      ensures forall i :: 0 <= i < |rows| ==>
                if Stale(cfg, old(rows)[i], now) then Final(rows[i]) else rows[i] == old(rows)[i]
    {
      rows := SweptRows(cfg, rows, now);
    }

    /** `reachable` is whether the database answers. */
    method ClaimNext(now: int, reachable: bool) returns (claimed: Option<nat>)
      requires Valid()
      modifies this`rows, this`fatalError
      ensures Valid() && |rows| == |old(rows)|
      ensures !reachable ==> claimed == None && rows == old(rows) && fatalError == Some("claim_failed")
      ensures reachable ==> fatalError == None
      ensures reachable && claimed.None? ==>
                rows == old(rows) && forall i :: 0 <= i < |rows| ==> !Claimable(cfg, rows[i], now)
      ensures claimed.Some? ==>
                var i := claimed.value;
                && i < |rows| && Claimable(cfg, old(rows)[i], now)
                && (forall k :: 0 <= k < i ==> !Claimable(cfg, old(rows)[k], now))
                && rows == old(rows)[i := Claimed(cfg, old(rows)[i], now)]
    {
      if !reachable {
        fatalError := Some("claim_failed");
        return None;
      }
      claimed := FirstClaimable(cfg, rows, now);
      if claimed.Some? {
        rows := rows[claimed.value := Claimed(cfg, rows[claimed.value], now)];
      }
      fatalError := None;
    }

    method FinishRaw(i: nat, dropped: bool)
      requires Valid() && i < |rows|
      modifies this`rows
      ensures Valid() && rows == old(rows)[i := Finished(old(rows)[i], dropped)]
      ensures Final(rows[i])
    {
      rows := rows[i := Finished(rows[i], dropped)];
    }

    /** The record gives its attempt back and can be claimed again after 15 seconds, or is settled by its hundredth wait. */
    method MarkWaiting(i: nat, intelId: IntelId, now: int)
      requires Valid() && i < |rows| && intelId == DerivedFrom(i)
      modifies this`rows
      ensures Valid()
      ensures rows == old(rows)[i := WaitRecorded(old(rows)[i], old(rows)[i].waits, intelId, now)]
      ensures rows[i].attempts == old(rows)[i].attempts - 1 && rows[i].waits == old(rows)[i].waits + 1
      ensures Final(rows[i]) <==> old(rows)[i].waits >= DEPENDENCY_WAIT_LIMIT - 1
      ensures forall t :: Claimable(cfg, rows[i], t) <==> !Final(rows[i]) && t >= now + DEPENDENCY_RETRY_SECONDS
      ensures intelId in intel ==> Resumable(rows[i], intel)
    {
      var seen := rows[i].waits;
      rows := rows[i := WaitRecorded(rows[i], seen, intelId, now)];
    }

    method ReleaseOpenLeases()
      requires Valid()
      modifies this`rows
      ensures Valid() && rows == ReleasedRows(old(rows))
      ensures forall i :: 0 <= i < |rows| ==> rows[i].status != Processing
      ensures forall i :: 0 <= i < |rows| ==>
                if old(rows)[i].status == Processing
                then rows[i].status == Pending && rows[i].attempts == old(rows)[i].attempts - 1
                else rows[i] == old(rows)[i]
    {
      rows := ReleasedRows(rows);
    }

    method RecordFailure(i: nat, attemptsAtClaim: int)
      requires Valid() && i < |rows|
      modifies this`rows
      ensures Valid() && rows == old(rows)[i := FailureRecorded(cfg, old(rows)[i], attemptsAtClaim)]
      ensures Final(rows[i]) <==> attemptsAtClaim >= cfg.maxAttempts
    {
      rows := rows[i := FailureRecorded(cfg, rows[i], attemptsAtClaim)];
    }

    /** Insert one alert row; only the insert that creates the row broadcasts. */
    method RaiseAlert(id: AlertId)
      requires AlertsOk()
      modifies this`alerts, this`broadcasts
      ensures AlertsOk() && Contents() == Alerted(old(Contents()), [id])
    {
      AlertedByOne(Contents(), id);
      if id in alerts {
        return;
      }
      alerts := alerts + {id};
      broadcasts := broadcasts + [id];
    }

    /** The first loop of `_evaluate_alerts`; `stop` is how many alerts go well before an insert raises. */
    method EvaluateRules(p: Payload, stop: Option<nat>) returns (raised: bool, count: nat)
      requires AlertsOk()
      modifies this`alerts, this`broadcasts
      ensures AlertsOk()
      ensures raised <==> stop.Some? && stop.value < |RuleAlerts(rules, p)|
      ensures count == if raised then stop.value else |RuleAlerts(rules, p)|
      ensures Contents() == Alerted(old(Contents()), RuleAlerts(rules, p)[..count])
    {
      hide AlertsOk, Alerted, RuleAlerts, RuleFires;
      ghost var was := Contents();
      AlertedByNone(was);
      raised, count := false, 0;
      var k := 0;
      RuleAlertsSplit(rules, p, 0);
      while k < |rules|
        invariant k <= |rules| && AlertsOk()
        invariant count == |RuleAlerts(rules[..k], p)| && (stop.Some? ==> count <= stop.value)
        invariant Contents() == Alerted(was, RuleAlerts(rules[..k], p))
      {
        RuleAlertsSplit(rules, p, k);
        if RuleFires(rules[k], p) {
          if stop == Some(count) {
            raised := true;
            return;
          }
          AlertedAppend(was, RuleAlerts(rules[..k], p), [RuleAlert(rules[k], p)]);
          RaiseAlert(RuleAlert(rules[k], p));
          count := count + 1;
        }
        k := k + 1;
      }
      RuleAlertsSplit(rules, p, k);
    }

    /** The second loop of `_evaluate_alerts`, over the watchlists that were read. */
    method EvaluateWatchlists(p: Payload, read: seq<Watchlist>, stop: Option<nat>) returns (raised: bool, count: nat)
      requires AlertsOk()
      modifies this`alerts, this`broadcasts
      ensures AlertsOk()
      ensures raised <==> stop.Some? && stop.value < |ListAlerts(read, p)|
      ensures count == if raised then stop.value else |ListAlerts(read, p)|
      ensures Contents() == Alerted(old(Contents()), ListAlerts(read, p)[..count])
    {
      hide AlertsOk, Alerted, ListAlerts, ListFires;
      ghost var was := Contents();
      AlertedByNone(was);
      raised, count := false, 0;
      var k := 0;
      ListAlertsSplit(read, p, 0);
      while k < |read|
        invariant k <= |read| && AlertsOk()
        invariant count == |ListAlerts(read[..k], p)| && (stop.Some? ==> count <= stop.value)
        invariant Contents() == Alerted(was, ListAlerts(read[..k], p))
      {
        ListAlertsSplit(read, p, k);
        if ListFires(read[k], p) {
          if stop == Some(count) {
            raised := true;
            return;
          }
          AlertedAppend(was, ListAlerts(read[..k], p), [ListAlert(read[k], p)]);
          RaiseAlert(ListAlert(read[k], p));
          count := count + 1;
        }
        k := k + 1;
      }
      ListAlertsSplit(read, p, k);
    }

    /** `_evaluate_alerts`: a failing statement leaves the alerts before it in place. */
    method EvaluateAlerts(p: Payload, fault: Fault) returns (raised: bool)
      requires AlertsOk()
      modifies this`alerts, this`broadcasts
      ensures AlertsOk()
      ensures raised <==> EvaluationFails(fault, rules, lists, p)
      ensures Contents() == Alerted(old(Contents()), AlertsReached(fault, rules, lists, p))
    {
      hide AlertsOk, Alerted, RuleAlerts, ListAlerts, ListsRead;
      ghost var was := Contents();
      ghost var first, second := RuleAlerts(rules, p), ListAlerts(ListsRead(lists), p);
      var stop := if fault.AtAlert? then Some(fault.raised) else None;
      var count;
      raised, count := EvaluateRules(p, stop);
      TakeOfAppend(first, second, count);
      if raised || stop == Some(count) {
        return true;
      }
      var rest := if stop.Some? && stop.value >= count then Some(stop.value - count) else None;
      var more;
      raised, more := EvaluateWatchlists(p, ListsRead(lists), rest);
      AlertedAppend(was, first, second[..more]);
      TakeOfAppend(first, second, count + more);
    }

    /** `_process_intel`: insert or find the intel row, upsert the graph, evaluate the alerts. */
    method ProcessIntel(p: Payload, c: Conditions) returns (progress: Progress)
      requires Valid() && p.ingest < |rows|
      modifies this`rows, this`intel, this`graph, this`alerts, this`broadcasts, this`marked
      ensures Valid()
      ensures (Contents(), progress) == AfterIntel(old(Contents()), p, rules, lists, c)
      ensures marked == if IntelIdOf(p) in old(intel) && !c.fault.AtSave? && !c.fault.AtForget?
                        then old(marked) - {p.ingest} else old(marked)
      ensures Kept(old(Contents()), Contents())
      ensures progress == Saved ==>
                && rows == old(rows) && IntelIdOf(p) in intel && IntelIdOf(p) in graph
                && forall a :: a in AlertsFor(rules, lists, p) ==> a in alerts
      ensures progress == Waits ==>
                && !c.graphUp && graph == old(graph) && alerts == old(alerts) && broadcasts == old(broadcasts)
                && rows[p.ingest].status in {Waiting, Exhausted} && rows[p.ingest].phase == IntelSaved
      ensures progress == Raised ==> rows == old(rows)
    {
      hide Kept, Alerted, AlertsReached, EvaluationFails, RuleAlerts, ListAlerts, AlertsOk;
      IntelMeans(Contents(), p, rules, lists, c);
      if c.fault.AtSave? {
        return Raised;
      }
      if IntelIdOf(p) in intel {
        if c.fault.AtForget? {
          return Raised;
        }
        marked := marked - {p.ingest};
      } else {
        intel := intel[IntelIdOf(p) := p];
      }
      if !c.graphUp {
        if c.fault.AtWait? {
          return Raised;
        }
        MarkWaiting(p.ingest, IntelIdOf(p), c.now);
        return Waits;
      }
      graph := graph + {IntelIdOf(p)};
      var raised := EvaluateAlerts(p, c.fault);
      progress := if raised then Raised else Saved;
    }

    method WriteSnapshot(x: IntelId)
      requires Valid()
      modifies this`snapshots
      ensures Valid()
      ensures snapshots == if x in intel then old(snapshots) + {x} else old(snapshots)
    {
      if x in intel {
        snapshots := snapshots + {x};
      }
    }

    /** The end of `_process_doc`, shared with `_resume_saved`. */
    method Settle(p: Payload, c: Conditions) returns (raised: bool)
      requires Valid() && p.ingest < |rows|
      modifies this`rows, this`intel, this`graph, this`alerts, this`broadcasts, this`snapshots, this`marked
      ensures Valid()
      ensures (Contents(), raised) == AfterSettling(old(Contents()), p, rules, lists, c)
      ensures old(rows)[p.ingest].status != Completed ==>
                && (rows[p.ingest].status == Completed <==> GetsThrough(p, old(intel), rules, lists, c))
                && (rows[p.ingest].status == Completed ==> !raised && HasEffects(Contents(), p, rules, lists))
    {
      hide GetsThrough, HasEffects, Kept, AfterIntel, AlertsFor, AlertsOk;
      if rows[p.ingest].status != Completed {
        SettledExactly(Contents(), p, rules, lists, c);
      }
      var progress := ProcessIntel(p, c);
      if !progress.Saved? {
        return progress.Raised?;
      }
      if c.fault.AtSnapshot? {
        return true;
      }
      WriteSnapshot(IntelIdOf(p));
      if c.fault.AtFinish? {
        return true;
      }
      FinishRaw(p.ingest, false);
      raised := false;
    }

    /** The body of the `try` of `_process_doc`. */
    method TryDoc(i: nat, doc: Row, content: Content, analysis: Analysis, c: Conditions) returns (raised: bool)
      requires Valid() && i < |rows| && AboutRecord(i, doc, analysis)
      modifies this`rows, this`intel, this`graph, this`alerts, this`broadcasts, this`snapshots, this`marked
      ensures Valid()
      ensures (Contents(), raised) == AfterTry(old(Contents()), i, doc, content, analysis, rules, lists, c)
    {
      hide AfterSettling;
      if content.Invalid? {
        return true;
      }
      if content.Blank? {
        if !c.fault.AtFinish? { FinishRaw(i, true); }
        return c.fault.AtFinish?;
      }
      if content.TooLarge? {
        if !c.fault.AtMark? { rows := rows[i := Oversized(rows[i])]; }
        return true;
      }
      if Resumable(doc, intel) {
        raised := Settle(intel[doc.intelId.value], c);
        return;
      }
      match analysis {
        case Raises =>
          raised := true;
        case Nothing =>
          if !c.fault.AtFinish? { FinishRaw(i, true); }
          raised := c.fault.AtFinish?;
        case Found(p) =>
          raised := Settle(p, c);
      }
    }

    /** `_process_doc` for record i, claimed as `doc`. */
    method ProcessDoc(i: nat, doc: Row, content: Content, analysis: Analysis, c: Conditions) returns (raised: bool)
      requires Valid() && i < |rows| && AboutRecord(i, doc, analysis)
      modifies this`rows, this`intel, this`graph, this`alerts, this`broadcasts, this`snapshots, this`marked
      ensures Valid()
      ensures (Contents(), raised) == AfterDoc(cfg, old(Contents()), i, doc, content, analysis, rules, lists, c)
      ensures forall k :: 0 <= k < |rows| && k != i ==> rows[k] == old(rows)[k]
      ensures Kept(old(Contents()), Contents())
      ensures old(rows)[i].status != Completed ==>
                var p := Chosen(content, analysis, doc, old(intel));
                && (rows[i].status == Completed <==> p.Some? && GetsThrough(p.value, old(intel), rules, lists, c))
                && (rows[i].status == Completed ==> HasEffects(Contents(), p.value, rules, lists))
      ensures old(rows)[i].status == Processing && c.handlerUp ==> rows[i].status != Processing
    {
      hide AfterTry, Kept, HasEffects, GetsThrough, Chosen, Resumable, AlertsOk;
      DocMeans(cfg, Contents(), i, doc, content, analysis, rules, lists, c);
      raised := TryDoc(i, doc, content, analysis, c);
      if raised && c.handlerUp {
        RecordFailure(i, doc.attempts);
      }
    }
  }

  lemma TakeOfAppend<T>(a: seq<T>, b: seq<T>, n: nat)
    requires n <= |a| + |b|
    ensures (a + b)[..n] == if n <= |a| then a[..n] else a + b[..n - |a|]
    ensures n == |a| ==> a[..n] == a
    ensures n == |a| + |b| ==> (a + b)[..n] == a + b
  {
  }

  /** The alerts of the first k rules are a prefix, and rule k adds its own. */
  lemma RuleAlertsSplit(rules: seq<Rule>, p: Payload, k: nat)
    requires k <= |rules|
    ensures var all, done := RuleAlerts(rules, p), RuleAlerts(rules[..k], p);
            && |done| <= |all| && all[..|done|] == done && (k == 0 ==> done == []) && (k == |rules| ==> done == all)
            && (k < |rules| ==>
                  if RuleFires(rules[k], p)
                  then RuleAlerts(rules[..k + 1], p) == done + [RuleAlert(rules[k], p)] && |done| < |all|
                  else RuleAlerts(rules[..k + 1], p) == done)
  {
    assert rules == rules[..k] + rules[k..];
    RuleAlertsAppend(rules[..k], rules[k..], p);
    if k < |rules| {
      assert rules[..k + 1] == rules[..k] + [rules[k]] && rules[k..] == [rules[k]] + rules[k + 1..];
      RuleAlertsAppend(rules[..k], [rules[k]], p);
      RuleAlertsAppend([rules[k]], rules[k + 1..], p);
      assert [rules[k]][1..] == [];
      assert RuleAlerts(rules[..k], p) + [] == RuleAlerts(rules[..k], p);
    }
  }

  lemma ListAlertsSplit(lists: seq<Watchlist>, p: Payload, k: nat)
    requires k <= |lists|
    ensures var all, done := ListAlerts(lists, p), ListAlerts(lists[..k], p);
            && |done| <= |all| && all[..|done|] == done && (k == 0 ==> done == []) && (k == |lists| ==> done == all)
            && (k < |lists| ==>
                  if ListFires(lists[k], p)
                  then ListAlerts(lists[..k + 1], p) == done + [ListAlert(lists[k], p)] && |done| < |all|
                  else ListAlerts(lists[..k + 1], p) == done)
  {
    assert lists == lists[..k] + lists[k..];
    ListAlertsAppend(lists[..k], lists[k..], p);
    if k < |lists| {
      assert lists[..k + 1] == lists[..k] + [lists[k]] && lists[k..] == [lists[k]] + lists[k + 1..];
      ListAlertsAppend(lists[..k], [lists[k]], p);
      ListAlertsAppend([lists[k]], lists[k + 1..], p);
      assert [lists[k]][1..] == [];
      assert ListAlerts(lists[..k], p) + [] == ListAlerts(lists[..k], p);
    }
  }
}
