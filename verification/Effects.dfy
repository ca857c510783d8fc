/**
 At-least-once processing by any number of workers (src/darkpulse/broker/processor.py).
 Leases do not fence writes, so a worker may act on a record long after it lost it; every
 await is its own step, and a worker may crash before any of them. What makes the effects
 happen once are the unique keys of the intel and alert collections.
 */
module Effects {
  import opened Common
  import opened Queue
  import opened Alerts

  /** A completed alert evaluation: the record and the configuration it was judged by. */
  datatype Evaluation = Evaluation(payload: Payload, rules: seq<Rule>, lists: seq<Watchlist>)

  /**
   The shared stores. `alerts` are the alert rows ever inserted; `ruleLog` and `listLog` are
   the configurations ever stored, the last one being current; `evaluations` is history.
   */
  datatype World = World(
    rows: seq<Row>,
    intel: map<IntelId, Payload>,
    graph: set<IntelId>,
    alerts: set<AlertId>,
    broadcasts: seq<AlertId>,
    snapshots: set<IntelId>,
    ruleLog: seq<seq<Rule>>,
    listLog: seq<seq<Watchlist>>,
    evaluations: set<Evaluation>,
    now: int)

  /** The alert loops: alerts still to insert, and the lists once they have been read. */
  datatype Loop = Loop(rules: seq<Rule>, lists: Option<seq<Watchlist>>, todo: seq<AlertId>)

  datatype Stage =
    | Begin
    | Marked
    | Saving(payload: Payload)
    | Graphing(payload: Payload)
    | CountingWaits(payload: Payload)
    | WritingWait(payload: Payload, seen: nat)
    | Alerting(payload: Payload)
    | Inserting(payload: Payload, loop: Loop)
    | Broadcasting(payload: Payload, loop: Loop, alert: AlertId)
    | Snapshotting(payload: Payload)
    | Finishing

  /** What a worker is doing: the document it claimed, as it was at the claim, and its place in the code. */
  datatype Worker = Idle | Busy(row: nat, doc: Row, stage: Stage)

  datatype System = System(world: World, workers: seq<Worker>)

  datatype Event =
    | Tick(seconds: nat)
    | Publish(legacy: bool)
    | Sweep
    | Shutdown
    | Retry(row: nat)
    | Configure(rules: seq<Rule>)
    | Watch(lists: seq<Watchlist>)
    | Backfill(list: Watchlist, intel: IntelId)
    | Claim(w: nat)
    | DropContent(w: nat)
    | MarkOversized(w: nat)
    | Resume(w: nat)
    | Analyse(w: nat, payload: Payload)
    | SaveIntel(w: nat)
    | UpsertGraph(w: nat)
    | GraphDown(w: nat)
    | CountWaits(w: nat)
    | WriteWait(w: nat)
    | ReadRules(w: nat)
    | InsertAlert(w: nat)
    | Broadcast(w: nat)
    | ReadLists(w: nat)
    | EndAlerts(w: nat)
    | WriteSnapshot(w: nat)
    | FinishRow(w: nat)
    | RecordFailure(w: nat)
    | Crash(w: nat)

  predicate At(s: System, w: nat) {
    w < |s.workers| && s.workers[w].Busy? && s.workers[w].row < |s.world.rows|
  }

  /** The watchlist is, or was, among the stored ones. */
  predicate StoredList(o: World, list: Watchlist) {
    exists k :: 0 <= k < |o.listLog| && list in o.listLog[k]
  }

  predicate Enabled(cfg: Settings, s: System, e: Event) {
    match e
    case Tick(_) | Publish(_) | Sweep | Shutdown | Configure(_) | Watch(_) => true
    case Backfill(list, x) => StoredList(s.world, list) && x in s.world.intel && ListFires(list, s.world.intel[x])
    case Retry(i) => i < |s.world.rows| && s.world.rows[i].status == Exhausted
    case Claim(w) =>
      w < |s.workers| && s.workers[w].Idle? && FirstClaimable(cfg, s.world.rows, s.world.now).Some?
    case DropContent(w) => At(s, w) && s.workers[w].stage.Begin?
    case MarkOversized(w) => At(s, w) && s.workers[w].stage.Begin?
    case Resume(w) => At(s, w) && s.workers[w].stage.Begin? && Resumable(s.workers[w].doc, s.world.intel)
    case Analyse(w, p) =>
      At(s, w) && s.workers[w].stage.Begin? && !Resumable(s.workers[w].doc, s.world.intel) && p.ingest == s.workers[w].row
    case SaveIntel(w) => At(s, w) && s.workers[w].stage.Saving?
    case UpsertGraph(w) => At(s, w) && s.workers[w].stage.Graphing?
    case GraphDown(w) => At(s, w) && s.workers[w].stage.Graphing?
    case CountWaits(w) => At(s, w) && s.workers[w].stage.CountingWaits?
    case WriteWait(w) => At(s, w) && s.workers[w].stage.WritingWait?
    case ReadRules(w) => At(s, w) && s.workers[w].stage.Alerting? && s.world.ruleLog != []
    case InsertAlert(w) =>
      At(s, w) && s.workers[w].stage.Inserting? && s.workers[w].stage.loop.todo != []
    case Broadcast(w) => At(s, w) && s.workers[w].stage.Broadcasting?
    case ReadLists(w) =>
      At(s, w) && s.workers[w].stage.Inserting? && s.workers[w].stage.loop.todo == []
      && s.workers[w].stage.loop.lists.None? && s.world.listLog != []
    case EndAlerts(w) =>
      At(s, w) && s.workers[w].stage.Inserting? && s.workers[w].stage.loop.todo == []
      && s.workers[w].stage.loop.lists.Some?
    case WriteSnapshot(w) => At(s, w) && s.workers[w].stage.Snapshotting?
    case FinishRow(w) => At(s, w) && s.workers[w].stage.Finishing?
    case RecordFailure(w) => At(s, w) && !s.workers[w].stage.Broadcasting?
    case Crash(w) => w < |s.workers|
  }

  function SetRow(world: World, i: nat, r: Row): World
    requires i < |world.rows|
  {
    world.(rows := world.rows[i := r])
  }

  function Last<T>(s: seq<T>): T
    requires s != []
  {
    s[|s| - 1]
  }

  /** What an event does to the shared stores. */
  function NextWorld(cfg: Settings, s: System, e: Event): World
    requires Enabled(cfg, s, e)
  {
    var o := s.world;
    match e
    case Tick(dt) => o.(now := o.now + dt)
    case Publish(legacy) => o.(rows := o.rows + [if legacy then LEGACY else PUBLISHED])
    case Sweep => o.(rows := SweptRows(cfg, o.rows, o.now))
    case Shutdown => o.(rows := ReleasedRows(o.rows))
    case Retry(i) => SetRow(o, i, Retried(o.rows[i]))
    case Configure(rules) => o.(ruleLog := o.ruleLog + [rules])
    case Watch(lists) => o.(listLog := o.listLog + [lists])
    case Backfill(list, x) =>
      // one insert of `_backfill_watchlist`, which broadcasts nothing
      o.(alerts := o.alerts + {ListAlert(list, o.intel[x])})
    case Claim(w) =>
      var i := FirstClaimable(cfg, o.rows, o.now).value;
      SetRow(o, i, Claimed(cfg, o.rows[i], o.now))
    case DropContent(w) => SetRow(o, s.workers[w].row, Finished(o.rows[s.workers[w].row], true))
    case MarkOversized(w) => SetRow(o, s.workers[w].row, Oversized(o.rows[s.workers[w].row]))
    case SaveIntel(w) =>
      // insert_one; a DuplicateKeyError keeps the row that is there
      var p := s.workers[w].stage.payload;
      if IntelIdOf(p) in o.intel then o else o.(intel := o.intel[IntelIdOf(p) := p])
    case UpsertGraph(w) => o.(graph := o.graph + {IntelIdOf(s.workers[w].stage.payload)})
    case WriteWait(w) =>
      var p := s.workers[w].stage.payload;
      var i := s.workers[w].row;
      SetRow(o, i, WaitRecorded(o.rows[i], s.workers[w].stage.seen, IntelIdOf(p), o.now))
    case InsertAlert(w) => o.(alerts := o.alerts + {s.workers[w].stage.loop.todo[0]})
    case Broadcast(w) => o.(broadcasts := o.broadcasts + [s.workers[w].stage.alert])
    case EndAlerts(w) =>
      var st := s.workers[w].stage;
      o.(evaluations := o.evaluations + {Evaluation(st.payload, st.loop.rules, st.loop.lists.value)})
    case WriteSnapshot(w) =>
      // update_one on the intel row, which changes nothing when there is none
      var x := IntelIdOf(s.workers[w].stage.payload);
      if x in o.intel then o.(snapshots := o.snapshots + {x}) else o
    case FinishRow(w) => SetRow(o, s.workers[w].row, Finished(o.rows[s.workers[w].row], false))
    case RecordFailure(w) =>
      SetRow(o, s.workers[w].row, FailureRecorded(cfg, o.rows[s.workers[w].row], s.workers[w].doc.attempts))
    case _ => o
  }

  function ToStage(s: System, w: nat, stage: Stage): seq<Worker>
    requires At(s, w)
  {
    s.workers[w := s.workers[w].(stage := stage)]
  }

  /** What an event does to the workers. */
  function NextWorkers(cfg: Settings, s: System, e: Event): seq<Worker>
    requires Enabled(cfg, s, e)
  {
    match e
    case Claim(w) =>
      var i := FirstClaimable(cfg, s.world.rows, s.world.now).value;
      s.workers[w := Busy(i, Claimed(cfg, s.world.rows[i], s.world.now), Begin)]
    case MarkOversized(w) => ToStage(s, w, Marked)
    case Resume(w) => ToStage(s, w, Saving(s.world.intel[s.workers[w].doc.intelId.value]))
    case Analyse(w, p) => ToStage(s, w, Saving(p))
    case SaveIntel(w) => ToStage(s, w, Graphing(s.workers[w].stage.payload))
    case UpsertGraph(w) => ToStage(s, w, Alerting(s.workers[w].stage.payload))
    case GraphDown(w) => ToStage(s, w, CountingWaits(s.workers[w].stage.payload))
    case CountWaits(w) =>
      ToStage(s, w, WritingWait(s.workers[w].stage.payload, s.world.rows[s.workers[w].row].waits))
    case ReadRules(w) =>
      var p := s.workers[w].stage.payload;
      var rules := Last(s.world.ruleLog);
      ToStage(s, w, Inserting(p, Loop(rules, None, RuleAlerts(rules, p))))
    case InsertAlert(w) =>
      var st := s.workers[w].stage;
      var rest := st.loop.(todo := st.loop.todo[1..]);
      if st.loop.todo[0] in s.world.alerts
      then ToStage(s, w, Inserting(st.payload, rest))
      else ToStage(s, w, Broadcasting(st.payload, rest, st.loop.todo[0]))
    case Broadcast(w) =>
      // a broadcast that raises is logged and the loop goes on
      ToStage(s, w, Inserting(s.workers[w].stage.payload, s.workers[w].stage.loop))
    case ReadLists(w) =>
      var st := s.workers[w].stage;
      var lists := Last(s.world.listLog);
      ToStage(s, w, Inserting(st.payload, Loop(st.loop.rules, Some(lists), ListAlerts(ListsRead(lists), st.payload))))
    case EndAlerts(w) => ToStage(s, w, Snapshotting(s.workers[w].stage.payload))
    case WriteSnapshot(w) => ToStage(s, w, Finishing)
    case DropContent(w) => s.workers[w := Idle]
    case WriteWait(w) => s.workers[w := Idle]
    case FinishRow(w) => s.workers[w := Idle]
    case RecordFailure(w) => s.workers[w := Idle]
    case Crash(w) => s.workers[w := Idle]
    case _ => s.workers
  }

  function Apply(cfg: Settings, s: System, e: Event): System
    requires Enabled(cfg, s, e)
  {
    System(NextWorld(cfg, s, e), NextWorkers(cfg, s, e))
  }

  predicate Runnable(cfg: Settings, s: System, es: seq<Event>)
    decreases |es|
  {
    es == [] || (Enabled(cfg, s, es[0]) && Runnable(cfg, Apply(cfg, s, es[0]), es[1..]))
  }

  function Run(cfg: Settings, s: System, es: seq<Event>): System
    requires Runnable(cfg, s, es)
    decreases |es|
  {
    if es == [] then s else Run(cfg, Apply(cfg, s, es[0]), es[1..])
  }

  // --- what the stores promise -------------------------------------------------------------

  /** Every alert that a finished evaluation called for has a row, by configurations that were really stored. */
  ghost predicate Evaluated(o: World, v: Evaluation) {
    && (forall a :: a in RuleAlerts(v.rules, v.payload) ==> a in o.alerts)
    && (forall a :: a in ListAlerts(ListsRead(v.lists), v.payload) ==> a in o.alerts)
    && v.rules in o.ruleLog
    && v.lists in o.listLog
  }

  ghost predicate SnapshotDone(o: World, i: nat) {
    DerivedFrom(i) in o.intel && o.intel[DerivedFrom(i)].ingest == i && DerivedFrom(i) in o.snapshots
  }

  ghost predicate AlertsDone(o: World, i: nat) {
    exists v :: v in o.evaluations && v.payload.ingest == i && Evaluated(o, v)
  }

  /** All effects of record i: its intel row, graph upsert, alert evaluation and snapshot. */
  ghost predicate EffectsDone(o: World, i: nat) {
    SnapshotDone(o, i) && DerivedFrom(i) in o.graph && AlertsDone(o, i)
  }

  ghost predicate WorldOk(o: World) {
    && (forall x :: x in o.intel ==> DerivedFrom(o.intel[x].ingest) == x)
    && (forall i :: 0 <= i < |o.rows| && o.rows[i].intelId.Some? ==> o.rows[i].intelId.value == DerivedFrom(i))
    && (forall i :: 0 <= i < |o.rows| && o.rows[i].status == Completed ==> EffectsDone(o, i))
    && NoDup(o.broadcasts)
    && (forall a :: a in o.broadcasts ==> a in o.alerts)
    && (forall v :: v in o.evaluations ==> Evaluated(o, v))
  }

  /** Facts about a worker that no other worker can take away. */
  ghost predicate WorkerOk(o: World, w: Worker) {
    w.Busy? ==>
      && w.row < |o.rows|
      && (w.doc.intelId.Some? ==> w.doc.intelId.value == DerivedFrom(w.row))
      && StageOk(o, w.row, w.stage)
  }

  ghost predicate LoopOk(o: World, p: Payload, loop: Loop) {
    && loop.rules in o.ruleLog
    && (loop.lists.None? ==>
          forall a :: a in RuleAlerts(loop.rules, p) ==> a in o.alerts || a in loop.todo)
    && (loop.lists.Some? ==>
          && loop.lists.value in o.listLog
          && (forall a :: a in RuleAlerts(loop.rules, p) ==> a in o.alerts)
          && forall a :: a in ListAlerts(ListsRead(loop.lists.value), p) ==> a in o.alerts || a in loop.todo)
  }

  ghost predicate StageOk(o: World, i: nat, st: Stage) {
    match st
    case Begin | Marked => true
    case Saving(p) => p.ingest == i
    case Graphing(p) => p.ingest == i && DerivedFrom(i) in o.intel
    case CountingWaits(p) => p.ingest == i
    case WritingWait(p, _) => p.ingest == i
    case Alerting(p) => p.ingest == i && DerivedFrom(i) in o.intel && DerivedFrom(i) in o.graph
    case Inserting(p, loop) =>
      p.ingest == i && DerivedFrom(i) in o.intel && DerivedFrom(i) in o.graph && LoopOk(o, p, loop)
    case Broadcasting(p, loop, a) =>
      p.ingest == i && DerivedFrom(i) in o.intel && DerivedFrom(i) in o.graph && LoopOk(o, p, loop) && a in o.alerts
    case Snapshotting(p) =>
      p.ingest == i && DerivedFrom(i) in o.intel && DerivedFrom(i) in o.graph && AlertsDone(o, i)
    case Finishing => EffectsDone(o, i)
  }

  /** The alert a worker has inserted and is about to broadcast. */
  function Owed(w: Worker): Option<AlertId> {
    if w.Busy? && w.stage.Broadcasting? then Some(w.stage.alert) else None
  }

  /** An inserted alert that still waits for its broadcast has exactly one worker about to make it. */
  ghost predicate BroadcastsOwned(s: System) {
    && (forall w :: 0 <= w < |s.workers| && Owed(s.workers[w]).Some? ==>
          Owed(s.workers[w]).value !in s.world.broadcasts)
    && (forall v, w :: 0 <= v < w < |s.workers| && Owed(s.workers[v]).Some? ==>
          Owed(s.workers[v]) != Owed(s.workers[w]))
  }

  ghost predicate Ok(s: System) {
    && WorldOk(s.world)
    && (forall w :: 0 <= w < |s.workers| ==> WorkerOk(s.world, s.workers[w]))
    && BroadcastsOwned(s)
  }

  // --- stores only grow --------------------------------------------------------------------

  ghost predicate Grows(o: World, n: World) {
    && |o.rows| <= |n.rows|
    && (forall x :: x in o.intel ==> x in n.intel && n.intel[x] == o.intel[x])
    && o.graph <= n.graph
    && o.alerts <= n.alerts
    && o.snapshots <= n.snapshots
    && o.evaluations <= n.evaluations
    && (forall r :: r in o.ruleLog ==> r in n.ruleLog)
    && (forall l :: l in o.listLog ==> l in n.listLog)
  }

  lemma StepGrows(cfg: Settings, s: System, e: Event)
    requires Enabled(cfg, s, e)
    ensures Grows(s.world, NextWorld(cfg, s, e))
  {
    hide SweptRows, ReleasedRows, FirstClaimable, Resumable,
         Claimed, Finished, Oversized, FailureRecorded, WaitRecorded, Retried;
  }

  lemma EvaluatedGrows(o: World, n: World, v: Evaluation)
    requires Grows(o, n) && Evaluated(o, v)
    ensures Evaluated(n, v)
  {
  }

  lemma EffectsGrow(o: World, n: World, i: nat)
    requires Grows(o, n)
    ensures AlertsDone(o, i) ==> AlertsDone(n, i)
    ensures EffectsDone(o, i) ==> EffectsDone(n, i)
  {
    if AlertsDone(o, i) {
      var v :| v in o.evaluations && v.payload.ingest == i && Evaluated(o, v);
      EvaluatedGrows(o, n, v);
    }
  }

  lemma WorkerOkGrows(o: World, n: World, w: Worker)
    requires Grows(o, n) && WorkerOk(o, w)
    ensures WorkerOk(n, w)
  {
    if w.Busy? {
      EffectsGrow(o, n, w.row);
    }
  }

  // --- one step ----------------------------------------------------------------------------

  /** The worker that an event moves. */
  function Actor(e: Event): Option<nat> {
    match e
    case Tick(_) | Publish(_) | Sweep | Shutdown | Configure(_) | Watch(_) | Backfill(_, _) | Retry(_) => None
    case Claim(w) => Some(w)
    case DropContent(w) => Some(w)
    case MarkOversized(w) => Some(w)
    case Resume(w) => Some(w)
    case Analyse(w, _) => Some(w)
    case SaveIntel(w) => Some(w)
    case UpsertGraph(w) => Some(w)
    case GraphDown(w) => Some(w)
    case CountWaits(w) => Some(w)
    case WriteWait(w) => Some(w)
    case ReadRules(w) => Some(w)
    case InsertAlert(w) => Some(w)
    case Broadcast(w) => Some(w)
    case ReadLists(w) => Some(w)
    case EndAlerts(w) => Some(w)
    case WriteSnapshot(w) => Some(w)
    case FinishRow(w) => Some(w)
    case RecordFailure(w) => Some(w)
    case Crash(w) => Some(w)
  }

  lemma OnlyTheActorMoves(cfg: Settings, s: System, e: Event)
    requires Enabled(cfg, s, e)
    ensures |NextWorkers(cfg, s, e)| == |s.workers|
    ensures forall w :: 0 <= w < |s.workers| && Actor(e) != Some(w) ==>
              NextWorkers(cfg, s, e)[w] == s.workers[w]
  {
  }

  lemma ActorStaysOk(cfg: Settings, s: System, e: Event)
    requires Ok(s) && Enabled(cfg, s, e) && Actor(e).Some?
    ensures Actor(e).value < |s.workers|
    ensures WorkerOk(NextWorld(cfg, s, e), NextWorkers(cfg, s, e)[Actor(e).value])
  {
    var w := Actor(e).value;
    var n := NextWorld(cfg, s, e);
    StepGrows(cfg, s, e);
    match e {
      case EndAlerts(_) =>
        var st := s.workers[w].stage;
        var v := Evaluation(st.payload, st.loop.rules, st.loop.lists.value);
        assert v in n.evaluations && v.payload.ingest == s.workers[w].row && Evaluated(n, v);
      case WriteSnapshot(_) =>
        EffectsGrow(s.world, n, s.workers[w].row);
      case InsertAlert(_) =>
        var loop := s.workers[w].stage.loop;
        assert forall a :: a in loop.todo ==> a == loop.todo[0] || a in loop.todo[1..];
      case _ =>
    }
  }

  lemma WorldStaysOk(cfg: Settings, s: System, e: Event)
    requires Ok(s) && Enabled(cfg, s, e)
    ensures WorldOk(NextWorld(cfg, s, e))
  {
    var o, n := s.world, NextWorld(cfg, s, e);
    StepGrows(cfg, s, e);
    forall v | v in n.evaluations ensures Evaluated(n, v) {
      if v in o.evaluations { EvaluatedGrows(o, n, v); }
    }
    forall i | 0 <= i < |n.rows| && n.rows[i].status == Completed ensures EffectsDone(n, i) {
      CompletedOnlyWhenDone(cfg, s, e, i);
    }
    IdsStayRight(cfg, s, e);
    BroadcastsStayFresh(cfg, s, e);
  }

  lemma CompletedOnlyWhenDone(cfg: Settings, s: System, e: Event, i: nat)
    requires Ok(s) && Enabled(cfg, s, e)
    requires i < |NextWorld(cfg, s, e).rows| && NextWorld(cfg, s, e).rows[i].status == Completed
    ensures EffectsDone(NextWorld(cfg, s, e), i)
  {
    StepGrows(cfg, s, e);
    EffectsGrow(s.world, NextWorld(cfg, s, e), i);
    if !(i < |s.world.rows| && s.world.rows[i].status == Completed) {
      assert e.FinishRow? && s.workers[e.w].row == i;
    }
  }

  lemma IdsStayRight(cfg: Settings, s: System, e: Event)
    requires Ok(s) && Enabled(cfg, s, e)
    ensures var n := NextWorld(cfg, s, e);
            && (forall x :: x in n.intel ==> DerivedFrom(n.intel[x].ingest) == x)
            && (forall i :: 0 <= i < |n.rows| && n.rows[i].intelId.Some? ==> n.rows[i].intelId.value == DerivedFrom(i))
  {
  }

  lemma BroadcastsStayFresh(cfg: Settings, s: System, e: Event)
    requires Ok(s) && Enabled(cfg, s, e)
    ensures NoDup(NextWorld(cfg, s, e).broadcasts)
    ensures forall a :: a in NextWorld(cfg, s, e).broadcasts ==> a in NextWorld(cfg, s, e).alerts
  {
  }

  /** Only an insert that creates the row makes an alert owed, and only the broadcast pays it. */
  lemma DebtChanges(cfg: Settings, s: System, e: Event)
    requires Ok(s) && Enabled(cfg, s, e) && Actor(e).Some? && Actor(e).value < |s.workers|
    ensures var w := Actor(e).value;
            var before, after := Owed(s.workers[w]), Owed(NextWorkers(cfg, s, e)[w]);
            && (after.None? || (e.InsertAlert? && after.value !in s.world.alerts))
            && (e.Broadcast? ==> before.Some? && after.None?)
            && (e.Broadcast? ==> NextWorld(cfg, s, e).broadcasts == s.world.broadcasts + [before.value])
            && (!e.Broadcast? ==> NextWorld(cfg, s, e).broadcasts == s.world.broadcasts)
  {
  }

  lemma NobodyBroadcasts(cfg: Settings, s: System, e: Event)
    requires Enabled(cfg, s, e)
    ensures Actor(e).Some? ==> Actor(e).value < |s.workers|
    ensures Actor(e).None? ==> NextWorld(cfg, s, e).broadcasts == s.world.broadcasts
  {
  }

  lemma OwnershipStays(cfg: Settings, s: System, e: Event)
    requires Ok(s) && Enabled(cfg, s, e)
    ensures BroadcastsOwned(Apply(cfg, s, e))
  {
    hide Enabled, NextWorld, NextWorkers, Actor, EffectsDone, Evaluated, WorkerOk, Owed;
    OnlyTheActorMoves(cfg, s, e);
    NobodyBroadcasts(cfg, s, e);
    OwedAlertsHaveRows(s);
    if Actor(e).Some? {
      DebtChanges(cfg, s, e);
      OnlyOneOwes(s, Apply(cfg, s, e), Actor(e).value);
    }
  }

  /** One worker's debt changes as it may; the others keep theirs. */
  lemma OnlyOneOwes(s: System, t: System, a: nat)
    requires BroadcastsOwned(s) && a < |s.workers| && |t.workers| == |s.workers|
    requires forall w :: 0 <= w < |s.workers| && w != a ==> t.workers[w] == s.workers[w]
    requires forall w :: 0 <= w < |s.workers| && Owed(s.workers[w]).Some? ==> Owed(s.workers[w]).value in s.world.alerts
    requires forall b :: b in s.world.broadcasts ==> b in s.world.alerts
    requires Owed(t.workers[a]).None?
          || (Owed(t.workers[a]).value !in s.world.alerts && t.world.broadcasts == s.world.broadcasts)
    requires t.world.broadcasts == s.world.broadcasts
          || (Owed(s.workers[a]).Some? && Owed(t.workers[a]).None?
              && t.world.broadcasts == s.world.broadcasts + [Owed(s.workers[a]).value])
    ensures BroadcastsOwned(t)
  {
    hide Owed;
    forall w | 0 <= w < |t.workers| && Owed(t.workers[w]).Some?
      ensures Owed(t.workers[w]).value !in t.world.broadcasts
    {
      if w != a {
        assert Owed(s.workers[w]) != Owed(s.workers[a]) || Owed(s.workers[a]).None?;
      }
    }
  }

  lemma OwedAlertsHaveRows(s: System)
    requires Ok(s)
    ensures forall w :: 0 <= w < |s.workers| && Owed(s.workers[w]).Some? ==>
              Owed(s.workers[w]).value in s.world.alerts
  {
    forall w | 0 <= w < |s.workers| && Owed(s.workers[w]).Some?
      ensures Owed(s.workers[w]).value in s.world.alerts
    {
      assert WorkerOk(s.world, s.workers[w]);
    }
  }

  lemma StepKeepsOk(cfg: Settings, s: System, e: Event)
    requires Ok(s) && Enabled(cfg, s, e)
    ensures Ok(Apply(cfg, s, e))
  {
    WorldStaysOk(cfg, s, e);
    OwnershipStays(cfg, s, e);
    OnlyTheActorMoves(cfg, s, e);
    StepGrows(cfg, s, e);
    var t := Apply(cfg, s, e);
    forall w | 0 <= w < |t.workers| ensures WorkerOk(t.world, t.workers[w]) {
      if Actor(e) == Some(w) {
        ActorStaysOk(cfg, s, e);
      } else {
        WorkerOkGrows(s.world, t.world, s.workers[w]);
      }
    }
  }

  lemma {:induction false} RunKeepsOk(cfg: Settings, s: System, es: seq<Event>)
    requires Ok(s) && Runnable(cfg, s, es)
    ensures Ok(Run(cfg, s, es))
    decreases |es|
  {
    if es != [] {
      StepKeepsOk(cfg, s, es[0]);
      RunKeepsOk(cfg, Apply(cfg, s, es[0]), es[1..]);
    }
  }

  // --- over whole runs ---------------------------------------------------------------------

  ghost predicate Initial(s: System) {
    && s.world.rows == [] && s.world.intel == map[] && s.world.graph == {} && s.world.alerts == {}
    && s.world.broadcasts == [] && s.world.snapshots == {} && s.world.evaluations == {}
    && forall w :: 0 <= w < |s.workers| ==> s.workers[w] == Idle
  }

  /** How often an alert id was broadcast. */
  function Times(a: AlertId, log: seq<AlertId>): nat {
    multiset(log)[a]
  }

  lemma {:induction false} AtMostOnce(log: seq<AlertId>, a: AlertId)
    requires NoDup(log)
    ensures Times(a, log) <= 1
    ensures Times(a, log) == 1 <==> a in log
  {
    if log != [] {
      assert log == [log[0]] + log[1..];
      AtMostOnce(log[1..], a);
    }
  }

  /**
   Any number of workers, any interleaving, crashes anywhere: one intel row per record, at most
   one broadcast per alert id and only for alerts that have a row, and a completed record has had
   all of its effects.
   */
  lemma EffectsHappenOnce(cfg: Settings, s: System, es: seq<Event>)
    requires Initial(s) && Runnable(cfg, s, es)
    ensures var o := Run(cfg, s, es).world;
            && (forall x, y :: x in o.intel && y in o.intel && o.intel[x].ingest == o.intel[y].ingest ==> x == y)
            && (forall a :: Times(a, o.broadcasts) <= 1 && (Times(a, o.broadcasts) == 1 ==> a in o.alerts))
            && (forall i :: 0 <= i < |o.rows| && o.rows[i].status == Completed ==> EffectsDone(o, i))
  {
    assert Ok(s);
    RunKeepsOk(cfg, s, es);
    var o := Run(cfg, s, es).world;
    forall a ensures Times(a, o.broadcasts) <= 1 && (Times(a, o.broadcasts) == 1 ==> a in o.alerts) {
      AtMostOnce(o.broadcasts, a);
    }
  }

  // --- when no alert goes unannounced ------------------------------------------------------

  /** Every alert row has been broadcast or has a worker about to broadcast it. */
  ghost predicate NoneUnannounced(s: System) {
    forall a :: a in s.world.alerts ==>
      a in s.world.broadcasts || exists w :: 0 <= w < |s.workers| && Owed(s.workers[w]) == Some(a)
  }

  /**
   A worker dies after it inserted an alert row and before it broadcast it, or a watchlist is
   created or changed and its backfill is the first to insert the row.
   */
  predicate Silences(s: System, e: Event) {
    || (e.Crash? && e.w < |s.workers| && Owed(s.workers[e.w]).Some?)
    || (e.Backfill? && e.intel in s.world.intel && ListAlert(e.list, s.world.intel[e.intel]) !in s.world.alerts)
  }

  /** The alert that such an event silences. */
  function SilencedBy(s: System, e: Event): AlertId
    requires Silences(s, e)
  {
    if e.Crash? then Owed(s.workers[e.w]).value else ListAlert(e.list, s.world.intel[e.intel])
  }

  /** The alert has its row, was never broadcast, and nobody is about to broadcast it. */
  ghost predicate Silent(s: System, a: AlertId) {
    a in s.world.alerts && a !in s.world.broadcasts
    && forall w :: 0 <= w < |s.workers| ==> Owed(s.workers[w]) != Some(a)
  }

  lemma SilencedIsSilent(cfg: Settings, s: System, e: Event)
    requires Ok(s) && Enabled(cfg, s, e) && Silences(s, e)
    ensures Silent(Apply(cfg, s, e), SilencedBy(s, e))
  {
    var t, a := Apply(cfg, s, e), SilencedBy(s, e);
    OnlyTheActorMoves(cfg, s, e);
    OwedAlertsHaveRows(s);
    forall w | 0 <= w < |t.workers| ensures Owed(t.workers[w]) != Some(a) {
      if e.Crash? && w != e.w { assert Owed(s.workers[w]) != Some(a); }
    }
  }

  /** For each single step, an alert goes unannounced exactly when the step silences one. */
  lemma SilencesExactly(cfg: Settings, s: System, e: Event)
    requires Ok(s) && Enabled(cfg, s, e) && NoneUnannounced(s)
    ensures NoneUnannounced(Apply(cfg, s, e)) <==> !Silences(s, e)
  {
    var t := Apply(cfg, s, e);
    if Silences(s, e) {
      SilencedIsSilent(cfg, s, e);
    } else {
      forall a | a in t.world.alerts
        ensures a in t.world.broadcasts || exists w :: 0 <= w < |t.workers| && Owed(t.workers[w]) == Some(a)
      {
        StillAnnounced(cfg, s, e, a);
      }
    }
  }

  lemma StillAnnounced(cfg: Settings, s: System, e: Event, a: AlertId)
    requires Ok(s) && Enabled(cfg, s, e) && NoneUnannounced(s) && !Silences(s, e)
    requires a in NextWorld(cfg, s, e).alerts
    ensures var t := Apply(cfg, s, e);
            a in t.world.broadcasts || exists w :: 0 <= w < |t.workers| && Owed(t.workers[w]) == Some(a)
  {
    var t := Apply(cfg, s, e);
    OnlyTheActorMoves(cfg, s, e);
    if a !in s.world.alerts {
      assert e.InsertAlert? && Owed(t.workers[e.w]) == Some(a);
    } else if a in s.world.broadcasts {
      assert forall b :: b in s.world.broadcasts ==> b in t.world.broadcasts;
    } else {
      var w :| 0 <= w < |s.workers| && Owed(s.workers[w]) == Some(a);
      if Actor(e) == Some(w) {
        assert e.Broadcast? && a in t.world.broadcasts;
      } else {
        assert Owed(t.workers[w]) == Some(a);
      }
    }
  }

  predicate SilencedSomewhere(cfg: Settings, s: System, es: seq<Event>)
    requires Runnable(cfg, s, es)
    decreases |es|
  {
    es != [] && (Silences(s, es[0]) || SilencedSomewhere(cfg, Apply(cfg, s, es[0]), es[1..]))
  }

  lemma StepKeepsSilent(cfg: Settings, s: System, e: Event, a: AlertId)
    requires Ok(s) && Enabled(cfg, s, e) && Silent(s, a)
    ensures Silent(Apply(cfg, s, e), a)
  {
    var t := Apply(cfg, s, e);
    OnlyTheActorMoves(cfg, s, e);
    StepGrows(cfg, s, e);
    if Actor(e).Some? {
      assert Actor(e).value < |s.workers|;
      DebtChanges(cfg, s, e);
    }
    forall w | 0 <= w < |t.workers| ensures Owed(t.workers[w]) != Some(a) {
      if Actor(e) != Some(w) { assert Owed(s.workers[w]) != Some(a); }
    }
  }

  /** Nothing that any worker does later announces a silent alert. */
  lemma {:induction false} SilentForEver(cfg: Settings, s: System, es: seq<Event>, a: AlertId)
    requires Ok(s) && Runnable(cfg, s, es) && Silent(s, a)
    ensures Silent(Run(cfg, s, es), a)
    decreases |es|
  {
    if es != [] {
      StepKeepsSilent(cfg, s, es[0], a);
      StepKeepsOk(cfg, s, es[0]);
      SilentForEver(cfg, Apply(cfg, s, es[0]), es[1..], a);
    }
  }

  /** Over whole runs: some alert ends up silent exactly when one was silenced on the way. */
  lemma {:induction false} SilentExactlyWhenSilenced(cfg: Settings, s: System, es: seq<Event>)
    requires Ok(s) && NoneUnannounced(s) && Runnable(cfg, s, es)
    ensures NoneUnannounced(Run(cfg, s, es)) <==> !SilencedSomewhere(cfg, s, es)
    decreases |es|
  {
    if es != [] {
      var next := Apply(cfg, s, es[0]);
      SilencesExactly(cfg, s, es[0]);
      StepKeepsOk(cfg, s, es[0]);
      if Silences(s, es[0]) {
        SilencedIsSilent(cfg, s, es[0]);
        SilentForEver(cfg, next, es[1..], SilencedBy(s, es[0]));
        assert Silent(Run(cfg, next, es[1..]), SilencedBy(s, es[0]));
      } else {
        SilentExactlyWhenSilenced(cfg, next, es[1..]);
      }
    }
  }

  /** At rest, every alert row was broadcast exactly once if and only if none was silenced. */
  lemma AnnouncedExactlyOnce(cfg: Settings, s: System, es: seq<Event>)
    requires Ok(s) && NoneUnannounced(s) && Runnable(cfg, s, es)
    requires forall w :: 0 <= w < |Run(cfg, s, es).workers| ==> Run(cfg, s, es).workers[w].Idle?
    ensures var end := Run(cfg, s, es).world;
            (forall a :: a in end.alerts ==> Times(a, end.broadcasts) == 1) <==> !SilencedSomewhere(cfg, s, es)
  {
    RunKeepsOk(cfg, s, es);
    SilentExactlyWhenSilenced(cfg, s, es);
    var end := Run(cfg, s, es);
    forall a ensures Times(a, end.world.broadcasts) == 1 <==> a in end.world.broadcasts {
      AtMostOnce(end.world.broadcasts, a);
    }
    assert NoneUnannounced(end) <==> forall a :: a in end.world.alerts ==> a in end.world.broadcasts;
  }

  lemma OneEvent(cfg: Settings, s: System, e: Event, rest: seq<Event>)
    requires Enabled(cfg, s, e) && Runnable(cfg, Apply(cfg, s, e), rest)
    ensures Runnable(cfg, s, [e] + rest) && Run(cfg, s, [e] + rest) == Run(cfg, Apply(cfg, s, e), rest)
  {
    assert ([e] + rest)[1..] == rest;
  }

  const BLANK := World([], map[], {}, {}, [], {}, [], [], {}, 0)

  lemma NoEvents(cfg: Settings, s: System)
    ensures Runnable(cfg, s, []) && Run(cfg, s, []) == s
  {
  }

  const ANY_RULE := Rule("any", true, 0.0, {}, {})
  const RECORD := Payload(0, 1.0, {}, "", "term")

  /** One worker that has processed the only record up to its alerts; one rule without conditions. */
  function Evaluating(): System {
    var row := Claimed(Settings(1, 900), PUBLISHED, 0);
    System(BLANK.(rows := [row], intel := map[DerivedFrom(0) := RECORD], graph := {DerivedFrom(0)}, ruleLog := [[ANY_RULE]]),
           [Busy(0, row, Alerting(RECORD))])
  }

  /** The worker has just claimed the record. */
  function JustClaimed(): System {
    var row := Claimed(Settings(1, 900), PUBLISHED, 0);
    System(BLANK.(rows := [row], ruleLog := [[ANY_RULE]]), [Busy(0, row, Begin)])
  }

  lemma ReachesClaimed() returns (es: seq<Event>)
    ensures Runnable(Settings(1, 900), System(BLANK, [Idle]), es)
    ensures Run(Settings(1, 900), System(BLANK, [Idle]), es) == JustClaimed()
    ensures forall e :: e in es ==> !e.Crash?
  {
    hide Run, Runnable;
    var cfg := Settings(1, 900);
    var s0 := System(BLANK, [Idle]);
    var s1 := Apply(cfg, s0, Configure([ANY_RULE]));
    var s2 := Apply(cfg, s1, Publish(false));
    assert FirstClaimable(cfg, s2.world.rows, 0) == Some(0);
    var s3 := Apply(cfg, s2, Event.Claim(0));
    assert s3 == JustClaimed();
    es := [];
    NoEvents(cfg, s3);
    OneEvent(cfg, s2, Event.Claim(0), es); es := [Event.Claim(0)] + es;
    OneEvent(cfg, s1, Publish(false), es); es := [Publish(false)] + es;
    OneEvent(cfg, s0, Configure([ANY_RULE]), es); es := [Configure([ANY_RULE])] + es;
  }

  lemma ReachesEvaluating() returns (es: seq<Event>)
    ensures Runnable(Settings(1, 900), JustClaimed(), es)
    ensures Run(Settings(1, 900), JustClaimed(), es) == Evaluating()
    ensures forall e :: e in es ==> !e.Crash?
  {
    hide Run, Runnable;
    var cfg := Settings(1, 900);
    var s3 := JustClaimed();
    var s4 := Apply(cfg, s3, Analyse(0, RECORD));
    var s5 := Apply(cfg, s4, SaveIntel(0));
    var s6 := Apply(cfg, s5, UpsertGraph(0));
    assert s6 == Evaluating();
    es := [];
    NoEvents(cfg, s6);
    OneEvent(cfg, s5, UpsertGraph(0), es); es := [UpsertGraph(0)] + es;
    OneEvent(cfg, s4, SaveIntel(0), es); es := [SaveIntel(0)] + es;
    OneEvent(cfg, s3, Analyse(0, RECORD), es); es := [Analyse(0, RECORD)] + es;
  }

  /** There the worker inserts its alert and dies. */
  lemma SilencedInEvaluation() returns (es: seq<Event>)
    ensures Runnable(Settings(1, 900), Evaluating(), es)
    ensures Silent(Run(Settings(1, 900), Evaluating(), es), RuleAlert(ANY_RULE, RECORD))
  {
    hide Run, Runnable;
    var cfg, a := Settings(1, 900), RuleAlert(ANY_RULE, RECORD);
    var s6 := Evaluating();
    var s7 := Apply(cfg, s6, ReadRules(0));
    assert RuleAlerts([ANY_RULE], RECORD) == [a] + RuleAlerts([], RECORD);
    assert s7.workers[0].stage.loop.todo == [a];
    var s8 := Apply(cfg, s7, InsertAlert(0));
    var s9 := Apply(cfg, s8, Event.Crash(0));
    assert Silent(s9, a);
    es := [];
    NoEvents(cfg, s9);
    OneEvent(cfg, s8, Event.Crash(0), es); es := [Event.Crash(0)] + es;
    OneEvent(cfg, s7, InsertAlert(0), es); es := [InsertAlert(0)] + es;
    OneEvent(cfg, s6, ReadRules(0), es); es := [ReadRules(0)] + es;
  }

  lemma {:induction false} RunAppend(cfg: Settings, s: System, a: seq<Event>, b: seq<Event>)
    requires Runnable(cfg, s, a) && Runnable(cfg, Run(cfg, s, a), b)
    ensures Runnable(cfg, s, a + b) && Run(cfg, s, a + b) == Run(cfg, Run(cfg, s, a), b)
    decreases |a|
  {
    if a == [] {
      assert a + b == b;
    } else {
      assert (a + b)[1..] == a[1..] + b;
      RunAppend(cfg, Apply(cfg, s, a[0]), a[1..], b);
    }
  }

  /** So a run from the very beginning leaves an alert row that nobody will ever hear of. */
  lemma SilencedAlert() returns (es: seq<Event>)
    ensures var s := System(BLANK, [Idle]);
            && Initial(s) && Runnable(Settings(1, 900), s, es)
            && Silent(Run(Settings(1, 900), s, es), RuleAlert(ANY_RULE, RECORD))
  {
    hide Run, Runnable, Silent, JustClaimed, Evaluating;
    var cfg, start := Settings(1, 900), System(BLANK, [Idle]);
    var first := ReachesClaimed();
    var second := ReachesEvaluating();
    var third := SilencedInEvaluation();
    RunAppend(cfg, start, first, second);
    RunAppend(cfg, start, first + second, third);
    es := first + second + third;
  }

  const ANY_LIST := Watchlist("list", true, {"term"})

  /** While the worker is in front of its alerts, a matching watchlist is created, and its backfill inserts the alert. */
  lemma BackfilledInEvaluation() returns (es: seq<Event>)
    ensures Runnable(Settings(1, 900), Evaluating(), es) && forall e :: e in es ==> !e.Crash?
    ensures Silent(Run(Settings(1, 900), Evaluating(), es), ListAlert(ANY_LIST, RECORD))
  {
    hide Run, Runnable, ListFires;
    var cfg, s0 := Settings(1, 900), Evaluating();
    AnyListFires();
    var s1 := Apply(cfg, s0, Watch([ANY_LIST]));
    assert s1.world.listLog == [[ANY_LIST]] && ANY_LIST in s1.world.listLog[0];
    var s2 := Apply(cfg, s1, Backfill(ANY_LIST, DerivedFrom(0)));
    assert Silent(s2, ListAlert(ANY_LIST, RECORD));
    es := [];
    NoEvents(cfg, s2);
    OneEvent(cfg, s1, Backfill(ANY_LIST, DerivedFrom(0)), es); es := [Backfill(ANY_LIST, DerivedFrom(0))] + es;
    OneEvent(cfg, s0, Watch([ANY_LIST]), es); es := [Watch([ANY_LIST])] + es;
  }

  /** So a run from the very beginning, in which nobody dies, leaves an alert that nobody will ever hear of. */
  lemma SilencedByBackfill() returns (es: seq<Event>)
    ensures var s := System(BLANK, [Idle]);
            && Initial(s) && Runnable(Settings(1, 900), s, es) && (forall e :: e in es ==> !e.Crash?)
            && Silent(Run(Settings(1, 900), s, es), ListAlert(ANY_LIST, RECORD))
  {
    hide Run, Runnable, Silent, JustClaimed, Evaluating;
    var cfg, start := Settings(1, 900), System(BLANK, [Idle]);
    var first := ReachesClaimed();
    var second := ReachesEvaluating();
    var third := BackfilledInEvaluation();
    RunAppend(cfg, start, first, second);
    RunAppend(cfg, start, first + second, third);
    es := first + second + third;
  }

  lemma AnyListFires()
    ensures ListFires(ANY_LIST, RECORD)
  {
    assert Lower("term") == "term" && Strip("term") == "term" by {
      assert "term"[1..] == "erm" && "erm"[1..] == "rm" && "rm"[1..] == "m" && "m"[1..] == "";
      assert Lower("m") == "m" && Lower("rm") == "rm" && Lower("erm") == "erm";
    }
    assert StandsAt("term", "term", 0);
  }
}
