/**
 `_process_doc` as one call (module Processor) against the machine of interleaved workers (module
 Effects): whatever a call makes of the stores, a run of one worker's steps makes of them, so what
 holds over all runs of the machine holds of the calls.
 */
module Refinement {
  import opened Common
  import opened Queue
  import opened Alerts
  import opened Processor
  import E = Effects

  function StoresOf(o: E.World): Stores {
    Stores(o.rows, o.intel, o.graph, o.alerts, o.broadcasts, o.snapshots)
  }

  /** t is s but for the stores and the worker w. */
  predicate Matches(t: E.System, s: E.System, w: nat, n: Stores, worker: E.Worker) {
    && w < |s.workers| && t.workers == s.workers[w := worker] && StoresOf(t.world) == n
    && t.world.ruleLog == s.world.ruleLog && t.world.listLog == s.world.listLog && t.world.now == s.world.now
  }

  /** Steps of worker w alone lead from s to a system with these stores, where w is at this point. */
  ghost predicate Reached(cfg: Settings, s: E.System, w: nat, n: Stores, worker: E.Worker) {
    exists es :: ByWorker(cfg, s, w, es) && Matches(E.Run(cfg, s, es), s, w, n, worker)
  }

  ghost predicate ByWorker(cfg: Settings, s: E.System, w: nat, es: seq<E.Event>) {
    E.Runnable(cfg, s, es) && forall e :: e in es ==> E.Actor(e) == Some(w)
  }

  lemma ReachedAtOnce(cfg: Settings, s: E.System, w: nat)
    requires w < |s.workers|
    ensures Reached(cfg, s, w, StoresOf(s.world), s.workers[w])
  {
    assert ByWorker(cfg, s, w, []) && E.Run(cfg, s, []) == s;
    assert s.workers[w := s.workers[w]] == s.workers;
  }

  /** One more step, which must do the same wherever the stores and the worker are as described. */
  lemma OneStep(cfg: Settings, s: E.System, w: nat, n: Stores, worker: E.Worker, e: E.Event, n': Stores, worker': E.Worker)
    requires Reached(cfg, s, w, n, worker) && E.Actor(e) == Some(w)
    requires forall t :: Matches(t, s, w, n, worker) ==>
               E.Enabled(cfg, t, e) && Matches(E.Apply(cfg, t, e), s, w, n', worker')
    ensures Reached(cfg, s, w, n', worker')
  {
    hide Matches;
    var es :| ByWorker(cfg, s, w, es) && Matches(E.Run(cfg, s, es), s, w, n, worker);
    var t := E.Run(cfg, s, es);
    E.NoEvents(cfg, E.Apply(cfg, t, e));
    E.OneEvent(cfg, t, e, []);
    assert [e] + [] == [e];
    E.RunAppend(cfg, s, es, [e]);
    assert ByWorker(cfg, s, w, es + [e]);
  }

  // --- the statements of a call, one by one ----------------------------------------------------------

  /** The call is over after an exception. */
  function Handled(cfg: Settings, n: Stores, i: nat, doc: Row, handlerUp: bool): Stores
    requires i < |n.rows|
  {
    if handlerUp then n.(rows := n.rows[i := FailureRecorded(cfg, n.rows[i], doc.attempts)]) else n
  }

  lemma Raise(cfg: Settings, s: E.System, w: nat, n: Stores, i: nat, doc: Row, stage: E.Stage, handlerUp: bool)
    requires Reached(cfg, s, w, n, E.Busy(i, doc, stage)) && i < |n.rows| && !stage.Broadcasting?
    ensures Reached(cfg, s, w, Handled(cfg, n, i, doc, handlerUp), E.Idle)
  {
    var worker := E.Busy(i, doc, stage);
    var e := if handlerUp then E.RecordFailure(w) else E.Event.Crash(w);
    forall t | Matches(t, s, w, n, worker)
      ensures E.Enabled(cfg, t, e) && Matches(E.Apply(cfg, t, e), s, w, Handled(cfg, n, i, doc, handlerUp), E.Idle)
    {
    }
    OneStep(cfg, s, w, n, worker, e, Handled(cfg, n, i, doc, handlerUp), E.Idle);
  }

  /** The alert has its row already: the insert is refused and the loop goes on. */
  lemma InsertKnown(cfg: Settings, s: E.System, w: nat, n: Stores, i: nat, doc: Row, p: Payload, loop: E.Loop)
    requires Reached(cfg, s, w, n, E.Busy(i, doc, E.Inserting(p, loop))) && i < |n.rows|
    requires loop.todo != [] && loop.todo[0] in n.alerts
    ensures Reached(cfg, s, w, n, E.Busy(i, doc, E.Inserting(p, loop.(todo := loop.todo[1..]))))
  {
    var worker, after := E.Busy(i, doc, E.Inserting(p, loop)), E.Busy(i, doc, E.Inserting(p, loop.(todo := loop.todo[1..])));
    assert n.alerts + {loop.todo[0]} == n.alerts;
    forall t | Matches(t, s, w, n, worker)
      ensures E.Enabled(cfg, t, E.InsertAlert(w)) && Matches(E.Apply(cfg, t, E.InsertAlert(w)), s, w, n, after)
    {
    }
    OneStep(cfg, s, w, n, worker, E.InsertAlert(w), n, after);
  }

  /** The insert creates the row: the worker owes the broadcast. */
  lemma InsertNew(cfg: Settings, s: E.System, w: nat, n: Stores, i: nat, doc: Row, p: Payload, loop: E.Loop)
    requires Reached(cfg, s, w, n, E.Busy(i, doc, E.Inserting(p, loop))) && i < |n.rows|
    requires loop.todo != [] && loop.todo[0] !in n.alerts
    ensures Reached(cfg, s, w, n.(alerts := n.alerts + {loop.todo[0]}),
                    E.Busy(i, doc, E.Broadcasting(p, loop.(todo := loop.todo[1..]), loop.todo[0])))
  {
    var worker := E.Busy(i, doc, E.Inserting(p, loop));
    var inserted := n.(alerts := n.alerts + {loop.todo[0]});
    var owing := E.Busy(i, doc, E.Broadcasting(p, loop.(todo := loop.todo[1..]), loop.todo[0]));
    forall t | Matches(t, s, w, n, worker)
      ensures E.Enabled(cfg, t, E.InsertAlert(w)) && Matches(E.Apply(cfg, t, E.InsertAlert(w)), s, w, inserted, owing)
    {
    }
    OneStep(cfg, s, w, n, worker, E.InsertAlert(w), inserted, owing);
  }

  lemma PayBroadcast(cfg: Settings, s: E.System, w: nat, n: Stores, i: nat, doc: Row, p: Payload, loop: E.Loop, id: AlertId)
    requires Reached(cfg, s, w, n, E.Busy(i, doc, E.Broadcasting(p, loop, id))) && i < |n.rows|
    ensures Reached(cfg, s, w, n.(broadcasts := n.broadcasts + [id]), E.Busy(i, doc, E.Inserting(p, loop)))
  {
    var owing, after := E.Busy(i, doc, E.Broadcasting(p, loop, id)), E.Busy(i, doc, E.Inserting(p, loop));
    var announced := n.(broadcasts := n.broadcasts + [id]);
    forall t | Matches(t, s, w, n, owing)
      ensures E.Enabled(cfg, t, E.Broadcast(w)) && Matches(E.Apply(cfg, t, E.Broadcast(w)), s, w, announced, after)
    {
    }
    OneStep(cfg, s, w, n, owing, E.Broadcast(w), announced, after);
  }

  lemma InsertOne(cfg: Settings, s: E.System, w: nat, n: Stores, i: nat, doc: Row, p: Payload, loop: E.Loop)
    requires Reached(cfg, s, w, n, E.Busy(i, doc, E.Inserting(p, loop))) && i < |n.rows| && loop.todo != []
    ensures Reached(cfg, s, w, Alerted(n, loop.todo[..1]), E.Busy(i, doc, E.Inserting(p, loop.(todo := loop.todo[1..]))))
  {
    hide Reached, Alerted;
    var id, rest := loop.todo[0], loop.(todo := loop.todo[1..]);
    assert loop.todo[..1] == [id];
    AlertedByOne(n, id);
    if id in n.alerts {
      InsertKnown(cfg, s, w, n, i, doc, p, loop);
    } else {
      InsertNew(cfg, s, w, n, i, doc, p, loop);
      PayBroadcast(cfg, s, w, n.(alerts := n.alerts + {id}), i, doc, p, rest, id);
    }
  }

  lemma {:induction false} InsertMany(
    cfg: Settings, s: E.System, w: nat, n: Stores, i: nat, doc: Row, p: Payload, loop: E.Loop, k: nat)
    requires Reached(cfg, s, w, n, E.Busy(i, doc, E.Inserting(p, loop))) && i < |n.rows| && k <= |loop.todo|
    ensures Reached(cfg, s, w, Alerted(n, loop.todo[..k]), E.Busy(i, doc, E.Inserting(p, loop.(todo := loop.todo[k..]))))
    decreases k
  {
    if k == 0 {
      AlertedByNone(n);
      assert loop.todo[..0] == [] && loop.todo[0..] == loop.todo;
    } else {
      hide Reached;
      InsertOne(cfg, s, w, n, i, doc, p, loop);
      var rest := loop.(todo := loop.todo[1..]);
      InsertMany(cfg, s, w, Alerted(n, loop.todo[..1]), i, doc, p, rest, k - 1);
      AlertedAppend(n, loop.todo[..1], rest.todo[..k - 1]);
      assert loop.todo[..k] == loop.todo[..1] + rest.todo[..k - 1] && rest.todo[k - 1..] == loop.todo[k..];
    }
  }

  // --- a whole call ------------------------------------------------------------------------------------

  predicate Configured(s: E.System, rules: seq<Rule>, lists: seq<Watchlist>) {
    && s.world.ruleLog != [] && E.Last(s.world.ruleLog) == rules
    && s.world.listLog != [] && E.Last(s.world.listLog) == lists
  }

  /** The evaluation stops at or before its second read. */
  lemma StopInRules(
    cfg: Settings, s: E.System, w: nat, n: Stores, i: nat, doc: Row, p: Payload,
    rules: seq<Rule>, lists: seq<Watchlist>, k: nat, handlerUp: bool)
    requires i < |n.rows| && k <= |RuleAlerts(rules, p)|
    requires Reached(cfg, s, w, n, E.Busy(i, doc, E.Inserting(p, E.Loop(rules, None, RuleAlerts(rules, p)))))
    ensures Reached(cfg, s, w, Handled(cfg, Alerted(n, AlertsFor(rules, lists, p)[..k]), i, doc, handlerUp), E.Idle)
  {
    hide Reached, Alerted, RuleAlerts, ListAlerts, ListsRead;
    var first, second := RuleAlerts(rules, p), ListAlerts(ListsRead(lists), p);
    var start := E.Loop(rules, None, first);
    InsertMany(cfg, s, w, n, i, doc, p, start, k);
    TakeOfAppend(first, second, k);
    AlertedKeeps(n, first[..k]);
    Raise(cfg, s, w, Alerted(n, first[..k]), i, doc, E.Inserting(p, start.(todo := first[k..])), handlerUp);
  }

  /** The first loop is done, the watchlists are read, and k of their alerts are inserted. */
  lemma ReachLists(
    cfg: Settings, s: E.System, w: nat, n: Stores, i: nat, doc: Row, p: Payload,
    rules: seq<Rule>, lists: seq<Watchlist>, k: nat)
    requires Configured(s, rules, lists) && i < |n.rows| && k <= |ListAlerts(ListsRead(lists), p)|
    requires Reached(cfg, s, w, n, E.Busy(i, doc, E.Inserting(p, E.Loop(rules, None, RuleAlerts(rules, p)))))
    ensures Reached(cfg, s, w, Alerted(n, AlertsFor(rules, lists, p)[..|RuleAlerts(rules, p)| + k]),
                    E.Busy(i, doc, E.Inserting(p, E.Loop(rules, Some(lists), ListAlerts(ListsRead(lists), p)[k..]))))
  {
    hide Reached, Alerted, RuleAlerts, ListAlerts, ListsRead, Configured;
    var first, second := RuleAlerts(rules, p), ListAlerts(ListsRead(lists), p);
    InsertMany(cfg, s, w, n, i, doc, p, E.Loop(rules, None, first), |first|);
    assert first[..|first|] == first && first[|first|..] == [];
    AlertedKeeps(n, first);
    StartLists(cfg, s, w, Alerted(n, first), i, doc, p, rules, lists);
    InsertMany(cfg, s, w, Alerted(n, first), i, doc, p, E.Loop(rules, Some(lists), second), k);
    AlertedAppend(n, first, second[..k]);
    TakeOfAppend(first, second, |first| + k);
  }

  lemma AlertedKeeps(o: Stores, ids: seq<AlertId>)
    ensures Alerted(o, ids).rows == o.rows && Alerted(o, ids).intel == o.intel
    ensures Alerted(o, ids).graph == o.graph && Alerted(o, ids).snapshots == o.snapshots
  {
  }

  /** The evaluation of the alerts ends in front of the snapshot, or the call is over. */
  lemma Evaluate(
    cfg: Settings, s: E.System, w: nat, n: Stores, i: nat, doc: Row, p: Payload,
    rules: seq<Rule>, lists: seq<Watchlist>, c: Conditions)
    requires Configured(s, rules, lists) && i < |n.rows|
    requires Reached(cfg, s, w, n, E.Busy(i, doc, E.Alerting(p)))
    ensures var m := Alerted(n, AlertsReached(c.fault, rules, lists, p));
            if EvaluationFails(c.fault, rules, lists, p)
            then Reached(cfg, s, w, Handled(cfg, m, i, doc, c.handlerUp), E.Idle)
            else Reached(cfg, s, w, m, E.Busy(i, doc, E.Snapshotting(p)))
  {
    hide Reached, Alerted, RuleAlerts, ListAlerts, ListsRead, Configured;
    var first, second := RuleAlerts(rules, p), ListAlerts(ListsRead(lists), p);
    StartRules(cfg, s, w, n, i, doc, p, rules, lists);
    if EvaluationFails(c.fault, rules, lists, p) && c.fault.raised <= |first| {
      StopInRules(cfg, s, w, n, i, doc, p, rules, lists, c.fault.raised, c.handlerUp);
    } else {
      var k := if EvaluationFails(c.fault, rules, lists, p) then c.fault.raised - |first| else |second|;
      var m := Alerted(n, AlertsFor(rules, lists, p)[..|first| + k]);
      ReachLists(cfg, s, w, n, i, doc, p, rules, lists, k);
      AlertedKeeps(n, AlertsFor(rules, lists, p)[..|first| + k]);
      TakeOfAppend(first, second, |first| + k);
      if EvaluationFails(c.fault, rules, lists, p) {
        Raise(cfg, s, w, m, i, doc, E.Inserting(p, E.Loop(rules, Some(lists), second[k..])), c.handlerUp);
      } else {
        assert second[k..] == [];
        EndEvaluation(cfg, s, w, m, i, doc, p, rules, lists);
      }
    }
  }

  lemma StartRules(
    cfg: Settings, s: E.System, w: nat, n: Stores, i: nat, doc: Row, p: Payload, rules: seq<Rule>, lists: seq<Watchlist>)
    requires Configured(s, rules, lists) && i < |n.rows|
    requires Reached(cfg, s, w, n, E.Busy(i, doc, E.Alerting(p)))
    ensures Reached(cfg, s, w, n, E.Busy(i, doc, E.Inserting(p, E.Loop(rules, None, RuleAlerts(rules, p)))))
  {
    var worker := E.Busy(i, doc, E.Alerting(p));
    var after := E.Busy(i, doc, E.Inserting(p, E.Loop(rules, None, RuleAlerts(rules, p))));
    forall t | Matches(t, s, w, n, worker)
      ensures E.Enabled(cfg, t, E.ReadRules(w)) && Matches(E.Apply(cfg, t, E.ReadRules(w)), s, w, n, after)
    {
    }
    OneStep(cfg, s, w, n, worker, E.ReadRules(w), n, after);
  }

  lemma StartLists(
    cfg: Settings, s: E.System, w: nat, n: Stores, i: nat, doc: Row, p: Payload, rules: seq<Rule>, lists: seq<Watchlist>)
    requires Configured(s, rules, lists) && i < |n.rows|
    requires Reached(cfg, s, w, n, E.Busy(i, doc, E.Inserting(p, E.Loop(rules, None, []))))
    ensures var loop := E.Loop(rules, Some(lists), ListAlerts(ListsRead(lists), p));
            Reached(cfg, s, w, n, E.Busy(i, doc, E.Inserting(p, loop)))
  {
    var worker := E.Busy(i, doc, E.Inserting(p, E.Loop(rules, None, [])));
    var after := E.Busy(i, doc, E.Inserting(p, E.Loop(rules, Some(lists), ListAlerts(ListsRead(lists), p))));
    forall t | Matches(t, s, w, n, worker)
      ensures E.Enabled(cfg, t, E.ReadLists(w)) && Matches(E.Apply(cfg, t, E.ReadLists(w)), s, w, n, after)
    {
    }
    OneStep(cfg, s, w, n, worker, E.ReadLists(w), n, after);
  }

  lemma EndEvaluation(
    cfg: Settings, s: E.System, w: nat, n: Stores, i: nat, doc: Row, p: Payload, rules: seq<Rule>, lists: seq<Watchlist>)
    requires i < |n.rows|
    requires Reached(cfg, s, w, n, E.Busy(i, doc, E.Inserting(p, E.Loop(rules, Some(lists), []))))
    ensures Reached(cfg, s, w, n, E.Busy(i, doc, E.Snapshotting(p)))
  {
    var worker, after := E.Busy(i, doc, E.Inserting(p, E.Loop(rules, Some(lists), []))), E.Busy(i, doc, E.Snapshotting(p));
    forall t | Matches(t, s, w, n, worker)
      ensures E.Enabled(cfg, t, E.EndAlerts(w)) && Matches(E.Apply(cfg, t, E.EndAlerts(w)), s, w, n, after)
    {
    }
    OneStep(cfg, s, w, n, worker, E.EndAlerts(w), n, after);
  }

  /** A step that only the stores and the stage matter for, given by what it does to them. */
  lemma StageStep(
    cfg: Settings, s: E.System, w: nat, n: Stores, i: nat, doc: Row, from: E.Stage, e: E.Event, n': Stores, to: Option<E.Stage>)
    requires Reached(cfg, s, w, n, E.Busy(i, doc, from)) && i < |n.rows| && E.Actor(e) == Some(w)
    requires match e
             case SaveIntel(_) =>
               from.Saving? && to == Some(E.Graphing(from.payload))
               && n' == if IntelIdOf(from.payload) in n.intel then n
                        else n.(intel := n.intel[IntelIdOf(from.payload) := from.payload])
             case UpsertGraph(_) =>
               from.Graphing? && to == Some(E.Alerting(from.payload))
               && n' == n.(graph := n.graph + {IntelIdOf(from.payload)})
             case GraphDown(_) => from.Graphing? && to == Some(E.CountingWaits(from.payload)) && n' == n
             case CountWaits(_) =>
               from.CountingWaits? && to == Some(E.WritingWait(from.payload, n.rows[i].waits)) && n' == n
             case WriteWait(_) =>
               from.WritingWait? && to == None
               && n' == n.(rows := n.rows[i := WaitRecorded(n.rows[i], from.seen, IntelIdOf(from.payload), s.world.now)])
             case WriteSnapshot(_) =>
               from.Snapshotting? && to == Some(E.Finishing)
               && IntelIdOf(from.payload) in n.intel && n' == n.(snapshots := n.snapshots + {IntelIdOf(from.payload)})
             case FinishRow(_) =>
               from.Finishing? && to == None && n' == n.(rows := n.rows[i := Finished(n.rows[i], false)])
             case DropContent(_) =>
               from.Begin? && to == None && n' == n.(rows := n.rows[i := Finished(n.rows[i], true)])
             case MarkOversized(_) =>
               from.Begin? && to == Some(E.Marked) && n' == n.(rows := n.rows[i := Oversized(n.rows[i])])
             case Resume(_) =>
               from.Begin? && Resumable(doc, n.intel) && to == Some(E.Saving(n.intel[doc.intelId.value])) && n' == n
             case Analyse(_, p) =>
               from.Begin? && !Resumable(doc, n.intel) && p.ingest == i && to == Some(E.Saving(p)) && n' == n
             case _ => false
    ensures Reached(cfg, s, w, n', if to.Some? then E.Busy(i, doc, to.value) else E.Idle)
  {
    var worker, after := E.Busy(i, doc, from), if to.Some? then E.Busy(i, doc, to.value) else E.Idle;
    forall t | Matches(t, s, w, n, worker)
      ensures E.Enabled(cfg, t, e) && Matches(E.Apply(cfg, t, e), s, w, n', after)
    {
    }
    OneStep(cfg, s, w, n, worker, e, n', after);
  }

  /** From the saved intel on, as `_process_doc` and `_resume_saved` do it. */
  lemma SettleIsARun(
    cfg: Settings, s: E.System, w: nat, o: Stores, i: nat, doc: Row, p: Payload,
    rules: seq<Rule>, lists: seq<Watchlist>, c: Conditions)
    requires Configured(s, rules, lists) && i < |o.rows| && p.ingest == i && c.now == s.world.now
    requires Reached(cfg, s, w, o, E.Busy(i, doc, E.Saving(p)))
    ensures var (m, raised) := AfterSettling(o, p, rules, lists, c);
            Reached(cfg, s, w, if raised then Handled(cfg, m, i, doc, c.handlerUp) else m, E.Idle)
  {
    hide Reached, Alerted, AlertsReached, EvaluationFails;
    var x := IntelIdOf(p);
    if c.fault.AtSave? {
      Raise(cfg, s, w, o, i, doc, E.Saving(p), c.handlerUp);
      return;
    }
    var saved := if x in o.intel then o else o.(intel := o.intel[x := p]);
    StageStep(cfg, s, w, o, i, doc, E.Saving(p), E.SaveIntel(w), saved, Some(E.Graphing(p)));
    if x in o.intel && c.fault.AtForget? {
      Raise(cfg, s, w, saved, i, doc, E.Graphing(p), c.handlerUp);
    } else if !c.graphUp {
      WaitIsARun(cfg, s, w, saved, i, doc, p, c);
    } else {
      var drawn := saved.(graph := o.graph + {x});
      StageStep(cfg, s, w, saved, i, doc, E.Graphing(p), E.UpsertGraph(w), drawn, Some(E.Alerting(p)));
      Evaluate(cfg, s, w, drawn, i, doc, p, rules, lists, c);
      if !EvaluationFails(c.fault, rules, lists, p) {
        var m := Alerted(drawn, AlertsReached(c.fault, rules, lists, p));
        assert m.rows == o.rows && x in m.intel by { AlertedKeeps(drawn, AlertsReached(c.fault, rules, lists, p)); }
        FinishIsARun(cfg, s, w, m, i, doc, p, c);
      } else {
        AlertedKeeps(drawn, AlertsReached(c.fault, rules, lists, p));
      }
    }
  }

  lemma WaitIsARun(cfg: Settings, s: E.System, w: nat, n: Stores, i: nat, doc: Row, p: Payload, c: Conditions)
    requires i < |n.rows| && c.now == s.world.now && Reached(cfg, s, w, n, E.Busy(i, doc, E.Graphing(p)))
    ensures Reached(cfg, s, w,
              if c.fault.AtWait? then Handled(cfg, n, i, doc, c.handlerUp)
              else n.(rows := n.rows[i := WaitRecorded(n.rows[i], n.rows[i].waits, IntelIdOf(p), c.now)]), E.Idle)
  {
    hide Reached;
    StageStep(cfg, s, w, n, i, doc, E.Graphing(p), E.GraphDown(w), n, Some(E.CountingWaits(p)));
    if c.fault.AtWait? {
      Raise(cfg, s, w, n, i, doc, E.CountingWaits(p), c.handlerUp);
    } else {
      var seen := n.rows[i].waits;
      StageStep(cfg, s, w, n, i, doc, E.CountingWaits(p), E.CountWaits(w), n, Some(E.WritingWait(p, seen)));
      StageStep(cfg, s, w, n, i, doc, E.WritingWait(p, seen), E.WriteWait(w),
                n.(rows := n.rows[i := WaitRecorded(n.rows[i], seen, IntelIdOf(p), c.now)]), None);
    }
  }

  lemma FinishIsARun(cfg: Settings, s: E.System, w: nat, n: Stores, i: nat, doc: Row, p: Payload, c: Conditions)
    requires i < |n.rows| && IntelIdOf(p) in n.intel && Reached(cfg, s, w, n, E.Busy(i, doc, E.Snapshotting(p)))
    ensures var shot := n.(snapshots := n.snapshots + {IntelIdOf(p)});
            Reached(cfg, s, w,
              if c.fault.AtSnapshot? then Handled(cfg, n, i, doc, c.handlerUp)
              else if c.fault.AtFinish? then Handled(cfg, shot, i, doc, c.handlerUp)
              else shot.(rows := n.rows[i := Finished(n.rows[i], false)]), E.Idle)
  {
    hide Reached;
    if c.fault.AtSnapshot? {
      Raise(cfg, s, w, n, i, doc, E.Snapshotting(p), c.handlerUp);
      return;
    }
    var shot := n.(snapshots := n.snapshots + {IntelIdOf(p)});
    StageStep(cfg, s, w, n, i, doc, E.Snapshotting(p), E.WriteSnapshot(w), shot, Some(E.Finishing));
    if c.fault.AtFinish? {
      Raise(cfg, s, w, shot, i, doc, E.Finishing, c.handlerUp);
    } else {
      StageStep(cfg, s, w, shot, i, doc, E.Finishing, E.FinishRow(w),
                shot.(rows := n.rows[i := Finished(n.rows[i], false)]), None);
    }
  }

  lemma DropIsARun(cfg: Settings, s: E.System, w: nat, n: Stores, i: nat, doc: Row, c: Conditions)
    requires i < |n.rows| && Reached(cfg, s, w, n, E.Busy(i, doc, E.Begin))
    ensures var (m, raised) := AfterDropping(n, i, c);
            Reached(cfg, s, w, if raised then Handled(cfg, m, i, doc, c.handlerUp) else m, E.Idle)
  {
    hide Reached;
    if c.fault.AtFinish? {
      Raise(cfg, s, w, n, i, doc, E.Begin, c.handlerUp);
    } else {
      StageStep(cfg, s, w, n, i, doc, E.Begin, E.DropContent(w), n.(rows := n.rows[i := Finished(n.rows[i], true)]), None);
    }
  }

  /**
   Every outcome of a call of `_process_doc`, whatever fails in it, is the outcome of a run of the
   steps of one worker of the machine.
   */
  lemma DocIsARun(
    cfg: Settings, s: E.System, w: nat, i: nat, doc: Row, content: Content, analysis: Analysis,
    rules: seq<Rule>, lists: seq<Watchlist>, c: Conditions)
    requires w < |s.workers| && s.workers[w] == E.Busy(i, doc, E.Begin) && i < |s.world.rows|
    requires AboutRecord(i, doc, analysis) && IntelOk(s.world.intel)
    requires Configured(s, rules, lists) && c.now == s.world.now
    ensures Reached(cfg, s, w, AfterDoc(cfg, StoresOf(s.world), i, doc, content, analysis, rules, lists, c).0, E.Idle)
  {
    hide Reached, AfterSettling, AfterDropping;
    var o := StoresOf(s.world);
    ReachedAtOnce(cfg, s, w);
    match Chosen(content, analysis, doc, o.intel) {
      case Some(p) =>
        var e := if Resumable(doc, o.intel) then E.Resume(w) else E.Analyse(w, p);
        StageStep(cfg, s, w, o, i, doc, E.Begin, e, o, Some(E.Saving(p)));
        SettleIsARun(cfg, s, w, o, i, doc, p, rules, lists, c);
      case None =>
        if content.Invalid? || (content.TooLarge? && c.fault.AtMark?) || (content.Usable? && analysis.Raises?) {
          Raise(cfg, s, w, o, i, doc, E.Begin, c.handlerUp);
        } else if content.TooLarge? {
          var marked := o.(rows := o.rows[i := Oversized(o.rows[i])]);
          StageStep(cfg, s, w, o, i, doc, E.Begin, E.MarkOversized(w), marked, Some(E.Marked));
          Raise(cfg, s, w, marked, i, doc, E.Marked, c.handlerUp);
        } else {
          DropIsARun(cfg, s, w, o, i, doc, c);
        }
    }
  }

  /** So a call keeps what every run of the machine keeps, with any other workers in the middle of their work. */
  lemma DocKeepsMachineOk(
    cfg: Settings, s: E.System, w: nat, i: nat, doc: Row, content: Content, analysis: Analysis,
    rules: seq<Rule>, lists: seq<Watchlist>, c: Conditions) returns (t: E.System)
    requires E.Ok(s) && w < |s.workers| && s.workers[w] == E.Busy(i, doc, E.Begin) && AboutRecord(i, doc, analysis)
    requires Configured(s, rules, lists) && c.now == s.world.now
    ensures i < |s.world.rows| && IntelOk(s.world.intel) && E.Ok(t)
    ensures Matches(t, s, w, AfterDoc(cfg, StoresOf(s.world), i, doc, content, analysis, rules, lists, c).0, E.Idle)
  {
    assert E.WorkerOk(s.world, s.workers[w]);
    DocIsARun(cfg, s, w, i, doc, content, analysis, rules, lists, c);
    hide AfterDoc, Matches;
    var n := AfterDoc(cfg, StoresOf(s.world), i, doc, content, analysis, rules, lists, c).0;
    var es :| ByWorker(cfg, s, w, es) && Matches(E.Run(cfg, s, es), s, w, n, E.Idle);
    t := E.Run(cfg, s, es);
    E.RunKeepsOk(cfg, s, es);
  }
}
