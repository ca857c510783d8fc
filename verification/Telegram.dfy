/**
 The Telegram collector and its runner (`TelegramCollector._collect`,
 src/darkpulse/ingestion/collectors/telegram.py, and `CollectorRunner.run`, runner.py). The
 checkpoint is saved behind the `yield`, so a message that the pipeline failed on is read again.
 */
module Telegram {
  import opened Common

  datatype Message = Message(id: int, dated: bool, blank: bool)

  /** How a run ends: the generator may raise, or the pipeline's `process` outside of it. */
  datatype RunEnd = Completed | CollectorRaised | PipelineRaised

  /** A channel in id order; ids are positive. */
  predicate Channel(c: seq<Message>) {
    && (forall i :: 0 <= i < |c| ==> c[i].id > 0)
    && (forall i, j :: 0 <= i < j < |c| ==> c[i].id < c[j].id)
  }

  /** How many messages lie at or below the cursor. */
  function Passed(c: seq<Message>, minId: int): (n: nat)
    ensures n <= |c|
    ensures forall i :: 0 <= i < n ==> c[i].id <= minId
    ensures n < |c| ==> c[n].id > minId
  {
    if c == [] || c[0].id > minId then 0 else Passed(c[1..], minId) + 1
  }

  /** `iter_messages(min_id, limit, reverse=True)`: the oldest messages behind the cursor. */
  function Window(c: seq<Message>, minId: int, limit: nat): seq<Message> {
    var from := Passed(c, minId);
    c[from..if from + limit < |c| then from + limit else |c|]
  }

  /** The window is the first messages above the cursor, and all of them when it is not full. */
  lemma WindowExact(c: seq<Message>, minId: int, limit: nat)
    requires Channel(c)
    ensures var w := Window(c, minId, limit);
            && Channel(w) && |w| <= limit
            && (forall k :: 0 <= k < |w| ==> w[k].id > minId && w[k] in c)
  {
    var from, w := Passed(c, minId), Window(c, minId, limit);
    assert forall k :: 0 <= k < |w| ==> w[k] == c[from + k];
  }

  /** A message above the cursor is in the window, unless the window is full and ends before it. */
  lemma WindowCovers(c: seq<Message>, minId: int, limit: nat, j: nat) returns (k: nat)
    requires Channel(c) && j < |c| && c[j].id > minId
    ensures var w := Window(c, minId, limit);
            if k < |w| then w[k] == c[j] else |w| == limit && forall i :: 0 <= i < |w| ==> w[i].id < c[j].id
  {
    var from, w := Passed(c, minId), Window(c, minId, limit);
    assert from <= j;
    k := j - from;
    assert forall i :: 0 <= i < |w| ==> w[i] == c[from + i];
  }

  /** The message needs no more work: undated, blank, or handed to the pipeline. */
  predicate Settled(handled: set<int>, m: Message) {
    !m.dated || m.blank || m.id in handled
  }

  /** The cursor is at a message, or at the start, and everything up to it is settled. */
  ghost predicate NothingSkipped(c: seq<Message>, at: int, handled: set<int>) {
    && (at == 0 || exists j :: 0 <= j < |c| && c[j].id == at)
    && forall j :: 0 <= j < |c| && c[j].id <= at ==> Settled(handled, c[j])
  }

  /** The first i messages of the window are done, and the cursor is at the last dated one of them. */
  ghost predicate Progress(window: seq<Message>, minId: int, i: nat, at: int, handled: set<int>) {
    && i <= |window|
    && (forall k :: 0 <= k < i ==> Settled(handled, window[k]))
    && (forall k :: 0 <= k < i && window[k].dated ==> window[k].id <= at)
    && (at == minId || exists k :: 0 <= k < i && window[k].dated && window[k].id == at)
  }

  /** Whatever `process` returned for since then came from the window. */
  ghost predicate OnlyFrom(window: seq<Message>, before: set<int>, after: set<int>) {
    && before <= after
    && forall id :: id in after && id !in before ==> exists k :: 0 <= k < |window| && window[k].id == id
  }

  lemma NothingDoneYet(window: seq<Message>, minId: int, handled: set<int>)
    ensures Progress(window, minId, 0, minId, handled) && OnlyFrom(window, handled, handled)
  {
  }

  /** `process` returned for the next message. */
  lemma ProcessReturned(c: seq<Message>, window: seq<Message>, minId: int, i: nat, at: int,
                        before: set<int>, handled: set<int>)
    requires i < |window| && NothingSkipped(c, at, handled) && Progress(window, minId, i, at, handled)
    requires OnlyFrom(window, before, handled)
    ensures var now := handled + {window[i].id};
            NothingSkipped(c, at, now) && Progress(window, minId, i, at, now) && OnlyFrom(window, before, now)
  {
  }

  /** Everything up to the next message of the window is settled once that message is. */
  lemma SettledUpTo(c: seq<Message>, limit: nat, minId: int, i: nat, j: nat, at: int, handled: set<int>)
    requires Channel(c) && at >= minId && i < |Window(c, minId, limit)| && NothingSkipped(c, at, handled)
    requires forall k :: 0 <= k <= i ==> Settled(handled, Window(c, minId, limit)[k])
    requires j < |c| && c[j].id <= Window(c, minId, limit)[i].id
    ensures Settled(handled, c[j])
  {
    if c[j].id > minId {
      var k := WindowCovers(c, minId, limit, j);
      var w := Window(c, minId, limit);
      WindowExact(c, minId, limit);
      assert k < |w| ==> k <= i;
    }
  }

  /** The next dated message lies above the cursor. */
  lemma NextIsAbove(c: seq<Message>, limit: nat, minId: int, i: nat, at: int, handled: set<int>)
    requires Channel(c) && i < |Window(c, minId, limit)|
    requires Progress(Window(c, minId, limit), minId, i, at, handled)
    ensures at < Window(c, minId, limit)[i].id && Window(c, minId, limit)[i] in c
  {
    WindowExact(c, minId, limit);
    var w := Window(c, minId, limit);
    if at != minId {
      var k :| 0 <= k < i && w[k].dated && w[k].id == at;
      assert w[k].id < w[i].id;
    }
  }

  /** Moving the cursor to the next dated message leaves nothing behind. */
  lemma CursorMoves(c: seq<Message>, limit: nat, minId: int, i: nat, at: int, handled: set<int>)
    requires Channel(c) && at >= minId && i < |Window(c, minId, limit)|
    requires Progress(Window(c, minId, limit), minId, i, at, handled) && NothingSkipped(c, at, handled)
    requires Window(c, minId, limit)[i].dated && Settled(handled, Window(c, minId, limit)[i])
    ensures var next := Window(c, minId, limit)[i].id;
            && at < next
            && NothingSkipped(c, next, handled)
            && Progress(Window(c, minId, limit), minId, i + 1, next, handled)
  {
    var w := Window(c, minId, limit);
    NextIsAbove(c, limit, minId, i, at, handled);
    forall j | 0 <= j < |c| && c[j].id <= w[i].id ensures Settled(handled, c[j]) {
      SettledUpTo(c, limit, minId, i, j, at, handled);
    }
    var j :| 0 <= j < |c| && c[j] == w[i];
  }

  /** An undated message is passed over without saving. */
  lemma UndatedPasses(window: seq<Message>, minId: int, i: nat, at: int, handled: set<int>)
    requires i < |window| && Progress(window, minId, i, at, handled) && !window[i].dated
    ensures Progress(window, minId, i + 1, at, handled)
  {
  }

  /** A finished run moves the cursor exactly when its window holds a dated message. */
  lemma CompletedRunAdvances(c: seq<Message>, limit: nat, minId: int, at: int, handled: set<int>)
    requires Channel(c)
    requires Progress(Window(c, minId, limit), minId, |Window(c, minId, limit)|, at, handled)
    ensures at > minId <==> exists k :: 0 <= k < |Window(c, minId, limit)| && Window(c, minId, limit)[k].dated
  {
    WindowExact(c, minId, limit);
  }

  /** A finished run whose window was not full has settled the whole channel. */
  lemma CompletedRunDrains(c: seq<Message>, limit: nat, minId: int, at: int, handled: set<int>)
    requires Channel(c) && NothingSkipped(c, at, handled) && at >= minId
    requires |Window(c, minId, limit)| < limit
    requires Progress(Window(c, minId, limit), minId, |Window(c, minId, limit)|, at, handled)
    ensures forall j :: 0 <= j < |c| ==> Settled(handled, c[j])
  {
    forall j | 0 <= j < |c| ensures Settled(handled, c[j]) {
      if c[j].id > minId {
        var k := WindowCovers(c, minId, limit, j);
      }
    }
  }

  /** Messages that arrive between two runs, behind the ones there, keep it so. */
  lemma ChannelGrows(c: seq<Message>, more: seq<Message>, at: int, handled: set<int>)
    requires NothingSkipped(c, at, handled) && Channel(c + more)
    ensures NothingSkipped(c + more, at, handled)
  {
    var all := c + more;
    if at != 0 {
      var j :| 0 <= j < |c| && c[j].id == at;
      assert all[j] == c[j];
      forall k | 0 <= k < |all| && all[k].id <= at ensures Settled(handled, all[k]) {
        assert k <= j;
      }
    }
  }

  // --- runs that follow each other ----------------------------------------------------------------

  /** The stored cursor, and the ids for which `process` has returned. */
  datatype State = State(at: int, handled: set<int>)

  datatype Ran = Ran(completed: bool, done: nat, after: State)

  /** What a run, completed or cut short after `done` messages, makes of the state. */
  ghost predicate RanOnce(c: seq<Message>, limit: nat, s: State, r: Ran) {
    var w := Window(c, s.at, limit);
    && NothingSkipped(c, r.after.at, r.after.handled)
    && Progress(w, s.at, r.done, r.after.at, r.after.handled) && r.after.at >= s.at
    && OnlyFrom(w, s.handled, r.after.handled)
    && (r.completed ==> r.done == |w|)
  }

  ghost predicate Follows(c: seq<Message>, limit: nat, s: State, runs: seq<Ran>)
    decreases |runs|
  {
    runs == [] || (RanOnce(c, limit, s, runs[0]) && Follows(c, limit, runs[0].after, runs[1..]))
  }

  function End(s: State, runs: seq<Ran>): State
    decreases |runs|
  {
    if runs == [] then s else End(runs[0].after, runs[1..])
  }

  function Completions(runs: seq<Ran>): nat {
    if runs == [] then 0 else (if runs[0].completed then 1 else 0) + Completions(runs[1..])
  }

  predicate AllSettled(c: seq<Message>, handled: set<int>) {
    forall j :: 0 <= j < |c| ==> Settled(handled, c[j])
  }

  /** `limit` undated messages in a row from position i on. */
  predicate UndatedFrom(c: seq<Message>, i: nat, limit: nat) {
    i + limit <= |c| && forall k :: i <= k < i + limit ==> !c[k].dated
  }

  /** Above the cursor a full window of undated messages comes before a message that still needs handling. */
  ghost predicate Blocked(c: seq<Message>, limit: nat, s: State) {
    exists i, j :: Passed(c, s.at) <= i && UndatedFrom(c, i, limit) && i + limit <= j < |c| && !Settled(s.handled, c[j])
  }

  lemma PassedGrows(c: seq<Message>, at: int, later: int)
    requires Channel(c) && at <= later
    ensures Passed(c, at) <= Passed(c, later)
    ensures forall k :: 0 <= k < |c| && c[k].id <= later ==> k < Passed(c, later)
    ensures forall k :: 0 <= k < |c| && c[k].id == later ==> Passed(c, later) == k + 1
  {
    forall k | 0 <= k < |c| && c[k].id <= later ensures k < Passed(c, later) {}
  }

  lemma WindowPosition(c: seq<Message>, minId: int, limit: nat, k: nat)
    requires k < |Window(c, minId, limit)|
    ensures k < limit && Passed(c, minId) + k < |c| && Window(c, minId, limit)[k] == c[Passed(c, minId) + k]
  {
  }

  /** A run stays in front of a block ... */
  lemma StaysInFront(c: seq<Message>, limit: nat, s: State, r: Ran, i: nat)
    requires Channel(c) && RanOnce(c, limit, s, r) && Passed(c, s.at) <= i && UndatedFrom(c, i, limit)
    ensures Passed(c, r.after.at) <= i
  {
    hide NothingSkipped, OnlyFrom, Window, Passed;
    if r.after.at != s.at {
      var k :| 0 <= k < r.done && Window(c, s.at, limit)[k].dated && Window(c, s.at, limit)[k].id == r.after.at;
      WindowPosition(c, s.at, limit, k);
      PassedGrows(c, s.at, r.after.at);
      assert Passed(c, r.after.at) == Passed(c, s.at) + k + 1;
    }
  }

  /** ... and hands over nothing from behind it. */
  lemma NothingFromBehind(c: seq<Message>, limit: nat, s: State, r: Ran, j: nat)
    requires Channel(c) && RanOnce(c, limit, s, r) && Passed(c, s.at) + limit <= j < |c|
    ensures c[j].id in r.after.handled ==> c[j].id in s.handled
  {
    hide NothingSkipped, Progress, Window, Passed;
    var w := Window(c, s.at, limit);
    if c[j].id in r.after.handled && c[j].id !in s.handled {
      var k :| 0 <= k < |w| && w[k].id == c[j].id;
      WindowPosition(c, s.at, limit, k);
      assert false;
    }
  }

  lemma BlockedStays(c: seq<Message>, limit: nat, s: State, r: Ran)
    requires Channel(c) && RanOnce(c, limit, s, r) && Blocked(c, limit, s)
    ensures Blocked(c, limit, r.after)
  {
    hide RanOnce, Channel, Passed, UndatedFrom;
    var i, j :| Passed(c, s.at) <= i && UndatedFrom(c, i, limit) && i + limit <= j < |c| && !Settled(s.handled, c[j]);
    StaysInFront(c, limit, s, r, i);
    NothingFromBehind(c, limit, s, r, j);
    assert !Settled(r.after.handled, c[j]);
  }

  lemma UnblockedStays(c: seq<Message>, limit: nat, s: State, r: Ran)
    requires Channel(c) && RanOnce(c, limit, s, r) && !Blocked(c, limit, s)
    ensures !Blocked(c, limit, r.after) && Passed(c, s.at) <= Passed(c, r.after.at)
  {
    hide NothingSkipped, Progress, Window, Passed, UndatedFrom;
    PassedGrows(c, s.at, r.after.at);
    forall i, j | Passed(c, r.after.at) <= i && UndatedFrom(c, i, limit) && i + limit <= j < |c|
      ensures Settled(r.after.handled, c[j])
    {
      assert Settled(s.handled, c[j]);
    }
  }

  /** Without a block, a window without dated messages means that everything is settled. */
  lemma UnblockedWindow(c: seq<Message>, limit: nat, s: State)
    requires NothingSkipped(c, s.at, s.handled) && !Blocked(c, limit, s)
    requires forall k :: 0 <= k < |Window(c, s.at, limit)| ==> !Window(c, s.at, limit)[k].dated
    ensures AllSettled(c, s.handled)
  {
    var from, w := Passed(c, s.at), Window(c, s.at, limit);
    forall k | from <= k < from + |w| ensures !c[k].dated {
      WindowPosition(c, s.at, limit, k - from);
    }
    assert from + limit <= |c| ==> UndatedFrom(c, from, limit);
  }

  /** Without a block, a completed run advances, unless everything is settled. */
  lemma UnblockedAdvances(c: seq<Message>, limit: nat, s: State, r: Ran)
    requires Channel(c) && NothingSkipped(c, s.at, s.handled) && RanOnce(c, limit, s, r) && r.completed
    requires !Blocked(c, limit, s) && !AllSettled(c, s.handled)
    ensures Passed(c, s.at) < Passed(c, r.after.at)
  {
    hide NothingSkipped, OnlyFrom, Window, Passed, AllSettled, Blocked;
    if k :| 0 <= k < |Window(c, s.at, limit)| && Window(c, s.at, limit)[k].dated {
      WindowPosition(c, s.at, limit, k);
      PassedGrows(c, s.at, r.after.at);
    } else {
      UnblockedWindow(c, limit, s);
    }
  }

  lemma {:induction false} SettledStays(c: seq<Message>, limit: nat, s: State, runs: seq<Ran>)
    requires Follows(c, limit, s, runs) && AllSettled(c, s.handled)
    ensures AllSettled(c, End(s, runs).handled)
    decreases |runs|
  {
    if runs != [] { SettledStays(c, limit, runs[0].after, runs[1..]); }
  }

  lemma {:induction false} BlockedForEver(c: seq<Message>, limit: nat, s: State, runs: seq<Ran>)
    requires Channel(c) && Follows(c, limit, s, runs) && Blocked(c, limit, s)
    ensures Blocked(c, limit, End(s, runs))
    decreases |runs|
  {
    if runs != [] {
      BlockedStays(c, limit, s, runs[0]);
      BlockedForEver(c, limit, runs[0].after, runs[1..]);
    }
  }

  lemma {:induction false} EnoughCompletions(c: seq<Message>, limit: nat, s: State, runs: seq<Ran>)
    requires Channel(c) && NothingSkipped(c, s.at, s.handled) && Follows(c, limit, s, runs)
    requires !Blocked(c, limit, s) && Completions(runs) >= |c| - Passed(c, s.at)
    ensures AllSettled(c, End(s, runs).handled)
    decreases |runs|
  {
    hide Blocked;
    if AllSettled(c, s.handled) {
      SettledStays(c, limit, s, runs);
    } else if runs != [] {
      UnblockedStays(c, limit, s, runs[0]);
      if runs[0].completed { UnblockedAdvances(c, limit, s, runs[0]); }
      EnoughCompletions(c, limit, runs[0].after, runs[1..]);
    }
  }

  /**
   Over any sequence of runs, failing ones among them, with as many completed ones as the channel
   has messages: every dated, non-blank message was handed to the pipeline if and only if no full
   window of undated messages stands before one that was not handled at the start.
   */
  lemma HandedOverUnlessBlocked(c: seq<Message>, limit: nat, s: State, runs: seq<Ran>)
    requires Channel(c) && NothingSkipped(c, s.at, s.handled) && Follows(c, limit, s, runs)
    ensures Blocked(c, limit, s) ==> !AllSettled(c, End(s, runs).handled)
    ensures Completions(runs) >= |c| ==> (AllSettled(c, End(s, runs).handled) <==> !Blocked(c, limit, s))
  {
    if Blocked(c, limit, s) {
      BlockedForEver(c, limit, s, runs);
    } else if Completions(runs) >= |c| {
      EnoughCompletions(c, limit, s, runs);
    }
  }

  /** `limit` undated messages and then one to handle. */
  function StuckChannel(limit: nat): seq<Message> {
    seq(limit + 1, i => Message(i + 1, i == limit, false))
  }

  /** Whatever the limit, there is a channel whose last message no number of runs hands over. */
  lemma StuckForEver(limit: nat, runs: seq<Ran>)
    requires Follows(StuckChannel(limit), limit, State(0, {}), runs)
    ensures Channel(StuckChannel(limit)) && !AllSettled(StuckChannel(limit), End(State(0, {}), runs).handled)
  {
    var c := StuckChannel(limit);
    assert Passed(c, 0) == 0;
    assert UndatedFrom(c, 0, limit) && !Settled({}, c[limit]);
    HandedOverUnlessBlocked(c, limit, State(0, {}), runs);
  }

  class TelegramCollector {
    /** The stored checkpoint. */
    var cursor: Option<int>
    var failed: bool
    var hasSucceeded: bool
    /** Ids for which the pipeline's `process` has returned. */
    ghost var handled: set<int>

    function MinId(): int
      reads this`cursor
    {
      if cursor.Some? then cursor.value else 0
    }

    constructor ()
      ensures cursor == None && handled == {} && !failed && !hasSucceeded
      ensures forall c :: Channel(c) ==> NothingSkipped(c, MinId(), handled)
    {
      cursor, failed, hasSucceeded, handled := None, false, false, {};
    }

    /**
     One run over the channel as it is now. The reader and the checkpoint store may fail at any
     message inside the generator, the reader also behind the last one, and the pipeline outside of
     it. `done` counts the messages of
     the window that the run finished with.
     */
    method Run(c: seq<Message>, limit: nat) returns (end: RunEnd, ghost done: nat)
      requires Channel(c) && NothingSkipped(c, MinId(), handled)
      modifies this
      ensures NothingSkipped(c, MinId(), handled)
      ensures RanOnce(c, limit, State(old(MinId()), old(handled)), Ran(end == Completed, done, State(MinId(), handled)))
      ensures failed == (end == CollectorRaised || (end == PipelineRaised && old(failed)))
      ensures hasSucceeded == (end == Completed || old(hasSucceeded))
    {
      hide NothingSkipped, Progress, OnlyFrom, Window, Channel;
      ghost var handledBefore := handled;
      var minId := MinId();
      var window := Window(c, minId, limit);
      NothingDoneYet(window, minId, handled);
      end, done := Completed, 0;
      var i := 0;
      while i < |window|
        invariant i <= |window| && done == i && end == Completed
        invariant failed == old(failed) && hasSucceeded == old(hasSucceeded)
        invariant NothingSkipped(c, MinId(), handled) && Progress(window, minId, i, MinId(), handled) && MinId() >= minId
        invariant OnlyFrom(window, handledBefore, handled)
      {
        var message := window[i];
        var readFails: bool := *;
        if readFails {
          failed := true;
          end := CollectorRaised;
          return;
        }
        if message.dated {
          if !message.blank {
            var processFails: bool := *;
            if processFails {
              end := PipelineRaised;
              return;
            }
            ProcessReturned(c, window, minId, i, MinId(), handledBefore, handled);
            handled := handled + {message.id};
          }
          var saveFails: bool := *;
          if saveFails {
            failed := true;
            end := CollectorRaised;
            return;
          }
          CursorMoves(c, limit, minId, i, MinId(), handled);
          cursor := Some(message.id);
        } else {
          UndatedPasses(window, minId, i, MinId(), handled);
        }
        i := i + 1;
        done := i;
      }
      var lastReadFails: bool := *;
      if lastReadFails {
        failed := true;
        end := CollectorRaised;
        return;
      }
      failed := false;
      hasSucceeded := true;
    }
  }
}
