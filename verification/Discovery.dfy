/**
 Bounded, recency-ordered term counting (`SlangAutoDiscovery.observe_term`,
 src/darkpulse/nlp/auto_discovery.py).
 */
module Discovery {
  import opened Common

  const MAX_CONTEXTS := 10
  const MAX_CONTEXT_LENGTH := 200

  /** The distinct observed terms, the most recently observed last. */
  function Recency(h: seq<string>): seq<string> {
    if h == [] then [] else Without(Recency(h[..|h| - 1]), h[|h| - 1]) + [h[|h| - 1]]
  }

  function TakeLast<T>(s: seq<T>, n: nat): seq<T> {
    if |s| <= n then s else s[|s| - n..]
  }

  /** The terms in memory after a history of accepted observations. */
  function Tracked(h: seq<string>, cap: nat): seq<string> {
    TakeLast(Recency(h), cap)
  }

  /** Observations of a tracked term since it last entered; zero for any other. */
  function Since(h: seq<string>, cap: nat, t: string): nat {
    if h == [] || t !in Tracked(h, cap) then 0
    else
      var before := h[..|h| - 1];
      (if t in Tracked(before, cap) then Since(before, cap, t) else 0) + if h[|h| - 1] == t then 1 else 0
  }

  function Occurrences(h: seq<string>, t: string): nat {
    multiset(h)[t]
  }

  lemma WithoutSplits(ts: seq<string>, t: string)
    requires ts != []
    ensures Without(ts, t) == (if ts[0] == t then [] else [ts[0]]) + Without(ts[1..], t)
  {
  }

  lemma {:induction false} WithoutAppend(a: seq<string>, b: seq<string>, t: string)
    ensures Without(a + b, t) == Without(a, t) + Without(b, t)
  {
    if a == [] {
      assert a + b == b;
    } else {
      var whole := a + b;
      assert whole[0] == a[0] && whole[1..] == a[1..] + b;
      WithoutAppend(a[1..], b, t);
      WithoutSplits(whole, t);
      WithoutSplits(a, t);
      hide Without;
      var head := if a[0] == t then [] else [a[0]];
      assert Without(whole, t) == head + (Without(a[1..], t) + Without(b, t));
    }
  }

  lemma {:induction false} RecencyDistinct(h: seq<string>)
    ensures NoDup(Recency(h))
    ensures forall x :: x in Recency(h) <==> x in h
  {
    if h != [] {
      var n := |h| - 1;
      RecencyDistinct(h[..n]);
      WithoutExact(Recency(h[..n]), h[n]);
      assert h == h[..n] + [h[n]];
    }
  }

  /** Where a term was observed last. */
  function LastSeen(h: seq<string>, t: string): int {
    if h == [] then -1 else if h[|h| - 1] == t then |h| - 1 else LastSeen(h[..|h| - 1], t)
  }

  lemma {:induction false} LastSeenInRange(h: seq<string>, t: string)
    ensures -1 <= LastSeen(h, t) < |h|
  {
    if h != [] { LastSeenInRange(h[..|h| - 1], t); }
  }

  lemma {:induction false} WithoutKeepsOrder(h: seq<string>, ts: seq<string>, t: string)
    requires forall i, j :: 0 <= i < j < |ts| ==> LastSeen(h, ts[i]) < LastSeen(h, ts[j])
    ensures var w := Without(ts, t); forall i, j :: 0 <= i < j < |w| ==> LastSeen(h, w[i]) < LastSeen(h, w[j])
  {
    if ts != [] {
      WithoutKeepsOrder(h, ts[1..], t);
      WithoutExact(ts[1..], t);
      var rest := Without(ts[1..], t);
      forall j | 0 <= j < |rest| ensures LastSeen(h, ts[0]) < LastSeen(h, rest[j]) {
        assert rest[j] in rest;
        var k :| 0 <= k < |ts[1..]| && ts[1..][k] == rest[j];
        assert ts[k + 1] == rest[j];
      }
    }
  }

  /** Recency really is the order of last observation. */
  lemma {:induction false} RecencyOrdered(h: seq<string>)
    ensures forall i, j :: 0 <= i < j < |Recency(h)| ==> LastSeen(h, Recency(h)[i]) < LastSeen(h, Recency(h)[j])
  {
    if h != [] {
      var n := |h| - 1;
      var less, last := h[..n], h[n];
      RecencyOrdered(less);
      WithoutKeepsOrder(less, Recency(less), last);
      WithoutExact(Recency(less), last);
      var w := Without(Recency(less), last);
      forall i | 0 <= i < |w| ensures LastSeen(h, w[i]) == LastSeen(less, w[i]) && LastSeen(h, w[i]) < n {
        assert w[i] in w;
        LastSeenInRange(less, w[i]);
      }
    }
  }

  lemma TakeLastOfLong<T>(a: seq<T>, b: seq<T>, n: nat)
    requires |b| >= n
    ensures TakeLast(a + b, n) == TakeLast(b, n)
  {
  }

  lemma NothingToEvict(order: seq<string>, cap: nat)
    ensures |order| <= cap ==> TakeLast(order, cap) == order
  {
  }

  lemma EvictOne(order: seq<string>, cap: nat)
    requires |order| > cap && NoDup(order)
    ensures TakeLast(order[1..], cap) == TakeLast(order, cap) && NoDup(order[1..])
    ensures forall t :: t in order[1..] <==> t in order && t != order[0]
  {
    assert order == [order[0]] + order[1..];
    TakeLastOfLong([order[0]], order[1..], cap);
  }

  lemma RecencySnoc(h: seq<string>, t: string)
    ensures Recency(h + [t]) == Without(Recency(h), t) + [t]
  {
    assert (h + [t])[..|h|] == h;
  }

  /** Moving the observed term to the end of the tracked ones and evicting from the front is all it takes. */
  lemma TrackedStep(h: seq<string>, cap: nat, t: string)
    ensures Tracked(h + [t], cap) == TakeLast(Without(Tracked(h, cap), t) + [t], cap)
  {
    RecencySnoc(h, t);
    RecencyDistinct(h);
    hide Recency, Without;
    var r := Recency(h);
    if |r| > cap {
      var k := |r| - cap;
      assert r == r[..k] + r[k..];
      MoveToEnd(r[..k], r[k..], t);
    }
  }

  /** What was already evicted stays evicted. */
  lemma MoveToEnd(evicted: seq<string>, order: seq<string>, t: string)
    requires NoDup(evicted + order)
    ensures TakeLast(Without(evicted + order, t) + [t], |order|) == TakeLast(Without(order, t) + [t], |order|)
  {
    WithoutAppend(evicted, order, t);
    assert NoDup(order) by {
      forall i, j | 0 <= i < j < |order| ensures order[i] != order[j] {
        assert (evicted + order)[|evicted| + i] == order[i] && (evicted + order)[|evicted| + j] == order[j];
      }
    }
    WithoutExact(order, t);
    var e, o := Without(evicted, t), Without(order, t) + [t];
    assert Without(evicted + order, t) + [t] == e + o;
    TakeLastOfLong(e, o, |order|);
  }

  lemma {:induction false} OccurrencesSnoc(h: seq<string>, x: string, t: string)
    ensures Occurrences(h + [x], t) == Occurrences(h, t) + if x == t then 1 else 0
  {
  }

  /** The term is tracked after each observation from the (j+1)st on, and is not after the first j. */
  ghost predicate EnteredAt(h: seq<string>, cap: nat, t: string, j: nat) {
    && j < |h| && t !in Tracked(h[..j], cap)
    && forall i :: j < i <= |h| ==> t in Tracked(h[..i], cap)
  }

  /** The count of a tracked term is the number of its observations since it last entered. */
  lemma {:induction false} CountIsSinceEntry(h: seq<string>, cap: nat, t: string) returns (j: nat)
    requires h != [] && t in Tracked(h, cap)
    ensures EnteredAt(h, cap, t, j)
    ensures Since(h, cap, t) == Occurrences(h[j..], t)
  {
    hide Tracked;
    var n := |h| - 1;
    var before := h[..n];
    assert h == before + [h[n]] && h[..|h|] == h;
    if t in Tracked(before, cap) {
      NothingTrackedAtFirst(cap, t);
      j := CountIsSinceEntry(before, cap, t);
      EntryPersists(before, h[n], cap, t, j);
      assert h[j..] == before[j..] + [h[n]];
      OccurrencesSnoc(before[j..], h[n], t);
    } else {
      j := n;
      assert h[j..] == [] + [h[n]] && h[..j] == before;
      OccurrencesSnoc([], h[n], t);
      NewcomerIsLast(before, cap, h[n], t);
    }
  }

  lemma NothingTrackedAtFirst(cap: nat, t: string)
    ensures t !in Tracked([], cap)
  {
  }

  lemma EntryPersists(h: seq<string>, x: string, cap: nat, t: string, j: nat)
    requires EnteredAt(h, cap, t, j) && t in Tracked(h + [x], cap)
    ensures EnteredAt(h + [x], cap, t, j)
  {
    hide Tracked;
    assert (h + [x])[..j] == h[..j];
    forall i | j < i <= |h + [x]| ensures t in Tracked((h + [x])[..i], cap) {
      if i <= |h| {
        assert (h + [x])[..i] == h[..i];
      } else {
        assert (h + [x])[..i] == h + [x];
      }
    }
  }

  /** Only the observed term can be new among the tracked ones. */
  lemma NewcomerIsLast(h: seq<string>, cap: nat, x: string, t: string)
    requires t in Tracked(h + [x], cap) && t !in Tracked(h, cap)
    ensures t == x
  {
    TrackedStep(h, cap, x);
    WithoutExact(Tracked(h, cap), x);
    var all := Without(Tracked(h, cap), x) + [x];
    assert forall y :: y in TakeLast(all, cap) ==> y in all;
  }

  function Clipped(context: string): string {
    if |context| <= MAX_CONTEXT_LENGTH then context else context[..MAX_CONTEXT_LENGTH]
  }

  // --- contexts ---------------------------------------------------------------------------------

  datatype Observation = Observation(term: string, context: string)

  /** The terms that have contexts; unlike the counters they keep the order in which they entered. */
  function Holding(h: seq<Observation>, cap: nat): seq<string> {
    if h == [] then []
    else
      var before, t := Holding(h[..|h| - 1], cap), h[|h| - 1].term;
      TakeLast(if t in before then before else before + [t], cap)
  }

  /** All contexts, clipped, that came with a held term since it entered. */
  function Gathered(h: seq<Observation>, cap: nat, t: string): seq<string> {
    if h == [] || t !in Holding(h, cap) then []
    else
      var before, last := h[..|h| - 1], h[|h| - 1];
      (if t in Holding(before, cap) then Gathered(before, cap, t) else [])
      + if last.term == t then [Clipped(last.context)] else []
  }

  function FirstTen(texts: seq<string>): seq<string> {
    if |texts| <= MAX_CONTEXTS then texts else texts[..MAX_CONTEXTS]
  }

  /** The clipped contexts of a term in a stretch of observations. */
  function TextsOf(h: seq<Observation>, t: string): seq<string> {
    if h == [] then []
    else TextsOf(h[..|h| - 1], t) + if h[|h| - 1].term == t then [Clipped(h[|h| - 1].context)] else []
  }

  lemma TextsSnoc(h: seq<Observation>, o: Observation, t: string)
    ensures TextsOf(h + [o], t) == TextsOf(h, t) + if o.term == t then [Clipped(o.context)] else []
  {
    assert (h + [o])[..|h|] == h;
  }

  lemma HoldingStep(h: seq<Observation>, cap: nat, o: Observation)
    ensures var before := Holding(h, cap);
            Holding(h + [o], cap) == TakeLast(if o.term in before then before else before + [o.term], cap)
  {
    assert (h + [o])[..|h|] == h;
  }

  lemma GatheredStep(h: seq<Observation>, cap: nat, o: Observation, t: string)
    requires t in Holding(h + [o], cap)
    ensures t in Holding(h, cap) || t == o.term
    ensures Gathered(h + [o], cap, t)
         == Gathered(h, cap, t) + if o.term == t then [Clipped(o.context)] else []
  {
    HoldingStep(h, cap, o);
    assert (h + [o])[..|h|] == h;
    var all := if o.term in Holding(h, cap) then Holding(h, cap) else Holding(h, cap) + [o.term];
    assert forall y :: y in TakeLast(all, cap) ==> y in all;
  }

  lemma {:induction false} HoldingDistinct(h: seq<Observation>, cap: nat)
    ensures NoDup(Holding(h, cap)) && |Holding(h, cap)| <= cap
  {
    if h != [] { HoldingDistinct(h[..|h| - 1], cap); }
  }

  /** The observation with which a held term entered. */
  function EntryOf(h: seq<Observation>, cap: nat, t: string): int {
    if h == [] || t !in Holding(h, cap) then -1
    else if t in Holding(h[..|h| - 1], cap) then EntryOf(h[..|h| - 1], cap, t)
    else |h| - 1
  }

  lemma EntryStep(h: seq<Observation>, cap: nat, o: Observation, t: string)
    requires t in Holding(h + [o], cap)
    ensures EntryOf(h + [o], cap, t) == if t in Holding(h, cap) then EntryOf(h, cap, t) else |h|
  {
    assert (h + [o])[..|h|] == h;
  }

  /** The texts of a held term are the first ten that came with it from the observation on with which it entered. */
  lemma {:induction false} ContextsSinceEntry(h: seq<Observation>, cap: nat, t: string)
    requires t in Holding(h, cap)
    ensures var j := EntryOf(h, cap, t);
            0 <= j < |h| && h[j].term == t && t !in Holding(h[..j], cap) && Gathered(h, cap, t) == TextsOf(h[j..], t)
  {
    hide Holding, Gathered, EntryOf, TextsOf;
    NothingHeldAtFirst(cap, t);
    var before, o := h[..|h| - 1], h[|h| - 1];
    assert h == before + [o];
    EntryStep(before, cap, o, t);
    GatheredStep(before, cap, o, t);
    if t in Holding(before, cap) {
      ContextsSinceEntry(before, cap, t);
    } else {
      NothingGathered(before, cap, t);
    }
    var j := EntryOf(h, cap, t);
    var start := if t in Holding(before, cap) then before[j..] else [];
    assert h[j..] == start + [o] && h[..j] == before[..j];
    TextsSnoc(start, o, t);
    NoTexts(t);
  }

  lemma NothingHeldAtFirst(cap: nat, t: string)
    ensures t !in Holding([], cap)
  {
  }

  lemma NoTexts(t: string)
    ensures TextsOf([], t) == []
  {
  }

  lemma NothingGathered(h: seq<Observation>, cap: nat, t: string)
    requires t !in Holding(h, cap)
    ensures Gathered(h, cap, t) == [] && FirstTen(Gathered(h, cap, t)) == []
  {
  }

  predicate InEntryOrder(h: seq<Observation>, cap: nat, ts: seq<string>) {
    forall i, j :: 0 <= i < j < |ts| ==> EntryOf(h, cap, ts[i]) < EntryOf(h, cap, ts[j])
  }

  lemma TakeLastAt<T>(s: seq<T>, n: nat, i: nat)
    requires i < |TakeLast(s, n)|
    ensures |TakeLast(s, n)| <= |s| && TakeLast(s, n)[i] == s[|s| - |TakeLast(s, n)| + i]
    ensures TakeLast(s, n)[i] in TakeLast(s, n)
  {
  }

  /** Where a term that is still held after one more observation was before, and when it entered. */
  lemma StillHeld(h: seq<Observation>, cap: nat, o: Observation, i: nat) returns (k: nat)
    requires i < |Holding(h + [o], cap)|
    ensures var before, now := Holding(h, cap), Holding(h + [o], cap);
            && k == (if o.term in before then |before| else |before| + 1) - |now| + i
            && (if k < |before|
                then now[i] == before[k] && EntryOf(h + [o], cap, now[i]) == EntryOf(h, cap, before[k])
                else k == |before| && EntryOf(h + [o], cap, now[i]) == |h|)
  {
    hide Holding, EntryOf, TakeLast;
    HoldingStep(h, cap, o);
    var before, now := Holding(h, cap), Holding(h + [o], cap);
    var all := if o.term in before then before else before + [o.term];
    TakeLastAt(all, cap, i);
    k := |all| - |now| + i;
    EntryStep(h, cap, o, now[i]);
    if k < |before| { assert before[k] in before; }
  }

  lemma EnteredBefore(h: seq<Observation>, cap: nat, t: string)
    requires t in Holding(h, cap)
    ensures EntryOf(h, cap, t) < |h|
  {
    ContextsSinceEntry(h, cap, t);
  }

  lemma StepKeepsEntryOrder(h: seq<Observation>, cap: nat, o: Observation)
    requires InEntryOrder(h, cap, Holding(h, cap))
    ensures InEntryOrder(h + [o], cap, Holding(h + [o], cap))
  {
    hide Holding, EntryOf;
    var before, now := Holding(h, cap), Holding(h + [o], cap);
    forall i, j | 0 <= i < j < |now| ensures EntryOf(h + [o], cap, now[i]) < EntryOf(h + [o], cap, now[j]) {
      var a := StillHeld(h, cap, o, i);
      var b := StillHeld(h, cap, o, j);
      if b == |before| {
        EnteredBefore(h, cap, before[a]);
      }
    }
  }

  /** First in, first out: held terms are in the order of their entry, and eviction takes the earliest. */
  lemma {:induction false} HoldingOrdered(h: seq<Observation>, cap: nat)
    ensures InEntryOrder(h, cap, Holding(h, cap))
  {
    if h != [] {
      hide InEntryOrder;
      HoldingOrdered(h[..|h| - 1], cap);
      StepKeepsEntryOrder(h[..|h| - 1], cap, h[|h| - 1]);
      assert h == h[..|h| - 1] + [h[|h| - 1]];
    }
  }

  /** Keeping ten of what was kept is keeping ten of everything. */
  lemma FirstTenStep(texts: seq<string>, more: seq<string>)
    requires |more| <= 1
    ensures FirstTen(texts + more) == if |FirstTen(texts)| < MAX_CONTEXTS then FirstTen(texts) + more else FirstTen(texts)
  {
    if more == [] { assert texts + more == texts && FirstTen(texts) + more == FirstTen(texts); }
  }

  /** The texts of a term after one more observation. */
  function TextsAfter(h: seq<Observation>, cap: nat, o: Observation, t: string): seq<string> {
    FirstTen(Gathered(h, cap, t) + if o.term == t then [Clipped(o.context)] else [])
  }

  lemma TextsAfterExact(h: seq<Observation>, cap: nat, o: Observation, t: string)
    ensures var kept := FirstTen(Gathered(h, cap, t));
            TextsAfter(h, cap, o, t)
              == if t == o.term && |kept| < MAX_CONTEXTS then kept + [Clipped(o.context)] else kept
    ensures t in Holding(h + [o], cap) ==> TextsAfter(h, cap, o, t) == FirstTen(Gathered(h + [o], cap, t))
  {
    FirstTenStep(Gathered(h, cap, t), if o.term == t then [Clipped(o.context)] else []);
    if t in Holding(h + [o], cap) { GatheredStep(h, cap, o, t); }
  }

  class SlangAutoDiscovery {
    const cap: nat
    const stopWords: set<string>
    var knownTerms: set<string>
    /** `_term_counts`: its keys in order, and the counts. */
    var order: seq<string>
    var counts: map<string, nat>
    /** `_term_contexts` */
    var contextOrder: seq<string>
    var contexts: map<string, seq<string>>
    /** All accepted observations, and those that came with a context. */
    ghost var history: seq<string>
    ghost var heard: seq<Observation>

    ghost predicate CountsOk()
      reads this
    {
      && order == Tracked(history, cap)
      && (forall t :: t in counts <==> t in order)
      && (forall t :: t in counts ==> counts[t] == Since(history, cap, t))
    }

    /** The terms with contexts, and for each the first ten texts since it entered. */
    ghost predicate ContextsOk()
      reads this
    {
      && contextOrder == Holding(heard, cap)
      && (forall t :: t in contexts <==> t in contextOrder)
      && (forall t :: t in contexts ==> contexts[t] == FirstTen(Gathered(heard, cap, t)))
    }

    ghost predicate Valid()
      reads this
    {
      CountsOk() && ContextsOk()
    }

    constructor (cap: nat, stopWords: set<string>)
      ensures Valid() && this.cap == cap && history == [] && heard == []
    {
      this.cap, this.stopWords := cap, stopWords;
      knownTerms := {};
      order, counts, contextOrder, contexts, history, heard := [], map[], [], map[], [], [];
    }

    predicate Accepts(term: string)
      reads this
    {
      3 <= |term| <= 30 && term !in knownTerms && term !in stopWords
    }

    method SetKnownTerms(terms: set<string>)
      requires Valid()
      modifies this`knownTerms
      ensures Valid() && knownTerms == terms
    {
      knownTerms := terms;
    }

    /** `observe_term` on a lower-cased, stripped term. */
    method ObserveTerm(term: string, context: string)
      requires Valid()
      modifies this`order, this`counts, this`contextOrder, this`contexts, this`history, this`heard
      ensures Valid()
      ensures history == if Accepts(term) then old(history) + [term] else old(history)
      ensures !Accepts(term) ==> order == old(order) && counts == old(counts) && contexts == old(contexts)
      ensures heard == if Accepts(term) && context != "" then old(heard) + [Observation(term, context)] else old(heard)
    {
      if |term| < 3 || |term| > 30 || term in knownTerms || term in stopWords {
        return;
      }
      CountTerm(term);
      if context != "" {
        KeepContext(term, context);
      }
    }

    method CountTerm(term: string)
      requires CountsOk()
      modifies this`order, this`counts, this`history
      ensures CountsOk() && history == old(history) + [term]
    {
      hide Tracked, Since;
      ghost var h := history;
      TrackedStep(h, cap, term);
      TrackedDistinct(h, cap);
      WithoutExact(order, term);
      ghost var moved := Without(order, term) + [term];
      counts := counts[term := (if term in counts then counts[term] else 0) + 1];
      order := Without(order, term) + [term];
      history := history + [term];
      while |order| > cap
        invariant TakeLast(order, cap) == TakeLast(moved, cap)
        invariant NoDup(order) && forall t :: t in counts <==> t in order
        invariant forall t :: t in counts ==> counts[t] == NewCount(h, cap, term, t)
        invariant history == h + [term]
        decreases |order|
      {
        counts := counts - {order[0]};
        assert order == [order[0]] + order[1..];
        TakeLastOfLong([order[0]], order[1..], cap);
        order := order[1..];
      }
      forall t | t in counts ensures counts[t] == Since(history, cap, t) {
        CountsStep(h, cap, term, t);
      }
    }

    method KeepContext(term: string, context: string)
      requires ContextsOk()
      modifies this`contextOrder, this`contexts, this`heard
      ensures ContextsOk() && heard == old(heard) + [Observation(term, context)]
    {
      hide Holding, Gathered, FirstTen, TextsAfter;
      ghost var h, o := heard, Observation(term, context);
      HoldingStep(h, cap, o);
      HoldingDistinct(h, cap);
      heard := heard + [o];
      if term !in contexts {
        NothingGathered(h, cap, term);
        contexts := contexts[term := []];
        contextOrder := contextOrder + [term];
      }
      if |contexts[term]| < MAX_CONTEXTS {
        contexts := contexts[term := contexts[term] + [Clipped(context)]];
      }
      forall t | t in contexts ensures contexts[t] == TextsAfter(h, cap, o, t) {
        TextsAfterExact(h, cap, o, t);
      }
      EvictContexts();
      forall t | t in contexts ensures contexts[t] == FirstTen(Gathered(heard, cap, t)) {
        TextsAfterExact(h, cap, o, t);
      }
    }

    /** The eviction loop: the terms that entered last stay, with their texts. */
    method EvictContexts()
      requires NoDup(contextOrder) && forall t :: t in contexts <==> t in contextOrder
      modifies this`contextOrder, this`contexts
      ensures contextOrder == TakeLast(old(contextOrder), cap)
      ensures forall t :: t in contexts <==> t in contextOrder
      ensures forall t :: t in contexts ==> t in old(contexts) && contexts[t] == old(contexts)[t]
    {
      NothingToEvict(contextOrder, cap);
      hide NoDup, TakeLast;
      while |contextOrder| > cap
        invariant NoDup(contextOrder) && TakeLast(contextOrder, cap) == TakeLast(old(contextOrder), cap)
        invariant forall t :: t in contexts <==> t in contextOrder
        invariant forall t :: t in contexts ==> t in old(contexts) && contexts[t] == old(contexts)[t]
        invariant |contextOrder| <= cap ==> contextOrder == TakeLast(contextOrder, cap)
        decreases |contextOrder|
      {
        EvictOne(contextOrder, cap);
        contexts := contexts - {contextOrder[0]};
        contextOrder := contextOrder[1..];
        NothingToEvict(contextOrder, cap);
      }
    }
  }

  lemma TrackedDistinct(h: seq<string>, cap: nat)
    ensures NoDup(Tracked(h, cap))
  {
    RecencyDistinct(h);
  }

  /** The count that an observation of x leaves a term with. */
  function NewCount(h: seq<string>, cap: nat, x: string, t: string): nat {
    (if t in Tracked(h, cap) then Since(h, cap, t) else 0) + if t == x then 1 else 0
  }

  lemma CountsStep(h: seq<string>, cap: nat, x: string, t: string)
    requires t in Tracked(h + [x], cap)
    ensures Since(h + [x], cap, t) == NewCount(h, cap, x, t)
  {
    assert (h + [x])[..|h|] == h;
  }
}
