/**
 Merging entity spans (`merge_entities`, src/darkpulse/nlp/ner/__init__.py): by source priority
 and confidence, an entity is kept unless it overlaps one that was kept before.
 */
module Entities {
  /** A span of positions start <= p < end with the extractor it came from. */
  datatype Entity = Entity(text: string, kind: string, start: int, end: int, confidence: real, source: string)

  function Priority(source: string): nat {
    if source == "deterministic" then 0
    else if source == "pattern" then 1
    else if source == "spacy" then 2
    else 99
  }

  /** Strictly earlier by (priority, -confidence). */
  predicate Sooner(a: Entity, b: Entity) {
    || Priority(a.source) < Priority(b.source)
    || (Priority(a.source) == Priority(b.source) && a.confidence > b.confidence)
  }

  predicate StartsSooner(a: Entity, b: Entity) {
    a.start < b.start
  }

  /** Two spans overlap as intervals; an empty span overlaps nothing. */
  predicate Overlap(a: Entity, b: Entity) {
    a.start < b.end && b.start < a.end && a.start < a.end && b.start < b.end
  }

  predicate Covers(e: Entity, p: int) {
    e.start <= p < e.end
  }

  function Positions(e: Entity): set<int> {
    set p | e.start <= p < e.end && Covers(e, p)
  }

  /** Sharing a position is overlapping as intervals. */
  lemma OverlapIsSharedPosition(a: Entity, b: Entity)
    ensures Positions(a) * Positions(b) != {} <==> Overlap(a, b)
  {
    if Overlap(a, b) {
      var p := if a.start < b.start then b.start else a.start;
      assert Covers(a, p) && Covers(b, p);
      assert p in Positions(a) * Positions(b);
    }
  }

  // --- Python's stable sort ---------------------------------------------------------------------

  function InsertStable(less: (Entity, Entity) -> bool, x: Entity, s: seq<Entity>): seq<Entity> {
    if s == [] || !less(s[0], x) then [x] + s else [s[0]] + InsertStable(less, x, s[1..])
  }

  function StableSort(less: (Entity, Entity) -> bool, s: seq<Entity>): seq<Entity> {
    if s == [] then [] else InsertStable(less, s[0], StableSort(less, s[1..]))
  }

  /** `less` compares by a key: it is a strict weak order. */
  ghost predicate ByKey(less: (Entity, Entity) -> bool) {
    && (forall a, b :: less(a, b) ==> !less(b, a))
    && (forall a, b, c :: !less(b, a) && !less(c, b) ==> !less(c, a))
  }

  ghost predicate SortedBy(less: (Entity, Entity) -> bool, s: seq<Entity>) {
    forall i, j :: 0 <= i < j < |s| ==> !less(s[j], s[i])
  }

  lemma {:induction false} InsertStableAdds(less: (Entity, Entity) -> bool, x: Entity, s: seq<Entity>)
    ensures multiset(InsertStable(less, x, s)) == multiset(s) + multiset{x}
  {
    if s != [] && less(s[0], x) {
      InsertStableAdds(less, x, s[1..]);
      assert s == [s[0]] + s[1..];
    }
  }

  lemma {:induction false} InsertStableCorrect(less: (Entity, Entity) -> bool, x: Entity, s: seq<Entity>)
    requires ByKey(less) && SortedBy(less, s)
    ensures SortedBy(less, InsertStable(less, x, s))
  {
    InsertStableAdds(less, x, s);
    if s == [] || !less(s[0], x) {
      forall j | 0 <= j < |s| ensures !less(s[j], x) {
        if j > 0 { assert !less(s[j], s[0]); }
      }
    } else {
      InsertStableCorrect(less, x, s[1..]);
      InsertStableAdds(less, x, s[1..]);
      var t := InsertStable(less, x, s[1..]);
      forall j | 0 <= j < |t| ensures !less(t[j], s[0]) {
        assert t[j] in multiset(t);
        if t[j] != x {
          var k :| 0 <= k < |s[1..]| && s[1..][k] == t[j];
          assert !less(s[k + 1], s[0]);
        }
      }
    }
  }

  lemma {:induction false} StableSortCorrect(less: (Entity, Entity) -> bool, s: seq<Entity>)
    requires ByKey(less)
    ensures SortedBy(less, StableSort(less, s)) && multiset(StableSort(less, s)) == multiset(s)
  {
    if s != [] {
      StableSortCorrect(less, s[1..]);
      InsertStableCorrect(less, s[0], StableSort(less, s[1..]));
      InsertStableAdds(less, s[0], StableSort(less, s[1..]));
      assert s == [s[0]] + s[1..];
    }
  }

  /** The elements of s whose key equals that of x, in their order. */
  function Ties(less: (Entity, Entity) -> bool, x: Entity, s: seq<Entity>): seq<Entity> {
    if s == [] then []
    else (if !less(x, s[0]) && !less(s[0], x) then [s[0]] else []) + Ties(less, x, s[1..])
  }

  lemma {:induction false} InsertKeepsTies(less: (Entity, Entity) -> bool, x: Entity, y: Entity, s: seq<Entity>)
    requires ByKey(less)
    ensures Ties(less, x, InsertStable(less, y, s)) == Ties(less, x, [y] + s)
  {
    assert ([y] + s)[1..] == s;
    if s != [] && less(s[0], y) {
      InsertKeepsTies(less, x, y, s[1..]);
      assert ([y] + s[1..])[1..] == s[1..];
      var t := InsertStable(less, y, s[1..]);
      assert ([s[0]] + t)[1..] == t;
    }
  }

  /** Python's sort is stable: elements with equal keys keep their order. */
  lemma {:induction false} StableSortKeepsTies(less: (Entity, Entity) -> bool, x: Entity, s: seq<Entity>)
    requires ByKey(less)
    ensures Ties(less, x, StableSort(less, s)) == Ties(less, x, s)
  {
    if s != [] {
      StableSortKeepsTies(less, x, s[1..]);
      var t := StableSort(less, s[1..]);
      InsertKeepsTies(less, x, s[0], t);
      assert ([s[0]] + t)[1..] == t;
    }
  }

  // --- disjointness ------------------------------------------------------------------------------

  predicate ClearOf(x: Entity, s: seq<Entity>) {
    forall i :: 0 <= i < |s| ==> !Overlap(x, s[i])
  }

  predicate AllDisjoint(s: seq<Entity>) {
    forall i, j :: 0 <= i < j < |s| ==> !Overlap(s[i], s[j])
  }

  lemma {:induction false} InsertKeepsDisjoint(x: Entity, s: seq<Entity>)
    requires AllDisjoint(s) && ClearOf(x, s)
    ensures AllDisjoint(InsertStable(StartsSooner, x, s))
    ensures forall y :: y in InsertStable(StartsSooner, x, s) <==> y == x || y in s
  {
    if s == [] || !StartsSooner(s[0], x) {
      assert forall y :: y in [x] + s <==> y == x || y in s;
    } else {
      InsertKeepsDisjoint(x, s[1..]);
      var t := InsertStable(StartsSooner, x, s[1..]);
      assert forall y :: y in s <==> y == s[0] || y in s[1..];
      assert forall y :: y in [s[0]] + t <==> y == s[0] || y in t;
      forall j | 0 <= j < |t| ensures !Overlap(s[0], t[j]) {
        assert t[j] in t;
        if t[j] != x {
          var k :| 0 <= k < |s[1..]| && s[1..][k] == t[j];
          assert !Overlap(s[0], s[k + 1]);
        }
      }
    }
  }

  lemma {:induction false} SortKeepsDisjoint(s: seq<Entity>)
    requires AllDisjoint(s)
    ensures AllDisjoint(StableSort(StartsSooner, s))
    ensures forall y :: y in StableSort(StartsSooner, s) <==> y in s
  {
    if s != [] {
      SortKeepsDisjoint(s[1..]);
      var t := StableSort(StartsSooner, s[1..]);
      forall j | 0 <= j < |t| ensures !Overlap(s[0], t[j]) {
        assert t[j] in t;
        var k :| 0 <= k < |s[1..]| && s[1..][k] == t[j];
        assert !Overlap(s[0], s[k + 1]);
      }
      InsertKeepsDisjoint(s[0], t);
      assert forall y :: y in s <==> y == s[0] || y in s[1..];
    }
  }

  // --- the greedy pass -----------------------------------------------------------------------------

  function Flatten(lists: seq<seq<Entity>>): seq<Entity> {
    if lists == [] then [] else Flatten(lists[..|lists| - 1]) + lists[|lists| - 1]
  }

  /** The entity was kept, or a kept one that does not come later overlaps it. */
  ghost predicate Accounted(e: Entity, kept: seq<Entity>) {
    e in kept || exists k :: k in kept && Overlap(e, k) && !Sooner(e, k)
  }

  /** Taken in order, an entity is kept when it is clear of every one kept before it. */
  function Kept(s: seq<Entity>): seq<Entity> {
    if s == [] then []
    else
      var before := Kept(s[..|s| - 1]);
      if ClearOf(s[|s| - 1], before) then before + [s[|s| - 1]] else before
  }

  /** The kept entities are pairwise disjoint, and each one left out meets a kept one that is no later. */
  lemma {:induction false} KeptExact(s: seq<Entity>)
    requires SortedBy(Sooner, s)
    ensures AllDisjoint(Kept(s))
    ensures forall e :: e in Kept(s) ==> e in s
    ensures forall e :: e in s ==> Accounted(e, Kept(s))
  {
    if s != [] {
      var init, last := s[..|s| - 1], s[|s| - 1];
      KeptExact(init);
      var before := Kept(init);
      assert s == init + [last];
      if ClearOf(last, before) {
        forall e | e in s ensures Accounted(e, before + [last]) {
          if e in init { KeepingAccounts(e, before, last); }
        }
        assert forall e :: e in before + [last] <==> e in before || e == last;
        assert forall i :: 0 <= i < |before| ==> !Overlap(last, before[i]) && !Overlap(before[i], last);
      } else {
        var j :| 0 <= j < |before| && Overlap(last, before[j]);
        assert before[j] in init;
        var k :| 0 <= k < |init| && init[k] == before[j];
        assert !Sooner(s[|s| - 1], s[k]);
        assert Accounted(last, before);
      }
    }
  }

  ghost predicate Occupies(occupied: set<int>, kept: seq<Entity>) {
    && (forall e :: e in kept ==> Positions(e) <= occupied)
    && (forall p :: p in occupied ==> exists e :: e in kept && p in Positions(e))
  }

  /** The occupied positions decide exactly whether an entity overlaps one that was kept. */
  lemma OccupiedMeansOverlap(occupied: set<int>, kept: seq<Entity>, x: Entity)
    requires Occupies(occupied, kept)
    ensures Positions(x) * occupied == {} <==> ClearOf(x, kept)
  {
    if Positions(x) * occupied == {} {
      forall i | 0 <= i < |kept| ensures !Overlap(x, kept[i]) {
        OverlapIsSharedPosition(x, kept[i]);
        assert kept[i] in kept;
        assert Positions(kept[i]) <= occupied;
        assert forall p :: p in Positions(x) && p in Positions(kept[i]) ==> p in Positions(x) * occupied;
      }
    } else {
      var p :| p in Positions(x) * occupied;
      var e :| e in kept && p in Positions(e);
      var i :| 0 <= i < |kept| && kept[i] == e;
      OverlapIsSharedPosition(x, e);
      assert p in Positions(x) * Positions(e);
    }
  }

  lemma KeepingOccupies(occupied: set<int>, kept: seq<Entity>, x: Entity)
    requires Occupies(occupied, kept)
    ensures Occupies(occupied + Positions(x), kept + [x])
  {
    var now := kept + [x];
    assert now[|kept|] == x;
    assert forall e :: e in now <==> e in kept || e == x;
  }

  lemma KeepingAccounts(e: Entity, kept: seq<Entity>, x: Entity)
    requires Accounted(e, kept)
    ensures Accounted(e, kept + [x])
  {
    assert forall k :: k in kept ==> k in kept + [x];
  }

  lemma SameElements(s: seq<Entity>, t: seq<Entity>)
    requires multiset(s) == multiset(t)
    ensures forall e :: e in s <==> e in t
  {
    assert forall e :: e in s <==> e in multiset(s);
    assert forall e :: e in t <==> e in multiset(t);
  }

  method MergeEntities(lists: seq<seq<Entity>>) returns (merged: seq<Entity>)
    ensures merged == StableSort(StartsSooner, Kept(StableSort(Sooner, Flatten(lists))))
  {
    var all: seq<Entity> := [];
    var n := 0;
    while n < |lists|
      invariant n <= |lists| && all == Flatten(lists[..n])
    {
      assert lists[..n + 1][..n] == lists[..n];
      all := all + lists[n];
      n := n + 1;
    }
    assert lists[..n] == lists;
    all := StableSort(Sooner, all);
    merged := [];
    var occupied: set<int> := {};
    var i := 0;
    while i < |all|
      invariant i <= |all|
      invariant Occupies(occupied, merged) && merged == Kept(all[..i])
    {
      var entity := all[i];
      var span := Positions(entity);
      OccupiedMeansOverlap(occupied, merged, entity);
      assert all[..i + 1][..i] == all[..i];
      if span * occupied == {} {
        KeepingOccupies(occupied, merged, entity);
        merged := merged + [entity];
        occupied := occupied + span;
      }
      i := i + 1;
    }
    assert all[..i] == all;
    merged := StableSort(StartsSooner, merged);
  }

  /**
   What a merge returns: disjoint spans in start order, all of them from the input, and for each
   input entity left out a kept one that overlaps it and comes no later in (priority, -confidence).
   */
  lemma MergedExact(lists: seq<seq<Entity>>)
    ensures var merged := StableSort(StartsSooner, Kept(StableSort(Sooner, Flatten(lists))));
            && AllDisjoint(merged)
            && (forall i, j :: 0 <= i < j < |merged| ==> merged[i].start <= merged[j].start)
            && (forall e :: e in merged ==> e in Flatten(lists))
            && (forall e :: e in Flatten(lists) ==> Accounted(e, merged))
  {
    var all := Flatten(lists);
    var sorted := StableSort(Sooner, all);
    StableSortCorrect(Sooner, all);
    SameElements(sorted, all);
    KeptExact(sorted);
    var kept := Kept(sorted);
    SortKeepsDisjoint(kept);
    StableSortCorrect(StartsSooner, kept);
    forall e | e in all ensures Accounted(e, StableSort(StartsSooner, kept)) {
      assert Accounted(e, kept);
    }
  }
}
