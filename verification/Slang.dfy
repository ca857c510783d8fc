/**
 The slang dictionary with its canonical index and its fuzzy cache
 (`SlangDictionary`, src/darkpulse/nlp/slang.py). The fuzzy ranking is a parameter:
 `process.extract` with a limit is a prefix of one ranking, best score first. Lower-casing is
 written out for ASCII letters; nothing below depends on which characters it changes.
 */
module Slang {
  import opened Common

  datatype Entry = Entry(term: string, canonical: string, language: string, confidence: real)

  datatype MatchType = Exact | Fuzzy | Prefix

  datatype Match = Match(entry: Entry, score: real, matchType: MatchType)

  datatype Scored = Scored(term: string, score: real)

  /** Attributes that `update_entry` sets; the term itself cannot be changed. */
  datatype Updates = Updates(canonical: Option<string>, language: Option<string>, confidence: Option<real>)

  type Ranking = (string, seq<string>) -> seq<Scored>

  /** The ranking names only the given terms, best score first. */
  ghost predicate ProperRanking(rank: Ranking) {
    forall q, terms ::
      && (forall i, j :: 0 <= i < j < |rank(q, terms)| ==> rank(q, terms)[i].score >= rank(q, terms)[j].score)
      && (forall i :: 0 <= i < |rank(q, terms)| ==> rank(q, terms)[i].term in terms)
  }

  function Updated(e: Entry, u: Updates): Entry {
    e.(canonical := if u.canonical.Some? then u.canonical.value else e.canonical,
       language := if u.language.Some? then u.language.value else e.language,
       confidence := if u.confidence.Some? then u.confidence.value else e.confidence)
  }

  // --- lists of matches -----------------------------------------------------------------------

  predicate BestFirst(ms: seq<Match>) {
    forall i, j :: 0 <= i < j < |ms| ==> ms[i].score >= ms[j].score
  }

  function Keep(ms: seq<Match>, threshold: real): seq<Match> {
    if ms == [] then []
    else (if ms[0].score >= threshold then [ms[0]] else []) + Keep(ms[1..], threshold)
  }

  function Take(ms: seq<Match>, n: nat): seq<Match> {
    if |ms| <= n then ms else ms[..n]
  }

  function Min(a: nat, b: nat): nat {
    if a <= b then a else b
  }

  /** How many matches reach the threshold. */
  function Reach(ms: seq<Match>, threshold: real): nat {
    if ms == [] || ms[0].score < threshold then 0 else 1 + Reach(ms[1..], threshold)
  }

  lemma {:induction false} KeepIsPrefix(ms: seq<Match>, threshold: real)
    requires BestFirst(ms)
    ensures Reach(ms, threshold) <= |ms|
    ensures Keep(ms, threshold) == ms[..Reach(ms, threshold)]
  {
    if ms != [] {
      KeepIsPrefix(ms[1..], threshold);
      if ms[0].score < threshold {
        forall i | 0 <= i < |ms| ensures ms[i].score < threshold {}
        KeepsNone(ms, threshold);
      }
    }
  }

  lemma {:induction false} KeepsNone(ms: seq<Match>, threshold: real)
    requires forall i :: 0 <= i < |ms| ==> ms[i].score < threshold
    ensures Keep(ms, threshold) == []
  {
    if ms != [] { KeepsNone(ms[1..], threshold); }
  }

  lemma {:induction false} ReachOfPrefix(ms: seq<Match>, n: nat, threshold: real)
    requires BestFirst(ms) && n <= |ms|
    ensures Reach(ms[..n], threshold) == Min(n, Reach(ms, threshold))
  {
    if n > 0 {
      assert ms[..n][1..] == ms[1..][..n - 1];
      ReachOfPrefix(ms[1..], n - 1, threshold);
    }
  }

  lemma {:induction false} ReachFalls(ms: seq<Match>, low: real, high: real)
    requires low <= high
    ensures Reach(ms, high) <= Reach(ms, low)
  {
    if ms != [] { ReachFalls(ms[1..], low, high); }
  }

  /** The first `limit` of the ranking that reach the threshold. */
  function Best(all: seq<Match>, threshold: real, limit: nat): seq<Match> {
    Keep(Take(all, limit), threshold)
  }

  lemma BestIsPrefix(all: seq<Match>, threshold: real, limit: nat)
    requires BestFirst(all)
    ensures Reach(all, threshold) <= |all|
    ensures Best(all, threshold, limit) == all[..Min(limit, Reach(all, threshold))]
  {
    KeepIsPrefix(all, threshold);
    KeepIsPrefix(Take(all, limit), threshold);
    if limit < |all| {
      ReachOfPrefix(all, limit, threshold);
    }
  }

  /** What `fuzzy_lookup` answers from a cached list. */
  function FromCache(cached: seq<Match>, threshold: real, limit: nat): seq<Match> {
    Take(Keep(cached, threshold), limit)
  }

  /** A cached answer, as a prefix of the ranking. */
  lemma CachedPrefix(all: seq<Match>, threshold0: real, limit0: nat, threshold: real, limit: nat)
    requires BestFirst(all)
    ensures var n0 := Min(limit0, Reach(all, threshold0));
            n0 <= |all| && FromCache(all[..n0], threshold, limit) == all[..Min(limit, Min(n0, Reach(all, threshold)))]
  {
    hide BestFirst, Reach, Keep;
    KeepIsPrefix(all, threshold0);
    KeepIsPrefix(all, threshold);
    var n0 := Min(limit0, Reach(all, threshold0));
    ReachOfPrefix(all, n0, threshold);
    PrefixBestFirst(all, n0);
    KeepIsPrefix(all[..n0], threshold);
    var n := Min(n0, Reach(all, threshold));
    assert all[..n0][..n] == all[..n];
    if limit < n { assert all[..n][..limit] == all[..limit]; }
  }

  lemma PrefixBestFirst(all: seq<Match>, n: nat)
    requires BestFirst(all) && n <= |all|
    ensures BestFirst(all[..n])
  {
  }

  /** A threshold no lower and a limit no higher need no longer list. */
  lemma EnoughCached(all: seq<Match>, threshold0: real, limit0: nat, threshold: real, limit: nat)
    requires threshold0 <= threshold && limit <= limit0
    ensures Min(limit, Reach(all, threshold)) <= Min(limit0, Reach(all, threshold0))
  {
    ReachFalls(all, threshold0, threshold);
  }

  /**
   A cached answer is always a prefix of the fresh one. It is the whole of it exactly when the
   cached list is at least as long as the fresh answer; a threshold no lower and a limit no higher
   than those of the call that filled the cache guarantee that.
   */
  lemma CachedAnswer(all: seq<Match>, threshold0: real, limit0: nat, threshold: real, limit: nat)
    requires BestFirst(all)
    ensures var cached, anew := Best(all, threshold0, limit0), Best(all, threshold, limit);
            && FromCache(cached, threshold, limit) == anew[..Min(|anew|, |cached|)]
            && (FromCache(cached, threshold, limit) == anew <==> |anew| <= |cached|)
            && (threshold0 <= threshold && limit <= limit0 ==> |anew| <= |cached|)
  {
    hide BestFirst, Reach, Best, FromCache;
    BestIsPrefix(all, threshold0, limit0);
    BestIsPrefix(all, threshold, limit);
    CachedPrefix(all, threshold0, limit0, threshold, limit);
    var n0, n := Min(limit0, Reach(all, threshold0)), Min(limit, Reach(all, threshold));
    assert all[..n][..Min(n, n0)] == all[..Min(n, n0)];
    if threshold0 <= threshold && limit <= limit0 {
      EnoughCached(all, threshold0, limit0, threshold, limit);
    } else if threshold < threshold0 {
      ReachFalls(all, threshold, threshold0);
    }
  }

  lemma {:induction false} KeepSnoc(ms: seq<Match>, i: nat, threshold: real)
    requires i < |ms|
    ensures Keep(ms[..i + 1], threshold)
         == if ms[i].score >= threshold then Keep(ms[..i], threshold) + [ms[i]] else Keep(ms[..i], threshold)
  {
    if i > 0 {
      KeepSnoc(ms[1..], i - 1, threshold);
      assert ms[..i + 1][1..] == ms[1..][..i] && ms[..i][1..] == ms[1..][..i - 1];
    }
  }

  function TypeOf(matched: string, q: string): MatchType {
    if q <= matched || matched <= q then Prefix else Fuzzy
  }

  type Entries = map<string, Entry>

  const NO_ENTRY := Entry("", "", "", 0.0)

  function MatchFor(entries: Entries, s: Scored, q: string): Match {
    Match(if s.term in entries then entries[s.term] else NO_ENTRY, s.score, TypeOf(s.term, q))
  }

  /** The whole ranking for a lower-cased query, as matches. */
  function Ranked(rank: Ranking, q: string, terms: seq<string>, entries: Entries): (ms: seq<Match>)
    ensures |ms| == |rank(q, terms)|
  {
    var r := rank(q, terms);
    seq(|r|, i requires 0 <= i < |r| => MatchFor(entries, r[i], q))
  }

  lemma RankedBestFirst(rank: Ranking, q: string, terms: seq<string>, entries: Entries)
    requires ProperRanking(rank)
    ensures BestFirst(Ranked(rank, q, terms, entries))
    ensures terms == [] ==> Ranked(rank, q, terms, entries) == []
  {
    var r := rank(q, terms);
    assert forall i :: 0 <= i < |r| ==> r[i].term in terms;
    if terms == [] && |r| > 0 {
      RankedTermIsListed(rank, q, terms);
      assert false;
    }
  }

  lemma RankedTermIsListed(rank: Ranking, q: string, terms: seq<string>)
    requires ProperRanking(rank) && |rank(q, terms)| > 0
    ensures exists t :: t in terms
  {
    assert rank(q, terms)[0].term in terms;
  }

  // --- the canonical index --------------------------------------------------------------------

  type Index = map<string, seq<string>>

  function Listed(index: Index, c: string): seq<string> {
    if c in index then index[c] else []
  }

  function Enlist(index: Index, c: string, t: string): Index {
    if t in Listed(index, c) then index else index[c := Listed(index, c) + [t]]
  }

  function Delist(index: Index, c: string, t: string): Index {
    if c !in index then index
    else if Without(index[c], t) == [] then index - {c}
    else index[c := Without(index[c], t)]
  }

  ghost predicate ListsOk(index: Index) {
    forall c :: c in index ==> index[c] != [] && NoDup(index[c])
  }

  /** Every live term is listed under its canonical. */
  ghost predicate AllListed(entries: Entries, index: Index) {
    forall t :: t in entries ==> t in Listed(index, Lower(entries[t].canonical))
  }

  /** The index lists nothing but live terms under their present canonical. */
  ghost predicate Tidy(entries: Entries, index: Index) {
    forall c, t :: t in Listed(index, c) ==> t in entries && Lower(entries[t].canonical) == c
  }

  /** Giving entry e to term t takes a live term away from its canonical. */
  predicate Moves(entries: Entries, t: string, e: Entry) {
    t in entries && Lower(entries[t].canonical) != Lower(e.canonical)
  }

  lemma EnlistLists(index: Index, c: string, t: string, d: string, u: string)
    ensures u in Listed(Enlist(index, c, t), d) <==> u in Listed(index, d) || (d == c && u == t)
  {
  }

  lemma DelistLists(index: Index, c: string, t: string, d: string, u: string)
    ensures u in Listed(Delist(index, c, t), d) <==> u in Listed(index, d) && !(d == c && u == t)
  {
    if c in index { WithoutExact(index[c], t); }
  }

  lemma EnlistKeepsIndex(entries: Entries, index: Index, t: string, e: Entry)
    requires ListsOk(index) && AllListed(entries, index)
    ensures ListsOk(Enlist(index, Lower(e.canonical), t))
    ensures AllListed(entries[t := e], Enlist(index, Lower(e.canonical), t))
  {
    var n, now := Enlist(index, Lower(e.canonical), t), entries[t := e];
    forall u | u in now ensures u in Listed(n, Lower(now[u].canonical)) {
      EnlistLists(index, Lower(e.canonical), t, Lower(now[u].canonical), u);
    }
  }

  /** A tidy index stays tidy exactly when the term keeps its canonical. */
  lemma EnlistTidyExactly(entries: Entries, index: Index, t: string, e: Entry)
    requires AllListed(entries, index) && Tidy(entries, index)
    ensures Tidy(entries[t := e], Enlist(index, Lower(e.canonical), t)) <==> !Moves(entries, t, e)
  {
    var n, now := Enlist(index, Lower(e.canonical), t), entries[t := e];
    if Moves(entries, t, e) {
      var was := Lower(entries[t].canonical);
      EnlistLists(index, Lower(e.canonical), t, was, t);
      assert t in Listed(n, was) && Lower(now[t].canonical) != was;
    } else {
      forall c, u | u in Listed(n, c) ensures u in now && Lower(now[u].canonical) == c {
        EnlistLists(index, Lower(e.canonical), t, c, u);
      }
    }
  }

  lemma DelistKeepsLists(index: Index, c: string, t: string)
    requires ListsOk(index)
    ensures ListsOk(Delist(index, c, t))
  {
    if c in index { WithoutExact(index[c], t); }
  }

  lemma DelistKeepsIndex(entries: Entries, index: Index, t: string)
    requires AllListed(entries, index) && t in entries
    ensures AllListed(entries - {t}, Delist(index, Lower(entries[t].canonical), t))
    ensures Tidy(entries, index) ==> Tidy(entries - {t}, Delist(index, Lower(entries[t].canonical), t))
  {
    var c := Lower(entries[t].canonical);
    var n, now := Delist(index, c, t), entries - {t};
    forall u | u in now ensures u in Listed(n, Lower(now[u].canonical)) {
      DelistLists(index, c, t, Lower(now[u].canonical), u);
    }
    if Tidy(entries, index) {
      forall d, u | u in Listed(n, d) ensures u in now && Lower(now[u].canonical) == d {
        DelistLists(index, c, t, d, u);
      }
    }
  }

  // --- the invariant of the other fields -------------------------------------------------------

  /** The keys are the entries' own lower-cased terms, each once. */
  ghost predicate TermsOk(terms: seq<string>, entries: Entries) {
    && NoDup(terms) && (forall t :: t in terms <==> t in entries)
    && (forall t :: t in entries ==> Lower(entries[t].term) == t)
  }

  /** A lookup computed without the cache. */
  function Anew(rank: Ranking, terms: seq<string>, entries: Entries, q: string, threshold: real, limit: nat): seq<Match> {
    Best(Ranked(rank, q, terms, entries), threshold, limit)
  }

  /** Cached lines are answers that still hold, and never stand in for an exact entry. */
  ghost predicate CacheOk(
    rank: Ranking, terms: seq<string>, entries: Entries, cache: map<string, seq<Match>>, filled: map<string, (real, nat)>)
  {
    && cache.Keys == filled.Keys
    && forall q :: q in cache ==> q !in entries && cache[q] == Anew(rank, terms, entries, q, filled[q].0, filled[q].1)
  }

  lemma NothingCached(rank: Ranking, terms: seq<string>, entries: Entries)
    ensures CacheOk(rank, terms, entries, map[], map[])
  {
  }

  lemma TermsAfterAdd(terms: seq<string>, entries: Entries, e: Entry)
    requires TermsOk(terms, entries)
    ensures var t := Lower(e.term);
            TermsOk(if t in entries then terms else terms + [t], entries[t := e])
  {
    hide Lower;
  }

  lemma TermsAfterRemove(terms: seq<string>, entries: Entries, t: string)
    requires TermsOk(terms, entries)
    ensures TermsOk(Without(terms, t), entries - {t})
  {
    hide Lower;
    WithoutExact(terms, t);
  }

  lemma NoTerms(terms: seq<string>)
    requires TermsOk(terms, map[])
    ensures terms == []
  {
    if |terms| > 0 {
      SomeTerm(terms);
      assert false;
    }
  }

  lemma SomeTerm(terms: seq<string>)
    requires |terms| > 0
    ensures exists t :: t in terms
  {
    assert terms[0] in terms;
  }

  class SlangDictionary {
    const rank: Ranking
    /** The keys of `_entries` in insertion order, and the entries. */
    var terms: seq<string>
    var entries: Entries
    var index: Index
    var cache: map<string, seq<Match>>
    /** Threshold and limit of the call that filled a cache line. */
    ghost var filled: map<string, (real, nat)>
    /** Some live term was once given another canonical. */
    ghost var moved: bool

    ghost predicate Valid()
      reads this
    {
      && ProperRanking(rank)
      && TermsOk(terms, entries)
      && ListsOk(index) && AllListed(entries, index)
      && (!moved ==> Tidy(entries, index))
      && CacheOk(rank, terms, entries, cache, filled)
    }

    constructor (rank: Ranking)
      requires ProperRanking(rank)
      ensures Valid() && entries == map[] && this.rank == rank && !moved
    {
      this.rank := rank;
      terms, entries, index, cache, filled, moved := [], map[], map[], map[], map[], false;
    }

    method AddEntry(entry: Entry)
      requires Valid()
      modifies this
      ensures Valid()
      ensures entries == old(entries)[Lower(entry.term) := entry]
      ensures index == Enlist(old(index), Lower(entry.canonical), Lower(entry.term))
      ensures cache == map[]
      ensures moved <==> old(moved) || Moves(old(entries), Lower(entry.term), entry)
      ensures old(Tidy(entries, index)) ==> (Tidy(entries, index) <==> !Moves(old(entries), Lower(entry.term), entry))
    {
      hide ListsOk, AllListed, Tidy, Moves, ProperRanking, Lower, TermsOk, CacheOk, Listed;
      var t := Lower(entry.term);
      ghost var moves := Moves(entries, t, entry);
      EnlistKeepsIndex(entries, index, t, entry);
      TermsAfterAdd(terms, entries, entry);
      if Tidy(entries, index) {
        EnlistTidyExactly(entries, index, t, entry);
      }
      if t !in entries {
        terms := terms + [t];
      }
      entries := entries[t := entry];
      var c := Lower(entry.canonical);
      if t !in Listed(index, c) {
        index := index[c := Listed(index, c) + [t]];
      }
      NothingCached(rank, terms, entries);
      cache := map[];
      filled := map[];
      moved := moved || moves;
    }

    method RemoveEntry(term: string) returns (removed: bool)
      requires Valid()
      modifies this
      ensures Valid() && moved == old(moved)
      ensures removed <==> Lower(term) in old(entries)
      ensures entries == old(entries) - {Lower(term)}
      ensures removed ==> cache == map[]
      ensures removed ==> index == Delist(old(index), Lower(old(entries)[Lower(term)].canonical), Lower(term))
      ensures !removed ==> index == old(index) && cache == old(cache) && terms == old(terms)
      ensures old(Tidy(entries, index)) ==> Tidy(entries, index)
    {
      hide ListsOk, AllListed, Tidy, ProperRanking, Lower, TermsOk, Anew, Without;
      var t := Lower(term);
      if t !in entries {
        assert entries - {t} == entries;
        return false;
      }
      var c := Lower(entries[t].canonical);
      DelistKeepsIndex(entries, index, t);
      DelistKeepsLists(index, c, t);
      TermsAfterRemove(terms, entries, t);
      terms := Without(terms, t);
      entries := entries - {t};
      if c in index {
        var left := Without(index[c], t);
        index := if left == [] then index - {c} else index[c := left];
      }
      cache := map[];
      filled := map[];
      return true;
    }

    method UpdateEntry(term: string, updates: Updates) returns (updated: bool)
      requires Valid()
      modifies this
      ensures Valid()
      ensures updated <==> Lower(term) in old(entries)
      ensures updated ==>
                var t := Lower(term);
                var e := Updated(old(entries)[t], updates);
                && entries == old(entries)[t := e]
                && index == Enlist(old(index), Lower(e.canonical), t)
                && cache == map[]
                && (moved <==> old(moved) || Moves(old(entries), t, e))
      ensures !updated ==> entries == old(entries) && index == old(index) && cache == old(cache)
    {
      hide ListsOk, AllListed, Tidy, ProperRanking, Lower, CacheOk;
      var t := Lower(term);
      if t !in entries {
        return false;
      }
      AddEntry(Updated(entries[t], updates));
      return true;
    }

    /** `get_entries_by_canonical` */
    method EntriesByCanonical(canonical: string) returns (found: seq<Entry>)
      requires Valid()
      ensures NoDup(found)
      ensures forall t :: t in entries && Lower(entries[t].canonical) == Lower(canonical) ==> entries[t] in found
      ensures forall e :: e in found ==> Lower(e.term) in entries && entries[Lower(e.term)] == e
      ensures !moved ==> forall e :: e in found ==> Lower(e.canonical) == Lower(canonical)
    {
      hide Lower, ProperRanking, CacheOk;
      var listed := Listed(index, Lower(canonical));
      found := [];
      var i := 0;
      while i < |listed|
        invariant i <= |listed|
        invariant found == EntriesOf(entries, listed[..i])
      {
        EntriesSnoc(entries, listed, i);
        if listed[i] in entries {
          found := found + [entries[listed[i]]];
        }
        i := i + 1;
      }
      assert listed[..i] == listed;
      EntriesExact(entries, listed);
    }

    /** `fuzzy_lookup` */
    method FuzzyLookup(term: string, threshold: real, limit: nat) returns (matches: seq<Match>)
      requires Valid()
      modifies this`cache, this`filled
      ensures Valid()
      ensures Lower(term) in entries ==> matches == [Match(entries[Lower(term)], 100.0, Exact)]
      ensures Lower(term) !in entries && Lower(term) !in old(cache) ==>
                matches == Anew(rank, terms, entries, Lower(term), threshold, limit)
      ensures Lower(term) in old(cache) ==>
                var anew, line := Anew(rank, terms, entries, Lower(term), threshold, limit), old(cache)[Lower(term)];
                && matches == anew[..Min(|anew|, |line|)]
                && (matches == anew <==> |anew| <= |line|)
                && (old(filled)[Lower(term)].0 <= threshold && limit <= old(filled)[Lower(term)].1 ==> matches == anew)
      ensures forall q :: q in old(cache) ==> q in cache && cache[q] == old(cache)[q]
    {
      hide ListsOk, AllListed, Tidy, ProperRanking, Lower, TermsOk, Keep, BestFirst;
      var q := Lower(term);
      ghost var all := Ranked(rank, q, terms, entries);
      RankedBestFirst(rank, q, terms, entries);
      if q in cache {
        CachedAnswer(all, filled[q].0, filled[q].1, threshold, limit);
        return Take(Keep(cache[q], threshold), limit);
      }
      if q in entries {
        return [Match(entries[q], 100.0, Exact)];
      }
      if entries == map[] {
        NoTerms(terms);
        KeepNothing(threshold);
        assert Take(all, limit) == [];
        return [];
      }
      RankedTermsLive(rank, q, terms, entries);
      var results := rank(q, terms);
      if |results| > limit {
        results := results[..limit];
      }
      matches := [];
      KeepNothing(threshold);
      var i := 0;
      while i < |results|
        invariant i <= |results|
        invariant matches == Keep(all[..i], threshold)
        invariant cache == old(cache) && filled == old(filled)
      {
        KeepSnoc(all, i, threshold);
        if results[i].score >= threshold {
          matches := matches + [Match(entries[results[i].term], results[i].score, TypeOf(results[i].term, q))];
        }
        i := i + 1;
      }
      assert all[..i] == Take(all, limit);
      cache := cache[q := matches];
      filled := filled[q := (threshold, limit)];
    }
  }

  lemma KeepNothing(threshold: real)
    ensures Keep([], threshold) == []
  {
  }

  lemma RankedTermsLive(rank: Ranking, q: string, terms: seq<string>, entries: Entries)
    requires ProperRanking(rank) && TermsOk(terms, entries)
    ensures forall i :: 0 <= i < |rank(q, terms)| ==> rank(q, terms)[i].term in entries
  {
    hide Lower;
  }

  /** The live entries of a list of terms. */
  function EntriesOf(entries: Entries, ts: seq<string>): seq<Entry> {
    if ts == [] then []
    else (if ts[0] in entries then [entries[ts[0]]] else []) + EntriesOf(entries, ts[1..])
  }

  lemma {:induction false} EntriesSnoc(entries: Entries, ts: seq<string>, i: nat)
    requires i < |ts|
    ensures EntriesOf(entries, ts[..i + 1])
         == if ts[i] in entries then EntriesOf(entries, ts[..i]) + [entries[ts[i]]] else EntriesOf(entries, ts[..i])
  {
    if i > 0 {
      EntriesSnoc(entries, ts[1..], i - 1);
      assert ts[..i + 1][1..] == ts[1..][..i] && ts[..i][1..] == ts[1..][..i - 1];
    }
  }

  lemma {:induction false} EntriesExact(entries: Entries, ts: seq<string>)
    requires NoDup(ts) && forall t :: t in entries ==> Lower(entries[t].term) == t
    ensures forall e :: e in EntriesOf(entries, ts) <==>
              Lower(e.term) in ts && Lower(e.term) in entries && entries[Lower(e.term)] == e
    ensures NoDup(EntriesOf(entries, ts))
  {
    hide Lower;
    if ts != [] {
      var rest := EntriesOf(entries, ts[1..]);
      EntriesExact(entries, ts[1..]);
      assert forall t :: t in ts <==> t == ts[0] || t in ts[1..];
      if ts[0] in entries {
        var head := entries[ts[0]];
        forall e ensures e in [head] + rest <==> e == head || e in rest {}
        assert ts[0] !in ts[1..];
        forall j | 0 <= j < |rest| ensures rest[j] != head {
          assert rest[j] in rest;
        }
      }
    }
  }

  /** The shortest way to a stale listing: a term added under "a" and added again under "b" is still answered for "a". */
  lemma StaleListing()
    ensures var e, f := Entry("t", "a", "", 0.0), Entry("t", "b", "", 0.0);
            var entries := map["t" := e]["t" := f];
            var index := Enlist(Enlist(map[], Lower(e.canonical), "t"), Lower(f.canonical), "t");
            && !Tidy(entries, index)
            && EntriesOf(entries, Listed(index, Lower("a"))) == [f] && Lower(f.canonical) != Lower("a")
  {
    assert Lower("a") == "a" && Lower("b") == "b" by {
      assert "a"[1..] == [] && "b"[1..] == [];
    }
    var f := Entry("t", "b", "", 0.0);
    var entries := map["t" := f];
    var index := map["a" := ["t"], "b" := ["t"]];
    var first: Index := map["a" := ["t"]];
    assert [] + ["t"] == ["t"];
    assert Enlist(map[], "a", "t") == first && Enlist(first, "b", "t") == index;
    assert Listed(index, "a")[0] == "t" && "t" in Listed(index, "a") && Lower(entries["t"].canonical) != "a";
    assert !Tidy(entries, index);
    assert map["t" := Entry("t", "a", "", 0.0)]["t" := f] == entries;
    assert ["t"][1..] == [];
    assert EntriesOf(entries, ["t"]) == [f] + EntriesOf(entries, []);
  }
}
