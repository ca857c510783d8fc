/**
 The actor listing (`list_actors`, src/darkpulse/api/routes/actors.py): vendor mentions are
 grouped by alias, sorted by listing count and paged by a (count, alias) cursor.
 */
module Actors {
  import opened Common
  import opened Order
  import opened Keyset

  datatype Group = Group(alias: string, listingCount: nat)

  const MAX_CURSOR_LENGTH := 512

  datatype Cursor = Cursor(count: int, alias: string)

  /** A cursor as text: how long it is, and what it decodes to, if it does. */
  datatype CursorText = CursorText(length: nat, decoded: Option<Cursor>)

  datatype Response = Response(data: seq<Group>, cursor: Option<CursorText>, total: nat)

  /** The answer 400, "Invalid actor cursor", or a page. */
  datatype Answer = Invalid | Page(response: Response)

  // --- how long a cursor is ----------------------------------------------------------------------

  /** How many characters `json.dumps` writes for one: short escapes, `\u` escapes, and two of those beyond the BMP. */
  function EscapedWidth(c: char): nat {
    if c == '"' || c == '\\' || c == '\n' || c == '\r' || c == '\t' || c == 8 as char || c == 12 as char then 2
    else if ' ' <= c <= '~' then 1
    else if c as int < 0x10000 then 6
    else 12
  }

  function EscapedLength(s: string): nat {
    if s == [] then 0 else EscapedWidth(s[0]) + EscapedLength(s[1..])
  }

  function DecimalDigits(n: nat): nat {
    if n < 10 then 1 else 1 + DecimalDigits(n / 10)
  }

  /** `{"count": n, "alias": "..."}` */
  function JsonLength(g: Group): nat {
    |"{\"count\": , \"alias\": \"\"}"| + DecimalDigits(g.listingCount) + EscapedLength(g.alias)
  }

  /** Base64 writes four characters for every three bytes begun. */
  function EncodedLength(g: Group): nat {
    4 * ((JsonLength(g) + 2) / 3)
  }

  /** The cursor that a page ending with the group hands out. */
  function Encode(g: Group): CursorText {
    CursorText(EncodedLength(g), Some(Cursor(g.listingCount, g.alias)))
  }

  /** The cursor of the group is accepted when it comes back. */
  predicate Fits(g: Group) {
    EncodedLength(g) <= MAX_CURSOR_LENGTH
  }

  /** In terms of the alias: what is left of 384 characters after the frame and the count. */
  lemma FitsExactly(g: Group)
    ensures Fits(g) <==> EscapedLength(g.alias) + DecimalDigits(g.listingCount) <= 360
  {
    assert |"{\"count\": , \"alias\": \"\"}"| == 24;
  }

  /** `$unwind`, and the matches on the alias. `wanted` is the case-insensitive pattern. */
  function Mentions(docs: seq<seq<string>>, wanted: string -> bool): seq<string> {
    if docs == [] then [] else Where(docs[0], a => a != "" && wanted(a)) + Mentions(docs[1..], wanted)
  }

  function Count(mentions: seq<string>, alias: string): nat {
    multiset(mentions)[alias]
  }

  /** One more mention in a grouping. */
  function AddMention(groups: seq<Group>, alias: string): seq<Group> {
    if groups == [] then [Group(alias, 1)]
    else if groups[0].alias == alias then [groups[0].(listingCount := groups[0].listingCount + 1)] + groups[1..]
    else [groups[0]] + AddMention(groups[1..], alias)
  }

  /** `$group` by alias with `{"$sum": 1}`. */
  function Grouped(mentions: seq<string>): seq<Group> {
    if mentions == [] then [] else AddMention(Grouped(mentions[..|mentions| - 1]), mentions[|mentions| - 1])
  }

  function Total(groups: seq<Group>): nat {
    if groups == [] then 0 else groups[0].listingCount + Total(groups[1..])
  }

  predicate Names(groups: seq<Group>, alias: string) {
    groups != [] && (groups[0].alias == alias || Names(groups[1..], alias))
  }

  /** The listing count of an alias; zero without a group. */
  function Tally(groups: seq<Group>, alias: string): nat {
    if groups == [] then 0
    else if groups[0].alias == alias then groups[0].listingCount
    else Tally(groups[1..], alias)
  }

  predicate OneGroupEach(groups: seq<Group>) {
    groups == [] || (!Names(groups[1..], groups[0].alias) && OneGroupEach(groups[1..]))
  }

  lemma {:induction false} AddMentionExact(groups: seq<Group>, alias: string, a: string)
    ensures Names(AddMention(groups, alias), a) <==> Names(groups, a) || a == alias
    ensures Tally(AddMention(groups, alias), a) == Tally(groups, a) + if a == alias then 1 else 0
    ensures Total(AddMention(groups, alias)) == Total(groups) + 1
  {
    if groups != [] && groups[0].alias != alias {
      AddMentionExact(groups[1..], alias, a);
      assert AddMention(groups, alias)[1..] == AddMention(groups[1..], alias);
    } else if groups != [] {
      assert AddMention(groups, alias)[1..] == groups[1..];
    }
  }

  lemma {:induction false} AddMentionOneEach(groups: seq<Group>, alias: string)
    requires OneGroupEach(groups)
    ensures OneGroupEach(AddMention(groups, alias))
  {
    if groups != [] && groups[0].alias != alias {
      AddMentionOneEach(groups[1..], alias);
      AddMentionExact(groups[1..], alias, groups[0].alias);
      assert AddMention(groups, alias)[1..] == AddMention(groups[1..], alias);
    } else if groups != [] {
      assert AddMention(groups, alias)[1..] == groups[1..];
    }
  }

  lemma {:induction false} InGroups(groups: seq<Group>, g: Group)
    requires OneGroupEach(groups)
    ensures g in groups <==> Names(groups, g.alias) && Tally(groups, g.alias) == g.listingCount
  {
    if groups != [] {
      InGroups(groups[1..], g);
      assert g in groups <==> g == groups[0] || g in groups[1..];
    }
  }

  lemma {:induction false} DistinctAliases(groups: seq<Group>)
    requires OneGroupEach(groups)
    ensures forall i, j :: 0 <= i < j < |groups| ==> groups[i].alias != groups[j].alias
  {
    if groups != [] {
      DistinctAliases(groups[1..]);
      forall j | 1 <= j < |groups| ensures groups[j].alias != groups[0].alias {
        InGroups(groups[1..], groups[1..][j - 1]);
      }
    }
  }

  lemma {:induction false} GroupedTally(mentions: seq<string>, a: string)
    ensures OneGroupEach(Grouped(mentions))
    ensures Total(Grouped(mentions)) == |mentions|
    ensures Names(Grouped(mentions), a) <==> a in mentions
    ensures Tally(Grouped(mentions), a) == Count(mentions, a)
  {
    if mentions != [] {
      var n := |mentions| - 1;
      GroupedTally(mentions[..n], a);
      AddMentionOneEach(Grouped(mentions[..n]), mentions[n]);
      AddMentionExact(Grouped(mentions[..n]), mentions[n], a);
      assert mentions == mentions[..n] + [mentions[n]];
    }
  }

  /** Every alias that is mentioned has exactly one group, with its number of mentions. */
  lemma GroupedExact(mentions: seq<string>)
    ensures forall i, j :: 0 <= i < j < |Grouped(mentions)| ==> Grouped(mentions)[i].alias != Grouped(mentions)[j].alias
    ensures Total(Grouped(mentions)) == |mentions|
    ensures forall g :: g in Grouped(mentions) <==> g.alias in mentions && g.listingCount == Count(mentions, g.alias)
  {
    GroupedTally(mentions, "");
    DistinctAliases(Grouped(mentions));
    forall g
      ensures g in Grouped(mentions) <==> g.alias in mentions && g.listingCount == Count(mentions, g.alias)
    {
      GroupedTally(mentions, g.alias);
      InGroups(Grouped(mentions), g);
    }
  }

  /** listing_count descending, then alias ascending. */
  predicate KeyBefore(count: int, alias: string, count': int, alias': string) {
    count > count' || (count == count' && TextLess(alias, alias'))
  }

  predicate Before(a: Group, b: Group) {
    KeyBefore(a.listingCount, a.alias, b.listingCount, b.alias)
  }

  /** The `$match` that a cursor adds behind the grouping. */
  predicate Behind(cursor: Option<Cursor>, g: Group) {
    match cursor
    case None => true
    case Some(c) => g.listingCount < c.count || (g.listingCount == c.count && TextLess(c.alias, g.alias))
  }

  function Query(cursor: Option<Cursor>): Group -> bool {
    g => Behind(cursor, g)
  }

  function Everyone(mentions: seq<string>): seq<Group> {
    Arrange(Before, Where(Grouped(mentions), Query(None)))
  }

  /** A cursor that is too long or does not decode is refused. */
  predicate Refused(cursor: Option<CursorText>) {
    cursor.Some? && (cursor.value.length > MAX_CURSOR_LENGTH || cursor.value.decoded.None?)
  }

  function Decoded(cursor: Option<CursorText>): Option<Cursor> {
    if cursor.Some? then cursor.value.decoded else None
  }

  function PageOf(mentions: seq<string>, cursor: Option<CursorText>, limit: nat): Answer
    requires limit >= 1
  {
    if Refused(cursor) then Invalid
    else
      var rest := Arrange(Before, Where(Grouped(mentions), Query(Decoded(cursor))));
      Page(if |rest| > limit
           then Response(rest[..limit], Some(Encode(rest[limit - 1])), |Grouped(mentions)|)
           else Response(rest, None, |Grouped(mentions)|))
  }

  /** `list_actors` */
  method ListActors(mentions: seq<string>, cursor: Option<CursorText>, limit: nat) returns (answer: Answer)
    requires limit >= 1
    ensures answer == PageOf(mentions, cursor, limit)
    ensures answer == Invalid <==>
              cursor.Some? && (cursor.value.length > MAX_CURSOR_LENGTH || cursor.value.decoded.None?)
    ensures answer.Page? ==> |answer.response.data| <= limit
  {
    hide Arrange, Where, Grouped, Query, Encode;
    var groups := Grouped(mentions);
    var key: Option<Cursor> := None;
    if cursor.Some? {
      if cursor.value.length > MAX_CURSOR_LENGTH {
        return Invalid;
      }
      if cursor.value.decoded.None? {
        return Invalid;
      }
      key := cursor.value.decoded;
    }
    var sorted := Arrange(Before, Where(groups, Query(key)));
    LimitPlusOne(sorted, limit);
    var results := if |sorted| <= limit + 1 then sorted else sorted[..limit + 1];
    var hasNext := |results| > limit;
    if hasNext {
      results := results[..|results| - 1];
    }
    var data := [];
    var i := 0;
    while i < |results|
      invariant i <= |results| && data == results[..i]
    {
      data := data + [results[i]];
      i := i + 1;
    }
    var next: Option<CursorText> := None;
    if hasNext && results != [] {
      next := Some(Encode(results[|results| - 1]));
    }
    answer := Page(Response(data, next, |groups|));
  }

  // --- following the cursors -----------------------------------------------------------------

  lemma SortOrders(mentions: seq<string>)
    ensures Orders(Before, Grouped(mentions)) && Orders(Before, [])
  {
    GroupedExact(mentions);
    TextIsTotal();
  }

  lemma CursorContinues(mentions: seq<string>, m: nat)
    requires 1 <= m <= |Everyone(mentions)|
    ensures var last := Everyone(mentions)[m - 1];
            Arrange(Before, Where(Grouped(mentions), Query(Some(Cursor(last.listingCount, last.alias)))))
            == Everyone(mentions)[m..]
  {
    SortOrders(mentions);
    var last := Everyone(mentions)[m - 1];
    RestOfArrangement(Before, Grouped(mentions), Query(None), Query(Some(Cursor(last.listingCount, last.alias))), m);
  }

  /** The data of the pages that are answered, and whether the last of them hands out no cursor. */
  function FollowFrom(mentions: seq<string>, limit: nat, cursor: Option<CursorText>, fuel: nat): (seq<Group>, bool)
    requires limit >= 1
    decreases fuel
  {
    if fuel == 0 then ([], false)
    else
      match PageOf(mentions, cursor, limit)
      case Invalid => ([], false)
      case Page(page) =>
        if page.cursor.None? then (page.data, true)
        else
          var (more, ended) := FollowFrom(mentions, limit, page.cursor, fuel - 1);
          (page.data + more, ended)
  }

  /** From the m-th group on, where the first page ends whose cursor is refused. */
  function Stop(all: seq<Group>, limit: nat, m: nat): (end: nat)
    requires limit >= 1 && m <= |all|
    ensures m <= end <= |all|
    decreases |all| - m
  {
    if m + limit >= |all| then |all|
    else if Fits(all[m + limit - 1]) then Stop(all, limit, m + limit)
    else m + limit
  }

  lemma {:induction false} FollowRest(mentions: seq<string>, limit: nat, cursor: Option<CursorText>, m: nat, fuel: nat)
    requires limit >= 1 && m <= |Everyone(mentions)| && !Refused(cursor)
    requires Arrange(Before, Where(Grouped(mentions), Query(Decoded(cursor)))) == Everyone(mentions)[m..]
    requires fuel > |Everyone(mentions)| - m + 1
    ensures var all := Everyone(mentions);
            var end := Stop(all, limit, m);
            FollowFrom(mentions, limit, cursor, fuel) == (all[m..end], end == |all|)
    decreases fuel
  {
    hide Everyone, Query, Grouped, Where, Arrange, Fits, PageOf, Refused, Decoded, Encode, FollowFrom, Stop;
    var all := Everyone(mentions);
    var rest := all[m..];
    PageOfRest(mentions, limit, cursor, rest);
    FollowPage(mentions, limit, cursor, fuel);
    StopStep(all, limit, m);
    if |rest| > limit {
      SliceAt(all, m, limit);
      var last := all[m + limit - 1];
      var next := Some(Encode(last));
      RefusedUnlessFits(last);
      SliceAppend(all, m, m + limit, Stop(all, limit, m));
      if Fits(last) {
        CursorContinues(mentions, m + limit);
        FollowRest(mentions, limit, next, m + limit, fuel - 1);
      } else {
        RefusedAnswer(mentions, limit, next, fuel - 1);
      }
    } else {
      assert rest == all[m..|all|];
    }
  }

  lemma FollowPage(mentions: seq<string>, limit: nat, cursor: Option<CursorText>, fuel: nat)
    requires limit >= 1 && fuel > 0 && PageOf(mentions, cursor, limit).Page?
    ensures var page := PageOf(mentions, cursor, limit).response;
            FollowFrom(mentions, limit, cursor, fuel)
              == if page.cursor.None? then (page.data, true)
                 else var (more, ended) := FollowFrom(mentions, limit, page.cursor, fuel - 1); (page.data + more, ended)
  {
  }

  lemma StopStep(all: seq<Group>, limit: nat, m: nat)
    requires limit >= 1 && m <= |all|
    ensures Stop(all, limit, m)
         == if m + limit >= |all| then |all| else if Fits(all[m + limit - 1]) then Stop(all, limit, m + limit) else m + limit
    ensures m + limit < |all| ==> Stop(all, limit, m) >= m + limit
  {
  }

  lemma SliceAt<T>(s: seq<T>, a: nat, n: nat)
    requires 1 <= n && a + n <= |s|
    ensures s[a..][..n] == s[a..a + n] && s[a..][n - 1] == s[a + n - 1]
  {
  }

  lemma SliceAppend<T>(s: seq<T>, a: nat, b: nat, c: nat)
    requires a <= b <= c <= |s|
    ensures s[a..b] + s[b..c] == s[a..c] && s[b..b] == []
  {
  }

  lemma PageOfRest(mentions: seq<string>, limit: nat, cursor: Option<CursorText>, rest: seq<Group>)
    requires limit >= 1 && !Refused(cursor)
    requires Arrange(Before, Where(Grouped(mentions), Query(Decoded(cursor)))) == rest
    ensures PageOf(mentions, cursor, limit)
         == Page(if |rest| > limit
                 then Response(rest[..limit], Some(Encode(rest[limit - 1])), |Grouped(mentions)|)
                 else Response(rest, None, |Grouped(mentions)|))
  {
  }

  lemma RefusedAnswer(mentions: seq<string>, limit: nat, cursor: Option<CursorText>, fuel: nat)
    requires limit >= 1 && Refused(cursor)
    ensures FollowFrom(mentions, limit, cursor, fuel) == ([], false)
  {
  }

  lemma RefusedUnlessFits(g: Group)
    ensures Refused(Some(Encode(g))) <==> !Fits(g)
    ensures Decoded(Some(Encode(g))) == Some(Cursor(g.listingCount, g.alias))
  {
  }

  function PageEnd(k: nat, limit: nat): nat {
    k * limit
  }

  /** A page that ends with the m-th group hands out a cursor that is accepted. */
  predicate FitsAt(all: seq<Group>, m: nat) {
    1 <= m <= |all| ==> Fits(all[m - 1])
  }

  /** From the j-th page on, every page but the last hands out a cursor that is accepted. */
  ghost predicate AllFit(all: seq<Group>, limit: nat, j: nat) {
    forall k: nat :: k > j && PageEnd(k, limit) < |all| ==> FitsAt(all, PageEnd(k, limit))
  }

  lemma PageEnds(limit: nat, j: nat)
    ensures PageEnd(j + 1, limit) == PageEnd(j, limit) + limit
    ensures forall k: nat :: k > j ==> PageEnd(k, limit) >= PageEnd(j, limit) + limit
  {
    forall k: nat | k > j ensures k * limit >= (j + 1) * limit {}
  }

  lemma {:induction false} StopsAtTheEnd(all: seq<Group>, limit: nat, j: nat)
    requires limit >= 1 && PageEnd(j, limit) <= |all|
    ensures Stop(all, limit, PageEnd(j, limit)) == |all| <==> AllFit(all, limit, j)
    decreases |all| - PageEnd(j, limit)
  {
    hide PageEnd, Fits;
    var m := PageEnd(j, limit);
    PageEnds(limit, j);
    if m + limit < |all| {
      StopsAtTheEnd(all, limit, j + 1);
      if Fits(all[m + limit - 1]) {
        forall k: nat | k > j && PageEnd(k, limit) < |all| && AllFit(all, limit, j + 1)
          ensures FitsAt(all, PageEnd(k, limit))
        {
          if k != j + 1 { assert k > j + 1; }
        }
      } else {
        assert !FitsAt(all, PageEnd(j + 1, limit));
      }
    }
  }

  lemma {:induction false} InsertTotal(s: seq<Group>, g: Group)
    ensures Total(Insert(Before, s, g)) == Total(s) + g.listingCount
  {
    if s == [] || Before(g, s[0]) {
      assert ([g] + s)[1..] == s;
    } else {
      InsertTotal(s[1..], g);
      assert ([s[0]] + Insert(Before, s[1..], g))[1..] == Insert(Before, s[1..], g);
    }
  }

  lemma {:induction false} ArrangeTotal(s: seq<Group>)
    ensures Total(Arrange(Before, s)) == Total(s)
  {
    if s != [] {
      ArrangeTotal(s[1..]);
      InsertTotal(Arrange(Before, s[1..]), s[0]);
    }
  }

  lemma {:induction false} WhereAll(s: seq<Group>)
    ensures Where(s, Query(None)) == s
  {
    if s != [] { WhereAll(s[1..]); }
  }

  /** The whole listing: every mentioned alias once, by (listing_count descending, alias ascending), with all mentions counted. */
  lemma EveryoneExact(mentions: seq<string>)
    ensures var all := Everyone(mentions);
            && Ascending(Before, all)
            && (forall g :: g in all <==> g.alias in mentions && g.listingCount == Count(mentions, g.alias))
            && Total(all) == |mentions| && |all| <= |mentions|
  {
    SortOrders(mentions);
    GroupedExact(mentions);
    WhereAll(Grouped(mentions));
    ArrangeExact(Before, Grouped(mentions));
    ArrangeTotal(Grouped(mentions));
    NoEmptyGroups(mentions);
  }

  /**
   Following the cursors lists the groups in that order up to the first page whose own cursor is
   refused. It ends with the whole listing if and only if no page of it ends at a group whose cursor
   is longer than 512 characters.
   */
  lemma CursorsListEveryActorOnce(mentions: seq<string>, limit: nat, fuel: nat)
    requires limit >= 1 && fuel > |mentions| + 1
    ensures var all := Everyone(mentions);
            var (data, ended) := FollowFrom(mentions, limit, None, fuel);
            && data == all[..Stop(all, limit, 0)]
            && (ended <==> data == all) && (ended <==> AllFit(all, limit, 0))
  {
    var all := Everyone(mentions);
    EveryoneExact(mentions);
    assert all[0..] == all && Arrange(Before, Where(Grouped(mentions), Query(None))) == all;
    hide Everyone, Grouped, FollowFrom, Arrange, Where, AllFit;
    FollowRest(mentions, limit, None, 0, fuel);
    assert PageEnd(0, limit) == 0;
    StopsAtTheEnd(all, limit, 0);
    assert all[0..Stop(all, limit, 0)] == all[..Stop(all, limit, 0)];
    assert |all[..Stop(all, limit, 0)]| == Stop(all, limit, 0);
    assert all[..|all|] == all;
  }

  /** An alias of 360 letters, and one behind it. */
  function LongAlias(): string {
    seq(360, _ => 'a')
  }

  /** With one group to a page, "b" is never listed behind it. */
  lemma UnreachableActor(fuel: nat)
    requires fuel > 3
    ensures var mentions := [LongAlias(), "b"];
            && Everyone(mentions) == [Group(LongAlias(), 1), Group("b", 1)]
            && FollowFrom(mentions, 1, None, fuel) == ([Group(LongAlias(), 1)], false)
  {
    var long, mentions := LongAlias(), [LongAlias(), "b"];
    var first, second := Group(long, 1), Group("b", 1);
    GroupsOfTwo(long, "b");
    assert long[0] == 'a' && TextLess(long, "b") && Before(first, second) && !Before(second, first);
    WhereAll([first, second]);
    assert [first, second][1..] == [second] && [second][1..] == [];
    assert Everyone(mentions) == [first, second];
    PlainLength(long);
    FitsExactly(first);
    hide Everyone, EscapedLength;
    CursorsListEveryActorOnce(mentions, 1, fuel);
    assert Stop([first, second], 1, 0) == 1;
  }

  lemma GroupsOfTwo(a: string, b: string)
    requires a != b
    ensures Grouped([a, b]) == [Group(a, 1), Group(b, 1)]
  {
    assert [a, b][..1] == [a] && [a][..0] == [] && [Group(a, 1)][1..] == [];
    assert Grouped([a]) == AddMention(Grouped([]), a) == [Group(a, 1)];
    assert [a, b] == [a] + [b] && Grouped([a, b]) == AddMention(Grouped([a]), b);
    assert AddMention([Group(a, 1)], b) == [Group(a, 1)] + [Group(b, 1)];
  }

  lemma {:induction false} PlainLength(s: string)
    requires forall i :: 0 <= i < |s| ==> s[i] == 'a'
    ensures EscapedLength(s) == |s|
  {
    if s != [] { PlainLength(s[1..]); }
  }

  lemma {:induction false} NoEmptyGroups(mentions: seq<string>)
    ensures |Grouped(mentions)| <= |mentions|
  {
    if mentions != [] {
      NoEmptyGroups(mentions[..|mentions| - 1]);
      AddOneGroup(Grouped(mentions[..|mentions| - 1]), mentions[|mentions| - 1]);
    }
  }

  lemma {:induction false} AddOneGroup(groups: seq<Group>, alias: string)
    ensures |AddMention(groups, alias)| <= |groups| + 1
  {
    if groups != [] && groups[0].alias != alias { AddOneGroup(groups[1..], alias); }
  }

  /** How often an alias occurs in the vendors of all documents. */
  function Occurrences(docs: seq<seq<string>>, alias: string): nat {
    if docs == [] then 0 else Count(docs[0], alias) + Occurrences(docs[1..], alias)
  }

  lemma {:induction false} WhereCounts(s: seq<string>, p: string -> bool, alias: string)
    ensures Count(Where(s, p), alias) == if p(alias) then Count(s, alias) else 0
  {
    if s != [] {
      WhereCounts(s[1..], p, alias);
      assert s == [s[0]] + s[1..];
    }
  }

  /** Every non-empty alias that the search pattern accepts is counted as often as it occurs, and nothing else is. */
  lemma {:induction false} MentionsExact(docs: seq<seq<string>>, wanted: string -> bool, alias: string)
    ensures Count(Mentions(docs, wanted), alias) == if alias != "" && wanted(alias) then Occurrences(docs, alias) else 0
    ensures alias in Mentions(docs, wanted) <==> alias != "" && wanted(alias) && exists d :: d in docs && alias in d
  {
    if docs != [] {
      WhereCounts(docs[0], a => a != "" && wanted(a), alias);
      WhereExact(docs[0], a => a != "" && wanted(a));
      MentionsExact(docs[1..], wanted, alias);
      assert forall d :: d in docs <==> d == docs[0] || d in docs[1..];
    }
  }
}
