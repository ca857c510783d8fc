/**
 The intel listing and its cursors (`list_intel`, src/darkpulse/api/routes/intel.py).
 Timestamps are ISO strings and are compared as strings, as the stored documents are.
 */
module Intel {
  import opened Common
  import opened Order
  import opened Keyset

  /** `summarised` is whether `_intel_summary` makes something of the document. */
  datatype Doc = Doc(intelId: string, capturedAt: string, summarised: bool, score: real, band: string,
                     sourceClass: string, vendors: set<string>)

  /**
   The query parameters. `others` are the product and neighbourhood filters, `resolved` an
   identifier that was looked up, `found` the hits of a text search, if there was one.
   */
  datatype Request = Request(
    others: Doc -> bool, resolved: Option<string>, found: Option<set<string>>, severityMin: Option<real>,
    band: string, sourceClass: string, vendor: string, dateFrom: Option<string>, dateTo: Option<string>)

  datatype Response = Response(data: seq<Doc>, cursor: Option<string>, total: nat)

  // --- cursors as text -------------------------------------------------------------------------

  /** `str.partition("|")`: what comes before the first bar, whether there is one, what comes after it. */
  function Partition(s: string): (string, bool, string) {
    if s == [] then ("", false, "")
    else if s[0] == '|' then ("", true, s[1..])
    else var (head, found, tail) := Partition(s[1..]); ([s[0]] + head, found, tail)
  }

  function CursorText(d: Doc): string {
    d.capturedAt + "|" + d.intelId
  }

  /** A cursor is read back as it was written exactly when the timestamp has no bar. */
  lemma {:induction false} CursorRoundTrip(at: string, id: string)
    ensures Partition(at + "|" + id) == (at, true, id) <==> '|' !in at
    ensures Partition(at + "|" + id).1
  {
    var text := at + "|" + id;
    if at == [] {
      assert text == "|" + id && text[1..] == id;
    } else {
      CursorRoundTrip(at[1..], id);
      assert text[1..] == at[1..] + "|" + id;
      assert at == [at[0]] + at[1..];
    }
  }

  // --- the query -------------------------------------------------------------------------------

  predicate Filters(r: Request, d: Doc) {
    && r.others(d)
    && (match r.resolved
        case Some(id) => d.intelId == id
        case None => r.found.None? || d.intelId in r.found.value)
    && (r.severityMin.Some? ==> d.score >= r.severityMin.value)
    && (r.band != "" ==> d.band == r.band)
    && (r.sourceClass != "" ==> d.sourceClass == r.sourceClass)
    && (r.vendor != "" ==> r.vendor in d.vendors)
  }

  predicate InDates(r: Request, at: string) {
    && (r.dateFrom.Some? ==> TextLeq(r.dateFrom.value, at))
    && (r.dateTo.Some? ==> TextLeq(at, r.dateTo.value))
  }

  /** The condition on (captured_at, intel_id) that a bare or a keyed cursor adds to the date bounds. */
  predicate InRange(r: Request, cursor: string, at: string, id: string) {
    if cursor == "" then InDates(r, at)
    else
      var (cursorAt, keyed, cursorId) := Partition(cursor);
      if !keyed then InDates(r, at) && TextLess(at, cursorAt)
      else
        || (InDates(r, at) && TextLess(at, cursorAt))
        || (&& TextLeq(if r.dateFrom.Some? then r.dateFrom.value else cursorAt, at)
            && TextLeq(at, cursorAt) && TextLess(id, cursorId))
  }

  /** (captured_at, intel_id), both descending. */
  predicate KeyBefore(at: string, id: string, at': string, id': string) {
    TextLess(at', at) || (at == at' && TextLess(id', id))
  }

  predicate Before(a: Doc, b: Doc) {
    KeyBefore(a.capturedAt, a.intelId, b.capturedAt, b.intelId)
  }

  /** A text search without hits answers at once. */
  predicate SearchedInVain(r: Request) {
    r.resolved.None? && r.found == Some({})
  }

  function Query(r: Request, cursor: string): Doc -> bool {
    d => Filters(r, d) && InRange(r, cursor, d.capturedAt, d.intelId)
  }

  /** The two parts of a keyed cursor's condition never miss a record behind the cursor. */
  lemma NothingMissed(r: Request, cursorAt: string, cursorId: string, at: string, id: string)
    requires '|' !in cursorAt
    ensures InDates(r, at) && KeyBefore(cursorAt, cursorId, at, id) ==>
              InRange(r, cursorAt + "|" + cursorId, at, id)
  {
    CursorRoundTrip(cursorAt, cursorId);
    assert cursorAt + "|" + cursorId != "";
  }

  /** The tiebreak can reach past `date_to`. */
  predicate Overreaches(r: Request, cursorAt: string, cursorId: string) {
    && r.dateTo.Some? && TextLess(r.dateTo.value, cursorAt) && cursorId != ""
    && (r.dateFrom.Some? ==> TextLeq(r.dateFrom.value, cursorAt))
  }

  /**
   A keyed cursor selects exactly the records within the dates and behind the cursor, unless it
   lies beyond `date_to`: such a cursor, which no page hands out, lets in records after `date_to`.
   */
  lemma RangeExactUnlessOverreaching(r: Request, cursorAt: string, cursorId: string)
    requires '|' !in cursorAt
    ensures (forall at, id :: InRange(r, cursorAt + "|" + cursorId, at, id)
                              <==> InDates(r, at) && KeyBefore(cursorAt, cursorId, at, id))
            <==> !Overreaches(r, cursorAt, cursorId)
  {
    var cursor := cursorAt + "|" + cursorId;
    CursorRoundTrip(cursorAt, cursorId);
    TextIsTotal();
    if Overreaches(r, cursorAt, cursorId) {
      assert InRange(r, cursor, cursorAt, "") && !InDates(r, cursorAt);
    } else {
      forall at, id
        ensures InRange(r, cursor, at, id) <==> InDates(r, at) && KeyBefore(cursorAt, cursorId, at, id)
      {
        NothingMissed(r, cursorAt, cursorId, at, id);
        NothingExtra(r, cursorAt, cursorId, at, id);
      }
    }
  }

  lemma NothingExtra(r: Request, cursorAt: string, cursorId: string, at: string, id: string)
    requires '|' !in cursorAt && !Overreaches(r, cursorAt, cursorId)
    ensures InRange(r, cursorAt + "|" + cursorId, at, id) ==>
              InDates(r, at) && KeyBefore(cursorAt, cursorId, at, id)
  {
    CursorRoundTrip(cursorAt, cursorId);
    TextIsTotal();
  }

  // --- pages -------------------------------------------------------------------------------------

  /** intel_id is unique, and timestamps have the ISO form. */
  ghost predicate WellFormed(coll: seq<Doc>) {
    && (forall i, j :: 0 <= i < j < |coll| ==> coll[i].intelId != coll[j].intelId)
    && (forall d :: d in coll ==> '|' !in d.capturedAt)
  }

  lemma SortOrders(coll: seq<Doc>)
    requires WellFormed(coll)
    ensures Orders(Before, coll) && Orders(Before, [])
  {
    TextIsTotal();
  }

  function Summaries(docs: seq<Doc>): seq<Doc> {
    if docs == [] then [] else (if docs[0].summarised then [docs[0]] else []) + Summaries(docs[1..])
  }

  /** All records that the request is about, newest first. */
  function Everything(coll: seq<Doc>, r: Request): seq<Doc> {
    Arrange(Before, Where(coll, Query(r, "")))
  }

  function PageOf(coll: seq<Doc>, r: Request, cursor: string, limit: nat): Response
    requires limit >= 1
  {
    if SearchedInVain(r) then Response([], None, 0)
    else
      var rest := Arrange(Before, Where(coll, Query(r, cursor)));
      if |rest| > limit
      then Response(Summaries(rest[..limit]), Some(CursorText(rest[limit - 1])), |Where(coll, Query(r, cursor))|)
      else Response(Summaries(rest), None, |Where(coll, Query(r, cursor))|)
  }

  const UP_TO_2023 := Request(d => true, None, None, None, "", "", "", None, Some("2023"))
  const OF_2024 := Doc("a", "2024", true, 0.0, "", "", {})

  /** A made-up cursor of 2024 makes a request for records up to 2023 answer one of 2024. */
  lemma RecordBeyondDateTo()
    ensures PageOf([OF_2024], UP_TO_2023, "2024|b", 10).data == [OF_2024]
    ensures TextLess("2023", OF_2024.capturedAt) && PageOf([OF_2024], UP_TO_2023, "", 10).data == []
  {
    CursorRoundTrip("2024", "b");
    assert "2024" + "|" + "b" == "2024|b";
    YearsInOrder();
    hide TextLess, Partition;
    assert !InDates(UP_TO_2023, "2024");
    assert InRange(UP_TO_2023, "2024|b", "2024", "a");
    OneMatch(OF_2024, Query(UP_TO_2023, "2024|b"));
    OneMatch(OF_2024, Query(UP_TO_2023, ""));
  }

  lemma YearsInOrder()
    ensures TextLess("2023", "2024") && !TextLess("2024", "2023") && TextLess("a", "b")
  {
    assert "2023"[1..] == "023" && "2024"[1..] == "024" && "023"[1..] == "23" && "024"[1..] == "24";
    assert "23"[1..] == "3" && "24"[1..] == "4";
    assert TextLess("3", "4") && !TextLess("4", "3");
    assert TextLess("23", "24") && !TextLess("24", "23");
    assert TextLess("023", "024") && !TextLess("024", "023");
  }

  lemma OneMatch(d: Doc, p: Doc -> bool)
    requires d.summarised
    ensures Arrange(Before, Where([d], p)) == (if p(d) then [d] else [])
    ensures Summaries([d]) == [d] && Summaries([]) == []
  {
    assert [d][1..] == [];
  }

  lemma {:induction false} SummariesSnoc(docs: seq<Doc>, k: nat)
    requires k < |docs|
    ensures Summaries(docs[..k + 1])
         == if docs[k].summarised then Summaries(docs[..k]) + [docs[k]] else Summaries(docs[..k])
  {
    if k > 0 {
      SummariesSnoc(docs[1..], k - 1);
      assert docs[..k + 1][1..] == docs[1..][..k] && docs[..k][1..] == docs[1..][..k - 1];
    }
  }

  lemma SummariesSplit(docs: seq<Doc>)
    requires docs != []
    ensures Summaries(docs) == (if docs[0].summarised then [docs[0]] else []) + Summaries(docs[1..])
  {
  }

  lemma {:induction false} SummariesAppend(a: seq<Doc>, b: seq<Doc>)
    ensures Summaries(a + b) == Summaries(a) + Summaries(b)
  {
    if a == [] {
      assert a + b == b;
    } else {
      var whole := a + b;
      assert whole[0] == a[0] && whole[1..] == a[1..] + b;
      SummariesAppend(a[1..], b);
      SummariesSplit(whole);
      SummariesSplit(a);
      hide Summaries;
      var head := if a[0].summarised then [a[0]] else [];
      assert Summaries(whole) == head + (Summaries(a[1..]) + Summaries(b));
    }
  }

  lemma AllMatchesSorted(coll: seq<Doc>, r: Request, cursor: string)
    requires WellFormed(coll)
    ensures |Arrange(Before, Where(coll, Query(r, cursor)))| == |Where(coll, Query(r, cursor))|
  {
    SortOrders(coll);
    WhereOrders(Before, coll, Query(r, cursor));
    ArrangeExact(Before, Where(coll, Query(r, cursor)));
  }

  lemma NoSummaries()
    ensures Summaries([]) == []
  {
  }

  /** `list_intel` below its parameter parsing. */
  method ListIntel(coll: seq<Doc>, r: Request, cursor: string, limit: nat) returns (page: Response)
    requires limit >= 1 && WellFormed(coll)
    ensures page == PageOf(coll, r, cursor, limit)
    ensures !SearchedInVain(r) ==> (page.cursor.Some? <==> page.total > limit)
    ensures |page.data| <= limit
  {
    hide Arrange, Where, Before, Query, WellFormed, CursorText, Summaries;
    if r.resolved.None? && r.found.Some? && r.found.value == {} {
      return Response([], None, 0);
    }
    NoSummaries();
    AllMatchesSorted(coll, r, cursor);
    var matching := Where(coll, Query(r, cursor));
    var sorted := Arrange(Before, matching);
    LimitPlusOne(sorted, limit);
    var results := if |sorted| <= limit + 1 then sorted else sorted[..limit + 1];
    var hasNext := |results| > limit;
    if hasNext {
      results := results[..|results| - 1];
    }
    var next: Option<string> := None;
    if hasNext && results != [] {
      next := Some(CursorText(results[|results| - 1]));
    }
    var data := [];
    var i := 0;
    while i < |results|
      invariant i <= |results|
      invariant data == Summaries(results[..i])
      invariant |data| <= i
    {
      SummariesSnoc(results, i);
      if results[i].summarised {
        data := data + [results[i]];
      }
      i := i + 1;
    }
    assert results[..i] == results;
    page := Response(data, next, |matching|);
  }

  // --- following the cursors ------------------------------------------------------------------------

  /** After the page that ends with the m-th record, the query selects the records behind it. */
  lemma CursorContinues(coll: seq<Doc>, r: Request, m: nat)
    requires WellFormed(coll) && 1 <= m <= |Everything(coll, r)|
    ensures Arrange(Before, Where(coll, Query(r, CursorText(Everything(coll, r)[m - 1])))) == Everything(coll, r)[m..]
  {
    var all := Everything(coll, r);
    SortOrders(coll);
    WhereOrders(Before, coll, Query(r, ""));
    ArrangeExact(Before, Where(coll, Query(r, "")));
    WhereExact(coll, Query(r, ""));
    var last := all[m - 1];
    assert last in all && last in coll && InDates(r, last.capturedAt);
    TextIsTotal();
    assert !Overreaches(r, last.capturedAt, last.intelId);
    RangeExactUnlessOverreaching(r, last.capturedAt, last.intelId);
    forall x | x in coll
      ensures Query(r, CursorText(last))(x) <==> Query(r, "")(x) && Before(last, x)
    {
      assert InRange(r, CursorText(last), x.capturedAt, x.intelId)
        <==> InDates(r, x.capturedAt) && KeyBefore(last.capturedAt, last.intelId, x.capturedAt, x.intelId);
    }
    RestOfArrangement(Before, coll, Query(r, ""), Query(r, CursorText(last)), m);
  }

  /** The data of all pages, from the page after the first `done` records on. */
  function FollowFrom(coll: seq<Doc>, r: Request, limit: nat, cursor: string, fuel: nat): (seq<Doc>, bool)
    requires limit >= 1
    decreases fuel
  {
    if fuel == 0 then ([], false)
    else
      var page := PageOf(coll, r, cursor, limit);
      if page.cursor.None? then (page.data, true)
      else
        var (more, ended) := FollowFrom(coll, r, limit, page.cursor.value, fuel - 1);
        (page.data + more, ended)
  }

  /** One page, when the query selects the given rest of the listing. */
  lemma PageOfRest(coll: seq<Doc>, r: Request, limit: nat, cursor: string, rest: seq<Doc>)
    requires limit >= 1 && !SearchedInVain(r)
    requires Arrange(Before, Where(coll, Query(r, cursor))) == rest
    ensures var page := PageOf(coll, r, cursor, limit);
            if |rest| > limit
            then page.data == Summaries(rest[..limit]) && page.cursor == Some(CursorText(rest[limit - 1]))
            else page.data == Summaries(rest) && page.cursor.None?
  {
  }

  lemma {:induction false} FollowRest(coll: seq<Doc>, r: Request, limit: nat, cursor: string, m: nat, fuel: nat)
    requires limit >= 1 && WellFormed(coll) && !SearchedInVain(r) && m <= |Everything(coll, r)|
    requires Arrange(Before, Where(coll, Query(r, cursor))) == Everything(coll, r)[m..]
    requires fuel > |Everything(coll, r)| - m
    ensures FollowFrom(coll, r, limit, cursor, fuel) == (Summaries(Everything(coll, r)[m..]), true)
    decreases fuel
  {
    hide Everything, PageOf, WellFormed, Query, Where, Arrange, Summaries, SearchedInVain;
    var all := Everything(coll, r);
    var rest := all[m..];
    PageOfRest(coll, r, limit, cursor, rest);
    if |rest| > limit {
      assert all[m + limit - 1] == rest[limit - 1];
      CursorContinues(coll, r, m + limit);
      FollowRest(coll, r, limit, CursorText(rest[limit - 1]), m + limit, fuel - 1);
      SummariesAppend(rest[..limit], rest[limit..]);
      assert rest == rest[..limit] + rest[limit..] && rest[limit..] == all[m + limit..];
    }
  }

  /**
   Following the cursors ends, and lists every record that the request is about exactly once in
   (captured_at, intel_id) descending order, leaving out only what cannot be summarised.
   */
  lemma CursorsListEverythingOnce(coll: seq<Doc>, r: Request, limit: nat, fuel: nat)
    requires limit >= 1 && WellFormed(coll) && fuel > |coll|
    ensures var all := Everything(coll, r);
            && Ascending(Before, all)
            && (forall d :: d in all <==> d in coll && Filters(r, d) && InDates(r, d.capturedAt))
            && FollowFrom(coll, r, limit, "", fuel) == (Summaries(all), true)
  {
    SortOrders(coll);
    WhereOrders(Before, coll, Query(r, ""));
    ArrangeExact(Before, Where(coll, Query(r, "")));
    WhereExact(coll, Query(r, ""));
    WhereShorter(coll, Query(r, ""));
    var all := Everything(coll, r);
    if SearchedInVain(r) {
      if all != [] {
        HasEntry(all);
        assert false;
      }
    } else {
      assert all[0..] == all;
      FollowRest(coll, r, limit, "", 0, fuel);
    }
  }

  lemma {:induction false} WhereShorter<T>(s: seq<T>, p: T -> bool)
    ensures |Where(s, p)| <= |s|
  {
    if s != [] { WhereShorter(s[1..], p); }
  }
}
