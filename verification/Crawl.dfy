/**
 The bounded breadth-first crawl of one reviewed onion host
 (`OnionCollector._collect` and `_same_host_links`,
 src/darkpulse/ingestion/collectors/onion.py). The queue may hold a URL several times; a URL
 counts as visited when it is popped; both the number of pages and the depth are bounded.
 */
module Crawl {
  import opened Common
  import opened Order

  const LINK_LIMIT := 500

  /** A canonical onion URL: its host, and the port, path and query behind it. */
  datatype Url = Url(host: string, rest: string)

  /**
   An href after `urljoin` and `urlsplit`, which raise on a malformed one; `clean` is free of
   credentials, of a fragment and of an unreadable port.
   */
  datatype Link = Malformed | Link(scheme: string, host: string, onionHost: bool, clean: bool, rest: string)

  /** What fetching a URL gives. */
  datatype Page = Unreachable | Page(content: string, blank: bool, html: bool, hrefs: seq<Link>)

  datatype Source = Source(seed: Url, maxDepth: nat, maxPages: nat)

  /** A URL with the depth it was queued at. */
  datatype Visit = Visit(url: Url, depth: nat)

  /** `canonical_onion_url`; None is its ValueError. */
  function Canonical(l: Link): Option<Url> {
    if l.Link? && l.scheme == "http" && l.onionHost && l.clean then Some(Url(l.host, l.rest)) else None
  }

  predicate Follows(l: Link, host: string) {
    l.Link? && l.host == host && Canonical(l).Some?
  }

  predicate Ascending(us: seq<Url>) {
    forall i, j :: 0 <= i < j < |us| ==> TextLess(us[i].rest, us[j].rest)
  }

  /** Add to a sorted sequence of URLs of one host, unless present. */
  function AddSorted(us: seq<Url>, u: Url): seq<Url> {
    if us == [] then [u]
    else if us[0] == u then us
    else if TextLess(u.rest, us[0].rest) then [u] + us
    else [us[0]] + AddSorted(us[1..], u)
  }

  lemma {:induction false} AddSortedCorrect(us: seq<Url>, u: Url)
    requires Ascending(us) && forall v :: v in us ==> v.host == u.host
    ensures Ascending(AddSorted(us, u))
    ensures forall v :: v in AddSorted(us, u) <==> v in us || v == u
  {
    if us != [] {
      var tail := AddSorted(us[1..], u);
      assert forall v :: v in us <==> v == us[0] || v in us[1..];
      if us[0] == u {
      } else if TextLess(u.rest, us[0].rest) {
        forall j | 0 <= j < |us| ensures TextLess(u.rest, us[j].rest) {
          if j > 0 { TextTransitive(u.rest, us[0].rest, us[j].rest); }
        }
        assert forall v :: v in [u] + us <==> v == u || v in us;
      } else {
        AddSortedCorrect(us[1..], u);
        TextConnected(u.rest, us[0].rest);
        forall j | 0 <= j < |tail| ensures TextLess(us[0].rest, tail[j].rest) {
          assert tail[j] in tail;
        }
        assert forall v :: v in [us[0]] + tail <==> v == us[0] || v in tail;
      }
    }
  }

  /** One of the hrefs that are looked at is malformed. */
  predicate HasMalformed(hrefs: seq<Link>) {
    exists k :: 0 <= k < |hrefs| && k < LINK_LIMIT && hrefs[k].Malformed?
  }

  /** The distinct followed links among the first 500 hrefs, sorted. */
  function Links(hrefs: seq<Link>, host: string): seq<Url> {
    LinksUpTo(hrefs, host, if |hrefs| <= LINK_LIMIT then |hrefs| else LINK_LIMIT)
  }

  function LinksUpTo(hrefs: seq<Link>, host: string, n: nat): seq<Url>
    requires n <= |hrefs|
  {
    if n == 0 then []
    else
      var before := LinksUpTo(hrefs, host, n - 1);
      if Follows(hrefs[n - 1], host) then AddSorted(before, Canonical(hrefs[n - 1]).value) else before
  }

  lemma {:induction false} LinksExact(hrefs: seq<Link>, host: string, n: nat)
    requires n <= |hrefs|
    ensures Ascending(LinksUpTo(hrefs, host, n))
    ensures forall u :: u in LinksUpTo(hrefs, host, n) <==>
              exists k :: 0 <= k < n && Follows(hrefs[k], host) && Canonical(hrefs[k]).value == u
    ensures forall u :: u in LinksUpTo(hrefs, host, n) ==> u.host == host
  {
    if n > 0 {
      LinksExact(hrefs, host, n - 1);
      if Follows(hrefs[n - 1], host) {
        AddSortedCorrect(LinksUpTo(hrefs, host, n - 1), Canonical(hrefs[n - 1]).value);
      }
    }
  }

  // --- the site as a graph --------------------------------------------------------------------

  type Site = Url -> Page

  /** A page whose links count: fetched, not blank, HTML. */
  predicate Expands(site: Site, u: Url) {
    site(u).Page? && !site(u).blank && site(u).html
  }

  function Successors(site: Site, src: Source, u: Url): seq<Url> {
    if Expands(site, u) then Links(site(u).hrefs, src.seed.host) else []
  }

  /** A walk from the seed along links, all of whose pages but the last are in `via`. */
  ghost predicate Walk(site: Site, src: Source, via: iset<Url>, p: seq<Url>) {
    && p != [] && p[0] == src.seed
    && forall k :: 0 <= k < |p| - 1 ==> p[k] in via && p[k + 1] in Successors(site, src, p[k])
  }

  ghost const EVERYWHERE := iset u: Url {:trigger u.rest} | true

  ghost predicate Shortest(site: Site, src: Source, via: iset<Url>, v: Visit) {
    && (exists p :: Walk(site, src, via, p) && p[|p| - 1] == v.url && |p| == v.depth + 1)
    && (forall p :: Walk(site, src, via, p) && p[|p| - 1] == v.url ==> |p| >= v.depth + 1)
  }

  ghost function Visited(visits: seq<Visit>): iset<Url> {
    iset v | v in visits :: v.url
  }

  // --- the loop invariant ----------------------------------------------------------------------

  predicate Among(visits: seq<Visit>, u: Url) {
    exists i :: 0 <= i < |visits| && visits[i].url == u
  }

  /** The head of the queue was found on a page one level up that had been visited before. */
  ghost predicate Found(site: Site, src: Source, visits: seq<Visit>, e: Visit) {
    || e == Visit(src.seed, 0)
    || exists i :: 0 <= i < |visits| && visits[i].depth + 1 == e.depth && e.url in Successors(site, src, visits[i].url)
  }

  ghost predicate Bounded(src: Source, es: seq<Visit>) {
    forall i :: 0 <= i < |es| ==> es[i].depth <= src.maxDepth && es[i].url.host == src.seed.host
  }

  /** A link of a visited page leads to a visited page or waits in the queue, one level further down. */
  ghost predicate Covered(visits: seq<Visit>, queue: seq<Visit>, u: Url, depth: nat) {
    || (exists i :: 0 <= i < |visits| && visits[i].url == u && visits[i].depth <= depth)
    || Visit(u, depth) in queue
  }

  ghost predicate LevelByLevel(visits: seq<Visit>, queue: seq<Visit>) {
    && (forall i, j :: 0 <= i < j < |queue| ==> queue[i].depth <= queue[j].depth <= queue[i].depth + 1)
    && (forall i, j :: 0 <= i < |visits| && 0 <= j < |queue| ==> visits[i].depth <= queue[j].depth)
  }

  ghost predicate Distinct(visits: seq<Visit>) {
    forall i, j :: 0 <= i < j < |visits| ==> visits[i].url != visits[j].url
  }

  ghost predicate AllFound(site: Site, src: Source, visits: seq<Visit>, queue: seq<Visit>) {
    && (forall i :: 0 <= i < |visits| ==> Found(site, src, visits[..i], visits[i]))
    && (forall j :: 0 <= j < |queue| ==> Found(site, src, visits, queue[j]))
  }

  ghost predicate AllCovered(site: Site, src: Source, visits: seq<Visit>, queue: seq<Visit>) {
    forall i, u :: 0 <= i < |visits| && visits[i].depth < src.maxDepth
                   && u in Successors(site, src, visits[i].url) ==>
      Covered(visits, queue, u, visits[i].depth + 1)
  }

  ghost predicate CrawlOk(site: Site, src: Source, visits: seq<Visit>, queue: seq<Visit>) {
    && Bounded(src, visits) && Bounded(src, queue)
    && Distinct(visits)
    && LevelByLevel(visits, queue)
    && AllFound(site, src, visits, queue)
    && AllCovered(site, src, visits, queue)
    && (if visits == [] then queue == [Visit(src.seed, 0)] else visits[0] == Visit(src.seed, 0))
  }

  lemma CrawlStartsOk(site: Site, src: Source)
    ensures CrawlOk(site, src, [], [Visit(src.seed, 0)])
  {
  }

  /** What visiting a page appends to the queue. */
  function Children(site: Site, src: Source, v: Visit): seq<Visit> {
    if v.depth < src.maxDepth then
      var us := Successors(site, src, v.url);
      seq(|us|, i requires 0 <= i < |us| => Visit(us[i], v.depth + 1))
    else []
  }

  lemma FoundGrows(site: Site, src: Source, visits: seq<Visit>, v: Visit, e: Visit)
    requires Found(site, src, visits, e)
    ensures Found(site, src, visits + [v], e)
  {
    if e != Visit(src.seed, 0) {
      var i :| 0 <= i < |visits| && visits[i].depth + 1 == e.depth && e.url in Successors(site, src, visits[i].url);
      assert (visits + [v])[i] == visits[i];
    }
  }

  lemma SkippingKeepsOk(site: Site, src: Source, visits: seq<Visit>, queue: seq<Visit>)
    requires CrawlOk(site, src, visits, queue) && queue != [] && Among(visits, queue[0].url)
    ensures CrawlOk(site, src, visits, queue[1..])
  {
    forall i, u | 0 <= i < |visits| && visits[i].depth < src.maxDepth && u in Successors(site, src, visits[i].url)
      ensures Covered(visits, queue[1..], u, visits[i].depth + 1)
    {
      assert Covered(visits, queue, u, visits[i].depth + 1);
      if u == queue[0].url {
        var k :| 0 <= k < |visits| && visits[k].url == u;
        if Visit(u, visits[i].depth + 1) in queue {
          var j :| 0 <= j < |queue| && queue[j] == Visit(u, visits[i].depth + 1);
          assert visits[k].depth <= queue[j].depth;
        }
      }
    }
  }

  lemma ChildrenFound(site: Site, src: Source, visits: seq<Visit>, v: Visit)
    requires v.url.host == src.seed.host
    ensures forall c :: c in Children(site, src, v) ==>
              && c.depth == v.depth + 1 && c.depth <= src.maxDepth && c.url.host == src.seed.host
              && Found(site, src, visits + [v], c)
    ensures v.depth < src.maxDepth ==>
              forall u :: u in Successors(site, src, v.url) ==> Visit(u, v.depth + 1) in Children(site, src, v)
  {
    if Expands(site, v.url) {
      var hrefs := site(v.url).hrefs;
      LinksExact(hrefs, src.seed.host, if |hrefs| <= LINK_LIMIT then |hrefs| else LINK_LIMIT);
    }
    assert (visits + [v])[|visits|] == v;
    var us := Successors(site, src, v.url);
    var cs := Children(site, src, v);
    if v.depth < src.maxDepth {
      forall u | u in us ensures Visit(u, v.depth + 1) in cs {
        var k :| 0 <= k < |us| && us[k] == u;
        assert cs[k] == Visit(u, v.depth + 1);
      }
    }
  }

  lemma CoverMoves(visits: seq<Visit>, queue: seq<Visit>, children: seq<Visit>, u: Url, depth: nat)
    requires queue != [] && Covered(visits, queue, u, depth)
    ensures Covered(visits + [queue[0]], queue[1..] + children, u, depth)
  {
    var now := visits + [queue[0]];
    if k :| 0 <= k < |visits| && visits[k].url == u && visits[k].depth <= depth {
      assert now[k] == visits[k];
    } else if queue[0] == Visit(u, depth) {
      assert now[|visits|] == queue[0];
    } else {
      assert queue == [queue[0]] + queue[1..];
    }
  }

  lemma VisitingKeepsLevels(site: Site, src: Source, visits: seq<Visit>, queue: seq<Visit>)
    requires CrawlOk(site, src, visits, queue) && queue != []
    ensures LevelByLevel(visits + [queue[0]], queue[1..] + Children(site, src, queue[0]))
    ensures Bounded(src, visits + [queue[0]]) && Bounded(src, queue[1..] + Children(site, src, queue[0]))
  {
    hide AllFound, AllCovered, Successors, Distinct, Found;
    ChildrenFound(site, src, visits, queue[0]);
    var cs := Children(site, src, queue[0]);
    hide Children;
    assert forall k :: 0 <= k < |cs| ==> cs[k] in cs;
  }

  lemma VisitingKeepsFound(site: Site, src: Source, visits: seq<Visit>, queue: seq<Visit>)
    requires CrawlOk(site, src, visits, queue) && queue != []
    ensures AllFound(site, src, visits + [queue[0]], queue[1..] + Children(site, src, queue[0]))
  {
    var now, cs := visits + [queue[0]], Children(site, src, queue[0]);
    ChildrenFound(site, src, visits, queue[0]);
    forall i | 0 <= i < |now| ensures Found(site, src, now[..i], now[i]) {
      assert now[..i] == visits[..i];
      if i == |visits| { assert visits[..i] == visits; }
    }
    forall j | 0 <= j < |queue[1..] + cs| ensures Found(site, src, now, (queue[1..] + cs)[j]) {
      if j < |queue| - 1 {
        FoundGrows(site, src, visits, queue[0], queue[j + 1]);
      } else {
        assert (queue[1..] + cs)[j] in cs;
      }
    }
  }

  lemma VisitingKeepsCovered(site: Site, src: Source, visits: seq<Visit>, queue: seq<Visit>)
    requires AllCovered(site, src, visits, queue) && queue != [] && queue[0].url.host == src.seed.host
    ensures AllCovered(site, src, visits + [queue[0]], queue[1..] + Children(site, src, queue[0]))
  {
    var now, rest := visits + [queue[0]], queue[1..] + Children(site, src, queue[0]);
    ChildrenFound(site, src, visits, queue[0]);
    forall i, u | 0 <= i < |now| && now[i].depth < src.maxDepth && u in Successors(site, src, now[i].url)
      ensures Covered(now, rest, u, now[i].depth + 1)
    {
      if i < |visits| {
        CoverMoves(visits, queue, Children(site, src, queue[0]), u, visits[i].depth + 1);
      }
    }
  }

  lemma VisitingKeepsOk(site: Site, src: Source, visits: seq<Visit>, queue: seq<Visit>)
    requires CrawlOk(site, src, visits, queue) && queue != [] && !Among(visits, queue[0].url)
    ensures CrawlOk(site, src, visits + [queue[0]], queue[1..] + Children(site, src, queue[0]))
  {
    VisitingKeepsLevels(site, src, visits, queue);
    VisitingKeepsFound(site, src, visits, queue);
    VisitingKeepsCovered(site, src, visits, queue);
    assert Distinct(visits + [queue[0]]);
  }

  // --- what the invariant gives at the end ------------------------------------------------------

  lemma {:induction false} WalkToVisit(site: Site, src: Source, visits: seq<Visit>, queue: seq<Visit>, i: nat)
    returns (p: seq<Url>)
    requires AllFound(site, src, visits, queue) && i < |visits|
    ensures Walk(site, src, Visited(visits), p) && p[|p| - 1] == visits[i].url && |p| == visits[i].depth + 1
    decreases i
  {
    if visits[i] == Visit(src.seed, 0) {
      p := [src.seed];
    } else {
      assert Found(site, src, visits[..i], visits[i]);
      var k :| 0 <= k < i && visits[..i][k].depth + 1 == visits[i].depth
               && visits[i].url in Successors(site, src, visits[..i][k].url);
      var q := WalkToVisit(site, src, visits, queue, k);
      p := q + [visits[i].url];
      forall j | 0 <= j < |p| - 1 ensures p[j] in Visited(visits) && p[j + 1] in Successors(site, src, p[j]) {
        if j == |q| - 1 { assert visits[k] in visits; }
      }
    }
  }

  /** Of two linked visited pages the second is at most one level deeper. */
  lemma OneLevelDeeper(site: Site, src: Source, visits: seq<Visit>, queue: seq<Visit>, k: nat, i: nat)
    requires CrawlOk(site, src, visits, queue) && k < |visits| && i < |visits|
    requires visits[i].url in Successors(site, src, visits[k].url)
    ensures visits[i].depth <= visits[k].depth + 1
  {
    if visits[k].depth < src.maxDepth {
      assert Covered(visits, queue, visits[i].url, visits[k].depth + 1);
      if Visit(visits[i].url, visits[k].depth + 1) in queue {
        var j :| 0 <= j < |queue| && queue[j] == Visit(visits[i].url, visits[k].depth + 1);
        assert visits[i].depth <= queue[j].depth;
      }
    }
  }

  /** No walk through visited pages reaches a visited page in fewer links than its depth. */
  lemma {:induction false} NoShorterWalk(
    site: Site, src: Source, visits: seq<Visit>, queue: seq<Visit>, p: seq<Url>, i: nat)
    requires CrawlOk(site, src, visits, queue) && i < |visits|
    requires Walk(site, src, Visited(visits), p) && p[|p| - 1] == visits[i].url
    ensures visits[i].depth + 1 <= |p|
    decreases |p|
  {
    if |p| == 1 {
      SeedIsFirst(site, src, visits, queue, i);
    } else {
      var q := p[..|p| - 1];
      var k := LastOfWalk(site, src, visits, p);
      NoShorterWalk(site, src, visits, queue, q, k);
      OneLevelDeeper(site, src, visits, queue, k, i);
    }
  }

  lemma SeedIsFirst(site: Site, src: Source, visits: seq<Visit>, queue: seq<Visit>, i: nat)
    requires CrawlOk(site, src, visits, queue) && i < |visits| && visits[i].url == src.seed
    ensures visits[i].depth == 0
  {
  }

  lemma LastOfWalk(site: Site, src: Source, visits: seq<Visit>, p: seq<Url>) returns (k: nat)
    requires Walk(site, src, Visited(visits), p) && |p| > 1
    ensures k < |visits| && visits[k].url == p[|p| - 2]
    ensures p[|p| - 1] in Successors(site, src, p[|p| - 2])
    ensures Walk(site, src, Visited(visits), p[..|p| - 1])
  {
    assert p[|p| - 2] in Visited(visits);
    k :| 0 <= k < |visits| && visits[k].url == p[|p| - 2];
  }

  lemma DepthsAreShortest(site: Site, src: Source, visits: seq<Visit>, queue: seq<Visit>, i: nat)
    requires CrawlOk(site, src, visits, queue) && i < |visits|
    ensures Shortest(site, src, Visited(visits), visits[i])
  {
    var p := WalkToVisit(site, src, visits, queue, i);
    forall p | Walk(site, src, Visited(visits), p) && p[|p| - 1] == visits[i].url
      ensures |p| >= visits[i].depth + 1
    {
      NoShorterWalk(site, src, visits, queue, p, i);
    }
  }

  /** With an empty queue every page within the depth bound was visited, at most as deep as any walk to it is long. */
  lemma {:induction false} EverythingInReach(site: Site, src: Source, visits: seq<Visit>, p: seq<Url>) returns (i: nat)
    requires CrawlOk(site, src, visits, [])
    requires Walk(site, src, EVERYWHERE, p) && |p| <= src.maxDepth + 1
    ensures i < |visits| && visits[i].url == p[|p| - 1] && visits[i].depth + 1 <= |p|
    decreases |p|
  {
    if |p| == 1 {
      i := 0;
    } else {
      var q := p[..|p| - 1];
      assert Walk(site, src, EVERYWHERE, q);
      var k := EverythingInReach(site, src, visits, q);
      assert p[|p| - 1] in Successors(site, src, p[|p| - 2]);
      assert Covered(visits, [], p[|p| - 1], visits[k].depth + 1);
      i :| 0 <= i < |visits| && visits[i].url == p[|p| - 1] && visits[i].depth <= visits[k].depth + 1;
    }
  }

  /** Every page a walk of at most maxDepth links leads to was visited, no deeper than that walk is long. */
  ghost predicate ReachesAll(site: Site, src: Source, visits: seq<Visit>) {
    forall p :: Walk(site, src, EVERYWHERE, p) && |p| <= src.maxDepth + 1 ==>
      exists i :: 0 <= i < |visits| && visits[i].url == p[|p| - 1] && visits[i].depth + 1 <= |p|
  }

  lemma AllReached(site: Site, src: Source, visits: seq<Visit>)
    requires CrawlOk(site, src, visits, [])
    ensures ReachesAll(site, src, visits)
  {
    forall p | Walk(site, src, EVERYWHERE, p) && |p| <= src.maxDepth + 1
      ensures exists i :: 0 <= i < |visits| && visits[i].url == p[|p| - 1] && visits[i].depth + 1 <= |p|
    {
      var i := EverythingInReach(site, src, visits, p);
    }
  }

  lemma AllShortest(site: Site, src: Source, visits: seq<Visit>, queue: seq<Visit>)
    requires CrawlOk(site, src, visits, queue)
    ensures Distinct(visits) && Bounded(src, visits)
    ensures forall i :: 0 <= i < |visits| ==> Shortest(site, src, Visited(visits), visits[i])
  {
    forall i | 0 <= i < |visits| ensures Shortest(site, src, Visited(visits), visits[i]) {
      DepthsAreShortest(site, src, visits, queue, i);
    }
  }

  lemma MoreAmong(visits: seq<Visit>, v: Visit)
    ensures forall u :: Among(visits + [v], u) <==> Among(visits, u) || u == v.url
  {
    var now := visits + [v];
    assert now[|visits|] == v;
    forall u | Among(visits, u) ensures Among(now, u) {
      var i :| 0 <= i < |visits| && visits[i].url == u;
      assert now[i] == visits[i];
    }
  }

  /** The seed is only ever the first page taken. */
  lemma FirstOnly(site: Site, src: Source, visits: seq<Visit>, queue: seq<Visit>, entry: Visit)
    requires CrawlOk(site, src, visits, queue) && queue != [] && entry == queue[0] && !Among(visits, entry.url)
    ensures entry.url == src.seed ==> visits == [] && entry == Visit(src.seed, 0)
  {
    if visits != [] {
      assert visits[0].url == src.seed;
      assert Among(visits, src.seed);
    }
  }

  // --- what is handed on ------------------------------------------------------------------------

  /** A record is emitted for a fetched, non-blank page whose content is not the remembered one. */
  predicate Emits(site: Site, remembered: map<Url, string>, u: Url) {
    && site(u).Page? && !site(u).blank
    && !(u in remembered && remembered[u] == site(u).content)
  }

  function Emitted(site: Site, remembered: map<Url, string>, visits: seq<Visit>): seq<Visit> {
    if visits == [] then []
    else
      var last := visits[|visits| - 1];
      Emitted(site, remembered, visits[..|visits| - 1]) + if Emits(site, remembered, last.url) then [last] else []
  }

  lemma {:induction false} EmittedExact(site: Site, remembered: map<Url, string>, visits: seq<Visit>, v: Visit)
    ensures v in Emitted(site, remembered, visits) <==> v in visits && Emits(site, remembered, v.url)
  {
    if visits != [] {
      var n := |visits| - 1;
      EmittedExact(site, remembered, visits[..n], v);
      assert visits == visits[..n] + [visits[n]];
    }
  }

  function ContentOf(site: Site, u: Url): string {
    if site(u).Page? then site(u).content else ""
  }

  /** The content store after the given records were committed one by one. */
  function Remembering(site: Site, remembered: map<Url, string>, records: seq<Visit>): map<Url, string> {
    if records == [] then remembered
    else
      var last := records[|records| - 1];
      Remembering(site, remembered, records[..|records| - 1])[last.url := ContentOf(site, last.url)]
  }

  lemma {:induction false} OthersStayRemembered(site: Site, remembered: map<Url, string>, visits: seq<Visit>, u: Url)
    requires !Among(visits, u)
    ensures var m := Remembering(site, remembered, Emitted(site, remembered, visits));
            (u in m <==> u in remembered) && (u in m ==> m[u] == remembered[u])
  {
    if visits != [] {
      var n := |visits| - 1;
      OthersStayRemembered(site, remembered, visits[..n], u);
      var before := Emitted(site, remembered, visits[..n]);
      if Emits(site, remembered, visits[n].url) {
        assert (before + [visits[n]])[..|before|] == before;
      } else {
        assert before + [] == before;
      }
    }
  }

  lemma NothingEmitted(site: Site, was: map<Url, string>)
    ensures Emitted(site, was, []) == [] && Remembering(site, was, []) == was
    ensures forall u :: !Among([], u)
  {
  }

  /** One more fetched page: what it adds to the records and to the content store. */
  lemma OneMoreVisit(site: Site, was: map<Url, string>, visits: seq<Visit>, entry: Visit)
    requires !Among(visits, entry.url)
    ensures var before := Emitted(site, was, visits);
            var m := Remembering(site, was, before);
            && Emitted(site, was, visits + [entry]) == (if Emits(site, was, entry.url) then before + [entry] else before)
            && (entry.url in m <==> entry.url in was) && (entry.url in m ==> m[entry.url] == was[entry.url])
            && Remembering(site, was, before + [entry]) == m[entry.url := ContentOf(site, entry.url)]
  {
    OthersStayRemembered(site, was, visits, entry.url);
    var before := Emitted(site, was, visits);
    assert (visits + [entry])[..|visits|] == visits;
    assert before + [] == before && (before + [entry])[..|before|] == before;
  }

  // --- what ends a crawl early --------------------------------------------------------------------

  /** What may go wrong with a page besides fetching it: the two stores and the consumer of the records. */
  datatype Mishap = Fine | LookupFails | ConsumerFails | CommitFails | CheckpointFails

  /** The page is handed on as a record. */
  predicate HandedOn(site: Site, was: map<Url, string>, remembers: bool, mishap: Mishap, u: Url) {
    Emits(site, was, u) && !(remembers && mishap.LookupFails?)
  }

  /** Handing on the record, or storing that it was, raises. */
  predicate EmissionRaises(remembers: bool, mishap: Mishap) {
    mishap.ConsumerFails? || mishap.CheckpointFails? || (remembers && mishap.CommitFails?)
  }

  /** The content store has the page's content afterwards. */
  predicate Stored(site: Site, was: map<Url, string>, remembers: bool, mishap: Mishap, u: Url) {
    remembers && Emits(site, was, u) && (mishap.Fine? || mishap.CheckpointFails?)
  }

  /** Visiting the page raises an exception, which ends the crawl. */
  predicate Aborts(site: Site, src: Source, was: map<Url, string>, remembers: bool, mishap: Mishap, v: Visit) {
    match site(v.url)
    case Unreachable => v.url == src.seed
    case Page(_, blank, html, hrefs) =>
      !blank
      && (|| (remembers && mishap.LookupFails?)
          || (Emits(site, was, v.url) && EmissionRaises(remembers, mishap))
          || (html && v.depth < src.maxDepth && HasMalformed(hrefs)))
  }

  class OnionCollector {
    const src: Source
    const site: Site
    /** The content-state store; `remembers` is whether one is configured. */
    const remembers: bool
    const mishaps: Url -> Mishap
    var remembered: map<Url, string>
    var checkpoint: Option<string>
    var failed: bool
    var hasSucceeded: bool

    constructor (src: Source, site: Site, remembers: bool, mishaps: Url -> Mishap)
      ensures this.src == src && this.site == site && this.remembers == remembers && this.mishaps == mishaps
      ensures remembered == map[] && checkpoint == None && !failed && !hasSucceeded
    {
      this.src, this.site, this.remembers, this.mishaps := src, site, remembers, mishaps;
      remembered, checkpoint, failed, hasSucceeded := map[], None, false, false;
    }

    /** `_same_host_links`: sorted, distinct, on the reviewed host; a malformed href raises. */
    method SameHostLinks(hrefs: seq<Link>) returns (links: seq<Url>, raised: bool)
      ensures raised <==> HasMalformed(hrefs)
      ensures !raised ==> links == Links(hrefs, src.seed.host)
      ensures !raised ==> Ascending(links) && forall u :: u in links ==> u.host == src.seed.host
    {
      var n := if |hrefs| <= LINK_LIMIT then |hrefs| else LINK_LIMIT;
      links, raised := [], false;
      var i := 0;
      while i < n
        invariant i <= n && !raised
        invariant links == LinksUpTo(hrefs, src.seed.host, i)
        invariant forall k :: 0 <= k < i ==> !hrefs[k].Malformed?
      {
        var candidate := hrefs[i];
        if candidate.Malformed? {
          raised := true;
          return;
        }
        if candidate.host == src.seed.host && candidate.scheme == "http" {
          var url := Canonical(candidate);
          if url.Some? {
            links := AddSorted(links, url.value);
          }
        }
        i := i + 1;
      }
      LinksExact(hrefs, src.seed.host, n);
    }

    /** Handing on one record and storing that it was; the record is out even if the rest raises. */
    method Emit(entry: Visit, content: string) returns (raised: bool)
      modifies this
      ensures raised <==> EmissionRaises(remembers, mishaps(entry.url))
      ensures remembered == if remembers && !mishaps(entry.url).ConsumerFails? && !mishaps(entry.url).CommitFails?
                            then old(remembered)[entry.url := content] else old(remembered)
      ensures checkpoint == if raised then old(checkpoint) else Some(content)
      ensures failed == old(failed) && hasSucceeded == old(hasSucceeded)
    {
      var mishap := mishaps(entry.url);
      if mishap.ConsumerFails? {
        return true;
      }
      if remembers {
        if mishap.CommitFails? {
          return true;
        }
        remembered := remembered[entry.url := content];
      }
      if mishap.CheckpointFails? {
        return true;
      }
      checkpoint := Some(content);
      raised := false;
    }

    /** What the loop does with a page it has taken from the queue, up to the next iteration. */
    method Take(entry: Visit, ghost visits: seq<Visit>, ghost was: map<Url, string>)
      returns (records: seq<Visit>, children: seq<Visit>, raised: bool)
      requires !remembers ==> was == map[]
      requires remembered == if remembers then Remembering(site, was, Emitted(site, was, visits)) else was
      requires !Among(visits, entry.url)
      modifies this
      ensures raised <==> AbortsAt(was, entry)
      ensures !raised ==> children == Children(site, src, entry)
      ensures records == if HandedOn(site, was, remembers, mishaps(entry.url), entry.url) then [entry] else []
      ensures remembered == if Stored(site, was, remembers, mishaps(entry.url), entry.url)
                            then old(remembered)[entry.url := ContentOf(site, entry.url)] else old(remembered)
      ensures !raised ==> Emitted(site, was, visits + [entry]) == Emitted(site, was, visits) + records
      ensures !raised ==>
                remembered == if remembers then Remembering(site, was, Emitted(site, was, visits + [entry])) else was
      ensures failed == (site(entry.url).Unreachable? || old(failed)) && hasSucceeded == old(hasSucceeded)
    {
      hide Emitted, Remembering, HasMalformed, Links, LinksUpTo;
      OneMoreVisit(site, was, visits, entry);
      records, children, raised := [], [], false;
      var result := site(entry.url);
      if result.Unreachable? {
        failed := true;
        raised := entry.url == src.seed;
        return;
      }
      if result.blank {
        return;
      }
      if remembers && mishaps(entry.url).LookupFails? {
        raised := true;
        return;
      }
      var known := remembers && entry.url in remembered && remembered[entry.url] == result.content;
      if !known {
        records := [entry];
        raised := Emit(entry, result.content);
        if raised {
          return;
        }
      }
      if entry.depth < src.maxDepth && result.html {
        var links;
        links, raised := SameHostLinks(result.hrefs);
        if raised {
          return;
        }
        children := seq(|links|, i requires 0 <= i < |links| => Visit(links[i], entry.depth + 1));
      }
    }

    /**
     `_collect`. `visits` are the fetched URLs in order; `records` the ones that were handed on;
     an exception ends the crawl with `raised`.
     */
    method Collect() returns (visits: seq<Visit>, records: seq<Visit>, raised: bool)
      requires !remembers ==> remembered == map[]
      modifies this
      ensures |visits| <= src.maxPages && Distinct(visits) && Bounded(src, visits)
      ensures forall i :: 0 <= i < |visits| ==> Shortest(site, src, Visited(visits), visits[i])
      ensures raised <==> visits != [] && AbortsAt(old(remembered), visits[|visits| - 1])
      ensures forall i :: 0 <= i < |visits| - 1 ==> !AbortsAt(old(remembered), visits[i])
      ensures !raised ==> hasSucceeded && !failed
      ensures raised ==> hasSucceeded == old(hasSucceeded)
      ensures raised && site(visits[|visits| - 1].url).Unreachable? ==> visits == [Visit(src.seed, 0)] && failed
      ensures !raised && |visits| < src.maxPages ==> ReachesAll(site, src, visits)
      ensures !raised ==>
                && records == Emitted(site, old(remembered), visits)
                && remembered == if remembers then Remembering(site, old(remembered), records) else old(remembered)
      ensures raised ==> CutShort(old(remembered), visits, records, remembered)
    {
      ghost var was := remembered;
      hide CrawlOk, Emitted, Remembering, Emits, Children, ReachesAll, Shortest, Bounded, Distinct, Among,
           AbortsAt, CutShort;
      NothingEmitted(site, was);
      var queue := [Visit(src.seed, 0)];
      var visited: set<Url> := {};
      visits, records, raised := [], [], false;
      CrawlStartsOk(site, src);
      while queue != [] && |visited| < src.maxPages
        invariant CrawlOk(site, src, visits, queue)
        invariant forall u :: u in visited <==> Among(visits, u)
        invariant |visited| == |visits| <= src.maxPages
        invariant records == Emitted(site, was, visits)
        invariant remembered == if remembers then Remembering(site, was, records) else was
        invariant forall i :: 0 <= i < |visits| ==> !AbortsAt(was, visits[i])
        invariant hasSucceeded == old(hasSucceeded) && !raised
        decreases src.maxPages - |visited|, |queue|
      {
        var entry := queue[0];
        if entry.url in visited {
          SkippingKeepsOk(site, src, visits, queue);
          queue := queue[1..];
          continue;
        }
        VisitingKeepsOk(site, src, visits, queue);
        MoreAmong(visits, entry);
        visited := visited + {entry.url};
        var more, children;
        more, children, raised := Take(entry, visits, was);
        FirstOnly(site, src, visits, queue, entry);
        UnreachableAborts(was, entry);
        ghost var before := visits;
        visits := visits + [entry];
        records := records + more;
        if raised {
          EndsHere(was, before, entry, records, remembered);
          AllShortest(site, src, visits, queue[1..] + Children(site, src, entry));
          return;
        }
        queue := queue[1..] + children;
      }
      failed := false;
      hasSucceeded := true;
      AllShortest(site, src, visits, queue);
      if queue == [] {
        AllReached(site, src, visits);
      }
    }

    /**
     Up to the last visit all is as in a crawl that goes on; of the last one the record is out
     unless the lookup raised, and its content is stored if nothing raised before that.
     */
    ghost predicate CutShort(was: map<Url, string>, visits: seq<Visit>, records: seq<Visit>, after: map<Url, string>) {
      && visits != []
      && var n := |visits| - 1;
         var before, u := Emitted(site, was, visits[..n]), visits[n].url;
         var stored := if remembers then Remembering(site, was, before) else was;
         && records == before + (if HandedOn(site, was, remembers, mishaps(u), u) then [visits[n]] else [])
         && after == if Stored(site, was, remembers, mishaps(u), u) then stored[u := ContentOf(site, u)] else stored
    }

    lemma UnreachableAborts(was: map<Url, string>, v: Visit)
      ensures AbortsAt(was, v) && site(v.url).Unreachable? ==> v.url == src.seed
    {
    }

    lemma EndsHere(was: map<Url, string>, before: seq<Visit>, entry: Visit, records: seq<Visit>, after: map<Url, string>)
      requires var handed, u := Emitted(site, was, before), entry.url;
               var stored := if remembers then Remembering(site, was, handed) else was;
               && records == handed + (if HandedOn(site, was, remembers, mishaps(u), u) then [entry] else [])
               && after == if Stored(site, was, remembers, mishaps(u), u) then stored[u := ContentOf(site, u)] else stored
      ensures CutShort(was, before + [entry], records, after)
    {
      assert (before + [entry])[..|before|] == before;
    }

    /** The visit raised, given what was remembered when the crawl began. */
    predicate AbortsAt(was: map<Url, string>, v: Visit) {
      Aborts(site, src, was, remembers, mishaps(v.url), v)
    }
  }
}
