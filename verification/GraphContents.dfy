/**
 What a document puts into the graph, said without its list of statements: exactly the nodes and
 edges that its fields name (`_upsert_intel_graph_tx`, src/darkpulse/storage/neo4j.py).
 */
module GraphContents {
  import opened Graph

  datatype Item = N(node: Node) | E(edge: Edge)

  predicate Contains(g: Graph, x: Item) {
    match x
    case N(n) => Has(g, n)
    case E(e) => e in g.edges
  }

  /** The document has a wallet with the address. */
  predicate PaysTo(d: Doc, address: string) {
    address != "" && exists i :: 0 <= i < |d.wallets| && d.wallets[i].address == address
  }

  predicate Offers(d: Doc, product: string) {
    product != "" && product in d.products
  }

  /** The document has an id and a valid link from or to the actor. */
  predicate LinksFrom(d: Doc, actor: string) {
    d.intelId != "" && exists i :: 0 <= i < |d.links| && Counts(d.links[i]) && d.links[i].from == actor
  }

  predicate LinksTo(d: Doc, actor: string) {
    d.intelId != "" && exists i :: 0 <= i < |d.links| && Counts(d.links[i]) && d.links[i].to == actor
  }

  predicate SellsOn(d: Doc, alias: string, market: string) {
    Mentions(d, alias) && market != "" && PlatformOf(d.vendors, alias) == market
  }

  predicate NamesNode(d: Doc, n: Node) {
    match n
    case Ref(id) => id != "" && id == d.intelId
    case Vendor(a) => Mentions(d, a)
    case Market(m) => exists i :: 0 <= i < |Aliases(d.vendors)| && SellsOn(d, Aliases(d.vendors)[i], m)
    case Product(p) => Offers(d, p)
    case Wallet(a) => PaysTo(d, a)
    case Place(p) => p != "" && p == d.neighborhood
    case Hypothesis(k) => LinksFrom(d, k) || LinksTo(d, k)
  }

  /** The edges a document speaks about, kind by kind. */
  predicate NamesEdge(d: Doc, e: Edge) {
    match e.kind
    case MENTIONED_IN => e.from.Vendor? && Mentions(d, e.from.alias) && d.intelId != "" && e.to == Ref(d.intelId)
    case VENDS_ON => e.from.Vendor? && e.to.Market? && SellsOn(d, e.from.alias, e.to.name)
    case SELLS => e.from.Vendor? && Mentions(d, e.from.alias) && e.to.Product? && Offers(d, e.to.name)
    case USES_WALLET => e.from.Vendor? && Mentions(d, e.from.alias) && e.to.Wallet? && PaysTo(d, e.to.address)
    case SHIPS_FROM =>
      e.from.Vendor? && Mentions(d, e.from.alias) && d.neighborhood != "" && e.to == Place(d.neighborhood)
    case MENTIONS => d.intelId != "" && e.from == Ref(d.intelId) && e.to.Product? && Offers(d, e.to.name)
    case LOCATED_IN =>
      d.intelId != "" && e.from == Ref(d.intelId) && d.neighborhood != "" && e.to == Place(d.neighborhood)
    case HAS_HYPOTHESIS => e.from == Ref(d.intelId) && e.to.Hypothesis? && LinksFrom(d, e.to.key)
  }

  predicate Names(d: Doc, x: Item) {
    match x
    case N(n) => NamesNode(d, n)
    case E(e) => NamesEdge(d, e)
  }

  // --- what single statements make ---------------------------------------------------------------

  predicate Makes(w: Write, x: Item) {
    match x
    case N(n) =>
      (match w
       case MergeNode(m) => m == n && !n.Vendor? && !n.Wallet? && !n.Place?
       case MergeVendor(a, _, _) => n == Vendor(a)
       case MergeWallet(a, _) => n == Wallet(a)
       case MergePlace(p, _) => n == Place(p)
       case MergeEdge(_, _, _) => false
       case MergeLink(id, key, _) => id != "" && (n == Hypothesis(key.from) || n == Hypothesis(key.to)))
    case E(e) =>
      || w == MergeEdge(e.from, e.kind, e.to)
      || (w.MergeLink? && w.intelId != "" && e == Edge(Ref(w.intelId), HAS_HYPOTHESIS, Hypothesis(w.key.from)))
  }

  predicate MadeBy(ws: seq<Write>, x: Item) {
    exists i :: 0 <= i < |ws| && Makes(ws[i], x)
  }

  lemma MadeByEither(a: seq<Write>, b: seq<Write>, x: Item)
    ensures MadeBy(a + b, x) <==> MadeBy(a, x) || MadeBy(b, x)
  {
    var ws := a + b;
    if i :| 0 <= i < |ws| && Makes(ws[i], x) {
      if i < |a| { assert Makes(a[i], x); } else { assert Makes(b[i - |a|], x); }
    }
    if i :| 0 <= i < |a| && Makes(a[i], x) { assert Makes(ws[i], x); }
    if i :| 0 <= i < |b| && Makes(b[i], x) { assert Makes(ws[|a| + i], x); }
  }

  lemma MadeByOne(w: Write, x: Item)
    ensures MadeBy([w], x) <==> Makes(w, x)
  {
    assert [w][0] == w;
  }

  lemma WriteMakesNoMore(g: Graph, w: Write, x: Item)
    requires Sound(g) && Contains(Write1(g, w), x)
    ensures Contains(g, x) || Makes(w, x)
  {
  }

  lemma {:induction false} OnlyWhatIsMade(g: Graph, ws: seq<Write>, x: Item)
    requires Sound(g) && AllProper(ws) && Contains(WriteAll(g, ws), x)
    ensures Contains(g, x) || MadeBy(ws, x)
    decreases |ws|
  {
    if ws != [] {
      assert Proper(ws[0]);
      OnlyWhatIsMade(Write1(g, ws[0]), ws[1..], x);
      if Contains(Write1(g, ws[0]), x) {
        WriteMakesNoMore(g, ws[0], x);
      } else {
        var i :| 0 <= i < |ws[1..]| && Makes(ws[1..][i], x);
        assert Makes(ws[i + 1], x);
      }
    }
  }

  lemma {:induction false} NothingIsLost(g: Graph, ws: seq<Write>, x: Item)
    requires Contains(g, x)
    ensures Contains(WriteAll(g, ws), x)
    decreases |ws|
  {
    if ws != [] { NothingIsLost(Write1(g, ws[0]), ws[1..], x); }
  }

  lemma SettledIsThere(g: Graph, ws: seq<Write>, x: Item)
    requires AllSettled(g, ws) && MadeBy(ws, x)
    ensures Contains(g, x)
  {
    var i :| 0 <= i < |ws| && Makes(ws[i], x);
    assert Settled(g, ws[i]);
  }

  // --- what the parts of a document make -----------------------------------------------------------

  /** An edge of the kind from one of the first n vendors to the node. */
  predicate FromOneOf(aliases: seq<string>, n: nat, kind: Kind, to: Node, x: Item)
    requires n <= |aliases|
  {
    x.E? && x.edge.kind == kind && x.edge.to == to && x.edge.from.Vendor? && x.edge.from.alias in aliases[..n]
  }

  lemma {:induction false} FromVendorsMake(aliases: seq<string>, kind: Kind, to: Node, n: nat, x: Item)
    requires n <= |aliases|
    ensures MadeBy(FromVendors(aliases, kind, to, n), x) <==> FromOneOf(aliases, n, kind, to, x)
  {
    if n > 0 {
      var w := MergeEdge(Vendor(aliases[n - 1]), kind, to);
      FromVendorsMake(aliases, kind, to, n - 1, x);
      MadeByEither(FromVendors(aliases, kind, to, n - 1), [w], x);
      MadeByOne(w, x);
      assert aliases[..n] == aliases[..n - 1] + [aliases[n - 1]];
    }
  }

  /** A node, an edge to it from the reference, and edges to it from all vendors. */
  predicate Hub(d: Doc, aliases: seq<string>, fromRef: bool, refKind: Kind, kind: Kind, node: Node, x: Item) {
    || x == N(node)
    || (fromRef && x == E(Edge(Ref(d.intelId), refKind, node)))
    || FromOneOf(aliases, |aliases|, kind, node, x)
  }

  lemma HubMakes(d: Doc, aliases: seq<string>, create: Write, refKind: Kind, kind: Kind, node: Node, x: Item)
    requires forall y :: Makes(create, y) <==> y == N(node)
    ensures MadeBy([create] + FromRef(d, refKind, node) + FromVendors(aliases, kind, node, |aliases|), x)
       <==> Hub(d, aliases, d.intelId != "", refKind, kind, node, x)
    ensures MadeBy([create] + FromVendors(aliases, kind, node, |aliases|), x)
       <==> Hub(d, aliases, false, refKind, kind, node, x)
  {
    var vs, r := FromVendors(aliases, kind, node, |aliases|), FromRef(d, refKind, node);
    FromVendorsMake(aliases, kind, node, |aliases|, x);
    MadeByOne(create, x);
    MadeByEither([create] + r, vs, x);
    MadeByEither([create], r, x);
    MadeByEither([create], vs, x);
    if d.intelId != "" { MadeByOne(MergeEdge(Ref(d.intelId), refKind, node), x); }
  }

  predicate OfVendor(d: Doc, alias: string, x: Item) {
    var platform := PlatformOf(d.vendors, alias);
    || x == N(Vendor(alias))
    || (d.intelId != "" && x == E(Edge(Vendor(alias), MENTIONED_IN, Ref(d.intelId))))
    || (platform != "" && (x == N(Market(platform)) || x == E(Edge(Vendor(alias), VENDS_ON, Market(platform)))))
  }

  lemma VendorBlockMakes(d: Doc, alias: string, x: Item)
    ensures MadeBy(VendorBlock(d, alias), x) <==> OfVendor(d, alias, x)
  {
    var platform := PlatformOf(d.vendors, alias);
    var a := [MergeVendor(alias, platform, d.capturedAt)];
    var b := if d.intelId != "" then [MergeEdge(Vendor(alias), MENTIONED_IN, Ref(d.intelId))] else [];
    var m, e := MergeNode(Market(platform)), MergeEdge(Vendor(alias), VENDS_ON, Market(platform));
    var c := if platform != "" then [m, e] else [];
    assert VendorBlock(d, alias) == a + b + c;
    MadeByEither(a + b, c, x);
    MadeByEither(a, b, x);
    MadeByOne(a[0], x);
    if b != [] { MadeByOne(b[0], x); }
    if c != [] {
      assert [m, e] == [m] + [e];
      MadeByEither([m], [e], x);
      MadeByOne(m, x);
      MadeByOne(e, x);
    }
  }

  lemma {:induction false} VendorsMake(d: Doc, aliases: seq<string>, n: nat, x: Item)
    requires n <= |aliases|
    ensures MadeBy(VendorWrites(d, aliases, n), x) <==> exists i :: 0 <= i < n && OfVendor(d, aliases[i], x)
  {
    hide Makes, OfVendor, VendorBlock;
    if n > 0 {
      VendorsMake(d, aliases, n - 1, x);
      VendorBlockMakes(d, aliases[n - 1], x);
      MadeByEither(VendorWrites(d, aliases, n - 1), VendorBlock(d, aliases[n - 1]), x);
    } else {
      NothingMadeByNothing(x);
    }
  }

  lemma NothingMadeByNothing(x: Item)
    ensures !MadeBy([], x)
  {
  }

  predicate OfProduct(d: Doc, aliases: seq<string>, name: string, x: Item) {
    name != "" && Hub(d, aliases, d.intelId != "", MENTIONS, SELLS, Product(name), x)
  }

  lemma ProductBlockMakes(d: Doc, aliases: seq<string>, name: string, x: Item)
    ensures MadeBy(ProductBlock(d, aliases, name), x) <==> OfProduct(d, aliases, name, x)
  {
    HubMakes(d, aliases, MergeNode(Product(name)), MENTIONS, SELLS, Product(name), x);
    NothingMadeByNothing(x);
  }

  lemma {:induction false} ProductsMake(d: Doc, aliases: seq<string>, n: nat, x: Item)
    requires n <= |d.products|
    ensures MadeBy(ProductWrites(d, aliases, n), x)
       <==> exists i :: 0 <= i < n && OfProduct(d, aliases, d.products[i], x)
  {
    hide Makes, OfProduct, ProductBlock;
    if n > 0 {
      ProductsMake(d, aliases, n - 1, x);
      ProductBlockMakes(d, aliases, d.products[n - 1], x);
      MadeByEither(ProductWrites(d, aliases, n - 1), ProductBlock(d, aliases, d.products[n - 1]), x);
    } else {
      NothingMadeByNothing(x);
    }
  }

  predicate OfWallet(d: Doc, aliases: seq<string>, w: WalletEntity, x: Item) {
    w.address != "" && Hub(d, aliases, false, MENTIONS, USES_WALLET, Wallet(w.address), x)
  }

  lemma WalletBlockMakes(d: Doc, aliases: seq<string>, w: WalletEntity, x: Item)
    ensures MadeBy(WalletBlock(aliases, w), x) <==> OfWallet(d, aliases, w, x)
  {
    HubMakes(d, aliases, MergeWallet(w.address, w.chain), MENTIONS, USES_WALLET, Wallet(w.address), x);
    NothingMadeByNothing(x);
  }

  lemma {:induction false} WalletsMake(d: Doc, aliases: seq<string>, n: nat, x: Item)
    requires n <= |d.wallets|
    ensures MadeBy(WalletWrites(d, aliases, n), x)
       <==> exists i :: 0 <= i < n && OfWallet(d, aliases, d.wallets[i], x)
  {
    hide Makes, OfWallet, WalletBlock;
    if n > 0 {
      WalletsMake(d, aliases, n - 1, x);
      WalletBlockMakes(d, aliases, d.wallets[n - 1], x);
      MadeByEither(WalletWrites(d, aliases, n - 1), WalletBlock(aliases, d.wallets[n - 1]), x);
    } else {
      NothingMadeByNothing(x);
    }
  }

  predicate OfPlace(d: Doc, aliases: seq<string>, x: Item) {
    d.neighborhood != "" && Hub(d, aliases, d.intelId != "", LOCATED_IN, SHIPS_FROM, Place(d.neighborhood), x)
  }

  lemma PlaceMakes(d: Doc, aliases: seq<string>, x: Item)
    ensures MadeBy(PlaceWrites(d, aliases), x) <==> OfPlace(d, aliases, x)
  {
    HubMakes(d, aliases, MergePlace(d.neighborhood, d.city), LOCATED_IN, SHIPS_FROM, Place(d.neighborhood), x);
    NothingMadeByNothing(x);
  }

  predicate OfLink(d: Doc, l: ActorLink, x: Item) {
    d.intelId != "" && Counts(l)
    && (x == N(Hypothesis(l.from)) || x == N(Hypothesis(l.to))
        || x == E(Edge(Ref(d.intelId), HAS_HYPOTHESIS, Hypothesis(l.from))))
  }

  lemma {:induction false} LinksMake(d: Doc, n: nat, x: Item)
    requires n <= |d.links|
    ensures MadeBy(LinkWrites(d, n), x) <==> exists i :: 0 <= i < n && OfLink(d, d.links[i], x)
  {
    if n > 0 {
      LinksMake(d, n - 1, x);
      var l := d.links[n - 1];
      var w := MergeLink(d.intelId, KeyOf(l), l.confidence);
      MadeByOne(w, x);
      MadeByEither(LinkWrites(d, n - 1), if Counts(l) then [w] else [], x);
    }
  }

  predicate Parts(d: Doc, x: Item) {
    var aliases := Aliases(d.vendors);
    || (d.intelId != "" && x == N(Ref(d.intelId)))
    || (exists i :: 0 <= i < |aliases| && OfVendor(d, aliases[i], x))
    || (exists i :: 0 <= i < |d.products| && OfProduct(d, aliases, d.products[i], x))
    || (exists i :: 0 <= i < |d.wallets| && OfWallet(d, aliases, d.wallets[i], x))
    || OfPlace(d, aliases, x)
    || (exists i :: 0 <= i < |d.links| && OfLink(d, d.links[i], x))
  }

  lemma WritesMake(d: Doc, x: Item)
    ensures MadeBy(Writes(d), x) <==> Parts(d, x)
  {
    hide Makes, MadeBy, OfVendor, OfProduct, OfWallet, OfPlace, OfLink,
         VendorWrites, ProductWrites, WalletWrites, PlaceWrites, LinkWrites;
    var aliases := Aliases(d.vendors);
    var a, b, c := RefWrites(d), VendorWrites(d, aliases, |aliases|), ProductWrites(d, aliases, |d.products|);
    var e, f, h := WalletWrites(d, aliases, |d.wallets|), PlaceWrites(d, aliases), LinkWrites(d, |d.links|);
    RefMakes(d, x);
    VendorsMake(d, aliases, |aliases|, x);
    ProductsMake(d, aliases, |d.products|, x);
    WalletsMake(d, aliases, |d.wallets|, x);
    PlaceMakes(d, aliases, x);
    LinksMake(d, |d.links|, x);
    MadeByEither(a, b, x);
    MadeByEither(a + b, c, x);
    MadeByEither(a + b + c, e, x);
    MadeByEither(a + b + c + e, f, x);
    MadeByEither(a + b + c + e + f, h, x);
  }

  lemma RefMakes(d: Doc, x: Item)
    ensures MadeBy(RefWrites(d), x) <==> d.intelId != "" && x == N(Ref(d.intelId))
  {
    NothingMadeByNothing(x);
    MadeByOne(MergeNode(Ref(d.intelId)), x);
  }

  lemma PartsAreNames(d: Doc, x: Item)
    ensures Parts(d, x) <==> Names(d, x)
  {
    var aliases := Aliases(d.vendors);
    assert aliases[..|aliases|] == aliases;
  }

  /**
   After a document the graph holds what it held before and exactly the nodes and edges that the
   document names: one kind of edge per pair of fields, none without the field that calls for it.
   */
  lemma DocumentIsStored(g: Graph, d: Doc, x: Item)
    requires Sound(g)
    ensures Contains(Upsert(g, d), x) <==> Contains(g, x) || Names(d, x)
  {
    hide Contains, Names, Parts, MadeBy, Sound, Upsert, Writes;
    UpsertIsWrites(g, d);
    WritesMake(d, x);
    PartsAreNames(d, x);
    WritesProper(d);
    if Contains(Upsert(g, d), x) { OnlyWhatIsMade(g, Writes(d), x); }
    if Contains(g, x) { NothingIsLost(g, Writes(d), x); }
    if MadeBy(Writes(d), x) {
      DocumentSettles(g, d);
      SettledIsThere(Upsert(g, d), Writes(d), x);
    }
  }
}
