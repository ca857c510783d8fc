/**
 The relationship graph and its upsert (`_upsert_intel_graph_tx`,
 src/darkpulse/storage/neo4j.py). A document becomes a list of MERGE statements; the graph is
 node and edge maps. Re-applying a document must change nothing, whatever came in between.
 */
module Graph {
  import opened Common
  import opened Order

  datatype Node =
    | Ref(intelId: string)
    | Vendor(alias: string)
    | Market(name: string)
    | Product(name: string)
    | Wallet(address: string)
    | Place(name: string)
    | Hypothesis(key: string)

  datatype Kind = MENTIONED_IN | VENDS_ON | MENTIONS | SELLS | USES_WALLET | LOCATED_IN | SHIPS_FROM | HAS_HYPOTHESIS

  datatype Edge = Edge(from: Node, kind: Kind, to: Node)

  datatype VendorProps = VendorProps(platform: string, firstSeen: string, lastSeen: string)

  /** A relation between two hypotheses. */
  datatype LinkKey = LinkKey(from: string, relation: string, to: string)

  /** `plain` are the nodes without further properties. */
  datatype Graph = Graph(
    plain: set<Node>, vendors: map<string, VendorProps>, wallets: map<string, string>,
    places: map<string, Option<string>>, edges: set<Edge>, links: map<LinkKey, real>)

  const EMPTY := Graph({}, map[], map[], map[], {}, map[])

  const VALID_RELATIONS := {"SAME_AS", "SELLS_TO", "VENDS_ON", "USES_WALLET", "CO_POSTS", "SHIPS_FROM"}

  datatype VendorEntity = VendorEntity(alias: string, platform: string)
  datatype WalletEntity = WalletEntity(address: string, chain: string)
  datatype ActorLink = ActorLink(from: string, to: string, relation: string, confidence: real)

  datatype Doc = Doc(
    intelId: string, capturedAt: string, vendors: seq<VendorEntity>, products: seq<string>,
    wallets: seq<WalletEntity>, neighborhood: string, city: Option<string>, links: seq<ActorLink>)

  // --- single statements ---------------------------------------------------------------------

  /** The statements of the transaction. `MergeEdge` and `MergeLink` match nodes before they merge. */
  datatype Write =
    | MergeNode(node: Node)
    | MergeVendor(alias: string, platform: string, at: string)
    | MergeWallet(address: string, chain: string)
    | MergePlace(name: string, city: Option<string>)
    | MergeEdge(from: Node, kind: Kind, to: Node)
    | MergeLink(intelId: string, key: LinkKey, confidence: real)

  predicate Has(g: Graph, n: Node) {
    match n
    case Vendor(a) => a in g.vendors
    case Wallet(a) => a in g.wallets
    case Place(p) => p in g.places
    case _ => n in g.plain
  }

  function Write1(g: Graph, w: Write): Graph {
    match w
    case MergeNode(n) => g.(plain := g.plain + {n})
    case MergeVendor(a, platform, at) =>
      if a !in g.vendors then g.(vendors := g.vendors[a := VendorProps(platform, at, at)])
      else if TextLess(g.vendors[a].lastSeen, at) then g.(vendors := g.vendors[a := g.vendors[a].(lastSeen := at)])
      else g
    case MergeWallet(a, chain) => if a in g.wallets then g else g.(wallets := g.wallets[a := chain])
    case MergePlace(p, city) => if p in g.places then g else g.(places := g.places[p := city])
    case MergeEdge(x, kind, y) =>
      if Has(g, x) && Has(g, y) then g.(edges := g.edges + {Edge(x, kind, y)}) else g
    case MergeLink(id, key, c) =>
      if Ref(id) !in g.plain then g
      else g.(plain := g.plain + {Hypothesis(key.from), Hypothesis(key.to)},
              edges := g.edges + {Edge(Ref(id), HAS_HYPOTHESIS, Hypothesis(key.from))},
              links := if key in g.links && c <= g.links[key] then g.links else g.links[key := c])
  }

  function WriteAll(g: Graph, ws: seq<Write>): Graph
    decreases |ws|
  {
    if ws == [] then g else WriteAll(Write1(g, ws[0]), ws[1..])
  }

  lemma {:induction false} WriteAppend(g: Graph, a: seq<Write>, b: seq<Write>)
    ensures WriteAll(g, a + b) == WriteAll(WriteAll(g, a), b)
    decreases |a|
  {
    if a == [] {
      assert a + b == b;
    } else {
      WriteAppend(Write1(g, a[0]), a[1..], b);
      assert (a + b)[1..] == a[1..] + b;
    }
  }

  lemma WriteOne(g: Graph, w: Write)
    ensures WriteAll(g, [w]) == Write1(g, w)
  {
    assert [w][1..] == [];
  }

  // --- the statements of a document -----------------------------------------------------------

  /** The non-empty aliases, in order; an alias may occur twice. */
  function Aliases(vs: seq<VendorEntity>): seq<string> {
    if vs == [] then [] else (if vs[0].alias != "" then [vs[0].alias] else []) + Aliases(vs[1..])
  }

  /** `next(... if v.alias == alias)`: the platform of the first vendor with the alias. */
  function PlatformOf(vs: seq<VendorEntity>, alias: string): string {
    if vs == [] then "" else if vs[0].alias == alias then vs[0].platform else PlatformOf(vs[1..], alias)
  }

  function VendorBlock(d: Doc, alias: string): seq<Write> {
    var platform := PlatformOf(d.vendors, alias);
    [MergeVendor(alias, platform, d.capturedAt)]
    + (if d.intelId != "" then [MergeEdge(Vendor(alias), MENTIONED_IN, Ref(d.intelId))] else [])
    + (if platform != "" then [MergeNode(Market(platform)), MergeEdge(Vendor(alias), VENDS_ON, Market(platform))] else [])
  }

  function VendorWrites(d: Doc, aliases: seq<string>, n: nat): seq<Write>
    requires n <= |aliases|
  {
    if n == 0 then [] else VendorWrites(d, aliases, n - 1) + VendorBlock(d, aliases[n - 1])
  }

  /** An edge of one kind from every vendor to a node. */
  function FromVendors(aliases: seq<string>, kind: Kind, to: Node, n: nat): seq<Write>
    requires n <= |aliases|
  {
    if n == 0 then [] else FromVendors(aliases, kind, to, n - 1) + [MergeEdge(Vendor(aliases[n - 1]), kind, to)]
  }

  function FromRef(d: Doc, kind: Kind, to: Node): seq<Write> {
    if d.intelId != "" then [MergeEdge(Ref(d.intelId), kind, to)] else []
  }

  function ProductBlock(d: Doc, aliases: seq<string>, name: string): seq<Write> {
    if name == "" then []
    else [MergeNode(Product(name))] + FromRef(d, MENTIONS, Product(name))
         + FromVendors(aliases, SELLS, Product(name), |aliases|)
  }

  function ProductWrites(d: Doc, aliases: seq<string>, n: nat): seq<Write>
    requires n <= |d.products|
  {
    if n == 0 then [] else ProductWrites(d, aliases, n - 1) + ProductBlock(d, aliases, d.products[n - 1])
  }

  function WalletBlock(aliases: seq<string>, w: WalletEntity): seq<Write> {
    if w.address == "" then []
    else [MergeWallet(w.address, w.chain)] + FromVendors(aliases, USES_WALLET, Wallet(w.address), |aliases|)
  }

  function WalletWrites(d: Doc, aliases: seq<string>, n: nat): seq<Write>
    requires n <= |d.wallets|
  {
    if n == 0 then [] else WalletWrites(d, aliases, n - 1) + WalletBlock(aliases, d.wallets[n - 1])
  }

  function PlaceWrites(d: Doc, aliases: seq<string>): seq<Write> {
    if d.neighborhood == "" then []
    else [MergePlace(d.neighborhood, d.city)] + FromRef(d, LOCATED_IN, Place(d.neighborhood))
         + FromVendors(aliases, SHIPS_FROM, Place(d.neighborhood), |aliases|)
  }

  function Upper(s: string): string {
    if s == [] then []
    else [if 'a' <= s[0] <= 'z' then (s[0] as int - 32) as char else s[0]] + Upper(s[1..])
  }

  /** `str(relation or "SAME_AS").upper()` */
  function RelationOf(l: ActorLink): string {
    if l.relation == "" then "SAME_AS" else Upper(l.relation)
  }

  function KeyOf(l: ActorLink): LinkKey {
    LinkKey(l.from, RelationOf(l), l.to)
  }

  predicate Counts(l: ActorLink) {
    l.from != "" && l.to != "" && RelationOf(l) in VALID_RELATIONS
  }

  function LinkWrites(d: Doc, n: nat): seq<Write>
    requires n <= |d.links|
  {
    if n == 0 then []
    else LinkWrites(d, n - 1)
         + if Counts(d.links[n - 1]) then [MergeLink(d.intelId, KeyOf(d.links[n - 1]), d.links[n - 1].confidence)] else []
  }

  function RefWrites(d: Doc): seq<Write> {
    if d.intelId != "" then [MergeNode(Ref(d.intelId))] else []
  }

  /** The whole transaction, part by part. */
  function Upsert(g: Graph, d: Doc): Graph {
    var aliases := Aliases(d.vendors);
    var g1 := WriteAll(g, RefWrites(d));
    var g2 := WriteAll(g1, VendorWrites(d, aliases, |aliases|));
    var g3 := WriteAll(g2, ProductWrites(d, aliases, |d.products|));
    var g4 := WriteAll(g3, WalletWrites(d, aliases, |d.wallets|));
    var g5 := WriteAll(g4, PlaceWrites(d, aliases));
    WriteAll(g5, LinkWrites(d, |d.links|))
  }

  function UpsertAll(g: Graph, ds: seq<Doc>): Graph {
    if ds == [] then g else Upsert(UpsertAll(g, ds[..|ds| - 1]), ds[|ds| - 1])
  }

  // --- settled statements -----------------------------------------------------------------------

  /** A statement that has nothing left to do, now and after any other statement. */
  predicate Settled(g: Graph, w: Write) {
    match w
    case MergeNode(n) => n in g.plain
    case MergeVendor(a, _, at) => a in g.vendors && !TextLess(g.vendors[a].lastSeen, at)
    case MergeWallet(a, _) => a in g.wallets
    case MergePlace(p, _) => p in g.places
    case MergeEdge(x, kind, y) => Edge(x, kind, y) in g.edges
    case MergeLink(id, key, c) =>
      || id == ""
      || (&& Hypothesis(key.from) in g.plain && Hypothesis(key.to) in g.plain
          && Edge(Ref(id), HAS_HYPOTHESIS, Hypothesis(key.from)) in g.edges
          && key in g.links && c <= g.links[key])
  }

  /** No statement creates a reference without an id. */
  predicate Proper(w: Write) {
    w != MergeNode(Ref(""))
  }

  predicate Sound(g: Graph) {
    Ref("") !in g.plain
  }

  predicate AllSettled(g: Graph, ws: seq<Write>) {
    forall w :: w in ws ==> Settled(g, w)
  }

  predicate AllProper(ws: seq<Write>) {
    forall w :: w in ws ==> Proper(w)
  }

  lemma SettledDoesNothing(g: Graph, w: Write)
    requires Sound(g) && Settled(g, w)
    ensures Write1(g, w) == g
  {
    match w {
      case MergeNode(n) => assert g.plain + {n} == g.plain;
      case MergeEdge(x, kind, y) => assert g.edges + {Edge(x, kind, y)} == g.edges;
      case MergeLink(id, key, _) =>
        if id != "" {
          assert g.plain + {Hypothesis(key.from), Hypothesis(key.to)} == g.plain;
          assert g.edges + {Edge(Ref(id), HAS_HYPOTHESIS, Hypothesis(key.from))} == g.edges;
        }
      case _ =>
    }
  }

  lemma SettledStays(g: Graph, w: Write, v: Write)
    requires Settled(g, w)
    ensures Settled(Write1(g, v), w)
  {
    if v.MergeVendor? && w.MergeVendor? && v.alias == w.alias && TextLess(g.vendors[w.alias].lastSeen, v.at) {
      if TextLess(v.at, w.at) {
        TextTransitive(g.vendors[w.alias].lastSeen, v.at, w.at);
      }
    }
  }

  lemma {:induction false} AllSettledStay(g: Graph, ws: seq<Write>, vs: seq<Write>)
    requires AllSettled(g, ws)
    ensures AllSettled(WriteAll(g, vs), ws)
    decreases |vs|
  {
    if vs != [] {
      forall w | w in ws ensures Settled(Write1(g, vs[0]), w) { SettledStays(g, w, vs[0]); }
      AllSettledStay(Write1(g, vs[0]), ws, vs[1..]);
    }
  }

  lemma {:induction false} AllSettledDoNothing(g: Graph, ws: seq<Write>)
    requires Sound(g) && AllSettled(g, ws)
    ensures WriteAll(g, ws) == g
  {
    if ws != [] {
      SettledDoesNothing(g, ws[0]);
      AllSettledDoNothing(g, ws[1..]);
    }
  }

  lemma {:induction false} StaysSound(g: Graph, ws: seq<Write>)
    requires Sound(g) && AllProper(ws)
    ensures Sound(WriteAll(g, ws))
    decreases |ws|
  {
    if ws != [] {
      assert Proper(ws[0]);
      StaysSound(Write1(g, ws[0]), ws[1..]);
    }
  }

  predicate Keeps(g: Graph, h: Graph) {
    && g.plain <= h.plain && g.vendors.Keys <= h.vendors.Keys
    && g.wallets.Keys <= h.wallets.Keys && g.places.Keys <= h.places.Keys
  }

  lemma {:induction false} NodesStay(g: Graph, ws: seq<Write>)
    ensures Keeps(g, WriteAll(g, ws))
    decreases |ws|
  {
    if ws != [] { NodesStay(Write1(g, ws[0]), ws[1..]); }
  }

  /** A statement settles where it runs, if the nodes it matches are there. */
  predicate Ready(g: Graph, w: Write) {
    match w
    case MergeEdge(x, _, y) => Has(g, x) && Has(g, y)
    case MergeLink(id, _, _) => id == "" || Ref(id) in g.plain
    case _ => true
  }

  lemma ReadySettles(g: Graph, w: Write)
    requires Ready(g, w)
    ensures Settled(Write1(g, w), w)
  {
    if w.MergeVendor? { TextIrreflexive(w.at); }
  }

  /** Parts compose: if both parts settle where they run, so does their concatenation. */
  lemma SettleAppend(g: Graph, a: seq<Write>, b: seq<Write>)
    requires AllSettled(WriteAll(g, a), a) && AllSettled(WriteAll(WriteAll(g, a), b), b)
    ensures AllSettled(WriteAll(g, a + b), a + b)
  {
    WriteAppend(g, a, b);
    AllSettledStay(WriteAll(g, a), a, b);
  }

  lemma SettleOne(g: Graph, w: Write)
    requires Ready(g, w)
    ensures AllSettled(WriteAll(g, [w]), [w])
  {
    WriteOne(g, w);
    ReadySettles(g, w);
  }

  // --- every part of a document settles -----------------------------------------------------------

  predicate RefReady(g: Graph, d: Doc) {
    d.intelId != "" ==> Ref(d.intelId) in g.plain
  }

  predicate VendorsReady(g: Graph, aliases: seq<string>) {
    forall a :: a in aliases ==> a in g.vendors
  }

  lemma VendorBlockSettles(g: Graph, d: Doc, alias: string)
    requires RefReady(g, d)
    ensures AllSettled(WriteAll(g, VendorBlock(d, alias)), VendorBlock(d, alias))
    ensures alias in WriteAll(g, VendorBlock(d, alias)).vendors && RefReady(WriteAll(g, VendorBlock(d, alias)), d)
  {
    var platform := PlatformOf(d.vendors, alias);
    var a := [MergeVendor(alias, platform, d.capturedAt)];
    var b := if d.intelId != "" then [MergeEdge(Vendor(alias), MENTIONED_IN, Ref(d.intelId))] else [];
    var c := if platform != "" then [MergeNode(Market(platform))] else [];
    var e := if platform != "" then [MergeEdge(Vendor(alias), VENDS_ON, Market(platform))] else [];
    SettleOne(g, a[0]);
    var g1 := WriteAll(g, a);
    WriteOne(g, a[0]);
    if b != [] { SettleOne(g1, b[0]); }
    NodesStay(g1, b);
    SettleAppend(g, a, b);
    WriteAppend(g, a, b);
    var g2 := WriteAll(g, a + b);
    if c != [] {
      SettleOne(g2, c[0]);
      WriteOne(g2, c[0]);
      var g3 := WriteAll(g2, c);
      SettleOne(g3, e[0]);
      NodesStay(g3, e);
      SettleAppend(g, a + b, c);
      WriteAppend(g, a + b, c);
      SettleAppend(g, a + b + c, e);
      WriteAppend(g, a + b + c, e);
      assert a + b + c + e == VendorBlock(d, alias);
    } else {
      assert a + b == VendorBlock(d, alias);
    }
  }

  lemma {:induction false} VendorWritesSettle(g: Graph, d: Doc, aliases: seq<string>, n: nat)
    requires RefReady(g, d) && n <= |aliases|
    ensures AllSettled(WriteAll(g, VendorWrites(d, aliases, n)), VendorWrites(d, aliases, n))
    ensures RefReady(WriteAll(g, VendorWrites(d, aliases, n)), d)
    ensures VendorsReady(WriteAll(g, VendorWrites(d, aliases, n)), aliases[..n])
  {
    if n > 0 {
      VendorWritesSettle(g, d, aliases, n - 1);
      var a, b := VendorWrites(d, aliases, n - 1), VendorBlock(d, aliases[n - 1]);
      VendorBlockSettles(WriteAll(g, a), d, aliases[n - 1]);
      SettleAppend(g, a, b);
      WriteAppend(g, a, b);
      NodesStay(WriteAll(g, a), b);
      assert aliases[..n] == aliases[..n - 1] + [aliases[n - 1]];
    }
  }

  lemma {:induction false} FromVendorsSettle(g: Graph, aliases: seq<string>, kind: Kind, to: Node, n: nat)
    requires VendorsReady(g, aliases) && Has(g, to) && n <= |aliases|
    ensures AllSettled(WriteAll(g, FromVendors(aliases, kind, to, n)), FromVendors(aliases, kind, to, n))
  {
    if n > 0 {
      FromVendorsSettle(g, aliases, kind, to, n - 1);
      var a := FromVendors(aliases, kind, to, n - 1);
      NodesStay(g, a);
      SettleOne(WriteAll(g, a), MergeEdge(Vendor(aliases[n - 1]), kind, to));
      SettleAppend(g, a, [MergeEdge(Vendor(aliases[n - 1]), kind, to)]);
    }
  }

  /** A node, the edge from the reference and the edges from all vendors. */
  lemma HubSettles(g: Graph, d: Doc, aliases: seq<string>, create: Write, toRef: seq<Write>, kind: Kind, to: Node)
    requires RefReady(g, d) && VendorsReady(g, aliases)
    requires Ready(g, create) && Has(Write1(g, create), to)
    requires toRef == [] || (d.intelId != "" && exists k :: toRef == [MergeEdge(Ref(d.intelId), k, to)])
    ensures var ws := [create] + toRef + FromVendors(aliases, kind, to, |aliases|);
            AllSettled(WriteAll(g, ws), ws) && RefReady(WriteAll(g, ws), d) && VendorsReady(WriteAll(g, ws), aliases)
  {
    var vs := FromVendors(aliases, kind, to, |aliases|);
    SettleOne(g, create);
    WriteOne(g, create);
    NodesStay(g, [create]);
    var g1 := WriteAll(g, [create]);
    if toRef != [] { SettleOne(g1, toRef[0]); }
    NodesStay(g1, toRef);
    SettleAppend(g, [create], toRef);
    WriteAppend(g, [create], toRef);
    FromVendorsSettle(WriteAll(g1, toRef), aliases, kind, to, |aliases|);
    SettleAppend(g, [create] + toRef, vs);
    NodesStay(g, [create] + toRef + vs);
  }

  lemma ProductBlockSettles(g: Graph, d: Doc, aliases: seq<string>, product: string)
    requires RefReady(g, d) && VendorsReady(g, aliases)
    ensures var h := WriteAll(g, ProductBlock(d, aliases, product));
            AllSettled(h, ProductBlock(d, aliases, product)) && RefReady(h, d) && VendorsReady(h, aliases)
  {
    var p := Product(product);
    if product != "" {
      HubSettles(g, d, aliases, MergeNode(p), FromRef(d, MENTIONS, p), SELLS, p);
    }
  }

  lemma {:induction false} ProductWritesSettle(g: Graph, d: Doc, aliases: seq<string>, n: nat)
    requires RefReady(g, d) && VendorsReady(g, aliases) && n <= |d.products|
    ensures var h := WriteAll(g, ProductWrites(d, aliases, n));
            AllSettled(h, ProductWrites(d, aliases, n)) && RefReady(h, d) && VendorsReady(h, aliases)
  {
    hide Write1, ProductBlock;
    if n > 0 {
      ProductWritesSettle(g, d, aliases, n - 1);
      var a, b := ProductWrites(d, aliases, n - 1), ProductBlock(d, aliases, d.products[n - 1]);
      ProductBlockSettles(WriteAll(g, a), d, aliases, d.products[n - 1]);
      SettleAppend(g, a, b);
      WriteAppend(g, a, b);
    }
  }

  lemma WalletBlockSettles(g: Graph, d: Doc, aliases: seq<string>, w: WalletEntity)
    requires RefReady(g, d) && VendorsReady(g, aliases)
    ensures var h := WriteAll(g, WalletBlock(aliases, w));
            AllSettled(h, WalletBlock(aliases, w)) && RefReady(h, d) && VendorsReady(h, aliases)
  {
    if w.address != "" {
      HubSettles(g, d, aliases, MergeWallet(w.address, w.chain), [], USES_WALLET, Wallet(w.address));
      assert [MergeWallet(w.address, w.chain)] + [] == [MergeWallet(w.address, w.chain)];
    }
  }

  lemma {:induction false} WalletWritesSettle(g: Graph, d: Doc, aliases: seq<string>, n: nat)
    requires RefReady(g, d) && VendorsReady(g, aliases) && n <= |d.wallets|
    ensures var h := WriteAll(g, WalletWrites(d, aliases, n));
            AllSettled(h, WalletWrites(d, aliases, n)) && RefReady(h, d) && VendorsReady(h, aliases)
  {
    hide Write1, WalletBlock;
    if n > 0 {
      WalletWritesSettle(g, d, aliases, n - 1);
      var a, b := WalletWrites(d, aliases, n - 1), WalletBlock(aliases, d.wallets[n - 1]);
      WalletBlockSettles(WriteAll(g, a), d, aliases, d.wallets[n - 1]);
      SettleAppend(g, a, b);
      WriteAppend(g, a, b);
    }
  }

  lemma PlaceWritesSettle(g: Graph, d: Doc, aliases: seq<string>)
    requires RefReady(g, d) && VendorsReady(g, aliases)
    ensures var h := WriteAll(g, PlaceWrites(d, aliases));
            AllSettled(h, PlaceWrites(d, aliases)) && RefReady(h, d)
  {
    var p := Place(d.neighborhood);
    if d.neighborhood != "" {
      HubSettles(g, d, aliases, MergePlace(d.neighborhood, d.city), FromRef(d, LOCATED_IN, p), SHIPS_FROM, p);
    }
  }

  lemma {:induction false} LinkWritesSettle(g: Graph, d: Doc, n: nat)
    requires RefReady(g, d) && n <= |d.links|
    ensures AllSettled(WriteAll(g, LinkWrites(d, n)), LinkWrites(d, n))
    ensures RefReady(WriteAll(g, LinkWrites(d, n)), d)
  {
    if n > 0 {
      LinkWritesSettle(g, d, n - 1);
      var a, l := LinkWrites(d, n - 1), d.links[n - 1];
      if Counts(l) {
        var w := MergeLink(d.intelId, KeyOf(l), l.confidence);
        SettleOne(WriteAll(g, a), w);
        SettleAppend(g, a, [w]);
        WriteAppend(g, a, [w]);
        NodesStay(WriteAll(g, a), [w]);
      } else {
        assert a + [] == a;
      }
    }
  }

  /** All statements of a document, in order. */
  function Writes(d: Doc): seq<Write> {
    var aliases := Aliases(d.vendors);
    RefWrites(d) + VendorWrites(d, aliases, |aliases|) + ProductWrites(d, aliases, |d.products|)
    + WalletWrites(d, aliases, |d.wallets|) + PlaceWrites(d, aliases) + LinkWrites(d, |d.links|)
  }

  lemma UpsertIsWrites(g: Graph, d: Doc)
    ensures Upsert(g, d) == WriteAll(g, Writes(d))
  {
    var aliases := Aliases(d.vendors);
    var a, b, c := RefWrites(d), VendorWrites(d, aliases, |aliases|), ProductWrites(d, aliases, |d.products|);
    var e, f, h := WalletWrites(d, aliases, |d.wallets|), PlaceWrites(d, aliases), LinkWrites(d, |d.links|);
    WriteAppend(g, a, b);
    WriteAppend(g, a + b, c);
    WriteAppend(g, a + b + c, e);
    WriteAppend(g, a + b + c + e, f);
    WriteAppend(g, a + b + c + e + f, h);
  }

  lemma DocumentSettles(g: Graph, d: Doc)
    ensures AllSettled(Upsert(g, d), Writes(d))
  {
    var aliases := Aliases(d.vendors);
    var a, b, c := RefWrites(d), VendorWrites(d, aliases, |aliases|), ProductWrites(d, aliases, |d.products|);
    var e, f, h := WalletWrites(d, aliases, |d.wallets|), PlaceWrites(d, aliases), LinkWrites(d, |d.links|);
    if a != [] { SettleOne(g, a[0]); WriteOne(g, a[0]); }
    var g1 := WriteAll(g, a);
    VendorWritesSettle(g1, d, aliases, |aliases|);
    assert aliases[..|aliases|] == aliases;
    SettleAppend(g, a, b);
    WriteAppend(g, a, b);
    var g2 := WriteAll(g, a + b);
    ProductWritesSettle(g2, d, aliases, |d.products|);
    SettleAppend(g, a + b, c);
    WriteAppend(g, a + b, c);
    var g3 := WriteAll(g, a + b + c);
    WalletWritesSettle(g3, d, aliases, |d.wallets|);
    SettleAppend(g, a + b + c, e);
    WriteAppend(g, a + b + c, e);
    var g4 := WriteAll(g, a + b + c + e);
    PlaceWritesSettle(g4, d, aliases);
    SettleAppend(g, a + b + c + e, f);
    WriteAppend(g, a + b + c + e, f);
    LinkWritesSettle(WriteAll(g, a + b + c + e + f), d, |d.links|);
    SettleAppend(g, a + b + c + e + f, h);
    UpsertIsWrites(g, d);
  }

  lemma {:induction false} VendorWritesProper(d: Doc, aliases: seq<string>, n: nat)
    requires n <= |aliases|
    ensures AllProper(VendorWrites(d, aliases, n))
  {
    if n > 0 { VendorWritesProper(d, aliases, n - 1); }
  }

  lemma {:induction false} FromVendorsProper(aliases: seq<string>, kind: Kind, to: Node, n: nat)
    requires n <= |aliases|
    ensures AllProper(FromVendors(aliases, kind, to, n))
  {
    if n > 0 { FromVendorsProper(aliases, kind, to, n - 1); }
  }

  lemma ProductBlockProper(d: Doc, aliases: seq<string>, product: string)
    ensures AllProper(ProductBlock(d, aliases, product))
  {
    FromVendorsProper(aliases, SELLS, Product(product), |aliases|);
  }

  lemma {:induction false} ProductWritesProper(d: Doc, aliases: seq<string>, n: nat)
    requires n <= |d.products|
    ensures AllProper(ProductWrites(d, aliases, n))
  {
    hide Proper, ProductBlock;
    if n > 0 {
      ProductWritesProper(d, aliases, n - 1);
      ProductBlockProper(d, aliases, d.products[n - 1]);
    }
  }

  lemma WalletBlockProper(aliases: seq<string>, w: WalletEntity)
    ensures AllProper(WalletBlock(aliases, w))
  {
    FromVendorsProper(aliases, USES_WALLET, Wallet(w.address), |aliases|);
  }

  lemma {:induction false} WalletWritesProper(d: Doc, aliases: seq<string>, n: nat)
    requires n <= |d.wallets|
    ensures AllProper(WalletWrites(d, aliases, n))
  {
    hide Proper, WalletBlock;
    if n > 0 {
      WalletWritesProper(d, aliases, n - 1);
      WalletBlockProper(aliases, d.wallets[n - 1]);
    }
  }

  lemma {:induction false} LinkWritesProper(d: Doc, n: nat)
    requires n <= |d.links|
    ensures AllProper(LinkWrites(d, n))
  {
    if n > 0 { LinkWritesProper(d, n - 1); }
  }

  lemma PlaceWritesProper(d: Doc, aliases: seq<string>)
    ensures AllProper(PlaceWrites(d, aliases)) && AllProper(RefWrites(d))
  {
    FromVendorsProper(aliases, SHIPS_FROM, Place(d.neighborhood), |aliases|);
  }

  lemma WritesProper(d: Doc)
    ensures AllProper(Writes(d))
  {
    hide RefWrites, VendorWrites, ProductWrites, WalletWrites, PlaceWrites, LinkWrites, Proper;
    var aliases := Aliases(d.vendors);
    VendorWritesProper(d, aliases, |aliases|);
    ProductWritesProper(d, aliases, |d.products|);
    WalletWritesProper(d, aliases, |d.wallets|);
    PlaceWritesProper(d, aliases);
    LinkWritesProper(d, |d.links|);
  }

  lemma UpsertStaysSound(g: Graph, d: Doc)
    requires Sound(g)
    ensures Sound(Upsert(g, d))
  {
    WritesProper(d);
    UpsertIsWrites(g, d);
    StaysSound(g, Writes(d));
  }

  lemma {:induction false} UpsertAllKeepsSettled(g: Graph, ds: seq<Doc>, ws: seq<Write>)
    requires Sound(g) && AllSettled(g, ws)
    ensures Sound(UpsertAll(g, ds)) && AllSettled(UpsertAll(g, ds), ws)
  {
    if ds != [] {
      var n := |ds| - 1;
      UpsertAllKeepsSettled(g, ds[..n], ws);
      var h := UpsertAll(g, ds[..n]);
      UpsertStaysSound(h, ds[n]);
      UpsertIsWrites(h, ds[n]);
      AllSettledStay(h, ws, Writes(ds[n]));
    }
  }

  /** A document that was applied can be applied again after any others without changing the graph. */
  lemma ReplaysAreAbsorbed(g: Graph, d: Doc, others: seq<Doc>)
    requires Sound(g)
    ensures var h := UpsertAll(Upsert(g, d), others);
            Upsert(h, d) == h
  {
    DocumentSettles(g, d);
    UpsertStaysSound(g, d);
    UpsertAllKeepsSettled(Upsert(g, d), others, Writes(d));
    var h := UpsertAll(Upsert(g, d), others);
    UpsertIsWrites(h, d);
    AllSettledDoNothing(h, Writes(d));
  }

  // --- what the properties of vendors and links are ---------------------------------------------

  predicate KeepsVendors(ws: seq<Write>) {
    forall w :: w in ws ==> !w.MergeVendor?
  }

  predicate KeepsLinks(ws: seq<Write>) {
    forall w :: w in ws ==> !w.MergeLink?
  }

  lemma {:induction false} VendorsKept(g: Graph, ws: seq<Write>)
    requires KeepsVendors(ws)
    ensures WriteAll(g, ws).vendors == g.vendors
    decreases |ws|
  {
    if ws != [] {
      assert ws[0] in ws;
      VendorsKept(Write1(g, ws[0]), ws[1..]);
    }
  }

  lemma {:induction false} LinksKept(g: Graph, ws: seq<Write>)
    requires KeepsLinks(ws)
    ensures WriteAll(g, ws).links == g.links
    decreases |ws|
  {
    if ws != [] {
      assert ws[0] in ws;
      LinksKept(Write1(g, ws[0]), ws[1..]);
    }
  }

  lemma {:induction false} EdgesOnly(aliases: seq<string>, kind: Kind, to: Node, n: nat)
    requires n <= |aliases|
    ensures forall w :: w in FromVendors(aliases, kind, to, n) ==> w.MergeEdge?
  {
    if n > 0 { EdgesOnly(aliases, kind, to, n - 1); }
  }

  lemma ProductBlockTouchesNeither(d: Doc, aliases: seq<string>, product: string)
    ensures KeepsVendors(ProductBlock(d, aliases, product)) && KeepsLinks(ProductBlock(d, aliases, product))
  {
    EdgesOnly(aliases, SELLS, Product(product), |aliases|);
  }

  lemma {:induction false} ProductsTouchNeither(d: Doc, aliases: seq<string>, n: nat)
    requires n <= |d.products|
    ensures KeepsVendors(ProductWrites(d, aliases, n)) && KeepsLinks(ProductWrites(d, aliases, n))
  {
    hide ProductBlock;
    if n > 0 {
      ProductsTouchNeither(d, aliases, n - 1);
      ProductBlockTouchesNeither(d, aliases, d.products[n - 1]);
    }
  }

  lemma WalletBlockTouchesNeither(aliases: seq<string>, w: WalletEntity)
    ensures KeepsVendors(WalletBlock(aliases, w)) && KeepsLinks(WalletBlock(aliases, w))
  {
    EdgesOnly(aliases, USES_WALLET, Wallet(w.address), |aliases|);
  }

  lemma {:induction false} WalletsTouchNeither(d: Doc, aliases: seq<string>, n: nat)
    requires n <= |d.wallets|
    ensures KeepsVendors(WalletWrites(d, aliases, n)) && KeepsLinks(WalletWrites(d, aliases, n))
  {
    hide WalletBlock;
    if n > 0 {
      WalletsTouchNeither(d, aliases, n - 1);
      WalletBlockTouchesNeither(aliases, d.wallets[n - 1]);
    }
  }

  lemma {:induction false} VendorsTouchNoLinks(d: Doc, aliases: seq<string>, n: nat)
    requires n <= |aliases|
    ensures KeepsLinks(VendorWrites(d, aliases, n))
  {
    if n > 0 { VendorsTouchNoLinks(d, aliases, n - 1); }
  }

  lemma {:induction false} LinksTouchNoVendors(d: Doc, n: nat)
    requires n <= |d.links|
    ensures KeepsVendors(LinkWrites(d, n))
  {
    if n > 0 { LinksTouchNoVendors(d, n - 1); }
  }

  function Later(a: string, b: string): string {
    if TextLess(a, b) then b else a
  }

  /** A vendor's properties after a document that mentions it at `at`. */
  function Seen(was: map<string, VendorProps>, alias: string, platform: string, at: string): VendorProps {
    if alias in was then was[alias].(lastSeen := Later(was[alias].lastSeen, at)) else VendorProps(platform, at, at)
  }

  lemma VendorBlockEffect(g: Graph, d: Doc, alias: string)
    ensures WriteAll(g, VendorBlock(d, alias)).vendors
         == g.vendors[alias := Seen(g.vendors, alias, PlatformOf(d.vendors, alias), d.capturedAt)]
  {
    var first := MergeVendor(alias, PlatformOf(d.vendors, alias), d.capturedAt);
    var rest := VendorBlock(d, alias)[1..];
    assert VendorBlock(d, alias) == [first] + rest;
    assert KeepsVendors(rest);
    VendorsKept(Write1(g, first), rest);
  }

  lemma {:induction false} VendorWritesEffect(g: Graph, d: Doc, aliases: seq<string>, n: nat, a: string)
    requires n <= |aliases|
    ensures var h := WriteAll(g, VendorWrites(d, aliases, n)).vendors;
            && (a in h <==> a in g.vendors || a in aliases[..n])
            && (a in aliases[..n] ==> h[a] == Seen(g.vendors, a, PlatformOf(d.vendors, a), d.capturedAt))
            && (a in h && a !in aliases[..n] ==> h[a] == g.vendors[a])
  {
    if n > 0 {
      VendorWritesEffect(g, d, aliases, n - 1, a);
      var before := VendorWrites(d, aliases, n - 1);
      WriteAppend(g, before, VendorBlock(d, aliases[n - 1]));
      VendorBlockEffect(WriteAll(g, before), d, aliases[n - 1]);
      assert aliases[..n] == aliases[..n - 1] + [aliases[n - 1]];
      TextIrreflexive(d.capturedAt);
    }
  }

  predicate Mentions(d: Doc, alias: string) {
    alias in Aliases(d.vendors)
  }

  lemma UpsertEffectOnVendors(g: Graph, d: Doc, a: string)
    ensures var h := Upsert(g, d).vendors;
            && (a in h <==> a in g.vendors || Mentions(d, a))
            && (Mentions(d, a) ==> h[a] == Seen(g.vendors, a, PlatformOf(d.vendors, a), d.capturedAt))
            && (a in h && !Mentions(d, a) ==> h[a] == g.vendors[a])
  {
    hide VendorWrites, ProductWrites, WalletWrites, PlaceWrites, LinkWrites, WriteAll, KeepsVendors, KeepsLinks, Seen;
    var aliases := Aliases(d.vendors);
    var g1 := WriteAll(g, RefWrites(d));
    PlaceWritesTouchNeither(d, aliases);
    VendorsKept(g, RefWrites(d));
    VendorWritesEffect(g1, d, aliases, |aliases|, a);
    assert aliases[..|aliases|] == aliases;
    var g2 := WriteAll(g1, VendorWrites(d, aliases, |aliases|));
    ProductsTouchNeither(d, aliases, |d.products|);
    VendorsKept(g2, ProductWrites(d, aliases, |d.products|));
    var g3 := WriteAll(g2, ProductWrites(d, aliases, |d.products|));
    WalletsTouchNeither(d, aliases, |d.wallets|);
    VendorsKept(g3, WalletWrites(d, aliases, |d.wallets|));
    var g4 := WriteAll(g3, WalletWrites(d, aliases, |d.wallets|));
    VendorsKept(g4, PlaceWrites(d, aliases));
    LinksTouchNoVendors(d, |d.links|);
    VendorsKept(WriteAll(g4, PlaceWrites(d, aliases)), LinkWrites(d, |d.links|));
  }

  /** t is the greatest capture time of the documents that mention the vendor. */
  ghost predicate IsLatest(ds: seq<Doc>, alias: string, t: string) {
    && (exists i :: 0 <= i < |ds| && Mentions(ds[i], alias) && ds[i].capturedAt == t)
    && (forall i :: 0 <= i < |ds| && Mentions(ds[i], alias) ==> !TextLess(t, ds[i].capturedAt))
  }

  /** Platform and first_seen are those of the first document that mentions the vendor. */
  ghost predicate FromFirst(ds: seq<Doc>, alias: string, v: VendorProps) {
    exists i :: 0 <= i < |ds| && Mentions(ds[i], alias) && (forall k :: 0 <= k < i ==> !Mentions(ds[k], alias))
                && v.firstSeen == ds[i].capturedAt && v.platform == PlatformOf(ds[i].vendors, alias)
  }

  ghost predicate Mentioned(ds: seq<Doc>, alias: string) {
    exists i :: 0 <= i < |ds| && Mentions(ds[i], alias)
  }

  lemma {:induction false} VendorsAreHistory(ds: seq<Doc>, alias: string)
    ensures var h := UpsertAll(EMPTY, ds).vendors;
            && (alias in h <==> Mentioned(ds, alias))
            && (alias in h ==> IsLatest(ds, alias, h[alias].lastSeen) && FromFirst(ds, alias, h[alias]))
  {
    hide IsLatest, FromFirst, Mentioned, Upsert, Mentions;
    if ds == [] {
      NobodyMentioned(alias);
    } else {
      var n := |ds| - 1;
      var less, d := ds[..n], ds[n];
      assert less + [d] == ds;
      VendorsAreHistory(less, alias);
      UpsertEffectOnVendors(UpsertAll(EMPTY, less), d, alias);
      MentionedSnoc(less, d, alias);
      var was := UpsertAll(EMPTY, less).vendors;
      if alias in was {
        LatestSnoc(less, d, alias, was[alias].lastSeen);
        FirstSnoc(less, d, alias, was[alias], Later(was[alias].lastSeen, d.capturedAt));
      } else if Mentions(d, alias) {
        FirstMention(less, d, alias);
      }
    }
  }

  lemma NobodyMentioned(alias: string)
    ensures !Mentioned([], alias)
  {
  }

  lemma MentionedSnoc(less: seq<Doc>, d: Doc, alias: string)
    ensures Mentioned(less + [d], alias) <==> Mentioned(less, alias) || Mentions(d, alias)
  {
    var ds := less + [d];
    assert ds[|less|] == d;
    if i :| 0 <= i < |less| && Mentions(less[i], alias) {
      assert ds[i] == less[i];
    }
  }

  lemma FirstSnoc(less: seq<Doc>, d: Doc, alias: string, v: VendorProps, later: string)
    requires FromFirst(less, alias, v)
    ensures FromFirst(less + [d], alias, v) && FromFirst(less + [d], alias, v.(lastSeen := later))
  {
    var ds := less + [d];
    var i :| 0 <= i < |less| && Mentions(less[i], alias) && (forall k :: 0 <= k < i ==> !Mentions(less[k], alias))
             && v.firstSeen == less[i].capturedAt && v.platform == PlatformOf(less[i].vendors, alias);
    assert ds[i] == less[i] && forall k :: 0 <= k < i ==> ds[k] == less[k];
  }

  lemma FirstMention(less: seq<Doc>, d: Doc, alias: string)
    requires !Mentioned(less, alias) && Mentions(d, alias)
    ensures IsLatest(less + [d], alias, d.capturedAt)
    ensures FromFirst(less + [d], alias, VendorProps(PlatformOf(d.vendors, alias), d.capturedAt, d.capturedAt))
  {
    var ds := less + [d];
    assert ds[|less|] == d && forall k :: 0 <= k < |less| ==> ds[k] == less[k];
    TextIrreflexive(d.capturedAt);
  }

  lemma LatestSnoc(less: seq<Doc>, d: Doc, alias: string, t: string)
    requires IsLatest(less, alias, t)
    ensures IsLatest(less + [d], alias, if Mentions(d, alias) then Later(t, d.capturedAt) else t)
    ensures Mentioned(less + [d], alias)
  {
    var ds := less + [d];
    var i :| 0 <= i < |less| && Mentions(less[i], alias) && less[i].capturedAt == t;
    assert ds[i] == less[i] && ds[|less|] == d;
    TextIrreflexive(d.capturedAt);
    forall k | 0 <= k < |ds| && Mentions(ds[k], alias) && Mentions(d, alias)
      ensures !TextLess(Later(t, d.capturedAt), ds[k].capturedAt)
    {
      if k < |less| && TextLess(t, d.capturedAt) && TextLess(d.capturedAt, ds[k].capturedAt) {
        TextTransitive(t, d.capturedAt, ds[k].capturedAt);
      }
    }
  }

  // --- confidence of hypothesis links ------------------------------------------------------------

  /** Document d asserts a link with confidence c. */
  ghost predicate Asserts(d: Doc, key: LinkKey, c: real, n: nat)
    requires n <= |d.links|
  {
    d.intelId != "" && exists k :: 0 <= k < n && Counts(d.links[k]) && KeyOf(d.links[k]) == key && d.links[k].confidence == c
  }

  /** What the links hold for a key after more assertions: the old value and all asserted ones, maximised. */
  ghost predicate MaxOf(was: map<LinkKey, real>, now: map<LinkKey, real>, key: LinkKey, d: Doc, n: nat)
    requires n <= |d.links|
  {
    && (key in now <==> key in was || exists c :: Asserts(d, key, c, n))
    && (key in now ==>
          && (key in was ==> was[key] <= now[key])
          && (forall c :: Asserts(d, key, c, n) ==> c <= now[key])
          && ((key in was && now[key] == was[key]) || Asserts(d, key, now[key], n)))
  }

  /** The n-th link of d asserts its confidence for the key. */
  predicate LastAsserts(d: Doc, key: LinkKey, n: nat)
    requires 1 <= n <= |d.links|
  {
    d.intelId != "" && Counts(d.links[n - 1]) && KeyOf(d.links[n - 1]) == key
  }

  lemma AssertsSnoc(d: Doc, key: LinkKey, c: real, m: nat)
    requires m + 1 <= |d.links|
    ensures Asserts(d, key, c, m + 1) <==>
              Asserts(d, key, c, m) || (LastAsserts(d, key, m + 1) && d.links[m].confidence == c)
  {
  }

  lemma MaxOfSnoc(was: map<LinkKey, real>, mid: map<LinkKey, real>, now: map<LinkKey, real>, key: LinkKey, d: Doc, m: nat)
    requires m + 1 <= |d.links| && MaxOf(was, mid, key, d, m)
    requires if LastAsserts(d, key, m + 1)
             then key in now
                  && now[key] == if key in mid && d.links[m].confidence <= mid[key] then mid[key] else d.links[m].confidence
             else (key in now <==> key in mid) && (key in mid ==> now[key] == mid[key])
    ensures MaxOf(was, now, key, d, m + 1)
  {
    hide Asserts, LastAsserts;
    var n := m + 1;
    forall c ensures Asserts(d, key, c, n) <==>
              Asserts(d, key, c, m) || (LastAsserts(d, key, n) && d.links[m].confidence == c)
    {
      AssertsSnoc(d, key, c, m);
    }
    if LastAsserts(d, key, n) {
      assert Asserts(d, key, d.links[m].confidence, n);
    } else if c :| Asserts(d, key, c, m) {
      assert Asserts(d, key, c, n);
    }
  }

  lemma {:induction false} LinkWritesEffect(g: Graph, d: Doc, n: nat, key: LinkKey)
    requires Sound(g) && RefReady(g, d) && n <= |d.links|
    ensures MaxOf(g.links, WriteAll(g, LinkWrites(d, n)).links, key, d, n)
    ensures RefReady(WriteAll(g, LinkWrites(d, n)), d) && Sound(WriteAll(g, LinkWrites(d, n)))
  {
    hide MaxOf;
    if n == 0 {
      NothingAssertedYet(g.links, key, d);
    } else {
      LinkWritesEffect(g, d, n - 1, key);
      var l, before := d.links[n - 1], LinkWrites(d, n - 1);
      var h := WriteAll(g, before);
      if Counts(l) {
        var w := MergeLink(d.intelId, KeyOf(l), l.confidence);
        WriteAppend(g, before, [w]);
        WriteOne(h, w);
      } else {
        assert before + [] == before;
      }
      MaxOfSnoc(g.links, h.links, WriteAll(g, LinkWrites(d, n)).links, key, d, n - 1);
    }
  }

  lemma NothingAssertedYet(m: map<LinkKey, real>, key: LinkKey, d: Doc)
    ensures MaxOf(m, m, key, d, 0)
  {
  }

  lemma PlaceWritesTouchNeither(d: Doc, aliases: seq<string>)
    ensures KeepsVendors(PlaceWrites(d, aliases)) && KeepsLinks(PlaceWrites(d, aliases))
    ensures KeepsVendors(RefWrites(d)) && KeepsLinks(RefWrites(d))
  {
    EdgesOnly(aliases, SHIPS_FROM, Place(d.neighborhood), |aliases|);
  }

  /** Only the link statements change the confidences, and they find the reference. */
  lemma BeforeLinks(g: Graph, d: Doc)
    ensures var aliases := Aliases(d.vendors);
            var h := WriteAll(WriteAll(WriteAll(WriteAll(WriteAll(g, RefWrites(d)), VendorWrites(d, aliases, |aliases|)),
                                                ProductWrites(d, aliases, |d.products|)),
                                       WalletWrites(d, aliases, |d.wallets|)),
                              PlaceWrites(d, aliases));
            h.links == g.links && RefReady(h, d)
  {
    hide VendorWrites, ProductWrites, WalletWrites, PlaceWrites, KeepsLinks, KeepsVendors;
    var aliases := Aliases(d.vendors);
    var a, b, c := RefWrites(d), VendorWrites(d, aliases, |aliases|), ProductWrites(d, aliases, |d.products|);
    var e, f := WalletWrites(d, aliases, |d.wallets|), PlaceWrites(d, aliases);
    VendorsTouchNoLinks(d, aliases, |aliases|);
    ProductsTouchNeither(d, aliases, |d.products|);
    WalletsTouchNeither(d, aliases, |d.wallets|);
    PlaceWritesTouchNeither(d, aliases);
    if a != [] { WriteOne(g, a[0]); }
    var g1 := WriteAll(g, a);
    var g2 := WriteAll(g1, b);
    var g3 := WriteAll(g2, c);
    var g4 := WriteAll(g3, e);
    LinksKept(g, a); LinksKept(g1, b); LinksKept(g2, c); LinksKept(g3, e); LinksKept(g4, f);
    NodesStay(g1, b); NodesStay(g2, c); NodesStay(g3, e); NodesStay(g4, f);
  }

  lemma UpsertEffectOnLinks(g: Graph, d: Doc, key: LinkKey)
    requires Sound(g)
    ensures MaxOf(g.links, Upsert(g, d).links, key, d, |d.links|)
  {
    hide RefWrites, VendorWrites, ProductWrites, WalletWrites, PlaceWrites, LinkWrites, MaxOf, Sound, RefReady, WriteAll;
    var aliases := Aliases(d.vendors);
    var h := WriteAll(WriteAll(WriteAll(WriteAll(WriteAll(g, RefWrites(d)), VendorWrites(d, aliases, |aliases|)),
                                        ProductWrites(d, aliases, |d.products|)),
                               WalletWrites(d, aliases, |d.wallets|)),
                      PlaceWrites(d, aliases));
    BeforeLinks(g, d);
    BeforeLinksSound(g, d);
    LinkWritesEffect(h, d, |d.links|, key);
  }

  lemma BeforeLinksSound(g: Graph, d: Doc)
    requires Sound(g)
    ensures var aliases := Aliases(d.vendors);
            Sound(WriteAll(WriteAll(WriteAll(WriteAll(WriteAll(g, RefWrites(d)), VendorWrites(d, aliases, |aliases|)),
                                             ProductWrites(d, aliases, |d.products|)),
                                    WalletWrites(d, aliases, |d.wallets|)),
                           PlaceWrites(d, aliases)))
  {
    hide Write1, WriteAll, RefWrites, VendorWrites, ProductWrites, WalletWrites, PlaceWrites, Sound, AllProper;
    var aliases := Aliases(d.vendors);
    VendorWritesProper(d, aliases, |aliases|);
    ProductWritesProper(d, aliases, |d.products|);
    WalletWritesProper(d, aliases, |d.wallets|);
    PlaceWritesProper(d, aliases);
    StaysSound(g, RefWrites(d));
    var g1 := WriteAll(g, RefWrites(d));
    StaysSound(g1, VendorWrites(d, aliases, |aliases|));
    var g2 := WriteAll(g1, VendorWrites(d, aliases, |aliases|));
    StaysSound(g2, ProductWrites(d, aliases, |d.products|));
    var g3 := WriteAll(g2, ProductWrites(d, aliases, |d.products|));
    StaysSound(g3, WalletWrites(d, aliases, |d.wallets|));
    StaysSound(WriteAll(g3, WalletWrites(d, aliases, |d.wallets|)), PlaceWrites(d, aliases));
  }

  ghost predicate AssertedBy(ds: seq<Doc>, key: LinkKey, c: real) {
    exists i :: 0 <= i < |ds| && Asserts(ds[i], key, c, |ds[i].links|)
  }

  lemma NothingAsserted(key: LinkKey, c: real)
    ensures !AssertedBy([], key, c)
  {
  }

  lemma AssertedSnoc(less: seq<Doc>, d: Doc, key: LinkKey, c: real)
    ensures AssertedBy(less + [d], key, c) <==> AssertedBy(less, key, c) || Asserts(d, key, c, |d.links|)
  {
    var ds := less + [d];
    assert ds[|less|] == d;
    if i :| 0 <= i < |less| && Asserts(less[i], key, c, |less[i].links|) {
      assert ds[i] == less[i];
    }
    if i :| 0 <= i < |ds| && Asserts(ds[i], key, c, |ds[i].links|) {
      assert i < |less| ==> ds[i] == less[i];
    }
  }

  /** The stored confidence is the greatest one that any applied document asserted. */
  lemma {:induction false} LinksAreMaxima(ds: seq<Doc>, key: LinkKey)
    ensures var h := UpsertAll(EMPTY, ds).links;
            && Sound(UpsertAll(EMPTY, ds))
            && (key in h <==> exists c :: AssertedBy(ds, key, c))
            && (key in h ==> AssertedBy(ds, key, h[key]) && forall c :: AssertedBy(ds, key, c) ==> c <= h[key])
  {
    hide AssertedBy, Asserts, Upsert;
    if ds == [] {
      forall c ensures !AssertedBy(ds, key, c) { NothingAsserted(key, c); }
    } else {
      var n := |ds| - 1;
      var less, d := ds[..n], ds[n];
      assert less + [d] == ds;
      LinksAreMaxima(less, key);
      UpsertStaysSound(UpsertAll(EMPTY, less), d);
      UpsertEffectOnLinks(UpsertAll(EMPTY, less), d, key);
      forall c ensures AssertedBy(ds, key, c) <==> AssertedBy(less, key, c) || Asserts(d, key, c, |d.links|) {
        AssertedSnoc(less, d, key, c);
      }
    }
  }

  /** The same documents in any order, any number of times, give the same last_seen ... */
  lemma LastSeenIgnoresOrder(ds: seq<Doc>, es: seq<Doc>, alias: string)
    requires forall d :: d in ds <==> d in es
    ensures var g, h := UpsertAll(EMPTY, ds), UpsertAll(EMPTY, es);
            && (alias in g.vendors <==> alias in h.vendors)
            && (alias in g.vendors ==> g.vendors[alias].lastSeen == h.vendors[alias].lastSeen)
  {
    hide IsLatest, Mentioned, UpsertAll, FromFirst;
    VendorsAreHistory(ds, alias);
    VendorsAreHistory(es, alias);
    SameMentions(ds, es, alias);
    SameMentions(es, ds, alias);
    var g, h := UpsertAll(EMPTY, ds), UpsertAll(EMPTY, es);
    if alias in g.vendors {
      LatestTransfers(ds, es, alias, g.vendors[alias].lastSeen);
      LatestUnique(es, alias, g.vendors[alias].lastSeen, h.vendors[alias].lastSeen);
    }
  }

  /** ... and the same confidences. */
  lemma ConfidenceIgnoresOrder(ds: seq<Doc>, es: seq<Doc>, key: LinkKey)
    requires forall d :: d in ds <==> d in es
    ensures var g, h := UpsertAll(EMPTY, ds), UpsertAll(EMPTY, es);
            && (key in g.links <==> key in h.links)
            && (key in g.links ==> g.links[key] == h.links[key])
  {
    hide AssertedBy, UpsertAll;
    LinksAreMaxima(ds, key);
    LinksAreMaxima(es, key);
    forall c ensures AssertedBy(ds, key, c) <==> AssertedBy(es, key, c) {
      SameAssertions(ds, es, key, c);
      SameAssertions(es, ds, key, c);
    }
  }

  lemma SameMentions(ds: seq<Doc>, es: seq<Doc>, alias: string)
    requires forall d :: d in ds ==> d in es
    ensures Mentioned(ds, alias) ==> Mentioned(es, alias)
  {
    if i :| 0 <= i < |ds| && Mentions(ds[i], alias) {
      assert ds[i] in es;
    }
  }

  lemma SameAssertions(ds: seq<Doc>, es: seq<Doc>, key: LinkKey, c: real)
    requires forall d :: d in ds ==> d in es
    ensures AssertedBy(ds, key, c) ==> AssertedBy(es, key, c)
  {
    if i :| 0 <= i < |ds| && Asserts(ds[i], key, c, |ds[i].links|) {
      assert ds[i] in es;
    }
  }

  lemma LatestTransfers(ds: seq<Doc>, es: seq<Doc>, alias: string, t: string)
    requires (forall d :: d in ds <==> d in es) && IsLatest(ds, alias, t)
    ensures IsLatest(es, alias, t)
  {
    var i :| 0 <= i < |ds| && Mentions(ds[i], alias) && ds[i].capturedAt == t;
    assert ds[i] in es;
    forall k | 0 <= k < |es| && Mentions(es[k], alias) ensures !TextLess(t, es[k].capturedAt) {
      assert es[k] in ds;
    }
  }

  lemma LatestUnique(ds: seq<Doc>, alias: string, t: string, u: string)
    requires IsLatest(ds, alias, t) && IsLatest(ds, alias, u)
    ensures t == u
  {
    TextConnected(t, u);
  }

  // --- the transaction as a loop of statements --------------------------------------------------

  class Neo4jManager {
    var graph: Graph

    constructor ()
      ensures graph == EMPTY
    {
      graph := EMPTY;
    }

    /** `tx.run` */
    method Run(w: Write)
      modifies this
      ensures graph == Write1(old(graph), w)
    {
      graph := Write1(graph, w);
    }

    method RunFromVendors(aliases: seq<string>, kind: Kind, to: Node)
      modifies this
      ensures graph == WriteAll(old(graph), FromVendors(aliases, kind, to, |aliases|))
    {
      ghost var was := graph;
      var i := 0;
      while i < |aliases|
        invariant i <= |aliases| && graph == WriteAll(was, FromVendors(aliases, kind, to, i))
      {
        WriteAppend(was, FromVendors(aliases, kind, to, i), [MergeEdge(Vendor(aliases[i]), kind, to)]);
        WriteOne(graph, MergeEdge(Vendor(aliases[i]), kind, to));
        Run(MergeEdge(Vendor(aliases[i]), kind, to));
        i := i + 1;
      }
    }

    method UpsertVendors(d: Doc, aliases: seq<string>)
      modifies this
      ensures graph == WriteAll(old(graph), VendorWrites(d, aliases, |aliases|))
    {
      hide Write1;
      ghost var was := graph;
      var i := 0;
      while i < |aliases|
        invariant i <= |aliases| && graph == WriteAll(was, VendorWrites(d, aliases, i))
      {
        ghost var before := graph;
        var alias := aliases[i];
        var platform := PlatformOf(d.vendors, alias);
        ghost var ws := [MergeVendor(alias, platform, d.capturedAt)];
        WriteOne(before, ws[0]);
        Run(MergeVendor(alias, platform, d.capturedAt));
        if d.intelId != "" {
          var w := MergeEdge(Vendor(alias), MENTIONED_IN, Ref(d.intelId));
          WriteAppend(before, ws, [w]);
          WriteOne(graph, w);
          ws := ws + [w];
          Run(w);
        }
        if platform != "" {
          var w, v := MergeNode(Market(platform)), MergeEdge(Vendor(alias), VENDS_ON, Market(platform));
          WriteAppend(before, ws, [w]);
          WriteOne(graph, w);
          Run(w);
          WriteAppend(before, ws + [w], [v]);
          WriteOne(graph, v);
          ws := ws + [w] + [v];
          Run(v);
        }
        assert ws == VendorBlock(d, alias);
        WriteAppend(was, VendorWrites(d, aliases, i), ws);
        i := i + 1;
      }
    }

    /** A node, its edge from the reference if there is one, and its edges from all vendors. */
    method UpsertHub(create: Write, toRef: seq<Write>, aliases: seq<string>, kind: Kind, to: Node)
      requires |toRef| <= 1
      modifies this
      ensures graph == WriteAll(old(graph), [create] + toRef + FromVendors(aliases, kind, to, |aliases|))
    {
      ghost var was := graph;
      WriteOne(was, create);
      Run(create);
      if toRef != [] {
        WriteOne(graph, toRef[0]);
        assert toRef == [toRef[0]];
        Run(toRef[0]);
      }
      WriteAppend(was, [create], toRef);
      RunFromVendors(aliases, kind, to);
      WriteAppend(was, [create] + toRef, FromVendors(aliases, kind, to, |aliases|));
    }

    method UpsertProduct(d: Doc, aliases: seq<string>, product: string)
      modifies this
      ensures graph == WriteAll(old(graph), ProductBlock(d, aliases, product))
    {
      var p := Product(product);
      if product != "" {
        UpsertHub(MergeNode(p), FromRef(d, MENTIONS, p), aliases, SELLS, p);
      }
    }

    method UpsertProducts(d: Doc, aliases: seq<string>)
      modifies this
      ensures graph == WriteAll(old(graph), ProductWrites(d, aliases, |d.products|))
    {
      hide Write1, ProductBlock;
      ghost var was := graph;
      var i := 0;
      while i < |d.products|
        invariant i <= |d.products| && graph == WriteAll(was, ProductWrites(d, aliases, i))
      {
        WriteAppend(was, ProductWrites(d, aliases, i), ProductBlock(d, aliases, d.products[i]));
        UpsertProduct(d, aliases, d.products[i]);
        i := i + 1;
      }
    }

    method UpsertWallet(aliases: seq<string>, w: WalletEntity)
      modifies this
      ensures graph == WriteAll(old(graph), WalletBlock(aliases, w))
    {
      if w.address != "" {
        assert [MergeWallet(w.address, w.chain)] + [] == [MergeWallet(w.address, w.chain)];
        UpsertHub(MergeWallet(w.address, w.chain), [], aliases, USES_WALLET, Wallet(w.address));
      }
    }

    method UpsertWallets(d: Doc, aliases: seq<string>)
      modifies this
      ensures graph == WriteAll(old(graph), WalletWrites(d, aliases, |d.wallets|))
    {
      hide Write1, WalletBlock;
      ghost var was := graph;
      var i := 0;
      while i < |d.wallets|
        invariant i <= |d.wallets| && graph == WriteAll(was, WalletWrites(d, aliases, i))
      {
        WriteAppend(was, WalletWrites(d, aliases, i), WalletBlock(aliases, d.wallets[i]));
        UpsertWallet(aliases, d.wallets[i]);
        i := i + 1;
      }
    }

    method UpsertLinks(d: Doc)
      modifies this
      ensures graph == WriteAll(old(graph), LinkWrites(d, |d.links|))
    {
      ghost var was := graph;
      var i := 0;
      while i < |d.links|
        invariant i <= |d.links| && graph == WriteAll(was, LinkWrites(d, i))
      {
        var l := d.links[i];
        if l.from != "" && l.to != "" && RelationOf(l) in VALID_RELATIONS {
          var w := MergeLink(d.intelId, KeyOf(l), l.confidence);
          WriteAppend(was, LinkWrites(d, i), [w]);
          WriteOne(graph, w);
          Run(w);
        } else {
          assert LinkWrites(d, i) + [] == LinkWrites(d, i);
        }
        i := i + 1;
      }
    }

    /** `_upsert_intel_graph_tx` */
    method UpsertIntelGraph(d: Doc)
      modifies this
      ensures graph == Upsert(old(graph), d)
    {
      var aliases := Aliases(d.vendors);
      if d.intelId != "" {
        WriteOne(graph, MergeNode(Ref(d.intelId)));
        Run(MergeNode(Ref(d.intelId)));
      }
      UpsertVendors(d, aliases);
      UpsertProducts(d, aliases);
      UpsertWallets(d, aliases);
      if d.neighborhood != "" {
        var p := Place(d.neighborhood);
        UpsertHub(MergePlace(d.neighborhood, d.city), FromRef(d, LOCATED_IN, p), aliases, SHIPS_FROM, p);
      }
      UpsertLinks(d);
    }
  }
}
