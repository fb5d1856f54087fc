/** No two nodes of the sidebar share a key, and every relation has its node. */
module SidebarKeys {

  import opened Options
  import opened Ordering
  import opened SidebarTree

  /** Where a node stands, before it is written as a key. */
  datatype Place =
    | AtSchema(schema: string)
    | AtGroup(schema: string, group: Group)
    | AtLeaf(schema: string, group: Group, name: string)
    | AtCatalog
    | AtEntry(kind: string)

  function KeyAt(p: Place): string {
    match p
    case AtSchema(s) => Prefix(Some(s))
    case AtGroup(s, g) => Below(Prefix(Some(s)), Suffix(g))
    case AtLeaf(s, g, name) => Below(Below(Prefix(Some(s)), Suffix(g)), KeyPart(name))
    case AtCatalog => "catalog"
    case AtEntry(kind) => Below("catalog", kind)
  }

  /** The text of every key; only separators and the percent sign in names are written otherwise. */
  lemma {:induction false} KeyText(s: string, n: string, kind: string)
    ensures KeyAt(AtSchema(s)) == "schema:" + Encoded(s)
    ensures KeyAt(AtGroup(s, Tables)) == "schema:" + Encoded(s) + "/tables"
    ensures KeyAt(AtGroup(s, Views)) == "schema:" + Encoded(s) + "/views"
    ensures KeyAt(AtLeaf(s, Tables, n)) == "schema:" + Encoded(s) + "/tables/" + Encoded(n)
    ensures KeyAt(AtLeaf(s, Views, n)) == "schema:" + Encoded(s) + "/views/" + Encoded(n)
    ensures KeyAt(AtCatalog) == "catalog" && KeyAt(AtEntry(kind)) == "catalog/" + kind
  {
    hide KeyPart; hide Encoded;
    KeyPartEncodes(s);
    KeyPartEncodes(n);
  }

  predicate PlaceOk(p: Place) { p.AtEntry? ==> '/' !in p.kind }

  lemma {:induction false} PrefixHasNoSlash(s: string)
    ensures '/' !in Prefix(Some(s))
    ensures Prefix(Some(s))[..7] == "schema:" && Prefix(Some(s))[7..] == KeyPart(s)
  {
    KeyPartInjective(s, s);
  }

  lemma {:induction false} NoParent(key: string)
    requires '/' !in key
    ensures ParentPath(key).None?
  {
    if key != "" { NoParent(key[..|key| - 1]); }
  }

  lemma {:induction false} BelowInjective(a: string, b: string, x: string, y: string)
    requires '/' !in x && '/' !in y && Below(a, x) == Below(b, y)
    ensures a == b && x == y
  {
    ParentOfBelow(a, x);
    ParentOfBelow(b, y);
    assert Below(a, x)[|a| + 1..] == x && Below(b, y)[|b| + 1..] == y;
  }

  lemma {:induction false} PrefixInjective(a: string, b: string)
    requires Prefix(Some(a)) == Prefix(Some(b))
    ensures a == b
  {
    PrefixHasNoSlash(a);
    PrefixHasNoSlash(b);
    KeyPartInjective(a, b);
  }

  /** How many parts stand above a place. */
  function Depth(p: Place): nat {
    match p
    case AtSchema(_) => 0
    case AtGroup(_, _) => 1
    case AtLeaf(_, _, _) => 2
    case AtCatalog => 0
    case AtEntry(_) => 1
  }

  function Steps(key: string): nat
    decreases |key|
  {
    match ParentPath(key)
    case None => 0
    case Some(path) => 1 + Steps(path)
  }

  lemma {:induction false} StepsAreDepth(p: Place)
    requires PlaceOk(p)
    ensures Steps(KeyAt(p)) == Depth(p)
    decreases Depth(p)
  {
    hide ParentPath; hide Below; hide Prefix;
    match p {
      case AtSchema(s) => PrefixHasNoSlash(s); NoParent(Prefix(Some(s)));
      case AtGroup(s, g) =>
        ParentOfBelow(Prefix(Some(s)), Suffix(g));
        StepsAreDepth(AtSchema(s));
      case AtLeaf(s, g, name) =>
        KeyPartInjective(name, name);
        ParentOfBelow(Below(Prefix(Some(s)), Suffix(g)), KeyPart(name));
        StepsAreDepth(AtGroup(s, g));
      case AtCatalog => NoParent("catalog");
      case AtEntry(kind) => ParentOfBelow("catalog", kind); NoParent("catalog");
    }
  }

  lemma {:induction false} CatalogIsNoSchema(s: string)
    ensures Prefix(Some(s)) != "catalog"
  {
    PrefixHasNoSlash(s);
    assert "catalog"[..7] == "catalog" != "schema:";
  }

  /** A key says where its node stands. */
  lemma {:induction false} KeyAtInjective(p: Place, q: Place)
    requires PlaceOk(p) && PlaceOk(q) && KeyAt(p) == KeyAt(q)
    ensures p == q
  {
    hide ParentPath; hide Below; hide Prefix; hide KeyPart;
    StepsAreDepth(p);
    StepsAreDepth(q);
    match p {
      case AtSchema(s) =>
        CatalogIsNoSchema(s);
        if q.AtSchema? { PrefixInjective(s, q.schema); }
      case AtCatalog =>
        if q.AtSchema? { CatalogIsNoSchema(q.schema); }
      case AtGroup(s, g) =>
        CatalogIsNoSchema(s);
        if q.AtGroup? {
          BelowInjective(Prefix(Some(s)), Prefix(Some(q.schema)), Suffix(g), Suffix(q.group));
          PrefixInjective(s, q.schema);
        } else {
          BelowInjective(Prefix(Some(s)), "catalog", Suffix(g), q.kind);
        }
      case AtEntry(kind) =>
        if q.AtGroup? {
          CatalogIsNoSchema(q.schema);
          BelowInjective("catalog", Prefix(Some(q.schema)), kind, Suffix(q.group));
        } else {
          BelowInjective("catalog", "catalog", kind, q.kind);
        }
      case AtLeaf(s, g, name) =>
        KeyPartInjective(name, q.name);
        KeyPartInjective(q.name, name);
        BelowInjective(Below(Prefix(Some(s)), Suffix(g)), Below(Prefix(Some(q.schema)), Suffix(q.group)),
                       KeyPart(name), KeyPart(q.name));
        BelowInjective(Prefix(Some(s)), Prefix(Some(q.schema)), Suffix(g), Suffix(q.group));
        PrefixInjective(s, q.schema);
    }
  }

  // ---------- the places of a tree ----------

  function GroupPlaces(s: string, g: Group, objects: seq<Relation>): seq<Place> {
    if objects == [] then []
    else [AtGroup(s, g)] + seq(|objects|, i requires 0 <= i < |objects| => AtLeaf(s, g, objects[i].name))
  }

  function SchemaPlaces(several: bool, s: string, tables: seq<Relation>, views: seq<Relation>): seq<Place> {
    (if several then [AtSchema(s)] else []) + GroupPlaces(s, Tables, tables) + GroupPlaces(s, Views, views)
  }

  function PlacesFor(schemas: seq<Option<string>>, several: bool, tables: seq<Relation>,
                     views: seq<Relation>): seq<Place> {
    if schemas == [] then []
    else
      var n := |schemas| - 1;
      PlacesFor(schemas[..n], several, tables, views)
      + SchemaPlaces(several, SchemaText(schemas[n]), OfSchema(tables, schemas[n]), OfSchema(views, schemas[n]))
  }

  function CatalogPlaces(kinds: seq<string>): seq<Place> {
    if kinds == [] then [] else [AtCatalog] + seq(|kinds|, i requires 0 <= i < |kinds| => AtEntry(kinds[i]))
  }

  predicate KeysAt(nodes: seq<Node>, places: seq<Place>) {
    |nodes| == |places| && forall i | 0 <= i < |nodes| :: nodes[i].key == KeyAt(places[i])
  }

  lemma {:induction false} KeysAtJoin(a: seq<Node>, p: seq<Place>, b: seq<Node>, q: seq<Place>)
    requires KeysAt(a, p) && KeysAt(b, q)
    ensures KeysAt(a + b, p + q)
  {
    hide KeyAt;
  }

  lemma {:induction false} GroupKeysAt(base: nat, depth: nat, s: string, g: Group, objects: seq<Relation>,
                                       parent: Option<nat>)
    ensures KeysAt(GroupNodes(base, depth, Prefix(Some(s)), g, objects, parent), GroupPlaces(s, g, objects))
  {
    hide Below; hide KeyPart; hide Prefix;
  }

  lemma {:induction false} SchemaKeysAt(base: nat, several: bool, schema: Option<string>, tables: seq<Relation>,
                                        views: seq<Relation>)
    ensures KeysAt(SchemaNodes(base, several, schema, tables, views),
                   SchemaPlaces(several, SchemaText(schema), tables, views))
  {
    hide GroupNodes; hide GroupPlaces; hide KeysAt; hide KeyPart;
    var s := SchemaText(schema);
    assert Prefix(schema) == Prefix(Some(s));
    var head := if several then [SchemaNode(schema, |tables| + |views|)] else [];
    var depth := if several then 1 else 0;
    var parent := if several then Some(base) else None;
    var top := if several then [AtSchema(s)] else [];
    HeadKeyAt(several, schema, |tables| + |views|);
    GroupKeysAt(base + |head|, depth, s, Tables, tables, parent);
    var first := GroupNodes(base + |head|, depth, Prefix(schema), Tables, tables, parent);
    KeysAtJoin(head, top, first, GroupPlaces(s, Tables, tables));
    GroupKeysAt(base + |head + first|, depth, s, Views, views, parent);
    KeysAtJoin(head + first, top + GroupPlaces(s, Tables, tables),
               GroupNodes(base + |head + first|, depth, Prefix(schema), Views, views, parent),
               GroupPlaces(s, Views, views));
  }

  lemma {:induction false} HeadKeyAt(several: bool, schema: Option<string>, count: nat)
    ensures KeysAt(if several then [SchemaNode(schema, count)] else [],
                   if several then [AtSchema(SchemaText(schema))] else [])
  {
    hide KeyPart;
  }

  lemma {:induction false} NodesKeysAt(schemas: seq<Option<string>>, several: bool, tables: seq<Relation>,
                                       views: seq<Relation>)
    ensures KeysAt(NodesFor(schemas, several, tables, views), PlacesFor(schemas, several, tables, views))
  {
    hide SchemaNodes; hide SchemaPlaces; hide KeyAt; hide OfSchema;
    if schemas != [] {
      var n := |schemas| - 1;
      NodesKeysAt(schemas[..n], several, tables, views);
      SchemaKeysAt(|NodesFor(schemas[..n], several, tables, views)|, several, schemas[n],
                   OfSchema(tables, schemas[n]), OfSchema(views, schemas[n]));
    }
  }

  // ---------- distinct places ----------

  ghost predicate Distinct<T>(s: seq<T>) { forall i, j | 0 <= i < j < |s| :: s[i] != s[j] }

  ghost predicate Apart<T>(a: seq<T>, b: seq<T>) { forall x | x in a :: x !in b }

  lemma {:induction false} DistinctJoin<T>(a: seq<T>, b: seq<T>)
    ensures Distinct(a + b) <==> Distinct(a) && Distinct(b) && Apart(a, b)
  {
    if Distinct(a + b) {
      forall i, j | 0 <= i < j < |a| ensures a[i] != a[j] { assert (a + b)[i] != (a + b)[j]; }
      forall i, j | 0 <= i < j < |b| ensures b[i] != b[j] { assert (a + b)[|a| + i] != (a + b)[|a| + j]; }
      forall x | x in a ensures x !in b {
        var i :| 0 <= i < |a| && a[i] == x;
        forall j | 0 <= j < |b| ensures b[j] != x { assert (a + b)[i] != (a + b)[|a| + j]; }
      }
    }
    if Distinct(a) && Distinct(b) && Apart(a, b) {
      forall i, j | 0 <= i < |a| && 0 <= j < |b| ensures a[i] != b[j] { assert a[i] in a && b[j] in b; }
    }
  }

  ghost predicate NamesDistinct(xs: seq<Relation>) { forall i, j | 0 <= i < j < |xs| :: xs[i].name != xs[j].name }

  lemma {:induction false} OfSchemaAll(xs: seq<Relation>, schema: Option<string>)
    ensures forall x :: x in OfSchema(xs, schema) <==> x in xs && x.schema == schema
  {
    if xs != [] {
      OfSchemaAll(xs[..|xs| - 1], schema);
      assert xs == xs[..|xs| - 1] + [xs[|xs| - 1]];
    }
  }

  ghost predicate PartsDiffer(xs: seq<Relation>) { forall schema :: NamesDistinct(OfSchema(xs, schema)) }

  /** A list repeats nothing exactly when no schema's part of it repeats a name. */
  lemma {:induction false} DistinctBySchema(xs: seq<Relation>)
    ensures Distinct(xs) <==> PartsDiffer(xs)
  {
    hide Distinct;
    if Distinct(xs) {
      forall schema: Option<string> ensures NamesDistinct(OfSchema(xs, schema)) { PartDistinct(xs, schema); }
      assert PartsDiffer(xs);
    }
    if PartsDiffer(xs) { PartsDistinct(xs); }
  }

  lemma {:induction false} PartDistinct(xs: seq<Relation>, schema: Option<string>)
    requires Distinct(xs)
    ensures NamesDistinct(OfSchema(xs, schema))
  {
    if xs != [] {
      var n := |xs| - 1;
      assert xs == xs[..n] + [xs[n]];
      DistinctJoin(xs[..n], [xs[n]]);
      PartDistinct(xs[..n], schema);
      OfSchemaLast(xs[..n], xs[n], schema);
    }
  }

  lemma {:induction false} PartsDistinct(xs: seq<Relation>)
    requires PartsDiffer(xs)
    ensures Distinct(xs)
  {
    if xs != [] {
      var n := |xs| - 1;
      assert xs == xs[..n] + [xs[n]];
      forall schema ensures NamesDistinct(OfSchema(xs[..n], schema)) {
        assert NamesDistinct(OfSchema(xs, schema));
        OfSchemaLast(xs[..n], xs[n], schema);
      }
      PartsDistinct(xs[..n]);
      assert NamesDistinct(OfSchema(xs, xs[n].schema));
      OfSchemaLast(xs[..n], xs[n], xs[n].schema);
      DistinctJoin(xs[..n], [xs[n]]);
    }
  }

  lemma {:induction false} OfSchemaLast(init: seq<Relation>, last: Relation, schema: Option<string>)
    ensures var all := if last.schema == schema then OfSchema(init, schema) + [last] else OfSchema(init, schema);
            NamesDistinct(all) <==> NamesDistinct(OfSchema(init, schema)) && !(last.schema == schema && last in init)
  {
    hide OfSchema;
    OfSchemaAll(init, schema);
    var before := OfSchema(init, schema);
    if last.schema == schema {
      var all := before + [last];
      if NamesDistinct(all) {
        forall i, j | 0 <= i < j < |before| ensures before[i].name != before[j].name {
          assert all[i].name != all[j].name;
        }
        forall i | 0 <= i < |before| ensures before[i] != last { assert all[i].name != all[|before|].name; }
      }
      if NamesDistinct(before) && last !in init {
        forall i | 0 <= i < |before| ensures before[i].name != last.name { assert before[i] in before; }
      }
    }
  }

  lemma {:induction false} GroupPlacesDistinct(s: string, g: Group, objects: seq<Relation>)
    ensures Distinct(GroupPlaces(s, g, objects)) <==> NamesDistinct(objects)
  {
    if objects != [] {
      var leaves := seq(|objects|, i requires 0 <= i < |objects| => AtLeaf(s, g, objects[i].name));
      DistinctJoin([AtGroup(s, g)], leaves);
      assert Distinct(leaves) <==> NamesDistinct(objects) by {
        forall i | 0 <= i < |objects| ensures leaves[i] == AtLeaf(s, g, objects[i].name) {}
        if NamesDistinct(objects) { assert Distinct(leaves); }
        if Distinct(leaves) {
          forall i, j | 0 <= i < j < |objects| ensures objects[i].name != objects[j].name {
            assert leaves[i] != leaves[j];
          }
        }
      }
    }
  }

  lemma {:induction false} GroupPlacesKind(s: string, g: Group, objects: seq<Relation>)
    ensures forall p | p in GroupPlaces(s, g, objects) :: (p.AtGroup? || p.AtLeaf?) && p.schema == s && p.group == g
    ensures objects != [] ==> AtGroup(s, g) in GroupPlaces(s, g, objects)
  {}

  function Block(several: bool, schema: Option<string>, tables: seq<Relation>, views: seq<Relation>): seq<Place> {
    SchemaPlaces(several, SchemaText(schema), OfSchema(tables, schema), OfSchema(views, schema))
  }

  lemma {:induction false} BlockDistinct(several: bool, schema: Option<string>, tables: seq<Relation>,
                                         views: seq<Relation>)
    ensures Distinct(Block(several, schema, tables, views))
       <==> NamesDistinct(OfSchema(tables, schema)) && NamesDistinct(OfSchema(views, schema))
  {
    hide OfSchema; hide GroupPlaces; hide NamesDistinct;
    var s, ts, vs := SchemaText(schema), OfSchema(tables, schema), OfSchema(views, schema);
    GroupPlacesDistinct(s, Tables, ts);
    GroupPlacesDistinct(s, Views, vs);
    GroupPlacesKind(s, Tables, ts);
    GroupPlacesKind(s, Views, vs);
    var head := if several then [AtSchema(s)] else [];
    DistinctJoin(head, GroupPlaces(s, Tables, ts));
    DistinctJoin(head + GroupPlaces(s, Tables, ts), GroupPlaces(s, Views, vs));
  }

  /** Two schemas written alike, with a node in common. */
  predicate Collide(several: bool, a: Option<string>, b: Option<string>, tables: seq<Relation>, views: seq<Relation>) {
    && SchemaText(a) == SchemaText(b)
    && (|| several
        || (OfSchema(tables, a) != [] && OfSchema(tables, b) != [])
        || (OfSchema(views, a) != [] && OfSchema(views, b) != []))
  }

  lemma {:induction false} BlocksApart(several: bool, a: Option<string>, b: Option<string>, tables: seq<Relation>,
                                       views: seq<Relation>)
    ensures Apart(Block(several, a, tables, views), Block(several, b, tables, views)) <==>
              !Collide(several, a, b, tables, views)
  {
    hide OfSchema; hide GroupPlaces;
    BlockMembers(several, a, tables, views);
    BlockMembers(several, b, tables, views);
    var x, y, s := Block(several, a, tables, views), Block(several, b, tables, views), SchemaText(a);
    if Collide(several, a, b, tables, views) {
      if several { assert AtSchema(s) in x && AtSchema(s) in y; }
      else if OfSchema(tables, a) != [] && OfSchema(tables, b) != [] {
        assert AtGroup(s, Tables) in x && AtGroup(s, Tables) in y;
      }
      else { assert AtGroup(s, Views) in x && AtGroup(s, Views) in y; }
    }
  }

  lemma {:induction false} BlockMembers(several: bool, schema: Option<string>, tables: seq<Relation>,
                                        views: seq<Relation>)
    ensures var block := Block(several, schema, tables, views);
            var s := SchemaText(schema);
            && (forall p | p in block ::
                  && (p.AtSchema? || p.AtGroup? || p.AtLeaf?) && p.schema == s
                  && (p.AtSchema? ==> several)
                  && (!p.AtSchema? ==>
                        (p.group.Tables? && OfSchema(tables, schema) != [])
                        || (p.group.Views? && OfSchema(views, schema) != [])))
            && (several ==> AtSchema(s) in block)
            && (OfSchema(tables, schema) != [] ==> AtGroup(s, Tables) in block)
            && (OfSchema(views, schema) != [] ==> AtGroup(s, Views) in block)
  {
    hide OfSchema;
    var s, ts, vs := SchemaText(schema), OfSchema(tables, schema), OfSchema(views, schema);
    GroupPlacesKind(s, Tables, ts);
    GroupPlacesKind(s, Views, vs);
  }

  ghost predicate InSomeBlock(p: Place, schemas: seq<Option<string>>, several: bool, tables: seq<Relation>,
                              views: seq<Relation>) {
    exists k | 0 <= k < |schemas| :: p in Block(several, schemas[k], tables, views)
  }

  lemma {:induction false} PlacesAreBlocks(schemas: seq<Option<string>>, several: bool, tables: seq<Relation>,
                                           views: seq<Relation>, p: Place)
    ensures p in PlacesFor(schemas, several, tables, views) <==> InSomeBlock(p, schemas, several, tables, views)
  {
    hide SchemaPlaces; hide OfSchema;
    if schemas != [] {
      var n := |schemas| - 1;
      PlacesAreBlocks(schemas[..n], several, tables, views, p);
      if InSomeBlock(p, schemas[..n], several, tables, views) {
        var k :| 0 <= k < n && p in Block(several, schemas[..n][k], tables, views);
        assert p in Block(several, schemas[k], tables, views);
      }
      if InSomeBlock(p, schemas, several, tables, views) {
        var k :| 0 <= k <= n && p in Block(several, schemas[k], tables, views);
        if k < n { assert p in Block(several, schemas[..n][k], tables, views); }
      }
    }
  }

  ghost predicate NoCollisions(schemas: seq<Option<string>>, several: bool, tables: seq<Relation>,
                               views: seq<Relation>) {
    forall i, j | 0 <= i < j < |schemas| :: !Collide(several, schemas[i], schemas[j], tables, views)
  }

  ghost predicate BlocksDistinct(schemas: seq<Option<string>>, several: bool, tables: seq<Relation>,
                                 views: seq<Relation>) {
    forall k | 0 <= k < |schemas| :: Distinct(Block(several, schemas[k], tables, views))
  }

  lemma {:induction false} PlacesDistinct(schemas: seq<Option<string>>, several: bool, tables: seq<Relation>,
                                          views: seq<Relation>)
    ensures Distinct(PlacesFor(schemas, several, tables, views))
       <==> BlocksDistinct(schemas, several, tables, views) && NoCollisions(schemas, several, tables, views)
  {
    hide SchemaPlaces; hide OfSchema; hide Collide; hide Distinct;
    if schemas == [] {
      NothingDistinct();
    } else {
      var n := |schemas| - 1;
      var init := schemas[..n];
      PlacesDistinct(init, several, tables, views);
      var before, block := PlacesFor(init, several, tables, views), Block(several, schemas[n], tables, views);
      DistinctJoin(before, block);
      LastApart(init, schemas[n], several, tables, views);
      OneMoreBlock(schemas, several, tables, views);
      hide BlocksDistinct; hide NoCollisions; hide Apart; hide Block;
    }
  }

  lemma {:induction false} OneMoreBlock(schemas: seq<Option<string>>, several: bool, tables: seq<Relation>,
                                        views: seq<Relation>)
    requires schemas != []
    ensures var n := |schemas| - 1;
            var init := schemas[..n];
            && (BlocksDistinct(schemas, several, tables, views) <==>
                  && BlocksDistinct(init, several, tables, views)
                  && Distinct(Block(several, schemas[n], tables, views)))
            && (NoCollisions(schemas, several, tables, views) <==>
                  && NoCollisions(init, several, tables, views)
                  && forall k | 0 <= k < n :: !Collide(several, init[k], schemas[n], tables, views))
  {
    hide Block; hide Collide; hide Distinct;
    var init := schemas[..|schemas| - 1];
    assert forall k | 0 <= k < |init| :: init[k] == schemas[k];
  }

  lemma {:induction false} NothingDistinct()
    ensures Distinct<Place>([])
  {}

  lemma {:induction false} LastApart(init: seq<Option<string>>, last: Option<string>, several: bool,
                                     tables: seq<Relation>, views: seq<Relation>)
    ensures Apart(PlacesFor(init, several, tables, views), Block(several, last, tables, views))
       <==> forall k | 0 <= k < |init| :: !Collide(several, init[k], last, tables, views)
  {
    hide Block; hide Collide; hide PlacesFor;
    var before, block := PlacesFor(init, several, tables, views), Block(several, last, tables, views);
    forall k | 0 <= k < |init|
      ensures Apart(Block(several, init[k], tables, views), block) <==> !Collide(several, init[k], last, tables, views)
    {
      BlocksApart(several, init[k], last, tables, views);
    }
    forall p ensures p in before <==> InSomeBlock(p, init, several, tables, views) {
      PlacesAreBlocks(init, several, tables, views, p);
    }
    if Apart(before, block) {
      forall k | 0 <= k < |init| ensures Apart(Block(several, init[k], tables, views), block) {
        forall p | p in Block(several, init[k], tables, views) ensures p !in block {
          assert InSomeBlock(p, init, several, tables, views);
        }
      }
    }
  }

  // ---------- distinct keys ----------

  ghost predicate KeysDiffer(nodes: seq<Node>) { forall i, j | 0 <= i < j < |nodes| :: nodes[i].key != nodes[j].key }

  lemma {:induction false} DistinctKeys(nodes: seq<Node>, places: seq<Place>)
    requires KeysAt(nodes, places) && forall i | 0 <= i < |places| :: PlaceOk(places[i])
    ensures KeysDiffer(nodes) <==> Distinct(places)
  {
    hide KeyAt;
    if Distinct(places) {
      forall i, j | 0 <= i < j < |nodes| ensures nodes[i].key != nodes[j].key {
        if KeyAt(places[i]) == KeyAt(places[j]) { KeyAtInjective(places[i], places[j]); }
      }
    }
    if KeysDiffer(nodes) {
      forall i, j | 0 <= i < j < |places| ensures places[i] != places[j] { assert nodes[i].key != nodes[j].key; }
    }
  }

  lemma {:induction false} CatalogKeysAt(base: nat, kinds: seq<string>)
    ensures KeysAt(CatalogNodes(base, kinds), CatalogPlaces(kinds))
  {
    hide Below;
  }

  lemma {:induction false} CatalogDistinct(kinds: seq<string>)
    ensures Distinct(CatalogPlaces(kinds)) <==> Distinct(kinds)
  {
    if kinds != [] {
      var entries := seq(|kinds|, i requires 0 <= i < |kinds| => AtEntry(kinds[i]));
      DistinctJoin([AtCatalog], entries);
      if Distinct(entries) {
        forall i, j | 0 <= i < j < |kinds| ensures kinds[i] != kinds[j] { assert entries[i] != entries[j]; }
      }
      if Distinct(kinds) {
        forall i, j | 0 <= i < j < |entries| ensures entries[i] != entries[j] { assert kinds[i] != kinds[j]; }
      }
    }
  }

  /** Every relation is listed once in its own list. */
  lemma {:induction false} BlocksOfSchemas(tables: seq<Relation>, views: seq<Relation>, several: bool,
                                           schemas: seq<Option<string>>)
    requires forall s :: s in schemas <==> s in SchemasOf(tables) + SchemasOf(views)
    ensures BlocksDistinct(schemas, several, tables, views) <==> Distinct(tables) && Distinct(views)
  {
    hide OfSchema; hide Block; hide SchemasOf; hide Distinct;
    DistinctBySchema(tables);
    DistinctBySchema(views);
    forall schema ensures Distinct(Block(several, schema, tables, views))
                     <==> NamesDistinct(OfSchema(tables, schema)) && NamesDistinct(OfSchema(views, schema)) {
      BlockDistinct(several, schema, tables, views);
    }
    if BlocksDistinct(schemas, several, tables, views) {
      forall schema ensures NamesDistinct(OfSchema(tables, schema)) && NamesDistinct(OfSchema(views, schema)) {
        if schema in schemas {
          var k :| 0 <= k < |schemas| && schemas[k] == schema;
        } else {
          OfSchemaNone(tables, schema);
          OfSchemaNone(views, schema);
        }
      }
    }
    if Distinct(tables) && Distinct(views) {
      forall k | 0 <= k < |schemas| ensures Distinct(Block(several, schemas[k], tables, views)) {
        assert NamesDistinct(OfSchema(tables, schemas[k])) && NamesDistinct(OfSchema(views, schemas[k]));
      }
    }
  }

  /** Relations without a schema beside a schema with an empty name, sharing a node. */
  ghost predicate EmptyNameCollides(tables: seq<Relation>, views: seq<Relation>) {
    && None in Schemas(tables, views) && Some("") in Schemas(tables, views)
    && Collide(CountNamed(Schemas(tables, views)) > 1, None, Some(""), NotViews(tables, views), views)
  }

  lemma {:induction false} OnlyEmptyNameCollides(schemas: seq<Option<string>>, several: bool, tables: seq<Relation>,
                                                 views: seq<Relation>)
    requires StrictlySorted(SchemaLess, schemas)
    ensures NoCollisions(schemas, several, tables, views)
       <==> !(None in schemas && Some("") in schemas && Collide(several, None, Some(""), tables, views))
  {
    SchemaStrictTotal();
    hide OfSchema; hide TextLess;
    forall i, j | 0 <= i < j < |schemas| && SchemaText(schemas[i]) == SchemaText(schemas[j])
      ensures schemas[i] == None && schemas[j] == Some("")
    {
      assert SchemaLess(schemas[i], schemas[j]);
      TextStrictTotal();
    }
    if None in schemas && Some("") in schemas {
      var i :| 0 <= i < |schemas| && schemas[i] == None;
      var j :| 0 <= j < |schemas| && schemas[j] == Some("");
      assert !SchemaLess(schemas[j], schemas[i]);
      assert i < j;
    }
    if None in schemas && Some("") in schemas && Collide(several, None, Some(""), tables, views) {
      var i :| 0 <= i < |schemas| && schemas[i] == None;
      var j :| 0 <= j < |schemas| && schemas[j] == Some("");
      assert Collide(several, schemas[i], schemas[j], tables, views);
    } else {
      forall i, j | 0 <= i < j < |schemas| ensures !Collide(several, schemas[i], schemas[j], tables, views) {
        if SchemaText(schemas[i]) == SchemaText(schemas[j]) { assert schemas[i] in schemas && schemas[j] in schemas; }
      }
    }
  }

  /**
   * Keys are pairwise distinct exactly when nothing is listed twice and no schema with an empty name
   * shares a node with the relations that have no schema.
   */
  lemma {:induction false} KeysDistinct(tables: seq<Relation>, views: seq<Relation>, kinds: seq<string>)
    requires forall i | 0 <= i < |kinds| :: '/' !in kinds[i]
    ensures KeysDiffer(Nodes(tables, views) + CatalogNodes(|Nodes(tables, views)|, kinds))
       <==> Distinct(NotViews(tables, views)) && Distinct(views) && Distinct(kinds) && !EmptyNameCollides(tables, views)
  {
    hide KeyAt; hide NodesFor; hide PlacesFor; hide SchemaLess; hide CountNamed; hide NotViews; hide SchemasOf;
    hide CatalogNodes; hide Distinct; hide Collide; hide KeysDiffer; hide NoCollisions; hide BlocksDistinct;
    var schemas, kept := Schemas(tables, views), NotViews(tables, views);
    var several := CountNamed(schemas) > 1;
    var nodes, places := Nodes(tables, views), PlacesFor(schemas, several, kept, views);
    assert StrictlySorted(SchemaLess, schemas) && Lists(schemas, SchemasOf(kept) + SchemasOf(views));
    PlacesDistinct(schemas, several, kept, views);
    BlocksOfSchemas(kept, views, several, schemas);
    OnlyEmptyNameCollides(schemas, several, kept, views);
    NodesKeysAt(schemas, several, kept, views);
    forall p | p in places ensures p.AtSchema? || p.AtGroup? || p.AtLeaf? {
      PlacesAreBlocks(schemas, several, kept, views, p);
      BlockKinds(p, schemas, several, kept, views);
    }
    WithCatalog(nodes, places, kinds);
  }

  lemma {:induction false} BlockKinds(p: Place, schemas: seq<Option<string>>, several: bool, tables: seq<Relation>,
                                      views: seq<Relation>)
    requires InSomeBlock(p, schemas, several, tables, views)
    ensures p.AtSchema? || p.AtGroup? || p.AtLeaf?
  {
    hide Block;
    var k :| 0 <= k < |schemas| && p in Block(several, schemas[k], tables, views);
    BlockMembers(several, schemas[k], tables, views);
  }

  lemma {:induction false} WithCatalog(nodes: seq<Node>, places: seq<Place>, kinds: seq<string>)
    requires KeysAt(nodes, places) && forall p | p in places :: p.AtSchema? || p.AtGroup? || p.AtLeaf?
    requires forall i | 0 <= i < |kinds| :: '/' !in kinds[i]
    ensures KeysDiffer(nodes + CatalogNodes(|nodes|, kinds)) <==> Distinct(places) && Distinct(kinds)
  {
    hide KeyAt; hide CatalogNodes; hide Distinct; hide KeysDiffer;
    CatalogKeysAt(|nodes|, kinds);
    CatalogDistinct(kinds);
    var entries := CatalogPlaces(kinds);
    forall p | p in places ensures p !in entries {}
    DistinctJoin(places, entries);
    KeysAtJoin(nodes, places, CatalogNodes(|nodes|, kinds), entries);
    forall i | 0 <= i < |places + entries| ensures PlaceOk((places + entries)[i]) {
      if i < |places| { assert places[i] in places; }
    }
    DistinctKeys(nodes + CatalogNodes(|nodes|, kinds), places + entries);
  }

  /** Such a catalogue: a table without a schema beside one in a schema with an empty name. */
  lemma {:induction false} EmptyNameExample(a: string, b: string)
    ensures !KeysDiffer(Nodes([Relation(None, a), Relation(Some(""), b)], []))
  {
    hide KeysDiffer; hide Nodes; hide SchemaLess; hide CountNamed;
    var none, empty := Relation(None, a), Relation(Some(""), b);
    var tables := [none, empty];
    var kept, schemas := NotViews(tables, []), Schemas(tables, []);
    assert tables[..1] == [none] && [none][..0] == [];
    assert NotViews([none], []) == [none];
    assert kept == [none] + [empty] == tables;
    OfSchemaAll(tables, None);
    OfSchemaAll(tables, Some(""));
    assert none in OfSchema(tables, None) && empty in OfSchema(tables, Some(""));
    assert none.schema in SchemasOf(tables) && empty.schema in SchemasOf(tables);
    assert None in schemas && Some("") in schemas;
    KeysDistinct(tables, [], []);
    assert Nodes(tables, []) + CatalogNodes(|Nodes(tables, [])|, []) == Nodes(tables, []);
  }
}
