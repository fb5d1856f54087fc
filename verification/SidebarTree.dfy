/** The sidebar's flat list of tree nodes: schemas, their groups of tables and views, and the keys that name them. */
module SidebarTree {

  import opened Options
  import opened Ordering
  import opened Texts

  datatype Relation = Relation(schema: Option<string>, name: string)
  datatype Group = Tables | Views | Catalog
  datatype Kind =
    | SchemaKind
    | GroupKind(group: Group)
    | TableKind(schema: Option<string>, name: string)
    | ViewKind(schema: Option<string>, name: string)
    | CatalogKind(name: string)

  datatype Node = Node(depth: nat, key: string, kind: Kind, schema: Option<string>, count: nat, parent: Option<nat>)

  // ---------- keys ----------

  function KeyPart(raw: string): string {
    Replace(Replace(Replace(raw, '%', "%25"), '/', "%2F"), ':', "%3A")
  }

  function EncodedChar(c: char): string {
    if c == '%' then "%25" else if c == '/' then "%2F" else if c == ':' then "%3A" else [c]
  }

  function Encoded(s: string): string { if s == "" then "" else EncodedChar(s[0]) + Encoded(s[1..]) }

  lemma {:induction false} KeyPartJoin(a: string, b: string)
    ensures KeyPart(a + b) == KeyPart(a) + KeyPart(b)
  {
    hide Replace;
    ReplaceJoin(a, b, '%', "%25");
    var a1, b1 := Replace(a, '%', "%25"), Replace(b, '%', "%25");
    ReplaceJoin(a1, b1, '/', "%2F");
    ReplaceJoin(Replace(a1, '/', "%2F"), Replace(b1, '/', "%2F"), ':', "%3A");
  }

  lemma {:induction false} KeyPartChar(c: char)
    ensures KeyPart([c]) == EncodedChar(c)
  {
    hide Replace;
    ReplaceShort([c], '%', "%25");
    if c == '%' {
      ReplaceAbsent("%25", '/', "%2F");
      ReplaceAbsent("%25", ':', "%3A");
    } else {
      ReplaceShort([c], '/', "%2F");
      if c == '/' { ReplaceAbsent("%2F", ':', "%3A"); } else { ReplaceShort([c], ':', "%3A"); }
    }
  }

  lemma {:induction false} KeyPartEncodes(s: string)
    ensures KeyPart(s) == Encoded(s)
  {
    if s != "" {
      assert s == [s[0]] + s[1..];
      KeyPartJoin([s[0]], s[1..]);
      KeyPartChar(s[0]);
      KeyPartEncodes(s[1..]);
    }
  }

  lemma {:induction false} EncodedSafe(s: string)
    ensures '/' !in Encoded(s) && ':' !in Encoded(s)
  {
    if s != "" { EncodedSafe(s[1..]); }
  }

  lemma {:induction false} EncodedInjective(a: string, b: string)
    requires Encoded(a) == Encoded(b)
    ensures a == b
  {
    if a == "" || b == "" {
      assert a == "" || Encoded(a) != "";
      assert b == "" || Encoded(b) != "";
    } else {
      EncodedStart(a);
      EncodedStart(b);
      assert a[0] == b[0];
      assert Encoded(a)[|EncodedChar(a[0])|..] == Encoded(a[1..]);
      assert Encoded(b)[|EncodedChar(b[0])|..] == Encoded(b[1..]);
      EncodedInjective(a[1..], b[1..]);
      assert a == [a[0]] + a[1..] && b == [b[0]] + b[1..];
    }
  }

  lemma {:induction false} EncodedStart(s: string)
    requires s != ""
    ensures Encoded(s) != ""
    ensures s[0] in ['%', '/', ':'] <==> Encoded(s)[0] == '%'
    ensures s[0] !in ['%', '/', ':'] ==> Encoded(s)[0] == s[0]
    ensures s[0] in ['%', '/', ':'] ==>
              |Encoded(s)| >= 3 && Encoded(s)[2] == (if s[0] == '%' then '5' else if s[0] == '/' then 'F' else 'A')
  {}

  /** Different names give different key parts, and a key part never holds a separator. */
  lemma {:induction false} KeyPartInjective(a: string, b: string)
    ensures KeyPart(a) == KeyPart(b) <==> a == b
    ensures '/' !in KeyPart(a) && ':' !in KeyPart(a)
  {
    KeyPartEncodes(a);
    KeyPartEncodes(b);
    EncodedSafe(a);
    if Encoded(a) == Encoded(b) { EncodedInjective(a, b); }
  }

  function Suffix(group: Group): string {
    match group
    case Tables => "tables"
    case Views => "views"
    case Catalog => "catalog"
  }

  function SchemaText(schema: Option<string>): string { if schema.Some? then schema.value else "" }

  function Prefix(schema: Option<string>): string { "schema:" + KeyPart(SchemaText(schema)) }

  function Below(path: string, part: string): string { path + "/" + part }

  // ---------- nodes ----------

  function Leaf(depth: nat, prefix: string, group: Group, r: Relation, parent: nat): Node {
    Node(depth, Below(Below(prefix, Suffix(group)), KeyPart(r.name)),
         if group.Views? then ViewKind(r.schema, r.name) else TableKind(r.schema, r.name), r.schema, 0, Some(parent))
  }

  function GroupNode(depth: nat, prefix: string, group: Group, objects: seq<Relation>, parent: Option<nat>): Node
    requires objects != []
  {
    Node(depth, Below(prefix, Suffix(group)), GroupKind(group), objects[0].schema, |objects|, parent)
  }

  /** A group and its leaves, as they stand from the given index on. */
  function GroupNodes(base: nat, depth: nat, prefix: string, group: Group, objects: seq<Relation>,
                      parent: Option<nat>): seq<Node> {
    if objects == [] then []
    else
      [GroupNode(depth, prefix, group, objects, parent)]
      + seq(|objects|, i requires 0 <= i < |objects| => Leaf(depth + 1, prefix, group, objects[i], base))
  }

  function SchemaNode(schema: Option<string>, count: nat): Node {
    Node(0, Prefix(schema), SchemaKind, schema, count, None)
  }

  function SchemaNodes(base: nat, several: bool, schema: Option<string>, tables: seq<Relation>,
                       views: seq<Relation>): seq<Node> {
    var head := if several then [SchemaNode(schema, |tables| + |views|)] else [];
    var depth := if several then 1 else 0;
    var parent := if several then Some(base) else None;
    var first := head + GroupNodes(base + |head|, depth, Prefix(schema), Tables, tables, parent);
    first + GroupNodes(base + |first|, depth, Prefix(schema), Views, views, parent)
  }

  // ---------- grouping by schema ----------

  function OfSchema(xs: seq<Relation>, schema: Option<string>): seq<Relation> {
    if xs == [] then []
    else
      var before := OfSchema(xs[..|xs| - 1], schema);
      if xs[|xs| - 1].schema == schema then before + [xs[|xs| - 1]] else before
  }

  /** Tables that are not listed as views too. */
  function NotViews(tables: seq<Relation>, views: seq<Relation>): seq<Relation> {
    if tables == [] then []
    else
      var before := NotViews(tables[..|tables| - 1], views);
      if tables[|tables| - 1] in views then before else before + [tables[|tables| - 1]]
  }

  function SchemasOf(xs: seq<Relation>): set<Option<string>> { set x | x in xs :: x.schema }

  function CountNamed(schemas: seq<Option<string>>): nat {
    if schemas == [] then 0 else CountNamed(schemas[..|schemas| - 1]) + (if schemas[|schemas| - 1].Some? then 1 else 0)
  }

  predicate SchemaLess(a: Option<string>, b: Option<string>) {
    b.Some? && (a.None? || TextLess(a.value, b.value))
  }

  lemma {:induction false} SchemaStrictTotal()
    ensures StrictTotal(SchemaLess)
  {
    TextStrictTotal();
    hide TextLess;
  }

  /** Schemas in their order in the tree: the nameless one first, then by name. */
  ghost function Schemas(tables: seq<Relation>, views: seq<Relation>): seq<Option<string>> {
    SchemaStrictTotal();
    SortedListing(SchemaLess, SchemasOf(NotViews(tables, views)) + SchemasOf(views))
  }

  function NodesFor(schemas: seq<Option<string>>, several: bool, tables: seq<Relation>,
                    views: seq<Relation>): seq<Node> {
    if schemas == [] then []
    else
      var before := NodesFor(schemas[..|schemas| - 1], several, tables, views);
      var schema := schemas[|schemas| - 1];
      before + SchemaNodes(|before|, several, schema, OfSchema(tables, schema), OfSchema(views, schema))
  }

  ghost function Nodes(tables: seq<Relation>, views: seq<Relation>): seq<Node> {
    var schemas := Schemas(tables, views);
    NodesFor(schemas, CountNamed(schemas) > 1, NotViews(tables, views), views)
  }

  // ---------- the loops ----------

  method PushGroup(nodes: seq<Node>, depth: nat, prefix: string, group: Group, objects: seq<Relation>,
                   parent: Option<nat>) returns (more: seq<Node>)
    ensures more == nodes + GroupNodes(|nodes|, depth, prefix, group, objects, parent)
  {
    hide KeyPart; hide Below;
    more := nodes;
    if objects == [] { return; }
    var index := |nodes|;
    ghost var all := GroupNodes(index, depth, prefix, group, objects, parent);
    more := more + [GroupNode(depth, prefix, group, objects, parent)];
    TakeOneMore(nodes, all, 0);
    assert nodes + all[..0] == nodes;
    for i := 0 to |objects|
      invariant more == nodes + all[..i + 1]
    {
      assert all[i + 1] == Leaf(depth + 1, prefix, group, objects[i], index);
      TakeOneMore(nodes, all, i + 1);
      more := more + [Leaf(depth + 1, prefix, group, objects[i], index)];
    }
    assert all[..|objects| + 1] == all;
  }

  lemma {:induction false} TakeOneMore<T>(before: seq<T>, all: seq<T>, i: nat)
    requires i < |all|
    ensures before + all[..i + 1] == before + all[..i] + [all[i]]
  {}

  type Groups = map<Option<string>, (seq<Relation>, seq<Relation>)>

  predicate GroupsAre(groups: Groups, tables: seq<Relation>, views: seq<Relation>) {
    && groups.Keys == SchemasOf(tables) + SchemasOf(views)
    && forall s | s in groups :: groups[s] == (OfSchema(tables, s), OfSchema(views, s))
  }

  function EntryOf(groups: Groups, schema: Option<string>): (seq<Relation>, seq<Relation>) {
    if schema in groups then groups[schema] else ([], [])
  }

  lemma {:induction false} EntryIs(groups: Groups, tables: seq<Relation>, views: seq<Relation>, schema: Option<string>)
    requires GroupsAre(groups, tables, views)
    ensures EntryOf(groups, schema) == (OfSchema(tables, schema), OfSchema(views, schema))
  {
    hide OfSchema; hide SchemasOf;
    if schema !in groups { OfSchemaNone(tables, schema); OfSchemaNone(views, schema); }
  }

  lemma {:induction false} AddTable(groups: Groups, tables: seq<Relation>, views: seq<Relation>, t: Relation)
    requires GroupsAre(groups, tables, views)
    ensures var entry := EntryOf(groups, t.schema);
            GroupsAre(groups[t.schema := (entry.0 + [t], entry.1)], tables + [t], views)
  {
    hide OfSchema; hide SchemasOf; hide EntryOf;
    EntryIs(groups, tables, views, t.schema);
    OfSchemaPush(tables, t);
  }

  lemma {:induction false} AddView(groups: Groups, tables: seq<Relation>, views: seq<Relation>, v: Relation)
    requires GroupsAre(groups, tables, views)
    ensures var entry := EntryOf(groups, v.schema);
            GroupsAre(groups[v.schema := (entry.0, entry.1 + [v])], tables, views + [v])
  {
    hide OfSchema; hide SchemasOf; hide EntryOf;
    EntryIs(groups, tables, views, v.schema);
    OfSchemaPush(views, v);
  }

  lemma {:induction false} NoGroups()
    ensures GroupsAre(map[], [], [])
  {}

  /** The map from schema to its tables and views, filled in one pass over each list. */
  method BySchema(tables: seq<Relation>, views: seq<Relation>) returns (groups: Groups)
    ensures GroupsAre(groups, NotViews(tables, views), views)
  {
    hide GroupsAre;
    groups := map[];
    NoGroups();
    for i := 0 to |tables|
      invariant GroupsAre(groups, NotViews(tables[..i], views), [])
    {
      assert tables[..i + 1][..i] == tables[..i];
      var t := tables[i];
      if t !in views {
        AddTable(groups, NotViews(tables[..i], views), [], t);
        var entry := EntryOf(groups, t.schema);
        groups := groups[t.schema := (entry.0 + [t], entry.1)];
      }
    }
    assert tables[..|tables|] == tables;
    for i := 0 to |views|
      invariant GroupsAre(groups, NotViews(tables, views), views[..i])
    {
      assert views[..i + 1] == views[..i] + [views[i]];
      AddView(groups, NotViews(tables, views), views[..i], views[i]);
      var entry := EntryOf(groups, views[i].schema);
      groups := groups[views[i].schema := (entry.0, entry.1 + [views[i]])];
    }
    assert views[..|views|] == views;
  }

  lemma {:induction false} OfSchemaPush(xs: seq<Relation>, x: Relation)
    ensures forall s :: OfSchema(xs + [x], s) == if x.schema == s then OfSchema(xs, s) + [x] else OfSchema(xs, s)
    ensures SchemasOf(xs + [x]) == SchemasOf(xs) + {x.schema}
  {
    assert (xs + [x])[..|xs|] == xs;
    assert forall y :: y in xs + [x] <==> y in xs || y == x;
  }

  lemma {:induction false} OfSchemaNone(xs: seq<Relation>, schema: Option<string>)
    requires schema !in SchemasOf(xs)
    ensures OfSchema(xs, schema) == []
  {
    if xs != [] {
      assert xs[|xs| - 1] in xs;
      OfSchemaNone(xs[..|xs| - 1], schema);
    }
  }

  method SortedSchemas<V>(groups: map<Option<string>, V>) returns (schemas: seq<Option<string>>)
    ensures StrictTotal(SchemaLess) && schemas == SortedListing(SchemaLess, groups.Keys)
  {
    hide SchemaLess;
    SchemaStrictTotal();
    var some := SomeOrder(groups);
    SortListsOnce(SchemaLess, some, groups.Keys);
    schemas := Sort(SchemaLess, some);
  }

  method CountSchemas(schemas: seq<Option<string>>) returns (named: nat)
    ensures named == CountNamed(schemas)
  {
    named := 0;
    for i := 0 to |schemas|
      invariant named == CountNamed(schemas[..i])
    {
      assert schemas[..i + 1][..i] == schemas[..i];
      if schemas[i].Some? { named := named + 1; }
    }
    assert schemas[..|schemas|] == schemas;
  }

  method BuildNodes(tables: seq<Relation>, views: seq<Relation>) returns (nodes: seq<Node>)
    ensures nodes == Nodes(tables, views)
  {
    hide SchemaLess; hide OfSchema; hide NotViews; hide SchemaNodes; hide CountNamed; hide SchemasOf;
    var groups := BySchema(tables, views);
    var schemas := SortedSchemas(groups);
    var named := CountSchemas(schemas);
    nodes := [];
    for i := 0 to |schemas|
      invariant nodes == NodesFor(schemas[..i], named > 1, NotViews(tables, views), views)
    {
      assert schemas[..i + 1][..i] == schemas[..i];
      assert schemas[i] in schemas;
      var (ts, vs) := groups[schemas[i]];
      nodes := PushSchema(nodes, named > 1, schemas[i], ts, vs);
    }
    assert schemas[..|schemas|] == schemas;
  }

  method PushSchema(nodes: seq<Node>, several: bool, schema: Option<string>, tables: seq<Relation>,
                    views: seq<Relation>) returns (more: seq<Node>)
    ensures more == nodes + SchemaNodes(|nodes|, several, schema, tables, views)
  {
    hide KeyPart; hide GroupNodes; hide Prefix;
    more := nodes;
    var depth, parent := 0, None;
    if several {
      more := more + [SchemaNode(schema, |tables| + |views|)];
      depth, parent := 1, Some(|nodes|);
    }
    more := PushGroup(more, depth, Prefix(schema), Tables, tables, parent);
    more := PushGroup(more, depth, Prefix(schema), Views, views, parent);
  }

  // ---------- catalogue entries ----------

  function CatalogNodes(base: nat, kinds: seq<string>): seq<Node> {
    if kinds == [] then []
    else
      [Node(0, "catalog", GroupKind(Catalog), None, |kinds|, None)]
      + seq(|kinds|, i requires 0 <= i < |kinds| =>
            Node(1, Below("catalog", kinds[i]), CatalogKind(kinds[i]), None, 0, Some(base)))
  }

  method AppendCatalogEntries(nodes: seq<Node>, kinds: seq<string>) returns (more: seq<Node>)
    ensures more == nodes + CatalogNodes(|nodes|, kinds)
  {
    hide Below;
    more := nodes;
    if kinds == [] { return; }
    ghost var all := CatalogNodes(|nodes|, kinds);
    more := more + [Node(0, "catalog", GroupKind(Catalog), None, |kinds|, None)];
    TakeOneMore(nodes, all, 0);
    assert nodes + all[..0] == nodes;
    for i := 0 to |kinds|
      invariant more == nodes + all[..i + 1]
    {
      assert all[i + 1] == Node(1, Below("catalog", kinds[i]), CatalogKind(kinds[i]), None, 0, Some(|nodes|));
      TakeOneMore(nodes, all, i + 1);
      more := more + [Node(1, Below("catalog", kinds[i]), CatalogKind(kinds[i]), None, 0, Some(|nodes|))];
    }
    assert all[..|kinds| + 1] == all;
  }

  // ---------- paths ----------

  /** What stands before the last separator. */
  function ParentPath(key: string): (r: Option<string>)
    ensures r.Some? ==> |r.value| < |key|
  {
    if key == "" then None
    else if key[|key| - 1] == '/' then Some(key[..|key| - 1])
    else ParentPath(key[..|key| - 1])
  }

  lemma {:induction false} ParentOfBelow(path: string, part: string)
    requires '/' !in part
    ensures ParentPath(Below(path, part)) == Some(path)
  {
    var key := Below(path, part);
    if part == "" {
      assert key[..|key| - 1] == path;
    } else {
      var n := |part| - 1;
      assert key[..|key| - 1] == Below(path, part[..n]);
      ParentOfBelow(path, part[..n]);
    }
  }

  /** A node stands after its parent, and its key is the parent's key with one more part. */
  predicate NodeOk(nodes: seq<Node>, i: nat)
    requires i < |nodes|
  {
    nodes[i].parent.Some? ==>
      var p := nodes[i].parent.value;
      p < i && ParentPath(nodes[i].key) == Some(nodes[p].key)
  }

  predicate TreeOk(nodes: seq<Node>) { forall i | 0 <= i < |nodes| :: NodeOk(nodes, i) }

  lemma {:induction false} GroupKeepsTree(nodes: seq<Node>, depth: nat, prefix: string, group: Group,
                                          objects: seq<Relation>, parent: Option<nat>)
    requires TreeOk(nodes) && (parent.Some? ==> parent.value < |nodes| && nodes[parent.value].key == prefix)
    ensures TreeOk(nodes + GroupNodes(|nodes|, depth, prefix, group, objects, parent))
  {
    hide ParentPath; hide KeyPart; hide Below;
    var added := GroupNodes(|nodes|, depth, prefix, group, objects, parent);
    var all := nodes + added;
    forall i | 0 <= i < |all| ensures NodeOk(all, i) {
      if i < |nodes| {
        assert all[i] == nodes[i];
        assert NodeOk(nodes, i);
      } else if i == |nodes| {
        assert all[i] == GroupNode(depth, prefix, group, objects, parent);
        ParentOfBelow(prefix, Suffix(group));
      } else {
        var r := objects[i - |nodes| - 1];
        assert all[i] == Leaf(depth + 1, prefix, group, r, |nodes|);
        assert all[|nodes|].key == Below(prefix, Suffix(group));
        KeyPartInjective(r.name, r.name);
        ParentOfBelow(Below(prefix, Suffix(group)), KeyPart(r.name));
      }
    }
  }

  lemma {:induction false} SchemaKeepsTree(nodes: seq<Node>, several: bool, schema: Option<string>,
                                           tables: seq<Relation>, views: seq<Relation>)
    requires TreeOk(nodes)
    ensures TreeOk(nodes + SchemaNodes(|nodes|, several, schema, tables, views))
  {
    hide ParentPath; hide KeyPart; hide GroupNodes; hide Prefix;
    var head := if several then [SchemaNode(schema, |tables| + |views|)] else [];
    var depth := if several then 1 else 0;
    var parent := if several then Some(|nodes|) else None;
    var a := nodes + head;
    assert forall i | 0 <= i < |nodes| :: NodeOk(nodes, i) ==> NodeOk(a, i);
    assert TreeOk(a);
    GroupKeepsTree(a, depth, Prefix(schema), Tables, tables, parent);
    var b := a + GroupNodes(|a|, depth, Prefix(schema), Tables, tables, parent);
    GroupKeepsTree(b, depth, Prefix(schema), Views, views, parent);
    var c := b + GroupNodes(|b|, depth, Prefix(schema), Views, views, parent);
    assert c == nodes + SchemaNodes(|nodes|, several, schema, tables, views);
  }

  lemma {:induction false} NodesForTree(schemas: seq<Option<string>>, several: bool, tables: seq<Relation>,
                                        views: seq<Relation>)
    ensures TreeOk(NodesFor(schemas, several, tables, views))
  {
    hide TreeOk; hide SchemaNodes; hide OfSchema;
    if schemas == [] {
      NoNodes();
    } else {
      var n := |schemas| - 1;
      NodesForTree(schemas[..n], several, tables, views);
      SchemaKeepsTree(NodesFor(schemas[..n], several, tables, views), several, schemas[n],
                      OfSchema(tables, schemas[n]), OfSchema(views, schemas[n]));
    }
  }

  lemma {:induction false} NoNodes()
    ensures TreeOk([])
  {}

  lemma {:induction false} CatalogKeepsTree(nodes: seq<Node>, kinds: seq<string>)
    requires TreeOk(nodes) && forall i | 0 <= i < |kinds| :: '/' !in kinds[i]
    ensures TreeOk(nodes + CatalogNodes(|nodes|, kinds))
  {
    hide ParentPath; hide Below;
    var all := nodes + CatalogNodes(|nodes|, kinds);
    forall i | 0 <= i < |all| ensures NodeOk(all, i) {
      if i < |nodes| {
        assert NodeOk(nodes, i);
      } else if i > |nodes| {
        ParentOfBelow("catalog", kinds[i - |nodes| - 1]);
      }
    }
  }

  /** In every tree, parents come first and keys extend their parent's key by one part. */
  lemma {:induction false} TreeIsOk(tables: seq<Relation>, views: seq<Relation>, kinds: seq<string>)
    requires forall i | 0 <= i < |kinds| :: '/' !in kinds[i]
    ensures TreeOk(Nodes(tables, views) + CatalogNodes(|Nodes(tables, views)|, kinds))
  {
    hide TreeOk; hide CatalogNodes; hide NodesFor; hide Schemas; hide CountNamed; hide NotViews;
    var schemas := Schemas(tables, views);
    NodesForTree(schemas, CountNamed(schemas) > 1, NotViews(tables, views), views);
    CatalogKeepsTree(Nodes(tables, views), kinds);
  }
}
