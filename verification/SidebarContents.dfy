/** What the sidebar shows: every relation of the catalogue once, under the right group, counted right. */
module SidebarContents {

  import opened Options
  import opened Ordering
  import opened SidebarTree

  /** A group's children are the `count` nodes after it, and no others. */
  ghost predicate ChildrenFollow(nodes: seq<Node>, i: nat)
    requires i < |nodes|
  {
    && i + nodes[i].count < |nodes|
    && forall j | 0 <= j < |nodes| :: nodes[j].parent == Some(i) <==> i < j <= i + nodes[i].count
  }

  /** The node stands for a relation of the given list, below the group of that kind and schema. */
  ghost predicate IsLeaf(nodes: seq<Node>, i: nat, group: Group, r: Relation)
    requires i < |nodes|
  {
    && nodes[i].schema == r.schema && nodes[i].count == 0 && nodes[i].parent.Some?
    && nodes[i].parent.value < i
    && var p := nodes[nodes[i].parent.value];
       p.kind == GroupKind(group) && p.schema == r.schema && nodes[i].depth == p.depth + 1
  }

  /** What a node says is so. */
  ghost predicate NodeMeans(nodes: seq<Node>, i: nat, several: bool, tables: seq<Relation>, views: seq<Relation>)
    requires i < |nodes|
  {
    match nodes[i].kind
    case SchemaKind =>
      && several && nodes[i].depth == 0 && nodes[i].parent == None
      && nodes[i].count == |OfSchema(tables, nodes[i].schema)| + |OfSchema(views, nodes[i].schema)|
    case GroupKind(group) =>
      && nodes[i].depth == (if several then 1 else 0) && nodes[i].count > 0 && ChildrenFollow(nodes, i)
      && nodes[i].count == |OfSchema(if group.Tables? then tables else views, nodes[i].schema)|
      && (several <==> nodes[i].parent.Some?)
      && (several ==> && nodes[i].parent.value < i && nodes[nodes[i].parent.value].kind == SchemaKind
                      && nodes[nodes[i].parent.value].schema == nodes[i].schema)
    case TableKind(schema, name) =>
      Relation(schema, name) in tables && IsLeaf(nodes, i, Tables, Relation(schema, name))
    case ViewKind(schema, name) =>
      Relation(schema, name) in views && IsLeaf(nodes, i, Views, Relation(schema, name))
    case CatalogKind(_) => false
  }

  ghost predicate AllMean(nodes: seq<Node>, several: bool, tables: seq<Relation>, views: seq<Relation>) {
    forall i | 0 <= i < |nodes| :: NodeMeans(nodes, i, several, tables, views)
  }

  lemma {:induction false} OfSchemaIn(xs: seq<Relation>, schema: Option<string>)
    ensures forall r :: r in OfSchema(xs, schema) <==> r in xs && r.schema == schema
  {
    if xs != [] {
      OfSchemaIn(xs[..|xs| - 1], schema);
      assert xs == xs[..|xs| - 1] + [xs[|xs| - 1]];
    }
  }

  /** A node keeps its meaning when others follow that have their parents among themselves or in a schema. */
  lemma {:induction false} MeansStands(nodes: seq<Node>, more: seq<Node>, i: nat, several: bool,
                                       tables: seq<Relation>, views: seq<Relation>)
    requires i < |nodes| && NodeMeans(nodes, i, several, tables, views)
    requires forall j | 0 <= j < |more| && more[j].parent == Some(i) :: nodes[i].kind == SchemaKind
    ensures NodeMeans(nodes + more, i, several, tables, views)
  {
    hide OfSchema;
    var all := nodes + more;
    assert all[i] == nodes[i];
    if nodes[i].kind.GroupKind? {
      forall j | 0 <= j < |all| ensures all[j].parent == Some(i) <==> i < j <= i + all[i].count {
        if j < |nodes| { assert all[j] == nodes[j]; } else { assert all[j] == more[j - |nodes|]; }
      }
    }
  }

  /** The parent of a new group: the schema's own node, if schemas have nodes. */
  ghost predicate ParentFits(nodes: seq<Node>, several: bool, schema: Option<string>, depth: nat, parent: Option<nat>) {
    && (several <==> parent.Some?) && depth == (if several then 1 else 0)
    && (several ==> && parent.value < |nodes| && nodes[parent.value].kind == SchemaKind
                    && nodes[parent.value].schema == schema)
  }

  lemma {:induction false} GroupMeans(nodes: seq<Node>, several: bool, depth: nat, schema: Option<string>, group: Group,
                                      tables: seq<Relation>, views: seq<Relation>, parent: Option<nat>)
    requires AllMean(nodes, several, tables, views) && ParentFits(nodes, several, schema, depth, parent)
    requires group != Catalog
    ensures var objects := OfSchema(if group.Tables? then tables else views, schema);
      AllMean(nodes + GroupNodes(|nodes|, depth, Prefix(schema), group, objects, parent), several, tables, views)
  {
    hide KeyPart; hide Below; hide Prefix;
    var objects := OfSchema(if group.Tables? then tables else views, schema);
    var more := GroupNodes(|nodes|, depth, Prefix(schema), group, objects, parent);
    var all := nodes + more;
    OfSchemaIn(if group.Tables? then tables else views, schema);
    hide OfSchema;
    if objects != [] {
      assert objects[0] in objects;
      forall j | 0 <= j < |more| ensures more[j].parent == (if j == 0 then parent else Some(|nodes|)) {}
      forall i | 0 <= i < |all| ensures NodeMeans(all, i, several, tables, views) {
        if i < |nodes| {
          assert NodeMeans(nodes, i, several, tables, views);
          MeansStands(nodes, more, i, several, tables, views);
        } else if i == |nodes| {
          forall j | 0 <= j < |nodes| && nodes[j].parent.Some? ensures nodes[j].parent.value < |nodes| {
            assert NodeMeans(nodes, j, several, tables, views);
          }
          GroupItself(nodes, several, depth, schema, group, objects, parent);
        } else {
          assert all[i] == more[i - |nodes|];
          assert all[i] == Leaf(depth + 1, Prefix(schema), group, objects[i - |nodes| - 1], |nodes|);
          assert objects[i - |nodes| - 1] in objects;
          assert all[|nodes|] == more[0];
        }
      }
    } else {
      assert all == nodes;
    }
  }

  lemma {:induction false} GroupItself(nodes: seq<Node>, several: bool, depth: nat, schema: Option<string>,
                                       group: Group, objects: seq<Relation>, parent: Option<nat>)
    requires objects != [] && (parent.Some? ==> parent.value < |nodes|)
    requires forall j | 0 <= j < |nodes| && nodes[j].parent.Some? :: nodes[j].parent.value < |nodes|
    ensures ChildrenFollow(nodes + GroupNodes(|nodes|, depth, Prefix(schema), group, objects, parent), |nodes|)
  {
    hide KeyPart; hide Below; hide Prefix;
    var more := GroupNodes(|nodes|, depth, Prefix(schema), group, objects, parent);
    var all := nodes + more;
    forall j | 0 <= j < |all| ensures all[j].parent == Some(|nodes|) <==> |nodes| < j <= |nodes| + |objects| {
      if j >= |nodes| { assert all[j] == more[j - |nodes|]; }
    }
  }

  lemma {:induction false} SchemaMeans(nodes: seq<Node>, several: bool, schema: Option<string>,
                                       tables: seq<Relation>, views: seq<Relation>)
    requires AllMean(nodes, several, tables, views)
    ensures AllMean(nodes + SchemaNodes(|nodes|, several, schema, OfSchema(tables, schema), OfSchema(views, schema)),
                    several, tables, views)
  {
    hide GroupNodes; hide Prefix; hide OfSchema;
    var ts, vs := OfSchema(tables, schema), OfSchema(views, schema);
    var head := if several then [SchemaNode(schema, |ts| + |vs|)] else [];
    var depth := if several then 1 else 0;
    var parent := if several then Some(|nodes|) else None;
    var a := nodes + head;
    forall i | 0 <= i < |a| ensures NodeMeans(a, i, several, tables, views) {
      if i < |nodes| {
        assert NodeMeans(nodes, i, several, tables, views);
        MeansStands(nodes, head, i, several, tables, views);
      }
    }
    hide NodeMeans;
    GroupMeans(a, several, depth, schema, Tables, tables, views, parent);
    var b := a + GroupNodes(|a|, depth, Prefix(schema), Tables, ts, parent);
    assert parent.Some? ==> b[parent.value] == a[parent.value];
    GroupMeans(b, several, depth, schema, Views, tables, views, parent);
    var c := b + GroupNodes(|b|, depth, Prefix(schema), Views, vs, parent);
    assert c == nodes + SchemaNodes(|nodes|, several, schema, ts, vs);
  }

  lemma {:induction false} NodesMean(schemas: seq<Option<string>>, several: bool, tables: seq<Relation>,
                                     views: seq<Relation>)
    ensures AllMean(NodesFor(schemas, several, tables, views), several, tables, views)
  {
    hide NodeMeans; hide SchemaNodes; hide OfSchema;
    if schemas != [] {
      var n := |schemas| - 1;
      NodesMean(schemas[..n], several, tables, views);
      SchemaMeans(NodesFor(schemas[..n], several, tables, views), several, schemas[n], tables, views);
    }
  }

  // ---------- everything is shown, in order ----------

  /** The relations shown as tables, or as views, from top to bottom. */
  function Shown(nodes: seq<Node>, group: Group): seq<Relation> {
    if nodes == [] then []
    else
      var before := Shown(nodes[..|nodes| - 1], group);
      match nodes[|nodes| - 1].kind
      case TableKind(schema, name) => if group == Tables then before + [Relation(schema, name)] else before
      case ViewKind(schema, name) => if group == Views then before + [Relation(schema, name)] else before
      case _ => before
  }

  /** The relations schema by schema, within a schema as the catalogue lists them. */
  function BySchemas(schemas: seq<Option<string>>, xs: seq<Relation>): seq<Relation> {
    if schemas == [] then []
    else BySchemas(schemas[..|schemas| - 1], xs) + OfSchema(xs, schemas[|schemas| - 1])
  }

  lemma {:induction false} ShownJoin(a: seq<Node>, b: seq<Node>, group: Group)
    ensures Shown(a + b, group) == Shown(a, group) + Shown(b, group)
  {
    if b == [] {
      assert a + b == a;
    } else {
      assert (a + b)[..|a + b| - 1] == a + b[..|b| - 1];
      ShownJoin(a, b[..|b| - 1], group);
    }
  }

  lemma {:induction false} LeavesShown(leaves: seq<Node>, objects: seq<Relation>, group: Group, asked: Group)
    requires group != Catalog && |leaves| == |objects|
    requires forall i | 0 <= i < |leaves| ::
               leaves[i].kind == if group.Views? then ViewKind(objects[i].schema, objects[i].name)
                                 else TableKind(objects[i].schema, objects[i].name)
    ensures Shown(leaves, asked) == if asked == group then objects else []
  {
    if leaves != [] {
      var n := |leaves| - 1;
      LeavesShown(leaves[..n], objects[..n], group, asked);
      assert objects == objects[..n] + [objects[n]];
    }
  }

  lemma {:induction false} GroupShown(base: nat, depth: nat, prefix: string, group: Group, objects: seq<Relation>,
                                      parent: Option<nat>, asked: Group)
    requires group != Catalog
    ensures Shown(GroupNodes(base, depth, prefix, group, objects, parent), asked) ==
            if asked == group then objects else []
  {
    hide Below; hide KeyPart;
    var nodes := GroupNodes(base, depth, prefix, group, objects, parent);
    if objects != [] {
      var head := GroupNode(depth, prefix, group, objects, parent);
      assert nodes == [head] + nodes[1..];
      ShownJoin([head], nodes[1..], asked);
      assert [head][..0] == [] && Shown([head], asked) == [];
      LeavesShown(nodes[1..], objects, group, asked);
    }
  }

  lemma {:induction false} ThreeShown(a: seq<Node>, b: seq<Node>, c: seq<Node>, tables: seq<Relation>,
                                      views: seq<Relation>, asked: Group)
    requires asked != Catalog && Shown(a, asked) == []
    requires Shown(b, asked) == if asked == Tables then tables else []
    requires Shown(c, asked) == if asked == Views then views else []
    ensures Shown(a + b + c, asked) == if asked.Tables? then tables else views
  {
    ShownJoin(a, b, asked);
    ShownJoin(a + b, c, asked);
    hide Shown;
    assert [] + tables + [] == tables && [] + [] + views == views;
  }

  lemma {:induction false} SchemaShown(base: nat, several: bool, schema: Option<string>, tables: seq<Relation>,
                                       views: seq<Relation>, asked: Group)
    requires asked != Catalog
    ensures Shown(SchemaNodes(base, several, schema, tables, views), asked) == if asked.Tables? then tables else views
  {
    hide GroupNodes; hide Prefix; hide Shown;
    var head := if several then [SchemaNode(schema, |tables| + |views|)] else [];
    var depth := if several then 1 else 0;
    var parent := if several then Some(base) else None;
    HeadShown(several, SchemaNode(schema, |tables| + |views|), asked);
    var ts := GroupNodes(base + |head|, depth, Prefix(schema), Tables, tables, parent);
    GroupShown(base + |head|, depth, Prefix(schema), Tables, tables, parent, asked);
    var vs := GroupNodes(base + |head + ts|, depth, Prefix(schema), Views, views, parent);
    GroupShown(base + |head + ts|, depth, Prefix(schema), Views, views, parent, asked);
    ThreeShown(head, ts, vs, tables, views, asked);
  }

  lemma {:induction false} HeadShown(several: bool, node: Node, asked: Group)
    requires node.kind == SchemaKind
    ensures Shown(if several then [node] else [], asked) == []
  {
    assert [node][..0] == [];
  }

  lemma {:induction false} NodesShown(schemas: seq<Option<string>>, several: bool, tables: seq<Relation>,
                                      views: seq<Relation>, asked: Group)
    requires asked != Catalog
    ensures Shown(NodesFor(schemas, several, tables, views), asked) ==
            BySchemas(schemas, if asked.Tables? then tables else views)
  {
    hide SchemaNodes; hide OfSchema;
    if schemas != [] {
      var n := |schemas| - 1;
      var before, schema := NodesFor(schemas[..n], several, tables, views), schemas[n];
      NodesShown(schemas[..n], several, tables, views, asked);
      var ts, vs := OfSchema(tables, schema), OfSchema(views, schema);
      SchemaShown(|before|, several, schema, ts, vs, asked);
      ShownJoin(before, SchemaNodes(|before|, several, schema, ts, vs), asked);
    }
  }

  lemma {:induction false} NotViewsIn(tables: seq<Relation>, views: seq<Relation>)
    ensures forall r :: r in NotViews(tables, views) <==> r in tables && r !in views
  {
    if tables != [] {
      NotViewsIn(tables[..|tables| - 1], views);
      assert tables == tables[..|tables| - 1] + [tables[|tables| - 1]];
    }
  }

  /** No schema at all comes first, then the named ones in the order of their names, each once. */
  predicate InSchemaOrder(schemas: seq<Option<string>>) {
    forall i, j | 0 <= i < j < |schemas| :: Precedes(schemas[i], schemas[j])
  }

  predicate Precedes(a: Option<string>, b: Option<string>) {
    b.Some? && (a.Some? ==> TextLess(a.value, b.value))
  }

  lemma {:induction false} SortedIsOrdered(schemas: seq<Option<string>>)
    requires StrictlySorted(SchemaLess, schemas)
    ensures InSchemaOrder(schemas)
  {
    forall i, j | 0 <= i < j < |schemas|
      ensures Precedes(schemas[i], schemas[j])
    {
      assert SchemaLess(schemas[i], schemas[j]);
    }
  }

  /**
   * The tree of a catalogue: every node says what is so, tables that are no views and views are shown
   * schema by schema in the catalogue's order, the schemas are in order and none is missing, and they
   * have nodes of their own exactly when more than one of them has a name.
   */
  lemma {:induction false} TreeShows(tables: seq<Relation>, views: seq<Relation>)
    ensures var plain, schemas := NotViews(tables, views), Schemas(tables, views);
      && (forall r :: r in plain <==> r in tables && r !in views)
      && InSchemaOrder(schemas)
      && (forall s :: s in schemas <==> exists r :: (r in plain || r in views) && r.schema == s)
      && AllMean(Nodes(tables, views), CountNamed(schemas) > 1, plain, views)
      && Shown(Nodes(tables, views), Tables) == BySchemas(schemas, plain)
      && Shown(Nodes(tables, views), Views) == BySchemas(schemas, views)
  {
    hide NodesFor; hide AllMean; hide Shown; hide BySchemas; hide SchemaLess;
    var plain, schemas := NotViews(tables, views), Schemas(tables, views);
    NotViewsIn(tables, views);
    SchemaStrictTotal();
    SortedIsOrdered(schemas);
    NodesMean(schemas, CountNamed(schemas) > 1, plain, views);
    NodesShown(schemas, CountNamed(schemas) > 1, plain, views, Tables);
    NodesShown(schemas, CountNamed(schemas) > 1, plain, views, Views);
    hide NotViews;
    assert forall s :: s in schemas <==> s in SchemasOf(plain) + SchemasOf(views);
  }
}
