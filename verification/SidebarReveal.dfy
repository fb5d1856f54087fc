/**
 * Which nodes the sidebar shows, decided by parent indexes, and the plan that brings a relation into view,
 * computed from the text of its key.
 */
module SidebarReveal {

  import opened Options
  import opened SidebarTree
  import opened SidebarKeys

  /** Trimming and case folding of text, which are library calls. */
  datatype Folding = Folding(canon: string -> string, lower: string -> string)

  predicate Lawful(f: Folding) { f.canon("") == "" }

  predicate ContainsText(text: string, part: string) { exists i | 0 <= i <= |text| :: part <= text[i..] }

  // ---------- visibility ----------

  predicate SchemaVisible(n: Node, hidden: set<string>) { n.schema.Some? ==> n.schema.value !in hidden }

  function QualifiedName(n: Node): Option<string> {
    match n.kind
    case TableKind(schema, name) => Some(if schema.Some? then schema.value + "." + name else name)
    case ViewKind(schema, name) => Some(if schema.Some? then schema.value + "." + name else name)
    case _ => None
  }

  predicate NameMatches(f: Folding, n: Node, query: string) {
    QualifiedName(n).Some? && ContainsText(f.lower(QualifiedName(n).value), query)
  }

  /** A search finds the relations whose name, with its schema if it has one, holds the text somewhere. */
  lemma {:induction false} SearchMeans(f: Folding, n: Node, query: string)
    ensures NameMatches(f, n, query) <==>
              match n.kind
              case TableKind(None, name) => Holds(f.lower(name), query)
              case TableKind(Some(schema), name) => Holds(f.lower(schema + "." + name), query)
              case ViewKind(None, name) => Holds(f.lower(name), query)
              case ViewKind(Some(schema), name) => Holds(f.lower(schema + "." + name), query)
              case _ => false
  {
    if QualifiedName(n).Some? { ContainsHolds(f.lower(QualifiedName(n).value), query); }
  }

  ghost predicate Holds(text: string, part: string) { exists a, b :: Around(text, a, part, b) }

  predicate Around(text: string, a: string, part: string, b: string) { text == a + part + b }

  lemma {:induction false} ContainsHolds(text: string, part: string)
    ensures ContainsText(text, part) <==> Holds(text, part)
  {
    if ContainsText(text, part) {
      var i :| 0 <= i <= |text| && part <= text[i..];
      assert Around(text, text[..i], part, text[i..][|part|..]);
    }
    if Holds(text, part) {
      var a, b :| Around(text, a, part, b);
      assert text[|a|..] == part + b;
      assert part <= text[|a|..];
    }
  }

  function Height(parent: Option<nat>): nat { if parent.Some? then parent.value + 1 else 0 }

  predicate HasCollapsedAncestor(nodes: seq<Node>, parent: Option<nat>, collapsed: set<string>)
    requires TreeOk(nodes) && Height(parent) <= |nodes|
    decreases Height(parent)
  {
    parent.Some? &&
    assert NodeOk(nodes, parent.value);
    (nodes[parent.value].key in collapsed || HasCollapsedAncestor(nodes, nodes[parent.value].parent, collapsed))
  }

  /** The ancestors of a node, by index. */
  function Ancestors(nodes: seq<Node>, parent: Option<nat>): (r: set<nat>)
    requires TreeOk(nodes) && Height(parent) <= |nodes|
    ensures forall i | i in r :: i < Height(parent)
    decreases Height(parent)
  {
    if parent.None? then {}
    else assert NodeOk(nodes, parent.value); {parent.value} + Ancestors(nodes, nodes[parent.value].parent)
  }

  ghost predicate Shows(nodes: seq<Node>, f: Folding, query: string, hidden: set<string>, j: nat, i: nat)
    requires TreeOk(nodes) && i < |nodes| && j < |nodes|
  {
    assert NodeOk(nodes, j);
    && SchemaVisible(nodes[j], hidden) && NameMatches(f, nodes[j], query)
    && (i == j || (SchemaVisible(nodes[i], hidden) && i in Ancestors(nodes, nodes[j].parent)))
  }

  /**
   * Without a search, a node shows unless its schema is hidden or an ancestor is collapsed. In a search,
   * it shows when it matches, or stands above a match.
   */
  ghost predicate Visible(nodes: seq<Node>, f: Folding, collapsed: set<string>, query: string, hidden: set<string>,
                          i: nat)
    requires TreeOk(nodes) && i < |nodes|
  {
    var q := f.canon(query);
    if q == "" then
      assert NodeOk(nodes, i);
      SchemaVisible(nodes[i], hidden) && !HasCollapsedAncestor(nodes, nodes[i].parent, collapsed)
    else exists j | 0 <= j < |nodes| :: Shows(nodes, f, q, hidden, j, i)
  }

  method CollapsedAbove(nodes: seq<Node>, i: nat, collapsed: set<string>) returns (r: bool)
    requires TreeOk(nodes) && i < |nodes|
    ensures NodeOk(nodes, i) && r == HasCollapsedAncestor(nodes, nodes[i].parent, collapsed)
  {
    assert NodeOk(nodes, i);
    var parent := nodes[i].parent;
    while parent.Some?
      invariant Height(parent) <= i
      invariant HasCollapsedAncestor(nodes, parent, collapsed) ==
                HasCollapsedAncestor(nodes, nodes[i].parent, collapsed)
      decreases Height(parent)
    {
      assert NodeOk(nodes, parent.value);
      if nodes[parent.value].key in collapsed { return true; }
      parent := nodes[parent.value].parent;
    }
    r := false;
  }

  /** Marks a match and everything visible above it. */
  method MarkMatch(nodes: seq<Node>, hidden: set<string>, j: nat, shown: array<bool>)
    requires TreeOk(nodes) && j < |nodes| == shown.Length
    modifies shown
    ensures NodeOk(nodes, j)
    ensures forall i | 0 <= i < |nodes| :: shown[i] <==>
              old(shown[i]) || i == j || (SchemaVisible(nodes[i], hidden) && i in Ancestors(nodes, nodes[j].parent))
  {
    assert NodeOk(nodes, j);
    shown[j] := true;
    var parent := nodes[j].parent;
    while parent.Some?
      invariant Height(parent) <= j && Ancestors(nodes, parent) <= Ancestors(nodes, nodes[j].parent)
      invariant forall i | 0 <= i < |nodes| :: shown[i] <==>
                  old(shown[i]) || i == j
                  || (SchemaVisible(nodes[i], hidden)
                      && i in Ancestors(nodes, nodes[j].parent) - Ancestors(nodes, parent))
      decreases Height(parent)
    {
      var p := parent.value;
      assert NodeOk(nodes, p);
      if SchemaVisible(nodes[p], hidden) { shown[p] := true; }
      parent := nodes[p].parent;
    }
  }

  /** The visible nodes, top to bottom. */
  method VisibleNodes(nodes: seq<Node>, f: Folding, collapsed: set<string>, query: string, hidden: set<string>)
    returns (r: seq<nat>)
    requires TreeOk(nodes)
    ensures forall k | 0 <= k < |r| :: r[k] < |nodes|
    ensures forall k, l | 0 <= k < l < |r| :: r[k] < r[l]
    ensures forall i | 0 <= i < |nodes| :: i in r <==> Visible(nodes, f, collapsed, query, hidden, i)
  {
    hide NameMatches; hide SchemaVisible; hide Ancestors; hide HasCollapsedAncestor;
    var q := f.canon(query);
    r := [];
    if q == "" {
      for i := 0 to |nodes|
        invariant forall k | 0 <= k < |r| :: r[k] < i
        invariant forall k, l | 0 <= k < l < |r| :: r[k] < r[l]
        invariant forall k | 0 <= k < i :: k in r <==> Visible(nodes, f, collapsed, query, hidden, k)
      {
        var above := CollapsedAbove(nodes, i, collapsed);
        if SchemaVisible(nodes[i], hidden) && !above { r := r + [i]; }
      }
      return;
    }
    var shown := new bool[|nodes|](_ => false);
    for j := 0 to |nodes|
      invariant forall i | 0 <= i < |nodes| :: shown[i] <==> exists m | 0 <= m < j :: Shows(nodes, f, q, hidden, m, i)
    {
      assert NodeOk(nodes, j);
      if SchemaVisible(nodes[j], hidden) && NameMatches(f, nodes[j], q) {
        ghost var before := shown[..];
        MarkMatch(nodes, hidden, j, shown);
        forall i | 0 <= i < |nodes| ensures shown[i] <==> before[i] || Shows(nodes, f, q, hidden, j, i) {}
      }
    }
    for i := 0 to |nodes|
      invariant forall k | 0 <= k < |r| :: r[k] < i
      invariant forall k, l | 0 <= k < l < |r| :: r[k] < r[l]
      invariant forall k | 0 <= k < i :: k in r <==> shown[k]
    {
      if shown[i] { r := r + [i]; }
    }
  }

  // ---------- revealing ----------

  datatype Reveal = Missing | HiddenBySchemaFilter | Show(index: nat, uncollapse: seq<string>, clearSearch: bool)

  function AncestorKeys(key: string): seq<string>
    decreases |key|
  {
    match ParentPath(key)
    case None => []
    case Some(path) => [path] + AncestorKeys(path)
  }

  method KeysAbove(key: string) returns (keys: seq<string>)
    ensures keys == AncestorKeys(key)
  {
    hide ParentPath;
    keys := [];
    var path := key;
    while ParentPath(path).Some?
      invariant keys + AncestorKeys(path) == AncestorKeys(key)
      decreases |path|
    {
      var parent := ParentPath(path).value;
      assert keys + ([parent] + AncestorKeys(parent)) == keys + [parent] + AncestorKeys(parent);
      keys := keys + [parent];
      path := parent;
    }
    assert keys + [] == keys;
  }

  predicate Names(n: Node, r: Relation) {
    n.kind == TableKind(r.schema, r.name) || n.kind == ViewKind(r.schema, r.name)
  }

  /** The first node of the relation, or the number of nodes. */
  function Position(nodes: seq<Node>, r: Relation): (i: nat)
    ensures i <= |nodes| && (i < |nodes| ==> Names(nodes[i], r))
    ensures forall j | 0 <= j < i :: !Names(nodes[j], r)
  {
    if nodes == [] then 0
    else
      var i := Position(nodes[..|nodes| - 1], r);
      if i < |nodes| - 1 || Names(nodes[i], r) then i else |nodes|
  }

  function CollapsedOf(keys: seq<string>, collapsed: set<string>): (r: seq<string>)
    ensures forall k :: k in r <==> k in keys && k in collapsed
  {
    if keys == [] then []
    else
      var before := CollapsedOf(keys[..|keys| - 1], collapsed);
      assert keys == keys[..|keys| - 1] + [keys[|keys| - 1]];
      if keys[|keys| - 1] in collapsed then before + [keys[|keys| - 1]] else before
  }

  function Reversed(keys: seq<string>): (r: seq<string>)
    ensures |r| == |keys| && forall i | 0 <= i < |r| :: r[i] == keys[|keys| - 1 - i]
    ensures forall k :: k in r <==> k in keys
  {
    var r := seq(|keys|, i requires 0 <= i < |keys| => keys[|keys| - 1 - i]);
    assert forall i | 0 <= i < |keys| :: keys[i] == r[|keys| - 1 - i];
    r
  }

  function RevealTarget(nodes: seq<Node>, f: Folding, collapsed: set<string>, query: string, hidden: set<string>,
                        r: Relation): Reveal {
    var index := Position(nodes, r);
    if index == |nodes| then Missing
    else
      var n := nodes[index];
      var q := f.canon(query);
      if !SchemaVisible(n, hidden) then HiddenBySchemaFilter
      else if q != "" && NameMatches(f, n, q) then Show(index, [], false)
      else Show(index, Reversed(CollapsedOf(AncestorKeys(n.key), collapsed)), q != "")
  }

  /** Every ancestor by index is an ancestor by key. */
  lemma {:induction false} CollapsedIsAbove(nodes: seq<Node>, i: nat, collapsed: set<string>)
    requires TreeOk(nodes) && i < |nodes|
    ensures NodeOk(nodes, i)
    ensures HasCollapsedAncestor(nodes, nodes[i].parent, collapsed) ==>
              exists k | 0 <= k < |AncestorKeys(nodes[i].key)| :: AncestorKeys(nodes[i].key)[k] in collapsed
  {
    hide ParentPath;
    assert NodeOk(nodes, i);
    if nodes[i].parent.Some? && HasCollapsedAncestor(nodes, nodes[i].parent, collapsed) {
      var p := nodes[i].parent.value;
      var keys, rest := AncestorKeys(nodes[i].key), AncestorKeys(nodes[p].key);
      assert keys == [nodes[p].key] + rest;
      CollapsedIsAbove(nodes, p, collapsed);
      if nodes[p].key in collapsed {
        assert keys[0] in collapsed;
      } else {
        var k :| 0 <= k < |rest| && rest[k] in collapsed;
        assert keys[k + 1] in collapsed;
      }
    }
  }

  /** The collapse state and search after following a plan. */
  function Expanded(collapsed: set<string>, uncollapse: seq<string>): set<string> {
    collapsed - set k | k in uncollapse
  }

  /**
   * The plan works: it names the relation's first node, opens only collapsed ancestors, and leaves the
   * node visible. There is no plan only when no node is the relation's or its schema is hidden.
   */
  lemma {:induction false} RevealWorks(nodes: seq<Node>, f: Folding, collapsed: set<string>, query: string,
                                       hidden: set<string>, r: Relation)
    requires TreeOk(nodes) && Lawful(f)
    ensures match RevealTarget(nodes, f, collapsed, query, hidden, r)
      case Missing => forall i | 0 <= i < |nodes| :: !Names(nodes[i], r)
      case HiddenBySchemaFilter => exists i | 0 <= i < |nodes| :: Names(nodes[i], r) && !SchemaVisible(nodes[i], hidden)
      case Show(index, uncollapse, clearSearch) =>
        && index < |nodes| && Names(nodes[index], r)
        && (forall k | k in uncollapse :: k in collapsed && k in AncestorKeys(nodes[index].key))
        && (clearSearch <==> f.canon(query) != "" && !NameMatches(f, nodes[index], f.canon(query)))
        && Visible(nodes, f, Expanded(collapsed, uncollapse), if clearSearch then "" else query, hidden, index)
  {
    hide NameMatches; hide SchemaVisible; hide Ancestors; hide HasCollapsedAncestor; hide Names;
    var index, q := Position(nodes, r), f.canon(query);
    if index < |nodes| && SchemaVisible(nodes[index], hidden) {
      assert NodeOk(nodes, index);
      if q != "" && NameMatches(f, nodes[index], q) {
        assert Shows(nodes, f, q, hidden, index, index);
      } else {
        var keys := AncestorKeys(nodes[index].key);
        var uncollapse := Reversed(CollapsedOf(keys, collapsed));
        var open := Expanded(collapsed, uncollapse);
        forall k | 0 <= k < |keys| ensures keys[k] !in open { assert keys[k] in keys; }
        CollapsedIsAbove(nodes, index, open);
        assert !HasCollapsedAncestor(nodes, nodes[index].parent, open);
      }
    }
  }

  // ---------- whole catalogues ----------

  lemma {:induction false} GroupHasLeaf(base: nat, depth: nat, prefix: string, g: Group, objects: seq<Relation>,
                                        parent: Option<nat>, r: Relation)
    requires r in objects
    ensures exists n :: n in GroupNodes(base, depth, prefix, g, objects, parent) && Names(n, r) && n.schema == r.schema
  {
    hide KeyPart; hide Below;
    var i :| 0 <= i < |objects| && objects[i] == r;
    var nodes := GroupNodes(base, depth, prefix, g, objects, parent);
    assert nodes[i + 1] == Leaf(depth + 1, prefix, g, r, base);
    assert nodes[i + 1] in nodes;
  }

  lemma {:induction false} SchemaHasLeaf(base: nat, several: bool, schema: Option<string>, tables: seq<Relation>,
                                         views: seq<Relation>, r: Relation)
    requires r in tables || r in views
    ensures exists n :: n in SchemaNodes(base, several, schema, tables, views) && Names(n, r) && n.schema == r.schema
  {
    hide GroupNodes; hide Names; hide Prefix;
    var head := if several then [SchemaNode(schema, |tables| + |views|)] else [];
    var depth := if several then 1 else 0;
    var parent := if several then Some(base) else None;
    var first := head + GroupNodes(base + |head|, depth, Prefix(schema), Tables, tables, parent);
    if r in tables {
      GroupHasLeaf(base + |head|, depth, Prefix(schema), Tables, tables, parent, r);
    } else {
      GroupHasLeaf(base + |first|, depth, Prefix(schema), Views, views, parent, r);
    }
  }

  lemma {:induction false} NodesHaveLeaf(schemas: seq<Option<string>>, several: bool, tables: seq<Relation>,
                                         views: seq<Relation>, r: Relation)
    requires (r in tables || r in views) && r.schema in schemas
    ensures exists n :: n in NodesFor(schemas, several, tables, views) && Names(n, r) && n.schema == r.schema
  {
    hide SchemaNodes; hide Names; hide OfSchema;
    var n := |schemas| - 1;
    var before := NodesFor(schemas[..n], several, tables, views);
    if schemas[n] == r.schema {
      OfSchemaAll(tables, r.schema);
      OfSchemaAll(views, r.schema);
      SchemaHasLeaf(|before|, several, schemas[n], OfSchema(tables, schemas[n]), OfSchema(views, schemas[n]), r);
    } else {
      assert schemas == schemas[..n] + [schemas[n]];
      NodesHaveLeaf(schemas[..n], several, tables, views, r);
    }
  }

  lemma {:induction false} NotViewsAll(tables: seq<Relation>, views: seq<Relation>)
    ensures forall x :: x in NotViews(tables, views) <==> x in tables && x !in views
  {
    if tables != [] {
      NotViewsAll(tables[..|tables| - 1], views);
      assert tables == tables[..|tables| - 1] + [tables[|tables| - 1]];
    }
  }

  /** Every table and view of a catalogue has a node, so it can be revealed. */
  lemma {:induction false} CatalogueHasLeaf(tables: seq<Relation>, views: seq<Relation>, r: Relation)
    requires r in tables || r in views
    ensures exists n :: n in Nodes(tables, views) && Names(n, r) && n.schema == r.schema
  {
    hide NodesFor; hide NotViews; hide CountNamed; hide Names; hide SchemaLess;
    NotViewsAll(tables, views);
    var kept, schemas := NotViews(tables, views), Schemas(tables, views);
    assert r in kept || r in views;
    assert r.schema in SchemasOf(kept) + SchemasOf(views);
    NodesHaveLeaf(schemas, CountNamed(schemas) > 1, kept, views, r);
  }

  /** Following the plan for any table or view of any catalogue makes it visible, unless its schema is hidden. */
  lemma {:induction false} CatalogueReveals(
    tables: seq<Relation>, views: seq<Relation>, kinds: seq<string>,
    f: Folding, collapsed: set<string>, query: string, hidden: set<string>, r: Relation)
    requires Lawful(f) && (r in tables || r in views) && forall i | 0 <= i < |kinds| :: '/' !in kinds[i]
    requires r.schema.Some? ==> r.schema.value !in hidden
    ensures var nodes := Nodes(tables, views) + CatalogNodes(|Nodes(tables, views)|, kinds);
            var plan := RevealTarget(nodes, f, collapsed, query, hidden, r);
            && TreeOk(nodes) && plan.Show? && plan.index < |nodes| && Names(nodes[plan.index], r)
            && Visible(nodes, f, Expanded(collapsed, plan.uncollapse), if plan.clearSearch then "" else query, hidden,
                       plan.index)
  {
    hide Nodes; hide CatalogNodes; hide TreeOk; hide Visible; hide Expanded; hide NameMatches;
    var built := Nodes(tables, views);
    var nodes := built + CatalogNodes(|built|, kinds);
    TreeIsOk(tables, views, kinds);
    RevealWorks(nodes, f, collapsed, query, hidden, r);
    CatalogueHasLeaf(tables, views, r);
    var n :| n in built && Names(n, r) && n.schema == r.schema;
    assert n in nodes;
    RelationSchemas(tables, views, kinds, r);
  }

  /** A node that stands for a relation carries the relation's schema. */
  predicate SchemaAgrees(n: Node) { (n.kind.TableKind? || n.kind.ViewKind?) ==> n.kind.schema == n.schema }

  lemma {:induction false} SchemasAgree(schemas: seq<Option<string>>, several: bool, tables: seq<Relation>,
                                        views: seq<Relation>)
    ensures forall n | n in NodesFor(schemas, several, tables, views) :: SchemaAgrees(n)
  {
    hide OfSchema; hide KeyPart; hide Below; hide SchemaNodes;
    if schemas != [] {
      var n := |schemas| - 1;
      SchemasAgree(schemas[..n], several, tables, views);
      BlockAgrees(|NodesFor(schemas[..n], several, tables, views)|, several, schemas[n], OfSchema(tables, schemas[n]),
                  OfSchema(views, schemas[n]));
    }
  }

  lemma {:induction false} GroupAgrees(base: nat, depth: nat, prefix: string, g: Group, objects: seq<Relation>,
                                       parent: Option<nat>)
    ensures forall n | n in GroupNodes(base, depth, prefix, g, objects, parent) :: SchemaAgrees(n)
  {
    hide KeyPart; hide Below;
  }

  lemma {:induction false} BlockAgrees(base: nat, several: bool, schema: Option<string>, tables: seq<Relation>,
                                       views: seq<Relation>)
    ensures forall n | n in SchemaNodes(base, several, schema, tables, views) :: SchemaAgrees(n)
  {
    hide GroupNodes; hide Prefix;
    var head := if several then [SchemaNode(schema, |tables| + |views|)] else [];
    var depth := if several then 1 else 0;
    var parent := if several then Some(base) else None;
    GroupAgrees(base + |head|, depth, Prefix(schema), Tables, tables, parent);
    var first := head + GroupNodes(base + |head|, depth, Prefix(schema), Tables, tables, parent);
    GroupAgrees(base + |first|, depth, Prefix(schema), Views, views, parent);
  }

  lemma {:induction false} RelationSchemas(tables: seq<Relation>, views: seq<Relation>, kinds: seq<string>, r: Relation)
    ensures var nodes := Nodes(tables, views) + CatalogNodes(|Nodes(tables, views)|, kinds);
            forall i | 0 <= i < |nodes| && Names(nodes[i], r) :: nodes[i].schema == r.schema
  {
    hide NodesFor; hide NotViews; hide CountNamed;
    var schemas := Schemas(tables, views);
    SchemasAgree(schemas, CountNamed(schemas) > 1, NotViews(tables, views), views);
    var built := Nodes(tables, views);
    forall i | 0 <= i < |built| ensures SchemaAgrees(built[i]) { assert built[i] in built; }
  }
}
