/**
 * The catalogue behind SQL completion: precomputed key sets and a narrowing cache that must answer as a
 * scan of the whole catalogue would, and the final list of proposals.
 */
module Completion {

  import opened Options
  import opened Ordering

  datatype Grammar = PostgreSql | MySql | MsSql | Sqlite | ClickHouse

  type Identity(==)

  datatype Reference = Reference(schema: Option<string>, name: string)

  /** The lexer and the Unicode case folding, which this code only calls. */
  datatype Lexicon = Lexicon(
    split: (string, Option<Grammar>) -> Option<Reference>,
    normalized: string -> string)

  /** Names read by the lexer hold no null character. */
  ghost predicate Lawful(lex: Lexicon) {
    forall text, grammar :: lex.split(text, grammar).Some? ==> NullFree(lex.split(text, grammar).value)
  }

  predicate NullFree(r: Reference) { '\0' !in r.name && (r.schema.Some? ==> '\0' !in r.schema.value) }

  // ---------- table keys ----------

  function LowerChar(c: char): char { if 'A' <= c <= 'Z' then c + 32 as char else c }

  function AsciiLower(s: string): (r: string)
    ensures |r| == |s| && forall i | 0 <= i < |s| :: r[i] == LowerChar(s[i])
  {
    seq(|s|, i requires 0 <= i < |s| => LowerChar(s[i]))
  }

  /** The same letter, in whatever case; every other character only itself. */
  ghost predicate SameLetter(a: char, b: char) {
    a == b || exists i | 0 <= i < 26 :: {a, b} == {"ABCDEFGHIJKLMNOPQRSTUVWXYZ"[i], "abcdefghijklmnopqrstuvwxyz"[i]}
  }

  /** Folding forgets the case of ASCII letters and nothing else. */
  lemma {:induction false} LowerFolds(s: string, t: string)
    ensures AsciiLower(s) == AsciiLower(t) <==> |s| == |t| && forall i | 0 <= i < |s| :: SameLetter(s[i], t[i])
  {
    forall a, b ensures LowerChar(a) == LowerChar(b) <==> SameLetter(a, b) { LowerLetter(a, b); }
    hide SameLetter; hide LowerChar;
    if AsciiLower(s) == AsciiLower(t) {
      forall i | 0 <= i < |s| ensures SameLetter(s[i], t[i]) { assert AsciiLower(s)[i] == AsciiLower(t)[i]; }
    }
    if |s| == |t| && forall i | 0 <= i < |s| :: SameLetter(s[i], t[i]) {
      forall i | 0 <= i < |s| ensures AsciiLower(s)[i] == AsciiLower(t)[i] { assert SameLetter(s[i], t[i]); }
      assert AsciiLower(s) == AsciiLower(t);
    }
  }

  lemma {:induction false} LowerLetter(a: char, b: char)
    ensures LowerChar(a) == LowerChar(b) <==> SameLetter(a, b)
  {
    var upper, lower := "ABCDEFGHIJKLMNOPQRSTUVWXYZ", "abcdefghijklmnopqrstuvwxyz";
    assert forall i | 0 <= i < 26 :: upper[i] as int == 65 + i && lower[i] as int == 97 + i;
    if a != b && LowerChar(a) == LowerChar(b) {
      var i := LowerChar(a) as int - 97;
      assert {a, b} == {upper[i], lower[i]};
    }
  }

  function TableKey(lex: Lexicon, text: string, grammar: Option<Grammar>): Option<string> {
    var g := if grammar.Some? then grammar else Some(PostgreSql);
    match lex.split(text, g)
    case None => None
    case Some(Reference(schema, name)) =>
      var fold := (s: string) => if g == Some(PostgreSql) then s else AsciiLower(s);
      Some(if schema.Some? then fold(schema.value) + ['\0'] + fold(name) else fold(name))
  }

  /** What follows the last null character. */
  function BareName(key: string): (r: string)
    ensures '\0' !in r
    ensures '\0' !in key ==> r == key
    ensures exists k | 0 <= k <= |key| :: r == key[k..]
  {
    if key == "" then assert key[0..] == ""; ""
    else
      var r := BareName(key[1..]);
      var k :| 0 <= k <= |key| - 1 && r == key[1..][k..];
      assert r == key[k + 1..];
      if '\0' !in key then assert key[0..] == key; key else r
  }

  /** A table is meant by a key when it has that key, or that bare name if the key has no schema. */
  predicate Meant(lex: Lexicon, table: string, grammar: Option<Grammar>, key: string) {
    match TableKey(lex, table, grammar)
    case None => false
    case Some(known) => known == key || ('\0' !in key && BareName(known) == key)
  }

  /** The linear scan: is any table of the catalogue meant? */
  ghost predicate AnyMeant(lex: Lexicon, tables: seq<string>, grammar: Option<Grammar>, key: string) {
    exists i | 0 <= i < |tables| :: Meant(lex, tables[i], grammar, key)
  }

  function KeysOfTable(lex: Lexicon, table: string, grammar: Option<Grammar>): set<string> {
    match TableKey(lex, table, grammar)
    case None => {}
    case Some(key) => {BareName(key), key}
  }

  function KeySet(lex: Lexicon, tables: seq<string>, grammar: Option<Grammar>): set<string> {
    if tables == [] then {}
    else KeySet(lex, tables[..|tables| - 1], grammar) + KeysOfTable(lex, tables[|tables| - 1], grammar)
  }

  /** Looking a key up in the set is the linear scan. */
  lemma {:induction false} KeySetScans(lex: Lexicon, tables: seq<string>, grammar: Option<Grammar>, key: string)
    ensures key in KeySet(lex, tables, grammar) <==> AnyMeant(lex, tables, grammar, key)
  {
    hide TableKey;
    if tables != [] {
      var n := |tables| - 1;
      KeySetScans(lex, tables[..n], grammar, key);
      assert key in KeysOfTable(lex, tables[n], grammar) <==> Meant(lex, tables[n], grammar, key);
      if AnyMeant(lex, tables, grammar, key) {
        var i :| 0 <= i < |tables| && Meant(lex, tables[i], grammar, key);
        if i < n { assert Meant(lex, tables[..n][i], grammar, key); }
      }
      if AnyMeant(lex, tables[..n], grammar, key) {
        var i :| 0 <= i < n && Meant(lex, tables[..n][i], grammar, key);
        assert Meant(lex, tables[i], grammar, key);
      }
    }
  }

  /** With a schema a table has two names, without one a single name, and its bare name is its own. */
  lemma {:induction false} KeyShape(lex: Lexicon, text: string, grammar: Option<Grammar>)
    requires Lawful(lex)
    ensures match TableKey(lex, text, grammar)
      case None => true
      case Some(key) =>
        var g := if grammar.Some? then grammar else Some(PostgreSql);
        var r := lex.split(text, g).value;
        && ('\0' in key <==> r.schema.Some?)
        && BareName(key) == if g == Some(PostgreSql) then r.name else AsciiLower(r.name)
  {
    var g := if grammar.Some? then grammar else Some(PostgreSql);
    if lex.split(text, g).Some? {
      var r := lex.split(text, g).value;
      assert NullFree(r);
      var name := if g == Some(PostgreSql) then r.name else AsciiLower(r.name);
      LowerKeepsNulls(r.name);
      if r.schema.Some? {
        LowerKeepsNulls(r.schema.value);
        var schema := if g == Some(PostgreSql) then r.schema.value else AsciiLower(r.schema.value);
        BareAfterNull(schema, name);
        assert (schema + ['\0'] + name)[|schema|] == '\0';
      }
    }
  }

  /** What a reference names, folded as its key is. */
  function Folded(lex: Lexicon, text: string, grammar: Option<Grammar>): Option<Reference> {
    var g := if grammar.Some? then grammar else Some(PostgreSql);
    match lex.split(text, g)
    case None => None
    case Some(r) =>
      if g == Some(PostgreSql) then Some(r)
      else Some(Reference(if r.schema.Some? then Some(AsciiLower(r.schema.value)) else None, AsciiLower(r.name)))
  }

  /**
   * Comparing keys is comparing references: a table is meant by a reference when the names agree and the
   * reference leaves the schema open or names the same one.
   */
  lemma {:induction false} KeysCompareReferences(lex: Lexicon, text: string, table: string, grammar: Option<Grammar>)
    requires Lawful(lex) && TableKey(lex, text, grammar).Some? && TableKey(lex, table, grammar).Some?
    ensures Folded(lex, text, grammar).Some? && Folded(lex, table, grammar).Some?
    ensures var wanted, known := Folded(lex, text, grammar).value, Folded(lex, table, grammar).value;
      Meant(lex, table, grammar, TableKey(lex, text, grammar).value)
      <==> known.name == wanted.name && (wanted.schema.None? || known.schema == wanted.schema)
  {
    hide BareName;
    KeyShape(lex, text, grammar);
    KeyShape(lex, table, grammar);
    var wanted, known := Folded(lex, text, grammar).value, Folded(lex, table, grammar).value;
    var key, other := TableKey(lex, text, grammar).value, TableKey(lex, table, grammar).value;
    assert key == if wanted.schema.Some? then wanted.schema.value + ['\0'] + wanted.name else wanted.name;
    assert other == if known.schema.Some? then known.schema.value + ['\0'] + known.name else known.name;
    if wanted.schema.Some? && known.schema.Some? && wanted.name == known.name {
      assert key == other <==> wanted.schema == known.schema by {
        if key == other { SameStart(wanted.schema.value, known.schema.value, wanted.name); }
      }
    }
  }

  lemma {:induction false} SameStart(a: string, b: string, name: string)
    requires a + ['\0'] + name == b + ['\0'] + name
    ensures a == b
  {
    assert |a| == |b|;
    assert a == (a + ['\0'] + name)[..|a|] && b == (b + ['\0'] + name)[..|b|];
  }

  lemma {:induction false} LowerKeepsNulls(s: string)
    ensures '\0' in AsciiLower(s) ==> '\0' in s
  {
    if '\0' in AsciiLower(s) {
      var i :| 0 <= i < |s| && AsciiLower(s)[i] == '\0';
      assert s[i] == '\0';
    }
  }

  lemma {:induction false} BareAfterNull(schema: string, name: string)
    requires '\0' !in name
    ensures BareName(schema + ['\0'] + name) == name
  {
    var key := schema + ['\0'] + name;
    assert key[|schema|] == '\0';
    if schema == "" {
      assert key[1..] == name;
    } else {
      assert key[1..] == schema[1..] + ['\0'] + name;
      BareAfterNull(schema[1..], name);
    }
  }

  // ---------- narrowing ----------

  datatype FilterKey = FilterKey(full: string, unqualified: Option<string>)
  datatype FilterKeys = FilterKeys(grammar: Option<Grammar>, entries: seq<FilterKey>)

  function KeyFor(lex: Lexicon, table: string, grammar: Option<Grammar>): FilterKey {
    FilterKey(lex.normalized(table),
              match lex.split(table, grammar) case None => None case Some(r) => Some(lex.normalized(r.name)))
  }

  function Entries(lex: Lexicon, tables: seq<string>, grammar: Option<Grammar>): (r: seq<FilterKey>)
    ensures |r| == |tables| && forall i | 0 <= i < |tables| :: r[i] == KeyFor(lex, tables[i], grammar)
  {
    seq(|tables|, i requires 0 <= i < |tables| => KeyFor(lex, tables[i], grammar))
  }

  predicate KeyStarts(key: FilterKey, prefix: string) {
    prefix <= key.full || (key.unqualified.Some? && prefix <= key.unqualified.value)
  }

  /** Whether a proposal goes with what is typed: from its start, or from the start of its unqualified name. */
  predicate Fits(lex: Lexicon, grammar: Option<Grammar>, prefix: string, value: string) {
    || prefix <= lex.normalized(value)
    || (lex.split(value, grammar).Some? && prefix <= lex.normalized(lex.split(value, grammar).value.name))
  }

  function Fitting(lex: Lexicon, grammar: Option<Grammar>, prefix: string, values: seq<string>): seq<string> {
    if values == [] then []
    else
      var before := Fitting(lex, grammar, prefix, values[..|values| - 1]);
      var last := values[|values| - 1];
      if Fits(lex, grammar, prefix, last) then before + [last] else before
  }

  // ---------- the index ----------

  datatype Request = Request(generation: nat, table: string)

  /** The columns stored under a bare name when exactly one known table has it. */
  ghost function ColumnsFor(lex: Lexicon, columns: map<string, seq<string>>, grammar: Option<Grammar>,
                            table: string): Option<seq<string>> {
    match TableKey(lex, table, grammar)
    case None => None
    case Some(key) =>
      if key in columns then Some(columns[key])
      else if '\0' in key then None
      else OnlyMatch(columns, key)
  }

  ghost function OnlyMatch(columns: map<string, seq<string>>, key: string): Option<seq<string>> {
    if exists known :: UniqueMatch(columns, key, known) then
      var known :| UniqueMatch(columns, key, known);
      Some(columns[known])
    else None
  }

  ghost predicate UniqueMatch(columns: map<string, seq<string>>, key: string, known: string) {
    && known in columns && BareName(known) == key
    && forall other | other in columns && BareName(other) == key :: other == known
  }

  // ---------- proposals ----------

  datatype Scope = Tables | ColumnsOf(table: string) | TablesAndColumns(tables: seq<string>)

  ghost function ColumnSet(lex: Lexicon, columns: map<string, seq<string>>, grammar: Option<Grammar>, table: string,
                           sql: string -> string): set<string> {
    match ColumnsFor(lex, columns, grammar, table)
    case None => {}
    case Some(names) => set x | x in Mapped(sql, names)
  }

  ghost function ListedColumns(lex: Lexicon, columns: map<string, seq<string>>, grammar: Option<Grammar>,
                               tables: seq<string>, sql: string -> string): set<string> {
    if tables == [] then {}
    else
      var n := |tables| - 1;
      ListedColumns(lex, columns, grammar, tables[..n], sql) + ColumnSet(lex, columns, grammar, tables[n], sql)
  }

  ghost function EveryColumn(columns: map<string, seq<string>>, sql: string -> string): set<string> {
    set key, x | key in columns && x in Mapped(sql, columns[key]) :: x
  }

  /** Everything that could be proposed in a scope, before anything is typed. */
  ghost function Available(
    lex: Lexicon, columns: map<string, seq<string>>, grammar: Option<Grammar>, tables: seq<string>,
    scope: Scope, sql: string -> string): set<string>
  {
    match scope
    case ColumnsOf(table) => ColumnSet(lex, columns, grammar, table, sql)
    case Tables => set x | x in tables
    case TablesAndColumns(list) =>
      (if list == [] then EveryColumn(columns, sql) else ListedColumns(lex, columns, grammar, list, sql))
        + (set x | x in tables)
  }

  /** The plain definition: list everything in order, add the keywords, keep what fits. */
  ghost function Proposed(lex: Lexicon, grammar: Option<Grammar>, prefix: string, available: set<string>,
                          keywords: seq<string>): seq<string> {
    TextStrictTotal();
    Fitting(lex, grammar, prefix, SortedListing(TextLess, available) + keywords)
  }

  lemma {:induction false} FittingAll(lex: Lexicon, grammar: Option<Grammar>, prefix: string, values: seq<string>)
    ensures forall x :: x in Fitting(lex, grammar, prefix, values) <==> x in values && Fits(lex, grammar, prefix, x)
    ensures StrictlySorted(TextLess, values) ==> StrictlySorted(TextLess, Fitting(lex, grammar, prefix, values))
  {
    hide Fits; hide TextLess;
    if values != [] {
      var n := |values| - 1;
      FittingAll(lex, grammar, prefix, values[..n]);
      assert values == values[..n] + [values[n]];
      var before := Fitting(lex, grammar, prefix, values[..n]);
      if StrictlySorted(TextLess, values) {
        assert StrictlySorted(TextLess, values[..n]);
        forall i | 0 <= i < |before| ensures TextLess(before[i], values[n]) {
          assert before[i] in before;
          var k :| 0 <= k < n && values[k] == before[i];
        }
      }
    }
  }

  lemma {:induction false} FittingJoin(lex: Lexicon, grammar: Option<Grammar>, prefix: string, a: seq<string>,
                                       b: seq<string>)
    ensures Fitting(lex, grammar, prefix, a + b) == Fitting(lex, grammar, prefix, a) + Fitting(lex, grammar, prefix, b)
  {
    hide Fits;
    if b == [] {
      assert a + b == a;
    } else {
      var n := |b| - 1;
      assert (a + b)[..|a| + n] == a + b[..n];
      FittingJoin(lex, grammar, prefix, a, b[..n]);
    }
  }

  /** Values that do not fit may be left out before sorting: the proposals are the same. */
  lemma {:induction false} NarrowingIsHarmless(
    lex: Lexicon, grammar: Option<Grammar>, prefix: string, out: seq<string>, available: set<string>,
    keywords: seq<string>)
    requires forall x | Fits(lex, grammar, prefix, x) :: x in out <==> x in available
    ensures Fitting(lex, grammar, prefix, Dedup(Sort(TextLess, out)) + keywords) ==
            Proposed(lex, grammar, prefix, available, keywords)
  {
    hide Fits; hide TextLess; hide Sort; hide Dedup;
    TextStrictTotal();
    SortedSet(TextLess, out);
    var narrow, whole := Dedup(Sort(TextLess, out)), SortedListing(TextLess, available);
    FittingAll(lex, grammar, prefix, narrow);
    FittingAll(lex, grammar, prefix, whole);
    StrictlySortedUnique(TextLess, Fitting(lex, grammar, prefix, narrow), Fitting(lex, grammar, prefix, whole));
    FittingJoin(lex, grammar, prefix, narrow, keywords);
    FittingJoin(lex, grammar, prefix, whole, keywords);
  }

  // ---------- loops of the index ----------

  method BuildKeys(lex: Lexicon, tables: seq<string>, grammar: Option<Grammar>) returns (keys: set<string>)
    ensures keys == KeySet(lex, tables, grammar)
  {
    hide TableKey; hide BareName;
    keys := {};
    for i := 0 to |tables|
      invariant keys == KeySet(lex, tables[..i], grammar)
    {
      assert tables[..i + 1][..i] == tables[..i];
      var key := TableKey(lex, tables[i], grammar);
      if key.Some? {
        keys := keys + {BareName(key.value)};
        keys := keys + {key.value};
      }
    }
    assert tables[..|tables|] == tables;
  }

  method ScanTables(lex: Lexicon, tables: seq<string>, grammar: Option<Grammar>, key: string) returns (r: bool)
    ensures r == AnyMeant(lex, tables, grammar, key)
  {
    hide Meant;
    r := false;
    for i := 0 to |tables|
      invariant r <==> exists j | 0 <= j < i :: Meant(lex, tables[j], grammar, key)
    {
      if Meant(lex, tables[i], grammar, key) { return true; }
    }
  }

  method NarrowByKeys(lex: Lexicon, grammar: Option<Grammar>, tables: seq<string>, entries: seq<FilterKey>,
                      prefix: string) returns (r: seq<string>)
    requires entries == Entries(lex, tables, grammar)
    ensures r == Fitting(lex, grammar, prefix, tables)
  {
    r := [];
    for i := 0 to |tables|
      invariant r == Fitting(lex, grammar, prefix, tables[..i])
    {
      assert tables[..i + 1][..i] == tables[..i];
      assert entries[i] == KeyFor(lex, tables[i], grammar);
      if KeyStarts(entries[i], prefix) { r := r + [tables[i]]; }
    }
    assert tables[..|tables|] == tables;
  }

  /** The first match in the map's own order, if there is no second. */
  method FindOnly(columns: map<string, seq<string>>, key: string) returns (r: Option<seq<string>>)
    ensures r == OnlyMatch(columns, key)
  {
    hide BareName;
    var rest := columns.Keys;
    var first: Option<string> := None;
    while rest != {}
      invariant rest <= columns.Keys
      invariant first.None? ==> forall k | k in columns && k !in rest :: BareName(k) != key
      invariant first.Some? ==> first.value in columns && first.value !in rest && BareName(first.value) == key
      invariant first.Some? ==> forall k | k in columns && k !in rest && BareName(k) == key :: k == first.value
      decreases |rest|
    {
      var k :| k in rest;
      rest := rest - {k};
      if BareName(k) == key {
        if first.Some? {
          assert forall known :: !UniqueMatch(columns, key, known);
          return None;
        }
        first := Some(k);
      }
    }
    if first.None? { return None; }
    assert UniqueMatch(columns, key, first.value);
    r := Some(columns[first.value]);
  }

  /** Every stored column, in the map's own order. */
  method AllColumns(columns: map<string, seq<string>>, sql: string -> string) returns (out: seq<string>)
    ensures forall x :: x in out <==> x in EveryColumn(columns, sql)
  {
    out := [];
    var rest := columns.Keys;
    while rest != {}
      invariant rest <= columns.Keys
      invariant forall x :: x in out <==> exists k | k in columns && k !in rest :: x in Mapped(sql, columns[k])
      decreases |rest|
    {
      var k :| k in rest;
      rest := rest - {k};
      out := out + Mapped(sql, columns[k]);
    }
  }

  ghost function RequestKeys(lex: Lexicon, grammar: Option<Grammar>, requests: seq<Request>): set<string> {
    set i | 0 <= i < |requests| && TableKey(lex, requests[i].table, grammar).Some? ::
      TableKey(lex, requests[i].table, grammar).value
  }

  lemma {:induction false} MoreRequestKeys(lex: Lexicon, grammar: Option<Grammar>, requests: seq<Request>,
                                           request: Request)
    requires TableKey(lex, request.table, grammar).Some?
    ensures RequestKeys(lex, grammar, requests + [request])
         == RequestKeys(lex, grammar, requests) + {TableKey(lex, request.table, grammar).value}
  {
    hide TableKey;
    var more := requests + [request];
    assert more[|requests|] == request;
    forall i | 0 <= i < |requests| ensures more[i] == requests[i] {}
    forall key | key in RequestKeys(lex, grammar, requests) ensures key in RequestKeys(lex, grammar, more) {
      var i :| 0 <= i < |requests| && TableKey(lex, requests[i].table, grammar) == Some(key);
      assert more[i] == requests[i];
    }
  }

  /** A readable reference to some known table whose columns are not known. */
  ghost predicate Needed(lex: Lexicon, columns: map<string, seq<string>>, grammar: Option<Grammar>,
                         tables: seq<string>, table: string) {
    var key := TableKey(lex, table, grammar);
    key.Some? && ColumnsFor(lex, columns, grammar, table).None? && AnyMeant(lex, tables, grammar, key.value)
  }

  class SchemaIndex {
    const lex: Lexicon
    var tables: seq<string>
    var tableKeys: set<string>
    var tableGrammar: Option<Grammar>
    var filterKeys: Option<FilterKeys>
    var columns: map<string, seq<string>>
    var grammar: Option<Grammar>
    var connection: Option<Identity>
    var generation: nat
    var pending: set<string>

    /** The precomputed keys and the cache belong to the tables; neither depends on the grammar now set. */
    ghost predicate Valid()
      reads this
    {
      && Lawful(lex)
      && tableKeys == KeySet(lex, tables, tableGrammar)
      && (filterKeys.Some? ==> filterKeys.value.entries == Entries(lex, tables, filterKeys.value.grammar))
    }

    constructor (lex: Lexicon)
      requires Lawful(lex)
      ensures Valid() && tables == [] && columns == map[] && pending == {} && this.lex == lex
    {
      this.lex := lex;
      tables, tableKeys, tableGrammar, filterKeys := [], {}, None, None;
      columns, grammar, connection, generation, pending := map[], None, None, 0, {};
    }

    method SetGrammar(g: Option<Grammar>)
      requires Valid()
      modifies this`grammar
      ensures Valid() && grammar == g
    {
      grammar := g;
    }

    method SetTables(catalogue: seq<string>)
      requires Valid()
      modifies this`tables, this`tableKeys, this`tableGrammar, this`filterKeys
      ensures Valid() && tables == catalogue && tableGrammar == grammar
    {
      tableGrammar := grammar;
      tableKeys := BuildKeys(lex, catalogue, grammar);
      tables := catalogue;
      filterKeys := None;
    }

    method RetireColumns()
      requires Valid()
      modifies this`generation, this`columns, this`pending
      ensures Valid() && generation == old(generation) + 1 && columns == map[] && pending == {}
    {
      generation := generation + 1;
      columns := map[];
      pending := {};
    }

    method RefreshCatalogue(g: Option<Grammar>, c: Option<Identity>, catalogue: seq<string>)
      requires Valid()
      modifies this
      ensures Valid() && tables == catalogue && grammar == g == tableGrammar && connection == c
      ensures generation == old(generation) + 1 && columns == map[] && pending == {}
    {
      grammar := g;
      connection := c;
      SetTables(catalogue);
      RetireColumns();
    }

    method Clear()
      requires Valid()
      modifies this
      ensures Valid() && tables == [] && grammar == None && connection == None
      ensures generation == old(generation) + 1 && columns == map[] && pending == {}
    {
      tables, tableKeys, filterKeys := [], {}, None;
      grammar, connection := None, None;
      RetireColumns();
    }

    method SyncConnection(c: Identity) returns (changed: bool)
      requires Valid()
      modifies this
      ensures Valid() && changed == (old(connection) != Some(c)) && connection == Some(c) && grammar == old(grammar)
      ensures changed ==> tables == [] && columns == map[] && pending == {} && generation == old(generation) + 1
      ensures !changed ==> unchanged(this)
    {
      if connection == Some(c) { return false; }
      connection := Some(c);
      tables, tableKeys, filterKeys := [], {}, None;
      RetireColumns();
      changed := true;
    }

    /** The narrowed tables are the catalogue filtered anew, whatever the cache held. */
    method TablesMatching(prefix: Option<string>) returns (r: seq<string>)
      requires Valid()
      modifies this`filterKeys
      ensures Valid()
      ensures r == if prefix.None? then tables else Fitting(lex, grammar, prefix.value, tables)
    {
      if prefix.None? { return tables; }
      if filterKeys.Some? && filterKeys.value.grammar != grammar { filterKeys := None; }
      if filterKeys.None? { filterKeys := Some(FilterKeys(grammar, Entries(lex, tables, grammar))); }
      r := NarrowByKeys(lex, grammar, tables, filterKeys.value.entries, prefix.value);
    }

    method KnownColumns(table: string) returns (r: Option<seq<string>>)
      ensures r == ColumnsFor(lex, columns, grammar, table)
    {
      var key := TableKey(lex, table, grammar);
      if key.None? { return None; }
      if key.value in columns { return Some(columns[key.value]); }
      if '\0' in key.value { return None; }
      r := FindOnly(columns, key.value);
    }

    /** The key set answers as the scan of all tables would. */
    method NeedsColumns(table: string) returns (r: bool)
      requires Valid()
      ensures r <==> Needed(lex, columns, grammar, tables, table)
    {
      hide TableKey; hide BareName; hide ColumnsFor; hide KeySet; hide Entries; hide Meant; hide AnyMeant;
      var key := TableKey(lex, table, grammar);
      if key.None? { return false; }
      var known := KnownColumns(table);
      if known.Some? { return false; }
      if tableGrammar == grammar {
        KeySetScans(lex, tables, grammar, key.value);
        return key.value in tableKeys;
      }
      r := ScanTables(lex, tables, grammar, key.value);
    }

    /** Asks for each needed table once, never for one already being fetched; then every needed one is being fetched. */
    method RequestMissing(wanted: seq<string>) returns (requests: seq<Request>)
      requires Valid()
      modifies this`pending
      ensures Valid()
      ensures pending == old(pending) + RequestKeys(lex, grammar, requests)
      ensures forall i | 0 <= i < |requests| ::
                requests[i].generation == generation && TableKey(lex, requests[i].table, grammar).Some?
                && TableKey(lex, requests[i].table, grammar).value !in old(pending)
                && requests[i].table in wanted && Needed(lex, columns, grammar, tables, requests[i].table)
      ensures forall table | table in wanted && Needed(lex, columns, grammar, tables, table) ::
                TableKey(lex, table, grammar).Some? && TableKey(lex, table, grammar).value in pending
      ensures forall i, j | 0 <= i < j < |requests| ::
                TableKey(lex, requests[i].table, grammar) != TableKey(lex, requests[j].table, grammar)
    {
      hide TableKey; hide ColumnsFor; hide KeySet; hide Entries;
      requests := [];
      for i := 0 to |wanted|
        invariant Valid() && pending == old(pending) + RequestKeys(lex, grammar, requests)
        invariant forall k | 0 <= k < |requests| ::
                    requests[k].generation == generation && TableKey(lex, requests[k].table, grammar).Some?
                    && TableKey(lex, requests[k].table, grammar).value in pending
                    && TableKey(lex, requests[k].table, grammar).value !in old(pending)
                    && requests[k].table in wanted && Needed(lex, columns, grammar, tables, requests[k].table)
        invariant forall k | 0 <= k < i && Needed(lex, columns, grammar, tables, wanted[k]) ::
                    TableKey(lex, wanted[k], grammar).Some? && TableKey(lex, wanted[k], grammar).value in pending
        invariant forall k, j | 0 <= k < j < |requests| ::
                    TableKey(lex, requests[k].table, grammar) != TableKey(lex, requests[j].table, grammar)
      {
        var needed := NeedsColumns(wanted[i]);
        var key := TableKey(lex, wanted[i], grammar);
        if needed && key.Some? && key.value !in pending {
          pending := pending + {key.value};
          MoreRequestKeys(lex, grammar, requests, Request(generation, wanted[i]));
          requests := requests + [Request(generation, wanted[i])];
        }
      }
    }

    /**
     An answer is used exactly when its request is of this generation and still awaited; then it is
     awaited no more.
     */
    method Complete(request: Request, answer: Option<seq<string>>) returns (used: bool)
      requires Valid()
      modifies this`columns, this`pending
      ensures Valid()
      ensures var key := TableKey(lex, request.table, grammar);
        && used == (request.generation == generation && key.Some? && key.value in old(pending))
        && pending == (if used then old(pending) - {key.value} else old(pending))
        && columns == if used && answer.Some? then old(columns)[key.value := answer.value] else old(columns)
    {
      var key := TableKey(lex, request.table, grammar);
      if request.generation != generation || key.None? || key.value !in pending { return false; }
      if answer.Some? { columns := columns[key.value := answer.value]; }
      pending := pending - {key.value};
      used := true;
    }

    /** The columns of each listed table that has any. */
    method ColumnsOfListed(list: seq<string>, columnSql: string -> string) returns (out: seq<string>)
      ensures forall x :: x in out <==> x in ListedColumns(lex, columns, grammar, list, columnSql)
    {
      hide ColumnsFor;
      out := [];
      for i := 0 to |list|
        invariant forall x :: x in out <==> x in ListedColumns(lex, columns, grammar, list[..i], columnSql)
      {
        assert list[..i + 1][..i] == list[..i];
        var known := KnownColumns(list[i]);
        if known.Some? { out := out + Mapped(columnSql, known.value); }
      }
      assert list[..|list|] == list;
    }

    /** At least everything that fits, and nothing that is not available. */
    method Gather(scope: Scope, columnSql: string -> string, prefix: string) returns (out: seq<string>)
      requires Valid()
      modifies this`filterKeys
      ensures Valid()
      ensures forall x | Fits(lex, grammar, prefix, x) :: x in out <==>
                x in Available(lex, columns, grammar, tables, scope, columnSql)
    {
      hide ColumnsFor; hide Fits; hide KeySet; hide Entries; hide Fitting; hide ListedColumns;
      FittingAll(lex, grammar, prefix, tables);
      match scope {
        case ColumnsOf(table) =>
          out := [];
          var known := KnownColumns(table);
          if known.Some? { out := Mapped(columnSql, known.value); }
        case Tables => out := TablesMatching(Some(prefix));
        case TablesAndColumns(list) =>
          if list == [] { out := AllColumns(columns, columnSql); } else { out := ColumnsOfListed(list, columnSql); }
          var narrowed := TablesMatching(Some(prefix));
          out := out + narrowed;
      }
    }

    /**
     * The proposals for a scope: sorted, without repeats, then the keywords, then only what fits. Narrowing
     * the tables first, or reading the stored columns in another order, changes nothing.
     */
    method Proposals(scope: Scope, columnSql: string -> string, prefix: string, keywords: seq<string>)
      returns (r: seq<string>)
      requires Valid()
      modifies this`filterKeys
      ensures Valid()
      ensures r == Proposed(lex, grammar, prefix, Available(lex, columns, grammar, tables, scope, columnSql), keywords)
    {
      hide Fits; hide KeySet; hide Entries; hide Fitting; hide Available; hide Proposed; hide Sort; hide Dedup;
      var out := Gather(scope, columnSql, prefix);
      NarrowingIsHarmless(lex, grammar, prefix, out, Available(lex, columns, grammar, tables, scope, columnSql),
                          keywords);
      r := Fitting(lex, grammar, prefix, Dedup(Sort(TextLess, out)) + keywords);
    }
  }
}
