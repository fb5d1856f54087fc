/**
 Workspace records: the tabs a connection had open, per database, and the normaliser that bounds
 them before they are stored and after they are read back.
 */
module WorkspaceRecords {

  import opened Options
  import opened Utf8

  const MAX_TABS_PER_CONNECTION := 32
  const MAX_OTHER_DATABASES := 16
  const MAX_TABLE_NAME_BYTES := 256
  const MAX_COLLAPSED_GROUPS := 256
  const MAX_COLLAPSED_KEY_BYTES := 600
  const MAX_SCHEMA_NAME_BYTES := 256
  const MAX_HIDDEN_SCHEMAS := 256
  const MAX_FILE_PATH_BYTES := 4096
  const PAGE_SIZE_OPTIONS := {100, 500, 1_000, 5_000, 10_000}
  const DEFAULT_PAGE_SIZE := 1_000
  const U32_MAX := 0xFFFF_FFFF

  type U32 = n: nat | n <= 0xFFFF_FFFF

  datatype TableMode = DataMode | StructureMode

  datatype Tab =
    | Browse(schema: Option<string>, table: string, offset: nat, pageSize: nat, sortCol: Option<nat>,
             sortAsc: Option<bool>)
    | Editor(query: string, draftId: Option<nat>, file: Option<string>)
    | Structure(schema: Option<string>, table: string)
    | Table(schema: Option<string>, table: string, mode: TableMode, offset: nat, pageSize: nat,
            sortCol: Option<nat>, sortAsc: Option<bool>, preview: bool)
    | Unknown

  datatype Workspace = Workspace(
    tabs: seq<Tab>,
    activeIdx: nat,
    collapsedGroups: seq<string>,
    hiddenSchemas: seq<string>,
    database: Option<string>,
    otherDatabases: map<string, Workspace>,
    omittedTabs: U32)

  // ---------- keeping a subsequence of the tabs ----------

  function Retained<T>(xs: seq<T>, keep: seq<bool>): seq<T>
    requires |xs| == |keep|
  {
    if xs == [] then []
    else Retained(xs[..|xs| - 1], keep[..|xs| - 1]) + (if keep[|xs| - 1] then [xs[|xs| - 1]] else [])
  }

  function Kept(keep: seq<bool>): nat {
    if keep == [] then 0 else Kept(keep[..|keep| - 1]) + (if keep[|keep| - 1] then 1 else 0)
  }

  /** Where the selected index goes: the number of kept elements before it, or 0 when it is dropped. */
  function MovedIndex(keep: seq<bool>, selected: nat): nat {
    if selected < |keep| && keep[selected] then Kept(keep[..selected]) else 0
  }

  lemma {:induction false} RetainedLength<T>(xs: seq<T>, keep: seq<bool>)
    requires |xs| == |keep|
    ensures |Retained(xs, keep)| == Kept(keep) <= |xs|
  {
    if xs != [] { RetainedLength(xs[..|xs| - 1], keep[..|xs| - 1]); }
  }

  /** A kept element sits in the result at the number of kept elements before it. */
  lemma {:induction false} RetainedAt<T>(xs: seq<T>, keep: seq<bool>, i: nat)
    requires |xs| == |keep| && i < |xs| && keep[i]
    ensures Kept(keep[..i]) < |Retained(xs, keep)| && Retained(xs, keep)[Kept(keep[..i])] == xs[i]
  {
    var n := |xs| - 1;
    RetainedLength(xs[..n], keep[..n]);
    if i < n {
      RetainedAt(xs[..n], keep[..n], i);
      assert keep[..n][..i] == keep[..i];
    }
  }

  /** Every element of the result was a kept element. */
  lemma {:induction false} RetainedFrom<T>(xs: seq<T>, keep: seq<bool>, x: T)
    requires |xs| == |keep| && x in Retained(xs, keep)
    ensures exists i :: 0 <= i < |xs| && keep[i] && xs[i] == x
  {
    var n := |xs| - 1;
    if x in Retained(xs[..n], keep[..n]) {
      RetainedFrom(xs[..n], keep[..n], x);
      var i :| 0 <= i < n && keep[..n][i] && xs[..n][i] == x;
      assert keep[i] && xs[i] == x;
    } else {
      assert keep[n] && xs[n] == x;
    }
  }

  lemma {:induction false} RetainedAll<T>(xs: seq<T>, keep: seq<bool>)
    requires |xs| == |keep| && forall i | 0 <= i < |keep| :: keep[i]
    ensures Retained(xs, keep) == xs && Kept(keep) == |xs|
  {
    if xs != [] {
      RetainedAll(xs[..|xs| - 1], keep[..|xs| - 1]);
      assert xs == xs[..|xs| - 1] + [xs[|xs| - 1]];
    }
  }

  // ---------- single tabs ----------

  /** Tabs that can still be restored. */
  predicate Known(tab: Tab) {
    match tab
    case Unknown => false
    case Structure(_, table) => table != ""
    case Table(_, table, StructureMode, _, _, _, _, _) => table != ""
    case _ => true
  }

  /** Older record kinds become table tabs. */
  function Migrate(tab: Tab): Tab {
    match tab
    case Browse(schema, table, offset, pageSize, sortCol, sortAsc) =>
      Table(schema, table, DataMode, offset, pageSize, sortCol, sortAsc, false)
    case Structure(schema, table) =>
      Table(schema, table, StructureMode, 0, DEFAULT_PAGE_SIZE, None, None, false)
    case other => other
  }

  predicate RestorableFile(path: string) {
    path != "" && path[0] == '/' && Bytes(path) <= MAX_FILE_PATH_BYTES
  }

  function Normalize(tab: Tab): Tab {
    match tab
    case Editor(query, draftId, file) =>
      if file.Some? && !RestorableFile(file.value) then Editor(query, draftId, None) else tab
    case Table(schema, table, mode, offset, pageSize, sortCol, sortAsc, preview) =>
      Table(if schema.Some? then Some(Truncated(schema.value, MAX_SCHEMA_NAME_BYTES)) else None,
            Truncated(table, MAX_TABLE_NAME_BYTES), mode, offset,
            if pageSize in PAGE_SIZE_OPTIONS then pageSize else DEFAULT_PAGE_SIZE, sortCol, sortAsc, preview)
    case _ => tab
  }

  function Clean(tab: Tab): Tab { Normalize(Migrate(tab)) }

  function CleanAll(tabs: seq<Tab>): (r: seq<Tab>)
    ensures |r| == |tabs| && forall i | 0 <= i < |tabs| :: r[i] == Clean(tabs[i])
  {
    seq(|tabs|, i requires 0 <= i < |tabs| => Clean(tabs[i]))
  }

  /** A cleaned known tab is known, is an editor exactly when it was one, and cleaning it again changes nothing. */
  lemma {:induction false} CleanSettles(tab: Tab)
    requires Known(tab)
    ensures Known(Clean(tab)) && Clean(Clean(tab)) == Clean(tab) && (Clean(tab).Editor? <==> tab.Editor?)
    ensures tab.Editor? ==> Clean(tab).query == tab.query && Clean(tab).draftId == tab.draftId
  {
    var m := Migrate(tab);
    if m.Table? && m.table != "" { TruncatedNotEmpty(m.table, MAX_TABLE_NAME_BYTES); }
  }

  // ---------- the tab limit ----------

  function NonEditors(tabs: seq<Tab>): nat {
    if tabs == [] then 0 else (if tabs[0].Editor? then 0 else 1) + NonEditors(tabs[1..])
  }

  function Surplus(tabs: seq<Tab>): nat {
    if |tabs| > MAX_TABS_PER_CONNECTION then |tabs| - MAX_TABS_PER_CONNECTION else 0
  }

  function KnownMask(tabs: seq<Tab>): (keep: seq<bool>)
    ensures |keep| == |tabs| && forall i | 0 <= i < |tabs| :: keep[i] == Known(tabs[i])
  {
    seq(|tabs|, i requires 0 <= i < |tabs| => Known(tabs[i]))
  }

  /** Over the limit, the last non-editor tabs go: as many as there are tabs too many. */
  function LimitMask(tabs: seq<Tab>): (keep: seq<bool>)
    ensures |keep| == |tabs|
    ensures forall i | 0 <= i < |tabs| :: keep[i] == (tabs[i].Editor? || NonEditors(tabs[i + 1..]) >= Surplus(tabs))
  {
    seq(|tabs|, i requires 0 <= i < |tabs| => tabs[i].Editor? || NonEditors(tabs[i + 1..]) >= Surplus(tabs))
  }

  function Min(a: nat, b: nat): nat { if a < b then a else b }

  function SaturatingAdd(a: U32, n: nat): U32 { Min(a + n, U32_MAX) }

  /** How many of the tabs from `i` on the limit drops. */
  lemma {:induction false} DroppedFrom(tabs: seq<Tab>, i: nat)
    requires i <= |tabs|
    ensures Kept(LimitMask(tabs)[i..]) == |tabs| - i - Min(Surplus(tabs), NonEditors(tabs[i..]))
    decreases |tabs| - i
  {
    if i < |tabs| {
      DroppedFrom(tabs, i + 1);
      assert tabs[i..][1..] == tabs[i + 1..];
      KeptCons(LimitMask(tabs)[i..]);
      assert LimitMask(tabs)[i..][1..] == LimitMask(tabs)[i + 1..];
    }
  }

  lemma {:induction false} KeptCons(keep: seq<bool>)
    requires keep != []
    ensures Kept(keep) == (if keep[0] then 1 else 0) + Kept(keep[1..])
  {
    if |keep| > 1 {
      KeptCons(keep[..|keep| - 1]);
      assert keep[..|keep| - 1][1..] == keep[1..][..|keep| - 2];
    }
  }
}
