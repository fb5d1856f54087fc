/**
 What the normaliser does to a record, said without its code: which tabs, names, groups and schemas come
 out for what goes in, and that a record is left as it is exactly when it is within all limits.
 */
module WorkspaceLimits {

  import opened Options
  import opened Ordering
  import opened Utf8
  import opened WorkspaceRecords
  import opened WorkspaceClamp

  // ---------- one tab ----------

  /** The longest prefix of whole characters that fits. */
  ghost predicate Longest(s: string, limit: nat, t: string) {
    t <= s && Bytes(t) <= limit && forall k | 0 <= k <= |s| && Bytes(s[..k]) <= limit :: k <= |t|
  }

  ghost predicate LongestSchema(s: Option<string>, t: Option<string>) {
    (s.None? <==> t.None?) && (s.Some? ==> Longest(s.value, 256, t.value))
  }

  predicate Absolute(path: string) { |path| > 0 && path[0] == '/' }

  /** A page size out of the five that are offered becomes a thousand. */
  predicate PageSize(before: nat, after: nat) {
    if before in [100, 500, 1000, 5000, 10000] then after == before else after == 1000
  }

  /** What a tab becomes. */
  ghost predicate Tidied(before: Tab, after: Tab) {
    match before
    case Editor(query, draftId, file) =>
      && after.Editor? && after.query == query && after.draftId == draftId
      && after.file == if file.Some? && Absolute(file.value) && Bytes(file.value) <= 4096 then file else None
    case Browse(schema, table, offset, pageSize, sortCol, sortAsc) =>
      && after.Table? && after.mode == DataMode && after.offset == offset && PageSize(pageSize, after.pageSize)
      && after.sortCol == sortCol && after.sortAsc == sortAsc && !after.preview
      && LongestSchema(schema, after.schema) && Longest(table, 256, after.table)
    case Structure(schema, table) =>
      && after.Table? && after.mode == StructureMode && after.offset == 0 && after.pageSize == 1000
      && after.sortCol == None && after.sortAsc == None && !after.preview
      && LongestSchema(schema, after.schema) && Longest(table, 256, after.table)
    case Table(schema, table, mode, offset, pageSize, sortCol, sortAsc, preview) =>
      && after.Table? && after.mode == mode && after.offset == offset && PageSize(pageSize, after.pageSize)
      && after.sortCol == sortCol && after.sortAsc == sortAsc && after.preview == preview
      && LongestSchema(schema, after.schema) && Longest(table, 256, after.table)
    case Unknown => after == Unknown
  }

  lemma {:induction false} TruncatedLongest(s: string, limit: nat)
    ensures Longest(s, limit, Truncated(s, limit))
  {
    forall k | 0 <= k <= |s| && Bytes(s[..k]) <= limit ensures k <= |Truncated(s, limit)| {
      TruncatedIsLongest(s, limit, k);
    }
  }

  lemma {:induction false} CleanTidies(tab: Tab)
    ensures Tidied(tab, Clean(tab))
  {
    hide Longest; hide Truncated;
    match tab {
      case Editor(_, _, _) =>
      case Unknown =>
      case _ =>
        TruncatedLongest(tab.table, 256);
        if tab.schema.Some? { TruncatedLongest(tab.schema.value, 256); }
    }
  }

  /** A tab that can be restored as it is. */
  predicate TabFits(tab: Tab) {
    match tab
    case Editor(_, _, file) => file.Some? ==> Absolute(file.value) && Bytes(file.value) <= 4096
    case Table(schema, table, mode, _, pageSize, _, _, _) =>
      && (mode == StructureMode ==> table != "")
      && Bytes(table) <= 256 && (schema.Some? ==> Bytes(schema.value) <= 256)
      && pageSize in [100, 500, 1000, 5000, 10000]
    case _ => false
  }

  /** A tab is kept unchanged exactly when it fits. */
  lemma {:induction false} CleanFixes(tab: Tab)
    ensures Known(tab) && Clean(tab) == tab <==> TabFits(tab)
  {}

  // ---------- groups and schemas ----------

  /** How many of the first `n` keys are short. */
  function ShortBefore(keys: seq<string>, n: nat): nat
    requires n <= |keys|
  {
    if n == 0 then 0 else ShortBefore(keys, n - 1) + (if Bytes(keys[n - 1]) <= 600 then 1 else 0)
  }

  /** A collapsed group stays when its key is short and fewer than 256 short ones come before it. */
  function GroupMask(keys: seq<string>): (keep: seq<bool>)
    ensures |keep| == |keys|
    ensures forall i | 0 <= i < |keys| :: keep[i] == (Bytes(keys[i]) <= 600 && ShortBefore(keys, i) < 256)
  {
    seq(|keys|, i requires 0 <= i < |keys| => Bytes(keys[i]) <= 600 && ShortBefore(keys, i) < 256)
  }

  lemma {:induction false} ShortBeforePrefix(keys: seq<string>, m: nat, n: nat)
    requires n <= m <= |keys|
    ensures ShortBefore(keys[..m], n) == ShortBefore(keys, n)
  {
    if n > 0 { ShortBeforePrefix(keys, m, n - 1); }
  }

  lemma {:induction false} ShortCounted(keys: seq<string>)
    ensures |ShortKeys(keys)| == ShortBefore(keys, |keys|)
  {
    if keys != [] {
      var n := |keys| - 1;
      ShortCounted(keys[..n]);
      ShortBeforePrefix(keys, n, n);
    }
  }

  /** The first 256 short keys survive, in their order. */
  lemma {:induction false} GroupsAreFirst(keys: seq<string>)
    ensures ClampedGroups(keys) == Retained(keys, GroupMask(keys))
  {
    if keys != [] {
      var n := |keys| - 1;
      var init := keys[..n];
      GroupsAreFirst(init);
      ShortCounted(init);
      ShortBeforePrefix(keys, n, n);
      forall i | 0 <= i < n ensures GroupMask(keys)[i] == GroupMask(init)[i] { ShortBeforePrefix(keys, n, i); }
      assert GroupMask(keys)[..n] == GroupMask(init);
    }
  }

  function BelowIn(name: string, names: seq<string>): set<string> {
    set n | n in names && n != "" && Bytes(n) <= 256 && TextLess(n, name)
  }

  lemma {:induction false} StorableIn(names: seq<string>)
    ensures forall n :: n in StorableSchemas(names) <==> n in names && n != "" && Bytes(n) <= 256
  {
    if names != [] {
      StorableIn(names[..|names| - 1]);
      assert names == names[..|names| - 1] + [names[|names| - 1]];
    }
  }

  function Elements(names: seq<string>): set<string> { set n | n in names }

  lemma {:induction false} SortedSize(sorted: seq<string>)
    requires StrictTotal(TextLess) && StrictlySorted(TextLess, sorted)
    ensures |Elements(sorted)| == |sorted|
  {
    hide TextLess;
    if sorted != [] {
      var n := |sorted| - 1;
      SortedSize(sorted[..n]);
      assert sorted == sorted[..n] + [sorted[n]];
      assert Elements(sorted) == Elements(sorted[..n]) + {sorted[n]};
      assert sorted[n] !in sorted[..n];
    }
  }

  lemma {:induction false} LessCounted(sorted: seq<string>, i: nat)
    requires StrictTotal(TextLess) && StrictlySorted(TextLess, sorted) && i < |sorted|
    ensures (set n | n in sorted && TextLess(n, sorted[i])) == Elements(sorted[..i])
    ensures |Elements(sorted[..i])| == i
  {
    hide TextLess;
    forall n | n in sorted ensures TextLess(n, sorted[i]) <==> n in sorted[..i] {
      var k :| 0 <= k < |sorted| && sorted[k] == n;
      if k < i { assert sorted[..i][k] == n; }
      if n in sorted[..i] { var m :| 0 <= m < i && sorted[..i][m] == n; assert TextLess(sorted[m], sorted[i]); }
    }
    SortedSize(sorted[..i]);
  }

  /** The least 256 distinct storable names survive, strictly sorted. */
  lemma {:induction false} SchemasAreLeast(names: seq<string>, name: string)
    ensures StrictlySorted(TextLess, ClampedSchemas(names))
    ensures name in ClampedSchemas(names) <==>
              name in names && name != "" && Bytes(name) <= 256 && |BelowIn(name, names)| < 256
  {
    TextStrictTotal();
    SchemasSettle(names);
    StorableIn(names);
    SortedSet(TextLess, StorableSchemas(names));
    hide TextLess; hide StorableSchemas; hide Sort; hide Dedup;
    var sorted := Dedup(Sort(TextLess, StorableSchemas(names)));
    assert forall n :: n in sorted <==> n in names && n != "" && Bytes(n) <= 256;
    if name in sorted {
      var i :| 0 <= i < |sorted| && sorted[i] == name;
      LessCounted(sorted, i);
      assert BelowIn(name, names) == set n | n in sorted && TextLess(n, sorted[i]);
      if i < 256 { assert ClampedSchemas(names)[i] == name; }
    }
  }

  // ---------- what is left alone ----------

  /** The record's own part is within its limits. */
  ghost predicate OwnFits(w: Workspace) {
    && (forall i | 0 <= i < |w.tabs| :: TabFits(w.tabs[i]))
    && (|w.tabs| <= 32 || forall i | 0 <= i < |w.tabs| :: w.tabs[i].Editor?)
    && (w.activeIdx < |w.tabs| || w.activeIdx == 0)
    && |w.collapsedGroups| <= 256 && (forall i | 0 <= i < |w.collapsedGroups| :: Bytes(w.collapsedGroups[i]) <= 600)
    && |w.hiddenSchemas| <= 256 && StrictlySorted(TextLess, w.hiddenSchemas)
    && (forall i | 0 <= i < |w.hiddenSchemas| :: w.hiddenSchemas[i] != "" && Bytes(w.hiddenSchemas[i]) <= 256)
  }

  lemma {:induction false} TabsFixed(tabs: seq<Tab>, active: nat)
    ensures ClampedTabs(tabs) == tabs && ClampedActive(tabs, active) == active <==>
              && (forall i | 0 <= i < |tabs| :: TabFits(tabs[i]))
              && (|tabs| <= 32 || forall i | 0 <= i < |tabs| :: tabs[i].Editor?)
              && (active < |tabs| || active == 0)
    ensures ClampedTabs(tabs) == tabs ==> OverLimit(tabs) == 0
  {
    ClampedTabsClean(tabs);
    if ClampedTabs(tabs) == tabs {
      forall i | 0 <= i < |tabs| ensures TabFits(tabs[i]) { CleanFixes(tabs[i]); }
      TabsSettle(tabs, active);
    }
    if
      && (forall i | 0 <= i < |tabs| :: TabFits(tabs[i]))
      && (|tabs| <= 32 || forall i | 0 <= i < |tabs| :: tabs[i].Editor?)
    {
      forall i | 0 <= i < |tabs| ensures Known(tabs[i]) && Clean(tabs[i]) == tabs[i] { CleanFixes(tabs[i]); }
      RetainedAll(tabs, KnownMask(tabs));
      LimitKeepsAll(tabs);
      assert CleanAll(tabs) == tabs;
      KeptPrefix(KnownMask(tabs), active);
      KeptPrefix(LimitMask(tabs), MovedIndex(KnownMask(tabs), active));
    }
  }

  lemma {:induction false} GroupsFixed(keys: seq<string>)
    ensures ClampedGroups(keys) == keys <==>
              |keys| <= 256 && forall i | 0 <= i < |keys| :: Bytes(keys[i]) <= 600
  {
    ShortKeysShort(keys);
    if forall i | 0 <= i < |keys| :: Bytes(keys[i]) <= 600 { ShortKeysFixed(keys); }
  }

  lemma {:induction false} SchemasFixed(names: seq<string>)
    ensures ClampedSchemas(names) == names <==>
              && |names| <= 256 && StrictlySorted(TextLess, names)
              && forall i | 0 <= i < |names| :: names[i] != "" && Bytes(names[i]) <= 256
  {
    TextStrictTotal();
    hide TextLess; hide Sort; hide Dedup;
    SchemasSettle(names);
    if ClampedSchemas(names) == names {
      StorableAre(names);
      SortedSet(TextLess, StorableSchemas(names));
      forall i | 0 <= i < |names| ensures StorableSchema(names[i]) {
        assert names[i] in Dedup(Sort(TextLess, StorableSchemas(names)));
      }
    }
    if StrictlySorted(TextLess, names) && forall i | 0 <= i < |names| :: StorableSchema(names[i]) {
      StorableFixed(names);
      SortedSetFixed(TextLess, names);
    }
  }

  lemma {:induction false} OwnFixed(w: Workspace)
    ensures ClampOwn(w) == w <==> OwnFits(w)
  {
    hide ClampedTabs; hide ClampedActive; hide ClampedGroups; hide ClampedSchemas; hide OverLimit; hide TabFits;
    hide StrictlySorted; hide TextLess;
    TabsFixed(w.tabs, w.activeIdx);
    GroupsFixed(w.collapsedGroups);
    SchemasFixed(w.hiddenSchemas);
  }

  /** A record within all limits: its own part, and every remembered database's, of which there are not too many. */
  ghost predicate Fits(w: Workspace) {
    && OwnFits(w)
    && (forall name | name in w.otherDatabases ::
          OwnFits(w.otherDatabases[name]) && w.otherDatabases[name].otherDatabases == map[])
    && (|w.otherDatabases| <= 16 || forall name | name in w.otherDatabases :: HasEditor(w.otherDatabases[name]))
  }

  lemma {:induction false} OthersFixed(others: map<string, Workspace>)
    ensures DropTableOnly(ClampedOthers(others)) == others <==>
              && (forall name | name in others :: OwnFits(others[name]) && others[name].otherDatabases == map[])
              && (|others| <= 16 || forall name | name in others :: HasEditor(others[name]))
  {
    hide OwnFits; hide ClampOwn; hide HasEditor;
    DropKeepsEditors(ClampedOthers(others));
    if DropTableOnly(ClampedOthers(others)) == others {
      hide DropTableOnly;
      forall name | name in others ensures OwnFits(others[name]) && others[name].otherDatabases == map[] {
        assert others[name] == ClampOwn(Alone(others[name]));
        OwnOnly(Alone(others[name]));
        assert Alone(others[name]) == others[name];
        OwnFixed(others[name]);
      }
      forall name | name in others && |others| > 16 ensures HasEditor(others[name]) {
        assert name !in TableOnly(others);
      }
    }
    if forall name | name in others :: OwnFits(others[name]) && others[name].otherDatabases == map[] {
      forall name | name in others ensures ClampOwn(Alone(others[name])) == others[name] {
        assert Alone(others[name]) == others[name];
        OwnFixed(others[name]);
      }
      assert ClampedOthers(others) == others;
    }
  }

  /** The normaliser changes nothing exactly when the record is within all limits. */
  lemma {:induction false} ClampFixed(w: Workspace)
    ensures Clamp(w) == w <==> Fits(w)
  {
    hide OwnFits; hide ClampOwn; hide HasEditor; hide DropTableOnly; hide ClampedOthers;
    OwnFixed(w);
    OwnOnly(w);
    OthersFixed(w.otherDatabases);
  }

  lemma {:induction false} OwnOnly(w: Workspace)
    ensures ClampOwn(w).otherDatabases == w.otherDatabases
  {}

  /** What becomes of every tab that survives. */
  lemma {:induction false} SurvivorsTidied(tabs: seq<Tab>)
    ensures var kept := Retained(tabs, Survivors(tabs));
      |ClampedTabs(tabs)| == |kept| && forall i | 0 <= i < |kept| :: Tidied(kept[i], ClampedTabs(tabs)[i])
  {
    ClampedTabsAreSurvivors(tabs);
    hide Survivors; hide Tidied; hide ClampedTabs;
    var kept := Retained(tabs, Survivors(tabs));
    forall i | 0 <= i < |kept| ensures Tidied(kept[i], Clean(kept[i])) { CleanTidies(kept[i]); }
  }
}
