/**
 The normaliser `clamp_connection`, and what it keeps: it settles after one pass, never drops an
 editor tab, keeps the selection on the same tab, and counts what the tab limit dropped.
 */
module WorkspaceClamp {

  import opened Ordering
  import opened Utf8
  import opened WorkspaceRecords

  // ---------- the parts of the record ----------

  function ShortKeys(keys: seq<string>): seq<string> {
    if keys == [] then []
    else ShortKeys(keys[..|keys| - 1])
         + (if Bytes(keys[|keys| - 1]) <= MAX_COLLAPSED_KEY_BYTES then [keys[|keys| - 1]] else [])
  }

  function Prefix<T>(xs: seq<T>, limit: nat): (r: seq<T>)
    ensures r <= xs && |r| <= limit
  {
    if |xs| > limit then xs[..limit] else xs
  }

  function ClampedGroups(keys: seq<string>): seq<string> {
    Prefix(ShortKeys(keys), MAX_COLLAPSED_GROUPS)
  }

  predicate StorableSchema(name: string) {
    name != "" && Bytes(name) <= MAX_SCHEMA_NAME_BYTES
  }

  function StorableSchemas(names: seq<string>): seq<string> {
    if names == [] then []
    else
      StorableSchemas(names[..|names| - 1])
      + (if StorableSchema(names[|names| - 1]) then [names[|names| - 1]] else [])
  }

  function ClampedSchemas(names: seq<string>): seq<string> {
    Prefix(Dedup(Sort(TextLess, StorableSchemas(names))), MAX_HIDDEN_SCHEMAS)
  }

  function KnownTabs(tabs: seq<Tab>): seq<Tab> { Retained(tabs, KnownMask(tabs)) }

  function LimitedTabs(tabs: seq<Tab>): seq<Tab> { Retained(tabs, LimitMask(tabs)) }

  function ClampedTabs(tabs: seq<Tab>): seq<Tab> { CleanAll(LimitedTabs(KnownTabs(tabs))) }

  /** The selection after both drops; 0 when nothing is left to select. */
  function ClampedActive(tabs: seq<Tab>, active: nat): nat {
    var moved := MovedIndex(LimitMask(KnownTabs(tabs)), MovedIndex(KnownMask(tabs), active));
    if moved >= |ClampedTabs(tabs)| then 0 else moved
  }

  /** The tabs dropped for the limit. */
  function OverLimit(tabs: seq<Tab>): nat {
    var known := KnownTabs(tabs);
    Min(Surplus(known), NonEditors(known))
  }

  /** The record's own part; the remembered databases are untouched. */
  function ClampOwn(w: Workspace): Workspace {
    Workspace(ClampedTabs(w.tabs), ClampedActive(w.tabs, w.activeIdx), ClampedGroups(w.collapsedGroups),
              ClampedSchemas(w.hiddenSchemas), w.database, w.otherDatabases,
              SaturatingAdd(w.omittedTabs, OverLimit(w.tabs)))
  }

  function Alone(w: Workspace): Workspace { w.(otherDatabases := map[]) }

  predicate HasEditor(w: Workspace) {
    exists i | 0 <= i < |w.tabs| :: w.tabs[i].Editor?
  }

  function ClampedOthers(others: map<string, Workspace>): map<string, Workspace> {
    map name | name in others :: ClampOwn(Alone(others[name]))
  }

  function TableOnly(others: map<string, Workspace>): set<string> {
    set name | name in others && !HasEditor(others[name])
  }

  lemma {:induction false} LeastExists(names: set<string>)
    requires names != {}
    ensures exists n :: n in names && forall m | m in names :: m == n || TextLess(n, m)
  {
    TextStrictTotal();
    hide TextLess;
    var k :| k in names;
    var rest := names - {k};
    var low := k;
    if rest != {} {
      LeastExists(rest);
      var n :| n in rest && forall m | m in rest :: m == n || TextLess(n, m);
      if !TextLess(k, n) { low := n; }
    }
    assert low in names;
    forall m | m in names ensures m == low || TextLess(low, m) { assert m == k || m in rest; }
  }

  /** The first name in map order. */
  function Least(names: set<string>): (n: string)
    requires names != {}
    ensures n in names && forall m | m in names :: m == n || TextLess(n, m)
  {
    LeastExists(names);
    TextStrictTotal();
    var n :| n in names && forall m | m in names :: m == n || TextLess(n, m);
    n
  }

  /** Over the limit, databases without an editor tab are forgotten, first name first. */
  function DropTableOnly(others: map<string, Workspace>): map<string, Workspace>
    decreases |others|
  {
    if |others| <= MAX_OTHER_DATABASES || TableOnly(others) == {} then others
    else DropTableOnly(others - {Least(TableOnly(others))})
  }

  function Clamp(w: Workspace): Workspace {
    ClampOwn(w).(otherDatabases := DropTableOnly(ClampedOthers(w.otherDatabases)))
  }

  // ---------- dropping databases ----------

  lemma {:induction false} DropKeepsEditors(others: map<string, Workspace>)
    ensures var r := DropTableOnly(others);
      && r.Keys <= others.Keys
      && (forall name | name in r :: r[name] == others[name])
      && (forall name | name in others && HasEditor(others[name]) :: name in r)
      && (|r| <= MAX_OTHER_DATABASES || TableOnly(r) == {})
      && (|others| <= MAX_OTHER_DATABASES ==> r == others)
      && (r != others ==> |r| >= MAX_OTHER_DATABASES)
    decreases |others|
  {
    if |others| > MAX_OTHER_DATABASES && TableOnly(others) != {} {
      var gone := Least(TableOnly(others));
      DropKeepsEditors(others - {gone});
    }
  }

  lemma {:induction false} DropSettles(others: map<string, Workspace>)
    ensures DropTableOnly(DropTableOnly(others)) == DropTableOnly(others)
  {
    DropKeepsEditors(others);
  }

  // ---------- groups and schemas settle ----------

  lemma {:induction false} ShortKeysFixed(keys: seq<string>)
    requires forall i | 0 <= i < |keys| :: Bytes(keys[i]) <= MAX_COLLAPSED_KEY_BYTES
    ensures ShortKeys(keys) == keys
  {
    if keys != [] {
      ShortKeysFixed(keys[..|keys| - 1]);
      assert keys == keys[..|keys| - 1] + [keys[|keys| - 1]];
    }
  }

  lemma {:induction false} ShortKeysShort(keys: seq<string>)
    ensures forall i | 0 <= i < |ShortKeys(keys)| :: Bytes(ShortKeys(keys)[i]) <= MAX_COLLAPSED_KEY_BYTES
  {
    if keys != [] { ShortKeysShort(keys[..|keys| - 1]); }
  }

  lemma {:induction false} GroupsSettle(keys: seq<string>)
    ensures ClampedGroups(ClampedGroups(keys)) == ClampedGroups(keys)
  {
    ShortKeysShort(keys);
    ShortKeysFixed(ClampedGroups(keys));
  }

  lemma {:induction false} StorableFixed(names: seq<string>)
    requires forall i | 0 <= i < |names| :: StorableSchema(names[i])
    ensures StorableSchemas(names) == names
  {
    if names != [] {
      StorableFixed(names[..|names| - 1]);
      assert names == names[..|names| - 1] + [names[|names| - 1]];
    }
  }

  lemma {:induction false} StorableAre(names: seq<string>)
    ensures forall n | n in StorableSchemas(names) :: StorableSchema(n)
  {
    if names != [] { StorableAre(names[..|names| - 1]); }
  }

  /** Hidden schemas come out strictly sorted, storable, and stay as they are. */
  lemma {:induction false} SchemasSettle(names: seq<string>)
    ensures StrictlySorted(TextLess, ClampedSchemas(names))
    ensures ClampedSchemas(ClampedSchemas(names)) == ClampedSchemas(names)
  {
    TextStrictTotal();
    StorableAre(names);
    SortedSet(TextLess, StorableSchemas(names));
    var r := ClampedSchemas(names);
    forall i | 0 <= i < |r| ensures StorableSchema(r[i]) {
      assert r[i] in Dedup(Sort(TextLess, StorableSchemas(names)));
    }
    StorableFixed(r);
    SortedSetFixed(TextLess, r);
  }

  // ---------- tabs ----------

  lemma {:induction false} KnownTabsKnown(tabs: seq<Tab>)
    ensures forall i | 0 <= i < |KnownTabs(tabs)| :: Known(KnownTabs(tabs)[i])
  {
    forall i | 0 <= i < |KnownTabs(tabs)| ensures Known(KnownTabs(tabs)[i]) {
      RetainedFrom(tabs, KnownMask(tabs), KnownTabs(tabs)[i]);
    }
  }

  /** The limit drops exactly the surplus, or every non-editor there is. */
  lemma {:induction false} LimitDrops(tabs: seq<Tab>)
    ensures |LimitedTabs(tabs)| == |tabs| - Min(Surplus(tabs), NonEditors(tabs))
    ensures |LimitedTabs(tabs)| > MAX_TABS_PER_CONNECTION ==>
              forall i | 0 <= i < |LimitedTabs(tabs)| :: LimitedTabs(tabs)[i].Editor?
  {
    DroppedFrom(tabs, 0);
    RetainedLength(tabs, LimitMask(tabs));
    assert LimitMask(tabs)[0..] == LimitMask(tabs) && tabs[0..] == tabs;
    if |LimitedTabs(tabs)| > MAX_TABS_PER_CONNECTION {
      forall i | 0 <= i < |LimitedTabs(tabs)| ensures LimitedTabs(tabs)[i].Editor? {
        RetainedFrom(tabs, LimitMask(tabs), LimitedTabs(tabs)[i]);
        var j :| 0 <= j < |tabs| && LimitMask(tabs)[j] && tabs[j] == LimitedTabs(tabs)[i];
        NonEditorsSplit(tabs, j);
      }
    }
  }

  lemma {:induction false} NonEditorsSplit(tabs: seq<Tab>, j: nat)
    requires j < |tabs|
    ensures NonEditors(tabs) >= NonEditors(tabs[j + 1..]) + (if tabs[j].Editor? then 0 else 1)
  {
    if j > 0 {
      NonEditorsSplit(tabs[1..], j - 1);
      assert tabs[1..][j..] == tabs[j + 1..];
    }
  }

  lemma {:induction false} LimitKeepsAll(tabs: seq<Tab>)
    requires |tabs| <= MAX_TABS_PER_CONNECTION || forall i | 0 <= i < |tabs| :: tabs[i].Editor?
    ensures forall i | 0 <= i < |tabs| :: LimitMask(tabs)[i]
    ensures LimitedTabs(tabs) == tabs && Min(Surplus(tabs), NonEditors(tabs)) == 0
  {
    RetainedAll(tabs, LimitMask(tabs));
    DroppedFrom(tabs, 0);
    assert LimitMask(tabs)[0..] == LimitMask(tabs) && tabs[0..] == tabs;
  }

  /** Clamped tabs are clean, known and within the limit, so a second pass keeps them all. */
  lemma {:induction false} ClampedTabsClean(tabs: seq<Tab>)
    ensures var r := ClampedTabs(tabs);
      && (forall i | 0 <= i < |r| :: Known(r[i]) && Clean(r[i]) == r[i])
      && (|r| <= MAX_TABS_PER_CONNECTION || forall i | 0 <= i < |r| :: r[i].Editor?)
  {
    var known := KnownTabs(tabs);
    KnownTabsKnown(tabs);
    LimitDrops(known);
    var limited := LimitedTabs(known);
    forall i | 0 <= i < |limited|
      ensures Known(Clean(limited[i])) && Clean(Clean(limited[i])) == Clean(limited[i])
      ensures Clean(limited[i]).Editor? <==> limited[i].Editor?
    {
      RetainedFrom(known, LimitMask(known), limited[i]);
      CleanSettles(limited[i]);
    }
  }

  lemma {:induction false} TabsSettle(tabs: seq<Tab>, active: nat)
    ensures var r := ClampedTabs(tabs); var a := ClampedActive(tabs, active);
      ClampedTabs(r) == r && ClampedActive(r, a) == a && OverLimit(r) == 0
  {
    var r, a := ClampedTabs(tabs), ClampedActive(tabs, active);
    ClampedTabsClean(tabs);
    RetainedAll(r, KnownMask(r));
    assert KnownTabs(r) == r;
    LimitKeepsAll(r);
    assert CleanAll(r) == r;
    KeptPrefix(KnownMask(r), a);
    KeptPrefix(LimitMask(r), a);
  }

  lemma {:induction false} KeptPrefix(keep: seq<bool>, selected: nat)
    requires forall i | 0 <= i < |keep| :: keep[i]
    ensures MovedIndex(keep, selected) == if selected < |keep| then selected else 0
  {
    if selected < |keep| { RetainedAll(keep[..selected], keep[..selected]); }
  }

  // ---------- idempotence ----------

  lemma {:induction false} ClampOwnSettles(w: Workspace)
    ensures ClampOwn(ClampOwn(w)) == ClampOwn(w)
  {
    TabsSettle(w.tabs, w.activeIdx);
    GroupsSettle(w.collapsedGroups);
    SchemasSettle(w.hiddenSchemas);
  }

  lemma {:induction false} OthersSettle(others: map<string, Workspace>)
    ensures var r := DropTableOnly(ClampedOthers(others)); ClampedOthers(r) == r
  {
    hide ClampOwn; hide DropTableOnly;
    var c := ClampedOthers(others);
    var r := DropTableOnly(c);
    DropKeepsEditors(c);
    forall name | name in r ensures ClampOwn(Alone(r[name])) == r[name] {
      assert r[name] == ClampOwn(Alone(others[name]));
      ClampOwnSettles(Alone(others[name]));
      StaysAlone(others[name]);
    }
  }

  lemma {:induction false} StaysAlone(w: Workspace)
    ensures Alone(ClampOwn(Alone(w))) == ClampOwn(Alone(w))
  {
  }

  /** One pass settles a record: clamping it again changes nothing. */
  lemma {:induction false} ClampIdempotent(w: Workspace)
    ensures Clamp(Clamp(w)) == Clamp(w)
  {
    var c := Clamp(w);
    ClampOwnSettles(w);
    assert ClampOwn(c).(otherDatabases := map[]) == ClampOwn(ClampOwn(w)).(otherDatabases := map[]);
    OthersSettle(w.otherDatabases);
    DropSettles(ClampedOthers(w.otherDatabases));
  }

  // ---------- what the clamp keeps ----------

  /** The tabs that survive both drops. */
  function Survivors(tabs: seq<Tab>): (keep: seq<bool>)
    ensures |keep| == |tabs|
  {
    Composed(KnownMask(tabs), LimitMask(KnownTabs(tabs)))
  }

  /** Keeping by `first` and then, among what is left, by `second`. */
  function Composed(first: seq<bool>, second: seq<bool>): (keep: seq<bool>)
    ensures |keep| == |first|
  {
    seq(|first|, i requires 0 <= i < |first| =>
      first[i] && Kept(first[..i]) < |second| && second[Kept(first[..i])])
  }

  lemma {:induction false} ComposedPrefix(first: seq<bool>, second: seq<bool>, i: nat)
    requires i <= |first| && Kept(first) == |second|
    ensures Kept(first[..i]) <= |second|
    ensures Kept(Composed(first, second)[..i]) == Kept(second[..Kept(first[..i])])
  {
    KeptSplit(first, i);
    if i > 0 {
      ComposedPrefix(first, second, i - 1);
      assert first[..i][..i - 1] == first[..i - 1];
      var c := Composed(first, second);
      assert c[..i][..i - 1] == c[..i - 1];
      var k := Kept(first[..i - 1]);
      if first[i - 1] {
        assert k < |second| && second[..k + 1][..k] == second[..k];
      }
    }
  }

  lemma {:induction false} KeptSplit(keep: seq<bool>, i: nat)
    requires i <= |keep|
    ensures Kept(keep[..i]) + Kept(keep[i..]) == Kept(keep)
    decreases |keep| - i
  {
    if i < |keep| {
      KeptSplit(keep, i + 1);
      assert keep[..i + 1][..i] == keep[..i];
      KeptCons(keep[i..]);
      assert keep[i..][1..] == keep[i + 1..];
    } else {
      assert keep[..i] == keep;
    }
  }

  lemma {:induction false} RetainedTwice<T>(xs: seq<T>, first: seq<bool>, second: seq<bool>)
    requires |xs| == |first| && Kept(first) == |second|
    ensures |Retained(xs, first)| == |second|
    ensures Retained(Retained(xs, first), second) == Retained(xs, Composed(first, second))
  {
    RetainedLength(xs, first);
    if xs != [] {
      var n := |xs| - 1;
      RetainedLength(xs[..n], first[..n]);
      var k := Kept(first[..n]);
      RetainedTwice(xs[..n], first[..n], second[..k]);
      ComposedInit(first, second);
      var init := Retained(xs[..n], first[..n]);
      if first[n] {
        assert Retained(xs, first) == init + [xs[n]] && (init + [xs[n]])[..k] == init;
      } else {
        assert Retained(xs, first) == init && second[..k] == second;
        assert !Composed(first, second)[n];
        assert Retained(xs, Composed(first, second)) == Retained(xs[..n], Composed(first, second)[..n]);
      }
    }
  }

  lemma {:induction false} ComposedInit(first: seq<bool>, second: seq<bool>)
    requires first != [] && Kept(first) == |second|
    ensures var n := |first| - 1;
      Kept(first[..n]) <= |second| && Composed(first[..n], second[..Kept(first[..n])]) == Composed(first, second)[..n]
  {
    var n := |first| - 1;
    var k := Kept(first[..n]);
    forall i | 0 <= i < n ensures Composed(first[..n], second[..k])[i] == Composed(first, second)[i] {
      assert first[..n][..i] == first[..i];
      KeptSplit(first[..n], i);
      if first[i] { KeptCons(first[..n][i..]); }
    }
  }

  /** The clamped tabs are the survivors, in their order, each cleaned. */
  lemma {:induction false} ClampedTabsAreSurvivors(tabs: seq<Tab>)
    ensures ClampedTabs(tabs) == CleanAll(Retained(tabs, Survivors(tabs)))
  {
    RetainedLength(tabs, KnownMask(tabs));
    RetainedTwice(tabs, KnownMask(tabs), LimitMask(KnownTabs(tabs)));
  }

  /** The selection stays on its tab whenever that tab survives, and falls back to the first tab otherwise. */
  lemma {:induction false} SelectionFollowsTab(tabs: seq<Tab>, active: nat)
    ensures ClampedActive(tabs, active) == MovedIndex(Survivors(tabs), active)
    ensures active < |tabs| && Survivors(tabs)[active] ==>
              && ClampedActive(tabs, active) < |ClampedTabs(tabs)|
              && ClampedTabs(tabs)[ClampedActive(tabs, active)] == Clean(tabs[active])
  {
    var first, known := KnownMask(tabs), KnownTabs(tabs);
    var second := LimitMask(known);
    RetainedLength(tabs, first);
    ClampedTabsAreSurvivors(tabs);
    if active < |tabs| {
      ComposedPrefix(first, second, active);
      if Survivors(tabs)[active] { RetainedAt(tabs, Survivors(tabs), active); }
    }
  }

  /** The limit drops only non-editor tabs, never below the limit, and all that go are counted. */
  lemma {:induction false} LimitCounts(w: Workspace)
    ensures |Clamp(w).tabs| <= |KnownTabs(w.tabs)|
    ensures Clamp(w).omittedTabs == SaturatingAdd(w.omittedTabs, |KnownTabs(w.tabs)| - |Clamp(w).tabs|)
    ensures |Clamp(w).tabs| < |KnownTabs(w.tabs)| ==> |Clamp(w).tabs| >= MAX_TABS_PER_CONNECTION
    ensures forall i | 0 <= i < |w.tabs| && w.tabs[i].Editor? :: Survivors(w.tabs)[i]
  {
    var known := KnownTabs(w.tabs);
    LimitDrops(known);
    forall i | 0 <= i < |w.tabs| && w.tabs[i].Editor? ensures Survivors(w.tabs)[i] {
      RetainedAt(w.tabs, KnownMask(w.tabs), i);
    }
  }

  function EditorsOf(tabs: seq<Tab>): seq<Tab> {
    if tabs == [] then []
    else EditorsOf(tabs[..|tabs| - 1]) + (if tabs[|tabs| - 1].Editor? then [tabs[|tabs| - 1]] else [])
  }

  lemma {:induction false} EditorsRetained(tabs: seq<Tab>, keep: seq<bool>)
    requires |tabs| == |keep| && forall i | 0 <= i < |tabs| && tabs[i].Editor? :: keep[i]
    ensures EditorsOf(Retained(tabs, keep)) == EditorsOf(tabs)
  {
    if tabs != [] {
      var n := |tabs| - 1;
      EditorsRetained(tabs[..n], keep[..n]);
      var init := Retained(tabs[..n], keep[..n]);
      if keep[n] {
        assert Retained(tabs, keep) == init + [tabs[n]];
        assert (init + [tabs[n]])[..|init|] == init;
      } else {
        assert Retained(tabs, keep) == init;
      }
    }
  }

  lemma {:induction false} EditorsCleaned(tabs: seq<Tab>)
    requires forall i | 0 <= i < |tabs| :: Known(tabs[i])
    ensures EditorsOf(CleanAll(tabs)) == CleanAll(EditorsOf(tabs))
  {
    if tabs != [] {
      var n := |tabs| - 1;
      EditorsCleaned(tabs[..n]);
      CleanSettles(tabs[n]);
      assert CleanAll(tabs)[..n] == CleanAll(tabs[..n]);
    }
  }

  /** Every editor tab is kept, in order, with its text and draft. */
  lemma {:induction false} EditorsKept(w: Workspace)
    ensures EditorsOf(Clamp(w).tabs) == CleanAll(EditorsOf(w.tabs))
    ensures HasEditor(Clamp(w)) <==> HasEditor(w)
  {
    var known := KnownTabs(w.tabs);
    KnownTabsKnown(w.tabs);
    EditorsRetained(w.tabs, KnownMask(w.tabs));
    EditorsRetained(known, LimitMask(known));
    forall i | 0 <= i < |LimitedTabs(known)| ensures Known(LimitedTabs(known)[i]) {
      RetainedFrom(known, LimitMask(known), LimitedTabs(known)[i]);
    }
    EditorsCleaned(LimitedTabs(known));
    SomeEditor(w.tabs);
    SomeEditor(Clamp(w).tabs);
  }

  lemma {:induction false} SomeEditor(tabs: seq<Tab>)
    ensures (exists i | 0 <= i < |tabs| :: tabs[i].Editor?) <==> EditorsOf(tabs) != []
  {
    if tabs != [] {
      var n := |tabs| - 1;
      SomeEditor(tabs[..n]);
      if i :| 0 <= i < n && tabs[i].Editor? { assert tabs[..n][i].Editor?; }
      if i :| 0 <= i < n && tabs[..n][i].Editor? { assert tabs[i].Editor?; }
    }
  }

  /** The same holds of every remembered database, and one with an editor tab is never forgotten. */
  lemma {:induction false} RememberedEditorsKept(w: Workspace, name: string)
    requires name in w.otherDatabases
    ensures HasEditor(w.otherDatabases[name]) ==> name in Clamp(w).otherDatabases
    ensures name in Clamp(w).otherDatabases ==>
              EditorsOf(Clamp(w).otherDatabases[name].tabs) == CleanAll(EditorsOf(w.otherDatabases[name].tabs))
    ensures name !in Clamp(w).otherDatabases ==> |Clamp(w).otherDatabases| >= MAX_OTHER_DATABASES
  {
    hide ClampedTabs; hide ClampedActive; hide ClampedGroups; hide ClampedSchemas; hide DropTableOnly; hide OverLimit;
    DropKeepsEditors(ClampedOthers(w.otherDatabases));
    EditorsKept(Alone(w.otherDatabases[name]));
  }
}
