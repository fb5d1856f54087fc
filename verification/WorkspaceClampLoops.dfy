/** The loops of the normaliser, each proved to compute its part of `WorkspaceClamp.Clamp`. */
module WorkspaceClampLoops {

  import opened Options
  import opened WorkspaceRecords
  import opened WorkspaceClamp

  /** Where `selected` went among the first `i` elements, if it was kept. */
  ghost function MovedSoFar(keep: seq<bool>, selected: nat, i: nat): Option<nat>
    requires i <= |keep|
  {
    if selected < i && keep[selected] then Some(Kept(keep[..selected])) else None
  }

  /** The `retain` closure of both drops: copies what is kept and notes where the selection lands. */
  method RetainMarked(tabs: seq<Tab>, keep: seq<bool>, selected: nat) returns (kept: seq<Tab>, active: nat)
    requires |keep| == |tabs|
    ensures kept == Retained(tabs, keep) && active == MovedIndex(keep, selected)
  {
    kept := [];
    var activeIndex: Option<nat> := None;
    for i := 0 to |tabs|
      invariant kept == Retained(tabs[..i], keep[..i])
      invariant activeIndex == MovedSoFar(keep, selected, i)
    {
      assert tabs[..i + 1][..i] == tabs[..i] && keep[..i + 1][..i] == keep[..i];
      RetainedLength(tabs[..i], keep[..i]);
      if keep[i] {
        if i == selected {
          activeIndex := Some(|kept|);
        }
        kept := kept + [tabs[i]];
      }
    }
    assert tabs[..|tabs|] == tabs && keep[..|keep|] == keep;
    active := if activeIndex.Some? then activeIndex.value else 0;
  }

  method RetainKnownTabs(tabs: seq<Tab>, selected: nat) returns (kept: seq<Tab>, active: nat)
    ensures kept == KnownTabs(tabs) && active == MovedIndex(KnownMask(tabs), selected)
  {
    kept, active := RetainMarked(tabs, KnownMask(tabs), selected);
  }

  /** The backward pass that marks the surplus and counts what it drops. */
  method MarkSurplus(tabs: seq<Tab>, omitted: U32) returns (keep: seq<bool>, counted: U32)
    ensures keep == LimitMask(tabs)
    ensures counted == SaturatingAdd(omitted, Min(Surplus(tabs), NonEditors(tabs)))
  {
    var surplus := Surplus(tabs);
    keep := seq(|tabs|, _ => true);
    counted := omitted;
    var i := |tabs|;
    while i > 0
      invariant 0 <= i <= |tabs| && |keep| == |tabs|
      invariant surplus == Surplus(tabs) - Min(Surplus(tabs), NonEditors(tabs[i..]))
      invariant counted == SaturatingAdd(omitted, Min(Surplus(tabs), NonEditors(tabs[i..])))
      invariant forall j | 0 <= j < i :: keep[j]
      invariant forall j | i <= j < |tabs| :: keep[j] == LimitMask(tabs)[j]
    {
      i := i - 1;
      assert tabs[i..][1..] == tabs[i + 1..];
      if surplus > 0 && !tabs[i].Editor? {
        keep := keep[i := false];
        surplus := surplus - 1;
        counted := if counted < U32_MAX then counted + 1 else counted;
      }
    }
    assert tabs[0..] == tabs;
  }

  method DropNonEditorTabsOverLimit(tabs: seq<Tab>, selected: nat, omitted: U32)
    returns (kept: seq<Tab>, active: nat, counted: U32)
    ensures kept == LimitedTabs(tabs) && active == MovedIndex(LimitMask(tabs), selected)
    ensures counted == SaturatingAdd(omitted, Min(Surplus(tabs), NonEditors(tabs)))
  {
    var keep: seq<bool>;
    keep, counted := MarkSurplus(tabs, omitted);
    kept, active := RetainMarked(tabs, keep, selected);
  }

  method DropTableOnlyDatabasesOverLimit(others: map<string, Workspace>) returns (r: map<string, Workspace>)
    ensures r == DropTableOnly(others)
  {
    r := others;
    while |r| > MAX_OTHER_DATABASES
      invariant DropTableOnly(r) == DropTableOnly(others)
      decreases |r|
    {
      var candidates := TableOnly(r);
      if candidates == {} {
        return;
      }
      r := r - {Least(candidates)};
    }
  }

  method CleanTabs(tabs: seq<Tab>) returns (cleaned: seq<Tab>)
    ensures cleaned == CleanAll(tabs)
  {
    cleaned := [];
    for i := 0 to |tabs|
      invariant cleaned == CleanAll(tabs[..i])
    {
      cleaned := cleaned + [Normalize(Migrate(tabs[i]))];
    }
    assert tabs[..|tabs|] == tabs;
  }

  method ClampOwnPart(w: Workspace) returns (r: Workspace)
    ensures r == ClampOwn(w)
  {
    var known, selected := RetainKnownTabs(w.tabs, w.activeIdx);
    var limited, active, omitted := DropNonEditorTabsOverLimit(known, selected, w.omittedTabs);
    var tabs := CleanTabs(limited);
    if active >= |tabs| {
      active := 0;
    }
    r := Workspace(tabs, active, ClampedGroups(w.collapsedGroups), ClampedSchemas(w.hiddenSchemas), w.database,
                   w.otherDatabases, omitted);
  }

  /** `clamp_connection`: the remembered databases first, then the record itself. */
  method ClampConnection(w: Workspace) returns (r: Workspace)
    ensures r == Clamp(w)
  {
    var others: map<string, Workspace> := map[];
    var left := w.otherDatabases.Keys;
    while left != {}
      invariant left <= w.otherDatabases.Keys && others.Keys == w.otherDatabases.Keys - left
      invariant forall name | name in others :: others[name] == ClampOwn(Alone(w.otherDatabases[name]))
      decreases left
    {
      var name :| name in left;
      var clamped := ClampOwnPart(Alone(w.otherDatabases[name]));
      others := others[name := clamped];
      left := left - {name};
    }
    assert others == ClampedOthers(w.otherDatabases);
    others := DropTableOnlyDatabasesOverLimit(others);
    var own := ClampOwnPart(w);
    r := own.(otherDatabases := others);
  }
}
