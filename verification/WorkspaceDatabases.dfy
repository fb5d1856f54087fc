/**
 One record per connection remembers a workspace for each of its databases. Saving merges the current
 database into the record; these lemmas show that, with clamping after every merge, the record
 behaves as a map from database name to the last workspace saved for it.
 */
module WorkspaceDatabases {

  import opened Options
  import opened WorkspaceRecords
  import opened WorkspaceClamp

  function ForDatabase(w: Workspace, database: string): Option<Workspace> {
    if w.database == None || w.database == Some(database) then Some(w)
    else if database in w.otherDatabases then Some(w.otherDatabases[database])
    else None
  }

  function WithDatabase(existing: Option<Workspace>, database: string, current: Workspace): Workspace {
    var others :=
      if existing.None? then map[]
      else if existing.value.database.Some? && existing.value.database.value != database
      then existing.value.otherDatabases[existing.value.database.value := Alone(existing.value)]
      else existing.value.otherDatabases;
    current.(database := Some(database), otherDatabases := others - {database})
  }

  // ---------- runs of saves ----------

  datatype DatabaseSave = DatabaseSave(name: string, current: Workspace)

  /** The record after a run of saves, clamped after each merge. */
  function Record(saves: seq<DatabaseSave>): Option<Workspace> {
    if saves == [] then None
    else
      var last := saves[|saves| - 1];
      Some(Clamp(WithDatabase(Record(saves[..|saves| - 1]), last.name, last.current)))
  }

  /** The map it stands for. */
  function LastSaved(saves: seq<DatabaseSave>): map<string, Workspace> {
    if saves == [] then map[]
    else LastSaved(saves[..|saves| - 1])[saves[|saves| - 1].name := saves[|saves| - 1].current]
  }

  /** A workspace as the record keeps it: clamped, under its database's name. */
  function Remembered(name: string, w: Workspace): Workspace {
    ClampOwn(Alone(w.(database := Some(name))))
  }

  /** The record holds what was last saved; only table-only databases beyond the limit are missing. */
  ghost predicate Holds(r: Workspace, m: map<string, Workspace>, current: string) {
    && current in m && r.database == Some(current) && Alone(r) == Remembered(current, m[current])
    && current !in r.otherDatabases
    && (forall name | name in r.otherDatabases ::
          name in m && r.otherDatabases[name] == Remembered(name, m[name]))
    && (forall name | name in m && name != current && name !in r.otherDatabases ::
          !HasEditor(m[name]) && |m| > MAX_OTHER_DATABASES + 1)
  }

  lemma {:induction false} RememberedSettles(name: string, w: Workspace)
    ensures ClampOwn(Alone(Remembered(name, w))) == Remembered(name, w)
    ensures HasEditor(Remembered(name, w)) <==> HasEditor(w)
  {
    hide ClampedTabs; hide ClampedActive; hide ClampedGroups; hide ClampedSchemas; hide OverLimit;
    StaysAlone(w.(database := Some(name)));
    ClampOwnSettles(Alone(w.(database := Some(name))));
    EditorsKept(Alone(w.(database := Some(name))));
  }

  /** Setting aside the current database and naming the new one, before the clamp. */
  lemma {:induction false} MergeHolds(r: Workspace, m: map<string, Workspace>, current: string, save: DatabaseSave)
    requires Holds(r, m, current)
    ensures var others := WithDatabase(Some(r), save.name, save.current).otherDatabases;
      && save.name !in others
      && (forall name | name in others :: name in m && others[name] == Remembered(name, m[name]))
      && (forall name | name in m && name != save.name && name !in others ::
            !HasEditor(m[name]) && |m| > MAX_OTHER_DATABASES + 1)
  {
    hide ClampOwn;
  }

  lemma {:induction false} OthersHold(others: map<string, Workspace>, m: map<string, Workspace>, save: DatabaseSave)
    requires save.name !in others
    requires forall name | name in others :: name in m && others[name] == Remembered(name, m[name])
    ensures ClampedOthers(others) == others
    ensures var kept := DropTableOnly(others); var m' := m[save.name := save.current];
      && save.name !in kept
      && (forall name | name in kept :: name in m' && kept[name] == Remembered(name, m'[name]))
      && (forall name | name in others && name !in kept :: !HasEditor(m'[name]) && |m'| > MAX_OTHER_DATABASES + 1)
  {
    hide ClampOwn; hide DropTableOnly; hide HasEditor;
    forall name | name in others
      ensures ClampOwn(Alone(others[name])) == others[name] && (HasEditor(others[name]) <==> HasEditor(m[name]))
    {
      RememberedSettles(name, m[name]);
    }
    DropKeepsEditors(others);
    var m' := m[save.name := save.current];
    if DropTableOnly(others) != others {
      assert others.Keys <= m'.Keys - {save.name};
      SubsetSize(others.Keys, m'.Keys - {save.name});
    }
  }

  lemma {:induction false} SubsetSize<T>(a: set<T>, b: set<T>)
    requires a <= b
    ensures |a| <= |b|
  {
    if a != {} {
      var x :| x in a;
      SubsetSize(a - {x}, b - {x});
    }
  }

  lemma {:induction false} SaveHolds(r: Workspace, m: map<string, Workspace>, current: string, save: DatabaseSave)
    requires Holds(r, m, current)
    ensures Holds(Clamp(WithDatabase(Some(r), save.name, save.current)), m[save.name := save.current], save.name)
  {
    hide ClampOwn; hide Clamp; hide DropTableOnly; hide HasEditor; hide Remembered; hide ClampedOthers; hide Alone;
    var merged := WithDatabase(Some(r), save.name, save.current);
    MergeHolds(r, m, current, save);
    OthersHold(merged.otherDatabases, m, save);
    ClampAlone(merged, save);
    SubsetSize(m.Keys, m[save.name := save.current].Keys);
  }

  lemma {:induction false} ClampAlone(merged: Workspace, save: DatabaseSave)
    requires merged == save.current.(database := Some(save.name), otherDatabases := merged.otherDatabases)
    ensures Alone(Clamp(merged)) == Remembered(save.name, save.current)
    ensures Clamp(merged).database == Some(save.name)
    ensures Clamp(merged).otherDatabases == DropTableOnly(ClampedOthers(merged.otherDatabases))
  {
    hide ClampedTabs; hide ClampedActive; hide ClampedGroups; hide ClampedSchemas; hide OverLimit;
    hide DropTableOnly; hide ClampedOthers;
  }

  lemma {:induction false} FirstHolds(save: DatabaseSave)
    ensures Holds(Clamp(WithDatabase(None, save.name, save.current)), map[save.name := save.current], save.name)
  {
    var merged := WithDatabase(None, save.name, save.current);
    assert merged.otherDatabases == map[];
    OthersHold(map[], map[], save);
    ClampAlone(merged, save);
    hide ClampOwn; hide DropTableOnly; hide HasEditor; hide Remembered; hide ClampedOthers;
  }

  lemma {:induction false} RecordHolds(saves: seq<DatabaseSave>)
    requires saves != []
    ensures Record(saves).Some? && Holds(Record(saves).value, LastSaved(saves), saves[|saves| - 1].name)
  {
    hide Holds; hide Clamp; hide WithDatabase;
    var init, last := saves[..|saves| - 1], saves[|saves| - 1];
    if init == [] {
      FirstHolds(last);
      assert LastSaved(saves) == map[last.name := last.current];
    } else {
      RecordHolds(init);
      SaveHolds(Record(init).value, LastSaved(init), init[|init| - 1].name, last);
    }
  }

  // ---------- which databases are kept ----------

  /** All that decides what is kept: the name saved, and whether its workspace has an editor tab. */
  datatype Seen = Seen(name: string, editor: bool)

  function SeenOf(saves: seq<DatabaseSave>): (r: seq<Seen>)
    ensures |r| == |saves|
    ensures forall i | 0 <= i < |r| :: r[i] == Seen(saves[i].name, HasEditor(saves[i].current))
  {
    seq(|saves|, i requires 0 <= i < |saves| => Seen(saves[i].name, HasEditor(saves[i].current)))
  }

  /** The databases whose last save has no editor tab. */
  function Plain(seen: seq<Seen>): set<string> {
    if seen == [] then {}
    else
      var before, last := Plain(seen[..|seen| - 1]), seen[|seen| - 1];
      if last.editor then before - {last.name} else before + {last.name}
  }

  /** While there are too many, the least plain name goes. */
  function Evicted(names: set<string>, plain: set<string>): set<string>
    decreases |names|
  {
    if |names| <= MAX_OTHER_DATABASES || names * plain == {} then names
    else Evicted(names - {Least(names * plain)}, plain)
  }

  /** Each save makes its database the current one and lets the others shrink to the limit. */
  function Lasting(seen: seq<Seen>): set<string> {
    if seen == [] then {}
    else
      var last := seen[|seen| - 1];
      {last.name} + Evicted(Lasting(seen[..|seen| - 1]) - {last.name}, Plain(seen))
  }

  lemma {:induction false} DropIsEvict(others: map<string, Workspace>, plain: set<string>)
    requires forall name | name in others :: HasEditor(others[name]) <==> name !in plain
    ensures DropTableOnly(others).Keys == Evicted(others.Keys, plain)
    decreases |others|
  {
    hide HasEditor;
    assert TableOnly(others) == others.Keys * plain;
    assert |others| == |others.Keys|;
    if |others| > MAX_OTHER_DATABASES && TableOnly(others) != {} {
      var gone := Least(TableOnly(others));
      assert (others - {gone}).Keys == others.Keys - {gone};
      DropIsEvict(others - {gone}, plain);
    }
  }

  lemma {:induction false} PlainIsLast(saves: seq<DatabaseSave>)
    ensures forall name | name in LastSaved(saves) :: HasEditor(LastSaved(saves)[name]) <==>
              name !in Plain(SeenOf(saves))
  {
    hide HasEditor;
    if saves != [] {
      var n := |saves| - 1;
      PlainIsLast(saves[..n]);
      assert SeenOf(saves)[..n] == SeenOf(saves[..n]);
    }
  }

  /** The names in a record: the current database and the others. */
  function NamesIn(r: Workspace, current: string): set<string> { {current} + r.otherDatabases.Keys }

  lemma {:induction false} MergeNames(r: Workspace, current: string, save: DatabaseSave)
    requires r.database == Some(current) && current !in r.otherDatabases
    ensures WithDatabase(Some(r), save.name, save.current).otherDatabases.Keys == NamesIn(r, current) - {save.name}
  {}

  lemma {:induction false} SaveNames(r: Workspace, m: map<string, Workspace>, current: string, save: DatabaseSave,
                                     plain: set<string>)
    requires Holds(r, m, current)
    requires forall name | name in m && name != save.name :: HasEditor(m[name]) <==> name !in plain
    ensures Clamp(WithDatabase(Some(r), save.name, save.current)).otherDatabases.Keys
         == Evicted(NamesIn(r, current) - {save.name}, plain)
  {
    hide ClampOwn; hide Clamp; hide DropTableOnly; hide HasEditor; hide Remembered; hide ClampedOthers; hide Alone;
    hide Evicted;
    var merged := WithDatabase(Some(r), save.name, save.current);
    MergeHolds(r, m, current, save);
    OthersHold(merged.otherDatabases, m, save);
    ClampAlone(merged, save);
    MergeNames(r, current, save);
    forall name | name in merged.otherDatabases ensures HasEditor(merged.otherDatabases[name]) <==> name !in plain {
      RememberedSettles(name, m[name]);
    }
    DropIsEvict(merged.otherDatabases, plain);
  }

  lemma {:induction false} NothingOver(plain: set<string>)
    ensures Evicted({}, plain) == {} && DropTableOnly(ClampedOthers(map[])) == map[]
  {
    assert ClampedOthers(map[]) == map[];
  }

  lemma {:induction false} RecordNames(saves: seq<DatabaseSave>)
    requires saves != []
    ensures Record(saves).Some? && NamesIn(Record(saves).value, saves[|saves| - 1].name) == Lasting(SeenOf(saves))
  {
    hide Holds; hide Clamp; hide WithDatabase; hide Evicted; hide Plain; hide HasEditor;
    var init, last := saves[..|saves| - 1], saves[|saves| - 1];
    var plain := Plain(SeenOf(saves));
    assert SeenOf(saves)[..|init|] == SeenOf(init);
    if init == [] {
      FirstNames(last, plain);
    } else {
      RecordNames(init);
      RecordHolds(init);
      PlainIsLast(saves);
      assert forall name | name in LastSaved(init) && name != last.name ::
               LastSaved(saves)[name] == LastSaved(init)[name];
      SaveNames(Record(init).value, LastSaved(init), init[|init| - 1].name, last, plain);
    }
  }

  lemma {:induction false} FirstNames(save: DatabaseSave, plain: set<string>)
    ensures Clamp(WithDatabase(None, save.name, save.current)).otherDatabases == map[]
    ensures Evicted({} - {save.name}, plain) == {}
  {
    var merged := WithDatabase(None, save.name, save.current);
    assert merged.otherDatabases == map[] && {} - {save.name} == {};
    NothingOver(plain);
    ClampAlone(merged, save);
    hide ClampOwn; hide DropTableOnly; hide ClampedOthers; hide Evicted;
  }

  /**
   After any run of saves, a database is found again exactly when it is among those kept by the rule
   above, and reading it back gives its last saved workspace, clamped. A saved one is lost only when
   it has no editor tab, is not the current one, and more databases are known than the limit allows.
   */
  lemma {:induction false} RecordIsMap(saves: seq<DatabaseSave>, name: string)
    requires saves != []
    ensures Record(saves).Some?
    ensures ForDatabase(Record(saves).value, name).Some? <==> name in Lasting(SeenOf(saves))
    ensures match ForDatabase(Record(saves).value, name)
      case Some(w) => name in LastSaved(saves) && Alone(w) == Remembered(name, LastSaved(saves)[name])
      case None =>
        || name !in LastSaved(saves)
        || (name != saves[|saves| - 1].name && !HasEditor(LastSaved(saves)[name])
            && |LastSaved(saves)| > MAX_OTHER_DATABASES + 1)
  {
    hide ClampOwn; hide HasEditor; hide Record; hide LastSaved; hide Remembered; hide Alone; hide Lasting; hide SeenOf;
    RecordHolds(saves);
    RecordNames(saves);
    StayAloneRemembered(saves, name);
  }

  // ---------- a run that loses a database ----------

  function AllNames(seen: seq<Seen>): set<string> { set s | s in seen :: s.name }

  lemma {:induction false} OneMoreName(seen: seq<Seen>)
    requires seen != []
    ensures AllNames(seen) == AllNames(seen[..|seen| - 1]) + {seen[|seen| - 1].name}
    ensures |AllNames(seen)| <= |AllNames(seen[..|seen| - 1])| + 1
  {
    assert seen == seen[..|seen| - 1] + [seen[|seen| - 1]];
  }

  /** However often they are saved, up to seventeen databases lose nothing. */
  lemma {:induction false} FewAreKept(seen: seq<Seen>)
    requires |AllNames(seen)| <= MAX_OTHER_DATABASES + 1
    ensures Lasting(seen) == AllNames(seen)
  {
    if seen != [] {
      var init, name := seen[..|seen| - 1], seen[|seen| - 1].name;
      OneMoreName(seen);
      SubsetSize(AllNames(init), AllNames(seen));
      FewAreKept(init);
      assert AllNames(seen) - {name} == AllNames(init) - {name};
      assert |AllNames(seen) - {name}| == |AllNames(seen)| - 1;
    }
  }

  lemma {:induction false} OneTooMany(names: set<string>, plain: set<string>)
    requires |names| == MAX_OTHER_DATABASES + 1
    ensures Evicted(names, plain) == names - (if names * plain == {} then {} else {Least(names * plain)})
  {
    if names * plain != {} {
      var gone := Least(names * plain);
      assert gone in names;
      assert |names - {gone}| == MAX_OTHER_DATABASES;
    }
  }

  /**
   With an eighteenth database, the least of the earlier names whose last save had no editor tab is
   dropped; with an editor tab in each of them, nothing is.
   */
  lemma {:induction false} EighteenthDisplaces(seen: seq<Seen>)
    requires seen != [] && |AllNames(seen[..|seen| - 1])| == MAX_OTHER_DATABASES + 1
    requires seen[|seen| - 1].name !in AllNames(seen[..|seen| - 1])
    ensures var plain := AllNames(seen[..|seen| - 1]) * Plain(seen);
            Lasting(seen) == AllNames(seen) - (if plain == {} then {} else {Least(plain)})
  {
    hide Plain; hide Evicted;
    var others := AllNames(seen[..|seen| - 1]);
    FewAreKept(seen[..|seen| - 1]);
    OneMoreName(seen);
    assert others - {seen[|seen| - 1].name} == others;
    OneTooMany(others, Plain(seen));
  }

  const BLANK: Workspace := Workspace([], 0, [], [], None, map[], 0)

  function Nth(i: nat): string { seq(i + 1, _ => 'a') }

  function Blanks(count: nat): (r: seq<DatabaseSave>)
    ensures |r| == count && forall i | 0 <= i < count :: r[i] == DatabaseSave(Nth(i), BLANK)
  {
    seq(count, i requires 0 <= i < count => DatabaseSave(Nth(i), BLANK))
  }

  lemma {:induction false} BlanksDiffer(count: nat)
    ensures |AllNames(SeenOf(Blanks(count)))| == count && Plain(SeenOf(Blanks(count))) ==
            AllNames(SeenOf(Blanks(count)))
    ensures forall name | name in AllNames(SeenOf(Blanks(count))) :: |name| <= count
  {
    if count > 0 {
      var seen := SeenOf(Blanks(count));
      BlanksDiffer(count - 1);
      assert seen[..count - 1] == SeenOf(Blanks(count - 1));
      assert seen[count - 1] == Seen(Nth(count - 1), false);
      OneMoreName(seen);
    }
  }

  /** Eighteen databases saved once each, none with an editor tab. */
  const OVERFLOW := Blanks(MAX_OTHER_DATABASES + 2)

  lemma {:induction false} OverflowNames()
    ensures var seen := SeenOf(OVERFLOW);
            var before := AllNames(seen[..|seen| - 1]);
            && |seen| == MAX_OTHER_DATABASES + 2 && |before| == MAX_OTHER_DATABASES + 1
            && seen[|seen| - 1].name !in before && before * Plain(seen) == before != {}
  {
    hide Plain;
    var n := MAX_OTHER_DATABASES + 2;
    var seen := SeenOf(OVERFLOW);
    BlanksDiffer(n);
    BlanksDiffer(n - 1);
    assert seen[..n - 1] == SeenOf(Blanks(n - 1));
    OneMoreName(seen);
    assert seen[0] in seen[..n - 1];
  }

  /** One of these databases is lost. */
  lemma {:induction false} LosingRun() returns (saves: seq<DatabaseSave>, name: string)
    ensures saves != [] && Record(saves).Some? && name in LastSaved(saves)
    ensures ForDatabase(Record(saves).value, name) == None
  {
    hide Record; hide ForDatabase; hide Lasting; hide Plain; hide LastSaved; hide AllNames; hide Blanks;
    saves := OVERFLOW;
    var seen := SeenOf(saves);
    OverflowNames();
    EighteenthDisplaces(seen);
    OneMoreName(seen);
    name := Least(AllNames(seen[..|seen| - 1]) * Plain(seen));
    RecordIsMap(saves, name);
    SavedNames(saves);
  }

  lemma {:induction false} SavedNames(saves: seq<DatabaseSave>)
    ensures LastSaved(saves).Keys == AllNames(SeenOf(saves))
  {
    hide HasEditor;
    if saves != [] {
      var n := |saves| - 1;
      SavedNames(saves[..n]);
      assert SeenOf(saves)[..n] == SeenOf(saves[..n]);
      OneMoreName(SeenOf(saves));
    }
  }

  lemma {:induction false} StayAloneRemembered(saves: seq<DatabaseSave>, name: string)
    ensures name in LastSaved(saves) ==>
              Alone(Remembered(name, LastSaved(saves)[name])) == Remembered(name, LastSaved(saves)[name])
  {
    hide ClampedTabs; hide ClampedActive; hide ClampedGroups; hide ClampedSchemas; hide OverLimit; hide LastSaved;
  }

  /** A saved database is found if its last save has an editor tab or at most seventeen databases were saved. */
  lemma {:induction false} RecordLosesNothing(saves: seq<DatabaseSave>, name: string)
    requires name in LastSaved(saves)
    requires HasEditor(LastSaved(saves)[name]) || |LastSaved(saves)| <= MAX_OTHER_DATABASES + 1
    ensures Record(saves).Some? && ForDatabase(Record(saves).value, name).Some?
  {
    RecordIsMap(saves, name);
    hide Record; hide LastSaved; hide HasEditor; hide ClampOwn;
  }
}
