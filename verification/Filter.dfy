/**
 * Compiling filter rules to a WHERE clause with bound parameters. The clause is a tree whose leaves name
 * parameters by number; what it says about a row is compared with what the rules say.
 */
module Filter {

  import opened Options
  import opened RowIdentity
  import opened Like

  datatype Op =
    | Eq | NotEq | Lt | LtEq | Gt | GtEq
    | HasText | HasPrefix | HasSuffix
    | RawLike | RawNotLike | RawIlike
    | IsNull | IsNotNull | In | NotIn | Between

  datatype FilterValue = Single(s: string) | Pair(lo: string, hi: string) | List(items: seq<string>)
  datatype Rule = Rule(column: string, op: Op, value: Option<FilterValue>)
  datatype Combinator = And | Or
  datatype Column = Column(name: string, dataType: string)

  datatype Error =
    | UnknownColumn(name: string)
    | InvalidValue(column: string, message: string)
    | MissingValue(op: Op)
    | BetweenMissingBound
    | EmptyInList
    | WrongValueShape(op: Op)

  datatype Truth = True | False | Unknown

  /** The driver and the parts of it and of the value parser that the compiler only calls. */
  datatype Engine = Engine(
    driver: string,
    parse: (Column, string) -> Result<Value, string>,
    compare: (Op, Value, Value) -> Truth,
    text: (Column, Value) -> string,
    rawLike: (Op, string, string) -> Truth,
    fragment: (string, Row) -> Truth,
    space: char -> bool,
    defaultEscape: Option<char>)

  type Row = string -> Value

  // ---------- clauses ----------

  datatype Clause =
    | NullTest(col: Column, negated: bool)
    | Comparison(col: Column, op: Op, value: nat)
    | PatternTest(col: Column, pattern: nat, escape: Option<char>)
    | RawPattern(col: Column, op: Op, pattern: nat)
    | Range(col: Column, lo: nat, hi: nat)
    | Membership(col: Column, items: seq<nat>, negated: bool)
    | Fragment(sql: string)

  datatype Where = Only(clause: Clause) | Joined(clauses: seq<Clause>, combinator: Combinator)

  /** The parameters a clause mentions, from left to right. */
  function Mentions(c: Clause): seq<nat> {
    match c
    case NullTest(_, _) => []
    case Comparison(_, _, value) => [value]
    case PatternTest(_, pattern, _) => [pattern]
    case RawPattern(_, _, pattern) => [pattern]
    case Range(_, lo, hi) => [lo, hi]
    case Membership(_, items, _) => items
    case Fragment(_) => []
  }

  function AllMentions(clauses: seq<Clause>): seq<nat> {
    if clauses == [] then [] else AllMentions(clauses[..|clauses| - 1]) + Mentions(clauses[|clauses| - 1])
  }

  function Clauses(w: Where): seq<Clause> { if w.Only? then [w.clause] else w.clauses }

  function Numbers(from: nat, to: nat): (r: seq<nat>)
    requires from <= to
    ensures |r| == to - from && forall i | 0 <= i < |r| :: r[i] == from + i
  {
    seq(to - from, i requires 0 <= i => from + i)
  }

  predicate Bound(mentions: seq<nat>, params: seq<Value>) { forall i | 0 <= i < |mentions| :: mentions[i] < |params| }

  // ---------- three-valued logic ----------

  function Not(t: Truth): Truth { match t case True => False case False => True case Unknown => Unknown }

  function Both(a: Truth, b: Truth): Truth {
    if a == False || b == False then False else if a == True && b == True then True else Unknown
  }

  function Either(a: Truth, b: Truth): Truth { Not(Both(Not(a), Not(b))) }

  function Holds(b: bool): Truth { if b then True else False }

  function Combine(combinator: Combinator, truths: seq<Truth>): Truth {
    if truths == [] then Holds(combinator == And)
    else
      var before := Combine(combinator, truths[..|truths| - 1]);
      var last := truths[|truths| - 1];
      if combinator == And then Both(before, last) else Either(before, last)
  }

  // ---------- what the clause says ----------

  function EqualTo(e: Engine, v: Value, values: seq<Value>): seq<Truth> {
    seq(|values|, i requires 0 <= i < |values| => e.compare(Eq, v, values[i]))
  }

  function Picked(params: seq<Value>, items: seq<nat>): seq<Value>
    requires Bound(items, params)
  {
    seq(|items|, i requires 0 <= i < |items| => params[items[i]])
  }

  function TextOf(v: Value): string { if v.Text? then v.s else "" }

  function Says(e: Engine, c: Clause, params: seq<Value>, row: Row): Truth
    requires Bound(Mentions(c), params)
  {
    var v := if c.Fragment? then Null else row(c.col.name);
    match c
    case Fragment(sql) => e.fragment(sql, row)
    case NullTest(_, negated) => Holds(v.Null? != negated)
    case Comparison(_, op, value) => assert Mentions(c)[0] == value; e.compare(op, v, params[value])
    case PatternTest(col, pattern, escape) =>
      assert Mentions(c)[0] == pattern;
      if v.Null? then Unknown
      else Holds(LikeHolds(e.text(col, v), TextOf(params[pattern]), if escape.Some? then escape else e.defaultEscape,
                           HasClasses(e.driver)))
    case RawPattern(col, op, pattern) =>
      assert Mentions(c)[0] == pattern;
      if v.Null? then Unknown else e.rawLike(op, e.text(col, v), TextOf(params[pattern]))
    case Range(_, lo, hi) =>
      assert Mentions(c)[0] == lo && Mentions(c)[1] == hi;
      Both(e.compare(GtEq, v, params[lo]), e.compare(LtEq, v, params[hi]))
    case Membership(_, items, negated) =>
      var found := Combine(Or, EqualTo(e, v, Picked(params, items)));
      if negated then Not(found) else found
  }

  ghost predicate AllBound(clauses: seq<Clause>, params: seq<Value>) {
    forall c | c in clauses :: Bound(Mentions(c), params)
  }

  ghost function AllSay(e: Engine, clauses: seq<Clause>, params: seq<Value>, row: Row): seq<Truth>
    requires AllBound(clauses, params)
  {
    seq(|clauses|, i requires 0 <= i < |clauses| => Says(e, clauses[i], params, row))
  }

  ghost function WhereSays(e: Engine, w: Where, params: seq<Value>, row: Row): Truth
    requires AllBound(Clauses(w), params)
  {
    if w.Only? then assert w.clause in Clauses(w); Says(e, w.clause, params, row)
    else Combine(w.combinator, AllSay(e, w.clauses, params, row))
  }

  // ---------- what the rules say ----------

  predicate Blank(e: Engine, s: string) { forall i | 0 <= i < |s| :: e.space(s[i]) }

  function ParseError(e: Engine, col: Column, raw: string): Option<Error> {
    match e.parse(col, raw)
    case Ok(_) => None
    case Err(message) => Some(InvalidValue(col.name, message))
  }

  function FirstParseError(e: Engine, col: Column, items: seq<string>): Option<Error> {
    if items == [] then None
    else
      var before := FirstParseError(e, col, items[..|items| - 1]);
      if before.Some? then before else ParseError(e, col, items[|items| - 1])
  }

  /** Why a rule cannot be compiled, when it cannot. */
  function RuleError(e: Engine, col: Column, rule: Rule): Option<Error> {
    if rule.op == IsNull || rule.op == IsNotNull then None
    else if rule.value == None then Some(MissingValue(rule.op))
    else
      match (rule.op, rule.value.value)
      case (Between, Pair(lo, hi)) =>
        if Blank(e, lo) || Blank(e, hi) then Some(BetweenMissingBound) else FirstParseError(e, col, [lo, hi])
      case (In, List(items)) => if items == [] then Some(EmptyInList) else FirstParseError(e, col, items)
      case (NotIn, List(items)) => if items == [] then Some(EmptyInList) else FirstParseError(e, col, items)
      case (Between, _) => Some(WrongValueShape(rule.op))
      case (In, _) => Some(WrongValueShape(rule.op))
      case (NotIn, _) => Some(WrongValueShape(rule.op))
      case (HasText, Single(_)) => None
      case (HasPrefix, Single(_)) => None
      case (HasSuffix, Single(_)) => None
      case (RawLike, Single(_)) => None
      case (RawNotLike, Single(_)) => None
      case (RawIlike, Single(_)) => None
      case (_, Single(raw)) => ParseError(e, col, raw)
      case _ => Some(WrongValueShape(rule.op))
  }

  function Parsed(e: Engine, col: Column, raw: string): Value {
    var r := e.parse(col, raw);
    if r.Ok? then r.value else Null
  }

  function AllParsed(e: Engine, col: Column, items: seq<string>): seq<Value> {
    seq(|items|, i requires 0 <= i < |items| => Parsed(e, col, items[i]))
  }

  /** What a text comparison with what the user typed says; of no value it says nothing. */
  function TextSays(e: Engine, col: Column, v: Value, kind: Kind, raw: string): Truth {
    if v.Null? then Unknown else Holds(Means(kind, raw, e.text(col, v)))
  }

  /** A pattern the user wrote is left to the engine. */
  function RawSays(e: Engine, col: Column, v: Value, op: Op, raw: string): Truth {
    if v.Null? then Unknown else e.rawLike(op, e.text(col, v), raw)
  }

  /** The meaning of a rule for a row. */
  function RuleSays(e: Engine, col: Column, rule: Rule, row: Row): Truth
    requires RuleError(e, col, rule).None?
  {
    var v := row(col.name);
    match rule.op
    case IsNull => Holds(v == Null)
    case IsNotNull => Holds(v != Null)
    case Between =>
      Both(e.compare(GtEq, v, Parsed(e, col, rule.value.value.lo)),
           e.compare(LtEq, v, Parsed(e, col, rule.value.value.hi)))
    case In => Combine(Or, EqualTo(e, v, AllParsed(e, col, rule.value.value.items)))
    case NotIn => Not(Combine(Or, EqualTo(e, v, AllParsed(e, col, rule.value.value.items))))
    case HasText => TextSays(e, col, v, Contains, rule.value.value.s)
    case HasPrefix => TextSays(e, col, v, StartsWith, rule.value.value.s)
    case HasSuffix => TextSays(e, col, v, EndsWith, rule.value.value.s)
    case RawLike => RawSays(e, col, v, RawLike, rule.value.value.s)
    case RawNotLike => RawSays(e, col, v, RawNotLike, rule.value.value.s)
    case RawIlike => RawSays(e, col, v, if IgnoresCase(e.driver) then RawIlike else RawLike, rule.value.value.s)
    case _ => e.compare(rule.op, v, Parsed(e, col, rule.value.value.s))
  }

  /** The engines that have a LIKE without regard to case. */
  predicate IgnoresCase(driver: string) {
    match driver
    case "postgres" => true
    case "duckdb" => true
    case "clickhouse" => true
    case _ => false
  }

  function FindColumn(columns: seq<Column>, name: string): (r: Option<Column>)
    ensures r.Some? ==> r.value in columns && r.value.name == name
    ensures r.None? ==> forall c | c in columns :: c.name != name
  {
    if columns == [] then None
    else if columns[0].name == name then Some(columns[0])
    else FindColumn(columns[1..], name)
  }

  function ErrorIn(e: Engine, columns: seq<Column>, rule: Rule): Option<Error> {
    match FindColumn(columns, rule.column)
    case None => Some(UnknownColumn(rule.column))
    case Some(col) => RuleError(e, col, rule)
  }

  /** The error of the first rule that has one. */
  function FirstError(e: Engine, columns: seq<Column>, rules: seq<Rule>): Option<Error> {
    if rules == [] then None
    else
      var before := FirstError(e, columns, rules[..|rules| - 1]);
      if before.Some? then before else ErrorIn(e, columns, rules[|rules| - 1])
  }

  ghost predicate NoErrors(e: Engine, columns: seq<Column>, rules: seq<Rule>) {
    forall rule | rule in rules :: ErrorIn(e, columns, rule).None?
  }

  lemma {:induction false} FirstErrorNone(e: Engine, columns: seq<Column>, rules: seq<Rule>)
    ensures FirstError(e, columns, rules).None? <==> NoErrors(e, columns, rules)
  {
    if rules != [] {
      FirstErrorNone(e, columns, rules[..|rules| - 1]);
      assert rules == rules[..|rules| - 1] + [rules[|rules| - 1]];
    }
  }

  lemma {:induction false} FirstErrorSticks(e: Engine, columns: seq<Column>, rules: seq<Rule>, i: nat)
    requires i <= |rules| && FirstError(e, columns, rules[..i]).Some?
    ensures FirstError(e, columns, rules) == FirstError(e, columns, rules[..i])
  {
    if i == |rules| {
      assert rules[..i] == rules;
    } else {
      assert rules[..|rules| - 1][..i] == rules[..i];
      FirstErrorSticks(e, columns, rules[..|rules| - 1], i);
    }
  }

  ghost function RulesSay(e: Engine, columns: seq<Column>, rules: seq<Rule>, row: Row): seq<Truth>
    requires NoErrors(e, columns, rules)
  {
    seq(|rules|, i requires 0 <= i < |rules| =>
      assert rules[i] in rules;
      RuleSays(e, FindColumn(columns, rules[i].column).value, rules[i], row))
  }

  // ---------- what the compiler chooses ----------

  function ShapeError(rule: Rule): Error {
    if rule.value.None? then MissingValue(rule.op) else WrongValueShape(rule.op)
  }

  predicate Ordered(op: Op) { op.Eq? || op.NotEq? || op.Lt? || op.LtEq? || op.Gt? || op.GtEq? }

  predicate Raw(op: Op) { op.RawLike? || op.RawNotLike? || op.RawIlike? }

  function KindOf(op: Op): Kind { if op.HasText? then Contains else if op.HasPrefix? then StartsWith else EndsWith }

  function NativeOp(driver: string, op: Op): Op {
    if op.RawIlike? && driver !in ["postgres", "duckdb", "clickhouse"] then RawLike else op
  }

  // ---------- the escape in force ----------

  function DialectOf(driver: string): Dialect {
    if driver == "mysql" then MySql else if driver == "mssql" then MsSql else Backslash
  }

  predicate NeedsEscapeClause(driver: string) { driver in ["sqlite", "duckdb", "mssql"] }

  function EscapeClause(driver: string): Option<char> {
    if driver == "mysql" then Some('|') else if NeedsEscapeClause(driver) then Some('\\') else None
  }

  /** The character each engine's LIKE escapes with when the clause names none. */
  predicate EscapesAsEngine(e: Engine) {
    match e.driver
    case "postgres" => e.defaultEscape == Some('\\')
    case "mysql" => e.defaultEscape == Some('\\')
    case "clickhouse" => e.defaultEscape == Some('\\')
    case "sqlite" => e.defaultEscape == None
    case "duckdb" => e.defaultEscape == None
    case "mssql" => e.defaultEscape == None
    case _ => e.defaultEscape == Some('\\')
  }

  /** Brackets in a pattern are classes for one engine only. */
  predicate HasClasses(driver: string) { driver == "mssql" }

  lemma {:induction false} PatternClauseMeans(e: Engine, kind: Kind, raw: string, text: string)
    requires EscapesAsEngine(e)
    ensures var escape := EscapeClause(e.driver);
            LikeHolds(text, Pattern(DialectOf(e.driver), kind, raw),
                      if escape.Some? then escape else e.defaultEscape, HasClasses(e.driver))
            <==> Means(kind, raw, text)
  {
    PatternMeans(DialectOf(e.driver), kind, raw, text);
  }

  /** Where no escape is named, the patterns mean what they should exactly if the engine escapes by backslash. */
  lemma {:induction false} NoClauseNeedsDefault(e: Engine)
    requires EscapeClause(e.driver) == None
    ensures (forall kind, raw, text :: LikeHolds(text, Pattern(DialectOf(e.driver), kind, raw), e.defaultEscape, false)
                                       <==> Means(kind, raw, text))
       <==> e.defaultEscape == Some('\\')
  {
    if e.defaultEscape == Some('\\') {
      forall kind, raw, text
        ensures LikeHolds(text, Pattern(Backslash, kind, raw), e.defaultEscape, false) <==> Means(kind, raw, text)
      {
        PatternMeans(Backslash, kind, raw, text);
      }
    } else {
      LostPercent(e.defaultEscape);
    }
  }

  /** Searched for where nothing escapes by backslash, a percent sign is not found in itself. */
  lemma {:induction false} LostPercent(escape: Option<char>)
    requires escape != Some('\\')
    ensures Means(Contains, "%", "%") && !LikeHolds("%", Pattern(Backslash, Contains, "%"), escape, false)
  {
    assert "%" <= "%"[0..];
    EscapeIsEscaped(Backslash, "%");
    var pattern := Pattern(Backslash, Contains, "%");
    assert Escaped(Backslash, "") == "" && Escaped(Backslash, "%") == ['\\', '%'] + "";
    assert pattern == ['%', '\\', '%', '%'];
    if escape != Some('%') {
      assert pattern[1..] == ['\\', '%', '%'] && pattern[1..][1..] == ['%', '%'];
      var rest := Parse(['%', '%'], escape, false);
      assert Parse(pattern[1..], escape, false) == Prefixed(Exactly('\\'), rest);
      if rest.Some? {
        var tokens := Parse(pattern, escape, false).value;
        assert tokens[0] == AnyRun && tokens[1..] == [Exactly('\\')] + rest.value;
        forall k | 0 <= k <= 1 ensures !Matches(tokens[1..], "%"[k..]) {}
      }
    }
  }

  // ---------- compiling ----------

  /** The clause mentions exactly the new parameters, in order, and says what the rule says. */
  ghost predicate Compiled(e: Engine, col: Column, rule: Rule, c: Clause, params: seq<Value>, all: seq<Value>)
    requires RuleError(e, col, rule).None?
  {
    && params <= all
    && Mentions(c) == Numbers(|params|, |all|)
    && forall more, row :: SaysRule(e, col, rule, c, all + more, row)
  }

  ghost predicate SaysRule(e: Engine, col: Column, rule: Rule, c: Clause, params: seq<Value>, row: Row)
    requires RuleError(e, col, rule).None?
  {
    Bound(Mentions(c), params) && Says(e, c, params, row) == RuleSays(e, col, rule, row)
  }

  method BuildRule(e: Engine, col: Column, rule: Rule, params: seq<Value>)
    returns (r: Result<Clause, Error>, all: seq<Value>)
    requires EscapesAsEngine(e)
    ensures match RuleError(e, col, rule)
      case Some(error) => r == Err(error)
      case None => r.Ok? && Compiled(e, col, rule, r.value, params, all)
  {
    hide LikeHolds; hide Pattern; hide Means; hide Combine;
    all := params;
    var index := |params|;
    if rule.op.IsNull? {
      r := Ok(NullTest(col, false));
    } else if rule.op.IsNotNull? {
      r := Ok(NullTest(col, true));
    } else if rule.op.Between? {
      r, all := BuildRange(e, col, rule, params);
    } else if rule.op.In? || rule.op.NotIn? {
      r, all := BuildMembership(e, col, rule, params);
    } else if rule.value.None? || !rule.value.value.Single? {
      r := Err(ShapeError(rule));
    } else {
      var raw := rule.value.value.s;
      if Ordered(rule.op) {
        var value := e.parse(col, raw);
        if value.Err? { return Err(InvalidValue(col.name, value.error)), all; }
        all := all + [value.value];
        r := Ok(Comparison(col, rule.op, index));
      } else if Raw(rule.op) {
        all := all + [Text(raw)];
        r := Ok(RawPattern(col, NativeOp(e.driver, rule.op), index));
      } else {
        var pattern := Pattern(DialectOf(e.driver), KindOf(rule.op), raw);
        all := all + [Text(pattern)];
        r := Ok(PatternTest(col, index, EscapeClause(e.driver)));
        forall text: string { PatternClauseMeans(e, KindOf(rule.op), raw, text); }
      }
    }
  }

  method BuildRange(e: Engine, col: Column, rule: Rule, params: seq<Value>)
    returns (r: Result<Clause, Error>, all: seq<Value>)
    requires rule.op.Between?
    ensures match RuleError(e, col, rule)
      case Some(error) => r == Err(error)
      case None => r.Ok? && Compiled(e, col, rule, r.value, params, all)
  {
    all := params;
    if rule.value.None? || !rule.value.value.Pair? { return Err(ShapeError(rule)), all; }
    var lo, hi := rule.value.value.lo, rule.value.value.hi;
    TwoParseErrors(e, col, lo, hi);
    if Blank(e, lo) || Blank(e, hi) { return Err(BetweenMissingBound), all; }
    var low, high := e.parse(col, lo), e.parse(col, hi);
    if low.Err? { return Err(InvalidValue(col.name, low.error)), all; }
    if high.Err? { return Err(InvalidValue(col.name, high.error)), all; }
    all := all + [low.value];
    all := all + [high.value];
    r := Ok(Range(col, |params|, |params| + 1));
  }

  lemma {:induction false} TwoParseErrors(e: Engine, col: Column, lo: string, hi: string)
    ensures FirstParseError(e, col, [lo, hi]) ==
      if ParseError(e, col, lo).Some? then ParseError(e, col, lo) else ParseError(e, col, hi)
  {
    assert [lo, hi][..1] == [lo] && [lo][..0] == [];
    assert FirstParseError(e, col, [lo]) == ParseError(e, col, lo);
  }

  /** One parameter an item, up to the first that is no value of the column. */
  method BindItems(e: Engine, col: Column, items: seq<string>, params: seq<Value>)
    returns (r: Result<seq<nat>, Error>, all: seq<Value>)
    ensures match FirstParseError(e, col, items)
      case Some(error) => r == Err(error)
      case None => all == params + AllParsed(e, col, items) && r == Ok(Numbers(|params|, |all|))
  {
    all := params;
    var placeholders: seq<nat> := [];
    for i := 0 to |items|
      invariant FirstParseError(e, col, items[..i]).None?
      invariant all == params + AllParsed(e, col, items[..i])
      invariant placeholders == Numbers(|params|, |all|)
    {
      assert items[..i + 1][..i] == items[..i];
      var value := e.parse(col, items[i]);
      if value.Err? {
        ParseErrorSticks(e, col, items, i + 1);
        return Err(InvalidValue(col.name, value.error)), all;
      }
      placeholders := placeholders + [|all|];
      all := all + [value.value];
    }
    assert items[..|items|] == items;
    r := Ok(placeholders);
  }

  method BuildMembership(e: Engine, col: Column, rule: Rule, params: seq<Value>)
    returns (r: Result<Clause, Error>, all: seq<Value>)
    requires rule.op.In? || rule.op.NotIn?
    ensures match RuleError(e, col, rule)
      case Some(error) => r == Err(error)
      case None => r.Ok? && Compiled(e, col, rule, r.value, params, all)
  {
    hide Combine;
    all := params;
    if rule.value.None? || !rule.value.value.List? { return Err(ShapeError(rule)), all; }
    var items := rule.value.value.items;
    if items == [] { return Err(EmptyInList), all; }
    var bound;
    bound, all := BindItems(e, col, items, params);
    if bound.Err? { return Err(bound.error), all; }
    var c := Membership(col, bound.value, rule.op.NotIn?);
    forall more, row: Row ensures SaysRule(e, col, rule, c, all + more, row) {
      assert Picked(all + more, bound.value) == AllParsed(e, col, items);
    }
    r := Ok(c);
  }

  lemma {:induction false} ParseErrorSticks(e: Engine, col: Column, items: seq<string>, i: nat)
    requires i <= |items| && FirstParseError(e, col, items[..i]).Some?
    ensures FirstParseError(e, col, items) == FirstParseError(e, col, items[..i])
  {
    if i == |items| {
      assert items[..i] == items;
    } else {
      assert items[..|items| - 1][..i] == items[..i];
      ParseErrorSticks(e, col, items[..|items| - 1], i);
    }
  }

  /** All clauses so far: parameters mentioned once each in order, every clause saying what its rule says. */
  ghost predicate AllCompiled(e: Engine, columns: seq<Column>, rules: seq<Rule>, clauses: seq<Clause>,
                              params: seq<Value>)
    requires NoErrors(e, columns, rules)
  {
    && |clauses| == |rules|
    && AllMentions(clauses) == Numbers(0, |params|)
    && forall i, more, row | 0 <= i < |rules| :: ClauseSaysRule(e, columns, rules, clauses, i, params + more, row)
  }

  ghost predicate ClauseSaysRule(e: Engine, columns: seq<Column>, rules: seq<Rule>, clauses: seq<Clause>, i: nat,
                                 params: seq<Value>, row: Row)
    requires NoErrors(e, columns, rules) && i < |rules| == |clauses|
  {
    assert rules[i] in rules;
    SaysRule(e, FindColumn(columns, rules[i].column).value, rules[i], clauses[i], params, row)
  }

  lemma {:induction false} CombineOne(combinator: Combinator, truths: seq<Truth>)
    requires |truths| == 1
    ensures Combine(combinator, truths) == truths[0]
  {
    assert truths[..0] == [];
  }

  lemma {:induction false} CompiledSay(e: Engine, columns: seq<Column>, rules: seq<Rule>, clauses: seq<Clause>,
                                       params: seq<Value>, row: Row)
    requires NoErrors(e, columns, rules) && AllCompiled(e, columns, rules, clauses, params)
    ensures AllBound(clauses, params) && AllSay(e, clauses, params, row) == RulesSay(e, columns, rules, row)
  {
    hide RuleError; hide Says; hide RuleSays;
    assert params + [] == params;
    forall i | 0 <= i < |rules| ensures ClauseSaysRule(e, columns, rules, clauses, i, params, row) {
      assert ClauseSaysRule(e, columns, rules, clauses, i, params + [], row);
    }
    forall c | c in clauses ensures Bound(Mentions(c), params) {
      var i :| 0 <= i < |clauses| && clauses[i] == c;
      assert ClauseSaysRule(e, columns, rules, clauses, i, params, row);
    }
    forall i | 0 <= i < |rules| ensures AllSay(e, clauses, params, row)[i] == RulesSay(e, columns, rules, row)[i] {
      assert ClauseSaysRule(e, columns, rules, clauses, i, params, row);
    }
  }

  lemma {:induction false} OneMoreRule(
    e: Engine, columns: seq<Column>, rules: seq<Rule>, rule: Rule,
    clauses: seq<Clause>, c: Clause, params: seq<Value>, all: seq<Value>)
    requires NoErrors(e, columns, rules) && NoErrors(e, columns, rules + [rule]) && ErrorIn(e, columns, rule).None?
    requires AllCompiled(e, columns, rules, clauses, params)
    requires Compiled(e, FindColumn(columns, rule.column).value, rule, c, params, all)
    ensures AllCompiled(e, columns, rules + [rule], clauses + [c], all)
  {
    hide RuleError; hide Says; hide RuleSays; hide Mentions;
    var r, cs := rules + [rule], clauses + [c];
    assert cs[..|clauses|] == clauses;
    assert Numbers(0, |params|) + Numbers(|params|, |all|) == Numbers(0, |all|);
    forall i, more, row: Row | 0 <= i < |r| ensures ClauseSaysRule(e, columns, r, cs, i, all + more, row) {
      if i < |rules| {
        assert all + more == params + (all[|params|..] + more);
        assert ClauseSaysRule(e, columns, rules, clauses, i, params + (all[|params|..] + more), row);
      } else {
        assert SaysRule(e, FindColumn(columns, rule.column).value, rule, c, all + more, row);
      }
    }
  }

  // ---------- the user's own SQL ----------

  function Trimmed(e: Engine, s: string): (r: string)
    ensures r == [] <==> Blank(e, s)
  {
    if s != [] && e.space(s[0]) then assert s == [s[0]] + s[1..]; Trimmed(e, s[1..])
    else if s != [] && e.space(s[|s| - 1]) then Trimmed(e, s[..|s| - 1])
    else s
  }

  /** The user's SQL, unless there is none or only spaces. */
  function Extra(e: Engine, sql: Option<string>): Option<string> {
    if sql.None? || Blank(e, sql.value) then None else Some(Trimmed(e, sql.value))
  }

  function WithExtra(clauses: seq<Clause>, extra: Option<string>): seq<Clause> {
    if extra.None? then clauses else clauses + [Fragment(extra.value)]
  }

  /** What the rules and the user's SQL say, one by one. */
  ghost function SetSays(e: Engine, columns: seq<Column>, rules: seq<Rule>, extra: Option<string>, row: Row): seq<Truth>
    requires NoErrors(e, columns, rules)
  {
    var truths := RulesSay(e, columns, rules, row);
    if extra.None? then truths else truths + [e.fragment(extra.value, row)]
  }

  lemma {:induction false} ExtraSays(e: Engine, columns: seq<Column>, rules: seq<Rule>, extra: Option<string>,
                                     clauses: seq<Clause>, params: seq<Value>, row: Row)
    requires NoErrors(e, columns, rules) && AllCompiled(e, columns, rules, clauses, params)
    ensures var all := WithExtra(clauses, extra);
            && AllMentions(all) == Numbers(0, |params|) && AllBound(all, params)
            && AllSay(e, all, params, row) == SetSays(e, columns, rules, extra, row)
  {
    hide RuleError; hide RuleSays;
    CompiledSay(e, columns, rules, clauses, params, row);
    if extra.Some? {
      var all := WithExtra(clauses, extra);
      assert all[..|clauses|] == clauses;
      assert Mentions(all[|clauses|]) == [];
      assert AllMentions(all) == AllMentions(clauses) + [];
    }
  }

  /** One clause stands alone and several are joined; either way they say what they say together. */
  lemma {:induction false} JoinedSay(e: Engine, clauses: seq<Clause>, combinator: Combinator, params: seq<Value>,
                                     row: Row)
    requires clauses != [] && AllBound(clauses, params)
    ensures var w := if |clauses| == 1 then Only(clauses[0]) else Joined(clauses, combinator);
            Clauses(w) == clauses && WhereSays(e, w, params, row) ==
              Combine(combinator, AllSay(e, clauses, params, row))
  {
    hide Says; hide Mentions;
    if |clauses| == 1 {
      assert [clauses[0]] == clauses;
      CombineOne(combinator, AllSay(e, clauses, params, row));
    }
  }

  // ---------- its text ----------

  /** Where a reader of SQL is after some text; in code and in a block comment it remembers the last character. */
  datatype Mode = InCode(last: char) | InLineComment | InBlockComment(last: char) | InQuotes(quote: char)

  /** Some engines also begin a line comment with `#`. */
  function Next(hash: bool, mode: Mode, c: char): Mode {
    match mode
    case InCode(last) =>
      if (c == '-' && last == '-') || (c == '#' && hash) then InLineComment
      else if c == '*' && last == '/' then InBlockComment(' ')
      else if c in ['\'', '"', '`'] then InQuotes(c)
      else InCode(c)
    case InLineComment => if c == '\n' then InCode(c) else mode
    case InBlockComment(last) => if c == '/' && last == '*' then InCode(' ') else InBlockComment(c)
    case InQuotes(quote) => if c == quote then InCode(c) else mode
  }

  function ReadFrom(hash: bool, start: Mode, text: string): Mode {
    if text == [] then start else Next(hash, ReadFrom(hash, start, text[..|text| - 1]), text[|text| - 1])
  }

  function Read(hash: bool, text: string): Mode { ReadFrom(hash, InCode(' '), text) }

  predicate HasDashes(text: string) { exists i | 0 <= i < |text| - 1 :: text[i] == '-' && text[i + 1] == '-' }

  predicate MayEndInComment(sql: string) { HasDashes(sql) || '#' in sql }

  /** The user's SQL in parentheses, with a line end before the closing one when it may end in a comment. */
  function FragmentText(sql: string): string { "(" + sql + (if MayEndInComment(sql) then "\n" else "") + ")" }

  /** The opening parenthesis changes nothing for the text after it. */
  lemma {:induction false} Opened(hash: bool, sql: string)
    ensures ReadFrom(hash, InCode('('), sql) == if sql == [] then InCode('(') else Read(hash, sql)
  {
    if sql != [] {
      var n := |sql| - 1;
      Opened(hash, sql[..n]);
      assert ReadFrom(hash, InCode('('), sql) == Next(hash, ReadFrom(hash, InCode('('), sql[..n]), sql[n]);
      assert Read(hash, sql) == Next(hash, Read(hash, sql[..n]), sql[n]);
    }
  }

  lemma {:induction false} ReadJoin(hash: bool, start: Mode, a: string, b: string)
    ensures ReadFrom(hash, start, a + b) == ReadFrom(hash, ReadFrom(hash, start, a), b)
  {
    if b == [] {
      assert a + b == a;
    } else {
      assert (a + b)[..|a + b| - 1] == a + b[..|b| - 1];
      ReadJoin(hash, start, a, b[..|b| - 1]);
    }
  }

  /** Only a comment sign brings the reader into a line comment, and dashes are remembered one by one. */
  lemma {:induction false} CommentHasSign(hash: bool, text: string)
    ensures Read(hash, text).InLineComment? ==> MayEndInComment(text)
    ensures Read(hash, text) == InCode('-') ==> text != [] && text[|text| - 1] == '-'
    ensures Read(hash, text).InQuotes? ==> Read(hash, text).quote in ['\'', '"', '`']
  {
    if text != [] {
      var n := |text| - 1;
      CommentHasSign(hash, text[..n]);
      if HasDashes(text[..n]) {
        var i :| 0 <= i < n - 1 && text[..n][i] == '-' && text[..n][i + 1] == '-';
        assert text[i] == '-' && text[i + 1] == '-';
      }
      if n > 0 && text[..n][n - 1] == '-' && text[n] == '-' { assert text[n - 1] == '-' && text[n - 1 + 1] == '-'; }
    }
  }

  /**
   * The closing parenthesis is read as code exactly when the user's SQL ends in code or in a line comment:
   * no comment swallows it, so what is joined after the fragment stays outside of it.
   */
  lemma {:induction false} FragmentCloses(hash: bool, sql: string)
    ensures var text := FragmentText(sql);
      Read(hash, text[..|text| - 1]).InCode? <==> Read(hash, sql).InCode? || Read(hash, sql).InLineComment?
    ensures Read(hash, sql).InCode? || Read(hash, sql).InLineComment? ==> Read(hash, FragmentText(sql)) == InCode(')')
  {
    hide MayEndInComment; hide ReadFrom;
    var text := FragmentText(sql);
    var inner := if MayEndInComment(sql) then "(" + sql + "\n" else "(" + sql;
    assert text == inner + ")" && text[..|text| - 1] == inner;
    CommentHasSign(hash, sql);
    var mode := ReadFrom(hash, InCode('('), sql);
    Opened(hash, sql);
    assert mode.InCode? <==> Read(hash, sql).InCode? by { if sql == [] { NothingRead(hash); } }
    ReadOne(hash, InCode(' '), '(');
    ReadJoin(hash, InCode(' '), "(", sql);
    ReadJoin(hash, InCode(' '), "(" + sql, "\n");
    ReadOne(hash, mode, '\n');
    ReadJoin(hash, InCode(' '), inner, ")");
    ReadOne(hash, Read(hash, inner), ')');
  }

  lemma {:induction false} NothingRead(hash: bool)
    ensures Read(hash, []) == InCode(' ')
  {}

  lemma {:induction false} ReadOne(hash: bool, start: Mode, c: char)
    ensures ReadFrom(hash, start, [c]) == Next(hash, start, c)
  {
    assert [c][..0] == [];
  }

  // ---------- the filter ----------

  /** One clause a rule, up to the first rule that does not compile. */
  method BuildClauses(e: Engine, columns: seq<Column>, rules: seq<Rule>)
    returns (r: Result<(seq<Clause>, seq<Value>), Error>)
    requires EscapesAsEngine(e)
    ensures match FirstError(e, columns, rules)
      case Some(error) => r == Err(error)
      case None => NoErrors(e, columns, rules) && r.Ok? && AllCompiled(e, columns, rules, r.value.0, r.value.1)
  {
    hide RuleError; hide Says; hide RuleSays;
    var params: seq<Value> := [];
    var clauses: seq<Clause> := [];
    for i := 0 to |rules|
      invariant FirstError(e, columns, rules[..i]).None? && NoErrors(e, columns, rules[..i])
      invariant AllCompiled(e, columns, rules[..i], clauses, params)
    {
      assert rules[..i + 1][..i] == rules[..i];
      var found := FindColumn(columns, rules[i].column);
      if found.None? {
        FirstErrorSticks(e, columns, rules, i + 1);
        return Err(UnknownColumn(rules[i].column));
      }
      var built, all := BuildRule(e, found.value, rules[i], params);
      if built.Err? {
        FirstErrorSticks(e, columns, rules, i + 1);
        return Err(built.error);
      }
      FirstErrorNone(e, columns, rules[..i + 1]);
      OneMoreRule(e, columns, rules[..i], rules[i], clauses, built.value, params, all);
      assert rules[..i] + [rules[i]] == rules[..i + 1];
      clauses := clauses + [built.value];
      params := all;
    }
    assert rules[..|rules|] == rules;
    r := Ok((clauses, params));
  }

  /**
   * The filter's WHERE clause. It fails with the first rule's error; otherwise the parameters are mentioned
   * in order, each once, and for every row the clause says what the rules and the user's SQL together say.
   */
  method BuildFilterWhere(e: Engine, columns: seq<Column>, rules: seq<Rule>, combinator: Combinator,
                          sql: Option<string>)
    returns (r: Result<Option<(Where, seq<Value>)>, Error>)
    requires EscapesAsEngine(e)
    ensures match FirstError(e, columns, rules)
      case Some(error) => r == Err(error)
      case None =>
        && NoErrors(e, columns, rules)
        && r.Ok?
        && (r.value.None? <==> rules == [] && (sql.None? || Blank(e, sql.value)))
        && (r.value.Some? ==>
              var (w, params) := r.value.value;
              && AllMentions(Clauses(w)) == Numbers(0, |params|)
              && AllBound(Clauses(w), params)
              && forall row ::
                   WhereSays(e, w, params, row) == Combine(combinator, SetSays(e, columns, rules, Extra(e, sql), row)))
  {
    hide RuleError; hide Says; hide RuleSays; hide Combine; hide Blank; hide Trimmed;
    var extra := Extra(e, sql);
    if rules == [] && extra.None? { return Ok(None); }
    var built := BuildClauses(e, columns, rules);
    if built.Err? { return Err(built.error); }
    var (clauses, params) := built.value;
    var parts := WithExtra(clauses, extra);
    var w := if |parts| == 1 then Only(parts[0]) else Joined(parts, combinator);
    ExtraSays(e, columns, rules, extra, clauses, params, _ => Null);
    JoinedSay(e, parts, combinator, params, _ => Null);
    forall row: Row
      ensures WhereSays(e, w, params, row) == Combine(combinator, SetSays(e, columns, rules, extra, row))
    {
      ExtraSays(e, columns, rules, extra, clauses, params, row);
      JoinedSay(e, parts, combinator, params, row);
    }
    r := Ok(Some((w, params)));
  }
}
