/**
 * Patterns for "contains", "starts with" and "ends with", and the LIKE predicate they are handed to
 * (section 8.5 of ISO/IEC 9075-2, with the character classes SQL Server adds).
 */
module Like {

  import opened Options
  import opened Texts

  datatype Dialect = MySql | MsSql | Backslash

  datatype Kind = Contains | StartsWith | EndsWith

  // ---------- building ----------

  function EscapeLike(d: Dialect, s: string): string {
    if d == MySql then Replace(Replace(Replace(s, '|', "||"), '%', "|%"), '_', "|_")
    else
      var escaped := Replace(Replace(Replace(s, '\\', "\\\\"), '%', "\\%"), '_', "\\_");
      if d == MsSql then Replace(escaped, '[', "\\[") else escaped
  }

  function Pattern(d: Dialect, kind: Kind, s: string): string {
    var escaped := EscapeLike(d, s);
    match kind
    case Contains => "%" + escaped + "%"
    case StartsWith => escaped + "%"
    case EndsWith => "%" + escaped
  }

  /** The character the pattern is escaped with. */
  function EscapeChar(d: Dialect): char { if d == MySql then '|' else '\\' }

  // ---------- the LIKE predicate ----------

  datatype Token = Exactly(c: char) | AnyOne | AnyRun | OneOf(set_: string, negated: bool)

  /**
   * Reads a pattern. An escape must stand before the escape itself, a wildcard or, where classes
   * exist, an opening bracket; a class must be closed.
   */
  function Parse(pattern: string, escape: Option<char>, classes: bool): Option<seq<Token>>
    decreases |pattern|
  {
    if pattern == "" then Some([])
    else if Some(pattern[0]) == escape then
      if |pattern| > 1 && (pattern[1] in [pattern[0], '%', '_'] || (classes && pattern[1] == '['))
      then Prefixed(Exactly(pattern[1]), Parse(pattern[2..], escape, classes))
      else None
    else if pattern[0] == '%' then Prefixed(AnyRun, Parse(pattern[1..], escape, classes))
    else if pattern[0] == '_' then Prefixed(AnyOne, Parse(pattern[1..], escape, classes))
    else if classes && pattern[0] == '[' then
      var end := Closing(pattern, 1);
      if end == |pattern| then None
      else
        var negated := pattern[1] == '^';
        Prefixed(OneOf(if negated then pattern[2..end] else pattern[1..end], negated),
                 Parse(pattern[end + 1..], escape, classes))
    else Prefixed(Exactly(pattern[0]), Parse(pattern[1..], escape, classes))
  }

  function Prefixed(token: Token, rest: Option<seq<Token>>): Option<seq<Token>> {
    match rest
    case None => None
    case Some(tokens) => Some([token] + tokens)
  }

  function Closing(pattern: string, from: nat): (end: nat)
    requires from <= |pattern|
    ensures from <= end <= |pattern| && (end < |pattern| ==> pattern[end] == ']')
    decreases |pattern| - from
  {
    if from == |pattern| || pattern[from] == ']' then from else Closing(pattern, from + 1)
  }

  /** Membership in a class written as characters and ranges. */
  predicate InClass(c: char, set_: string) {
    if set_ == "" then false
    else if |set_| >= 3 && set_[1] == '-' then set_[0] <= c <= set_[2] || InClass(c, set_[3..])
    else c == set_[0] || InClass(c, set_[1..])
  }

  predicate Matches(tokens: seq<Token>, text: string)
    decreases |tokens|
  {
    if tokens == [] then text == ""
    else
      match tokens[0]
      case AnyRun => exists k | 0 <= k <= |text| :: Matches(tokens[1..], text[k..])
      case AnyOne => text != "" && Matches(tokens[1..], text[1..])
      case Exactly(c) => text != "" && text[0] == c && Matches(tokens[1..], text[1..])
      case OneOf(set_, negated) => text != "" && InClass(text[0], set_) != negated && Matches(tokens[1..], text[1..])
  }

  predicate LikeHolds(text: string, pattern: string, escape: Option<char>, classes: bool) {
    match Parse(pattern, escape, classes)
    case None => false
    case Some(tokens) => Matches(tokens, text)
  }

  // ---------- what the kinds mean ----------

  predicate Means(kind: Kind, s: string, text: string) {
    match kind
    case Contains => exists i | 0 <= i <= |text| :: s <= text[i..]
    case StartsWith => s <= text
    case EndsWith => |s| <= |text| && text[|text| - |s|..] == s
  }

  // ---------- escaping, character by character ----------

  predicate Special(d: Dialect, c: char) { c in [EscapeChar(d), '%', '_'] || (d == MsSql && c == '[') }

  function Escaped(d: Dialect, s: string): string {
    if s == "" then "" else (if Special(d, s[0]) then [EscapeChar(d), s[0]] else [s[0]]) + Escaped(d, s[1..])
  }

  /** The chained replacements are one replacement, because the escape character goes first. */
  lemma {:induction false} EscapeIsEscaped(d: Dialect, s: string)
    ensures EscapeLike(d, s) == Escaped(d, s)
  {
    if s != "" {
      EscapeIsEscaped(d, s[1..]);
      assert s == [s[0]] + s[1..];
      EscapeJoin(d, [s[0]], s[1..]);
      EscapeOne(d, s[0]);
    }
  }

  lemma {:induction false} EscapeJoin(d: Dialect, a: string, b: string)
    ensures EscapeLike(d, a + b) == EscapeLike(d, a) + EscapeLike(d, b)
  {
    hide Replace;
    var e := EscapeChar(d);
    ReplaceJoin(a, b, e, [e, e]);
    var a1, b1 := Replace(a, e, [e, e]), Replace(b, e, [e, e]);
    ReplaceJoin(a1, b1, '%', [e, '%']);
    var a2, b2 := Replace(a1, '%', [e, '%']), Replace(b1, '%', [e, '%']);
    ReplaceJoin(a2, b2, '_', [e, '_']);
    ReplaceJoin(Replace(a2, '_', [e, '_']), Replace(b2, '_', [e, '_']), '[', [e, '[']);
  }

  lemma {:induction false} EscapeOne(d: Dialect, c: char)
    ensures EscapeLike(d, [c]) == if Special(d, c) then [EscapeChar(d), c] else [c]
  {
    hide Replace;
    var e := EscapeChar(d);
    ReplaceShort([c], e, [e, e]);
    var s1 := Replace([c], e, [e, e]);
    ReplaceShort(s1, '%', [e, '%']);
    var s2 := Replace(s1, '%', [e, '%']);
    ReplaceShort(s2, '_', [e, '_']);
    ReplaceShort(Replace(s2, '_', [e, '_']), '[', [e, '[']);
  }

  // ---------- reading the pattern back ----------

  function Literal(s: string): seq<Token> {
    if s == "" then [] else [Exactly(s[0])] + Literal(s[1..])
  }

  lemma {:induction false} ParseOne(d: Dialect, c: char, tail: string)
    ensures Parse((if Special(d, c) then [EscapeChar(d), c] else [c]) + tail, Some(EscapeChar(d)), d == MsSql)
         == Prefixed(Exactly(c), Parse(tail, Some(EscapeChar(d)), d == MsSql))
  {
    assert ([EscapeChar(d), c] + tail)[2..] == tail;
    assert ([c] + tail)[1..] == tail;
  }

  function Then(tokens: seq<Token>, rest: Option<seq<Token>>): Option<seq<Token>> {
    match rest
    case None => None
    case Some(more) => Some(tokens + more)
  }

  lemma {:induction false} ThenOne(token: Token, tokens: seq<Token>, rest: Option<seq<Token>>)
    ensures Then([], rest) == rest
    ensures Prefixed(token, Then(tokens, rest)) == Then([token] + tokens, rest)
  {
    if rest.Some? {
      assert [] + rest.value == rest.value;
      assert [token] + (tokens + rest.value) == [token] + tokens + rest.value;
    }
  }

  lemma {:induction false} ParseEscaped(d: Dialect, s: string, rest: string)
    ensures Parse(Escaped(d, s) + rest, Some(EscapeChar(d)), d == MsSql) ==
            Then(Literal(s), Parse(rest, Some(EscapeChar(d)), d == MsSql))
  {
    hide Parse; hide Special; hide Then; hide Prefixed;
    var e := EscapeChar(d);
    var parsed := Parse(rest, Some(e), d == MsSql);
    if s == "" {
      assert Escaped(d, s) + rest == rest;
      ThenOne(AnyRun, [], parsed);
    } else {
      ParseEscaped(d, s[1..], rest);
      var tail := Escaped(d, s[1..]) + rest;
      ParseOne(d, s[0], tail);
      assert Escaped(d, s) + rest == (if Special(d, s[0]) then [e, s[0]] else [s[0]]) + tail;
      ThenOne(Exactly(s[0]), Literal(s[1..]), parsed);
    }
  }

  lemma {:induction false} ParseRun(e: Option<char>, classes: bool, rest: string)
    requires e != Some('%')
    ensures Parse("%" + rest, e, classes) == Prefixed(AnyRun, Parse(rest, e, classes))
    ensures Parse("%", e, classes) == Some([AnyRun])
  {
    assert ("%" + rest)[1..] == rest;
    assert "%"[1..] == "";
    ParseNothing(e, classes);
    assert [AnyRun] + [] == [AnyRun];
  }

  /** Every pattern is well formed and stands for the typed text between the right wildcards. */
  lemma {:induction false} PatternTokens(d: Dialect, kind: Kind, s: string)
    ensures Parse(Pattern(d, kind, s), Some(EscapeChar(d)), d == MsSql)
         == Some(match kind
                 case Contains => [AnyRun] + Literal(s) + [AnyRun]
                 case StartsWith => Literal(s) + [AnyRun]
                 case EndsWith => [AnyRun] + Literal(s))
  {
    hide Parse; hide EscapeLike; hide Escaped;
    var e, classes := Some(EscapeChar(d)), d == MsSql;
    EscapeIsEscaped(d, s);
    var escaped := Escaped(d, s);
    ParseRun(e, classes, escaped + "%");
    ParseRun(e, classes, escaped);
    ParseEscaped(d, s, "%");
    ParseEscaped(d, s, "");
    ParseNothing(e, classes);
    assert escaped + "" == escaped;
    assert "%" + escaped + "%" == "%" + (escaped + "%");
    assert [AnyRun] + (Literal(s) + [AnyRun]) == [AnyRun] + Literal(s) + [AnyRun];
    assert Literal(s) + [] == Literal(s);
  }

  lemma {:induction false} ParseNothing(e: Option<char>, classes: bool)
    ensures Parse("", e, classes) == Some([])
  {}

  // ---------- matching ----------

  lemma {:induction false} MatchLiteral(s: string, tokens: seq<Token>, text: string)
    ensures Matches(Literal(s) + tokens, text) <==> s <= text && Matches(tokens, text[|s|..])
  {
    if s == "" {
      assert Literal(s) + tokens == tokens && text[0..] == text;
    } else {
      assert (Literal(s) + tokens)[0] == Exactly(s[0]);
      assert (Literal(s) + tokens)[1..] == Literal(s[1..]) + tokens;
      if text != "" && text[0] == s[0] {
        MatchLiteral(s[1..], tokens, text[1..]);
        assert s == [s[0]] + s[1..] && text == [text[0]] + text[1..];
        assert s <= text <==> s[1..] <= text[1..];
        if s <= text { assert text[1..][|s| - 1..] == text[|s|..]; }
      }
    }
  }

  lemma {:induction false} MatchRun(text: string)
    ensures Matches([AnyRun], text)
  {
    assert Matches([], text[|text|..]);
    assert [AnyRun][1..] == [];
  }

  lemma {:induction false} MatchStart(s: string, text: string)
    ensures Matches(Literal(s) + [AnyRun], text) <==> s <= text
  {
    MatchLiteral(s, [AnyRun], text);
    if s <= text { MatchRun(text[|s|..]); }
  }

  lemma {:induction false} MatchWhole(s: string, text: string)
    ensures Matches(Literal(s), text) <==> s == text
  {
    MatchLiteral(s, [], text);
    assert Literal(s) + [] == Literal(s);
  }

  lemma {:induction false} AfterRun(tokens: seq<Token>, text: string)
    ensures Matches([AnyRun] + tokens, text) <==> exists k | 0 <= k <= |text| :: Matches(tokens, text[k..])
  {
    assert ([AnyRun] + tokens)[1..] == tokens;
  }

  /** The pattern matches a text exactly when the text contains, starts with or ends with what was typed. */
  lemma {:induction false} PatternMeans(d: Dialect, kind: Kind, s: string, text: string)
    ensures LikeHolds(text, Pattern(d, kind, s), Some(EscapeChar(d)), d == MsSql) <==> Means(kind, s, text)
  {
    hide Parse; hide Pattern; hide Matches; hide Literal;
    PatternTokens(d, kind, s);
    match kind {
      case StartsWith => MatchStart(s, text);
      case Contains =>
        assert [AnyRun] + Literal(s) + [AnyRun] == [AnyRun] + (Literal(s) + [AnyRun]);
        AfterRun(Literal(s) + [AnyRun], text);
        forall k | 0 <= k <= |text| ensures Matches(Literal(s) + [AnyRun], text[k..]) <==> s <= text[k..] {
          MatchStart(s, text[k..]);
        }
      case EndsWith =>
        AfterRun(Literal(s), text);
        forall k | 0 <= k <= |text| ensures Matches(Literal(s), text[k..]) <==> s == text[k..] {
          MatchWhole(s, text[k..]);
        }
        if |s| <= |text| && text[|text| - |s|..] == s { assert Matches(Literal(s), text[|text| - |s|..]); }
    }
  }
}
