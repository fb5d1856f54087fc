/**
 * The size limits of the SQL editor. An insertion is checked by looking only at the lines it touches; here
 * that check is compared with checking the whole resulting document. Text is its UTF-8 bytes.
 */
module SqlText {

  import opened Octets
  import opened Options

  type Text = seq<Byte>

  const NEWLINE: Byte := 10
  const RETURN: Byte := 13

  datatype Limits = Limits(maxDocument: nat, maxLine: nat)

  datatype Refusal = DocumentTooLarge | InsertionTooLarge | LineTooLong(line: nat) | InvalidCursor

  // ---------- lines ----------

  /** The pieces between newlines; always at least one. */
  function Split(t: Text): (r: seq<Text>)
    ensures r != []
  {
    if t == [] then [[]]
    else
      var rest := Split(t[1..]);
      if t[0] == NEWLINE then [[]] + rest else [[t[0]] + rest[0]] + rest[1..]
  }

  function StripReturn(line: Text): (r: Text)
    ensures |r| <= |line|
  {
    if line != [] && line[|line| - 1] == RETURN then line[..|line| - 1] else line
  }

  /** Lines as the document check sees them: a return before the newline is dropped, and so is an empty last line. */
  function Lines(t: Text): seq<Text> {
    var raw := Split(t);
    var n := |raw| - 1;
    seq(n, i requires 0 <= i < n => StripReturn(raw[i])) + if raw[n] == [] then [] else [raw[n]]
  }

  function Newlines(t: Text): nat {
    if t == [] then 0 else (if t[0] == NEWLINE then 1 else 0) + Newlines(t[1..])
  }

  function First(lines: seq<Text>): Text
    requires lines != []
  {
    lines[0]
  }

  function Last(lines: seq<Text>): Text
    requires lines != []
  {
    lines[|lines| - 1]
  }

  /** The first line over the limit, or the number of lines. */
  function FirstLong(lines: seq<Text>, max: nat): (r: nat)
    ensures r <= |lines| && (r < |lines| ==> |lines[r]| > max)
    ensures forall i | 0 <= i < r :: |lines[i]| <= max
  {
    if lines == [] then 0
    else
      var r := FirstLong(lines[..|lines| - 1], max);
      if r < |lines| - 1 || |lines[r]| > max then r else |lines|
  }

  // ---------- the checks ----------

  function ValidateDocument(limits: Limits, text: Text): Option<Refusal> {
    if |text| > limits.maxDocument then Some(DocumentTooLarge)
    else
      var lines := Lines(text);
      var long := FirstLong(lines, limits.maxLine);
      if long < |lines| then Some(LineTooLong(long + 1)) else None
  }

  function ValidateInsertion(limits: Limits, current: nat, prefix: nat, suffix: nat, firstLine: nat,
                             text: Text): Option<Refusal> {
    if current + |text| > limits.maxDocument then Some(InsertionTooLarge)
    else
      var line := if firstLine < 1 then 1 else firstLine;
      var pieces := Split(text);
      if |pieces| > 1 then
        var middle := pieces[1..|pieces| - 1];
        var long := FirstLong(middle, limits.maxLine);
        if prefix + |First(pieces)| > limits.maxLine then Some(LineTooLong(line))
        else if |Last(pieces)| + suffix > limits.maxLine then Some(LineTooLong(line + Newlines(text)))
        else if long < |middle| then Some(LineTooLong(line + long + 1))
        else None
      else if prefix + |text| + suffix > limits.maxLine then Some(LineTooLong(line))
      else None
  }

  predicate CharBoundary(t: Text, i: nat) { i == 0 || i == |t| || (i < |t| && !(128 <= t[i] < 192)) }

  /** Dropping text on a document; `blank` stands for trimming white space and finding nothing left. */
  function ValidateDrop(limits: Limits, blank: Text -> bool, current: Text, cursor: nat, text: Text): Option<Refusal> {
    var replacing := blank(current);
    var total := if replacing then |text| else |current| + |text|;
    if total > limits.maxDocument then Some(InsertionTooLarge)
    else if replacing then ValidateDocument(limits, text)
    else if !CharBoundary(current, cursor) then Some(InvalidCursor)
    else
      var before, after := current[..cursor], current[cursor..];
      ValidateInsertion(limits, |current|, |Last(Split(before))|, |First(Split(after))|, Newlines(before) + 1, text)
  }

  /** The document after the drop; a cursor past the end counts as the end. */
  function Dropped(blank: Text -> bool, current: Text, cursor: nat, text: Text): Text {
    var at := if cursor <= |current| then cursor else |current|;
    if blank(current) then text else current[..at] + text + current[at..]
  }

  // ---------- splitting a join ----------

  function Joined(a: seq<Text>, b: seq<Text>): seq<Text>
    requires a != [] && b != []
  {
    a[..|a| - 1] + [Last(a) + First(b)] + b[1..]
  }

  lemma {:induction false} SplitJoin(a: Text, b: Text)
    ensures Split(a + b) == Joined(Split(a), Split(b))
  {
    hide Joined;
    if a == [] {
      assert a + b == b;
      JoinNothing(Split(b));
    } else {
      assert (a + b)[1..] == a[1..] + b && (a + b)[0] == a[0];
      SplitJoin(a[1..], b);
      if a[0] == NEWLINE { PushEmpty(Split(a[1..]), Split(b)); } else { PushFirst(a[0], Split(a[1..]), Split(b)); }
    }
  }

  lemma {:induction false} JoinNothing(b: seq<Text>)
    requires b != []
    ensures Joined([[]], b) == b
  {
    assert [] + b[0] == b[0];
  }

  lemma {:induction false} PushEmpty(a: seq<Text>, b: seq<Text>)
    requires a != [] && b != []
    ensures [[]] + Joined(a, b) == Joined([[]] + a, b)
  {
    assert ([[]] + a)[..|a|] == [[]] + a[..|a| - 1];
  }

  lemma {:induction false} PushFirst(c: Byte, a: seq<Text>, b: seq<Text>)
    requires a != [] && b != []
    ensures [[c] + Joined(a, b)[0]] + Joined(a, b)[1..] == Joined([[c] + a[0]] + a[1..], b)
  {
    var left := [[c] + Joined(a, b)[0]] + Joined(a, b)[1..];
    var right := Joined([[c] + a[0]] + a[1..], b);
    if |a| == 1 {
      assert [c] + (a[0] + b[0]) == [c] + a[0] + b[0];
    }
    assert |left| == |right|;
    forall i | 0 <= i < |left| ensures left[i] == right[i] {}
  }

  lemma {:induction false} SplitCounts(t: Text)
    ensures |Split(t)| == Newlines(t) + 1
  {
    if t != [] { SplitCounts(t[1..]); }
  }

  /** The lines of the document with the text put in. */
  lemma {:induction false} InsertedLines(before: Text, text: Text, after: Text)
    ensures var b, p, a := Split(before), Split(text), Split(after);
      Split(before + text + after) ==
        b[..|b| - 1]
        + (if |p| == 1 then [Last(b) + p[0] + First(a)]
           else [Last(b) + First(p)] + p[1..|p| - 1] + [Last(p) + First(a)])
        + a[1..]
  {
    hide Split;
    SplitJoin(before, text);
    SplitJoin(before + text, after);
    var b, p, a := Split(before), Split(text), Split(after);
    var bp := Joined(b, p);
    if |p| == 1 {
      assert bp[..|bp| - 1] == b[..|b| - 1];
    } else {
      assert Last(bp) == Last(p);
      assert bp[..|bp| - 1] == b[..|b| - 1] + ([Last(b) + First(p)] + p[1..|p| - 1]);
    }
  }

  lemma {:induction false} OnePiece(t: Text)
    requires |Split(t)| == 1
    ensures Split(t) == [t]
  {
    if t != [] {
      OnePiece(t[1..]);
      assert t == [t[0]] + t[1..];
    }
  }

  // ---------- what acceptance means ----------

  /** A line as the document check measures it. */
  function Measured(raw: seq<Text>, i: nat): nat
    requires i < |raw|
  {
    if i == |raw| - 1 then |raw[i]| else |StripReturn(raw[i])|
  }

  predicate AllMeasured(raw: seq<Text>, max: nat) { forall i | 0 <= i < |raw| :: Measured(raw, i) <= max }

  lemma {:induction false} DocumentOk(limits: Limits, text: Text)
    ensures ValidateDocument(limits, text).None? <==>
              |text| <= limits.maxDocument && AllMeasured(Split(text), limits.maxLine)
  {
    hide Split;
    var raw, lines := Split(text), Lines(text);
    var n := |raw| - 1;
    assert forall i | 0 <= i < n :: lines[i] == StripReturn(raw[i]);
    if raw[n] != [] { assert lines[n] == raw[n]; }
    if FirstLong(lines, limits.maxLine) == |lines| {
      forall i | 0 <= i < |raw| ensures Measured(raw, i) <= limits.maxLine {
        if i < n { assert |lines[i]| <= limits.maxLine; } else if raw[n] != [] { assert |lines[n]| <= limits.maxLine; }
      }
    }
    if AllMeasured(raw, limits.maxLine) {
      forall i | 0 <= i < |lines| ensures |lines[i]| <= limits.maxLine { assert Measured(raw, i) <= limits.maxLine; }
    }
  }

  /** The lines an insertion touches, whole. */
  function Touched(before: Text, text: Text, after: Text): seq<Text> {
    var b, p, a := Split(before), Split(text), Split(after);
    if |p| == 1 then [Last(b) + p[0] + First(a)] else [Last(b) + First(p)] + p[1..|p| - 1] + [Last(p) + First(a)]
  }

  predicate AllWithin(lines: seq<Text>, max: nat) { forall i | 0 <= i < |lines| :: |lines[i]| <= max }

  function InsertionCheck(limits: Limits, before: Text, text: Text, after: Text): Option<Refusal> {
    ValidateInsertion(limits, |before| + |after|, |Last(Split(before))|, |First(Split(after))|, Newlines(before) + 1,
                      text)
  }

  /** The check accepts exactly when the total fits and every touched line, its return counted, fits. */
  lemma {:induction false} InsertionOk(limits: Limits, before: Text, text: Text, after: Text)
    ensures InsertionCheck(limits, before, text, after).None?
       <==> |before + text + after| <= limits.maxDocument && AllWithin(Touched(before, text, after), limits.maxLine)
  {
    hide Split; hide Newlines;
    var p, touched, max := Split(text), Touched(before, text, after), limits.maxLine;
    if |p| == 1 {
      OnePiece(text);
    } else {
      var middle := p[1..|p| - 1];
      assert touched[0] == Last(Split(before)) + First(p);
      assert touched[|p| - 1] == Last(p) + First(Split(after));
      assert forall i | 0 <= i < |middle| :: touched[i + 1] == middle[i];
      if FirstLong(middle, max) == |middle| { assert forall i | 0 < i < |p| - 1 :: touched[i] == middle[i - 1]; }
    }
  }

  /** An insertion accepted into a valid document leaves a valid document. */
  lemma {:induction false} AcceptedStaysValid(limits: Limits, before: Text, text: Text, after: Text)
    requires ValidateDocument(limits, before + after).None?
    requires InsertionCheck(limits, before, text, after).None?
    ensures ValidateDocument(limits, before + text + after).None?
  {
    hide Split; hide ValidateDocument; hide InsertionCheck; hide Touched; hide StripReturn;
    DocumentOk(limits, before + after);
    DocumentOk(limits, before + text + after);
    InsertionOk(limits, before, text, after);
    SplitJoin(before, after);
    TouchedLines(before, text, after);
    Untouched(Split(before), Split(after), Touched(before, text, after), limits.maxLine);
  }

  lemma {:induction false} TouchedLines(before: Text, text: Text, after: Text)
    ensures Touched(before, text, after) != []
    ensures Split(before + text + after) == Split(before)[..|Split(before)| - 1] + Touched(before, text, after)
            + Split(after)[1..]
  {
    hide Split;
    InsertedLines(before, text, after);
  }

  /** Lines outside the touched ones are measured as before; touched ones fit even with their returns. */
  lemma {:induction false} Untouched(b: seq<Text>, a: seq<Text>, touched: seq<Text>, max: nat)
    requires b != [] && a != [] && touched != []
    requires AllMeasured(Joined(b, a), max) && AllWithin(touched, max)
    ensures AllMeasured(b[..|b| - 1] + touched + a[1..], max)
  {
    hide StripReturn;
    var whole, raw := Joined(b, a), b[..|b| - 1] + touched + a[1..];
    forall i | 0 <= i < |raw| ensures Measured(raw, i) <= max {
      if i < |b| - 1 {
        assert raw[i] == whole[i];
        assert Measured(whole, i) <= max;
      } else if i < |b| - 1 + |touched| {
        assert raw[i] == touched[i - (|b| - 1)];
      } else {
        var k := i - |touched| + 1;
        assert raw[i] == whole[k];
        assert Measured(whole, k) <= max;
      }
    }
  }

  // ---------- what a refusal means ----------

  /** A refusal names a real excess in the document that would result; a line is counted with its return. */
  predicate Excess(limits: Limits, document: Text, r: Refusal) {
    match r
    case DocumentTooLarge => |document| > limits.maxDocument
    case InsertionTooLarge => |document| > limits.maxDocument
    case LineTooLong(line) => 1 <= line <= |Split(document)| && |Split(document)[line - 1]| > limits.maxLine
    case InvalidCursor => false
  }

  lemma {:induction false} RefusalIsReal(limits: Limits, before: Text, text: Text, after: Text)
    ensures var r := InsertionCheck(limits, before, text, after);
            r.Some? ==> Excess(limits, before + text + after, r.value)
  {
    hide Split; hide Newlines; hide InsertionCheck; hide Touched;
    SplitCounts(before);
    TouchedLines(before, text, after);
    RefusedLine(limits, before, text, after);
    var r, touched := InsertionCheck(limits, before, text, after), Touched(before, text, after);
    if r.Some? && r.value.LineTooLong? {
      AtOffset(Split(before)[..|Split(before)| - 1], touched, Split(after)[1..], r.value.line - 1 - Newlines(before));
    }
  }

  lemma {:induction false} AtOffset(a: seq<Text>, b: seq<Text>, c: seq<Text>, i: nat)
    requires i < |b|
    ensures (a + b + c)[|a| + i] == b[i]
  {}

  /** A refused insertion is too large in all, or names one of the lines it touches. */
  lemma {:induction false} RefusedLine(limits: Limits, before: Text, text: Text, after: Text)
    ensures match InsertionCheck(limits, before, text, after)
      case None => true
      case Some(LineTooLong(line)) =>
        var i := line - 1 - Newlines(before);
        0 <= i < |Touched(before, text, after)| && |Touched(before, text, after)[i]| > limits.maxLine
      case Some(r) => r == InsertionTooLarge && |before + text + after| > limits.maxDocument
  {
    hide Split; hide Newlines;
    SplitCounts(text);
    var p, touched := Split(text), Touched(before, text, after);
    if |p| == 1 {
      OnePiece(text);
    } else {
      var middle := p[1..|p| - 1];
      assert touched[0] == Last(Split(before)) + First(p);
      assert touched[|p| - 1] == Last(p) + First(Split(after));
      assert forall i | 0 <= i < |middle| :: touched[i + 1] == middle[i];
    }
  }

  lemma {:induction false} DocumentRefusalIsReal(limits: Limits, text: Text)
    ensures var r := ValidateDocument(limits, text); r.Some? ==> Excess(limits, text, r.value)
  {
    hide Split;
    var raw, lines := Split(text), Lines(text);
    var n := |raw| - 1;
    assert forall i | 0 <= i < n :: lines[i] == StripReturn(raw[i]);
    if raw[n] != [] { assert lines[n] == raw[n]; }
  }

  /**
   Dropping: what is accepted leaves a valid document; what is refused would not fit, or the cursor
   splits a character.
   */
  lemma {:induction false} DropIsSound(limits: Limits, blank: Text -> bool, current: Text, cursor: nat, text: Text)
    requires ValidateDocument(limits, current).None?
    ensures match ValidateDrop(limits, blank, current, cursor, text)
      case None =>
        && (blank(current) || CharBoundary(current, cursor))
        && ValidateDocument(limits, Dropped(blank, current, cursor, text)).None?
      case Some(InvalidCursor) => !blank(current) && !CharBoundary(current, cursor)
      case Some(r) => Excess(limits, Dropped(blank, current, cursor, text), r)
  {
    hide Split; hide Newlines; hide ValidateDocument; hide ValidateInsertion;
    if blank(current) {
      DocumentRefusalIsReal(limits, text);
      NeverInvalidCursor(limits, text);
    } else if CharBoundary(current, cursor) {
      var before, after := current[..cursor], current[cursor..];
      assert before + after == current;
      RefusalIsReal(limits, before, text, after);
      if InsertionCheck(limits, before, text, after).None? { AcceptedStaysValid(limits, before, text, after); }
      InsertionNeverInvalid(limits, before, text, after);
    }
  }

  lemma {:induction false} NeverInvalidCursor(limits: Limits, text: Text)
    ensures ValidateDocument(limits, text) != Some(InvalidCursor)
  {}

  lemma {:induction false} InsertionNeverInvalid(limits: Limits, before: Text, text: Text, after: Text)
    ensures InsertionCheck(limits, before, text, after) != Some(InvalidCursor)
  {}

  lemma {:induction false} SplitOne(b: Byte)
    ensures Split([b]) == if b == NEWLINE then [[], []] else [[b]]
  {
    assert [b][1..] == [] && [b] + [] == [b];
    assert Split([]) == [[]];
  }

  /** A touched line that ends in a newline and is one byte too long, that byte being a return. */
  predicate LongByReturn(limits: Limits, before: Text, text: Text, after: Text, i: nat)
    requires i < |Touched(before, text, after)|
  {
    var line := Touched(before, text, after)[i];
    && (i < |Touched(before, text, after)| - 1 || |Split(after)| > 1)
    && |line| == limits.maxLine + 1 && line[limits.maxLine] == RETURN
  }

  lemma {:induction false} MeasuredTouched(limits: Limits, before: Text, text: Text, after: Text, i: nat)
    requires i < |Touched(before, text, after)|
    ensures var raw, n := Split(before + text + after), |Split(before)| - 1;
      && n + i < |raw|
      && (Measured(raw, n + i) <= limits.maxLine && !LongByReturn(limits, before, text, after, i)
          <==> |Touched(before, text, after)[i]| <= limits.maxLine)
  {
    hide Split; hide Touched;
    TouchedLines(before, text, after);
    var b, touched, a := Split(before), Touched(before, text, after), Split(after);
    AtOffset(b[..|b| - 1], touched, a[1..], i);
  }

  /**
   * Into a valid document, the two checks agree on an insertion exactly unless a touched line is too
   * long by nothing but its return: the insertion check counts that byte and the document check does not.
   */
  lemma {:induction false} ChecksAgree(limits: Limits, before: Text, text: Text, after: Text)
    requires ValidateDocument(limits, before + after).None?
    ensures InsertionCheck(limits, before, text, after).None?
       <==> && ValidateDocument(limits, before + text + after).None?
            && forall i | 0 <= i < |Touched(before, text, after)| :: !LongByReturn(limits, before, text, after, i)
  {
    hide Split; hide Touched; hide InsertionCheck; hide ValidateDocument; hide Measured; hide LongByReturn;
    var touched := Touched(before, text, after);
    InsertionOk(limits, before, text, after);
    DocumentOk(limits, before + text + after);
    forall i | 0 <= i < |touched|
      ensures var raw, n := Split(before + text + after), |Split(before)| - 1;
        n + i < |raw| && (Measured(raw, n + i) <= limits.maxLine && !LongByReturn(limits, before, text, after, i)
                          <==> |touched[i]| <= limits.maxLine)
    {
      MeasuredTouched(limits, before, text, after, i);
    }
    if InsertionCheck(limits, before, text, after).None? { AcceptedStaysValid(limits, before, text, after); }
  }

  lemma {:induction false} ExampleLines()
    ensures Split([]) == [[]] && Split([97, 98]) == [[97, 98]] && Newlines([97, 98]) == 0
    ensures Split([RETURN, NEWLINE]) == [[RETURN], []]
  {
    SplitOne(RETURN);
    SplitOne(NEWLINE);
    SplitOne(97);
    SplitOne(98);
    SplitJoin([RETURN], [NEWLINE]);
    SplitJoin([97], [98]);
    assert [RETURN] + [NEWLINE] == [RETURN, NEWLINE] && [97] + [98] == [97, 98];
    assert Newlines([98]) == 0;
    assert Split([RETURN, NEWLINE])[0] == [RETURN] + [] == [RETURN];
  }

  /** Such an insertion: a line break after a full line. */
  lemma {:induction false} ReturnsCanDiffer()
    ensures InsertionCheck(Limits(10, 2), [97, 98], [RETURN, NEWLINE], []) == Some(LineTooLong(1))
    ensures ValidateDocument(Limits(10, 2), [97, 98] + [RETURN, NEWLINE] + []).None?
  {
    hide Split; hide Newlines;
    ExampleLines();
    TouchedLines([97, 98], [RETURN, NEWLINE], []);
    var raw := Split([97, 98] + [RETURN, NEWLINE] + []);
    var touched := Touched([97, 98], [RETURN, NEWLINE], []);
    assert touched[0] == [97, 98] + [RETURN] && touched[1] == [] + [] && |touched| == 2;
    assert raw == touched;
    assert Measured(raw, 0) == 2 && Measured(raw, 1) == 0;
    DocumentOk(Limits(10, 2), [97, 98] + [RETURN, NEWLINE] + []);
  }
}
