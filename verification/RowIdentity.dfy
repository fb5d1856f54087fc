/** Cell values, the keys that identify rows, and the total order in which batches list them. */
module RowIdentity {

  import opened Ordering
  import opened Options

  /** Dates and times are carried as numbers, decimals and JSON by their printed form, floats by their bits. */
  datatype Value =
    | Null | Bool(b: bool) | Int(i: int) | Float(bits: nat) | Text(s: string) | Bytes(data: seq<int>)
    | Date(day: int) | Time(tick: int) | DateTime(stamp: int) | TimestampTz(utc: int)
    | Decimal(digits: string) | Uuid(id: nat) | Json(doc: string) | JsonText(raw: string)
    | Undecodable(typeName: string)

  datatype KeyValue =
    | KNull | KBool(b: bool) | KInt(i: int) | KFloatBits(bits: nat) | KText(s: string) | KBytes(data: seq<int>)
    | KDate(day: int) | KTime(tick: int) | KDateTime(stamp: int) | KTimestampTz(utc: int)
    | KDecimal(digits: string) | KUuid(id: nat) | KJson(doc: string) | KJsonText(raw: string)
    | KUndecodable(typeName: string)

  datatype RowKey = Persisted(key: seq<KeyValue>) | Draft(id: nat)

  function KeyOf(v: Value): KeyValue {
    match v
    case Null => KNull
    case Bool(b) => KBool(b)
    case Int(i) => KInt(i)
    case Float(bits) => KFloatBits(bits)
    case Text(s) => KText(s)
    case Bytes(data) => KBytes(data)
    case Date(day) => KDate(day)
    case Time(tick) => KTime(tick)
    case DateTime(stamp) => KDateTime(stamp)
    case TimestampTz(utc) => KTimestampTz(utc)
    case Decimal(digits) => KDecimal(digits)
    case Uuid(id) => KUuid(id)
    case Json(doc) => KJson(doc)
    case JsonText(raw) => KJsonText(raw)
    case Undecodable(typeName) => KUndecodable(typeName)
  }

  /** The decimal and JSON parsers: the printed form of what a text is read as, if it is read at all. */
  datatype Parsers = Parsers(decimal: string -> Option<string>, json: string -> Option<string>)

  /** A text that is printed as it is read, which the printed form of a value should be. */
  predicate ReadsBack(p: Parsers, k: KeyValue) {
    match k
    case KDecimal(digits) => p.decimal(digits) == Some(digits)
    case KJson(doc) => p.json(doc) == Some(doc)
    case _ => true
  }

  /** What cannot be parsed comes back as text. */
  function ValueOf(p: Parsers, k: KeyValue): (v: Value)
    ensures KeyOf(v) == k <==> ReadsBack(p, k)
    ensures v.Undecodable? <==> k.KUndecodable?
    ensures k.KDecimal? && p.decimal(k.digits) == None ==> v == Text(k.digits)
    ensures k.KJson? && p.json(k.doc) == None ==> v == Text(k.doc)
  {
    match k
    case KNull => Null
    case KBool(b) => Bool(b)
    case KInt(i) => Int(i)
    case KFloatBits(bits) => Float(bits)
    case KText(s) => Text(s)
    case KBytes(data) => Bytes(data)
    case KDate(day) => Date(day)
    case KTime(tick) => Time(tick)
    case KDateTime(stamp) => DateTime(stamp)
    case KTimestampTz(utc) => TimestampTz(utc)
    case KDecimal(digits) =>
      (match p.decimal(digits)
       case Some(printed) => Decimal(printed)
       case None => Text(digits))
    case KUuid(id) => Uuid(id)
    case KJson(doc) =>
      (match p.json(doc)
       case Some(printed) => Json(printed)
       case None => Text(doc))
    case KJsonText(raw) => JsonText(raw)
    case KUndecodable(typeName) => Undecodable(typeName)
  }

  // ---------- order ----------

  predicate IntLess(a: int, b: int) { a < b }

  function Codes(s: string): (r: seq<int>)
    ensures |r| == |s| && forall i | 0 <= i < |s| :: r[i] == s[i] as int
  {
    seq(|s|, i requires 0 <= i < |s| => s[i] as int)
  }

  lemma {:induction false} CodesInjective(a: string, b: string)
    requires Codes(a) == Codes(b)
    ensures a == b
  {
    forall i | 0 <= i < |a| ensures a[i] == b[i] { assert Codes(a)[i] == Codes(b)[i]; }
  }

  /** The position of the variant, which a derived order compares first. */
  function Rank(k: KeyValue): nat {
    match k
    case KNull => 0
    case KBool(_) => 1
    case KInt(_) => 2
    case KFloatBits(_) => 3
    case KText(_) => 4
    case KBytes(_) => 5
    case KDate(_) => 6
    case KTime(_) => 7
    case KDateTime(_) => 8
    case KTimestampTz(_) => 9
    case KDecimal(_) => 10
    case KUuid(_) => 11
    case KJson(_) => 12
    case KJsonText(_) => 13
    case KUndecodable(_) => 14
  }

  function Content(k: KeyValue): seq<int> {
    match k
    case KNull => []
    case KBool(b) => [if b then 1 else 0]
    case KInt(i) => [i]
    case KFloatBits(bits) => [bits]
    case KText(s) => Codes(s)
    case KBytes(data) => data
    case KDate(day) => [day]
    case KTime(tick) => [tick]
    case KDateTime(stamp) => [stamp]
    case KTimestampTz(utc) => [utc]
    case KDecimal(digits) => Codes(digits)
    case KUuid(id) => [id]
    case KJson(doc) => Codes(doc)
    case KJsonText(raw) => Codes(raw)
    case KUndecodable(typeName) => Codes(typeName)
  }

  predicate KeyLess(a: KeyValue, b: KeyValue) {
    Rank(a) < Rank(b) || (Rank(a) == Rank(b) && LexLess(IntLess, Content(a), Content(b)))
  }

  predicate RowLess(a: RowKey, b: RowKey) {
    match (a, b)
    case (Persisted(p), Persisted(q)) => LexLess(KeyLess, p, q)
    case (Persisted(_), Draft(_)) => true
    case (Draft(_), Persisted(_)) => false
    case (Draft(m), Draft(n)) => m < n
  }

  lemma {:induction false} SameContent(a: KeyValue, b: KeyValue)
    requires Rank(a) == Rank(b) && Content(a) == Content(b)
    ensures a == b
  {
    match a {
      case KText(s) => CodesInjective(s, b.s);
      case KDecimal(s) => CodesInjective(s, b.digits);
      case KJson(s) => CodesInjective(s, b.doc);
      case KJsonText(s) => CodesInjective(s, b.raw);
      case KUndecodable(s) => CodesInjective(s, b.typeName);
      case KInt(i) => assert Content(a)[0] == Content(b)[0];
      case KBool(_) => assert Content(a)[0] == Content(b)[0];
      case KFloatBits(_) => assert Content(a)[0] == Content(b)[0];
      case KDate(_) => assert Content(a)[0] == Content(b)[0];
      case KTime(_) => assert Content(a)[0] == Content(b)[0];
      case KDateTime(_) => assert Content(a)[0] == Content(b)[0];
      case KTimestampTz(_) => assert Content(a)[0] == Content(b)[0];
      case KUuid(_) => assert Content(a)[0] == Content(b)[0];
      case KNull =>
      case KBytes(_) =>
    }
  }

  lemma {:induction false} KeyStrictTotal()
    ensures StrictTotal(KeyLess)
  {
    hide LexLess; hide Content;
    forall a ensures !KeyLess(a, a) { LexIrreflexive(IntLess, Content(a)); }
    forall a, b, c | KeyLess(a, b) && KeyLess(b, c) ensures KeyLess(a, c) {
      if Rank(a) == Rank(b) == Rank(c) { LexTransitive(IntLess, Content(a), Content(b), Content(c)); }
    }
    forall a, b ensures KeyLess(a, b) || a == b || KeyLess(b, a) {
      LexTotal(IntLess, Content(a), Content(b));
      if Rank(a) == Rank(b) && Content(a) == Content(b) { SameContent(a, b); }
    }
  }

  /** Row keys are totally ordered, so a batch sorted by them has one order. */
  lemma {:induction false} RowStrictTotal()
    ensures StrictTotal(RowLess)
  {
    hide LexLess; hide KeyLess;
    KeyStrictTotal();
    forall a ensures !RowLess(a, a) { if a.Persisted? { LexIrreflexive(KeyLess, a.key); } }
    forall a, b, c | RowLess(a, b) && RowLess(b, c) ensures RowLess(a, c) {
      if a.Persisted? && b.Persisted? && c.Persisted? { LexTransitive(KeyLess, a.key, b.key, c.key); }
    }
    forall a, b ensures RowLess(a, b) || a == b || RowLess(b, a) {
      if a.Persisted? && b.Persisted? { LexTotal(KeyLess, a.key, b.key); }
    }
  }

  lemma {:induction false} CodesOrder(a: string, b: string)
    ensures LexLess(IntLess, Codes(a), Codes(b)) <==> TextLess(a, b)
  {
    if a != [] && b != [] {
      CodesOrder(a[1..], b[1..]);
      assert Codes(a)[1..] == Codes(a[1..]) && Codes(b)[1..] == Codes(b[1..]);
    }
  }

  lemma {:induction false} OneCode(x: int, y: int)
    ensures LexLess(IntLess, [x], [y]) <==> x < y
  {}

  /** Keys of one kind are ordered by what they hold: numbers, dates and times by size. */
  lemma {:induction false} NumberKeys(x: int, y: int)
    ensures KeyLess(KInt(x), KInt(y)) <==> x < y
    ensures KeyLess(KDate(x), KDate(y)) <==> x < y
    ensures KeyLess(KTime(x), KTime(y)) <==> x < y
    ensures KeyLess(KDateTime(x), KDateTime(y)) <==> x < y
    ensures KeyLess(KTimestampTz(x), KTimestampTz(y)) <==> x < y
    ensures 0 <= x && 0 <= y ==> (KeyLess(KFloatBits(x), KFloatBits(y)) <==> x < y)
    ensures 0 <= x && 0 <= y ==> (KeyLess(KUuid(x), KUuid(y)) <==> x < y)
  {
    hide LexLess;
    OneCode(x, y);
  }

  /** Texts, and what is carried as text, by code points. */
  lemma {:induction false} TextKeys(x: string, y: string)
    ensures KeyLess(KText(x), KText(y)) <==> TextLess(x, y)
    ensures KeyLess(KDecimal(x), KDecimal(y)) <==> TextLess(x, y)
    ensures KeyLess(KJson(x), KJson(y)) <==> TextLess(x, y)
    ensures KeyLess(KJsonText(x), KJsonText(y)) <==> TextLess(x, y)
    ensures KeyLess(KUndecodable(x), KUndecodable(y)) <==> TextLess(x, y)
  {
    hide LexLess;
    CodesOrder(x, y);
  }

  /** False before true, and bytes by the first that differs. */
  lemma {:induction false} OtherKeys(x: bool, y: bool, a: seq<int>, b: seq<int>)
    ensures KeyLess(KBool(x), KBool(y)) <==> !x && y
    ensures KeyLess(KBytes(a), KBytes(b)) <==> LexLess(IntLess, a, b)
  {
    hide LexLess;
    OneCode(if x then 1 else 0, if y then 1 else 0);
  }

  /** Keys of different kinds are ordered by kind, in the order in which the kinds are declared. */
  lemma {:induction false} KindOrder(ks: seq<KeyValue>)
    requires |ks| == 15
    requires ks[0].KNull? && ks[1].KBool? && ks[2].KInt? && ks[3].KFloatBits? && ks[4].KText? && ks[5].KBytes?
    requires ks[6].KDate? && ks[7].KTime? && ks[8].KDateTime? && ks[9].KTimestampTz? && ks[10].KDecimal?
    requires ks[11].KUuid? && ks[12].KJson? && ks[13].KJsonText? && ks[14].KUndecodable?
    ensures forall i, j | 0 <= i < j < 15 :: KeyLess(ks[i], ks[j]) && !KeyLess(ks[j], ks[i])
  {
    assert forall i | 0 <= i < 15 :: Rank(ks[i]) == i;
  }

  /** Stored rows come before drafts, stored rows by their first differing key value, drafts by id. */
  lemma {:induction false} RowOrder(a: RowKey, b: RowKey)
    ensures match (a, b)
      case (Persisted(p), Persisted(q)) => RowLess(a, b) <==> exists k: nat :: LessFrom(KeyLess, p, q, k)
      case (Persisted(_), Draft(_)) => RowLess(a, b)
      case (Draft(_), Persisted(_)) => !RowLess(a, b)
      case (Draft(m), Draft(n)) => RowLess(a, b) <==> m < n
  {
    if a.Persisted? && b.Persisted? { LexMeans(KeyLess, a.key, b.key); }
  }

  // ---------- readable keys ----------

  predicate Unreadable(values: seq<Value>) {
    exists i | 0 <= i < |values| :: values[i].Undecodable?
  }

  function KeysOf(values: seq<Value>): (r: seq<KeyValue>)
    ensures |r| == |values| && forall i | 0 <= i < |values| :: r[i] == KeyOf(values[i])
  {
    seq(|values|, i requires 0 <= i < |values| => KeyOf(values[i]))
  }

  function ValuesOf(p: Parsers, keys: seq<KeyValue>): (r: seq<Value>)
    ensures |r| == |keys| && forall i | 0 <= i < |keys| :: r[i] == ValueOf(p, keys[i])
  {
    seq(|keys|, i requires 0 <= i < |keys| => ValueOf(p, keys[i]))
  }

  function FromPkValues(values: seq<Value>): Option<RowKey> {
    if values == [] || Unreadable(values) then None else Some(Persisted(KeysOf(values)))
  }

  /**
   A row key is built exactly from readable primary-key values. It leads back to exactly those values
   if and only if each decimal and JSON document among them is read as it was printed, and to readable
   ones in any case.
   */
  lemma {:induction false} RowKeyRoundTrip(p: Parsers, values: seq<Value>)
    ensures match FromPkValues(values)
      case Some(key) =>
        && values != [] && !Unreadable(values) && key.Persisted? && !Unreadable(ValuesOf(p, key.key))
        && (ValuesOf(p, key.key) == values <==> forall i | 0 <= i < |values| :: ReadsBack(p, KeyOf(values[i])))
      case None => values == [] || Unreadable(values)
  {
    forall i | 0 <= i < |values| ensures ValueOf(p, KeyOf(values[i])) == values[i] <==> ReadsBack(p, KeyOf(values[i])) {
      KeyDecides(values[i], ValueOf(p, KeyOf(values[i])));
    }
    var back := ValuesOf(p, KeysOf(values));
    assert back == values <==> forall i | 0 <= i < |values| :: back[i] == values[i];
  }

  lemma {:induction false} KeyDecides(v: Value, w: Value)
    ensures KeyOf(v) == KeyOf(w) <==> v == w
  {}
}
