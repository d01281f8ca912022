/** Schemas as JSON values, their canonical form, and its text.
    scripts/protocol-gen-swift.ts, stableJson and schemaSignature; the text follows the
    string escaping of section 7 of RFC 8259. */
module SchemaText {
  /** A JSON value; an object lists its members in insertion order, a number is the text
      that the number prints as. */
  datatype Json =
    | Null
    | Bool(value: bool)
    | Num(literal: string)
    | Str(text: string)
    | Arr(items: Items)
    | Obj(fields: Fields)

  datatype Items = End | Item(head: Json, tail: Items)
  datatype Fields = Empty | Field(key: string, value: Json, rest: Fields)

  predicate IsNumberChar(c: char) {
    '0' <= c <= '9' || c == '+' || c == '-' || c == '.' || c == 'e'
  }

  predicate IsNumberText(s: string) {
    && s != "" && (s[0] == '-' || '0' <= s[0] <= '9')
    && forall i | 0 <= i < |s| :: IsNumberChar(s[i])
  }

  function Keys(f: Fields): set<string> {
    match f
    case Empty => {}
    case Field(k, _, rest) => {k} + Keys(rest)
  }

  /** Numbers are number texts and member names are unique, at every depth. */
  predicate WellFormed(j: Json) {
    match j
    case Num(s) => IsNumberText(s)
    case Arr(items) => WellFormedItems(items)
    case Obj(fields) => WellFormedFields(fields)
    case _ => true
  }

  predicate WellFormedItems(e: Items) {
    e.Item? ==> WellFormed(e.head) && WellFormedItems(e.tail)
  }

  predicate WellFormedFields(f: Fields) {
    f.Field? ==> f.key !in Keys(f.rest) && WellFormed(f.value) && WellFormedFields(f.rest)
  }

  // ---------- the canonical form ----------

  function InsertField(key: string, value: Json, sorted: Fields, less: (string, string) -> bool): Fields {
    match sorted
    case Empty => Field(key, value, Empty)
    case Field(k, v, rest) =>
      if less(key, k) then Field(key, value, sorted) else Field(k, v, InsertField(key, value, rest, less))
  }

  /** stableJson: members sorted by name at every depth. */
  function Stable(j: Json, less: (string, string) -> bool): Json {
    match j
    case Arr(items) => Arr(StableItems(items, less))
    case Obj(fields) => Obj(StableFields(fields, less))
    case _ => j
  }

  function StableItems(e: Items, less: (string, string) -> bool): Items {
    match e
    case End => End
    case Item(head, tail) => Item(Stable(head, less), StableItems(tail, less))
  }

  function StableFields(f: Fields, less: (string, string) -> bool): Fields {
    match f
    case Empty => Empty
    case Field(k, v, rest) => InsertField(k, Stable(v, less), StableFields(rest, less), less)
  }

  // ---------- the text ----------

  function HexDigit(n: nat): (c: char)
    requires n < 16
    ensures c != '"' && c != '\\'
  {
    if n < 10 then '0' + n as char else 'a' + (n - 10) as char
  }

  function Escape(c: char): string {
    if c == '"' then "\\\""
    else if c == '\\' then "\\\\"
    else if c == '\U{8}' then "\\b"
    else if c == '\U{C}' then "\\f"
    else if c == '\n' then "\\n"
    else if c == '\r' then "\\r"
    else if c == '\t' then "\\t"
    else if c < ' ' then "\\u00" + [HexDigit(c as nat / 16), HexDigit(c as nat % 16)]
    else [c]
  }

  function EscapeAll(s: string): string {
    if s == "" then "" else Escape(s[0]) + EscapeAll(s[1..])
  }

  function PrintString(s: string): string {
    "\"" + EscapeAll(s) + "\""
  }

  function Print(j: Json): string {
    match j
    case Null => "null"
    case Bool(b) => if b then "true" else "false"
    case Num(s) => s
    case Str(s) => PrintString(s)
    case Arr(items) => "[" + PrintItems(items, true)
    case Obj(fields) => "{" + PrintFields(fields, true)
  }

  /** The remaining items and the closing bracket; a comma goes before all but the first. */
  function PrintItems(e: Items, first: bool): string {
    match e
    case End => "]"
    case Item(head, tail) => (if first then "" else ",") + Print(head) + PrintItems(tail, false)
  }

  function PrintFields(f: Fields, first: bool): string {
    match f
    case Empty => "}"
    case Field(k, v, rest) =>
      (if first then "" else ",") + PrintString(k) + ":" + Print(v) + PrintFields(rest, false)
  }

  /** schemaSignature. */
  function Signature(j: Json, less: (string, string) -> bool): string {
    Print(Stable(j, less))
  }

  // ---------- the text determines the value ----------

  lemma SplitEqual<T>(a: seq<T>, x: seq<T>, b: seq<T>, y: seq<T>)
    requires a + x == b + y && |a| == |b|
    ensures a == b && x == y
  {
    assert a == (a + x)[..|a|] && b == (b + y)[..|b|];
    assert x == (a + x)[|a|..] && y == (b + y)[|b|..];
  }

  lemma EscapeUnique(c: char, x: string, d: char, y: string)
    requires Escape(c) + x == Escape(d) + y
    ensures c == d && x == y
  {
    var s := Escape(c) + x;
    assert s[0] == Escape(c)[0] == Escape(d)[0];
    if |Escape(c)| >= 2 && |Escape(d)| >= 2 {
      assert s[1] == Escape(c)[1] == Escape(d)[1];
      if Escape(c)[1] == 'u' {
        assert s[4] == Escape(c)[4] == Escape(d)[4];
        assert s[5] == Escape(c)[5] == Escape(d)[5];
      }
    }
    assert c == d;
    SplitEqual(Escape(c), x, Escape(d), y);
  }

  lemma {:induction false} EscapeAllUnique(s: string, x: string, t: string, y: string)
    requires EscapeAll(s) + ("\"" + x) == EscapeAll(t) + ("\"" + y)
    ensures s == t && x == y
    decreases |s|
  {
    EscapeAllStarts(s, "\"" + x);
    EscapeAllStarts(t, "\"" + y);
    hide Escape;
    if s == "" {
      assert EscapeAll(s) + ("\"" + x) == "\"" + x;
      assert EscapeAll(t) + ("\"" + y) == "\"" + y;
      SplitEqual("\"", x, "\"", y);
    } else {
      EscapeUnique(s[0], EscapeAll(s[1..]) + ("\"" + x), t[0], EscapeAll(t[1..]) + ("\"" + y));
      EscapeAllUnique(s[1..], x, t[1..], y);
      assert s == [s[0]] + s[1..] && t == [t[0]] + t[1..];
    }
  }

  lemma EscapeStarts(c: char)
    ensures Escape(c) != "" && Escape(c)[0] != '"'
  {
  }

  /** An escaped string followed by its closing quote starts with a quote only if empty. */
  lemma EscapeAllStarts(s: string, x: string)
    requires x != "" && x[0] == '"'
    ensures EscapeAll(s) + x != ""
    ensures (EscapeAll(s) + x)[0] == '"' <==> s == ""
    ensures s != "" ==> EscapeAll(s) + x == Escape(s[0]) + (EscapeAll(s[1..]) + x)
  {
    hide Escape;
    if s == "" {
      assert EscapeAll(s) + x == x;
    } else {
      EscapeStarts(s[0]);
      assert EscapeAll(s) == Escape(s[0]) + EscapeAll(s[1..]);
    }
  }

  lemma StringUnique(s: string, x: string, t: string, y: string)
    requires PrintString(s) + x == PrintString(t) + y
    ensures s == t && x == y
  {
    assert PrintString(s) + x == "\"" + (EscapeAll(s) + ("\"" + x));
    assert PrintString(t) + y == "\"" + (EscapeAll(t) + ("\"" + y));
    SplitEqual("\"", EscapeAll(s) + ("\"" + x), "\"", EscapeAll(t) + ("\"" + y));
    EscapeAllUnique(s, x, t, y);
  }

  /** What may follow a value: nothing, or a character that no number contains. */
  predicate Delimited(x: string) {
    x == "" || !IsNumberChar(x[0])
  }

  lemma NumberUnique(a: string, x: string, b: string, y: string)
    requires IsNumberText(a) && IsNumberText(b) && Delimited(x) && Delimited(y)
    requires a + x == b + y
    ensures a == b && x == y
  {
    var s := a + x;
    assert |a| < |s| ==> s[|a|] == x[0];
    assert |b| < |s| ==> s[|b|] == y[0];
    SplitEqual(a, x, b, y);
  }

  function FirstChar(j: Json): char
    requires WellFormed(j)
  {
    match j
    case Null => 'n'
    case Bool(b) => if b then 't' else 'f'
    case Num(s) => s[0]
    case Str(_) => '"'
    case Arr(_) => '['
    case Obj(_) => '{'
  }

  lemma PrintStarts(j: Json)
    requires WellFormed(j)
    ensures Print(j) != "" && Print(j)[0] == FirstChar(j)
  {
  }

  lemma PrintItemsStarts(e: Items, first: bool)
    requires WellFormedItems(e)
    ensures PrintItems(e, first) != ""
    ensures PrintItems(e, first)[0] == if e.End? then ']' else if first then FirstChar(e.head) else ','
  {
    if e.Item? {
      PrintStarts(e.head);
    }
  }

  lemma PrintFieldsStarts(f: Fields, first: bool)
    requires WellFormedFields(f)
    ensures PrintFields(f, first) != ""
    ensures PrintFields(f, first)[0] == if f.Empty? then '}' else if first then '"' else ','
  {
  }

  lemma ItemsSplit(e: Items, first: bool, x: string)
    requires e.Item?
    ensures PrintItems(e, first) + x
      == (if first then "" else ",") + (Print(e.head) + (PrintItems(e.tail, false) + x))
  {
    hide Print;
  }

  lemma FieldsSplit(f: Fields, first: bool, x: string)
    requires f.Field?
    ensures PrintFields(f, first) + x
      == (if first then "" else ",")
         + (PrintString(f.key) + (":" + (Print(f.value) + (PrintFields(f.rest, false) + x))))
  {
    hide Print, PrintString;
  }

  lemma ItemsKind(a: Items, x: string, b: Items, y: string, first: bool)
    requires WellFormedItems(a) && WellFormedItems(b)
    requires PrintItems(a, first) + x == PrintItems(b, first) + y
    ensures a.End? == b.End?
  {
    PrintItemsStarts(a, first);
    PrintItemsStarts(b, first);
    hide PrintItems;
    assert (PrintItems(a, first) + x)[0] == PrintItems(a, first)[0] == PrintItems(b, first)[0];
  }

  lemma FieldsKind(a: Fields, x: string, b: Fields, y: string, first: bool)
    requires WellFormedFields(a) && WellFormedFields(b)
    requires PrintFields(a, first) + x == PrintFields(b, first) + y
    ensures a.Empty? == b.Empty?
  {
    PrintFieldsStarts(a, first);
    PrintFieldsStarts(b, first);
    hide PrintFields;
    assert (PrintFields(a, first) + x)[0] == PrintFields(a, first)[0] == PrintFields(b, first)[0];
  }

  lemma SameKind(a: Json, x: string, b: Json, y: string)
    requires WellFormed(a) && WellFormed(b) && Print(a) + x == Print(b) + y
    ensures FirstChar(a) == FirstChar(b)
  {
    PrintStarts(a);
    PrintStarts(b);
    hide Print, FirstChar;
    assert (Print(a) + x)[0] == Print(a)[0] == Print(b)[0];
  }

  lemma ItemsDelimit(e: Items, x: string)
    requires WellFormedItems(e)
    ensures Delimited(PrintItems(e, false) + x)
  {
    PrintItemsStarts(e, false);
    hide PrintItems;
  }

  lemma FieldsDelimit(f: Fields, x: string)
    requires WellFormedFields(f)
    ensures Delimited(PrintFields(f, false) + x)
  {
    PrintFieldsStarts(f, false);
    hide PrintFields;
  }

  lemma ArrText(items: Items, x: string)
    ensures Print(Arr(items)) + x == "[" + (PrintItems(items, true) + x)
  {
    hide PrintItems;
  }

  lemma ObjText(fields: Fields, x: string)
    ensures Print(Obj(fields)) + x == "{" + (PrintFields(fields, true) + x)
  {
    hide PrintFields;
  }

  /** Printing leaves no doubt where a value ends and which value it was. */
  lemma {:induction false} PrintUnique(a: Json, x: string, b: Json, y: string)
    requires WellFormed(a) && WellFormed(b) && Delimited(x) && Delimited(y)
    requires Print(a) + x == Print(b) + y
    ensures a == b && x == y
    decreases a
  {
    SameKind(a, x, b, y);
    match a
    case Null => SplitEqual(Print(a), x, Print(b), y);
    case Bool(_) => SplitEqual(Print(a), x, Print(b), y);
    case Num(s) => NumberUnique(s, x, b.literal, y);
    case Str(s) => StringUnique(s, x, b.text, y);
    case Arr(items) =>
      hide Print, PrintItems, Delimited;
      ArrText(items, x);
      ArrText(b.items, y);
      SplitEqual("[", PrintItems(items, true) + x, "[", PrintItems(b.items, true) + y);
      PrintItemsUnique(items, x, b.items, y, true);
    case Obj(fields) =>
      hide Print, PrintFields, Delimited;
      ObjText(fields, x);
      ObjText(b.fields, y);
      SplitEqual("{", PrintFields(fields, true) + x, "{", PrintFields(b.fields, true) + y);
      PrintFieldsUnique(fields, x, b.fields, y, true);
  }

  lemma {:induction false} PrintItemsUnique(a: Items, x: string, b: Items, y: string, first: bool)
    requires WellFormedItems(a) && WellFormedItems(b)
    requires PrintItems(a, first) + x == PrintItems(b, first) + y
    ensures a == b && x == y
    decreases a
  {
    ItemsKind(a, x, b, y, first);
    match a
    case End => SplitEqual("]", x, "]", y);
    case Item(head, tail) =>
      hide Print, PrintItems, Delimited;
      var comma := if first then "" else ",";
      var xs, ys := PrintItems(tail, false) + x, PrintItems(b.tail, false) + y;
      ItemsSplit(a, first, x);
      ItemsSplit(b, first, y);
      ItemsDelimit(tail, x);
      ItemsDelimit(b.tail, y);
      SplitEqual(comma, Print(head) + xs, comma, Print(b.head) + ys);
      PrintUnique(head, xs, b.head, ys);
      PrintItemsUnique(tail, x, b.tail, y, false);
  }

  lemma {:induction false} PrintFieldsUnique(a: Fields, x: string, b: Fields, y: string, first: bool)
    requires WellFormedFields(a) && WellFormedFields(b)
    requires PrintFields(a, first) + x == PrintFields(b, first) + y
    ensures a == b && x == y
    decreases a
  {
    FieldsKind(a, x, b, y, first);
    match a
    case Empty => SplitEqual("}", x, "}", y);
    case Field(k, v, rest) =>
      hide Print, PrintFields, PrintString, Delimited;
      var comma := if first then "" else ",";
      var xs, ys := PrintFields(rest, false) + x, PrintFields(b.rest, false) + y;
      var xv, yv := Print(v) + xs, Print(b.value) + ys;
      FieldsSplit(a, first, x);
      FieldsSplit(b, first, y);
      FieldsDelimit(rest, x);
      FieldsDelimit(b.rest, y);
      SplitEqual(comma, PrintString(k) + (":" + xv), comma, PrintString(b.key) + (":" + yv));
      StringUnique(k, ":" + xv, b.key, ":" + yv);
      SplitEqual(":", xv, ":", yv);
      PrintUnique(v, xs, b.value, ys);
      PrintFieldsUnique(rest, x, b.rest, y, false);
  }
}
