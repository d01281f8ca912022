/** Reading JSON text by the grammar of RFC 8259, as an independent account of what the
    printed signatures say.
    scripts/protocol-gen-swift.ts, schemaSignature. */
module SchemaReader {
  import opened Text
  import opened Sorting
  import opened SchemaText
  import opened SchemaIdentity

  /** A value, or a part of one, and the text after it. */
  type Read<T> = Option<(T, string)>

  function HexValue(c: char): Option<nat> {
    if '0' <= c <= '9' then Some((c - '0') as nat)
    else if 'a' <= c <= 'f' then Some((c - 'a') as nat + 10)
    else if 'A' <= c <= 'F' then Some((c - 'A') as nat + 10)
    else None
  }

  /** One character of a string by section 7 of RFC 8259, and what follows it: a character
      that is neither a quote nor a backslash nor a control character stands for itself; a
      backslash begins one of eight short escapes or four hexadecimal digits. */
  function ReadChar(s: string): Option<(char, string)> {
    if s == "" || s[0] == '"' || s[0] < ' ' then None
    else if s[0] != '\\' then Some((s[0], s[1..]))
    else if |s| < 2 then None
    else match s[1]
      case '"' => Some(('"', s[2..]))
      case '\\' => Some(('\\', s[2..]))
      case '/' => Some(('/', s[2..]))
      case 'b' => Some(('\U{8}', s[2..]))
      case 'f' => Some(('\U{C}', s[2..]))
      case 'n' => Some(('\n', s[2..]))
      case 'r' => Some(('\r', s[2..]))
      case 't' => Some(('\t', s[2..]))
      case 'u' =>
        if |s| < 6 then None
        else
          var digits := [HexValue(s[2]), HexValue(s[3]), HexValue(s[4]), HexValue(s[5])];
          if exists i | 0 <= i < 4 :: digits[i].None? then None
          else
            var n := ((digits[0].value * 16 + digits[1].value) * 16 + digits[2].value) * 16 + digits[3].value;
            if n < 0xD800 then Some((n as char, s[6..])) else None
      case _ => None
  }

  /** The rest of a string after its opening quote, by section 7 of RFC 8259. */
  function ReadQuoted(s: string): Read<string>
    decreases |s|
  {
    if s == "" then None
    else if s[0] == '"' then Some(("", s[1..]))
    else
      var first := ReadChar(s);
      if first.None? || |first.value.1| >= |s| then None
      else
        var rest := ReadQuoted(first.value.1);
        if rest.None? then None else Some(([first.value.0] + rest.value.0, rest.value.1))
  }

  /** How many number characters `s` starts with. */
  function NumberRun(s: string): (n: nat)
    ensures n <= |s|
  {
    if s == "" || !IsNumberChar(s[0]) then 0 else 1 + NumberRun(s[1..])
  }

  /** A value: one of the three literal names of section 3, a string, a number, or the
      structures of sections 4 and 5. */
  function ReadValue(s: string): Read<Json>
    decreases |s|, 1
  {
    if "null" <= s then Some((Null, s[4..]))
    else if "true" <= s then Some((Bool(true), s[4..]))
    else if "false" <= s then Some((Bool(false), s[5..]))
    else if "\"" <= s then
      var text := ReadQuoted(s[1..]);
      if text.None? then None else Some((Str(text.value.0), text.value.1))
    else if "[" <= s then
      var items := ReadItems(s[1..], true);
      if items.None? then None else Some((Arr(items.value.0), items.value.1))
    else if "{" <= s then
      var fields := ReadFields(s[1..], true);
      if fields.None? then None else Some((Obj(fields.value.0), fields.value.1))
    else
      var n := NumberRun(s);
      if IsNumberText(s[..n]) then Some((Num(s[..n]), s[n..])) else None
  }

  /** What follows the opening bracket of an array or one of its values. */
  function ReadItems(s: string, first: bool): Read<Items>
    decreases |s|, 2
  {
    if "]" <= s then Some((End, s[1..]))
    else
      var body := if first then Some(s) else Separated(s);
      if body.None? then None
      else
        var head := ReadValue(body.value);
        if head.None? || |head.value.1| >= |s| then None
        else
          var tail := ReadItems(head.value.1, false);
          if tail.None? then None else Some((Item(head.value.0, tail.value.0), tail.value.1))
  }

  function Separated(s: string): (r: Option<string>)
    ensures r.Some? ==> |r.value| < |s|
  {
    if "," <= s then Some(s[1..]) else None
  }

  /** What follows the opening brace of an object or one of its members. */
  function ReadFields(s: string, first: bool): Read<Fields>
    decreases |s|, 3
  {
    if "}" <= s then Some((Empty, s[1..]))
    else
      var body := if first then Some(s) else Separated(s);
      if body.None? then None
      else
        var member := ReadMember(body.value);
        if member.None? || |member.value.1| >= |s| then None
        else
          var rest := ReadFields(member.value.1, false);
          if rest.None? then None
          else Some((Field(member.value.0.0, member.value.0.1, rest.value.0), rest.value.1))
  }

  /** A name, a colon and a value. */
  function ReadMember(s: string): Read<(string, Json)>
    decreases |s|, 2
  {
    if !("\"" <= s) then None
    else
      var key := ReadQuoted(s[1..]);
      if key.None? || |key.value.1| >= |s| || !(":" <= key.value.1) then None
      else
        var value := ReadValue(key.value.1[1..]);
        if value.None? then None else Some(((key.value.0, value.value.0), value.value.1))
  }

  // ---------- reading inverts printing ----------

  lemma HexReads(n: nat)
    requires n < 16
    ensures HexValue(HexDigit(n)) == Some(n)
  {
  }

  lemma ReadEscape(c: char, rest: string)
    ensures ReadChar(Escape(c) + rest) == Some((c, rest))
  {
    var s := Escape(c) + rest;
    assert s[|Escape(c)|..] == rest;
    if c < ' ' && |Escape(c)| == 6 {
      var n := c as nat;
      HexReads(n / 16);
      HexReads(n % 16);
      assert s[2] == '0' && s[3] == '0' && s[4] == HexDigit(n / 16) && s[5] == HexDigit(n % 16);
    } else if |Escape(c)| == 2 {
      assert s[0] == '\\' && s[1] == Escape(c)[1];
    } else {
      assert s[0] == c;
    }
  }

  lemma {:induction false} QuotedReads(s: string, x: string)
    ensures ReadQuoted(EscapeAll(s) + ("\"" + x)) == Some((s, x))
    decreases |s|
  {
    EscapeAllStarts(s, "\"" + x);
    if s == "" {
      assert EscapeAll(s) + ("\"" + x) == "\"" + x && ("\"" + x)[1..] == x;
    } else {
      ReadEscape(s[0], EscapeAll(s[1..]) + ("\"" + x));
      EscapeStarts(s[0]);
      hide Escape, ReadChar, EscapeAll;
      QuotedReads(s[1..], x);
      assert [s[0]] + s[1..] == s;
    }
  }

  lemma StringReads(s: string, x: string)
    ensures "\"" <= PrintString(s) + x
    ensures ReadQuoted((PrintString(s) + x)[1..]) == Some((s, x))
  {
    QuotedReads(s, x);
    assert PrintString(s) + x == "\"" + (EscapeAll(s) + ("\"" + x));
    assert (PrintString(s) + x)[1..] == EscapeAll(s) + ("\"" + x);
    hide ReadQuoted, EscapeAll;
  }

  lemma {:induction false} NumberReads(a: string, x: string)
    requires (forall i :: 0 <= i < |a| ==> IsNumberChar(a[i])) && Delimited(x)
    ensures NumberRun(a + x) == |a|
  {
    if a == "" {
      assert a + x == x;
    } else {
      assert (a + x)[1..] == a[1..] + x;
      NumberReads(a[1..], x);
    }
  }

  lemma ScalarReads(j: Json, x: string)
    requires WellFormed(j) && !j.Arr? && !j.Obj? && Delimited(x)
    ensures ReadValue(Print(j) + x) == Some((j, x))
  {
    var s := Print(j) + x;
    match j
    case Null => assert s[..4] == "null" && s[4..] == x;
    case Bool(b) =>
      if b {
        assert s[..4] == "true" && s[4..] == x && s[0] == 't';
      } else {
        assert s[..5] == "false" && s[5..] == x && s[0] == 'f';
      }
    case Num(a) =>
      NumberReads(a, x);
      assert s[..|a|] == a && s[|a|..] == x && s[0] == a[0];
    case Str(t) =>
      StringReads(t, x);
      assert s[0] == '"';
      hide ReadQuoted, PrintString;
  }

  /** What a printed value starts with, and that it does not start with anything else. */
  lemma ValueStarts(j: Json, x: string)
    requires WellFormed(j)
    ensures Print(j) + x != "" && (Print(j) + x)[0] == FirstChar(j)
  {
    PrintStarts(j);
  }

  lemma ArrayReads(items: Items, x: string)
    requires ReadItems(PrintItems(items, true) + x, true) == Some((items, x))
    ensures ReadValue(Print(Arr(items)) + x) == Some((Arr(items), x))
  {
    ArrText(items, x);
    hide PrintItems, ReadItems, Print;
    var s := "[" + (PrintItems(items, true) + x);
    assert s[0] == '[' && s[1..] == PrintItems(items, true) + x;
  }

  lemma ObjectReads(fields: Fields, x: string)
    requires ReadFields(PrintFields(fields, true) + x, true) == Some((fields, x))
    ensures ReadValue(Print(Obj(fields)) + x) == Some((Obj(fields), x))
  {
    ObjText(fields, x);
    hide PrintFields, ReadFields, Print;
    var s := "{" + (PrintFields(fields, true) + x);
    assert s[0] == '{' && s[1..] == PrintFields(fields, true) + x;
  }

  lemma ItemsStep(head: Json, tail: Items, x: string, first: bool)
    requires WellFormed(head)
    requires ReadValue(Print(head) + (PrintItems(tail, false) + x)) == Some((head, PrintItems(tail, false) + x))
    requires ReadItems(PrintItems(tail, false) + x, false) == Some((tail, x))
    ensures ReadItems(PrintItems(Item(head, tail), first) + x, first) == Some((Item(head, tail), x))
  {
    ItemsSplit(Item(head, tail), first, x);
    var body := Print(head) + (PrintItems(tail, false) + x);
    ValueStarts(head, PrintItems(tail, false) + x);
    var s := PrintItems(Item(head, tail), first) + x;
    assert s == (if first then "" else ",") + body;
    assert FirstChar(head) != ']';
    PrintStarts(head);
    hide Print, PrintItems, ReadValue;
    if first {
      assert s == body;
    } else {
      assert s[1..] == body && s[0] == ',';
    }
  }

  lemma MemberReads(key: string, value: Json, tail: string)
    requires WellFormed(value) && ReadValue(Print(value) + tail) == Some((value, tail))
    ensures var s := PrintString(key) + (":" + (Print(value) + tail));
      s[0] == '"' && ReadMember(s) == Some(((key, value), tail))
  {
    var after := ":" + (Print(value) + tail);
    StringReads(key, after);
    assert |PrintString(key)| >= 2;
    hide Print, PrintString, ReadQuoted, ReadValue;
    var s := PrintString(key) + after;
    assert s[0] == '"' && after[1..] == Print(value) + tail;
  }

  lemma FieldsContinue(s: string, first: bool, body: string, key: string, value: Json,
                       tail: string, rest: Fields, x: string)
    requires s != "" && s[0] != '}' && |tail| < |s|
    requires if first then body == s else s[0] == ',' && body == s[1..]
    requires ReadMember(body) == Some(((key, value), tail)) && ReadFields(tail, false) == Some((rest, x))
    ensures ReadFields(s, first) == Some((Field(key, value, rest), x))
  {
    hide ReadMember;
  }

  lemma FieldsStep(key: string, value: Json, rest: Fields, x: string, first: bool)
    requires WellFormed(value)
    requires ReadValue(Print(value) + (PrintFields(rest, false) + x)) == Some((value, PrintFields(rest, false) + x))
    requires ReadFields(PrintFields(rest, false) + x, false) == Some((rest, x))
    ensures ReadFields(PrintFields(Field(key, value, rest), first) + x, first) == Some((Field(key, value, rest), x))
  {
    hide Print, PrintFields, PrintString, ReadValue, ReadMember, ReadFields;
    FieldsSplit(Field(key, value, rest), first, x);
    var tail := PrintFields(rest, false) + x;
    var body := PrintString(key) + (":" + (Print(value) + tail));
    var s := PrintFields(Field(key, value, rest), first) + x;
    MemberReads(key, value, tail);
    assert s == (if first then "" else ",") + body;
    assert if first then body == s else s[0] == ',' && body == s[1..];
    FieldsContinue(s, first, body, key, value, tail, rest, x);
  }

  /** By the grammar of RFC 8259 the text printed for a value denotes that value, whatever
      delimited text follows it. */
  lemma {:induction false} PrintReads(j: Json, x: string)
    requires WellFormed(j) && Delimited(x)
    ensures ReadValue(Print(j) + x) == Some((j, x))
    decreases j
  {
    match j
    case Arr(items) =>
      PrintItemsRead(items, x, true);
      ArrayReads(items, x);
    case Obj(fields) =>
      PrintFieldsRead(fields, x, true);
      ObjectReads(fields, x);
    case _ => ScalarReads(j, x);
  }

  lemma {:induction false} PrintItemsRead(e: Items, x: string, first: bool)
    requires WellFormedItems(e)
    ensures ReadItems(PrintItems(e, first) + x, first) == Some((e, x))
    decreases e
  {
    match e
    case End => assert ("]" + x)[1..] == x;
    case Item(head, tail) =>
      hide Print, PrintItems, ReadValue, ReadItems, Delimited;
      ItemsDelimit(tail, x);
      PrintReads(head, PrintItems(tail, false) + x);
      PrintItemsRead(tail, x, false);
      ItemsStep(head, tail, x, first);
  }

  lemma {:induction false} PrintFieldsRead(f: Fields, x: string, first: bool)
    requires WellFormedFields(f)
    ensures ReadFields(PrintFields(f, first) + x, first) == Some((f, x))
    decreases f
  {
    match f
    case Empty => assert ("}" + x)[1..] == x;
    case Field(k, v, rest) =>
      hide Print, PrintFields, ReadValue, ReadFields, Delimited;
      FieldsDelimit(rest, x);
      PrintReads(v, PrintFields(rest, false) + x);
      PrintFieldsRead(rest, x, false);
      FieldsStep(k, v, rest, x, first);
  }

  // ---------- what a signature says ----------

  lemma {:induction false} StableTwice(j: Json, less: Order)
    requires StrictTotalOrder(less) && WellFormed(j)
    ensures Stable(Stable(j, less), less) == Stable(j, less)
    decreases j
  {
    match j
    case Arr(items) => ItemsTwice(items, less);
    case Obj(fields) =>
      var once := StableFields(fields, less);
      StableFieldsWellFormed(fields, less);
      StableFieldsLookup(fields, less);
      StableFieldsLookup(once, less);
      forall x | x in Keys(fields) ensures Lookup(StableFields(once, less), x) == Lookup(once, x) {
        MemberTwice(fields, x, less);
      }
      SortedUnique(StableFields(once, less), once, less);
    case _ =>
  }

  lemma {:induction false} ItemsTwice(e: Items, less: Order)
    requires StrictTotalOrder(less) && WellFormedItems(e)
    ensures StableItems(StableItems(e, less), less) == StableItems(e, less)
    decreases e
  {
    if e.Item? {
      StableTwice(e.head, less);
      ItemsTwice(e.tail, less);
    }
  }

  lemma {:induction false} MemberTwice(f: Fields, x: string, less: Order)
    requires StrictTotalOrder(less) && WellFormedFields(f) && x in Keys(f)
    ensures Stable(Stable(Lookup(f, x), less), less) == Stable(Lookup(f, x), less)
    decreases f
  {
    if f.key == x {
      StableTwice(f.value, less);
    } else {
      MemberTwice(f.rest, x, less);
    }
  }

  /** By the grammar of RFC 8259 a signature denotes a value, and that value is the schema
      up to member order at every depth. */
  lemma SignatureDenotes(j: Json, less: Order)
    requires StrictTotalOrder(less) && WellFormed(j)
    ensures ReadValue(Signature(j, less)).Some?
    ensures var read := ReadValue(Signature(j, less)).value;
      read.1 == "" && Same(j, read.0)
  {
    StableWellFormed(j, less);
    StableTwice(j, less);
    SameIffStable(j, Stable(j, less), less);
    PrintReads(Stable(j, less), "");
    assert Print(Stable(j, less)) + "" == Signature(j, less);
    hide ReadValue, Print, Stable, Same;
  }
}
