/** Choosing the property that tells the branches of a union apart, and what the decoder
    emitted from it does.
    scripts/protocol-gen-swift.ts, literalSchemaValue and emitDiscriminatedUnion. */
module SchemaUnion {
  import opened Text
  import opened Sorting

  /** A scalar constant; a number is the text it prints as. */
  datatype Literal = BoolLit(flag: bool) | NumLit(text: string) | StrLit(text: string) | NullLit

  datatype Property = Property(key: string, constant: Option<Literal>, enumeration: Option<seq<string>>)

  /** A branch of a union: whether its type is "object", the name the registry knows it by,
      and its properties in order, with unique keys. */
  datatype Branch = Branch(isObject: bool, name: Option<string>, properties: seq<Property>)

  datatype TypeName = BoolType | IntType | DoubleType | StringType | AnyCodableType

  datatype Case = Case(branchName: string, literal: Literal)

  datatype Union = Union(discriminator: string, cases: seq<Case>, literalType: TypeName, hasDefault: bool)

  function LiteralValue(p: Property): Option<Literal> {
    if p.constant.Some? then p.constant
    else if p.enumeration.Some? && |p.enumeration.value| == 1 then Some(StrLit(p.enumeration.value[0]))
    else None
  }

  /** Number.isInteger, on the text a number prints as. */
  predicate IsIntegerText(s: string) {
    if 'e' in s then '+' in s else '.' !in s
  }

  function LiteralType(l: Literal): TypeName {
    match l
    case BoolLit(_) => BoolType
    case NumLit(s) => if IsIntegerText(s) then IntType else DoubleType
    case StrLit(_) => StringType
    case NullLit => AnyCodableType
  }

  function StringOf(l: Literal): string {
    match l
    case BoolLit(b) => if b then "true" else "false"
    case NumLit(s) => s
    case StrLit(s) => s
    case NullLit => "null"
  }

  function FindProperty(properties: seq<Property>, key: string): Option<Property> {
    if properties == [] then None
    else if properties[0].key == key then Some(properties[0])
    else FindProperty(properties[1..], key)
  }

  /** The case that a branch contributes under a discriminator, if it can. */
  function CaseOf(b: Branch, key: string): Option<Case> {
    var p := FindProperty(b.properties, key);
    if p.None? || LiteralValue(p.value).None? || b.name.None? || b.name.value == "" then None
    else Some(Case(b.name.value, LiteralValue(p.value).value))
  }

  // ---------- the reference: separating properties ----------

  /** `key` separates the branches: each is named and fixes the property to a scalar, the
      scalars are of one type, and no two are equal. */
  ghost predicate Separates(branches: seq<Branch>, key: string) {
    && (forall i :: 0 <= i < |branches| ==> CaseOf(branches[i], key).Some?)
    && (forall i, j :: 0 <= i < j < |branches| ==>
          && LiteralType(CaseOf(branches[i], key).value.literal) == LiteralType(CaseOf(branches[j], key).value.literal)
          && CaseOf(branches[i], key).value.literal != CaseOf(branches[j], key).value.literal)
  }

  /** The switch of the emitted decoder: the first case whose literal is the value, or an error. */
  function Decode(cases: seq<Case>, v: Literal): Option<nat> {
    if cases == [] then None
    else if cases[0].literal == v then Some(0)
    else match Decode(cases[1..], v)
      case None => None
      case Some(i) => Some(i + 1)
  }

  // ---------- the source's tests ----------

  function SetOf(strings: seq<string>): set<string> {
    set s | s in strings
  }

  lemma {:induction false} SetSizeDistinct(strings: seq<string>)
    ensures |SetOf(strings)| <= |strings|
    ensures |SetOf(strings)| == |strings| <==> Distinct(strings)
  {
    if strings != [] {
      var head, tail := strings[0], strings[1..];
      SetSizeDistinct(tail);
      assert strings == [head] + tail;
      assert SetOf(strings) == SetOf(tail) + {head};
      if Distinct(strings) {
        DistinctTail(head, tail);
      }
      if head !in tail && Distinct(tail) {
        forall i, j | 0 <= i < j < |strings| ensures strings[i] != strings[j] {
          if i == 0 {
            assert strings[j] == tail[j - 1];
          } else {
            assert strings[i] == tail[i - 1] && strings[j] == tail[j - 1];
          }
        }
      }
    }
  }

  function Printed(cases: seq<Case>): (r: seq<string>)
    ensures |r| == |cases|
  {
    seq(|cases|, i requires 0 <= i < |cases| => StringOf(cases[i].literal))
  }

  /** All literals of the first one's type, and as many printed forms as cases. */
  predicate Resolvable(cases: seq<Case>) {
    && cases != []
    && (forall i | 0 <= i < |cases| :: LiteralType(cases[i].literal) == LiteralType(cases[0].literal))
    && |SetOf(Printed(cases))| == |cases|
  }

  lemma SamePrinted(a: Literal, b: Literal)
    requires LiteralType(a) == LiteralType(b)
    ensures StringOf(a) == StringOf(b) <==> a == b
  {
  }

  /** Within one type, counting printed forms tells whether the literals are distinct. */
  lemma ResolvableMeansDistinct(cases: seq<Case>)
    requires cases != []
    ensures Resolvable(cases) <==>
      forall i, j :: 0 <= i < j < |cases| ==>
        LiteralType(cases[i].literal) == LiteralType(cases[j].literal) && cases[i].literal != cases[j].literal
  {
    SetSizeDistinct(Printed(cases));
    hide SetOf, StringOf, IsIntegerText;
    forall i, j | 0 <= i < j < |cases| && LiteralType(cases[i].literal) == LiteralType(cases[j].literal)
      ensures Printed(cases)[i] == Printed(cases)[j] <==> cases[i].literal == cases[j].literal {
      SamePrinted(cases[i].literal, cases[j].literal);
    }
    if Resolvable(cases) {
      forall i, j | 0 <= i < j < |cases|
        ensures LiteralType(cases[i].literal) == LiteralType(cases[j].literal) && cases[i].literal != cases[j].literal {
        assert LiteralType(cases[i].literal) == LiteralType(cases[0].literal) == LiteralType(cases[j].literal);
      }
    }
  }

  predicate IsBool(l: Literal, flag: bool) {
    l == BoolLit(flag)
  }

  predicate CoversAllBoolCases(cases: seq<Case>) {
    && (exists i | 0 <= i < |cases| :: IsBool(cases[i].literal, true))
    && (exists i | 0 <= i < |cases| :: IsBool(cases[i].literal, false))
  }

  /** The keys of the first branch, in order, that come before the first separating one. */
  ghost predicate NoneSeparates(branches: seq<Branch>, keys: seq<string>) {
    forall i :: 0 <= i < |keys| ==> !Separates(branches, keys[i])
  }

  function KeysOf(properties: seq<Property>): (r: seq<string>)
    ensures |r| == |properties|
  {
    seq(|properties|, i requires 0 <= i < |properties| => properties[i].key)
  }

  /** The union emitted for `key`. */
  ghost predicate IsUnionFor(u: Union, branches: seq<Branch>, key: string) {
    && u.discriminator == key
    && |u.cases| == |branches|
    && (forall i :: 0 <= i < |branches| ==> CaseOf(branches[i], key) == Some(u.cases[i]))
    && (forall i :: 0 <= i < |branches| ==> LiteralType(u.cases[i].literal) == u.literalType)
    && u.hasDefault == !(u.literalType.BoolType? && CoversAllBoolCases(u.cases))
  }

  /** The cases of all branches under `key`, unless some branch has none. */
  method CollectCases(branches: seq<Branch>, key: string) returns (cases: Option<seq<Case>>)
    ensures cases.Some? <==> forall i :: 0 <= i < |branches| ==> CaseOf(branches[i], key).Some?
    ensures cases.Some? ==> |cases.value| == |branches|
    ensures cases.Some? ==> forall i :: 0 <= i < |branches| ==> CaseOf(branches[i], key) == Some(cases.value[i])
  {
    var found: seq<Case> := [];
    for n := 0 to |branches|
      invariant |found| == n
      invariant forall i :: 0 <= i < n ==> CaseOf(branches[i], key) == Some(found[i])
    {
      var entry := CaseOf(branches[n], key);
      if entry.None? {
        return None;
      }
      found := found + [entry.value];
    }
    return Some(found);
  }

  /** The union is emitted for the first property of the first branch that separates the
      branches; nothing is emitted exactly when there are fewer than two branches, some
      branch is no object, or no property of the first branch separates them. */
  method EmitDiscriminatedUnion(branches: seq<Branch>) returns (union: Option<Union>)
    ensures union.Some? <==>
      && |branches| >= 2 && (forall i :: 0 <= i < |branches| ==> branches[i].isObject)
      && !NoneSeparates(branches, KeysOf(branches[0].properties))
    ensures union.Some? ==> exists n ::
      && 0 <= n < |branches[0].properties|
      && NoneSeparates(branches, KeysOf(branches[0].properties)[..n])
      && Separates(branches, branches[0].properties[n].key)
      && IsUnionFor(union.value, branches, branches[0].properties[n].key)
  {
    if |branches| < 2 {
      return None;
    }
    for i := 0 to |branches|
      invariant forall j :: 0 <= j < i ==> branches[j].isObject
    {
      if !branches[i].isObject {
        return None;
      }
    }
    var keys := KeysOf(branches[0].properties);
    for n := 0 to |keys|
      invariant NoneSeparates(branches, keys[..n])
    {
      var entry := CollectCases(branches, keys[n]);
      assert keys[..n + 1] == keys[..n] + [keys[n]];
      if entry.Some? && Resolvable(entry.value) {
        var cases := entry.value;
        ResolvableMeansDistinct(cases);
        CasesSeparate(branches, keys[n], cases);
        var literalType := LiteralType(cases[0].literal);
        var coversAllBoolCases := literalType.BoolType? && CoversAllBoolCases(cases);
        union := Some(Union(keys[n], cases, literalType, !coversAllBoolCases));
        assert IsUnionFor(union.value, branches, branches[0].properties[n].key);
        assert Separates(branches, keys[n]);
        return;
      }
      if entry.Some? {
        ResolvableMeansDistinct(entry.value);
        CasesSeparate(branches, keys[n], entry.value);
      }
    }
    assert keys[..|keys|] == keys;
    return None;
  }

  lemma CasesSeparate(branches: seq<Branch>, key: string, cases: seq<Case>)
    requires |cases| == |branches|
    requires forall i :: 0 <= i < |branches| ==> CaseOf(branches[i], key) == Some(cases[i])
    ensures Separates(branches, key) <==>
      forall i, j :: 0 <= i < j < |cases| ==>
        LiteralType(cases[i].literal) == LiteralType(cases[j].literal) && cases[i].literal != cases[j].literal
  {
    hide CaseOf, LiteralType;
  }

  // ---------- what the emitted decoder does ----------

  lemma {:induction false} DecodeFirst(cases: seq<Case>, v: Literal)
    ensures Decode(cases, v).None? <==> forall i :: 0 <= i < |cases| ==> cases[i].literal != v
    ensures Decode(cases, v).Some? ==>
      Decode(cases, v).value < |cases| && cases[Decode(cases, v).value].literal == v
  {
    if cases != [] {
      DecodeFirst(cases[1..], v);
      assert forall i :: 1 <= i < |cases| ==> cases[i] == cases[1..][i - 1];
    }
  }

  lemma {:induction false} SubsetSize(a: set<string>, b: set<string>)
    requires a <= b
    ensures |a| <= |b|
    decreases a
  {
    if x :| x in a {
      SubsetSize(a - {x}, b - {x});
    }
  }

  lemma AtMostTwoBooleans(cases: seq<Case>)
    requires Resolvable(cases) && forall i :: 0 <= i < |cases| ==> cases[i].literal.BoolLit?
    ensures |cases| <= 2
  {
    var booleans := {"true", "false"};
    assert forall i :: 0 <= i < |cases| ==> Printed(cases)[i] in booleans;
    SubsetSize(SetOf(Printed(cases)), booleans);
  }

  lemma DecodesFirst(cases: seq<Case>)
    ensures forall v :: Decode(cases, v).None? <==> forall i :: 0 <= i < |cases| ==> cases[i].literal != v
    ensures forall v :: Decode(cases, v).Some? ==>
      Decode(cases, v).value < |cases| && cases[Decode(cases, v).value].literal == v
  {
    forall v ensures Decode(cases, v).None? <==> forall i :: 0 <= i < |cases| ==> cases[i].literal != v
      ensures Decode(cases, v).Some? ==>
        Decode(cases, v).value < |cases| && cases[Decode(cases, v).value].literal == v {
      DecodeFirst(cases, v);
    }
  }

  /** An object that carries branch i's literal decodes to case i and to no other, and any
      other value is an error. */
  lemma EmittedDecodes(u: Union, branches: seq<Branch>, key: string)
    requires Separates(branches, key) && IsUnionFor(u, branches, key)
    ensures forall i :: 0 <= i < |u.cases| ==> Decode(u.cases, u.cases[i].literal) == Some(i)
    ensures forall v, i :: Decode(u.cases, v) == Some(i) ==> i < |u.cases| && u.cases[i].literal == v
  {
    hide Separates, CaseOf, Decode, LiteralType, CoversAllBoolCases;
    CasesSeparate(branches, key, u.cases);
    hide IsUnionFor;
    forall i | 0 <= i < |u.cases| ensures Decode(u.cases, u.cases[i].literal) == Some(i) {
      DecodeFirst(u.cases, u.cases[i].literal);
    }
    DecodesFirst(u.cases);
  }

  lemma CoversBooleans(cases: seq<Case>)
    ensures CoversAllBoolCases(cases) <==>
      Decode(cases, BoolLit(true)).Some? && Decode(cases, BoolLit(false)).Some?
  {
    DecodesFirst(cases);
    hide Decode;
  }

  lemma TypesOfCases(u: Union, branches: seq<Branch>, key: string)
    requires |branches| >= 2 && Separates(branches, key) && IsUnionFor(u, branches, key)
    ensures Resolvable(u.cases)
    ensures u.literalType != AnyCodableType
    ensures u.literalType.BoolType? <==> forall i :: 0 <= i < |u.cases| ==> u.cases[i].literal.BoolLit?
  {
    CasesSeparate(branches, key, u.cases);
    ResolvableMeansDistinct(u.cases);
    hide Separates, CaseOf, Resolvable, IsIntegerText, CoversAllBoolCases;
    assert u.cases[0].literal != u.cases[1].literal;
    assert LiteralType(u.cases[0].literal) == u.literalType == LiteralType(u.cases[1].literal);
  }

  /** The literals have one scalar type and none is null; the default arm is left out exactly
      when both booleans have a case, and then there are two cases. */
  lemma DefaultArm(u: Union, branches: seq<Branch>, key: string)
    requires |branches| >= 2 && Separates(branches, key) && IsUnionFor(u, branches, key)
    ensures forall i :: 0 <= i < |u.cases| ==>
      LiteralType(u.cases[i].literal) == u.literalType && !u.cases[i].literal.NullLit?
    ensures !u.hasDefault <==>
      Decode(u.cases, BoolLit(true)).Some? && Decode(u.cases, BoolLit(false)).Some?
    ensures !u.hasDefault ==> |u.cases| == 2
  {
    TypesOfCases(u, branches, key);
    CoversBooleans(u.cases);
    DecodesFirst(u.cases);
    hide Separates, CaseOf, Decode, Resolvable, IsIntegerText, CoversAllBoolCases;
    if !u.hasDefault {
      AtMostTwoBooleans(u.cases);
    }
  }

  // ---------- what a case of a branch is ----------

  /** Whether a property admits a value: its constant only, or, without one, the strings
      that its enumeration lists; a property with neither admits anything. */
  predicate Admits(p: Property, l: Literal) {
    match p.constant
    case Some(c) => l == c
    case None => p.enumeration.Some? ==> l.StrLit? && l.text in p.enumeration.value
  }

  /** The literal of a property is the only value it admits; and a property that admits one
      value only has it as its literal, unless its enumeration repeats that value. */
  lemma LiteralIsOnlyValue(p: Property, l: Literal)
    ensures LiteralValue(p) == Some(l) ==> OnlyAdmits(p, l)
    ensures OnlyAdmits(p, l) && !Repeats(p) ==> LiteralValue(p) == Some(l)
  {
    if OnlyAdmits(p, l) {
      assert Admits(p, l);
      if p.constant.Some? {
        assert Admits(p, p.constant.value);
      } else {
        OneAdmitted(p, l);
      }
    }
  }

  ghost predicate OnlyAdmits(p: Property, l: Literal) {
    forall v :: Admits(p, v) <==> v == l
  }

  /** The enumeration that decides the property lists a value twice. */
  predicate Repeats(p: Property) {
    p.constant.None? && p.enumeration.Some? && !Distinct(p.enumeration.value)
  }

  lemma OneAdmitted(p: Property, l: Literal)
    requires p.constant.None? && OnlyAdmits(p, l)
    ensures p.enumeration.Some? && l.StrLit? && l.text in p.enumeration.value
    ensures Distinct(p.enumeration.value) ==> p.enumeration.value == [l.text]
  {
    assert Admits(p, l);
    if p.enumeration.None? {
      assert Admits(p, NullLit) && Admits(p, BoolLit(true));
    } else {
      var e := p.enumeration.value;
      forall i | 0 <= i < |e| ensures e[i] == l.text {
        assert Admits(p, StrLit(e[i]));
      }
      assert |e| >= 2 ==> e[0] == e[1];
    }
  }

  /** The property found for a key is the first one of that key, if there is any. */
  lemma {:induction false} FoundFirst(properties: seq<Property>, key: string)
    ensures FindProperty(properties, key).None? <==> forall i :: 0 <= i < |properties| ==> properties[i].key != key
    ensures FindProperty(properties, key).Some? ==>
      exists i :: 0 <= i < |properties| && properties[i] == FindProperty(properties, key).value
        && properties[i].key == key && forall j :: 0 <= j < i ==> properties[j].key != key
  {
    if properties != [] && properties[0].key != key {
      FoundFirst(properties[1..], key);
      assert forall i :: 1 <= i < |properties| ==> properties[i] == properties[1..][i - 1];
      if FindProperty(properties, key).Some? {
        var rest := properties[1..];
        var i :| 0 <= i < |rest| && rest[i] == FindProperty(rest, key).value
          && rest[i].key == key && forall j :: 0 <= j < i ==> rest[j].key != key;
        assert properties[i + 1] == rest[i];
      }
    }
  }

  /** A branch has a case under a key exactly if it is named and its first property of that
      key has a literal; the case holds that name and that literal. */
  lemma CaseMeaning(b: Branch, key: string)
    ensures CaseOf(b, key).Some? ==>
      && b.name == Some(CaseOf(b, key).value.branchName) && b.name != Some("")
      && FindProperty(b.properties, key).Some?
      && LiteralValue(FindProperty(b.properties, key).value) == Some(CaseOf(b, key).value.literal)
    ensures (b.name.Some? && b.name != Some("") && FindProperty(b.properties, key).Some?
      && LiteralValue(FindProperty(b.properties, key).value).Some?) ==> CaseOf(b, key).Some?
  {
    hide FindProperty, LiteralValue;
  }

  /** The type of a number: whole if it has no fraction, which in plain decimals shows as a
      point and in exponent form as a negative exponent. */
  lemma NumberTypes(s: string)
    ensures 'e' !in s ==> (LiteralType(NumLit(s)) == (if '.' in s then DoubleType else IntType))
    ensures 'e' in s ==> (LiteralType(NumLit(s)) == (if '+' in s then IntType else DoubleType))
  {
  }
}
