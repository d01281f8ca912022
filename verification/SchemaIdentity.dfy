/** When two schemas have the same signature, and what a sequence of registrations leaves.
    scripts/protocol-gen-swift.ts, stableJson, schemaSignature, registerNamedSchema, namedSchema. */
module SchemaIdentity {
  import opened Text
  import opened Sorting
  import opened SchemaText

  // ---------- the same value up to member order ----------

  function Lookup(f: Fields, key: string): (r: Json)
    requires key in Keys(f)
  {
    if f.key == key then f.value else Lookup(f.rest, key)
  }

  /** The same JSON value, whatever the order of members, at every depth. */
  predicate Same(a: Json, b: Json) {
    match a
    case Arr(items) => b.Arr? && SameItems(items, b.items)
    case Obj(fields) => b.Obj? && Keys(fields) == Keys(b.fields) && SameMembers(fields, b.fields)
    case _ => a == b
  }

  predicate SameItems(a: Items, b: Items) {
    match a
    case End => b.End?
    case Item(head, tail) => b.Item? && Same(head, b.head) && SameItems(tail, b.tail)
  }

  /** Every member of `f` has the same value in `g`. */
  predicate SameMembers(f: Fields, g: Fields) {
    f.Field? ==> f.key in Keys(g) && Same(f.value, Lookup(g, f.key)) && SameMembers(f.rest, g)
  }

  // ---------- sorted members ----------

  ghost predicate Above(k: string, f: Fields, less: (string, string) -> bool) {
    forall x :: x in Keys(f) ==> less(k, x)
  }

  ghost predicate Sorted(f: Fields, less: (string, string) -> bool) {
    f.Field? ==> Above(f.key, f.rest, less) && Sorted(f.rest, less)
  }

  lemma InsertSorted(k: string, v: Json, f: Fields, less: (string, string) -> bool)
    requires StrictTotalOrder(less) && Sorted(f, less) && k !in Keys(f)
    ensures Sorted(InsertField(k, v, f, less), less)
    ensures Keys(InsertField(k, v, f, less)) == Keys(f) + {k}
    ensures Lookup(InsertField(k, v, f, less), k) == v
    ensures forall x :: x in Keys(f) ==> Lookup(InsertField(k, v, f, less), x) == Lookup(f, x)
  {
    if f.Field? && !less(k, f.key) {
      InsertSorted(k, v, f.rest, less);
      assert f.key in Keys(f) && less(f.key, k);
      var r := InsertField(k, v, f.rest, less);
      forall x | x in Keys(r) ensures less(f.key, x) {
      }
      forall x | x in Keys(f) && x != f.key
        ensures Lookup(InsertField(k, v, f, less), x) == Lookup(f, x) {
      }
    }
  }

  lemma InsertWellFormed(k: string, v: Json, f: Fields, less: (string, string) -> bool)
    requires WellFormedFields(f) && WellFormed(v) && k !in Keys(f)
    ensures WellFormedFields(InsertField(k, v, f, less))
    ensures Keys(InsertField(k, v, f, less)) == Keys(f) + {k}
  {
  }

  lemma {:induction false} StableWellFormed(j: Json, less: (string, string) -> bool)
    requires WellFormed(j)
    ensures WellFormed(Stable(j, less))
    decreases j
  {
    match j
    case Arr(items) => StableItemsWellFormed(items, less);
    case Obj(fields) => StableFieldsWellFormed(fields, less);
    case _ =>
  }

  lemma {:induction false} StableItemsWellFormed(e: Items, less: (string, string) -> bool)
    requires WellFormedItems(e)
    ensures WellFormedItems(StableItems(e, less))
    decreases e
  {
    if e.Item? {
      StableWellFormed(e.head, less);
      StableItemsWellFormed(e.tail, less);
    }
  }

  lemma {:induction false} StableFieldsWellFormed(f: Fields, less: (string, string) -> bool)
    requires WellFormedFields(f)
    ensures WellFormedFields(StableFields(f, less)) && Keys(StableFields(f, less)) == Keys(f)
    decreases f
  {
    if f.Field? {
      StableWellFormed(f.value, less);
      StableFieldsWellFormed(f.rest, less);
      InsertWellFormed(f.key, Stable(f.value, less), StableFields(f.rest, less), less);
    }
  }

  /** Sorting members keeps the names and, under each name, the canonical value. */
  lemma {:induction false} StableFieldsLookup(f: Fields, less: (string, string) -> bool)
    requires StrictTotalOrder(less) && WellFormedFields(f)
    ensures Sorted(StableFields(f, less), less) && Keys(StableFields(f, less)) == Keys(f)
    ensures forall x :: x in Keys(f) ==> Lookup(StableFields(f, less), x) == Stable(Lookup(f, x), less)
  {
    if f.Field? {
      StableFieldsLookup(f.rest, less);
      InsertSorted(f.key, Stable(f.value, less), StableFields(f.rest, less), less);
    }
  }

  /** Sorted members are determined by names and values. */
  lemma {:induction false} SortedUnique(f: Fields, g: Fields, less: (string, string) -> bool)
    requires StrictTotalOrder(less) && Sorted(f, less) && Sorted(g, less) && Keys(f) == Keys(g)
    requires forall x :: x in Keys(f) ==> Lookup(f, x) == Lookup(g, x)
    ensures f == g
  {
    assert f.Field? ==> f.key in Keys(g);
    assert g.Field? ==> g.key in Keys(f);
    if f.Field? && g.Field? {
      assert f.key == g.key;
      assert f.key !in Keys(f.rest) && g.key !in Keys(g.rest);
      assert Keys(f.rest) == Keys(f) - {f.key};
      assert Keys(g.rest) == Keys(g) - {g.key};
      forall x | x in Keys(f.rest) ensures Lookup(f.rest, x) == Lookup(g.rest, x) {
        assert Lookup(f, x) == Lookup(g, x);
      }
      SortedUnique(f.rest, g.rest, less);
    }
  }

  // ---------- canonical forms coincide exactly for the same value ----------

  lemma {:induction false} SameIffStable(a: Json, b: Json, less: (string, string) -> bool)
    requires StrictTotalOrder(less) && WellFormed(a) && WellFormed(b)
    ensures Same(a, b) <==> Stable(a, less) == Stable(b, less)
    decreases a
  {
    if a.Arr? && b.Arr? {
      SameItemsIffStable(a.items, b.items, less);
    } else if a.Obj? && b.Obj? {
      var f, g := a.fields, b.fields;
      StableFieldsLookup(f, less);
      StableFieldsLookup(g, less);
      MembersIffStable(f, g, less);
      if Same(a, b) {
        SortedUnique(StableFields(f, less), StableFields(g, less), less);
      }
    }
  }

  lemma {:induction false} SameItemsIffStable(a: Items, b: Items, less: (string, string) -> bool)
    requires StrictTotalOrder(less) && WellFormedItems(a) && WellFormedItems(b)
    ensures SameItems(a, b) <==> StableItems(a, less) == StableItems(b, less)
    decreases a
  {
    if a.Item? && b.Item? {
      SameIffStable(a.head, b.head, less);
      SameItemsIffStable(a.tail, b.tail, less);
    }
  }

  lemma LookupWellFormed(g: Fields, key: string)
    requires WellFormedFields(g) && key in Keys(g)
    ensures WellFormed(Lookup(g, key))
  {
  }

  /** Under every name of `f`, the two objects have the same canonical value. */
  ghost predicate StableAgree(f: Fields, g: Fields, less: (string, string) -> bool) {
    forall x :: x in Keys(f) ==> x in Keys(g) && Stable(Lookup(f, x), less) == Stable(Lookup(g, x), less)
  }

  lemma StableAgreeSplit(f: Fields, g: Fields, less: (string, string) -> bool)
    requires f.Field? && f.key !in Keys(f.rest)
    ensures StableAgree(f, g, less) <==>
      && f.key in Keys(g) && Stable(f.value, less) == Stable(Lookup(g, f.key), less)
      && StableAgree(f.rest, g, less)
  {
    hide Stable;
    assert Lookup(f, f.key) == f.value;
    forall x | x in Keys(f.rest) ensures x in Keys(f) && Lookup(f, x) == Lookup(f.rest, x) {
    }
    if StableAgree(f, g, less) {
      assert f.key in Keys(f);
      forall x | x in Keys(f.rest)
        ensures x in Keys(g) && Stable(Lookup(f.rest, x), less) == Stable(Lookup(g, x), less) {
        assert x in Keys(f);
      }
    }
  }

  lemma {:induction false} MembersIffStable(f: Fields, g: Fields, less: (string, string) -> bool)
    requires StrictTotalOrder(less) && WellFormedFields(f) && WellFormedFields(g)
    ensures SameMembers(f, g) <==> StableAgree(f, g, less)
    decreases f
  {
    if f.Field? {
      StableAgreeSplit(f, g, less);
      MembersIffStable(f.rest, g, less);
      hide StableAgree, Stable;
      if f.key in Keys(g) {
        LookupWellFormed(g, f.key);
        SameIffStable(f.value, Lookup(g, f.key), less);
      }
    }
  }

  /** Two schemas have equal signatures exactly when they are the same JSON value up to
      member order at every depth. */
  lemma SignatureIdentifies(a: Json, b: Json, less: (string, string) -> bool)
    requires StrictTotalOrder(less) && WellFormed(a) && WellFormed(b)
    ensures Signature(a, less) == Signature(b, less) <==> Same(a, b)
  {
    SameIffStable(a, b, less);
    StableWellFormed(a, less);
    StableWellFormed(b, less);
    if Signature(a, less) == Signature(b, less) {
      assert Print(Stable(a, less)) + "" == Print(Stable(b, less)) + "";
      PrintUnique(Stable(a, less), "", Stable(b, less), "");
    }
  }

  // ---------- the registry ----------

  type Order = (string, string) -> bool

  /** A registered schema object: its identity, its name, its value. */
  datatype Registration = Registration(id: nat, name: string, schema: Json)

  datatype Names = Names(byObject: map<nat, string>, bySignature: map<string, string>, duplicates: set<string>)

  /** The module-level maps of the generator. */
  class SchemaRegistry {
    const less: Order
    var nameByObject: map<nat, string>
    var nameBySignature: map<string, string>
    var duplicateSignatures: set<string>

    function Abstract(): Names
      reads this
    {
      Names(nameByObject, nameBySignature, duplicateSignatures)
    }

    constructor (less: Order)
      ensures this.less == less && Abstract() == Registered([], less)
    {
      this.less := less;
      nameByObject, nameBySignature, duplicateSignatures := map[], map[], {};
    }

    method RegisterNamedSchema(r: Registration, ghost earlier: seq<Registration>)
      requires Abstract() == Registered(earlier, less)
      modifies this
      ensures Abstract() == Registered(earlier + [r], less)
    {
      assert (earlier + [r])[..|earlier|] == earlier;
      nameByObject := nameByObject[r.id := r.name];
      var signature := Signature(r.schema, less);
      if signature in duplicateSignatures {
        return;
      }
      if signature in nameBySignature {
        nameBySignature := nameBySignature - {signature};
        duplicateSignatures := duplicateSignatures + {signature};
        return;
      }
      nameBySignature := nameBySignature[signature := r.name];
    }

    method NamedSchema(id: nat, schema: Json, allowStructuralFallback: bool) returns (name: Option<string>)
      ensures name == NameOf(Abstract(), id, schema, allowStructuralFallback, less)
    {
      if id in nameByObject {
        return Some(nameByObject[id]);
      }
      var signature := Signature(schema, less);
      if allowStructuralFallback && signature in nameBySignature {
        return Some(nameBySignature[signature]);
      }
      return None;
    }
  }

  function RegisterOne(n: Names, r: Registration, less: Order): Names {
    var signature := Signature(r.schema, less);
    var byObject := n.byObject[r.id := r.name];
    if signature in n.duplicates then n.(byObject := byObject)
    else if signature in n.bySignature then
      Names(byObject, n.bySignature - {signature}, n.duplicates + {signature})
    else Names(byObject, n.bySignature[signature := r.name], n.duplicates)
  }

  function Registered(history: seq<Registration>, less: Order): Names {
    if history == [] then Names(map[], map[], {})
    else RegisterOne(Registered(history[..|history| - 1], less), history[|history| - 1], less)
  }

  function NameOf(n: Names, id: nat, schema: Json, allowStructuralFallback: bool, less: Order): Option<string> {
    if id in n.byObject then Some(n.byObject[id])
    else if allowStructuralFallback && Signature(schema, less) in n.bySignature
    then Some(n.bySignature[Signature(schema, less)])
    else None
  }

  /** The registrations, in order, of a schema that is the same JSON value as `schema`. */
  function Matches(history: seq<Registration>, schema: Json): seq<Registration> {
    if history == [] then []
    else
      var last := history[|history| - 1];
      Matches(history[..|history| - 1], schema) + if Same(schema, last.schema) then [last] else []
  }

  /** The structural map knows exactly the values registered once, under the name of that
      registration; the duplicate set holds those registered twice or more. */
  lemma {:induction false} RegistryCounts(history: seq<Registration>, schema: Json, less: Order)
    requires StrictTotalOrder(less) && WellFormed(schema)
    requires forall r :: r in history ==> WellFormed(r.schema)
    ensures var n, signature, matches := Registered(history, less), Signature(schema, less), Matches(history, schema);
      && (signature in n.bySignature <==> |matches| == 1)
      && (signature in n.bySignature ==> n.bySignature[signature] == matches[0].name)
      && (signature in n.duplicates <==> |matches| >= 2)
  {
    if history != [] {
      var init, last := history[..|history| - 1], history[|history| - 1];
      RegistryCounts(init, schema, less);
      assert last in history;
      SignatureIdentifies(schema, last.schema, less);
      hide Signature, Same, StrictTotalOrder, WellFormed;
    }
  }

  /** The registration at `i` is the last one of the object `id`. */
  ghost predicate IsLastOf(history: seq<Registration>, id: nat, i: int) {
    && 0 <= i < |history| && history[i].id == id
    && forall j :: i < j < |history| ==> history[j].id != id
  }

  /** A registered object is known by the name of its last registration. */
  lemma {:induction false} LastNameOfObject(history: seq<Registration>, id: nat, less: Order)
    ensures id in Registered(history, less).byObject <==> exists i :: IsLastOf(history, id, i)
    ensures forall i :: IsLastOf(history, id, i) ==> Registered(history, less).byObject[id] == history[i].name
  {
    hide Signature;
    if history != [] {
      var n := |history| - 1;
      var init := history[..n];
      LastNameOfObject(init, id, less);
      if history[n].id == id {
        assert IsLastOf(history, id, n);
      } else {
        forall i ensures IsLastOf(history, id, i) <==> IsLastOf(init, id, i) {
          assert forall j :: 0 <= j < n ==> init[j] == history[j];
        }
      }
    }
  }

  /** A registered object is known by the name of its last registration, whether or not its
      value was registered otherwise and whether or not the structural fallback is allowed. */
  lemma RegisteredName(history: seq<Registration>, id: nat, i: nat, schema: Json, fallback: bool, less: Order)
    requires IsLastOf(history, id, i)
    ensures NameOf(Registered(history, less), id, schema, fallback, less) == Some(history[i].name)
  {
    LastNameOfObject(history, id, less);
    hide Signature, Registered;
  }

  /** What a structural lookup means: an unregistered object gets a name exactly when one
      registration, and only one, was of the same JSON value up to member order. */
  lemma StructuralName(history: seq<Registration>, id: nat, schema: Json, less: Order)
    requires StrictTotalOrder(less) && WellFormed(schema)
    requires forall r :: r in history ==> WellFormed(r.schema) && r.id != id
    ensures NameOf(Registered(history, less), id, schema, true, less)
      == if |Matches(history, schema)| == 1 then Some(Matches(history, schema)[0].name) else None
    ensures NameOf(Registered(history, less), id, schema, false, less) == None
  {
    LastNameOfObject(history, id, less);
    hide Signature, Matches, StrictTotalOrder, Registered;
    RegistryCounts(history, schema, less);
  }

  lemma SameIsEquivalence(a: Json, b: Json, c: Json, less: Order)
    requires StrictTotalOrder(less) && WellFormed(a) && WellFormed(b) && WellFormed(c)
    ensures Same(a, a) && (Same(a, b) ==> Same(b, a)) && (Same(a, b) && Same(b, c) ==> Same(a, c))
  {
    SameIffStable(a, a, less);
    SameIffStable(a, b, less);
    SameIffStable(b, a, less);
    SameIffStable(b, c, less);
    SameIffStable(a, c, less);
  }
}
