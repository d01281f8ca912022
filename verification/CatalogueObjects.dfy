/** The catalogue as the nested mutable objects that setNestedValue writes into.
    scripts/control-ui-i18n.ts, setNestedValue and the rebuilding loop of syncLocale. */
module CatalogueObjects {
  import opened Text
  import opened OrderedMap
  import opened CatalogueTree

  datatype Slot = Text(text: string) | Nested(child: Node)

  function KeyList(m: Catalogue): seq<string> {
    match m
    case Nil => []
    case Cons(k, _, rest) => [k] + KeyList(rest)
  }

  /** One object: its property names in insertion order, its properties, and the catalogue
      that it and its descendants hold. */
  class Node {
    var names: seq<string>
    var slots: map<string, Slot>
    ghost var Model: Catalogue
    ghost var Repr: set<object>

    ghost predicate Valid()
      reads this, Repr
      ensures Valid() ==> this in Repr
      decreases Repr
    {
      && this in Repr
      && slots.Keys == Keys(Model) && names == KeyList(Model)
      && (forall k :: k in slots && slots[k].Text? ==> Get(Model, k) == Some(Str(slots[k].text)))
      && (forall k :: k in slots && slots[k].Nested? ==>
            slots[k].child in Repr && slots[k].child.Repr <= Repr && this !in slots[k].child.Repr)
      && (forall k :: k in slots && slots[k].Nested? ==> slots[k].child.Valid())
      && (forall k :: k in slots && slots[k].Nested? ==> Get(Model, k) == Some(Sub(slots[k].child.Model)))
      && (forall j, k :: j in slots && k in slots && j != k && slots[j].Nested? && slots[k].Nested? ==>
            slots[j].child.Repr !! slots[k].child.Repr)
    }

    constructor ()
      ensures Valid() && Model == Nil && Repr == {this} && fresh(this)
    {
      names, slots, Model := [], map[], Nil;
      Repr := {this};
    }

    /** `cursor[key] = text`. */
    method PutText(key: string, text: string)
      requires Valid()
      modifies this
      ensures Valid() && Repr == old(Repr)
      ensures Model == Put(old(Model), key, Str(text))
    {
      PutFacts(Model, key, Str(text));
      hide Put, Get, Keys, KeyList;
      names := if key in slots then names else names + [key];
      slots := slots[key := Text(text)];
      Model := Put(Model, key, Str(text));
    }

    /** The texts and the objects under every other name, as `Valid` sees them. */
    ghost predicate ValidExcept(key: string)
      reads this, Repr
    {
      && this in Repr
      && slots.Keys == Keys(Model) && names == KeyList(Model)
      && (forall k :: k in slots && slots[k].Text? ==> Get(Model, k) == Some(Str(slots[k].text)))
      && (forall k :: k in slots && k != key && slots[k].Nested? ==>
            && slots[k].child in Repr && slots[k].child.Repr <= Repr && this !in slots[k].child.Repr
            && slots[k].child.Valid() && Get(Model, k) == Some(Sub(slots[k].child.Model)))
      && (forall j, k | j in slots && k in slots && j != k && j != key && k != key ::
            slots[j].Nested? && slots[k].Nested? ==> slots[j].child.Repr !! slots[k].child.Repr)
    }

    /** Taking over what happened below `key`. */
    ghost method Adopt(key: string, child: Node)
      requires key in slots && slots[key] == Nested(child) && ValidExcept(key)
      requires child.Valid() && this !in child.Repr
      requires forall k :: k in slots && k != key && slots[k].Nested? ==> slots[k].child.Repr !! child.Repr
      modifies this`Model, this`Repr
      ensures Valid() && Repr == old(Repr) + child.Repr
      ensures Model == Put(old(Model), key, Sub(child.Model))
    {
      PutKnown(Model, key, Sub(child.Model));
      hide Put, Get, Keys, KeyList;
      Model := Put(Model, key, Sub(child.Model));
      Repr := Repr + child.Repr;
      assert child.Valid();
      assert ValidExcept(key);
      Complete(key, child);
    }

    lemma Complete(key: string, child: Node)
      requires key in slots && slots[key] == Nested(child) && ValidExcept(key)
      requires child in Repr && child.Repr <= Repr && this !in child.Repr && child.Valid()
      requires Get(Model, key) == Some(Sub(child.Model))
      requires forall k :: k in slots && k != key && slots[k].Nested? ==> slots[k].child.Repr !! child.Repr
      ensures Valid()
    {
      hide Get, Keys, KeyList;
    }

    /** `cursor[key] = {}`. */
    method PutObject(key: string) returns (replacement: Node)
      requires Valid()
      modifies this
      ensures Valid() && Repr == old(Repr) + {replacement} && fresh(replacement)
      ensures key in slots && slots[key] == Nested(replacement) && replacement.Model == Nil
      ensures Model == Put(old(Model), key, Sub(Nil))
    {
      hide Put, Get, Keys, KeyList;
      replacement := new Node();
      Link(key, replacement);
    }

    /** Puts an empty object from outside under the key. */
    method Link(key: string, child: Node)
      requires Valid() && child.Valid() && child.Model == Nil && child.Repr == {child} && child !in Repr
      modifies this
      ensures Valid() && Repr == old(Repr) + {child}
      ensures slots == old(slots)[key := Nested(child)]
      ensures Model == Put(old(Model), key, Sub(Nil))
    {
      PutFacts(Model, key, Sub(Nil));
      hide Put, Get, Keys, KeyList;
      names := if key in slots then names else names + [key];
      slots := slots[key := Nested(child)];
      Model := Put(Model, key, Sub(Nil));
      Repr := Repr + {child};
      forall k | k in slots && slots[k].Text? ensures Get(Model, k) == Some(Str(slots[k].text)) {
        assert k in old(slots) && slots[k] == old(slots)[k];
      }
      forall k | k in slots && k != key && slots[k].Nested?
        ensures slots[k].child in Repr && slots[k].child.Repr <= Repr && this !in slots[k].child.Repr
        ensures slots[k].child.Valid() && child !in slots[k].child.Repr
        ensures Get(Model, k) == Some(Sub(slots[k].child.Model))
      {
        assert k in old(slots) && slots[k] == old(slots)[k];
      }
      assert ValidExcept(key);
      Complete(key, child);
    }

    /** The object under `key`, in place of a string or of nothing if need be. */
    method Below(key: string) returns (child: Node)
      requires Valid()
      modifies this
      ensures Valid() && fresh(Repr - old(Repr))
      ensures key in slots && slots[key] == Nested(child)
      ensures child.Model == ChildOf(old(Model), key)
      ensures forall v :: Put(Model, key, v) == Put(old(Model), key, v)
    {
      GetKeys(Model, key);
      PutFacts(Model, key, Sub(Nil));
      forall v ensures Put(Put(Model, key, Sub(Nil)), key, v) == Put(Model, key, v) {
        PutPut(Model, key, Sub(Nil), v);
      }
      hide Put, Get, Keys, KeyList;
      if key !in slots || slots[key].Text? {
        child := PutObject(key);
      } else {
        child := slots[key].child;
      }
    }

    /** Writes the text at the path, creating objects where a string or nothing is met. */
    method SetPathValue(path: seq<string>, text: string)
      requires Valid() && path != []
      modifies Repr
      ensures Valid() && fresh(Repr - old(Repr))
      ensures Model == SetPath(old(Model), path, text)
      decreases |path|, 1
    {
      var key := path[0];
      SetPathSteps(Model, path, text);
      hide SetPath, Put, Get, Keys, KeyList, ChildOf;
      if |path| == 1 {
        PutText(key, text);
        return;
      }
      var child := Below(key);
      WriteBelow(key, child, path[1..], text);
    }

    /** The rest of the walk, below the object under `key`. */
    method WriteBelow(key: string, child: Node, path: seq<string>, text: string)
      requires Valid() && path != [] && key in slots && slots[key] == Nested(child)
      modifies Repr
      ensures Valid() && fresh(Repr - old(Repr))
      ensures Model == Put(old(Model), key, Sub(SetPath(old(child.Model), path, text)))
      decreases |path|, 2
    {
      hide SetPath, Put, Get, Keys, KeyList;
      ghost var around := Repr;
      child.SetPathValue(path, text);
      assert ValidExcept(key) && this !in child.Repr && Repr == around;
      assert forall k :: k in slots && k != key && slots[k].Nested? ==> slots[k].child.Repr !! child.Repr;
      Adopt(key, child);
    }
  }

  function ChildOf(m: Catalogue, key: string): Catalogue {
    var next := Get(m, key);
    if next.Some? && next.value.Sub? then next.value.entries else Nil
  }

  lemma SetPathSteps(m: Catalogue, path: seq<string>, text: string)
    requires path != []
    ensures |path| == 1 ==> SetPath(m, path, text) == Put(m, path[0], Str(text))
    ensures |path| > 1 ==>
      SetPath(m, path, text) == Put(m, path[0], Sub(SetPath(ChildOf(m, path[0]), path[1..], text)))
  {
  }

  lemma PutKnown(m: Catalogue, key: string, v: Value)
    requires key in Keys(m)
    ensures Keys(Put(m, key, v)) == Keys(m) && KeyList(Put(m, key, v)) == KeyList(m)
    ensures Get(Put(m, key, v), key) == Some(v)
    ensures forall k :: k != key ==> Get(Put(m, key, v), k) == Get(m, k)
  {
    PutFacts(m, key, v);
  }

  lemma PutFacts(m: Catalogue, key: string, v: Value)
    ensures Keys(Put(m, key, v)) == Keys(m) + {key}
    ensures KeyList(Put(m, key, v)) == if key in Keys(m) then KeyList(m) else KeyList(m) + [key]
    ensures Get(Put(m, key, v), key) == Some(v)
    ensures forall k :: k != key ==> Get(Put(m, key, v), k) == Get(m, k)
    ensures forall w :: Put(Put(m, key, w), key, v) == Put(m, key, v)
    ensures Get(m, key).Some? <==> key in Keys(m)
  {
    GetKeys(m, key);
  }

  method SetNestedValue(root: Node, dottedKey: string, value: string)
    requires root.Valid()
    modifies root.Repr
    ensures root.Valid() && fresh(root.Repr - old(root.Repr))
    ensures root.Model == SetNested(old(root.Model), dottedKey, value)
  {
    var parts := Split(dottedKey, '.');
    root.SetPathValue(parts, value);
  }

  /** The loop that rebuilds a locale: the objects end up holding the source catalogue with
      the new strings, in the same order and without empty subtrees. */
  method RebuildObjects(source: Catalogue, vals: map<string, string>) returns (root: Node)
    requires WellFormed(source) && forall k :: k in Flatten(source).keys ==> k in vals
    ensures root.Valid() && fresh(root.Repr)
    ensures root.Model == Pruned(Relabel(source, [], vals))
  {
    var keys := Flatten(source).keys;
    RebuildGivesPruned(source, vals);
    root := new Node();
    hide SetNested, Flatten;
    for i := 0 to |keys|
      invariant root.Valid() && fresh(root.Repr)
      invariant Rebuild(keys, vals, Nil) == Rebuild(keys[i..], vals, root.Model)
    {
      assert keys[i..][0] == keys[i] && keys[i..][1..] == keys[i + 1..];
      SetNestedValue(root, keys[i], vals[keys[i]]);
    }
  }
}
