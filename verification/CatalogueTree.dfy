/** Locale catalogues: nested objects of strings, flattened to dotted keys and rebuilt.
    scripts/control-ui-i18n.ts, flattenTranslations and setNestedValue. */
module CatalogueTree {
  import opened Text
  import opened Sorting
  import opened OrderedMap

  /** An object whose properties are listed in insertion order. */
  datatype Catalogue = Nil | Cons(key: string, value: Value, rest: Catalogue)
  datatype Value = Str(text: string) | Sub(entries: Catalogue)

  function Keys(m: Catalogue): set<string> {
    match m
    case Nil => {}
    case Cons(k, _, rest) => {k} + Keys(rest)
  }

  /** Property names are unique, non-empty and free of dots at every depth. */
  predicate WellFormed(m: Catalogue) {
    match m
    case Nil => true
    case Cons(k, v, rest) =>
      && k != "" && '.' !in k
      && k !in Keys(rest)
      && (v.Sub? ==> WellFormed(v.entries))
      && WellFormed(rest)
  }

  function Get(m: Catalogue, key: string): Option<Value> {
    match m
    case Nil => None
    case Cons(k, v, rest) => if k == key then Some(v) else Get(rest, key)
  }

  function Put(m: Catalogue, key: string, v: Value): Catalogue {
    match m
    case Nil => Cons(key, v, Nil)
    case Cons(k, v0, rest) => if k == key then Cons(k, v, rest) else Cons(k, v0, Put(rest, key, v))
  }

  function Append(a: Catalogue, b: Catalogue): Catalogue {
    match a
    case Nil => b
    case Cons(k, v, rest) => Cons(k, v, Append(rest, b))
  }

  // ---------- flattening ----------

  function FullKey(prefix: string, key: string): string {
    if prefix != "" then prefix + "." + key else key
  }

  /** The recursion of flattenTranslations, with its accumulator map. */
  function FlattenInto(m: Catalogue, prefix: string, out: OMap<string>): OMap<string> {
    match m
    case Nil => out
    case Cons(k, Str(text), rest) => FlattenInto(rest, prefix, out.Set(FullKey(prefix, k), text))
    case Cons(k, Sub(entries), rest) =>
      FlattenInto(rest, prefix, FlattenInto(entries, FullKey(prefix, k), out))
  }

  function Flatten(m: Catalogue): OMap<string> {
    FlattenInto(m, "", EMPTY_TEXT)
  }

  // ---------- rebuilding ----------

  /** One call of setNestedValue, with the dotted key already split. */
  function SetPath(m: Catalogue, path: seq<string>, text: string): Catalogue
    requires path != []
    decreases |path|
  {
    if |path| == 1 then Put(m, path[0], Str(text))
    else
      var next := Get(m, path[0]);
      var child := if next.Some? && next.value.Sub? then next.value.entries else Nil;
      Put(m, path[0], Sub(SetPath(child, path[1..], text)))
  }

  function SetNested(m: Catalogue, dottedKey: string, text: string): Catalogue {
    SetPath(m, Split(dottedKey, '.'), text)
  }

  /** The loop that rebuilds a locale: every key in order, each with its value. */
  function Rebuild(keys: seq<string>, vals: map<string, string>, root: Catalogue): Catalogue
    requires forall k :: k in keys ==> k in vals
  {
    if keys == [] then root
    else Rebuild(keys[1..], vals, SetNested(root, keys[0], vals[keys[0]]))
  }

  /** Setting `path` meets only objects on the way down and an unused last name. */
  predicate Fresh(m: Catalogue, path: seq<string>)
    requires path != []
    decreases |path|
  {
    var next := Get(m, path[0]);
    if |path| == 1 then next.None?
    else next.None? || (next.value.Sub? && Fresh(next.value.entries, path[1..]))
  }

  /** No step of the rebuild overwrites a string or an object. */
  predicate RebuildIsFresh(keys: seq<string>, vals: map<string, string>, root: Catalogue)
    requires forall k :: k in keys ==> k in vals
  {
    keys == [] ||
    (Fresh(root, Split(keys[0], '.'))
     && RebuildIsFresh(keys[1..], vals, SetNested(root, keys[0], vals[keys[0]])))
  }

  // ---------- the reference: the strings of a catalogue with their paths ----------

  type Leaf = (seq<string>, string)

  function Join(path: seq<string>): string
    requires path != []
  {
    if |path| == 1 then path[0] else Join(path[..|path| - 1]) + "." + path[|path| - 1]
  }

  /** The tree without its empty subtrees. */
  function Pruned(m: Catalogue): Catalogue {
    match m
    case Nil => Nil
    case Cons(k, Str(text), rest) => Cons(k, Str(text), Pruned(rest))
    case Cons(k, Sub(entries), rest) =>
      var inner := Pruned(entries);
      if inner.Nil? then Pruned(rest) else Cons(k, Sub(inner), Pruned(rest))
  }

  /** The same tree with every string replaced by what `vals` holds for its dotted key. */
  function Relabel(m: Catalogue, prefix: seq<string>, vals: map<string, string>): Catalogue {
    match m
    case Nil => Nil
    case Cons(k, Str(text), rest) =>
      var full := Join(prefix + [k]);
      Cons(k, Str(if full in vals then vals[full] else text), Relabel(rest, prefix, vals))
    case Cons(k, Sub(entries), rest) =>
      Cons(k, Sub(Relabel(entries, prefix + [k], vals)), Relabel(rest, prefix, vals))
  }

  function Prefixed(k: string, leaves: seq<Leaf>): seq<Leaf> {
    seq(|leaves|, i requires 0 <= i < |leaves| => ([k] + leaves[i].0, leaves[i].1))
  }

  function Leaves(m: Catalogue): seq<Leaf> {
    match m
    case Nil => []
    case Cons(k, Str(text), rest) => [([k], text)] + Leaves(rest)
    case Cons(k, Sub(entries), rest) => Prefixed(k, Leaves(entries)) + Leaves(rest)
  }

  /** The leaves under dotted names, below `prefix`. */
  function Dotted(prefix: seq<string>, leaves: seq<Leaf>): seq<(string, string)>
    requires forall i :: 0 <= i < |leaves| ==> leaves[i].0 != []
  {
    seq(|leaves|, i requires 0 <= i < |leaves| => (Join(prefix + leaves[i].0), leaves[i].1))
  }

  function SetAll(out: OMap<string>, items: seq<(string, string)>): OMap<string>
    decreases |items|
  {
    if items == [] then out else SetAll(out.Set(items[0].0, items[0].1), items[1..])
  }

  function Build(leaves: seq<Leaf>, root: Catalogue): Catalogue
    requires forall i :: 0 <= i < |leaves| ==> leaves[i].0 != []
    decreases |leaves|
  {
    if leaves == [] then root
    else Build(leaves[1..], SetPath(root, leaves[0].0, leaves[0].1))
  }

  // ---------- dotted keys ----------

  predicate DotFree(path: seq<string>) {
    path != [] && forall i :: 0 <= i < |path| ==> path[i] != "" && '.' !in path[i]
  }

  lemma {:induction false} JoinSplit(path: seq<string>)
    requires DotFree(path)
    ensures Split(Join(path), '.') == path
    ensures Join(path) != ""
  {
    var n := |path|;
    SplitFree(path[n - 1], '.');
    if n > 1 {
      var init := path[..n - 1];
      JoinSplit(init);
      SplitAt(Join(init), '.', path[n - 1]);
      assert init + [path[n - 1]] == path;
    }
  }

  ghost predicate LeavesOk(leaves: seq<Leaf>) {
    && (forall i :: 0 <= i < |leaves| ==> DotFree(leaves[i].0))
    && (forall i, j :: 0 <= i < j < |leaves| ==> leaves[i].0 != leaves[j].0)
  }

  lemma {:induction false} LeavesAreOk(m: Catalogue)
    requires WellFormed(m)
    ensures LeavesOk(Leaves(m))
    ensures forall i :: 0 <= i < |Leaves(m)| ==> Leaves(m)[i].0[0] in Keys(m)
  {
    if m.Cons? {
      LeavesAreOk(m.rest);
      if m.value.Sub? {
        var inner := Leaves(m.value.entries);
        LeavesAreOk(m.value.entries);
        var first := Prefixed(m.key, inner);
        forall i, j | 0 <= i < j < |first| ensures first[i].0 != first[j].0 {
          assert first[i].0[1..] == inner[i].0 && first[j].0[1..] == inner[j].0;
        }
        assert forall i :: 0 <= i < |first| ==> first[i].0[0] == m.key && DotFree(first[i].0);
      }
    }
  }

  lemma SetAllAppend(out: OMap<string>, a: seq<(string, string)>, b: seq<(string, string)>)
    ensures SetAll(out, a + b) == SetAll(SetAll(out, a), b)
    decreases |a|
  {
    if a == [] {
      assert a + b == b;
    } else {
      assert (a + b)[1..] == a[1..] + b;
      SetAllAppend(out.Set(a[0].0, a[0].1), a[1..], b);
    }
  }

  function Dot(prefix: seq<string>): string {
    if prefix == [] then "" else Join(prefix)
  }

  lemma FullKeyJoins(prefix: seq<string>, k: string)
    requires prefix == [] || DotFree(prefix)
    ensures FullKey(Dot(prefix), k) == Join(prefix + [k])
  {
    if prefix != [] {
      JoinSplit(prefix);
      assert (prefix + [k])[..|prefix|] == prefix;
    }
  }

  lemma DottedAppend(prefix: seq<string>, a: seq<Leaf>, b: seq<Leaf>)
    requires forall i :: 0 <= i < |a| ==> a[i].0 != []
    requires forall i :: 0 <= i < |b| ==> b[i].0 != []
    ensures forall i :: 0 <= i < |a + b| ==> (a + b)[i].0 != []
    ensures Dotted(prefix, a + b) == Dotted(prefix, a) + Dotted(prefix, b)
  {
  }

  lemma DottedPrefixed(prefix: seq<string>, k: string, leaves: seq<Leaf>)
    requires forall i :: 0 <= i < |leaves| ==> leaves[i].0 != []
    ensures forall i :: 0 <= i < |leaves| ==> Prefixed(k, leaves)[i].0 != []
    ensures Dotted(prefix, Prefixed(k, leaves)) == Dotted(prefix + [k], leaves)
  {
    forall i | 0 <= i < |leaves| ensures prefix + ([k] + leaves[i].0) == (prefix + [k]) + leaves[i].0 {
    }
  }

  /** The accumulator recursion sets exactly the dotted leaves, in order. */
  lemma {:induction false} FlattenSetsLeaves(m: Catalogue, prefix: seq<string>, out: OMap<string>)
    requires WellFormed(m) && (prefix == [] || DotFree(prefix))
    ensures LeavesOk(Leaves(m))
    ensures FlattenInto(m, Dot(prefix), out) == SetAll(out, Dotted(prefix, Leaves(m)))
    decreases m
  {
    LeavesAreOk(m);
    match m
    case Nil =>
    case Cons(k, v, rest) =>
      LeavesAreOk(rest);
      FullKeyJoins(prefix, k);
      match v {
        case Str(text) => FlattenString(k, text, rest, prefix, out);
        case Sub(entries) =>
          LeavesAreOk(entries);
          FlattenSetsLeaves(entries, prefix + [k], out);
          FlattenSetsLeaves(rest, prefix, SetAll(out, Dotted(prefix + [k], Leaves(entries))));
          DottedPrefixed(prefix, k, Leaves(entries));
          DottedAppend(prefix, Prefixed(k, Leaves(entries)), Leaves(rest));
          SetAllAppend(out, Dotted(prefix + [k], Leaves(entries)), Dotted(prefix, Leaves(rest)));
      }
  }

  lemma {:induction false} FlattenString(
      k: string, text: string, rest: Catalogue, prefix: seq<string>, out: OMap<string>)
    requires WellFormed(Cons(k, Str(text), rest)) && (prefix == [] || DotFree(prefix))
    requires LeavesOk(Leaves(rest))
    ensures LeavesOk(Leaves(Cons(k, Str(text), rest)))
    ensures FlattenInto(Cons(k, Str(text), rest), Dot(prefix), out)
         == SetAll(out, Dotted(prefix, Leaves(Cons(k, Str(text), rest))))
    decreases Cons(k, Str(text), rest), 0
  {
    var m := Cons(k, Str(text), rest);
    var here: seq<Leaf> := [([k], text)];
    var full := Join(prefix + [k]);
    LeavesAreOk(m);
    FullKeyJoins(prefix, k);
    FlattenSetsLeaves(rest, prefix, out.Set(full, text));
    DottedAppend(prefix, here, Leaves(rest));
    assert Dotted(prefix, here) == [(full, text)];
    SetAllAppend(out, [(full, text)], Dotted(prefix, Leaves(rest)));
    assert SetAll(out, [(full, text)]) == out.Set(full, text);
  }

  function Names(items: seq<(string, string)>): (r: seq<string>)
    ensures |r| == |items|
  {
    seq(|items|, i requires 0 <= i < |items| => items[i].0)
  }

  lemma {:induction false} SetAllKeeps(out: OMap<string>, items: seq<(string, string)>, k: string)
    requires k in out.vals && k !in Names(items)
    ensures k in SetAll(out, items).vals && SetAll(out, items).vals[k] == out.vals[k]
    decreases |items|
  {
    if items != [] {
      assert Names(items)[0] == items[0].0;
      assert Names(items)[1..] == Names(items[1..]);
      SetAllKeeps(out.Set(items[0].0, items[0].1), items[1..], k);
    }
  }

  lemma {:induction false} SetAllKeys(out: OMap<string>, items: seq<(string, string)>)
    requires out.Valid() && Distinct(out.keys + Names(items))
    ensures SetAll(out, items).Valid()
    ensures SetAll(out, items).keys == out.keys + Names(items)
    decreases |items|
  {
    if items != [] {
      var k := items[0].0;
      var all := out.keys + Names(items);
      assert Names(items) == [k] + Names(items[1..]);
      assert all[|out.keys|] == k;
      assert k !in out.keys by {
        forall i | 0 <= i < |out.keys| ensures out.keys[i] != k {
          assert all[i] == out.keys[i];
        }
      }
      assert (out.keys + [k]) + Names(items[1..]) == all;
      SetAllKeys(out.Set(k, items[0].1), items[1..]);
    }
  }

  lemma {:induction false} SetAllVals(out: OMap<string>, items: seq<(string, string)>, i: nat)
    requires Distinct(Names(items)) && i < |items|
    ensures items[i].0 in SetAll(out, items).vals && SetAll(out, items).vals[items[i].0] == items[i].1
    decreases |items|
  {
    var next := out.Set(items[0].0, items[0].1);
    assert Names(items)[1..] == Names(items[1..]);
    if i == 0 {
      assert Names(items)[0] == items[0].0;
      SetAllKeeps(next, items[1..], items[0].0);
    } else {
      SetAllVals(next, items[1..], i - 1);
    }
  }

  /** The dotted names of a list of leaves. */
  function DottedKeys(leaves: seq<Leaf>): (r: seq<string>)
    requires forall i :: 0 <= i < |leaves| ==> leaves[i].0 != []
    ensures |r| == |leaves|
  {
    seq(|leaves|, i requires 0 <= i < |leaves| => Join(leaves[i].0))
  }

  lemma DottedKeysDistinct(leaves: seq<Leaf>)
    requires LeavesOk(leaves)
    ensures Distinct(DottedKeys(leaves))
    ensures Names(Dotted([], leaves)) == DottedKeys(leaves)
  {
    forall i | 0 <= i < |leaves| ensures Split(DottedKeys(leaves)[i], '.') == leaves[i].0 {
      JoinSplit(leaves[i].0);
    }
    forall i | 0 <= i < |leaves| ensures [] + leaves[i].0 == leaves[i].0 {
    }
  }

  /** Flattening lists each string once, under the dotted form of its path, in order. */
  lemma FlattenIsLeaves(m: Catalogue)
    requires WellFormed(m)
    ensures LeavesOk(Leaves(m))
    ensures Flatten(m).Valid()
    ensures Flatten(m).keys == DottedKeys(Leaves(m))
    ensures forall i :: 0 <= i < |Leaves(m)| ==>
      Flatten(m).keys[i] in Flatten(m).vals && Flatten(m).vals[Flatten(m).keys[i]] == Leaves(m)[i].1
  {
    var leaves := Leaves(m);
    LeavesAreOk(m);
    FlattenSetsLeaves(m, [], EMPTY_TEXT);
    DottedKeysDistinct(leaves);
    var items := Dotted([], leaves);
    assert EMPTY_TEXT.keys + Names(items) == Names(items);
    SetAllKeys(EMPTY_TEXT, items);
    forall i | 0 <= i < |leaves|
      ensures DottedKeys(leaves)[i] in Flatten(m).vals
      ensures Flatten(m).vals[DottedKeys(leaves)[i]] == leaves[i].1 {
      SetAllVals(EMPTY_TEXT, items, i);
      assert items[i].0 == Names(items)[i];
    }
  }

  // ---------- rebuilding ----------

  lemma GetKeys(m: Catalogue, k: string)
    ensures Get(m, k).Some? <==> k in Keys(m)
  {
  }

  lemma PutAbsent(m: Catalogue, k: string, v: Value)
    requires k !in Keys(m)
    ensures Put(m, k, v) == Append(m, Cons(k, v, Nil))
    ensures Keys(Put(m, k, v)) == Keys(m) + {k}
    ensures Get(Put(m, k, v), k) == Some(v)
  {
  }

  lemma PutPut(m: Catalogue, k: string, v: Value, w: Value)
    ensures Put(Put(m, k, v), k, w) == Put(m, k, w)
    ensures Get(Put(m, k, v), k) == Some(v)
  {
  }

  lemma AppendAssoc(a: Catalogue, b: Catalogue, c: Catalogue)
    ensures Append(Append(a, b), c) == Append(a, Append(b, c))
    ensures Append(a, Nil) == a
  {
  }

  ghost predicate Paths(leaves: seq<Leaf>) {
    forall i :: 0 <= i < |leaves| ==> leaves[i].0 != []
  }

  lemma {:induction false} BuildAppend(a: seq<Leaf>, b: seq<Leaf>, root: Catalogue)
    requires Paths(a) && Paths(b)
    ensures Paths(a + b) && Build(a + b, root) == Build(b, Build(a, root))
    decreases |a|
  {
    if a == [] {
      assert a + b == b;
    } else {
      assert (a + b)[1..] == a[1..] + b;
      BuildAppend(a[1..], b, SetPath(root, a[0].0, a[0].1));
    }
  }

  /** Leaves that share their first name are built inside that name's object. */
  lemma {:induction false} BuildPrefixed(k: string, leaves: seq<Leaf>, root: Catalogue, inner: Catalogue)
    requires Paths(leaves) && leaves != []
    requires Get(root, k) == Some(Sub(inner)) || (Get(root, k).None? && inner.Nil?)
    ensures Paths(Prefixed(k, leaves))
    ensures Build(Prefixed(k, leaves), root) == Put(root, k, Sub(Build(leaves, inner)))
    decreases |leaves|
  {
    var head, tail := leaves[0], leaves[1..];
    var deeper := SetPath(inner, head.0, head.1);
    assert Prefixed(k, leaves)[0] == ([k] + head.0, head.1);
    assert ([k] + head.0)[1..] == head.0;
    var root' := SetPath(root, [k] + head.0, head.1);
    assert root' == Put(root, k, Sub(deeper));
    assert Prefixed(k, leaves)[1..] == Prefixed(k, tail);
    PutPut(root, k, Sub(deeper), Sub(Build(tail, deeper)));
    if tail != [] {
      BuildPrefixed(k, tail, root', deeper);
    }
  }

  lemma LeavesEmptyIffPruned(m: Catalogue)
    ensures Leaves(m) == [] <==> Pruned(m).Nil?
  {
  }

  lemma BuildThenRest(k: string, built: Value, here: seq<Leaf>, rest: Catalogue, root: Catalogue)
    requires Paths(here) && Paths(Leaves(rest))
    requires k !in Keys(root)
    requires Build(here, root) == Put(root, k, built)
    requires Build(Leaves(rest), Put(root, k, built)) == Append(Put(root, k, built), Pruned(rest))
    ensures Paths(here + Leaves(rest))
    ensures Build(here + Leaves(rest), root) == Append(root, Cons(k, built, Pruned(rest)))
  {
    PutAbsent(root, k, built);
    BuildAppend(here, Leaves(rest), root);
    AppendAssoc(root, Cons(k, built, Nil), Pruned(rest));
  }

  /** Building the leaves of `m` after a tree with other names appends `m` without its empty subtrees. */
  lemma {:induction false} BuildLeaves(m: Catalogue, root: Catalogue)
    requires WellFormed(m) && Keys(m) !! Keys(root)
    ensures Paths(Leaves(m))
    ensures Build(Leaves(m), root) == Append(root, Pruned(m))
    decreases m
  {
    match m
    case Nil => AppendAssoc(root, Nil, Nil);
    case Cons(k, Str(text), rest) =>
      PutAbsent(root, k, Str(text));
      BuildLeaves(rest, Put(root, k, Str(text)));
      BuildThenRest(k, Str(text), [([k], text)], rest, root);
    case Cons(k, Sub(entries), rest) =>
      LeavesEmptyIffPruned(entries);
      if Leaves(entries) == [] {
        assert Leaves(m) == Leaves(rest);
        BuildLeaves(rest, root);
      } else {
        var built := Sub(Pruned(entries));
        GetKeys(root, k);
        BuildLeaves(entries, Nil);
        BuildPrefixed(k, Leaves(entries), root, Nil);
        PutAbsent(root, k, built);
        BuildLeaves(rest, Put(root, k, built));
        BuildThenRest(k, built, Prefixed(k, Leaves(entries)), rest, root);
      }
  }

  /** `leaves` with the strings that `vals` holds for their dotted names. */
  function Relabelled(leaves: seq<Leaf>, vals: map<string, string>): (r: seq<Leaf>)
    requires forall i :: 0 <= i < |leaves| ==> leaves[i].0 != []
    requires forall k :: k in DottedKeys(leaves) ==> k in vals
    ensures |r| == |leaves| && forall i :: 0 <= i < |r| ==> r[i].0 == leaves[i].0
  {
    seq(|leaves|, i requires 0 <= i < |leaves| =>
      assert DottedKeys(leaves)[i] in DottedKeys(leaves); (leaves[i].0, vals[DottedKeys(leaves)[i]]))
  }

  lemma {:induction false} RebuildIsBuild(leaves: seq<Leaf>, vals: map<string, string>, root: Catalogue)
    requires Paths(leaves)
    requires forall i :: 0 <= i < |leaves| ==> DotFree(leaves[i].0)
    requires forall k :: k in DottedKeys(leaves) ==> k in vals
    ensures Rebuild(DottedKeys(leaves), vals, root) == Build(Relabelled(leaves, vals), root)
    decreases |leaves|
  {
    if leaves != [] {
      JoinSplit(leaves[0].0);
      assert DottedKeys(leaves)[1..] == DottedKeys(leaves[1..]);
      var root' := SetNested(root, DottedKeys(leaves)[0], vals[DottedKeys(leaves)[0]]);
      assert Relabelled(leaves, vals)[1..] == Relabelled(leaves[1..], vals);
      RebuildIsBuild(leaves[1..], vals, root');
    }
  }

  // ---------- nothing is overwritten ----------

  ghost predicate FreshBuild(leaves: seq<Leaf>, root: Catalogue)
    requires Paths(leaves)
    decreases |leaves|
  {
    leaves == [] ||
    (Fresh(root, leaves[0].0) && FreshBuild(leaves[1..], SetPath(root, leaves[0].0, leaves[0].1)))
  }

  lemma {:induction false} FreshAppend(a: seq<Leaf>, b: seq<Leaf>, root: Catalogue)
    requires Paths(a) && Paths(b)
    requires FreshBuild(a, root) && FreshBuild(b, Build(a, root))
    ensures Paths(a + b) && FreshBuild(a + b, root)
    decreases |a|
  {
    if a == [] {
      assert a + b == b;
    } else {
      assert (a + b)[1..] == a[1..] + b;
      FreshAppend(a[1..], b, SetPath(root, a[0].0, a[0].1));
    }
  }

  lemma {:induction false} FreshPrefixed(k: string, leaves: seq<Leaf>, root: Catalogue, inner: Catalogue)
    requires Paths(leaves) && FreshBuild(leaves, inner)
    requires Get(root, k) == Some(Sub(inner)) || (Get(root, k).None? && inner.Nil?)
    ensures Paths(Prefixed(k, leaves))
    ensures FreshBuild(Prefixed(k, leaves), root)
    decreases |leaves|
  {
    if leaves != [] {
      var head, tail := leaves[0], leaves[1..];
      var deeper := SetPath(inner, head.0, head.1);
      assert Prefixed(k, leaves)[0] == ([k] + head.0, head.1);
      assert ([k] + head.0)[1..] == head.0;
      assert Prefixed(k, leaves)[1..] == Prefixed(k, tail);
      var root' := SetPath(root, [k] + head.0, head.1);
      assert root' == Put(root, k, Sub(deeper));
      PutPut(root, k, Sub(deeper), Sub(deeper));
      FreshPrefixed(k, tail, root', deeper);
    }
  }

  lemma {:induction false} FreshLeaves(m: Catalogue, root: Catalogue)
    requires WellFormed(m) && Keys(m) !! Keys(root)
    ensures Paths(Leaves(m)) && FreshBuild(Leaves(m), root)
    decreases m
  {
    match m
    case Nil =>
    case Cons(k, Str(text), rest) =>
      GetKeys(root, k);
      PutAbsent(root, k, Str(text));
      FreshLeaves(rest, Put(root, k, Str(text)));
      FreshAppend([([k], text)], Leaves(rest), root);
    case Cons(k, Sub(entries), rest) =>
      var here := Prefixed(k, Leaves(entries));
      GetKeys(root, k);
      FreshLeaves(entries, Nil);
      FreshPrefixed(k, Leaves(entries), root, Nil);
      if Leaves(entries) == [] {
        assert here == [];
        FreshLeaves(rest, root);
      } else {
        BuildPrefixed(k, Leaves(entries), root, Nil);
        PutAbsent(root, k, Sub(Build(Leaves(entries), Nil)));
        FreshLeaves(rest, Build(here, root));
      }
      FreshAppend(here, Leaves(rest), root);
  }

  lemma {:induction false} RebuildFreshIsBuildFresh(leaves: seq<Leaf>, vals: map<string, string>, root: Catalogue)
    requires Paths(leaves)
    requires forall i :: 0 <= i < |leaves| ==> DotFree(leaves[i].0)
    requires forall k :: k in DottedKeys(leaves) ==> k in vals
    requires FreshBuild(Relabelled(leaves, vals), root)
    ensures RebuildIsFresh(DottedKeys(leaves), vals, root)
    decreases |leaves|
  {
    if leaves != [] {
      JoinSplit(leaves[0].0);
      assert DottedKeys(leaves)[1..] == DottedKeys(leaves[1..]);
      assert Relabelled(leaves, vals)[1..] == Relabelled(leaves[1..], vals);
      RebuildFreshIsBuildFresh(leaves[1..], vals, SetPath(root, leaves[0].0, vals[DottedKeys(leaves)[0]]));
    }
  }

  // ---------- main results ----------

  function NewText(path: seq<string>, text: string, vals: map<string, string>): string
    requires path != []
  {
    if Join(path) in vals then vals[Join(path)] else text
  }

  /** The leaves, below `prefix`, with the strings that `vals` holds for them. */
  function NewTexts(prefix: seq<string>, leaves: seq<Leaf>, vals: map<string, string>): (r: seq<Leaf>)
    requires forall i :: 0 <= i < |leaves| ==> leaves[i].0 != []
    ensures |r| == |leaves|
  {
    seq(|leaves|, i requires 0 <= i < |leaves| =>
      (leaves[i].0, NewText(prefix + leaves[i].0, leaves[i].1, vals)))
  }

  lemma NewTextsAppend(prefix: seq<string>, a: seq<Leaf>, b: seq<Leaf>, vals: map<string, string>)
    requires Paths(a) && Paths(b)
    ensures Paths(a + b)
    ensures NewTexts(prefix, a + b, vals) == NewTexts(prefix, a, vals) + NewTexts(prefix, b, vals)
  {
  }

  lemma NewTextsPrefixed(prefix: seq<string>, k: string, leaves: seq<Leaf>, vals: map<string, string>)
    requires Paths(leaves)
    ensures Paths(Prefixed(k, leaves))
    ensures NewTexts(prefix, Prefixed(k, leaves), vals) == Prefixed(k, NewTexts(prefix + [k], leaves, vals))
  {
    forall i | 0 <= i < |leaves| ensures prefix + ([k] + leaves[i].0) == (prefix + [k]) + leaves[i].0 {
    }
  }

  lemma {:induction false} RelabelLeaves(m: Catalogue, prefix: seq<string>, vals: map<string, string>)
    requires WellFormed(m)
    ensures WellFormed(Relabel(m, prefix, vals)) && Keys(Relabel(m, prefix, vals)) == Keys(m)
    ensures Paths(Leaves(m))
    ensures Leaves(Relabel(m, prefix, vals)) == NewTexts(prefix, Leaves(m), vals)
    decreases m
  {
    LeavesAreOk(m);
    match m
    case Nil =>
    case Cons(k, Str(text), rest) =>
      RelabelLeaves(rest, prefix, vals);
      var here: seq<Leaf> := [([k], text)];
      NewTextsAppend(prefix, here, Leaves(rest), vals);
      assert NewTexts(prefix, here, vals) == [([k], NewText(prefix + [k], text, vals))];
    case Cons(k, Sub(entries), rest) =>
      RelabelLeaves(rest, prefix, vals);
      RelabelLeaves(entries, prefix + [k], vals);
      NewTextsPrefixed(prefix, k, Leaves(entries), vals);
      NewTextsAppend(prefix, Prefixed(k, Leaves(entries)), Leaves(rest), vals);
  }

  lemma {:induction false} PrunedLeaves(m: Catalogue)
    requires WellFormed(m)
    ensures WellFormed(Pruned(m)) && Keys(Pruned(m)) <= Keys(m)
    ensures Leaves(Pruned(m)) == Leaves(m)
    ensures Pruned(Pruned(m)) == Pruned(m)
  {
    if m.Cons? {
      PrunedLeaves(m.rest);
      if m.value.Sub? {
        PrunedLeaves(m.value.entries);
        LeavesEmptyIffPruned(m.value.entries);
      }
    }
  }

  lemma RelabelledLeaves(m: Catalogue, vals: map<string, string>)
    requires WellFormed(m)
    requires forall k :: k in Flatten(m).keys ==> k in vals
    ensures LeavesOk(Leaves(m)) && Paths(Leaves(m)) && Flatten(m).keys == DottedKeys(Leaves(m))
    ensures WellFormed(Relabel(m, [], vals))
    ensures Leaves(Relabel(m, [], vals)) == Relabelled(Leaves(m), vals)
  {
    FlattenIsLeaves(m);
    RelabelLeaves(m, [], vals);
    var leaves := Leaves(m);
    forall i | 0 <= i < |leaves| ensures Leaves(Relabel(m, [], vals))[i] == Relabelled(leaves, vals)[i] {
      assert [] + leaves[i].0 == leaves[i].0;
      assert DottedKeys(leaves)[i] in DottedKeys(leaves);
    }
  }

  /** Rebuilding from the flattened keys gives the same tree, in the same order, with the
      new strings and without the empty subtrees; no step overwrites anything. */
  lemma RebuildGivesPruned(m: Catalogue, vals: map<string, string>)
    requires WellFormed(m)
    requires forall k :: k in Flatten(m).keys ==> k in vals
    ensures Rebuild(Flatten(m).keys, vals, Nil) == Pruned(Relabel(m, [], vals))
    ensures RebuildIsFresh(Flatten(m).keys, vals, Nil)
  {
    RelabelledLeaves(m, vals);
    var r := Relabel(m, [], vals);
    RebuildIsBuild(Leaves(m), vals, Nil);
    BuildLeaves(r, Nil);
    FreshLeaves(r, Nil);
    RebuildFreshIsBuildFresh(Leaves(m), vals, Nil);
  }

  lemma OwnStrings(leaves: seq<Leaf>, vals: map<string, string>)
    requires Paths(leaves)
    requires forall i :: 0 <= i < |leaves| ==>
      DottedKeys(leaves)[i] in vals && vals[DottedKeys(leaves)[i]] == leaves[i].1
    ensures forall k :: k in DottedKeys(leaves) ==> k in vals
    ensures Relabelled(leaves, vals) == leaves
  {
  }

  /** With its own strings, a catalogue is rebuilt as itself without the empty subtrees. */
  lemma RebuildRoundTrip(m: Catalogue)
    requires WellFormed(m)
    ensures Flatten(m).Valid()
    ensures Rebuild(Flatten(m).keys, Flatten(m).vals, Nil) == Pruned(m)
  {
    FlattenIsLeaves(m);
    BuildLeaves(m, Nil);
    hide Flatten, Leaves, Rebuild, WellFormed, Build;
    OwnStrings(Leaves(m), Flatten(m).vals);
    RebuildIsBuild(Leaves(m), Flatten(m).vals, Nil);
  }

  /** Flattening what was rebuilt gives the same keys, in order, with the new strings. */
  lemma FlattenAfterRebuild(m: Catalogue, vals: map<string, string>)
    requires WellFormed(m)
    requires forall k :: k in Flatten(m).keys ==> k in vals
    ensures var f := Flatten(Rebuild(Flatten(m).keys, vals, Nil));
      && f.Valid() && f.keys == Flatten(m).keys
      && forall k :: k in f.keys ==> f.vals[k] == vals[k]
  {
    RebuildGivesPruned(m, vals);
    RelabelledLeaves(m, vals);
    var r := Relabel(m, [], vals);
    PrunedLeaves(r);
    FlattenIsLeaves(Pruned(r));
    var leaves := Leaves(m);
    var f := Flatten(Pruned(r));
    assert DottedKeys(Leaves(r)) == DottedKeys(leaves);
    forall k | k in f.keys ensures f.vals[k] == vals[k] {
      var i :| 0 <= i < |f.keys| && f.keys[i] == k;
      assert Leaves(r)[i].1 == vals[DottedKeys(leaves)[i]];
    }
  }

  predicate NoEmptySubtrees(m: Catalogue) {
    match m
    case Nil => true
    case Cons(_, v, rest) => (v.Sub? ==> v.entries.Cons? && NoEmptySubtrees(v.entries)) && NoEmptySubtrees(rest)
  }

  /** Pruning removes the empty subtrees, all of them and nothing else. */
  lemma PruningMeaning(m: Catalogue)
    requires WellFormed(m)
    ensures NoEmptySubtrees(Pruned(m)) && Leaves(Pruned(m)) == Leaves(m)
    ensures NoEmptySubtrees(m) <==> Pruned(m) == m
  {
    PrunedLeaves(m);
    PrunedHasNone(m);
    PrunedIsSame(m);
  }

  lemma PrunedHasNone(m: Catalogue)
    ensures NoEmptySubtrees(Pruned(m))
  {
  }

  lemma PrunedIsSame(m: Catalogue)
    ensures NoEmptySubtrees(m) ==> Pruned(m) == m
  {
  }
}
