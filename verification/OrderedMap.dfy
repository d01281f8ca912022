/** A map that remembers insertion order: setting a known key keeps its place. */
module OrderedMap {
  import opened Sorting

  datatype OMap<V> = OMap(keys: seq<string>, vals: map<string, V>) {

    ghost predicate Valid() {
      && Distinct(keys)
      && (forall k :: k in keys <==> k in vals)
    }

    function Set(k: string, v: V): (r: OMap<V>)
      ensures Valid() ==> r.Valid()
      ensures r.vals == vals[k := v]
    {
      OMap(if k in vals then keys else keys + [k], vals[k := v])
    }
  }

  const EMPTY_TEXT: OMap<string> := OMap([], map[])
}
