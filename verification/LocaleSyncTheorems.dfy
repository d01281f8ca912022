/** What a synchronisation run guarantees: it is a fixed point of itself, and with a
    provider it fills every key or writes nothing. */
module LocaleSyncTheorems {
  import opened Text
  import opened Words
  import opened Sorting
  import opened OrderedMap
  import opened CatalogueTree
  import opened TranslationBatches
  import opened BatchTranslator
  import opened LocaleSync

  // ---------- digests ----------

  /** No two source keys share a cache key, and no cache key is empty. */
  ghost predicate DigestsDistinct(cfg: Config, src: OMap<string>) {
    && (forall k :: k in src.vals ==> CacheKey(cfg, k, HashText(cfg, src.vals[k])) != "")
    && (forall a, b :: a in src.vals && b in src.vals && a != b ==>
          CacheKey(cfg, a, HashText(cfg, src.vals[a])) != CacheKey(cfg, b, HashText(cfg, src.vals[b])))
  }

  lemma LastBar(s: string, a: string, x: string)
    requires '|' !in x && s == a + "|" + x
    ensures s[|a|] == '|' && forall i :: |a| < i < |s| ==> s[i] != '|'
  {
    forall i | |a| < i < |s| ensures s[i] != '|' {
      assert s[i] == x[i - |a| - 1];
    }
  }

  lemma PreimageInjective(cfg: Config, a: string, ha: string, b: string, hb: string)
    requires '|' !in ha && '|' !in hb
    requires CachePreimage(cfg, a, ha) == CachePreimage(cfg, b, hb)
    ensures a == b && ha == hb
  {
    var head := cfg.namespace + "|" + SOURCE_LOCALE + "|" + cfg.locale + "|";
    var s := CachePreimage(cfg, a, ha);
    assert s == (head + a) + "|" + ha == (head + b) + "|" + hb;
    LastBar(s, head + a, ha);
    LastBar(s, head + b, hb);
    assert s[|head|..|head + a|] == a && s[|head|..|head + b|] == b;
    assert s[|head + a| + 1..] == ha && s[|head + b| + 1..] == hb;
  }

  /** A digest without collisions whose values are never empty and contain no bar keeps
      the cache keys of one locale apart, whatever bars the catalogue keys contain. */
  lemma CollisionFreeDigests(cfg: Config, src: OMap<string>)
    requires forall s, t :: cfg.sha(s) == cfg.sha(t) ==> s == t
    requires forall s :: cfg.sha(s) != "" && '|' !in cfg.sha(s)
    ensures DigestsDistinct(cfg, src)
  {
    forall a, b | a in src.vals && b in src.vals && a != b
      ensures CacheKey(cfg, a, HashText(cfg, src.vals[a])) != CacheKey(cfg, b, HashText(cfg, src.vals[b])) {
      var ha, hb := HashText(cfg, src.vals[a]), HashText(cfg, src.vals[b]);
      if CachePreimage(cfg, a, ha) == CachePreimage(cfg, b, hb) {
        PreimageInjective(cfg, a, ha, b, hb);
      }
    }
  }

  // ---------- the memory survives its file ----------

  ghost predicate TmOk(tm: OMap<Entry>) {
    && tm.Valid()
    && forall k :: k in tm.vals ==> tm.vals[k].cacheKey == k && k != "" && !Blank(tm.vals[k].translated)
  }

  lemma LoadTmOk(lines: seq<Entry>)
    ensures TmOk(LoadTm(lines))
  {
    hide Blank;
  }

  function LineKeys(lines: seq<Entry>): (r: seq<string>)
    ensures |r| == |lines|
  {
    seq(|lines|, i requires 0 <= i < |lines| => lines[i].cacheKey)
  }

  /** The entries are those of the lines, each under its own key. */
  ghost predicate Holds(lines: seq<Entry>, vals: map<string, Entry>) {
    && (forall k :: k in vals <==> k in LineKeys(lines))
    && (forall i :: 0 <= i < |lines| ==> lines[i].cacheKey in vals && vals[lines[i].cacheKey] == lines[i])
  }

  lemma HoldsOneMore(init: seq<Entry>, last: Entry, vals: map<string, Entry>)
    requires Holds(init, vals) && last.cacheKey !in LineKeys(init)
    ensures Holds(init + [last], vals[last.cacheKey := last])
  {
    assert LineKeys(init + [last]) == LineKeys(init) + [last.cacheKey];
    assert forall i :: 0 <= i < |init| ==> LineKeys(init)[i] in LineKeys(init);
  }

  lemma LoadOneMore(init: seq<Entry>, last: Entry)
    requires last.cacheKey != "" && !Blank(last.translated)
    ensures LoadTm(init + [last]).vals == LoadTm(init).vals[last.cacheKey := last]
  {
    assert (init + [last])[..|init|] == init;
    hide Blank;
  }

  lemma {:induction false} LoadDistinct(lines: seq<Entry>)
    requires forall i :: 0 <= i < |lines| ==> lines[i].cacheKey != "" && !Blank(lines[i].translated)
    requires Distinct(LineKeys(lines))
    ensures Holds(lines, LoadTm(lines).vals)
  {
    hide Blank;
    if lines != [] {
      var n := |lines| - 1;
      var init, last := lines[..n], lines[n];
      assert LineKeys(lines) == LineKeys(init) + [last.cacheKey] && lines == init + [last];
      hide LoadTm, LineKeys, Holds, Distinct;
      DistinctInit(LineKeys(init), last.cacheKey);
      LoadDistinct(init);
      LoadOneMore(init, last);
      HoldsOneMore(init, last, LoadTm(init).vals);
    }
  }

  /** Writing the memory and loading it back keeps every entry, although in sorted order;
      writing it again gives the same file. */
  lemma ReloadTm(cfg: Config, tm: OMap<Entry>)
    requires StrictTotalOrder(cfg.less) && TmOk(tm)
    ensures LoadTm(RenderTm(cfg, tm)).vals == tm.vals
    ensures RenderTm(cfg, LoadTm(RenderTm(cfg, tm))) == RenderTm(cfg, tm)
  {
    hide Blank, SortDistinct, LoadTm;
    var ordered := SortDistinct(tm.keys, cfg.less);
    var lines := RenderTm(cfg, tm);
    SortAscending(tm.keys, cfg.less);
    AscendingDistinct(ordered, cfg.less);
    assert LineKeys(lines) == ordered by {
      forall i | 0 <= i < |ordered| ensures LineKeys(lines)[i] == ordered[i] {
        assert ordered[i] in ordered;
      }
    }
    forall i | 0 <= i < |lines| ensures lines[i].cacheKey != "" && !Blank(lines[i].translated) {
      assert ordered[i] in ordered;
    }
    LoadDistinct(lines);
    var back := LoadTm(lines);
    forall k | k in tm.vals ensures back.vals[k] == tm.vals[k] {
      assert k in tm.keys;
      var i :| 0 <= i < |ordered| && ordered[i] == k;
      assert lines[i] == tm.vals[k];
    }
    assert back.vals == tm.vals;
    SortCanonical(back.keys, tm.keys, cfg.less);
  }

  // ---------- what holds of a draft while it is filled ----------

  ghost predicate InputsOk(inp: Inputs) {
    && inp.src.Valid()
    && (forall k :: k in inp.src.vals ==> inp.CacheKeyOf(k) != "")
    && (forall a, b :: a in inp.src.vals && b in inp.src.vals && a != b ==> inp.CacheKeyOf(a) != inp.CacheKeyOf(b))
    && (forall h :: h in inp.byText ==> inp.byText[h].textHash == h && Usable(inp.cfg, inp.byText[h]))
  }

  /** The memory never contradicts the text chosen for a key. */
  ghost predicate Agrees(inp: Inputs, d: Draft) {
    forall k :: k in inp.src.vals && k in d.values && inp.CacheKeyOf(k) in d.tm.vals ==>
      d.tm.vals[inp.CacheKeyOf(k)].translated == d.values[k]
  }

  /** Every key seen has a text or waits in `pending`. */
  ghost predicate Accounted(inp: Inputs, seen: seq<string>, d: Draft) {
    && (forall k :: k in seen ==> k in inp.src.vals)
    && (forall k :: k in d.values ==> k in seen)
    && (forall k :: k in d.fallback ==> k in seen)
    && (forall k :: k in seen && k !in d.values ==> inp.ItemOf(k) in d.pending)
    && (forall item :: item in d.pending ==> item.key in seen && item == inp.ItemOf(item.key))
  }

  /** Without a provider: what a fallback or pending key tells about the memory. */
  ghost predicate Offline(inp: Inputs, d: Draft) {
    && MemoryIndexed(inp, d)
    && MarksKnown(inp, d)
    && (forall item :: item in d.pending && item.key in inp.src.vals ==>
          && inp.CacheKeyOf(item.key) !in d.tm.vals
          && inp.Hash(item.key) !in inp.byText
          && item.key !in inp.existing)
  }

  ghost predicate MemoryIndexed(inp: Inputs, d: Draft) {
    forall k :: k in d.tm.vals && Usable(inp.cfg, d.tm.vals[k]) ==> d.tm.vals[k].textHash in inp.byText
  }

  ghost predicate MarksKnown(inp: Inputs, d: Draft) {
    forall k :: k in d.fallback && k in inp.src.vals ==>
      inp.CacheKeyOf(k) in d.tm.vals || inp.Hash(k) !in inp.byText
  }

  ghost predicate Sound(inp: Inputs, seen: seq<string>, d: Draft) {
    && TmOk(d.tm)
    && Agrees(inp, d)
    && Accounted(inp, seen, d)
    && (if inp.cfg.allowTranslate then d.fallback == [] else Offline(inp, d))
  }

  lemma StepTmOk(inp: Inputs, d: Draft, key: string)
    requires InputsOk(inp) && key in inp.src.vals && TmOk(d.tm)
    ensures TmOk(PlanStep(inp, d, key).tm)
  {
    hide Inputs.CacheKeyOf, Inputs.Hash, Inputs.ItemOf, Blank;
  }

  lemma StepAgrees(inp: Inputs, d: Draft, key: string)
    requires InputsOk(inp) && key in inp.src.vals && Agrees(inp, d)
    ensures Agrees(inp, PlanStep(inp, d, key))
  {
    hide Inputs.CacheKeyOf, Inputs.Hash, Inputs.ItemOf, Blank, Usable;
  }

  lemma StepAccounted(inp: Inputs, seen: seq<string>, d: Draft, key: string)
    requires InputsOk(inp) && key in inp.src.vals && Accounted(inp, seen, d)
    ensures Accounted(inp, seen + [key], PlanStep(inp, d, key))
  {
    hide Inputs.CacheKeyOf, Inputs.Hash, Blank, Usable;
  }

  lemma StepIndexed(inp: Inputs, d: Draft, key: string)
    requires InputsOk(inp) && key in inp.src.vals && MemoryIndexed(inp, d)
    ensures MemoryIndexed(inp, PlanStep(inp, d, key))
  {
    hide Inputs.CacheKeyOf, Inputs.Hash, Inputs.ItemOf, Blank;
  }

  lemma StepMarks(inp: Inputs, d: Draft, key: string)
    requires InputsOk(inp) && key in inp.src.vals && MarksKnown(inp, d) && !inp.cfg.allowTranslate
    ensures MarksKnown(inp, PlanStep(inp, d, key))
  {
    hide Inputs.CacheKeyOf, Inputs.Hash, Inputs.ItemOf, Usable;
  }

  lemma StepOffline(inp: Inputs, seen: seq<string>, d: Draft, key: string)
    requires InputsOk(inp) && key in inp.src.vals && key !in seen && !inp.cfg.allowTranslate
    requires Accounted(inp, seen, d) && Offline(inp, d)
    ensures Offline(inp, PlanStep(inp, d, key))
  {
    hide Inputs.CacheKeyOf, Inputs.Hash, Usable, MemoryIndexed, MarksKnown;
    StepIndexed(inp, d, key);
    StepMarks(inp, d, key);
  }

  /** With a provider no key is marked while planning: a marked key is never kept. */
  lemma StepUnmarked(inp: Inputs, d: Draft, key: string)
    requires key in inp.src.vals && inp.cfg.allowTranslate
    ensures PlanStep(inp, d, key).fallback == d.fallback
  {
    hide Inputs.CacheKeyOf, Inputs.Hash, Inputs.ItemOf, Copied;
  }

  lemma StepSound(inp: Inputs, seen: seq<string>, d: Draft, key: string)
    requires InputsOk(inp) && key in inp.src.vals && key !in seen && Sound(inp, seen, d)
    ensures Sound(inp, seen + [key], PlanStep(inp, d, key))
  {
    hide InputsOk, TmOk, Agrees, Accounted, Offline, PlanStep;
    StepTmOk(inp, d, key);
    StepAgrees(inp, d, key);
    StepAccounted(inp, seen, d, key);
    if inp.cfg.allowTranslate {
      StepUnmarked(inp, d, key);
    } else {
      StepOffline(inp, seen, d, key);
    }
  }

  lemma {:induction false} PlanSound(inp: Inputs, seen: seq<string>, keys: seq<string>, d: Draft)
    requires InputsOk(inp) && Sound(inp, seen, d)
    requires forall k :: k in keys ==> k in inp.src.vals
    requires Distinct(keys) && forall k :: k in keys ==> k !in seen
    ensures Sound(inp, seen + keys, Plan(inp, keys, d))
    decreases |keys|
  {
    hide Sound, PlanStep, InputsOk;
    if keys == [] {
      assert seen + keys == seen;
    } else {
      assert keys == [keys[0]] + keys[1..];
      DistinctTail(keys[0], keys[1..]);
      assert InputsOk(inp) && keys[0] in inp.src.vals;
      StepSound(inp, seen, d, keys[0]);
      PlanSound(inp, seen + [keys[0]], keys[1..], PlanStep(inp, d, keys[0]));
      assert seen + [keys[0]] + keys[1..] == seen + keys;
    }
  }

  // ---------- translating keeps a draft sound ----------

  ghost predicate ItemsOf(inp: Inputs, items: seq<Item>) {
    forall item :: item in items ==> item.key in inp.src.vals && item == inp.ItemOf(item.key)
  }

  ghost predicate Translated(translated: map<string, string>, items: seq<Item>) {
    forall item :: item in items ==> item.key in translated && !Blank(translated[item.key])
  }

  /** What recording preserves and adds. */
  ghost predicate Extends(inp: Inputs, seen: seq<string>, d: Draft, r: Draft, items: seq<Item>) {
    && TmOk(r.tm) && Agrees(inp, r) && Accounted(inp, seen, r)
    && r.pending == d.pending && r.fallback == d.fallback
    && d.values.Keys <= r.values.Keys
    && forall item :: item in items ==> item.key in r.values
  }

  function Recorded(cfg: Config, d: Draft, item: Item, value: string): Draft {
    d.(values := d.values[item.key := value], tm := d.tm.Set(item.cacheKey, NewEntry(cfg, item, value)))
  }

  lemma RecordedTmOk(cfg: Config, d: Draft, item: Item, value: string)
    requires TmOk(d.tm) && item.cacheKey != "" && !Blank(value)
    ensures TmOk(Recorded(cfg, d, item, value).tm)
  {
    hide Blank;
  }

  lemma RecordedAgrees(inp: Inputs, d: Draft, key: string, value: string)
    requires InputsOk(inp) && key in inp.src.vals && Agrees(inp, d)
    ensures Agrees(inp, Recorded(inp.cfg, d, inp.ItemOf(key), value))
  {
    var item := inp.ItemOf(key);
    var r := Recorded(inp.cfg, d, item, value);
    assert item.cacheKey == inp.CacheKeyOf(key) && item.key == key;
    hide Inputs.CacheKeyOf, Inputs.Hash, Inputs.ItemOf, Blank, Usable;
    forall k | k in inp.src.vals && k in r.values && inp.CacheKeyOf(k) in r.tm.vals
      ensures r.tm.vals[inp.CacheKeyOf(k)].translated == r.values[k] {
      if k != key {
        assert inp.CacheKeyOf(k) != item.cacheKey;
      }
    }
  }

  lemma RecordedAccounted(inp: Inputs, seen: seq<string>, d: Draft, item: Item, value: string)
    requires Accounted(inp, seen, d) && item.key in seen
    ensures Accounted(inp, seen, Recorded(inp.cfg, d, item, value))
  {
    hide Inputs.ItemOf;
  }

  lemma RecordedShape(cfg: Config, d: Draft, item: Item, value: string)
    ensures var r := Recorded(cfg, d, item, value);
      && r.pending == d.pending && r.fallback == d.fallback
      && d.values.Keys <= r.values.Keys && item.key in r.values
  {
  }

  lemma RecordOne(inp: Inputs, seen: seq<string>, d: Draft, item: Item, value: string)
    requires InputsOk(inp) && TmOk(d.tm) && Agrees(inp, d) && Accounted(inp, seen, d)
    requires item.key in seen && item.key in inp.src.vals && item == inp.ItemOf(item.key) && !Blank(value)
    ensures Extends(inp, seen, d, Recorded(inp.cfg, d, item, value), [item])
  {
    ItemCacheKey(inp, item.key);
    RecordedShape(inp.cfg, d, item, value);
    hide TmOk, Agrees, Accounted, InputsOk, Blank, Inputs.ItemOf, Recorded;
    RecordedTmOk(inp.cfg, d, item, value);
    RecordedAgrees(inp, d, item.key, value);
    RecordedAccounted(inp, seen, d, item, value);
  }

  lemma ItemCacheKey(inp: Inputs, key: string)
    requires InputsOk(inp) && key in inp.src.vals
    ensures inp.ItemOf(key).cacheKey != "" && inp.ItemOf(key).key == key
  {
    assert inp.ItemOf(key).cacheKey == inp.CacheKeyOf(key);
  }

  lemma ExtendsTwice(inp: Inputs, seen: seq<string>, d: Draft, mid: Draft, r: Draft, a: seq<Item>, b: seq<Item>)
    requires Extends(inp, seen, d, mid, a) && Extends(inp, seen, mid, r, b)
    ensures Extends(inp, seen, d, r, a + b)
  {
    hide TmOk, Agrees, Accounted;
  }

  ghost predicate Ready(
      inp: Inputs, seen: seq<string>, translated: map<string, string>, items: seq<Item>, d: Draft) {
    && InputsOk(inp) && TmOk(d.tm) && Agrees(inp, d) && Accounted(inp, seen, d)
    && ItemsOf(inp, items) && Translated(translated, items)
    && forall item :: item in items ==> item.key in seen
  }

  lemma ReadyStep(
      inp: Inputs, seen: seq<string>, translated: map<string, string>, items: seq<Item>, d: Draft)
    requires items != [] && Ready(inp, seen, translated, items, d)
    ensures items[0].key in translated && !Blank(translated[items[0].key])
    ensures var next := Recorded(inp.cfg, d, items[0], translated[items[0].key]);
      Ready(inp, seen, translated, items[1..], next) && Extends(inp, seen, d, next, [items[0]])
  {
    hide InputsOk, TmOk, Agrees, Accounted, Blank, Inputs.ItemOf, Recorded;
    var item, rest := items[0], items[1..];
    assert item in items;
    RecordOne(inp, seen, d, item, translated[item.key]);
    assert forall it :: it in rest ==> it in items;
    assert ItemsOf(inp, rest) && Translated(translated, rest);
  }

  lemma ReadyDone(inp: Inputs, seen: seq<string>, translated: map<string, string>, d: Draft)
    requires Ready(inp, seen, translated, [], d)
    ensures Extends(inp, seen, d, d, [])
  {
    hide InputsOk, TmOk, Agrees, Accounted, Translated, ItemsOf;
  }

  lemma {:induction false} RecordSound(
      inp: Inputs, seen: seq<string>, translated: map<string, string>, items: seq<Item>, d: Draft)
    requires Ready(inp, seen, translated, items, d)
    ensures Extends(inp, seen, d, Record(inp.cfg, translated, items, d), items)
    decreases |items|
  {
    hide Ready, Extends, Blank, Recorded;
    if items == [] {
      ReadyDone(inp, seen, translated, d);
    } else {
      hide Record;
      ReadyStep(inp, seen, translated, items, d);
      RecordUnfold(inp.cfg, translated, items, d);
      var next := Recorded(inp.cfg, d, items[0], translated[items[0].key]);
      RecordSound(inp, seen, translated, items[1..], next);
      ExtendsTwice(inp, seen, d, next, Record(inp.cfg, translated, items[1..], next), [items[0]], items[1..]);
      assert [items[0]] + items[1..] == items;
    }
  }

  lemma RecordUnfold(cfg: Config, translated: map<string, string>, items: seq<Item>, d: Draft)
    requires items != [] && items[0].key in translated && !Blank(translated[items[0].key])
    ensures Record(cfg, translated, items, d)
         == Record(cfg, translated, items[1..], Recorded(cfg, d, items[0], translated[items[0].key]))
  {
    assert Blank("");
  }

  lemma CoversTranslated(translated: map<string, string>, items: seq<Item>)
    requires Covers(translated, items)
    ensures Translated(translated, items)
  {
    forall item | item in items ensures item.key in translated {
      var i :| 0 <= i < |items| && items[i] == item;
      assert item.key in ItemKeys(items);
    }
  }

  /** Items that belong to this run and that planning has seen. */
  ghost predicate SeenItems(inp: Inputs, seen: seq<string>, items: seq<Item>) {
    ItemsOf(inp, items) && forall item :: item in items ==> item.key in seen
  }

  lemma SeenSplit(inp: Inputs, seen: seq<string>, a: seq<Item>, b: seq<Item>)
    requires SeenItems(inp, seen, a + b)
    ensures SeenItems(inp, seen, a) && SeenItems(inp, seen, b)
  {
    hide Inputs.ItemOf;
    assert forall item :: item in a || item in b ==> item in a + b;
  }

  lemma BatchSound(inp: Inputs, seen: seq<string>, answers: nat -> Response, pos: nat, batch: seq<Item>, d: Draft)
    requires InputsOk(inp) && TmOk(d.tm) && Agrees(inp, d) && Accounted(inp, seen, d)
    requires SeenItems(inp, seen, batch) && Translate(answers, pos, batch, 0).0.Ok?
    ensures Extends(inp, seen, d, Record(inp.cfg, Translate(answers, pos, batch, 0).0.value, batch, d), batch)
  {
    hide InputsOk, TmOk, Agrees, Accounted, ItemsOf, Translate, Record, Translated, Extends, Covers, AllGiven;
    var translated := Translate(answers, pos, batch, 0).0.value;
    TranslateCovers(answers, pos, batch, 0);
    CoversTranslated(translated, batch);
    RecordSound(inp, seen, translated, batch, d);
  }

  lemma ExtendsInvariants(inp: Inputs, seen: seq<string>, d: Draft, r: Draft, items: seq<Item>)
    requires Extends(inp, seen, d, r, items)
    ensures TmOk(r.tm) && Agrees(inp, r) && Accounted(inp, seen, r)
  {
  }

  lemma ExtendsByNothing(inp: Inputs, seen: seq<string>, d: Draft)
    requires TmOk(d.tm) && Agrees(inp, d) && Accounted(inp, seen, d)
    ensures Extends(inp, seen, d, d, [])
  {
    hide TmOk, Agrees, Accounted;
  }

  lemma {:induction false} TranslateAllSound(
      inp: Inputs, seen: seq<string>, answers: nat -> Response, pos: nat, batches: seq<seq<Item>>, d: Draft)
    requires InputsOk(inp) && TmOk(d.tm) && Agrees(inp, d) && Accounted(inp, seen, d)
    requires SeenItems(inp, seen, Concat(batches))
    ensures var r := TranslateAll(inp.cfg, answers, pos, batches, d).0;
      r.Ok? ==> Extends(inp, seen, d, r.value, Concat(batches))
    decreases |batches|
  {
    hide InputsOk, TmOk, Agrees, Accounted, SeenItems, Translate, Record, Extends;
    if batches == [] {
      ExtendsByNothing(inp, seen, d);
    } else {
      var batch, rest := batches[0], batches[1..];
      var one := Translate(answers, pos, batch, 0);
      SeenSplit(inp, seen, batch, Concat(rest));
      if one.0.Ok? {
        var next := Record(inp.cfg, one.0.value, batch, d);
        BatchSound(inp, seen, answers, pos, batch, d);
        ExtendsInvariants(inp, seen, d, next, batch);
        TranslateAllSound(inp, seen, answers, one.1, rest, next);
        var r := TranslateAll(inp.cfg, answers, one.1, rest, next).0;
        if r.Ok? {
          ExtendsTwice(inp, seen, d, next, r.value, batch, Concat(rest));
        }
      }
    }
  }

  // ---------- falling back keeps a draft sound ----------

  lemma {:induction false} SettleNothing(inp: Inputs, force: bool, pending: seq<Item>, d: Draft)
    requires forall item :: item in pending ==> item.key in d.values
    ensures Settle(inp, force, pending, d) == d
    decreases |pending|
  {
    if pending != [] {
      SettleNothing(inp, force, pending[1..], d);
    }
  }

  function FellBack(d: Draft, item: Item): Draft {
    d.(values := d.values[item.key := item.text], fallback := d.fallback + [item.key])
  }

  lemma FellBackAgrees(inp: Inputs, d: Draft, item: Item)
    requires Agrees(inp, d) && item.key in inp.src.vals && inp.CacheKeyOf(item.key) !in d.tm.vals
    ensures Agrees(inp, FellBack(d, item))
  {
    hide Inputs.CacheKeyOf;
  }

  lemma FellBackAccounted(inp: Inputs, seen: seq<string>, d: Draft, item: Item)
    requires Accounted(inp, seen, d) && item.key in seen
    ensures Accounted(inp, seen, FellBack(d, item))
  {
    hide Inputs.ItemOf;
  }

  lemma FellBackOffline(inp: Inputs, d: Draft, item: Item)
    requires Offline(inp, d) && item.key in inp.src.vals && inp.Hash(item.key) !in inp.byText
    ensures Offline(inp, FellBack(d, item))
  {
    hide Inputs.CacheKeyOf, Inputs.Hash, Usable;
  }

  lemma SettleOne(inp: Inputs, seen: seq<string>, d: Draft, item: Item)
    requires InputsOk(inp) && !inp.cfg.allowTranslate && Sound(inp, seen, d)
    requires item in d.pending
    ensures item.key !in inp.existing
    ensures Sound(inp, seen, FellBack(d, item))
  {
    assert item.key in seen && item.key in inp.src.vals;
    FellBackAgrees(inp, d, item);
    FellBackAccounted(inp, seen, d, item);
    FellBackOffline(inp, d, item);
  }

  lemma {:induction false} SettleSound(inp: Inputs, seen: seq<string>, force: bool, pending: seq<Item>, d: Draft)
    requires InputsOk(inp) && !inp.cfg.allowTranslate && Sound(inp, seen, d)
    requires forall item :: item in pending ==> item in d.pending
    ensures var r := Settle(inp, force, pending, d);
      && Sound(inp, seen, r) && r.pending == d.pending && d.values.Keys <= r.values.Keys
      && forall item :: item in pending ==> item.key in r.values
    decreases |pending|
  {
    if pending != [] {
      var item := pending[0];
      SettleOne(inp, seen, d, item);
      hide Sound, InputsOk;
      var next := if item.key in d.values then d
        else FellBack(d, item);
      SettleSound(inp, seen, force, pending[1..], next);
      assert forall it :: it in pending ==> it == item || it in pending[1..];
    }
  }

  /** A draft in which every source key has its text. */
  ghost predicate Complete(inp: Inputs, d: Draft) {
    && Sound(inp, inp.src.keys, d)
    && forall k :: k in inp.src.keys ==> k in d.values
  }

  // ---------- from inputs to the final draft ----------

  lemma ReadInputsOk(cfg: Config, source: Catalogue, files: Files)
    requires WellFormed(source)
    requires DigestsDistinct(cfg, Flatten(source))
    ensures InputsOk(ReadInputs(cfg, source, files))
    ensures Sound(ReadInputs(cfg, source, files), [], Draft(map[], LoadTm(files.tm), [], []))
  {
    FlattenIsLeaves(source);
    LoadTmOk(files.tm);
    InputsOf(cfg, source, files);
    ByTextRead(cfg, source, files);
    DistinctInputs(cfg, Flatten(source), ReadInputs(cfg, source, files));
    hide Blank, Flatten, ReadInputs, DigestsDistinct, InputsOk, ByTextHash, TmOk, LoadTm;
    StartSound(ReadInputs(cfg, source, files), LoadTm(files.tm));
  }

  lemma DistinctInputs(cfg: Config, src: OMap<string>, inp: Inputs)
    requires src.Valid() && DigestsDistinct(cfg, src) && inp.cfg == cfg && inp.src == src
    requires forall h :: h in inp.byText ==> inp.byText[h].textHash == h && Usable(cfg, inp.byText[h])
    ensures InputsOk(inp)
  {
    hide HashText, CachePreimage, Usable;
    assert forall k :: k in inp.src.vals ==>
      inp.CacheKeyOf(k) == CacheKey(cfg, k, HashText(cfg, inp.src.vals[k]));
  }

  lemma ByTextRead(cfg: Config, source: Catalogue, files: Files)
    ensures var inp, tm := ReadInputs(cfg, source, files), LoadTm(files.tm);
      && (forall h :: h in inp.byText ==> inp.byText[h].textHash == h && Usable(cfg, inp.byText[h]))
      && (forall k :: k in tm.vals && Usable(cfg, tm.vals[k]) ==> tm.vals[k].textHash in inp.byText)
  {
    hide Flatten, Usable, LoadTm;
  }

  lemma StartSound(inp: Inputs, tm: OMap<Entry>)
    requires TmOk(tm)
    requires forall k :: k in tm.vals && Usable(inp.cfg, tm.vals[k]) ==> tm.vals[k].textHash in inp.byText
    ensures Sound(inp, [], Draft(map[], tm, [], []))
  {
    hide TmOk, Usable;
  }

  lemma SyncFinishes(cfg: Config, source: Catalogue, files: Files)
    requires WellFormed(source) && Flatten(source).Valid()
    ensures ReadInputs(cfg, source, files).src.Valid()
    ensures forall raw, opts, answers, pos ::
      Sync(cfg, source, raw, files, opts, answers, pos)
        == Finish(ReadInputs(cfg, source, files), raw, files, opts, PlanRead(cfg, source, files), answers, pos)
  {
    InputsOf(cfg, source, files);
    hide Flatten, LoadTm, ReadInputs, PlanRead, Finish;
  }

  lemma PlanIs(cfg: Config, source: Catalogue, files: Files, inp: Inputs)
    requires WellFormed(source) && inp == ReadInputs(cfg, source, files) && inp.src.Valid()
    ensures PlanRead(cfg, source, files) == Plan(inp, inp.src.keys, Draft(map[], LoadTm(files.tm), [], []))
  {
    hide Flatten, LoadTm, ReadInputs, Plan;
  }

  lemma PlanOf(cfg: Config, source: Catalogue, files: Files) returns (inp: Inputs, plan: Draft)
    requires WellFormed(source)
    requires DigestsDistinct(cfg, Flatten(source))
    ensures inp == ReadInputs(cfg, source, files) && inp.cfg == cfg && inp.src == Flatten(source) && InputsOk(inp)
    ensures inp.src.Valid() && plan == PlanRead(cfg, source, files)
    ensures plan == Plan(inp, inp.src.keys, Draft(map[], LoadTm(files.tm), [], []))
    ensures Sound(inp, inp.src.keys, plan) && plan.tm.Valid()
    ensures |plan.pending| <= |inp.src.keys|
    ensures forall raw, opts, answers, pos ::
      Sync(cfg, source, raw, files, opts, answers, pos) == Finish(inp, raw, files, opts, plan, answers, pos)
  {
    hide Flatten, LoadTm, ReadInputs, Sound, InputsOk, DigestsDistinct, Finish, Sync, Plan, PlanRead;
    FlattenIsLeaves(source);
    ReadInputsOk(cfg, source, files);
    SyncFinishes(cfg, source, files);
    inp := ReadInputs(cfg, source, files);
    InputsOf(cfg, source, files);
    var start := Draft(map[], LoadTm(files.tm), [], []);
    plan := PlanRead(cfg, source, files);
    PlanIs(cfg, source, files, inp);
    PlanSound(inp, [], inp.src.keys, start);
    PlanPending(inp, inp.src.keys, start);
    assert [] + inp.src.keys == inp.src.keys;
  }

  lemma {:induction false} PlanPending(inp: Inputs, keys: seq<string>, d: Draft)
    requires forall k :: k in keys ==> k in inp.src.vals
    ensures |Plan(inp, keys, d).pending| <= |d.pending| + |keys|
    decreases |keys|
  {
    if keys != [] {
      hide Decide;
      var next := PlanStep(inp, d, keys[0]);
      assert |next.pending| <= |d.pending| + 1;
      hide PlanStep;
      PlanPending(inp, keys[1..], next);
    }
  }

  /** A finished run concludes from a draft in which every source key has its text. */
  lemma FinalDraft(inp: Inputs, raw: string, files: Files, opts: Options, plan: Draft,
                   answers: nat -> Response, pos: nat) returns (d: Draft)
    requires InputsOk(inp) && Sound(inp, inp.src.keys, plan) && plan.tm.Valid()
    ensures d.tm.Valid()
    ensures var r := Finish(inp, raw, files, opts, plan, answers, pos).0;
      (r.Done? || r == Threw(PlaceholderMismatch)) ==>
        Complete(inp, d) && r == Conclude(inp, raw, files, opts, d)
  {
    hide Sound, Settle, TranslateAll, Conclude, Batches, InputsOk, IsProviderAuth;
    d := plan;
    if inp.cfg.allowTranslate && plan.pending != [] {
      var translated := TranslateAll(inp.cfg, answers, pos, Batches(plan.pending, inp.cfg.budget), plan).0;
      if translated.Ok? {
        d := OnlineDraft(inp, opts.force, answers, pos, plan);
      }
    } else if inp.cfg.allowTranslate {
      SettleNothing(inp, opts.force, plan.pending, plan);
      CompleteIfAllPlaced(inp, plan);
    } else {
      SettleSound(inp, inp.src.keys, opts.force, plan.pending, plan);
      d := Settle(inp, opts.force, plan.pending, plan);
      CompleteAfter(inp, plan, d);
    }
  }

  lemma CompleteIfAllPlaced(inp: Inputs, d: Draft)
    requires Sound(inp, inp.src.keys, d)
    requires forall item :: item in d.pending ==> item.key in d.values
    ensures Complete(inp, d)
  {
    hide TmOk, Agrees, Offline;
    forall k | k in inp.src.keys ensures k in d.values {
      assert inp.ItemOf(k).key == k;
    }
  }

  lemma CompleteAfter(inp: Inputs, before: Draft, d: Draft)
    requires Sound(inp, inp.src.keys, d) && d.pending == before.pending
    requires forall item :: item in before.pending ==> item.key in d.values
    ensures Complete(inp, d)
  {
    CompleteIfAllPlaced(inp, d);
  }

  lemma OnlineDraft(inp: Inputs, force: bool, answers: nat -> Response, pos: nat, plan: Draft) returns (d: Draft)
    requires InputsOk(inp) && Sound(inp, inp.src.keys, plan) && inp.cfg.allowTranslate
    requires TranslateAll(inp.cfg, answers, pos, Batches(plan.pending, inp.cfg.budget), plan).0.Ok?
    ensures d == Settle(inp, force, plan.pending,
      TranslateAll(inp.cfg, answers, pos, Batches(plan.pending, inp.cfg.budget), plan).0.value)
    ensures Complete(inp, d)
  {
    var batches := Batches(plan.pending, inp.cfg.budget);
    BatchesAreGreedy(plan.pending, inp.cfg.budget);
    assert ItemsOf(inp, plan.pending);
    hide TmOk, Agrees, InputsOk, Batches, TranslateAll;
    d := TranslateAll(inp.cfg, answers, pos, batches, plan).0.value;
    TranslateAllSound(inp, inp.src.keys, answers, pos, batches, plan);
    SettleNothing(inp, force, plan.pending, d);
    CompleteIfAllPlaced(inp, d);
  }

  // ---------- the second run ----------

  /** On reading `files`, every key already has its text `values[k]`, in the memory or in
      the locale file, and exactly the keys of `fallback` are marked. */
  ghost predicate Quiet(inp: Inputs, tm: map<string, Entry>, values: map<string, string>) {
    forall k :: k in inp.src.vals ==>
      && k in values
      && (var step := Decide(inp, tm, k);
          || (step.Cached? && step.entry.translated == values[k])
          || (step.Keep? && step.text == values[k]))
  }

  lemma {:induction false} ByTextHashFrom(cfg: Config, keys: seq<string>, vals: map<string, Entry>, h: string)
    requires forall k :: k in keys ==> k in vals
    ensures h in ByTextHash(cfg, keys, vals) ==>
      exists k :: k in keys && Usable(cfg, vals[k]) && vals[k].textHash == h
  {
    hide Usable;
    if keys != [] {
      var n := |keys| - 1;
      ByTextHashFrom(cfg, keys[..n], vals, h);
      assert keys[n] in keys;
    }
  }

  /** A later run for the same locale, with the same digest and collation, by any clock and
      with any budget. It has a provider only if the earlier run had one, and then the same
      one; without a provider its provider settings do not matter. */
  ghost predicate LaterRun(cfg: Config, later: Config) {
    && later.locale == cfg.locale && later.namespace == cfg.namespace
    && later.sha == cfg.sha && later.less == cfg.less
    && (later.allowTranslate ==>
          cfg.allowTranslate && later.provider == cfg.provider && later.model == cfg.model)
  }

  /** The state that a finished run leaves for the next one. */
  ghost predicate Resumes(inp: Inputs, d: Draft, inp2: Inputs, tm2: OMap<Entry>) {
    && LaterRun(inp.cfg, inp2.cfg) && inp2.src == inp.src
    && tm2.Valid() && tm2.vals == d.tm.vals
    && inp2.byText == ByTextHash(inp2.cfg, tm2.keys, tm2.vals)
    && inp2.previous == ToSet(d.fallback)
    && (forall k :: k in inp.src.vals ==> k in inp2.existing && k in d.values && inp2.existing[k] == d.values[k])
  }

  lemma ResumedIsQuiet(inp: Inputs, d: Draft, inp2: Inputs, tm2: OMap<Entry>)
    requires inp.src.Valid() && Complete(inp, d) && Resumes(inp, d, inp2, tm2)
    ensures Quiet(inp2, tm2.vals, d.values)
  {
    hide ByTextHash, HashText, CacheKey, Usable, TmOk, Accounted;
    forall k | k in inp.src.vals
      ensures inp2.CacheKeyOf(k) == inp.CacheKeyOf(k) && inp2.Hash(k) == inp.Hash(k) {
      SameDigests(inp.cfg, inp2.cfg, k, inp.src.vals[k]);
    }
    forall k | k in inp.src.vals && k in inp2.previous && inp.CacheKeyOf(k) !in tm2.vals
      ensures inp.Hash(k) !in inp2.byText {
      assert k in d.fallback;
      UnknownHash(inp, inp2.cfg, d, tm2, k);
    }
    hide Inputs.CacheKeyOf, Inputs.Hash;
  }

  lemma SameDigests(cfg: Config, later: Config, key: string, text: string)
    requires LaterRun(cfg, later)
    ensures HashText(later, text) == HashText(cfg, text)
    ensures CacheKey(later, key, HashText(later, text)) == CacheKey(cfg, key, HashText(cfg, text))
  {
    hide NormalizeText;
  }

  lemma UnknownHash(inp: Inputs, later: Config, d: Draft, tm2: OMap<Entry>, k: string)
    requires inp.src.Valid() && Complete(inp, d) && LaterRun(inp.cfg, later)
    requires tm2.Valid() && tm2.vals == d.tm.vals
    requires k in d.fallback && k in inp.src.vals && inp.CacheKeyOf(k) !in tm2.vals
    ensures inp.Hash(k) !in ByTextHash(later, tm2.keys, tm2.vals)
  {
    var h := inp.Hash(k);
    var index := ByTextHash(later, tm2.keys, tm2.vals);
    assert !inp.cfg.allowTranslate && h !in inp.byText;
    assert forall e :: Usable(later, e) <==> Usable(inp.cfg, e);
    hide Usable, ByTextHash, Inputs.Hash, Inputs.CacheKeyOf;
    ByTextHashFrom(later, tm2.keys, tm2.vals, h);
  }

  /** Planning over quiet inputs only copies texts. */
  lemma {:induction false} QuietPlan(inp: Inputs, keys: seq<string>, values: map<string, string>, d: Draft)
    requires forall k :: k in keys ==> k in inp.src.vals
    requires Quiet(inp, d.tm.vals, values)
    ensures var r := Plan(inp, keys, d);
      && r.tm == d.tm && r.pending == d.pending
      && (forall k :: k in keys ==> k in r.values && r.values[k] == values[k])
      && (forall k :: k in d.values && k !in keys ==> k in r.values && r.values[k] == d.values[k])
      && (forall k :: k in r.fallback <==> k in d.fallback || (k in keys && k in inp.previous))
    decreases |keys|
  {
    if keys != [] {
      var key, rest := keys[0], keys[1..];
      var next := PlanStep(inp, d, key);
      QuietStep(inp, key, values, d);
      assert forall k :: k in keys <==> k == key || k in rest;
      hide Quiet, PlanStep;
      QuietPlan(inp, rest, values, next);
    }
  }

  lemma QuietStep(inp: Inputs, key: string, values: map<string, string>, d: Draft)
    requires key in inp.src.vals && Quiet(inp, d.tm.vals, values)
    ensures key in values
    ensures var next := PlanStep(inp, d, key);
      && next.tm == d.tm && next.pending == d.pending
      && next.values == d.values[key := values[key]]
      && forall k :: k in next.fallback <==> k in d.fallback || (k == key && k in inp.previous)
  {
    hide Decide;
  }

  /** Reading back what a run wrote. */
  lemma ExpectedResumes(cfg: Config, later: Config, source: Catalogue, raw: string,
                        inp: Inputs, files: Files, d: Draft)
    requires WellFormed(source) && StrictTotalOrder(cfg.less) && LaterRun(cfg, later)
    requires inp.cfg == cfg && inp.src == Flatten(source) && inp.src.Valid()
    requires Complete(inp, d) && d.tm.Valid()
    ensures var next := Expected(inp, raw, files, d);
      Resumes(inp, d, ReadInputs(later, source, next), LoadTm(next.tm))
  {
    hide Flatten, Rebuild, SortDistinct, ByTextHash, RenderTm, LoadTm, Accounted, Agrees, Offline;
    var texts := FinalTexts(inp.src, d.values);
    var next := Expected(inp, raw, files, d);
    FlattenAfterRebuild(source, texts);
    ReloadTm(cfg, d.tm);
    var inp2 := ReadInputs(later, source, next);
    assert inp2.existing == Flatten(Rebuild(inp.src.keys, texts, Nil)).vals;
    assert forall k :: k in PreviousFallbacks(next) <==> k in d.fallback;
    assert inp2.previous == ToSet(d.fallback);
  }

  lemma SameMeta(inp: Inputs, inp2: Inputs, raw: string, files: Files, next: Files, d: Draft, fallback: seq<string>)
    requires LaterRun(inp.cfg, inp2.cfg) && inp2.src == inp.src && StrictTotalOrder(inp.cfg.less)
    requires next.meta == Some(NextMeta(inp, raw, files, d.fallback))
    requires forall k :: k in fallback <==> k in d.fallback
    ensures NextMeta(inp2, raw, next, fallback) == next.meta.value
  {
    SortCanonical(fallback, d.fallback, inp.cfg.less);
    hide SortDistinct;
  }

  lemma SameRendering(cfg: Config, later: Config, tm: OMap<Entry>)
    requires LaterRun(cfg, later) && tm.Valid()
    ensures RenderTm(later, tm) == RenderTm(cfg, tm)
  {
  }

  lemma SameExpected(inp: Inputs, inp2: Inputs, raw: string, files: Files, d: Draft, d2: Draft)
    requires inp.src.Valid() && d.tm.Valid() && d2.tm.Valid() && StrictTotalOrder(inp.cfg.less)
    requires TmOk(d.tm) && d2.tm == LoadTm(RenderTm(inp.cfg, d.tm))
    requires LaterRun(inp.cfg, inp2.cfg) && inp2.src == inp.src
    requires forall k :: k in inp.src.keys ==> k in d.values && k in d2.values && d2.values[k] == d.values[k]
    requires forall k :: k in d2.fallback <==> k in d.fallback
    ensures Expected(inp2, raw, Expected(inp, raw, files, d), d2) == Expected(inp, raw, files, d)
    ensures PlaceholdersAgree(inp2, d2.values) == PlaceholdersAgree(inp, d.values)
  {
    hide Rebuild, RenderTm, LoadTm, NextMeta, TmOk, Placeholders;
    var next := Expected(inp, raw, files, d);
    assert FinalTexts(inp2.src, d2.values) == FinalTexts(inp.src, d.values);
    ReloadTm(inp.cfg, d.tm);
    SameRendering(inp.cfg, inp2.cfg, d2.tm);
    SameMeta(inp, inp2, raw, files, next, d, d2.fallback);
    assert DEFAULT_GLOSSARY != [];
  }

  /** A run that starts from what a finished run computed finds nothing to do: it asks the
      provider nothing, computes the same files and reports no change. */
  lemma RerunFindsNothing(cfg: Config, later: Config, source: Catalogue, raw: string, files: Files, d: Draft,
                          opts: Options, answers: nat -> Response, pos: nat)
    requires WellFormed(source) && StrictTotalOrder(cfg.less) && LaterRun(cfg, later)
    requires Flatten(source).Valid() && d.tm.Valid()
    requires Complete(ReadInputs(cfg, source, files), d)
    requires PlaceholdersAgree(ReadInputs(cfg, source, files), d.values)
    ensures ReadInputs(cfg, source, files).src.Valid()
    ensures var next := Expected(ReadInputs(cfg, source, files), raw, files, d);
      Sync(later, source, raw, next, opts, answers, pos)
        == (Done(false, |next.meta.value.fallbackKeys|, false, next, next), pos)
  {
    hide Flatten, ReadInputs, LoadTm, TranslateAll, Complete, PlaceholdersAgree, Expected, Decide;
    InputsOf(cfg, source, files);
    InputsOf(later, source, Expected(ReadInputs(cfg, source, files), raw, files, d));
    var inp := ReadInputs(cfg, source, files);
    assert inp.src.Valid() && inp.cfg == cfg;
    var next := Expected(inp, raw, files, d);
    var inp2, tm2 := ReadInputs(later, source, next), LoadTm(next.tm);
    ExpectedResumes(cfg, later, source, raw, inp, files, d);
    ResumedIsQuiet(inp, d, inp2, tm2);
    QuietPlan(inp2, inp2.src.keys, d.values, Draft(map[], tm2, [], []));
    hide Plan, Quiet;
    var d2 := Plan(inp2, inp2.src.keys, Draft(map[], tm2, [], []));
    CompleteParts(inp, d, raw, files);
    SameExpected(inp, inp2, raw, files, d, d2);
  }

  lemma CompleteParts(inp: Inputs, d: Draft, raw: string, files: Files)
    requires inp.src.Valid() && d.tm.Valid() && Complete(inp, d)
    ensures TmOk(d.tm)
    ensures forall k :: k in inp.src.keys ==> k in d.values
    ensures forall k :: k in d.fallback ==> k in inp.src.keys
    ensures Expected(inp, raw, files, d).tm == RenderTm(inp.cfg, d.tm)
    ensures Expected(inp, raw, files, d).meta.Some?
  {
  }

  // ---------- main results ----------

  /** Synchronising is idempotent, with or without a provider: after a run that finished
      and was allowed to write, any later run, at another time, with other options and
      whatever the provider would answer, sends no prompt, reports no change and leaves all
      four files as they are, although it reloads the memory in another order. */
  lemma SyncIsIdempotent(cfg: Config, source: Catalogue, raw: string, files: Files,
                         opts: Options, answers: nat -> Response, pos: nat,
                         later: Config, opts2: Options, answers2: nat -> Response, pos2: nat)
    requires WellFormed(source) && StrictTotalOrder(cfg.less) && LaterRun(cfg, later)
    requires DigestsDistinct(cfg, Flatten(source))
    requires opts.write && !opts.checkOnly
    requires Sync(cfg, source, raw, files, opts, answers, pos).0.Done?
    ensures var first := Sync(cfg, source, raw, files, opts, answers, pos).0;
      && first.files == first.expected
      && Sync(later, source, raw, first.files, opts2, answers2, pos2)
           == (Done(false, first.fallbackCount, false, first.files, first.files), pos2)
  {
    FlattenIsLeaves(source);
    hide Flatten, ReadInputs, Complete, PlaceholdersAgree, Expected, DigestsDistinct, Sync, Finish;
    hide Sound, InputsOk, Plan, PlanRead, LaterRun;
    var inp, plan := PlanOf(cfg, source, files);
    var d := FinalDraft(inp, raw, files, opts, plan, answers, pos);
    var first := Sync(cfg, source, raw, files, opts, answers, pos).0;
    assert first == Conclude(inp, raw, files, opts, d);
    RerunFindsNothing(cfg, later, source, raw, files, d, opts2, answers2, pos2);
  }
}
