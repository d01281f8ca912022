/** What a run remembers: the translation memory that it writes, entry by entry. */
module LocaleSyncMemory {
  import opened Text
  import opened Sorting
  import opened OrderedMap
  import opened CatalogueTree
  import opened TranslationBatches
  import opened BatchTranslator
  import opened LocaleSync
  import opened LocaleSyncTheorems
  import opened LocaleSyncTexts
  import opened LocaleSyncRuns

  function Lookup(memory: map<string, Entry>, cacheKey: string): Option<Entry> {
    if cacheKey in memory then Some(memory[cacheKey]) else None
  }

  /** Whether a cache key belongs to a key of the source. */
  ghost predicate Owned(inp: Inputs, c: string) {
    exists k :: k in inp.src.vals && inp.CacheKeyOf(k) == c
  }

  /** What planning makes of a key's own entry: a copy of an entry for the same text, or
      what was there. */
  function PlannedEntry(inp: Inputs, tm: map<string, Entry>, k: string): Option<Entry>
    requires k in inp.src.vals
  {
    var known := Known(inp, tm, k);
    if known.SameText? then Some(Copied(inp, known.entry, k)) else Lookup(tm, inp.CacheKeyOf(k))
  }

  // ---------- planning ----------

  /** Own entries of the keys seen are planned; everything else is as it was. */
  ghost predicate Remembered(inp: Inputs, tm: map<string, Entry>, seen: seq<string>, memory: map<string, Entry>) {
    && (forall k :: k in inp.src.vals ==> OwnRemembered(inp, tm, k in seen, memory, k))
    && OthersKept(inp, tm, memory)
  }

  ghost predicate OwnRemembered(
      inp: Inputs, tm: map<string, Entry>, planned: bool, memory: map<string, Entry>, k: string)
    requires k in inp.src.vals
  {
    Lookup(memory, inp.CacheKeyOf(k)) == if planned then PlannedEntry(inp, tm, k) else Lookup(tm, inp.CacheKeyOf(k))
  }

  /** What belongs to no source key is as it was. */
  ghost predicate OthersKept(inp: Inputs, tm: map<string, Entry>, memory: map<string, Entry>) {
    forall c :: !Owned(inp, c) ==> Lookup(memory, c) == Lookup(tm, c)
  }

  lemma StepMemory(inp: Inputs, d: Draft, key: string)
    requires key in inp.src.vals
    ensures forall c :: c != inp.CacheKeyOf(key) ==>
      Lookup(PlanStep(inp, d, key).tm.vals, c) == Lookup(d.tm.vals, c)
    ensures Lookup(PlanStep(inp, d, key).tm.vals, inp.CacheKeyOf(key)) == PlannedEntry(inp, d.tm.vals, key)
  {
    hide Inputs.CacheKeyOf, Inputs.Hash, Inputs.ItemOf, Copied, Usable;
  }

  lemma SameLookupSamePlan(inp: Inputs, a: map<string, Entry>, b: map<string, Entry>, k: string)
    requires k in inp.src.vals && Lookup(a, inp.CacheKeyOf(k)) == Lookup(b, inp.CacheKeyOf(k))
    ensures PlannedEntry(inp, a, k) == PlannedEntry(inp, b, k)
  {
    hide Inputs.CacheKeyOf, Inputs.Hash, Copied;
  }

  lemma StepOwn(inp: Inputs, tm: map<string, Entry>, seen: bool, d: Draft, key: string, k: string)
    requires InputsOk(inp) && key in inp.src.vals && k in inp.src.vals
    requires OwnRemembered(inp, tm, seen, d.tm.vals, k) && (k == key ==> !seen)
    ensures OwnRemembered(inp, tm, seen || k == key, PlanStep(inp, d, key).tm.vals, k)
  {
    assert k != key ==> inp.CacheKeyOf(k) != inp.CacheKeyOf(key);
    hide InputsOk, Inputs.CacheKeyOf, PlannedEntry, PlanStep, Lookup;
    StepMemory(inp, d, key);
    if k == key {
      SameLookupSamePlan(inp, d.tm.vals, tm, key);
    }
  }

  lemma StepOthersKept(inp: Inputs, tm: map<string, Entry>, d: Draft, key: string)
    requires key in inp.src.vals && OthersKept(inp, tm, d.tm.vals)
    ensures OthersKept(inp, tm, PlanStep(inp, d, key).tm.vals)
  {
    OwnedByKey(inp, key);
    hide Inputs.CacheKeyOf, PlannedEntry, PlanStep, Lookup, Owned;
    StepMemory(inp, d, key);
  }

  lemma StepRemembered(inp: Inputs, tm: map<string, Entry>, seen: seq<string>, d: Draft, key: string)
    requires InputsOk(inp) && key in inp.src.vals && key !in seen && Remembered(inp, tm, seen, d.tm.vals)
    ensures Remembered(inp, tm, seen + [key], PlanStep(inp, d, key).tm.vals)
  {
    hide InputsOk, OwnRemembered, OthersKept, PlanStep;
    StepOthersKept(inp, tm, d, key);
    forall k | k in inp.src.vals
      ensures OwnRemembered(inp, tm, k in seen + [key], PlanStep(inp, d, key).tm.vals, k) {
      StepOwn(inp, tm, k in seen, d, key, k);
    }
  }

  lemma OwnedByKey(inp: Inputs, key: string)
    requires key in inp.src.vals
    ensures Owned(inp, inp.CacheKeyOf(key))
  {
    hide Inputs.CacheKeyOf;
  }

  lemma {:induction false} PlanRemembers(
      inp: Inputs, tm: map<string, Entry>, seen: seq<string>, keys: seq<string>, d: Draft)
    requires InputsOk(inp) && Remembered(inp, tm, seen, d.tm.vals)
    requires forall k :: k in keys ==> k in inp.src.vals
    requires Distinct(keys) && forall k :: k in keys ==> k !in seen
    ensures Remembered(inp, tm, seen + keys, Plan(inp, keys, d).tm.vals)
    decreases |keys|
  {
    hide InputsOk, Remembered, PlanStep;
    if keys == [] {
      assert seen + keys == seen;
    } else {
      assert keys == [keys[0]] + keys[1..] && keys[0] in keys;
      DistinctTail(keys[0], keys[1..]);
      StepRemembered(inp, tm, seen, d, keys[0]);
      PlanRemembers(inp, tm, seen + [keys[0]], keys[1..], PlanStep(inp, d, keys[0]));
      assert seen + [keys[0]] + keys[1..] == seen + keys;
    }
  }

  lemma NothingRemembered(inp: Inputs, tm: map<string, Entry>)
    ensures Remembered(inp, tm, [], tm)
  {
    hide Inputs.CacheKeyOf, Lookup, Owned;
  }

  // ---------- translating ----------

  /** From `d` to `r` the memory gained, for each of these items, a new entry with the text
      that the item's key now has, and nothing else changed in it. */
  ghost predicate Learned(inp: Inputs, d: Draft, r: Draft, items: seq<Item>) {
    && (forall item :: item in items ==>
          item.key in r.values && Lookup(r.tm.vals, item.cacheKey) == Some(NewEntry(inp.cfg, item, r.values[item.key])))
    && (forall c :: (forall item :: item in items ==> item.cacheKey != c) ==>
          Lookup(r.tm.vals, c) == Lookup(d.tm.vals, c))
    && (forall k :: (forall item :: item in items ==> item.key != k) ==>
          (k in r.values <==> k in d.values) && (k in d.values ==> r.values[k] == d.values[k]))
  }

  lemma LearnedOne(inp: Inputs, d: Draft, item: Item, value: string)
    ensures Learned(inp, d, Recorded(inp.cfg, d, item, value), [item])
  {
    assert item in [item];
  }

  /** Items of one run with the same key, or with the same cache key, are the same. */
  lemma ItemsApart(inp: Inputs, items: seq<Item>)
    requires InputsOk(inp) && ItemsOf(inp, items)
    ensures forall a, b :: a in items && b in items && (a.key == b.key || a.cacheKey == b.cacheKey) ==> a == b
  {
    hide Inputs.CacheKeyOf, Inputs.Hash;
    forall a, b | a in items && b in items && (a.key == b.key || a.cacheKey == b.cacheKey) ensures a == b {
      assert inp.ItemOf(a.key).cacheKey == inp.CacheKeyOf(a.key) && inp.ItemOf(b.key).cacheKey == inp.CacheKeyOf(b.key);
    }
  }

  lemma LearnedTwice(inp: Inputs, d: Draft, mid: Draft, r: Draft, a: seq<Item>, b: seq<Item>)
    requires Learned(inp, d, mid, a) && Learned(inp, mid, r, b)
    requires forall x, y :: x in a + b && y in a + b && (x.key == y.key || x.cacheKey == y.cacheKey) ==> x == y
    ensures Learned(inp, d, r, a + b)
  {
    hide NewEntry, Lookup;
    assert forall item :: item in a + b <==> item in a || item in b;
    forall item | item in a + b
      ensures item.key in r.values
      ensures Lookup(r.tm.vals, item.cacheKey) == Some(NewEntry(inp.cfg, item, r.values[item.key])) {
      if item !in b {
        assert forall y :: y in b ==> y.key != item.key && y.cacheKey != item.cacheKey;
      }
    }
  }

  lemma RecordNothing(cfg: Config, translated: map<string, string>, d: Draft)
    ensures Record(cfg, translated, [], d) == d
  {
  }

  lemma TranslatedTail(translated: map<string, string>, items: seq<Item>)
    requires items != [] && Translated(translated, items)
    ensures items[0].key in translated && !Blank(translated[items[0].key]) && Translated(translated, items[1..])
  {
    hide Blank;
    assert items[0] in items && forall item :: item in items[1..] ==> item in items;
  }

  lemma {:induction false} RecordLearns(
      inp: Inputs, translated: map<string, string>, items: seq<Item>, d: Draft)
    requires InputsOk(inp) && ItemsOf(inp, items) && Translated(translated, items)
    ensures Learned(inp, d, Record(inp.cfg, translated, items, d), items)
    decreases |items|
  {
    hide *;
    if items == [] {
      RecordNothing(inp.cfg, translated, d);
      LearnedNothing(inp, d);
    } else {
      assert [items[0]] + items[1..] == items;
      TranslatedTail(translated, items);
      RecordUnfold(inp.cfg, translated, items, d);
      ItemsApart(inp, items);
      ItemsSplit(inp, [items[0]], items[1..]);
      var next := Recorded(inp.cfg, d, items[0], translated[items[0].key]);
      RecordLearns(inp, translated, items[1..], next);
      LearnedOne(inp, d, items[0], translated[items[0].key]);
      LearnedTwice(inp, d, next, Record(inp.cfg, translated, items[1..], next), [items[0]], items[1..]);
    }
  }

  lemma LearnedNothing(inp: Inputs, d: Draft)
    ensures Learned(inp, d, d, [])
  {
  }

  lemma ItemsSplit(inp: Inputs, a: seq<Item>, b: seq<Item>)
    requires ItemsOf(inp, a + b)
    ensures ItemsOf(inp, a) && ItemsOf(inp, b)
  {
    hide Inputs.ItemOf;
    assert forall item :: item in a || item in b ==> item in a + b;
  }

  lemma {:induction false} TranslateAllLearns(
      inp: Inputs, answers: nat -> Response, pos: nat, batches: seq<seq<Item>>, d: Draft)
    requires InputsOk(inp) && ItemsOf(inp, Concat(batches))
    requires TranslateAll(inp.cfg, answers, pos, batches, d).0.Ok?
    ensures Learned(inp, d, TranslateAll(inp.cfg, answers, pos, batches, d).0.value, Concat(batches))
    decreases |batches|
  {
    hide Learned, Record, Translate, Covers, Translated, AllGiven, InputsOk, ItemsOf;
    if batches == [] {
      LearnedNothing(inp, d);
    } else {
      var batch, rest := batches[0], batches[1..];
      var one := Translate(answers, pos, batch, 0);
      var next := Record(inp.cfg, one.0.value, batch, d);
      ItemsSplit(inp, batch, Concat(rest));
      TranslateCovers(answers, pos, batch, 0);
      CoversTranslated(one.0.value, batch);
      RecordLearns(inp, one.0.value, batch, d);
      TranslateAllLearns(inp, answers, one.1, rest, next);
      ItemsApart(inp, batch + Concat(rest));
      LearnedTwice(inp, d, next, TranslateAll(inp.cfg, answers, one.1, rest, next).0.value, batch, Concat(rest));
    }
  }

  // ---------- the memory of a finished run ----------

  /** A key's own entry after a run that gave the key this text. */
  function FinalEntry(inp: Inputs, tm: map<string, Entry>, k: string, text: string): Option<Entry>
    requires k in inp.src.vals
  {
    if inp.cfg.allowTranslate && Known(inp, tm, k).Ask? then Some(NewEntry(inp.cfg, inp.ItemOf(k), text))
    else PlannedEntry(inp, tm, k)
  }

  ghost predicate FinalMemory(
      inp: Inputs, tm: map<string, Entry>, values: map<string, string>, memory: map<string, Entry>)
  {
    && (forall k :: k in inp.src.keys ==> k in inp.src.vals && k in values && FinalOwn(inp, tm, memory, k, values[k]))
    && OthersKept(inp, tm, memory)
  }

  ghost predicate FinalOwn(
      inp: Inputs, tm: map<string, Entry>, memory: map<string, Entry>, k: string, text: string)
    requires k in inp.src.vals
  {
    Lookup(memory, inp.CacheKeyOf(k)) == FinalEntry(inp, tm, k, text)
  }

  /** An entry filed for this key and its present source text. */
  predicate FiledFor(inp: Inputs, k: string, e: Entry)
    requires k in inp.src.vals
  {
    && e.cacheKey == inp.CacheKeyOf(k) && e.segmentId == k && e.sourcePath == inp.cfg.sourcePath
    && e.textHash == inp.Hash(k) && e.tgtLang == inp.cfg.locale
  }

  /** The entry is the one there was, or one filed for this key; and its text is the key's. */
  ghost predicate EntryFits(
      inp: Inputs, tm: map<string, Entry>, memory: map<string, Entry>, k: string, text: string)
    requires k in inp.src.vals
  {
    var e := Lookup(memory, inp.CacheKeyOf(k));
    && (e == Lookup(tm, inp.CacheKeyOf(k)) || (e.Some? && FiledFor(inp, k, e.value)))
    && (e.Some? ==> e.value.translated == text)
  }

  lemma NewIsFiled(inp: Inputs, k: string, text: string)
    requires k in inp.src.vals
    ensures FiledFor(inp, k, NewEntry(inp.cfg, inp.ItemOf(k), text))
  {
    hide HashText, CacheKey;
  }

  lemma CopyIsFiled(inp: Inputs, e: Entry, k: string)
    requires k in inp.src.vals && e.textHash == inp.Hash(k) && e.tgtLang == inp.cfg.locale
    ensures FiledFor(inp, k, Copied(inp, e, k))
  {
    hide HashText, CacheKey;
  }

  lemma SameTextFits(inp: Inputs, tm: map<string, Entry>, k: string)
    requires InputsOk(inp) && k in inp.src.vals && Known(inp, tm, k).SameText?
    ensures Known(inp, tm, k).entry.textHash == inp.Hash(k) && Known(inp, tm, k).entry.tgtLang == inp.cfg.locale
  {
    hide Inputs.CacheKeyOf, Inputs.Hash, Blank;
  }

  lemma FinalIsFiled(inp: Inputs, tm: map<string, Entry>, k: string, text: string)
    requires InputsOk(inp) && k in inp.src.vals
    ensures var e := FinalEntry(inp, tm, k, text);
      e == Lookup(tm, inp.CacheKeyOf(k)) || (e.Some? && FiledFor(inp, k, e.value))
  {
    hide InputsOk, FiledFor, Copied, NewEntry, Known, Lookup, Inputs.CacheKeyOf, Inputs.Hash, Inputs.ItemOf;
    NewIsFiled(inp, k, text);
    if Known(inp, tm, k).SameText? {
      SameTextFits(inp, tm, k);
      CopyIsFiled(inp, Known(inp, tm, k).entry, k);
    }
  }

  lemma FinalFits(inp: Inputs, tm: map<string, Entry>, d: Draft, k: string)
    requires InputsOk(inp) && k in inp.src.vals && k in d.values && Agrees(inp, d)
    requires FinalOwn(inp, tm, d.tm.vals, k, d.values[k])
    ensures EntryFits(inp, tm, d.tm.vals, k, d.values[k])
  {
    hide InputsOk, FinalEntry, FiledFor, Inputs.CacheKeyOf;
    FinalIsFiled(inp, tm, k, d.values[k]);
  }

  lemma AskedIsLearned(inp: Inputs, tm: map<string, Entry>, plan: Draft, d: Draft, k: string)
    requires InputsOk(inp) && Planned(inp, tm, inp.src.keys, plan)
    requires ItemsOf(inp, plan.pending) && Learned(inp, plan, d, plan.pending)
    requires k in inp.src.keys && k in inp.src.vals
    ensures if Known(inp, tm, k).Ask?
      then k in d.values && Lookup(d.tm.vals, inp.CacheKeyOf(k)) == Some(NewEntry(inp.cfg, inp.ItemOf(k), d.values[k]))
      else Lookup(d.tm.vals, inp.CacheKeyOf(k)) == Lookup(plan.tm.vals, inp.CacheKeyOf(k))
  {
    hide Decide, NewEntry, Inputs.Hash;
    assert PlannedKey(inp, tm, plan, k);
    assert inp.ItemOf(k).key == k && inp.ItemOf(k).cacheKey == inp.CacheKeyOf(k);
    if !Known(inp, tm, k).Ask? {
      forall item | item in plan.pending ensures item.cacheKey != inp.CacheKeyOf(k) {
        assert Known(inp, tm, item.key).Ask? && item.cacheKey == inp.CacheKeyOf(item.key);
      }
    }
  }

  lemma UnownedIsKept(inp: Inputs, plan: Draft, d: Draft, c: string)
    requires ItemsOf(inp, plan.pending) && Learned(inp, plan, d, plan.pending) && !Owned(inp, c)
    ensures Lookup(d.tm.vals, c) == Lookup(plan.tm.vals, c)
  {
    forall item | item in plan.pending ensures item.cacheKey != c {
      assert item.cacheKey == inp.CacheKeyOf(item.key);
    }
  }

  lemma OnlineOwn(inp: Inputs, tm: map<string, Entry>, plan: Draft, d: Draft, k: string)
    requires InputsOk(inp) && inp.cfg.allowTranslate && Planned(inp, tm, inp.src.keys, plan)
    requires ItemsOf(inp, plan.pending) && Learned(inp, plan, d, plan.pending)
    requires k in inp.src.keys && k in inp.src.vals && k in d.values
    requires OwnRemembered(inp, tm, true, plan.tm.vals, k)
    ensures FinalOwn(inp, tm, d.tm.vals, k, d.values[k])
  {
    hide InputsOk, Planned, ItemsOf, Learned, PlannedEntry, Known, Lookup, Inputs.CacheKeyOf, Inputs.ItemOf;
    AskedIsLearned(inp, tm, plan, d, k);
  }

  lemma OnlineOthers(inp: Inputs, tm: map<string, Entry>, plan: Draft, d: Draft)
    requires ItemsOf(inp, plan.pending) && Learned(inp, plan, d, plan.pending)
    requires OthersKept(inp, tm, plan.tm.vals)
    ensures OthersKept(inp, tm, d.tm.vals)
  {
    hide ItemsOf, Learned, Lookup, Owned;
    forall c | !Owned(inp, c) ensures Lookup(d.tm.vals, c) == Lookup(tm, c) {
      UnownedIsKept(inp, plan, d, c);
    }
  }

  lemma KeysKnown(inp: Inputs)
    requires InputsOk(inp)
    ensures forall k :: k in inp.src.keys ==> k in inp.src.vals
  {
  }

  lemma RememberedOwn(inp: Inputs, tm: map<string, Entry>, memory: map<string, Entry>)
    requires InputsOk(inp) && Remembered(inp, tm, inp.src.keys, memory)
    ensures forall k :: k in inp.src.keys ==> k in inp.src.vals && OwnRemembered(inp, tm, true, memory, k)
    ensures OthersKept(inp, tm, memory)
  {
    KeysKnown(inp);
    hide InputsOk, OwnRemembered, OthersKept;
  }

  lemma FinalFromParts(inp: Inputs, tm: map<string, Entry>, values: map<string, string>, memory: map<string, Entry>)
    requires forall k :: k in inp.src.keys ==>
      k in inp.src.vals && k in values && FinalOwn(inp, tm, memory, k, values[k])
    requires OthersKept(inp, tm, memory)
    ensures FinalMemory(inp, tm, values, memory)
  {
    hide OthersKept, FinalOwn;
  }

  lemma OnlineMemory(inp: Inputs, tm: map<string, Entry>, plan: Draft, d: Draft)
    requires InputsOk(inp) && inp.cfg.allowTranslate && Planned(inp, tm, inp.src.keys, plan)
    requires Remembered(inp, tm, inp.src.keys, plan.tm.vals)
    requires ItemsOf(inp, plan.pending) && Learned(inp, plan, d, plan.pending)
    requires forall k :: k in inp.src.keys ==> k in d.values
    ensures FinalMemory(inp, tm, d.values, d.tm.vals)
  {
    hide *;
    RememberedOwn(inp, tm, plan.tm.vals);
    OnlineOthers(inp, tm, plan, d);
    forall k | k in inp.src.keys ensures k in inp.src.vals && FinalOwn(inp, tm, d.tm.vals, k, d.values[k]) {
      OnlineOwn(inp, tm, plan, d, k);
    }
    FinalFromParts(inp, tm, d.values, d.tm.vals);
  }

  lemma OfflineOwn(inp: Inputs, tm: map<string, Entry>, memory: map<string, Entry>, k: string, text: string)
    requires !inp.cfg.allowTranslate && k in inp.src.vals && OwnRemembered(inp, tm, true, memory, k)
    ensures FinalOwn(inp, tm, memory, k, text)
  {
    hide PlannedEntry, Known, Lookup, Inputs.CacheKeyOf, Inputs.ItemOf;
  }

  lemma OfflineMemory(inp: Inputs, tm: map<string, Entry>, plan: Draft, d: Draft)
    requires InputsOk(inp) && !inp.cfg.allowTranslate && d.tm == plan.tm
    requires Remembered(inp, tm, inp.src.keys, plan.tm.vals)
    requires forall k :: k in inp.src.keys ==> k in d.values
    ensures FinalMemory(inp, tm, d.values, d.tm.vals)
  {
    hide *;
    RememberedOwn(inp, tm, plan.tm.vals);
    forall k | k in inp.src.keys ensures k in inp.src.vals && FinalOwn(inp, tm, d.tm.vals, k, d.values[k]) {
      OfflineOwn(inp, tm, d.tm.vals, k, d.values[k]);
    }
    FinalFromParts(inp, tm, d.values, d.tm.vals);
  }

  lemma SettledMemory(inp: Inputs, tm: map<string, Entry>, force: bool, plan: Draft, answers: nat -> Response, pos: nat)
    requires InputsOk(inp) && Planned(inp, tm, inp.src.keys, plan) && Placed(inp, inp.src.keys, plan)
    requires Remembered(inp, tm, inp.src.keys, plan.tm.vals) && ItemsOf(inp, plan.pending)
    requires Settled(inp, force, plan, answers, pos).Ok?
    ensures var d := Settled(inp, force, plan, answers, pos).value;
      FinalMemory(inp, tm, d.values, d.tm.vals)
  {
    SettledCovers(inp, force, plan, answers, pos);
    var d := Settled(inp, force, plan, answers, pos).value;
    if inp.cfg.allowTranslate {
      var batches := Batches(plan.pending, inp.cfg.budget);
      BatchesAreGreedy(plan.pending, inp.cfg.budget);
      SettledTranslation(inp, force, plan, answers, pos);
      hide *;
      TranslateAllLearns(inp, answers, pos, batches, plan);
      OnlineMemory(inp, tm, plan, d);
    } else {
      hide FinalMemory, Remembered, Planned, Placed, InputsOk;
      OfflineMemory(inp, tm, plan, d);
    }
  }

  lemma PendingItems(inp: Inputs, plan: Draft)
    requires Sound(inp, inp.src.keys, plan)
    ensures ItemsOf(inp, plan.pending) && TmOk(plan.tm)
  {
  }

  lemma WrittenMemory(inp: Inputs, raw: string, files: Files, opts: Options, d: Draft)
    requires inp.src.Valid() && d.tm.Valid() && Conclude(inp, raw, files, opts, d).Done?
    ensures Conclude(inp, raw, files, opts, d).expected.tm == RenderTm(inp.cfg, d.tm)
  {
    hide Rebuild, NextMeta, RenderTm, PlaceholdersAgree;
  }

  /** The memory that a finished run writes, read back: under every cache key that belongs
      to no source key, what it held; under a source key's own cache key, a new entry with
      the text that the locale now has if the provider was asked, a copy of the entry for
      the same text if that was used, and otherwise what it held. Nothing is forgotten, every
      entry that changed is filed for its key, no entry contradicts the locale, a new entry
      records who translated which text, and the lines are in ascending order. */
  lemma MemoryOfRun(cfg: Config, source: Catalogue, raw: string, files: Files, opts: Options,
                    answers: nat -> Response, pos: nat)
    requires WellFormed(source) && StrictTotalOrder(cfg.less)
    requires DigestsDistinct(cfg, Flatten(source))
    requires Sync(cfg, source, raw, files, opts, answers, pos).0.Done?
    ensures var next := Sync(cfg, source, raw, files, opts, answers, pos).0.expected;
      && next.locale.Some?
      && FinalMemory(ReadInputs(cfg, source, files), LoadTm(files.tm).vals,
                     Flatten(next.locale.value).vals, LoadTm(next.tm).vals)
      && AllEntriesFit(ReadInputs(cfg, source, files), LoadTm(files.tm).vals,
                       Flatten(next.locale.value).vals, LoadTm(next.tm).vals)
      && AskedRecorded(ReadInputs(cfg, source, files), LoadTm(files.tm).vals, LoadTm(next.tm).vals)
      && Ascending(LineKeys(next.tm), cfg.less)
  {
    hide *;
    var inp, plan := PlanOf(cfg, source, files);
    var _, _ := PlanOfRun(cfg, source, files);
    var tm := LoadTm(files.tm);
    PlannedAndRemembered(inp, tm);
    PendingItems(inp, plan);
    FinishSettles(inp, raw, files, opts, plan, answers, pos);
    FailureKinds(cfg, files);
    WritesKeys();
    var d := Settled(inp, opts.force, plan, answers, pos).value;
    SettledMemory(inp, tm.vals, opts.force, plan, answers, pos);
    SettledCovers(inp, opts.force, plan, answers, pos);
    SettledTmOk(inp, opts.force, plan, answers, pos);
    SettledAgrees(inp, opts.force, plan, answers, pos);
    FinalEntriesFit(inp, tm.vals, d);
    WrittenTexts(inp, source, raw, files, opts, d);
    WrittenMemory(inp, raw, files, opts, d);
    ReloadTm(cfg, d.tm);
    LinesAscend(cfg, d.tm);
    AskedAreRecorded(inp, tm.vals, d.values, d.tm.vals);
    SameFit(inp, tm.vals, d, Conclude(inp, raw, files, opts, d).expected.locale);
    SameMemory(inp, tm.vals, d, Conclude(inp, raw, files, opts, d).expected.locale);
  }

  /** A key that the provider was asked about has an entry that records the request. */
  ghost predicate AskedRecorded(inp: Inputs, tm: map<string, Entry>, memory: map<string, Entry>) {
    forall k :: k in inp.src.keys && k in inp.src.vals && inp.cfg.allowTranslate && Known(inp, tm, k).Ask? ==>
      Lookup(memory, inp.CacheKeyOf(k)).Some? && Records(inp, k, Lookup(memory, inp.CacheKeyOf(k)).value)
  }

  predicate Records(inp: Inputs, k: string, e: Entry)
    requires k in inp.src.vals
  {
    && e.provider == inp.cfg.provider && e.model == inp.cfg.model && e.srcLang == "en"
    && e.text == inp.src.vals[k] && e.updatedAt == inp.cfg.now(k)
  }

  lemma NewRecords(inp: Inputs, k: string, text: string)
    requires k in inp.src.vals
    ensures Records(inp, k, NewEntry(inp.cfg, inp.ItemOf(k), text))
  {
    hide Inputs.CacheKeyOf, Inputs.Hash;
  }

  lemma AskedAreRecorded(inp: Inputs, tm: map<string, Entry>, values: map<string, string>, memory: map<string, Entry>)
    requires FinalMemory(inp, tm, values, memory)
    ensures AskedRecorded(inp, tm, memory)
  {
    hide Records, NewEntry, Known, Lookup, OthersKept, Inputs.CacheKeyOf, Inputs.ItemOf, PlannedEntry;
    forall k | k in inp.src.keys && k in inp.src.vals && inp.cfg.allowTranslate && Known(inp, tm, k).Ask?
      ensures Lookup(memory, inp.CacheKeyOf(k)).Some? && Records(inp, k, Lookup(memory, inp.CacheKeyOf(k)).value) {
      NewRecords(inp, k, values[k]);
      assert FinalOwn(inp, tm, memory, k, values[k]);
    }
  }

  lemma LinesAscend(cfg: Config, tm: OMap<Entry>)
    requires StrictTotalOrder(cfg.less) && TmOk(tm)
    ensures Ascending(LineKeys(RenderTm(cfg, tm)), cfg.less)
  {
    hide Blank, SortDistinct;
    var ordered := SortDistinct(tm.keys, cfg.less);
    SortAscending(tm.keys, cfg.less);
    forall i | 0 <= i < |ordered| ensures LineKeys(RenderTm(cfg, tm))[i] == ordered[i] {
      assert ordered[i] in ordered;
    }
    assert LineKeys(RenderTm(cfg, tm)) == ordered;
  }

  lemma PlannedAndRemembered(inp: Inputs, tm: OMap<Entry>)
    requires InputsOk(inp) && tm.Valid()
    ensures var plan := Plan(inp, inp.src.keys, Draft(map[], tm, [], []));
      Planned(inp, tm.vals, inp.src.keys, plan) && Remembered(inp, tm.vals, inp.src.keys, plan.tm.vals)
  {
    hide Planned, Remembered, Plan, Inputs.CacheKeyOf;
    NothingPlanned(inp, tm);
    NothingRemembered(inp, tm.vals);
    PlanIsPointwise(inp, tm.vals, [], inp.src.keys, Draft(map[], tm, [], []));
    PlanRemembers(inp, tm.vals, [], inp.src.keys, Draft(map[], tm, [], []));
    assert [] + inp.src.keys == inp.src.keys;
  }

  lemma SettledTmOk(inp: Inputs, force: bool, plan: Draft, answers: nat -> Response, pos: nat)
    requires InputsOk(inp) && Sound(inp, inp.src.keys, plan) && plan.tm.Valid()
    requires Settled(inp, force, plan, answers, pos).Ok?
    ensures TmOk(Settled(inp, force, plan, answers, pos).value.tm)
  {
    SoundParts(inp, plan);
    if inp.cfg.allowTranslate {
      hide *;
      BatchesAreGreedy(plan.pending, inp.cfg.budget);
      SettledTranslation(inp, force, plan, answers, pos);
      var batches := Batches(plan.pending, inp.cfg.budget);
      TranslateAllSound(inp, inp.src.keys, answers, pos, batches, plan);
      ExtendsInvariants(inp, inp.src.keys, plan,
                        TranslateAll(inp.cfg, answers, pos, batches, plan).0.value, Concat(batches));
    } else {
      hide TmOk, Agrees, Accounted, InputsOk, Sound, Settle;
    }
  }

  ghost predicate AllEntriesFit(
      inp: Inputs, tm: map<string, Entry>, values: map<string, string>, memory: map<string, Entry>)
  {
    forall k :: k in inp.src.keys ==> k in inp.src.vals && k in values && EntryFits(inp, tm, memory, k, values[k])
  }

  lemma FinalEntriesFit(inp: Inputs, tm: map<string, Entry>, d: Draft)
    requires InputsOk(inp) && Agrees(inp, d) && FinalMemory(inp, tm, d.values, d.tm.vals)
    ensures AllEntriesFit(inp, tm, d.values, d.tm.vals)
  {
    hide InputsOk, Agrees, FinalOwn, OthersKept, EntryFits;
    forall k | k in inp.src.keys ensures k in inp.src.vals && EntryFits(inp, tm, d.tm.vals, k, d.values[k]) {
      FinalFits(inp, tm, d, k);
    }
  }

  lemma SameFit(inp: Inputs, tm: map<string, Entry>, d: Draft, locale: Option<Catalogue>)
    requires AllEntriesFit(inp, tm, d.values, d.tm.vals) && Writes(locale, inp.src.keys, d.values)
    ensures AllEntriesFit(inp, tm, Flatten(locale.value).vals, d.tm.vals)
  {
    hide EntryFits, Flatten;
  }

  lemma SettledAgrees(inp: Inputs, force: bool, plan: Draft, answers: nat -> Response, pos: nat)
    requires InputsOk(inp) && Sound(inp, inp.src.keys, plan) && plan.tm.Valid()
    requires Settled(inp, force, plan, answers, pos).Ok?
    ensures Agrees(inp, Settled(inp, force, plan, answers, pos).value)
  {
    SoundParts(inp, plan);
    if inp.cfg.allowTranslate {
      hide *;
      BatchesAreGreedy(plan.pending, inp.cfg.budget);
      SettledTranslation(inp, force, plan, answers, pos);
      var batches := Batches(plan.pending, inp.cfg.budget);
      TranslateAllSound(inp, inp.src.keys, answers, pos, batches, plan);
      ExtendsInvariants(inp, inp.src.keys, plan,
                        TranslateAll(inp.cfg, answers, pos, batches, plan).0.value, Concat(batches));
    } else {
      OfflineSettled(inp, force, plan, answers, pos);
      SettleSound(inp, inp.src.keys, force, plan.pending, plan);
      hide TmOk, Agrees, Accounted, Offline, Settle, Settled;
    }
  }

  lemma OfflineSettled(inp: Inputs, force: bool, plan: Draft, answers: nat -> Response, pos: nat)
    requires !inp.cfg.allowTranslate
    ensures Settled(inp, force, plan, answers, pos) == Ok(Settle(inp, force, plan.pending, plan))
  {
    hide Settle;
  }

  lemma SoundParts(inp: Inputs, plan: Draft)
    requires Sound(inp, inp.src.keys, plan)
    ensures TmOk(plan.tm) && Agrees(inp, plan) && Accounted(inp, inp.src.keys, plan)
    ensures SeenItems(inp, inp.src.keys, plan.pending)
  {
    hide TmOk, Agrees, Inputs.ItemOf;
  }

  lemma SameMemory(inp: Inputs, tm: map<string, Entry>, d: Draft, locale: Option<Catalogue>)
    requires FinalMemory(inp, tm, d.values, d.tm.vals) && Writes(locale, inp.src.keys, d.values)
    ensures FinalMemory(inp, tm, Flatten(locale.value).vals, d.tm.vals)
  {
    hide FinalOwn, OthersKept, Flatten;
  }
}
