/** Which text every key ends with: a run decides key by key, from the files alone, and
    neither the order of the keys nor the texts of other keys have a say. */
module LocaleSyncTexts {
  import opened Text
  import opened Sorting
  import opened OrderedMap
  import opened CatalogueTree
  import opened TranslationBatches
  import opened BatchTranslator
  import opened LocaleSync
  import opened LocaleSyncTheorems

  function TextOf(decision: Decision): string
    requires !decision.Ask?
  {
    match decision
    case Cached(e) => e.translated
    case SameText(e) => e.translated
    case Keep(text) => text
  }

  /** What is known about a key before the run, by the memory `tm` read from disk. */
  function Known(inp: Inputs, tm: map<string, Entry>, key: string): Decision
    requires key in inp.src.vals
  {
    Decide(inp, tm, key)
  }

  // ---------- planning is pointwise ----------

  ghost predicate PlannedKey(inp: Inputs, tm: map<string, Entry>, d: Draft, k: string)
    requires k in inp.src.vals
  {
    var known := Known(inp, tm, k);
    && (if known.Ask? then k !in d.values && inp.ItemOf(k) in d.pending
        else k in d.values && d.values[k] == TextOf(known))
    && (k in d.fallback <==> k in inp.previous && (known.Cached? || known.Keep?))
  }

  ghost predicate OnlySeen(inp: Inputs, tm: map<string, Entry>, seen: seq<string>, d: Draft) {
    && (forall k :: k in d.values ==> k in seen)
    && (forall k :: k in d.fallback ==> k in seen)
    && (forall item :: item in d.pending ==>
          item.key in seen && item.key in inp.src.vals
          && item == inp.ItemOf(item.key) && Known(inp, tm, item.key).Ask?)
  }

  /** The memory still says of the keys ahead what it said at the start. */
  ghost predicate AheadUntouched(inp: Inputs, tm: map<string, Entry>, seen: seq<string>, d: Draft) {
    forall k :: k in inp.src.vals && k !in seen ==> Known(inp, d.tm.vals, k) == Known(inp, tm, k)
  }

  ghost predicate Planned(inp: Inputs, tm: map<string, Entry>, seen: seq<string>, d: Draft) {
    && (forall k :: k in seen ==> k in inp.src.vals && PlannedKey(inp, tm, d, k))
    && OnlySeen(inp, tm, seen, d)
    && AheadUntouched(inp, tm, seen, d)
  }

  lemma StepAhead(inp: Inputs, tm: map<string, Entry>, seen: seq<string>, d: Draft, key: string)
    requires InputsOk(inp) && key in inp.src.vals && AheadUntouched(inp, tm, seen, d)
    ensures AheadUntouched(inp, tm, seen + [key], PlanStep(inp, d, key))
  {
    hide Inputs.CacheKeyOf, Inputs.Hash, Inputs.ItemOf, Usable;
  }

  lemma StepSeen(inp: Inputs, tm: map<string, Entry>, seen: seq<string>, d: Draft, key: string)
    requires key in inp.src.vals && OnlySeen(inp, tm, seen, d)
    requires Known(inp, d.tm.vals, key) == Known(inp, tm, key)
    ensures OnlySeen(inp, tm, seen + [key], PlanStep(inp, d, key))
  {
    hide Inputs.CacheKeyOf, Inputs.Hash, Decide;
  }

  lemma StepKey(inp: Inputs, tm: map<string, Entry>, seen: seq<string>, d: Draft, key: string)
    requires key in inp.src.vals && key !in seen && OnlySeen(inp, tm, seen, d)
    requires Known(inp, d.tm.vals, key) == Known(inp, tm, key)
    ensures PlannedKey(inp, tm, PlanStep(inp, d, key), key)
  {
    hide Inputs.CacheKeyOf, Inputs.Hash, Inputs.ItemOf, Decide;
  }

  lemma StepOthers(inp: Inputs, tm: map<string, Entry>, d: Draft, key: string, k: string)
    requires key in inp.src.vals && k in inp.src.vals && k != key && PlannedKey(inp, tm, d, k)
    ensures PlannedKey(inp, tm, PlanStep(inp, d, key), k)
  {
    hide Inputs.CacheKeyOf, Inputs.Hash, Inputs.ItemOf, Decide;
  }

  lemma StepPlanned(inp: Inputs, tm: map<string, Entry>, seen: seq<string>, d: Draft, key: string)
    requires InputsOk(inp) && key in inp.src.vals && key !in seen && Planned(inp, tm, seen, d)
    ensures Planned(inp, tm, seen + [key], PlanStep(inp, d, key))
  {
    hide InputsOk, PlannedKey, PlanStep, OnlySeen, Known;
    StepAhead(inp, tm, seen, d, key);
    StepSeen(inp, tm, seen, d, key);
    StepKey(inp, tm, seen, d, key);
    forall k | k in seen ensures PlannedKey(inp, tm, PlanStep(inp, d, key), k) {
      StepOthers(inp, tm, d, key, k);
    }
  }

  lemma {:induction false} PlanIsPointwise(
      inp: Inputs, tm: map<string, Entry>, seen: seq<string>, keys: seq<string>, d: Draft)
    requires InputsOk(inp) && Planned(inp, tm, seen, d)
    requires forall k :: k in keys ==> k in inp.src.vals
    requires Distinct(keys) && forall k :: k in keys ==> k !in seen
    ensures Planned(inp, tm, seen + keys, Plan(inp, keys, d))
    decreases |keys|
  {
    hide InputsOk, Planned, PlanStep;
    if keys == [] {
      assert seen + keys == seen;
    } else {
      assert keys == [keys[0]] + keys[1..] && keys[0] in keys;
      DistinctTail(keys[0], keys[1..]);
      StepPlanned(inp, tm, seen, d, keys[0]);
      PlanIsPointwise(inp, tm, seen + [keys[0]], keys[1..], PlanStep(inp, d, keys[0]));
      assert seen + [keys[0]] + keys[1..] == seen + keys;
    }
  }

  // ---------- translating touches only what was asked ----------

  ghost predicate Asked(items: seq<Item>, k: string) {
    exists i :: 0 <= i < |items| && items[i].key == k
  }

  /** A stretch of the provider's answers: those from `pos` up to `end`. */
  datatype Dialogue = Dialogue(answers: nat -> Response, pos: nat, end: nat)

  /** A text that is not blank and that one of these answers gave for the key. */
  ghost predicate Supplied(dialogue: Dialogue, key: string, text: string) {
    !Blank(text) && GivenBy(dialogue.answers, dialogue.pos, dialogue.end, key, text)
  }

  /** Only keys of `items` changed, and those have a text that the provider supplied. */
  ghost predicate Filled(
      dialogue: Dialogue, before: map<string, string>, after: map<string, string>, items: seq<Item>)
  {
    && (forall k :: !Asked(items, k) ==>
          (k in after <==> k in before) && (k in before ==> after[k] == before[k]))
    && (forall k :: Asked(items, k) ==> k in after && Supplied(dialogue, k, after[k]))
  }

  lemma FilledWithin(a: Dialogue, dialogue: Dialogue, before: map<string, string>, after: map<string, string>,
                     items: seq<Item>)
    requires a.answers == dialogue.answers && dialogue.pos <= a.pos && a.end <= dialogue.end
    requires Filled(a, before, after, items)
    ensures Filled(dialogue, before, after, items)
  {
    hide Asked, Blank;
    forall k | Asked(items, k) ensures Supplied(dialogue, k, after[k]) {
      assert Supplied(a, k, after[k]);
    }
  }

  lemma FilledTwice(dialogue: Dialogue, a: map<string, string>, b: map<string, string>, c: map<string, string>,
                    x: seq<Item>, y: seq<Item>)
    requires Filled(dialogue, a, b, x) && Filled(dialogue, b, c, y)
    ensures Filled(dialogue, a, c, x + y)
  {
    hide Supplied;
    forall k ensures Asked(x + y, k) <==> Asked(x, k) || Asked(y, k) {
      if Asked(x, k) {
        var i :| 0 <= i < |x| && x[i].key == k;
        assert (x + y)[i].key == k;
      }
      if Asked(y, k) {
        var i :| 0 <= i < |y| && y[i].key == k;
        assert (x + y)[|x| + i].key == k;
      }
    }
    hide Asked;
  }

  lemma FilledOne(dialogue: Dialogue, before: map<string, string>, item: Item, value: string)
    requires Supplied(dialogue, item.key, value)
    ensures Filled(dialogue, before, before[item.key := value], [item])
  {
    hide Supplied;
    assert [item][0] == item;
  }

  lemma GivenIsSupplied(dialogue: Dialogue, translated: map<string, string>, key: string)
    requires AllGiven(dialogue.answers, dialogue.pos, dialogue.end, translated)
    requires key in translated && !Blank(translated[key])
    ensures Supplied(dialogue, key, translated[key])
  {
    hide Blank, GivenBy;
  }

  lemma {:induction false} RecordFills(
      cfg: Config, dialogue: Dialogue, translated: map<string, string>, items: seq<Item>, d: Draft)
    requires Translated(translated, items)
    requires AllGiven(dialogue.answers, dialogue.pos, dialogue.end, translated)
    ensures Filled(dialogue, d.values, Record(cfg, translated, items, d).values, items)
    ensures Record(cfg, translated, items, d).fallback == d.fallback
    decreases |items|
  {
    hide Blank, Filled, Supplied, AllGiven;
    if items == [] {
      FilledNothing(dialogue, d.values);
    } else {
      assert items[0] in items;
      var text := translated[items[0].key];
      GivenIsSupplied(dialogue, translated, items[0].key);
      hide Record;
      RecordUnfold(cfg, translated, items, d);
      var next := Recorded(cfg, d, items[0], text);
      RecordFills(cfg, dialogue, translated, items[1..], next);
      FilledOne(dialogue, d.values, items[0], text);
      FilledTwice(dialogue, d.values, next.values, Record(cfg, translated, items[1..], next).values,
                  [items[0]], items[1..]);
      assert [items[0]] + items[1..] == items;
    }
  }

  lemma {:induction false} TranslateAllFills(
      cfg: Config, answers: nat -> Response, pos: nat, batches: seq<seq<Item>>, d: Draft)
    requires TranslateAll(cfg, answers, pos, batches, d).0.Ok?
    ensures var (r, end) := TranslateAll(cfg, answers, pos, batches, d);
      && pos <= end
      && Filled(Dialogue(answers, pos, end), d.values, r.value.values, Concat(batches))
      && r.value.fallback == d.fallback
    decreases |batches|
  {
    if batches != [] {
      var one := Translate(answers, pos, batches[0], 0);
      TranslateCovers(answers, pos, batches[0], 0);
      TranslatePrompts(answers, pos, batches[0], 0);
      CoversTranslated(one.0.value, batches[0]);
      var next := Record(cfg, one.0.value, batches[0], d);
      hide Filled, Record, Translate, Covers, Translated, AllGiven;
      var (r, end) := TranslateAll(cfg, answers, one.1, batches[1..], next);
      var dialogue := Dialogue(answers, pos, end);
      RecordFills(cfg, Dialogue(answers, pos, one.1), one.0.value, batches[0], d);
      TranslateAllFills(cfg, answers, one.1, batches[1..], next);
      FilledWithin(Dialogue(answers, pos, one.1), dialogue, d.values, next.values, batches[0]);
      FilledWithin(Dialogue(answers, one.1, end), dialogue, next.values, r.value.values, Concat(batches[1..]));
      FilledTwice(dialogue, d.values, next.values, r.value.values, batches[0], Concat(batches[1..]));
    }
  }

  // ---------- falling back ----------

  /** Without existing texts, every pending key without a text gets its source text and is marked. */
  ghost predicate FellBackTo(d: Draft, r: Draft, pending: seq<Item>) {
    && (forall k :: k in d.values ==> k in r.values && r.values[k] == d.values[k])
    && (forall item :: item in pending && item.key !in d.values ==>
          item.key in r.values && r.values[item.key] == item.text && item.key in r.fallback)
    && (forall k :: k in d.fallback ==> k in r.fallback)
    && (forall k :: k in r.fallback && k !in d.fallback ==> k !in d.values && Asked(pending, k))
  }

  lemma FellBackMore(d: Draft, r: Draft, pending: seq<Item>)
    requires pending != [] && forall a, b :: a in pending && b in pending && a.key == b.key ==> a == b
    requires FellBackTo(if pending[0].key in d.values then d else FellBack(d, pending[0]), r, pending[1..])
    ensures FellBackTo(d, r, pending)
  {
    assert pending[0] in pending && forall it :: it in pending <==> it == pending[0] || it in pending[1..];
    AskedSplit(pending);
    hide Asked;
  }

  lemma {:induction false} SettleFallsBack(inp: Inputs, force: bool, pending: seq<Item>, d: Draft)
    requires forall item :: item in pending ==> item.key !in inp.existing
    requires ItemsOf(inp, pending)
    ensures FellBackTo(d, Settle(inp, force, pending, d), pending)
    decreases |pending|
  {
    if pending != [] {
      var next := if pending[0].key in d.values then d else FellBack(d, pending[0]);
      SameKeySameText(inp, pending);
      hide FellBack, Inputs.ItemOf, Settle, FellBackTo, ItemsOf;
      ItemsOfTail(inp, pending);
      SettleUnfold(inp, force, pending, d);
      SettleFallsBack(inp, force, pending[1..], next);
      FellBackMore(d, Settle(inp, force, pending, d), pending);
    }
  }

  lemma ItemsOfTail(inp: Inputs, pending: seq<Item>)
    requires pending != [] && ItemsOf(inp, pending)
    ensures ItemsOf(inp, pending[1..]) && pending[0] in pending
    ensures forall it :: it in pending[1..] ==> it in pending
  {
    hide Inputs.ItemOf;
  }

  lemma SettleUnfold(inp: Inputs, force: bool, pending: seq<Item>, d: Draft)
    requires pending != [] && pending[0].key !in inp.existing
    ensures Settle(inp, force, pending, d)
      == Settle(inp, force, pending[1..], if pending[0].key in d.values then d else FellBack(d, pending[0]))
  {
  }

  lemma SameKeySameText(inp: Inputs, pending: seq<Item>)
    requires ItemsOf(inp, pending)
    ensures forall a, b :: a in pending && b in pending && a.key == b.key ==> a == b
  {
  }

  lemma AskedSplit(pending: seq<Item>)
    requires pending != []
    ensures forall k :: Asked(pending, k) <==> k == pending[0].key || Asked(pending[1..], k)
  {
    forall k ensures Asked(pending, k) <==> k == pending[0].key || Asked(pending[1..], k) {
      if Asked(pending[1..], k) {
        var i :| 0 <= i < |pending[1..]| && pending[1..][i].key == k;
        assert pending[i + 1].key == k;
      }
      if Asked(pending, k) && k != pending[0].key {
        var i :| 0 <= i < |pending| && pending[i].key == k;
        assert pending[1..][i - 1].key == k;
      }
      assert pending[0].key == pending[0].key;
    }
  }

  // ---------- the texts of a finished run ----------

  /** The text and the mark that the decision about a key leads to. */
  ghost predicate AsDecided(
      inp: Inputs, tm: map<string, Entry>, dialogue: Dialogue, values: map<string, string>, marked: bool, k: string)
    requires k in inp.src.vals
  {
    var known := Known(inp, tm, k);
    && k in values
    && (if !known.Ask? then values[k] == TextOf(known)
        else if inp.cfg.allowTranslate then Supplied(dialogue, k, values[k])
        else values[k] == inp.src.vals[k])
    && (marked <==> !inp.cfg.allowTranslate && (known.Ask? || (k in inp.previous && !known.SameText?)))
  }

  /** The text and the mark that a finished run gives a key.
      A key not marked before: the memory under its cache key, else the existing text, else
      the memory under its text, else the provider's text or, offline, the source text and a
      mark. A marked key with a provider: the memory under its text or else the provider's
      text, and no mark. A marked key offline: the memory under its cache key, which keeps
      the mark; else the memory under its text, which clears it; else the existing or the
      source text, which keeps it. */
  ghost predicate Resolved(
      inp: Inputs, tm: map<string, Entry>, dialogue: Dialogue, values: map<string, string>, marked: bool, k: string)
    requires k in inp.src.vals
  {
    var own, online := inp.CacheKeyOf(k), inp.cfg.allowTranslate;
    var sameText := inp.Hash(k) in inp.byText;
    && k in values
    && (if k !in inp.previous then
          && (own in tm ==> values[k] == tm[own].translated)
          && (own !in tm && k in inp.existing ==> values[k] == inp.existing[k])
          && (own !in tm && k !in inp.existing && sameText ==> values[k] == inp.byText[inp.Hash(k)].translated)
          && (own !in tm && k !in inp.existing && !sameText ==>
                if online then Supplied(dialogue, k, values[k]) else values[k] == inp.src.vals[k])
          && (marked <==> !online && own !in tm && k !in inp.existing && !sameText)
        else if online then
          && (if sameText then values[k] == inp.byText[inp.Hash(k)].translated else Supplied(dialogue, k, values[k]))
          && !marked
        else
          && (own in tm ==> values[k] == tm[own].translated)
          && (own !in tm && sameText ==> values[k] == inp.byText[inp.Hash(k)].translated)
          && (own !in tm && !sameText ==>
                values[k] == if k in inp.existing then inp.existing[k] else inp.src.vals[k])
          && (marked <==> own in tm || !sameText))
  }

  lemma DecidedIsResolved(
      inp: Inputs, tm: map<string, Entry>, dialogue: Dialogue, values: map<string, string>, marked: bool, k: string)
    requires k in inp.src.vals && AsDecided(inp, tm, dialogue, values, marked, k)
    ensures Resolved(inp, tm, dialogue, values, marked, k)
  {
    hide Inputs.Hash, Inputs.CacheKeyOf, Supplied;
  }

  ghost predicate AllResolved(inp: Inputs, tm: map<string, Entry>, dialogue: Dialogue, d: Draft) {
    && (forall k :: k in inp.src.keys ==>
          k in inp.src.vals && Resolved(inp, tm, dialogue, d.values, k in d.fallback, k))
    && (forall k :: k in d.fallback ==> k in inp.src.keys)
  }

  lemma OnlineResolved(inp: Inputs, tm: map<string, Entry>, dialogue: Dialogue, plan: Draft, d: Draft)
    requires inp.cfg.allowTranslate && Planned(inp, tm, inp.src.keys, plan) && plan.fallback == []
    requires Filled(dialogue, plan.values, d.values, plan.pending) && d.fallback == plan.fallback
    ensures AllResolved(inp, tm, dialogue, d)
  {
    hide Supplied, Inputs.ItemOf, Decide, Resolved;
    forall k | k in inp.src.keys
      ensures k in inp.src.vals && Resolved(inp, tm, dialogue, d.values, k in d.fallback, k) {
      PendingAsks(inp, tm, plan, k);
      DecidedIsResolved(inp, tm, dialogue, d.values, k in d.fallback, k);
    }
  }

  /** After planning, the provider is asked exactly about the keys nothing is known of. */
  lemma PendingAsks(inp: Inputs, tm: map<string, Entry>, plan: Draft, k: string)
    requires Planned(inp, tm, inp.src.keys, plan) && k in inp.src.keys
    ensures k in inp.src.vals && (Asked(plan.pending, k) <==> Known(inp, tm, k).Ask?)
  {
    hide Decide;
    assert PlannedKey(inp, tm, plan, k);
    if Asked(plan.pending, k) {
      var i :| 0 <= i < |plan.pending| && plan.pending[i].key == k;
      assert plan.pending[i] in plan.pending;
    }
    if Known(inp, tm, k).Ask? {
      assert inp.ItemOf(k).key == k && inp.ItemOf(k) in plan.pending;
    }
  }

  lemma OfflineResolved(inp: Inputs, tm: map<string, Entry>, dialogue: Dialogue, plan: Draft, d: Draft)
    requires !inp.cfg.allowTranslate && Planned(inp, tm, inp.src.keys, plan)
    requires FellBackTo(plan, d, plan.pending)
    ensures AllResolved(inp, tm, dialogue, d)
  {
    hide Inputs.Hash, Inputs.CacheKeyOf, Resolved;
    forall k | k in inp.src.keys
      ensures k in inp.src.vals && Resolved(inp, tm, dialogue, d.values, k in d.fallback, k) {
      PendingAsks(inp, tm, plan, k);
      assert PlannedKey(inp, tm, plan, k);
      hide Decide, Asked;
      assert inp.ItemOf(k).text == inp.src.vals[k] && inp.ItemOf(k).key == k;
      DecidedIsResolved(inp, tm, dialogue, d.values, k in d.fallback, k);
    }
    forall k | k in d.fallback ensures k in inp.src.keys {
      if k !in plan.fallback {
        var i :| 0 <= i < |plan.pending| && plan.pending[i].key == k;
        assert plan.pending[i] in plan.pending;
      }
    }
  }

  /** The draft that a finished run concludes from. */
  lemma FinalTextsResolved(inp: Inputs, tm: map<string, Entry>, raw: string, files: Files, opts: Options, plan: Draft,
                           answers: nat -> Response, pos: nat) returns (d: Draft)
    requires InputsOk(inp) && Sound(inp, inp.src.keys, plan) && Planned(inp, tm, inp.src.keys, plan) && plan.tm.Valid()
    ensures d.tm.Valid()
    ensures var (outcome, end) := Finish(inp, raw, files, opts, plan, answers, pos);
      outcome.Done? ==>
        AllResolved(inp, tm, Dialogue(answers, pos, end), d) && outcome == Conclude(inp, raw, files, opts, d)
  {
    var dialogue := Dialogue(answers, pos, Finish(inp, raw, files, opts, plan, answers, pos).1);
    var batches := Batches(plan.pending, inp.cfg.budget);
    BatchesAreGreedy(plan.pending, inp.cfg.budget);
    assert ItemsOf(inp, plan.pending);
    assert inp.cfg.allowTranslate ==> plan.fallback == [];
    assert !inp.cfg.allowTranslate ==> forall item :: item in plan.pending ==> item.key !in inp.existing;
    hide InputsOk, Sound, Planned, Settle, TranslateAll, Conclude, Batches, IsProviderAuth;
    hide Filled, AllResolved, FellBackTo;
    d := plan;
    if inp.cfg.allowTranslate && plan.pending != [] {
      var translated := TranslateAll(inp.cfg, answers, pos, batches, plan).0;
      if translated.Ok? {
        TranslateAllFills(inp.cfg, answers, pos, batches, plan);
        d := translated.value;
        FilledSettles(inp, dialogue, opts.force, plan.pending, plan.values, d);
        OnlineResolved(inp, tm, dialogue, plan, d);
      }
    } else if inp.cfg.allowTranslate {
      FilledNothing(dialogue, plan.values);
      OnlineResolved(inp, tm, dialogue, plan, plan);
    } else {
      SettleFallsBack(inp, opts.force, plan.pending, plan);
      d := Settle(inp, opts.force, plan.pending, plan);
      OfflineResolved(inp, tm, dialogue, plan, d);
    }
  }

  lemma FilledNothing(dialogue: Dialogue, values: map<string, string>)
    ensures Filled(dialogue, values, values, [])
  {
  }

  lemma FilledSettles(inp: Inputs, dialogue: Dialogue, force: bool, pending: seq<Item>, before: map<string, string>,
                      d: Draft)
    requires Filled(dialogue, before, d.values, pending)
    ensures Settle(inp, force, pending, d) == d
  {
    hide Supplied;
    forall item | item in pending ensures item.key in d.values {
      var i :| 0 <= i < |pending| && pending[i] == item;
      assert Asked(pending, item.key);
    }
    SettleNothing(inp, force, pending, d);
  }

  lemma NothingPlanned(inp: Inputs, tm: OMap<Entry>)
    ensures Planned(inp, tm.vals, [], Draft(map[], tm, [], []))
  {
  }

  lemma HasText(
      inp: Inputs, tm: map<string, Entry>, dialogue: Dialogue, values: map<string, string>, marked: bool, k: string)
    requires k in inp.src.vals && Resolved(inp, tm, dialogue, values, marked, k)
    ensures k in values
  {
  }

  lemma SameTextResolved(inp: Inputs, tm: map<string, Entry>, dialogue: Dialogue, values: map<string, string>,
                         others: map<string, string>, marked: bool, k: string)
    requires k in inp.src.vals && k in values && k in others && others[k] == values[k]
    requires Resolved(inp, tm, dialogue, values, marked, k)
    ensures Resolved(inp, tm, dialogue, others, marked, k)
  {
  }

  lemma ResolvedIsWritten(inp: Inputs, tm: map<string, Entry>, dialogue: Dialogue, source: Catalogue, raw: string,
                          files: Files, opts: Options, d: Draft)
    requires WellFormed(source) && inp.src == Flatten(source) && inp.src.Valid() && d.tm.Valid()
    requires AllResolved(inp, tm, dialogue, d) && Conclude(inp, raw, files, opts, d).Done?
    ensures var next := Conclude(inp, raw, files, opts, d).expected;
      && next.locale.Some? && next.meta.Some?
      && Flatten(next.locale.value).keys == inp.src.keys
      && (forall k :: k in inp.src.keys ==> (k in inp.src.vals
            && Resolved(inp, tm, dialogue, Flatten(next.locale.value).vals, k in next.meta.value.fallbackKeys, k)))
      && (forall k :: k in next.meta.value.fallbackKeys ==> k in inp.src.keys)
  {
    hide Flatten, Rebuild, RenderTm, Resolved;
    FlattenAfterRebuild(source, FinalTexts(inp.src, d.values));
    var next := Conclude(inp, raw, files, opts, d).expected;
    assert forall k :: k in next.meta.value.fallbackKeys <==> k in d.fallback;
    var f := Flatten(next.locale.value);
    forall k | k in inp.src.keys
      ensures k in inp.src.vals && Resolved(inp, tm, dialogue, f.vals, k in next.meta.value.fallbackKeys, k) {
      HasText(inp, tm, dialogue, d.values, k in d.fallback, k);
      assert k in f.keys && f.vals[k] == d.values[k];
      SameTextResolved(inp, tm, dialogue, d.values, f.vals, k in d.fallback, k);
    }
  }

  /** A finished run, with or without a provider, gives each source key its text and mark
      from what the files held about that key alone and what the provider answered for it
      during the run; no other key is marked. */
  lemma EveryKeyResolved(cfg: Config, source: Catalogue, raw: string, files: Files, opts: Options,
                         answers: nat -> Response, pos: nat)
    requires WellFormed(source)
    requires DigestsDistinct(cfg, Flatten(source))
    requires Sync(cfg, source, raw, files, opts, answers, pos).0.Done?
    ensures var (outcome, end) := Sync(cfg, source, raw, files, opts, answers, pos);
      var next, inp, tm := outcome.expected, ReadInputs(cfg, source, files), LoadTm(files.tm).vals;
      && next.locale.Some? && next.meta.Some?
      && Flatten(next.locale.value).keys == inp.src.keys
      && (forall k :: k in inp.src.keys ==> (k in inp.src.vals
            && Resolved(inp, tm, Dialogue(answers, pos, end), Flatten(next.locale.value).vals,
                        k in next.meta.value.fallbackKeys, k)))
      && (forall k :: k in next.meta.value.fallbackKeys ==> k in inp.src.keys)
  {
    hide Flatten, ReadInputs, DigestsDistinct, Sync, Finish, Sound, InputsOk, Plan, PlanRead;
    hide Planned, Conclude, LoadTm, AllResolved, Resolved;
    var inp, plan := PlanOf(cfg, source, files);
    var tm := LoadTm(files.tm);
    NothingPlanned(inp, tm);
    PlanIsPointwise(inp, tm.vals, [], inp.src.keys, Draft(map[], tm, [], []));
    assert [] + inp.src.keys == inp.src.keys;
    var d := FinalTextsResolved(inp, tm.vals, raw, files, opts, plan, answers, pos);
    var dialogue := Dialogue(answers, pos, Finish(inp, raw, files, opts, plan, answers, pos).1);
    ResolvedIsWritten(inp, tm.vals, dialogue, source, raw, files, opts, d);
  }
}
