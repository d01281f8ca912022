/** How every run ends, from what planning leaves and what the provider answers; nothing
    here depends on the digest. */
module LocaleSyncRuns {
  import opened Text
  import opened Sorting
  import opened OrderedMap
  import opened CatalogueTree
  import opened TranslationBatches
  import opened BatchTranslator
  import opened LocaleSync
  import opened LocaleSyncTheorems
  import opened LocaleSyncTexts

  // ---------- what planning leaves, whatever the digest ----------

  /** Every key seen has a text or is pending; what is pending has no existing text unless a
      provider is there; with a provider nothing is marked. */
  ghost predicate Placed(inp: Inputs, seen: seq<string>, d: Draft) {
    && (forall k :: k in seen ==> k in inp.src.vals && (k in d.values || inp.ItemOf(k) in d.pending))
    && (forall item :: item in d.pending ==>
          item.key in inp.src.vals && (inp.cfg.allowTranslate || item.key !in inp.existing))
    && (inp.cfg.allowTranslate ==> d.fallback == [])
  }

  lemma StepPlaced(inp: Inputs, seen: seq<string>, d: Draft, key: string)
    requires key in inp.src.vals && Placed(inp, seen, d)
    ensures Placed(inp, seen + [key], PlanStep(inp, d, key))
  {
    hide Inputs.CacheKeyOf, Inputs.Hash;
  }

  lemma {:induction false} PlanPlaced(inp: Inputs, seen: seq<string>, keys: seq<string>, d: Draft)
    requires Placed(inp, seen, d) && forall k :: k in keys ==> k in inp.src.vals
    ensures Placed(inp, seen + keys, Plan(inp, keys, d))
    decreases |keys|
  {
    hide Placed, PlanStep;
    if keys == [] {
      assert seen + keys == seen;
    } else {
      assert keys[0] in keys && forall k :: k in keys[1..] ==> k in keys;
      StepPlaced(inp, seen, d, keys[0]);
      PlanPlaced(inp, seen + [keys[0]], keys[1..], PlanStep(inp, d, keys[0]));
      assert seen + [keys[0]] + keys[1..] == seen + keys;
    }
  }

  lemma NothingPlaced(inp: Inputs, tm: OMap<Entry>)
    ensures Placed(inp, [], Draft(map[], tm, [], []))
  {
  }

  /** The inputs and the plan of a run. */
  lemma PlanOfRun(cfg: Config, source: Catalogue, files: Files) returns (inp: Inputs, plan: Draft)
    requires WellFormed(source)
    ensures inp == ReadInputs(cfg, source, files) && inp.cfg == cfg && inp.src == Flatten(source) && inp.src.Valid()
    ensures plan == PlanRead(cfg, source, files) && plan.tm.Valid()
    ensures Placed(inp, inp.src.keys, plan) && |plan.pending| <= |inp.src.keys|
    ensures forall raw, opts, answers, pos ::
      Sync(cfg, source, raw, files, opts, answers, pos) == Finish(inp, raw, files, opts, plan, answers, pos)
  {
    hide Flatten, LoadTm, ReadInputs, Placed, Finish, Sync, Plan, PlanRead;
    FlattenIsLeaves(source);
    SyncFinishes(cfg, source, files);
    inp := ReadInputs(cfg, source, files);
    InputsOf(cfg, source, files);
    var start := Draft(map[], LoadTm(files.tm), [], []);
    plan := PlanRead(cfg, source, files);
    PlanIs(cfg, source, files, inp);
    NothingPlaced(inp, LoadTm(files.tm));
    PlanPlaced(inp, [], inp.src.keys, start);
    PlanPending(inp, inp.src.keys, start);
    assert [] + inp.src.keys == inp.src.keys;
  }

  /** What a run reads: the flattened source and locale, the marks of the metadata, and the
      memory of the memory file, each empty where its file is missing. */
  lemma InputsMeaning(cfg: Config, source: Catalogue, files: Files)
    ensures var inp := ReadInputs(cfg, source, files);
      && inp.cfg == cfg && inp.src == Flatten(source)
      && (files.locale.Some? ==> inp.existing == Flatten(files.locale.value).vals)
      && (files.locale.None? ==> inp.existing == map[])
      && (forall k :: k in inp.previous <==> files.meta.Some? && k in files.meta.value.fallbackKeys)
      && inp.byText == ByTextHash(cfg, LoadTm(files.tm).keys, LoadTm(files.tm).vals)
  {
    hide ByTextHash, LoadTm;
    assert Flatten(Nil).vals == map[];
    hide Flatten;
  }

  // ---------- the draft that a run settles on ----------

  /** What a run settles on after translating and falling back, or the error of translating. */
  function Settled(inp: Inputs, force: bool, plan: Draft, answers: nat -> Response, pos: nat): Result<Draft> {
    if inp.cfg.allowTranslate then
      match TranslateAll(inp.cfg, answers, pos, Batches(plan.pending, inp.cfg.budget), plan).0
      case Err(message) => Err(message)
      case Ok(d) => Ok(Settle(inp, force, plan.pending, d))
    else Ok(Settle(inp, force, plan.pending, plan))
  }

  /** Every source key has a text that mentions exactly the placeholders of the source text. */
  ghost predicate Parity(src: OMap<string>, values: map<string, string>)
    requires src.Valid()
  {
    forall k :: k in src.keys ==> k in values && Placeholders(values[k]) == Placeholders(src.vals[k])
  }

  lemma TranslationFills(inp: Inputs, force: bool, plan: Draft, answers: nat -> Response, pos: nat)
    requires inp.cfg.allowTranslate
    ensures var (t, end) := TranslateAll(inp.cfg, answers, pos, Batches(plan.pending, inp.cfg.budget), plan);
      t.Ok? ==>
        && Filled(Dialogue(answers, pos, end), plan.values, t.value.values, plan.pending)
        && t.value.fallback == plan.fallback
        && Settle(inp, force, plan.pending, t.value) == t.value
  {
    hide *;
    var batches := Batches(plan.pending, inp.cfg.budget);
    BatchesAreGreedy(plan.pending, inp.cfg.budget);
    var t := TranslateAll(inp.cfg, answers, pos, batches, plan).0;
    if t.Ok? {
      TranslateAllFills(inp.cfg, answers, pos, batches, plan);
      FilledSettles(inp, Dialogue(answers, pos, TranslateAll(inp.cfg, answers, pos, batches, plan).1),
                    force, plan.pending, plan.values, t.value);
    }
  }

  lemma FilledCovers(inp: Inputs, seen: seq<string>, dialogue: Dialogue, plan: Draft, d: Draft)
    requires Placed(inp, seen, plan) && Filled(dialogue, plan.values, d.values, plan.pending)
    ensures forall k :: k in seen ==> k in d.values
  {
    hide Inputs.CacheKeyOf, Inputs.Hash, Supplied;
    forall k | k in seen ensures k in d.values {
      if inp.ItemOf(k) in plan.pending {
        var i :| 0 <= i < |plan.pending| && plan.pending[i] == inp.ItemOf(k);
        assert plan.pending[i].key == k && Asked(plan.pending, k);
      }
    }
  }

  lemma {:induction false} SettleCovers(inp: Inputs, force: bool, pending: seq<Item>, d: Draft)
    ensures forall k :: k in d.values ==> k in Settle(inp, force, pending, d).values
    ensures forall item :: item in pending ==> item.key in Settle(inp, force, pending, d).values
    decreases |pending|
  {
    if pending != [] {
      var item := pending[0];
      var next :=
        if item.key in d.values then d
        else if item.key in inp.existing && !force then
          d.(values := d.values[item.key := inp.existing[item.key]], fallback := Remember(d, inp, item.key))
        else FellBack(d, item);
      SettleCovers(inp, force, pending[1..], next);
      assert forall it :: it in pending <==> it == item || it in pending[1..];
    }
  }

  /** Whatever a run settles on has a text for every source key, and with a provider no mark. */
  lemma SettledCovers(inp: Inputs, force: bool, plan: Draft, answers: nat -> Response, pos: nat)
    requires Placed(inp, inp.src.keys, plan) && Settled(inp, force, plan, answers, pos).Ok?
    ensures var d := Settled(inp, force, plan, answers, pos).value;
      && (forall k :: k in inp.src.keys ==> k in d.values)
      && (inp.cfg.allowTranslate ==> d.fallback == [])
  {
    hide Settle, TranslateAll, Batches, Filled;
    if inp.cfg.allowTranslate {
      var (t, end) := TranslateAll(inp.cfg, answers, pos, Batches(plan.pending, inp.cfg.budget), plan);
      TranslationFills(inp, force, plan, answers, pos);
      FilledCovers(inp, inp.src.keys, Dialogue(answers, pos, end), plan, t.value);
    } else {
      SettleCovers(inp, force, plan.pending, plan);
      assert forall k :: k in inp.src.keys ==> k in plan.values || inp.ItemOf(k).key == k;
    }
  }

  // ---------- how a run ends ----------

  lemma NothingToTranslate(cfg: Config, answers: nat -> Response, pos: nat, plan: Draft)
    requires plan.pending == []
    ensures TranslateAll(cfg, answers, pos, Batches(plan.pending, cfg.budget), plan) == (Ok(plan), pos)
  {
  }

  lemma TranslationFails(cfg: Config, answers: nat -> Response, pos: nat, plan: Draft)
    ensures var (translated, end) := TranslateAll(cfg, answers, pos, Batches(plan.pending, cfg.budget), plan);
      translated.Err? ==> pos < end && FailsWith(answers, end - 1, plan.pending, translated.message)
  {
    hide *;
    var batches := Batches(plan.pending, cfg.budget);
    BatchesAreGreedy(plan.pending, cfg.budget);
    if TranslateAll(cfg, answers, pos, batches, plan).0.Err? {
      TranslateAllFails(cfg, answers, pos, batches, plan);
    }
  }

  /** How failing to translate ends a run: with an authentication error and the opt-in it
      skips, without writing; otherwise it throws the error. */
  function TranslationFailure(cfg: Config, files: Files, message: string): Outcome {
    if cfg.authOptional && IsProviderAuth(message) then Skipped(|PreviousFallbacks(files)|)
    else Threw(Untranslated(message))
  }

  lemma FailureKinds(cfg: Config, files: Files)
    ensures forall message ::
      var outcome := TranslationFailure(cfg, files, message);
      && !outcome.Done?
      && (outcome.Skipped? <==> cfg.authOptional && IsProviderAuth(message))
      && (!outcome.Skipped? ==> outcome == Threw(Untranslated(message)))
  {
    hide IsProviderAuth;
  }

  lemma FinishSettles(inp: Inputs, raw: string, files: Files, opts: Options, plan: Draft,
                      answers: nat -> Response, pos: nat)
    requires inp.src.Valid() && plan.tm.Valid()
    ensures var outcome := Finish(inp, raw, files, opts, plan, answers, pos).0;
      var settled := Settled(inp, opts.force, plan, answers, pos);
      if settled.Err? then outcome == TranslationFailure(inp.cfg, files, settled.message)
      else settled.value.tm.Valid() && outcome == Conclude(inp, raw, files, opts, settled.value)
    ensures inp.cfg.allowTranslate ==>
      Finish(inp, raw, files, opts, plan, answers, pos).1
        == TranslateAll(inp.cfg, answers, pos, Batches(plan.pending, inp.cfg.budget), plan).1
    ensures !inp.cfg.allowTranslate ==> Finish(inp, raw, files, opts, plan, answers, pos).1 == pos
  {
    hide TranslateAll, Batches, IsProviderAuth, Settle, Conclude;
    if plan.pending == [] {
      NothingToTranslate(inp.cfg, answers, pos, plan);
    }
  }

  lemma ConcludeByParity(inp: Inputs, raw: string, files: Files, opts: Options, d: Draft)
    requires inp.src.Valid() && d.tm.Valid() && forall k :: k in inp.src.keys ==> k in d.values
    ensures Conclude(inp, raw, files, opts, d).Done? <==> Parity(inp.src, d.values)
    ensures Conclude(inp, raw, files, opts, d) == Threw(PlaceholderMismatch) <==> !Parity(inp.src, d.values)
  {
    hide Placeholders, Expected;
  }

  /** The locale holds exactly these keys, in this order, with these texts. */
  ghost predicate Writes(locale: Option<Catalogue>, keys: seq<string>, texts: map<string, string>) {
    && locale.Some? && Flatten(locale.value).keys == keys
    && forall k :: k in keys ==>
         k in texts && k in Flatten(locale.value).vals && Flatten(locale.value).vals[k] == texts[k]
  }

  lemma WritesKeys()
    ensures forall locale, keys, texts :: Writes(locale, keys, texts) ==>
      locale.Some? && Flatten(locale.value).keys == keys
  {
    hide Flatten;
  }

  lemma WrittenTexts(inp: Inputs, source: Catalogue, raw: string, files: Files, opts: Options, d: Draft)
    requires WellFormed(source) && inp.src == Flatten(source) && inp.src.Valid() && d.tm.Valid()
    requires forall k :: k in inp.src.keys ==> k in d.values
    requires Conclude(inp, raw, files, opts, d).Done?
    ensures Writes(Conclude(inp, raw, files, opts, d).expected.locale, inp.src.keys, d.values)
  {
    hide Flatten, Rebuild, RenderTm, NextMeta, PlaceholdersAgree;
    FlattenAfterRebuild(source, FinalTexts(inp.src, d.values));
  }

  /** How a run ends, with or without a provider. Translating fails: it skips without writing
      if that was an authentication error and skipping was opted into, and throws the error
      otherwise. Translating succeeds or is not needed: every source key has a text, and the
      run finishes exactly when each text mentions the placeholders of its source text, and
      throws the mismatch otherwise. A finished run writes those texts under the source's
      keys, in source order. */
  lemma HowRunsEnd(cfg: Config, source: Catalogue, raw: string, files: Files, opts: Options,
                   answers: nat -> Response, pos: nat)
    requires WellFormed(source)
    ensures Flatten(source).Valid()
    ensures var outcome := Sync(cfg, source, raw, files, opts, answers, pos).0;
      var settled :=
        Settled(ReadInputs(cfg, source, files), opts.force, PlanRead(cfg, source, files), answers, pos);
      if settled.Err? then outcome == TranslationFailure(cfg, files, settled.message)
      else
        var texts := settled.value.values;
        && (forall k :: k in Flatten(source).keys ==> k in texts)
        && (outcome.Done? <==> Parity(Flatten(source), texts))
        && (outcome == Threw(PlaceholderMismatch) <==> !Parity(Flatten(source), texts))
        && (outcome.Done? ==> Writes(outcome.expected.locale, Flatten(source).keys, texts))
  {
    FlattenIsLeaves(source);
    hide *;
    var inp, plan := PlanOfRun(cfg, source, files);
    FinishSettles(inp, raw, files, opts, plan, answers, pos);
    var settled := Settled(inp, opts.force, plan, answers, pos);
    if settled.Ok? {
      SettledCovers(inp, opts.force, plan, answers, pos);
      ConcludeByParity(inp, raw, files, opts, settled.value);
      if Conclude(inp, raw, files, opts, settled.value).Done? {
        WrittenTexts(inp, source, raw, files, opts, settled.value);
      }
    }
  }

  /** A locale that a run writes mentions, under every key, exactly the placeholders that the
      source text mentions. */
  lemma PlaceholdersKept(cfg: Config, source: Catalogue, raw: string, files: Files, opts: Options,
                         answers: nat -> Response, pos: nat)
    requires WellFormed(source)
    requires Sync(cfg, source, raw, files, opts, answers, pos).0.Done?
    ensures Flatten(source).Valid()
    ensures var next := Sync(cfg, source, raw, files, opts, answers, pos).0.expected;
      next.locale.Some? && Parity(Flatten(source), Flatten(next.locale.value).vals)
  {
    hide Flatten, Sync, Settled, PlanRead, ReadInputs, IsProviderAuth, Placeholders;
    HowRunsEnd(cfg, source, raw, files, opts, answers, pos);
  }

  /** The metadata written: what the run was about, how many keys are translated, and the
      time of the last run that found any of this changed. */
  ghost predicate Describes(cfg: Config, raw: string, files: Files, keys: seq<string>, meta: Meta) {
    && meta.locale == cfg.locale && meta.sourceHash == cfg.sha(raw) && meta.workflow == WORKFLOW
    && meta.totalKeys == |keys| && meta.translatedKeys + |meta.fallbackKeys| == |keys|
    && Ascending(meta.fallbackKeys, cfg.less)
    && (cfg.allowTranslate ==> meta.provider == cfg.provider && meta.model == cfg.model)
    && (!cfg.allowTranslate ==>
          && meta.provider == (if files.meta.Some? then files.meta.value.provider else "")
          && meta.model == (if files.meta.Some? then files.meta.value.model else ""))
    && (if files.meta.Some? && files.meta.value.(generatedAt := meta.generatedAt) == meta
        then meta == files.meta.value else meta.generatedAt == cfg.now(""))
  }

  lemma MetaDescribes(inp: Inputs, raw: string, files: Files, fallback: seq<string>)
    requires StrictTotalOrder(inp.cfg.less)
    ensures Describes(inp.cfg, raw, files, inp.src.keys, NextMeta(inp, raw, files, fallback))
  {
    SortAscending(fallback, inp.cfg.less);
    hide SortDistinct, Ascending;
  }

  /** What a finished run reports and leaves: it writes exactly when it may and something
      changed, it changes nothing otherwise, and its metadata describes it. */
  lemma WhatIsWritten(cfg: Config, source: Catalogue, raw: string, files: Files, opts: Options,
                      answers: nat -> Response, pos: nat)
    requires WellFormed(source) && StrictTotalOrder(cfg.less)
    requires Sync(cfg, source, raw, files, opts, answers, pos).0.Done?
    ensures var outcome := Sync(cfg, source, raw, files, opts, answers, pos).0;
      && (outcome.changed <==> outcome.expected != files)
      && (outcome.wrote <==> outcome.changed && opts.write && !opts.checkOnly)
      && outcome.files == (if outcome.wrote then outcome.expected else files)
      && outcome.expected.meta.Some? && outcome.expected.glossary.Some?
      && Describes(cfg, raw, files, Flatten(source).keys, outcome.expected.meta.value)
      && outcome.fallbackCount == |outcome.expected.meta.value.fallbackKeys|
      && outcome.expected.glossary ==
           (if files.glossary.Some? && files.glossary.value != [] then files.glossary else Some(DEFAULT_GLOSSARY))
  {
    hide Flatten, ReadInputs, PlanRead, Sync, Finish, Settled, Placed, PlaceholdersAgree, NextMeta, Describes,
         RenderTm, Rebuild, TranslationFailure;
    var inp, plan := PlanOfRun(cfg, source, files);
    FinishSettles(inp, raw, files, opts, plan, answers, pos);
    FailureKinds(cfg, files);
    var settled := Settled(inp, opts.force, plan, answers, pos);
    if settled.Ok? {
      MetaDescribes(inp, raw, files, settled.value.fallback);
    }
  }

  // ---------- the flag that decides nothing ----------

  lemma {:induction false} SettleForce(inp: Inputs, pending: seq<Item>, d: Draft)
    requires forall item :: item in pending ==> item.key in d.values || item.key !in inp.existing
    ensures Settle(inp, true, pending, d) == Settle(inp, false, pending, d)
    decreases |pending|
  {
    if pending != [] {
      var item := pending[0];
      var next := if item.key in d.values then d else FellBack(d, item);
      assert forall it :: it in pending[1..] ==> it in pending;
      SettleForce(inp, pending[1..], next);
    }
  }

  /** Online, every pending key is translated before the fallback loop runs; offline, a
      pending key has no existing text. So the flag that guards existing texts decides nothing. */
  lemma PendingLeavesNoChoice(inp: Inputs, plan: Draft, answers: nat -> Response, pos: nat)
    requires Placed(inp, inp.src.keys, plan)
    ensures Settled(inp, true, plan, answers, pos) == Settled(inp, false, plan, answers, pos)
  {
    hide TranslateAll, Batches, Filled, Settle;
    if inp.cfg.allowTranslate {
      TranslationFills(inp, true, plan, answers, pos);
      TranslationFills(inp, false, plan, answers, pos);
    } else {
      SettleForce(inp, plan.pending, plan);
    }
  }

  lemma ConcludeIgnoresForce(inp: Inputs, raw: string, files: Files, checkOnly: bool, write: bool, d: Draft)
    requires inp.src.Valid() && d.tm.Valid()
    ensures Conclude(inp, raw, files, Options(checkOnly, true, write), d)
         == Conclude(inp, raw, files, Options(checkOnly, false, write), d)
  {
    hide PlaceholdersAgree, Expected;
  }

  /** The force flag changes nothing a run does. */
  lemma ForceChangesNothing(cfg: Config, source: Catalogue, raw: string, files: Files,
                            checkOnly: bool, write: bool, answers: nat -> Response, pos: nat)
    requires WellFormed(source)
    ensures Sync(cfg, source, raw, files, Options(checkOnly, true, write), answers, pos)
         == Sync(cfg, source, raw, files, Options(checkOnly, false, write), answers, pos)
  {
    hide *;
    var inp, plan := PlanOfRun(cfg, source, files);
    var on, off := Options(checkOnly, true, write), Options(checkOnly, false, write);
    FinishSettles(inp, raw, files, on, plan, answers, pos);
    FinishSettles(inp, raw, files, off, plan, answers, pos);
    PendingLeavesNoChoice(inp, plan, answers, pos);
    var settled := Settled(inp, true, plan, answers, pos);
    if settled.Ok? {
      ConcludeIgnoresForce(inp, raw, files, checkOnly, write, settled.value);
    }
  }

  // ---------- runs with a provider ----------

  lemma {:induction false} TranslateAllPrompts(
      cfg: Config, answers: nat -> Response, pos: nat, batches: seq<seq<Item>>, d: Draft)
    requires forall i :: 0 <= i < |batches| ==> batches[i] != []
    ensures pos <= TranslateAll(cfg, answers, pos, batches, d).1 <= pos + 4 * |Concat(batches)|
    decreases |batches|
  {
    if batches != [] {
      hide Translate, Record;
      TranslatePrompts(answers, pos, batches[0], 0);
      var one := Translate(answers, pos, batches[0], 0);
      if one.0.Ok? {
        TranslateAllPrompts(cfg, answers, one.1, batches[1..], Record(cfg, one.0.value, batches[0], d));
      }
    }
  }

  lemma {:induction false} TranslateAllFails(
      cfg: Config, answers: nat -> Response, pos: nat, batches: seq<seq<Item>>, d: Draft)
    requires TranslateAll(cfg, answers, pos, batches, d).0.Err?
    ensures var (r, end) := TranslateAll(cfg, answers, pos, batches, d);
      pos < end && FailsWith(answers, end - 1, Concat(batches), r.message)
    decreases |batches|
  {
    hide Translate, Record, FailsWith;
    var one := Translate(answers, pos, batches[0], 0);
    var all, n := Concat(batches), |batches[0]|;
    assert all[0..n] == batches[0] && all[n..|all|] == Concat(batches[1..]);
    TranslatePrompts(answers, pos, batches[0], 0);
    var (r, end) := TranslateAll(cfg, answers, pos, batches, d);
    if one.0.Err? {
      TranslateFails(answers, pos, batches[0], 0);
      FailsInPart(answers, end - 1, all, 0, n, r.message);
    } else {
      TranslateAllFails(cfg, answers, one.1, batches[1..], Record(cfg, one.0.value, batches[0], d));
      FailsInPart(answers, end - 1, all, n, |all|, r.message);
    }
  }

  /** What translating the pending keys of a run comes to, and where it ends. */
  function Translation(cfg: Config, source: Catalogue, files: Files, answers: nat -> Response, pos: nat)
      : (Result<Draft>, nat)
    requires WellFormed(source)
  {
    var plan := PlanRead(cfg, source, files);
    TranslateAll(cfg, answers, pos, Batches(plan.pending, cfg.budget), plan)
  }

  lemma PromptsOfRun(inp: Inputs, answers: nat -> Response, pos: nat, plan: Draft)
    ensures pos <= TranslateAll(inp.cfg, answers, pos, Batches(plan.pending, inp.cfg.budget), plan).1
                <= pos + 4 * |plan.pending|
  {
    BatchesAreGreedy(plan.pending, inp.cfg.budget);
    hide Batches, TranslateAll;
    TranslateAllPrompts(inp.cfg, answers, pos, Batches(plan.pending, inp.cfg.budget), plan);
  }

  lemma UnmarkedMeta(inp: Inputs, raw: string, files: Files, opts: Options, d: Draft)
    requires inp.src.Valid() && d.tm.Valid() && d.fallback == []
    requires Conclude(inp, raw, files, opts, d).Done?
    ensures var r := Conclude(inp, raw, files, opts, d);
      && r.fallbackCount == 0
      && r.expected.meta.Some?
      && r.expected.meta.value.fallbackKeys == []
      && r.expected.meta.value.translatedKeys == |inp.src.keys|
  {
    hide Rebuild, RenderTm, PlaceholdersAgree;
  }

  lemma SettledTranslation(inp: Inputs, force: bool, plan: Draft, answers: nat -> Response, pos: nat)
    requires inp.cfg.allowTranslate
    ensures Settled(inp, force, plan, answers, pos)
      == TranslateAll(inp.cfg, answers, pos, Batches(plan.pending, inp.cfg.budget), plan).0
  {
    hide TranslateAll, Batches, Filled, Settle;
    TranslationFills(inp, force, plan, answers, pos);
  }

  lemma TranslationOf(cfg: Config, source: Catalogue, files: Files, answers: nat -> Response, pos: nat)
    requires WellFormed(source)
    ensures var plan := PlanRead(cfg, source, files);
      Translation(cfg, source, files, answers, pos)
        == TranslateAll(cfg, answers, pos, Batches(plan.pending, cfg.budget), plan)
  {
    hide TranslateAll, Batches, PlanRead;
  }

  /** How a run with a provider ends: it skips without writing exactly when translating
      failed with an authentication error and skipping was opted into; it throws the error
      exactly when translating failed otherwise, and the error is what the last answer
      consumed came to; it throws a mismatch exactly when translating succeeded and some text
      does not mention the placeholders of its source text; and exactly otherwise it
      finishes, with no fallback key. It never sends more than four prompts for each source
      key. */
  lemma ProviderRun(cfg: Config, source: Catalogue, raw: string, files: Files, opts: Options,
                    answers: nat -> Response, pos: nat)
    requires WellFormed(source) && cfg.allowTranslate
    ensures Flatten(source).Valid()
    ensures var (outcome, end) := Sync(cfg, source, raw, files, opts, answers, pos);
      var (translated, end') := Translation(cfg, source, files, answers, pos);
      && end == end' && pos <= end <= pos + 4 * |Flatten(source).keys|
      && (outcome.Skipped? <==>
            translated.Err? && cfg.authOptional && IsProviderAuth(translated.message))
      && (outcome.Threw? && outcome.failure.Untranslated? <==>
            translated.Err? && !(cfg.authOptional && IsProviderAuth(translated.message)))
      && (outcome.Threw? && outcome.failure.Untranslated? ==> outcome.failure.message == translated.message)
      && (translated.Err? ==>
            pos < end && FailsWith(answers, end - 1, PlanRead(cfg, source, files).pending, translated.message))
      && (outcome == Threw(PlaceholderMismatch) <==>
            translated.Ok? && !Parity(Flatten(source), translated.value.values))
      && (outcome.Done? <==> translated.Ok? && Parity(Flatten(source), translated.value.values))
      && (outcome.Done? ==>
            && outcome.fallbackCount == 0
            && outcome.expected.meta.Some? && outcome.expected.locale.Some?
            && outcome.expected.meta.value.fallbackKeys == []
            && outcome.expected.meta.value.translatedKeys == |Flatten(source).keys|
            && Flatten(outcome.expected.locale.value).keys == Flatten(source).keys)
  {
    hide *;
    HowRunsEnd(cfg, source, raw, files, opts, answers, pos);
    FailureKinds(cfg, files);
    WritesKeys();
    TranslationOf(cfg, source, files, answers, pos);
    var inp, plan := PlanOfRun(cfg, source, files);
    PromptsOfRun(inp, answers, pos, plan);
    TranslationFails(cfg, answers, pos, plan);
    SettledTranslation(inp, opts.force, plan, answers, pos);
    FinishSettles(inp, raw, files, opts, plan, answers, pos);
    var settled := Settled(inp, opts.force, plan, answers, pos);
    if settled.Ok? {
      SettledCovers(inp, opts.force, plan, answers, pos);
      if Conclude(inp, raw, files, opts, settled.value).Done? {
        UnmarkedMeta(inp, raw, files, opts, settled.value);
      }
    }
  }
}
