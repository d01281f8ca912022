/** Synchronising one locale with the source catalogue.
    scripts/control-ui-i18n.ts, syncLocale and its translation memory. */
module LocaleSync {
  import opened Text
  import opened Words
  import opened Sorting
  import opened OrderedMap
  import opened CatalogueTree
  import opened TranslationBatches
  import opened BatchTranslator

  // ---------- data ----------

  const WORKFLOW := 1
  const SOURCE_LOCALE := "en"

  datatype Entry = Entry(
    cacheKey: string, model: string, provider: string, segmentId: string, sourcePath: string,
    srcLang: string, text: string, textHash: string, tgtLang: string, translated: string, updatedAt: string)

  datatype Meta = Meta(
    fallbackKeys: seq<string>, generatedAt: string, locale: string, model: string, provider: string,
    sourceHash: string, totalKeys: int, translatedKeys: int, workflow: int)

  datatype Term = Term(source: string, target: string)

  /** What the four files of a locale hold; a missing memory file reads as no lines. */
  datatype Files = Files(
    locale: Option<Catalogue>, meta: Option<Meta>, glossary: Option<seq<Term>>, tm: seq<Entry>)

  /** The environment of a run: locale entry, provider settings, digest, collation, clock. */
  datatype Config = Config(
    locale: string, sourcePath: string, namespace: string, provider: string, model: string,
    allowTranslate: bool, authOptional: bool, budget: nat,
    sha: string -> string, less: (string, string) -> bool, now: string -> string)

  datatype Options = Options(checkOnly: bool, force: bool, write: bool)

  datatype Failure = PlaceholderMismatch | Untranslated(message: string)

  datatype Outcome =
    | Threw(failure: Failure)
    | Skipped(fallbackCount: nat)
    | Done(changed: bool, fallbackCount: nat, wrote: bool, expected: Files, files: Files)

  const DEFAULT_GLOSSARY: seq<Term> := [
    Term("OpenClaw", "OpenClaw"), Term("Gateway", "Gateway"), Term("Control UI", "Control UI"),
    Term("Skills", "Skills"), Term("Tailscale", "Tailscale"), Term("WhatsApp", "WhatsApp"),
    Term("Telegram", "Telegram"), Term("Discord", "Discord"), Term("Signal", "Signal"),
    Term("iMessage", "iMessage")]

  // ---------- digests ----------

  function HashText(cfg: Config, text: string): string {
    cfg.sha(NormalizeText(text))
  }

  function CachePreimage(cfg: Config, key: string, textHash: string): string {
    cfg.namespace + "|" + SOURCE_LOCALE + "|" + cfg.locale + "|" + key + "|" + textHash
  }

  function CacheKey(cfg: Config, key: string, textHash: string): string {
    cfg.sha(CachePreimage(cfg, key, textHash))
  }

  // ---------- translation memory ----------

  function AddLine(tm: OMap<Entry>, line: Entry): (r: OMap<Entry>)
    ensures tm.Valid() ==> r.Valid()
  {
    if line.cacheKey != "" && !Blank(line.translated) then tm.Set(line.cacheKey, line) else tm
  }

  function LoadTm(lines: seq<Entry>): (r: OMap<Entry>)
    ensures r.Valid()
  {
    if lines == [] then OMap([], map[])
    else AddLine(LoadTm(lines[..|lines| - 1]), lines[|lines| - 1])
  }

  function RenderTm(cfg: Config, tm: OMap<Entry>): seq<Entry>
    requires tm.Valid()
  {
    var ordered := SortDistinct(tm.keys, cfg.less);
    seq(|ordered|, i requires 0 <= i < |ordered| => assert ordered[i] in ordered; tm.vals[ordered[i]])
  }

  predicate Usable(cfg: Config, e: Entry) {
    e.tgtLang == cfg.locale && e.textHash != "" && !Blank(e.translated)
  }

  /** buildTranslationMemoryByTextHash: the last usable entry wins. */
  function ByTextHash(cfg: Config, keys: seq<string>, vals: map<string, Entry>): (r: map<string, Entry>)
    requires forall k :: k in keys ==> k in vals
    ensures forall h :: h in r ==> r[h].textHash == h && Usable(cfg, r[h])
    ensures forall k :: k in keys && Usable(cfg, vals[k]) ==> vals[k].textHash in r
  {
    if keys == [] then map[]
    else
      var n := |keys| - 1;
      var e := vals[keys[n]];
      var init := ByTextHash(cfg, keys[..n], vals);
      assert forall k :: k in keys ==> k in keys[..n] || k == keys[n];
      if Usable(cfg, e) then init[e.textHash := e] else init
  }

  // ---------- planning ----------

  datatype Inputs = Inputs(
    cfg: Config, src: OMap<string>, existing: map<string, string>, previous: set<string>,
    byText: map<string, Entry>)
  {
    function Hash(key: string): string
      requires key in src.vals
    {
      HashText(cfg, src.vals[key])
    }

    function CacheKeyOf(key: string): string
      requires key in src.vals
    {
      CacheKey(cfg, key, Hash(key))
    }

    function ItemOf(key: string): Item
      requires key in src.vals
    {
      Item(CacheKeyOf(key), key, src.vals[key], Hash(key))
    }
  }

  /** The local state of a run: texts so far, memory, keys to translate, fallback keys. */
  datatype Draft = Draft(values: map<string, string>, tm: OMap<Entry>, pending: seq<Item>, fallback: seq<string>)

  datatype Decision = Cached(entry: Entry) | SameText(entry: Entry) | Keep(text: string) | Ask

  function Decide(inp: Inputs, tm: map<string, Entry>, key: string): Decision
    requires key in inp.src.vals
  {
    var refresh := key in inp.previous;
    if inp.CacheKeyOf(key) in tm && !(inp.cfg.allowTranslate && refresh) then Cached(tm[inp.CacheKeyOf(key)])
    else if inp.Hash(key) in inp.byText && (refresh || key !in inp.existing) then SameText(inp.byText[inp.Hash(key)])
    else if key in inp.existing && !(inp.cfg.allowTranslate && refresh) then Keep(inp.existing[key])
    else Ask
  }

  function Copied(inp: Inputs, e: Entry, key: string): Entry
    requires key in inp.src.vals
  {
    e.(cacheKey := inp.CacheKeyOf(key), segmentId := key, sourcePath := inp.cfg.sourcePath)
  }

  function Remember(d: Draft, inp: Inputs, key: string): seq<string> {
    if key in inp.previous then d.fallback + [key] else d.fallback
  }

  function PlanStep(inp: Inputs, d: Draft, key: string): (r: Draft)
    requires key in inp.src.vals
    ensures d.tm.Valid() ==> r.tm.Valid()
  {
    match Decide(inp, d.tm.vals, key)
    case Cached(e) => d.(values := d.values[key := e.translated], fallback := Remember(d, inp, key))
    case SameText(e) =>
      d.(values := d.values[key := e.translated], tm := d.tm.Set(inp.CacheKeyOf(key), Copied(inp, e, key)))
    case Keep(text) => d.(values := d.values[key := text], fallback := Remember(d, inp, key))
    case Ask => d.(pending := d.pending + [inp.ItemOf(key)])
  }

  function Plan(inp: Inputs, keys: seq<string>, d: Draft): (r: Draft)
    requires forall k :: k in keys ==> k in inp.src.vals
    ensures d.tm.Valid() ==> r.tm.Valid()
    decreases |keys|
  {
    if keys == [] then d else Plan(inp, keys[1..], PlanStep(inp, d, keys[0]))
  }

  // ---------- translating ----------

  function NewEntry(cfg: Config, item: Item, value: string): Entry {
    Entry(item.cacheKey, cfg.model, cfg.provider, item.key, cfg.sourcePath, SOURCE_LOCALE,
          item.text, item.textHash, cfg.locale, value, cfg.now(item.key))
  }

  /** Recording a translated batch; a missing or empty text would be passed over. */
  function Record(cfg: Config, translated: map<string, string>, items: seq<Item>, d: Draft): (r: Draft)
    ensures d.tm.Valid() ==> r.tm.Valid()
    decreases |items|
  {
    if items == [] then d
    else
      var item := items[0];
      var next :=
        if item.key !in translated || translated[item.key] == "" then d
        else d.(values := d.values[item.key := translated[item.key]],
                tm := d.tm.Set(item.cacheKey, NewEntry(cfg, item, translated[item.key])));
      Record(cfg, translated, items[1..], next)
  }

  function TranslateAll(cfg: Config, answers: nat -> Response, pos: nat, batches: seq<seq<Item>>, d: Draft)
      : (r: (Result<Draft>, nat))
    ensures d.tm.Valid() && r.0.Ok? ==> r.0.value.tm.Valid()
    decreases |batches|
  {
    if batches == [] then (Ok(d), pos)
    else
      var (one, pos') := Translate(answers, pos, batches[0], 0);
      match one
      case Err(message) => (Err(message), pos')
      case Ok(translated) =>
        TranslateAll(cfg, answers, pos', batches[1..], Record(cfg, translated, batches[0], d))
  }

  // ---------- falling back ----------

  function Settle(inp: Inputs, force: bool, pending: seq<Item>, d: Draft): (r: Draft)
    ensures r.tm == d.tm
    decreases |pending|
  {
    if pending == [] then d
    else
      var item := pending[0];
      var next :=
        if item.key in d.values then d
        else if item.key in inp.existing && !force then
          d.(values := d.values[item.key := inp.existing[item.key]], fallback := Remember(d, inp, item.key))
        else d.(values := d.values[item.key := item.text], fallback := d.fallback + [item.key]);
      Settle(inp, force, pending[1..], next)
  }

  // ---------- placeholders ----------

  predicate IsWordChar(c: char) {
    'a' <= c <= 'z' || 'A' <= c <= 'Z' || '0' <= c <= '9' || c == '_'
  }

  /** The names in braces that a text mentions. */
  function Placeholders(text: string): set<string> {
    set i, j | 1 <= i < j < |text| && NameBetween(text, i, j) :: text[i..j]
  }

  predicate NameBetween(text: string, i: nat, j: nat)
    requires 1 <= i < j < |text|
  {
    text[i - 1] == '{' && text[j] == '}' && forall k | i <= k < j :: IsWordChar(text[k])
  }

  predicate PlaceholdersAgree(inp: Inputs, values: map<string, string>) {
    forall k | k in inp.src.keys ::
      k in inp.src.vals ==>
        Placeholders(inp.src.vals[k]) == Placeholders(if k in values then values[k] else "")
  }

  // ---------- the whole run ----------

  function FinalTexts(src: OMap<string>, values: map<string, string>): map<string, string>
    requires src.Valid()
  {
    map k | k in src.vals :: if k in values then values[k] else src.vals[k]
  }

  function ToSet(s: seq<string>): set<string> {
    set x | x in s
  }

  function PreviousFallbacks(files: Files): seq<string> {
    if files.meta.Some? then files.meta.value.fallbackKeys else []
  }

  function ReadInputs(cfg: Config, source: Catalogue, files: Files): Inputs {
    var existing := if files.locale.Some? then files.locale.value else Nil;
    var tm := LoadTm(files.tm);
    Inputs(cfg, Flatten(source), Flatten(existing).vals, ToSet(PreviousFallbacks(files)),
           ByTextHash(cfg, tm.keys, tm.vals))
  }

  function NextMeta(inp: Inputs, raw: string, files: Files, fallback: seq<string>): Meta {
    var cfg := inp.cfg;
    var sorted := SortDistinct(fallback, cfg.less);
    var provider := if cfg.allowTranslate then cfg.provider
      else if files.meta.Some? then files.meta.value.provider else "";
    var model := if cfg.allowTranslate then cfg.model
      else if files.meta.Some? then files.meta.value.model else "";
    var total := |inp.src.keys|;
    var next := Meta(sorted, cfg.now(""), cfg.locale, model, provider, cfg.sha(raw), total, total - |sorted|, WORKFLOW);
    if files.meta.Some? && files.meta.value.(generatedAt := next.generatedAt) == next then files.meta.value else next
  }

  function Expected(inp: Inputs, raw: string, files: Files, d: Draft): Files
    requires inp.src.Valid() && d.tm.Valid()
  {
    var glossary := if files.glossary.Some? then files.glossary.value else [];
    Files(
      Some(Rebuild(inp.src.keys, FinalTexts(inp.src, d.values), Nil)),
      Some(NextMeta(inp, raw, files, d.fallback)),
      Some(if glossary == [] then DEFAULT_GLOSSARY else glossary),
      RenderTm(inp.cfg, d.tm))
  }

  /** From the final draft to the outcome: parity check, comparison with disk, writing. */
  function Conclude(inp: Inputs, raw: string, files: Files, opts: Options, d: Draft): Outcome
    requires inp.src.Valid() && d.tm.Valid()
  {
    if !PlaceholdersAgree(inp, d.values) then Threw(PlaceholderMismatch)
    else
      var expected := Expected(inp, raw, files, d);
      var changed := files != expected;
      var wrote := changed && !opts.checkOnly && opts.write;
      Done(changed, |expected.meta.value.fallbackKeys|, wrote, expected, if wrote then expected else files)
  }

  /** What follows planning: translation when a provider is there and keys are pending. */
  function Finish(inp: Inputs, raw: string, files: Files, opts: Options, plan: Draft,
                  answers: nat -> Response, pos: nat): (Outcome, nat)
    requires inp.src.Valid() && plan.tm.Valid()
  {
    if inp.cfg.allowTranslate && plan.pending != [] then
      var (translated, pos') := TranslateAll(inp.cfg, answers, pos, Batches(plan.pending, inp.cfg.budget), plan);
      match translated
      case Err(message) =>
        if inp.cfg.authOptional && IsProviderAuth(message) then (Skipped(|PreviousFallbacks(files)|), pos')
        else (Threw(Untranslated(message)), pos')
      case Ok(d) => (Conclude(inp, raw, files, opts, Settle(inp, opts.force, plan.pending, d)), pos')
    else (Conclude(inp, raw, files, opts, Settle(inp, opts.force, plan.pending, plan)), pos)
  }

  /** What planning leaves, from the files alone. */
  function PlanRead(cfg: Config, source: Catalogue, files: Files): (plan: Draft)
    requires WellFormed(source)
    ensures plan.tm.Valid()
  {
    FlattenIsLeaves(source);
    var inp := ReadInputs(cfg, source, files);
    Plan(inp, inp.src.keys, Draft(map[], LoadTm(files.tm), [], []))
  }

  /** The specification of a run: its outcome, and the position in the provider's answers
      when it ends. */
  function Sync(cfg: Config, source: Catalogue, raw: string, files: Files, opts: Options,
                answers: nat -> Response, pos: nat): (Outcome, nat)
    requires WellFormed(source)
  {
    FlattenIsLeaves(source);
    var inp := ReadInputs(cfg, source, files);
    Finish(inp, raw, files, opts, PlanRead(cfg, source, files), answers, pos)
  }

  // ---------- what reading the memory means ----------

  /** The line that counts for a cache key: the last one of that key with a translation. */
  ghost predicate IsLastLine(lines: seq<Entry>, c: string, i: int) {
    && 0 <= i < |lines| && Counts(lines[i], c)
    && forall j :: i < j < |lines| ==> !Counts(lines[j], c)
  }

  predicate Counts(line: Entry, c: string) {
    line.cacheKey == c && c != "" && !Blank(line.translated)
  }

  lemma LoadStep(lines: seq<Entry>, c: string)
    requires lines != []
    ensures var n := |lines| - 1;
      var before, after := LoadTm(lines[..n]).vals, LoadTm(lines).vals;
      if Counts(lines[n], c) then c in after && after[c] == lines[n]
      else (c in after <==> c in before) && (c in before ==> after[c] == before[c])
  {
    hide Blank;
  }

  lemma LastLineBefore(lines: seq<Entry>, c: string, i: int)
    requires lines != [] && IsLastLine(lines, c, i) && i < |lines| - 1
    ensures IsLastLine(lines[..|lines| - 1], c, i) && !Counts(lines[|lines| - 1], c)
  {
    hide Counts;
  }

  /** The memory read from a file holds, for a cache key, the last line that counts. */
  lemma {:induction false} LoadMeaning(lines: seq<Entry>, c: string, i: int)
    requires IsLastLine(lines, c, i)
    ensures c in LoadTm(lines).vals && LoadTm(lines).vals[c] == lines[i]
  {
    hide Counts, LoadTm, IsLastLine;
    LastLineCounts(lines, c, i);
    LoadStep(lines, c);
    if i < |lines| - 1 {
      LastLineBefore(lines, c, i);
      LoadMeaning(lines[..|lines| - 1], c, i);
    }
  }

  /** And nothing for a cache key of which no line counts. */
  lemma {:induction false} LoadMissing(lines: seq<Entry>, c: string)
    requires forall i :: 0 <= i < |lines| ==> !Counts(lines[i], c)
    ensures c !in LoadTm(lines).vals
  {
    if lines != [] {
      hide Counts, LoadTm;
      LoadStep(lines, c);
      LoadMissing(lines[..|lines| - 1], c);
    }
  }

  lemma LastLineCounts(lines: seq<Entry>, c: string, i: int)
    requires IsLastLine(lines, c, i)
    ensures 0 <= i < |lines| && Counts(lines[i], c)
  {
  }

  /** Of several usable entries for a text the last one in the memory counts. */
  lemma {:induction false} ByTextMeaning(cfg: Config, keys: seq<string>, vals: map<string, Entry>, i: nat)
    requires forall k :: k in keys ==> k in vals
    requires i < |keys| && Usable(cfg, vals[keys[i]])
    requires forall j :: i < j < |keys| ==>
      !(Usable(cfg, vals[keys[j]]) && vals[keys[j]].textHash == vals[keys[i]].textHash)
    ensures var h := vals[keys[i]].textHash;
      h in ByTextHash(cfg, keys, vals) && ByTextHash(cfg, keys, vals)[h] == vals[keys[i]]
  {
    hide Usable;
    var n := |keys| - 1;
    if i < n {
      assert forall k :: k in keys[..n] ==> k in keys;
      ByTextMeaning(cfg, keys[..n], vals, i);
    }
  }

  // ---------- placeholders ----------

  predicate IsPlaceholderName(name: string) {
    name != "" && forall i | 0 <= i < |name| :: IsWordChar(name[i])
  }

  /** Placeholder names are made of the ASCII digits, letters and the underscore. */
  lemma WordCharacters(c: char)
    ensures IsWordChar(c) <==>
      var n := c as int; 0x30 <= n <= 0x39 || 0x41 <= n <= 0x5A || n == 0x5F || 0x61 <= n <= 0x7A
  {
  }

  ghost predicate Braced(text: string, pre: string, name: string, post: string) {
    IsPlaceholderName(name) && text == pre + "{" + name + "}" + post
  }

  lemma MentionedIsBraced(text: string, name: string)
    requires name in Placeholders(text)
    ensures exists pre, post :: Braced(text, pre, name, post)
  {
    hide IsWordChar;
    var i, j :| 1 <= i < j < |text| && NameBetween(text, i, j) && name == text[i..j];
    assert forall k :: 0 <= k < |name| ==> name[k] == text[i + k];
    var pre, post := text[..i - 1], text[j + 1..];
    assert text == pre + "{" + name + "}" + post;
    assert Braced(text, pre, name, post);
  }

  lemma BracedIsMentioned(text: string, pre: string, name: string, post: string)
    requires Braced(text, pre, name, post)
    ensures name in Placeholders(text)
  {
    hide IsWordChar;
    var i, j := |pre| + 1, |pre| + 1 + |name|;
    assert text == (pre + "{") + (name + ("}" + post));
    assert text[i..j] == name && text[i - 1] == '{' && text[j] == '}';
    assert forall k :: i <= k < j ==> text[k] == name[k - i];
    assert NameBetween(text, i, j);
  }

  /** The placeholders of a text are the names that stand in braces somewhere in it. */
  lemma PlaceholderMeaning(text: string, name: string)
    ensures name in Placeholders(text) <==> exists pre, post :: Braced(text, pre, name, post)
  {
    hide Placeholders, Braced;
    if name in Placeholders(text) {
      MentionedIsBraced(text, name);
    }
    if pre, post :| Braced(text, pre, name, post) {
      BracedIsMentioned(text, pre, name, post);
    }
  }

  // ---------- the imperative run ----------

  method PlanKeys(inp: Inputs, start: OMap<Entry>) returns (d: Draft)
    requires inp.src.Valid() && start.Valid()
    ensures d == Plan(inp, inp.src.keys, Draft(map[], start, [], []))
  {
    hide Decide, Copied, Inputs.CacheKeyOf, Inputs.ItemOf, Remember;
    var keys := inp.src.keys;
    d := Draft(map[], start, [], []);
    for i := 0 to |keys|
      invariant d.tm.Valid()
      invariant forall k :: k in keys[i..] ==> k in inp.src.vals
      invariant Plan(inp, keys, Draft(map[], start, [], [])) == Plan(inp, keys[i..], d)
    {
      var key := keys[i];
      assert keys[i..][0] == key && keys[i..][1..] == keys[i + 1..];
      match Decide(inp, d.tm.vals, key) {
        case Cached(e) =>
          d := d.(values := d.values[key := e.translated], fallback := Remember(d, inp, key));
        case SameText(e) =>
          d := d.(values := d.values[key := e.translated],
                  tm := d.tm.Set(inp.CacheKeyOf(key), Copied(inp, e, key)));
        case Keep(text) =>
          d := d.(values := d.values[key := text], fallback := Remember(d, inp, key));
        case Ask =>
          d := d.(pending := d.pending + [inp.ItemOf(key)]);
      }
    }
  }

  method RecordBatch(cfg: Config, translated: map<string, string>, items: seq<Item>, start: Draft)
      returns (d: Draft)
    ensures d == Record(cfg, translated, items, start)
  {
    d := start;
    for i := 0 to |items|
      invariant Record(cfg, translated, items, start) == Record(cfg, translated, items[i..], d)
    {
      var item := items[i];
      assert items[i..][0] == item && items[i..][1..] == items[i + 1..];
      if item.key in translated && translated[item.key] != "" {
        var value := translated[item.key];
        d := d.(values := d.values[item.key := value],
                tm := d.tm.Set(item.cacheKey, NewEntry(cfg, item, value)));
      }
    }
  }

  method SettlePending(inp: Inputs, force: bool, pending: seq<Item>, start: Draft) returns (d: Draft)
    ensures d == Settle(inp, force, pending, start)
  {
    d := start;
    for i := 0 to |pending|
      invariant Settle(inp, force, pending, start) == Settle(inp, force, pending[i..], d)
    {
      var item := pending[i];
      assert pending[i..][0] == item && pending[i..][1..] == pending[i + 1..];
      if item.key !in d.values {
        if item.key in inp.existing && !force {
          d := d.(values := d.values[item.key := inp.existing[item.key]], fallback := Remember(d, inp, item.key));
        } else {
          d := d.(values := d.values[item.key := item.text], fallback := d.fallback + [item.key]);
        }
      }
    }
  }

  method TranslateBatches(cfg: Config, provider: Provider, batches: seq<seq<Item>>, start: Draft)
      returns (r: Result<Draft>)
    modifies provider
    ensures (r, provider.prompts) == TranslateAll(cfg, provider.answers, old(provider.prompts), batches, start)
  {
    hide Translate, Record;
    var d := start;
    for i := 0 to |batches|
      invariant TranslateAll(cfg, provider.answers, old(provider.prompts), batches, start)
             == TranslateAll(cfg, provider.answers, provider.prompts, batches[i..], d)
    {
      assert batches[i..][0] == batches[i] && batches[i..][1..] == batches[i + 1..];
      var one := TranslateBatch(provider, batches[i]);
      if one.Err? {
        return Err(one.message);
      }
      d := RecordBatch(cfg, one.value, batches[i], d);
    }
    r := Ok(d);
  }

  method SyncLocale(cfg: Config, source: Catalogue, raw: string, files: Files, opts: Options, provider: Provider)
      returns (outcome: Outcome)
    requires WellFormed(source)
    modifies provider
    ensures (outcome, provider.prompts)
         == Sync(cfg, source, raw, files, opts, provider.answers, old(provider.prompts))
  {
    FlattenIsLeaves(source);
    hide Plan, TranslateAll, Settle, Conclude, Batches, Flatten, ReadInputs, LoadTm;
    var inp := ReadInputs(cfg, source, files);
    assert inp.src == Flatten(source) && inp.cfg == cfg by {
      InputsOf(cfg, source, files);
    }
    var plan := PlanKeys(inp, LoadTm(files.tm));
    var d := plan;
    if cfg.allowTranslate && |plan.pending| > 0 {
      var batches := BuildTranslationBatches(plan.pending, cfg.budget);
      var translated := TranslateBatches(cfg, provider, batches, plan);
      if translated.Err? {
        if cfg.authOptional && IsProviderAuth(translated.message) {
          return Skipped(|PreviousFallbacks(files)|);
        }
        return Threw(Untranslated(translated.message));
      }
      d := translated.value;
    }
    d := SettlePending(inp, opts.force, plan.pending, d);
    outcome := Conclude(inp, raw, files, opts, d);
  }

  lemma InputsOf(cfg: Config, source: Catalogue, files: Files)
    ensures ReadInputs(cfg, source, files).src == Flatten(source)
    ensures ReadInputs(cfg, source, files).cfg == cfg
  {
  }
}
