/** What a text's hash tells about the text: translations are reused only between source
    texts with the same words. */
module LocaleSyncWords {
  import opened Text
  import opened Words
  import opened Sorting
  import opened OrderedMap
  import opened CatalogueTree
  import opened BatchTranslator
  import opened LocaleSync
  import opened LocaleSyncTheorems
  import opened LocaleSyncTexts
  import opened LocaleSyncMemory

  /** A digest without collisions whose values are not empty and contain no bar. */
  ghost predicate GoodDigest(cfg: Config) {
    && (forall s, t :: cfg.sha(s) == cfg.sha(t) ==> s == t)
    && (forall s :: cfg.sha(s) != "" && '|' !in cfg.sha(s))
  }

  /** Two texts have the same hash exactly when they have the same words. */
  lemma HashIffWords(cfg: Config, a: string, b: string)
    requires forall s, t :: cfg.sha(s) == cfg.sha(t) ==> s == t
    ensures HashText(cfg, a) == HashText(cfg, b) <==> WordsOf(a) == WordsOf(b)
  {
    NormalFormIffWords(a, b);
    hide NormalizeText, WordsOf;
  }

  /** Cache keys are shared only by the same locale, key and words, in the same namespace. */
  lemma CacheKeySeparates(a: Config, x: string, s: string, b: Config, y: string, t: string)
    requires GoodDigest(a) && b.sha == a.sha && b.namespace == a.namespace
    requires '|' !in a.locale && '|' !in b.locale
    ensures CacheKey(a, x, HashText(a, s)) == CacheKey(b, y, HashText(b, t))
      <==> a.locale == b.locale && x == y && WordsOf(s) == WordsOf(t)
  {
    HashIffWords(a, s, t);
    hide NormalizeText, WordsOf;
    var h, g := HashText(a, s), HashText(b, t);
    if CachePreimage(a, x, h) == CachePreimage(b, y, g) {
      SameLocale(a, x, h, b, y, g);
      assert CachePreimage(b, y, g) == CachePreimage(a, y, g);
      PreimageInjective(a, x, h, y, g);
    }
  }

  lemma BarAt(a: string, s: string)
    requires '|' !in a
    ensures var x := a + "|" + s; x[|a|] == '|' && forall i :: 0 <= i < |a| ==> x[i] != '|'
  {
    var x := a + "|" + s;
    forall i | 0 <= i < |a| ensures x[i] != '|' {
      assert x[i] == a[i];
    }
  }

  lemma FirstBar(a: string, s: string, b: string, t: string)
    requires '|' !in a && '|' !in b && a + "|" + s == b + "|" + t
    ensures a == b
  {
    var x := a + "|" + s;
    BarAt(a, s);
    BarAt(b, t);
    assert a == x[..|a|] && b == x[..|b|];
  }

  lemma SameLocale(a: Config, x: string, h: string, b: Config, y: string, g: string)
    requires a.namespace == b.namespace && '|' !in a.locale && '|' !in b.locale
    requires CachePreimage(a, x, h) == CachePreimage(b, y, g)
    ensures a.locale == b.locale
  {
    var head := a.namespace + "|" + SOURCE_LOCALE + "|";
    var s, t := CachePreimage(a, x, h), CachePreimage(b, y, g);
    assert s == head + (a.locale + "|" + (x + "|" + h));
    assert t == head + (b.locale + "|" + (y + "|" + g));
    assert s[|head|..] == a.locale + "|" + (x + "|" + h) && t[|head|..] == b.locale + "|" + (y + "|" + g);
    FirstBar(a.locale, x + "|" + h, b.locale, y + "|" + g);
  }

  /** Every entry has the hash of its own source text and is filed under its own key. */
  ghost predicate Honest(cfg: Config, memory: map<string, Entry>) {
    forall c :: c in memory ==> HonestEntry(cfg, c, memory[c])
  }

  predicate HonestEntry(cfg: Config, c: string, e: Entry) {
    e.textHash == HashText(cfg, e.text) && c == CacheKey(cfg, e.segmentId, e.textHash)
  }

  // ---------- decisions over an honest memory ----------

  /** An entry under a key's own cache key is that key's, for a text of the same words. */
  lemma OwnEntryMatches(inp: Inputs, e: Entry, k: string)
    requires GoodDigest(inp.cfg) && k in inp.src.vals && HonestEntry(inp.cfg, inp.CacheKeyOf(k), e)
    ensures e.segmentId == k && WordsOf(e.text) == WordsOf(inp.src.vals[k])
  {
    var cfg := inp.cfg;
    assert inp.CacheKeyOf(k) == CacheKey(cfg, k, HashText(cfg, inp.src.vals[k]));
    HashIffWords(cfg, e.text, inp.src.vals[k]);
    hide NormalizeText, WordsOf, CachePreimage;
    PreimageInjective(cfg, e.segmentId, e.textHash, k, HashText(cfg, inp.src.vals[k]));
  }

  /** The memory knows a text by its hash exactly when a usable entry is for a text of the
      same words, and what it answers is such an entry. */
  lemma ByTextMatches(inp: Inputs, tm: OMap<Entry>, k: string)
    requires GoodDigest(inp.cfg) && tm.Valid() && Honest(inp.cfg, tm.vals) && k in inp.src.vals
    requires inp.byText == ByTextHash(inp.cfg, tm.keys, tm.vals)
    ensures inp.Hash(k) in inp.byText <==>
      exists c :: c in tm.vals && Usable(inp.cfg, tm.vals[c]) && WordsOf(tm.vals[c].text) == WordsOf(inp.src.vals[k])
    ensures inp.Hash(k) in inp.byText ==>
      exists c :: c in tm.vals && inp.byText[inp.Hash(k)] == tm.vals[c]
        && WordsOf(tm.vals[c].text) == WordsOf(inp.src.vals[k])
  {
    var h := inp.Hash(k);
    assert h == HashText(inp.cfg, inp.src.vals[k]);
    forall c | c in tm.vals
      ensures tm.vals[c].textHash == h <==> WordsOf(tm.vals[c].text) == WordsOf(inp.src.vals[k]) {
      assert HonestEntry(inp.cfg, c, tm.vals[c]);
      HashIffWords(inp.cfg, tm.vals[c].text, inp.src.vals[k]);
    }
    hide WordsOf, HashText, Usable, Inputs.Hash, GoodDigest, Honest;
    ByTextIsEntry(inp.cfg, tm.keys, tm.vals);
  }

  lemma {:induction false} ByTextIsEntry(cfg: Config, keys: seq<string>, vals: map<string, Entry>)
    requires forall k :: k in keys ==> k in vals
    ensures forall h :: h in ByTextHash(cfg, keys, vals) ==>
      exists k :: k in keys && vals[k] == ByTextHash(cfg, keys, vals)[h]
  {
    hide Usable;
    if keys != [] {
      var n := |keys| - 1;
      ByTextIsEntry(cfg, keys[..n], vals);
      assert keys[n] in keys && forall k :: k in keys[..n] ==> k in keys;
    }
  }

  // ---------- where the texts of a run come from ----------

  /** The text is that of a memory entry for a source text of the same words. */
  ghost predicate FromMemory(inp: Inputs, tm: map<string, Entry>, k: string, text: string)
    requires k in inp.src.vals
  {
    exists c :: c in tm && text == tm[c].translated && WordsOf(tm[c].text) == WordsOf(inp.src.vals[k])
  }

  /** A key's text comes from the memory, for a source text of the same words, or is the
      existing one, or the provider's for this key, or, offline, the source text; and the
      last two only if the memory has no usable entry for a text of the same words. */
  ghost predicate Explained(inp: Inputs, tm: map<string, Entry>, dialogue: Dialogue, k: string, text: string)
    requires k in inp.src.vals
  {
    || FromMemory(inp, tm, k, text)
    || (k in inp.existing && text == inp.existing[k])
    || (!KnowsWords(inp, tm, k) &&
          if inp.cfg.allowTranslate then Supplied(dialogue, k, text) else text == inp.src.vals[k])
  }

  ghost predicate KnowsWords(inp: Inputs, tm: map<string, Entry>, k: string)
    requires k in inp.src.vals
  {
    exists c :: c in tm && Usable(inp.cfg, tm[c]) && WordsOf(tm[c].text) == WordsOf(inp.src.vals[k])
  }

  lemma OwnIsFromMemory(inp: Inputs, tm: map<string, Entry>, k: string)
    requires GoodDigest(inp.cfg) && Honest(inp.cfg, tm) && k in inp.src.vals
    ensures inp.CacheKeyOf(k) in tm ==> FromMemory(inp, tm, k, tm[inp.CacheKeyOf(k)].translated)
  {
    hide WordsOf, Inputs.CacheKeyOf, GoodDigest, HonestEntry;
    if inp.CacheKeyOf(k) in tm {
      OwnEntryMatches(inp, tm[inp.CacheKeyOf(k)], k);
    }
  }

  lemma SameTextIsFromMemory(inp: Inputs, tm: OMap<Entry>, k: string)
    requires GoodDigest(inp.cfg) && tm.Valid() && Honest(inp.cfg, tm.vals) && k in inp.src.vals
    requires inp.byText == ByTextHash(inp.cfg, tm.keys, tm.vals)
    ensures inp.Hash(k) in inp.byText <==> KnowsWords(inp, tm.vals, k)
    ensures inp.Hash(k) in inp.byText ==> FromMemory(inp, tm.vals, k, inp.byText[inp.Hash(k)].translated)
  {
    hide WordsOf, Usable, Inputs.Hash, GoodDigest, Honest, ByTextHash;
    ByTextMatches(inp, tm, k);
  }

  lemma ResolvedIsExplained(
      inp: Inputs, tm: OMap<Entry>, dialogue: Dialogue, values: map<string, string>, marked: bool, k: string)
    requires GoodDigest(inp.cfg) && tm.Valid() && Honest(inp.cfg, tm.vals) && k in inp.src.vals
    requires inp.byText == ByTextHash(inp.cfg, tm.keys, tm.vals)
    requires Resolved(inp, tm.vals, dialogue, values, marked, k)
    ensures k in values && Explained(inp, tm.vals, dialogue, k, values[k])
  {
    hide FromMemory, KnowsWords, Supplied, Inputs.Hash, Inputs.CacheKeyOf, GoodDigest, Honest, ByTextHash;
    OwnIsFromMemory(inp, tm.vals, k);
    SameTextIsFromMemory(inp, tm, k);
  }

  // ---------- an honest memory stays honest ----------

  lemma NewIsHonest(inp: Inputs, k: string, text: string)
    requires k in inp.src.vals
    ensures HonestEntry(inp.cfg, inp.CacheKeyOf(k), NewEntry(inp.cfg, inp.ItemOf(k), text))
  {
    hide NormalizeText, CachePreimage;
  }

  lemma CopyIsHonest(inp: Inputs, e: Entry, k: string)
    requires k in inp.src.vals && e.textHash == inp.Hash(k) && e.textHash == HashText(inp.cfg, e.text)
    ensures HonestEntry(inp.cfg, inp.CacheKeyOf(k), Copied(inp, e, k))
  {
    hide NormalizeText, CachePreimage;
  }

  lemma FinalIsHonest(inp: Inputs, tm: OMap<Entry>, k: string, text: string)
    requires InputsOk(inp) && tm.Valid() && Honest(inp.cfg, tm.vals) && k in inp.src.vals
    requires inp.byText == ByTextHash(inp.cfg, tm.keys, tm.vals)
    ensures var e := FinalEntry(inp, tm.vals, k, text);
      e.Some? ==> HonestEntry(inp.cfg, inp.CacheKeyOf(k), e.value)
  {
    NewIsHonest(inp, k, text);
    ByTextIsEntry(inp.cfg, tm.keys, tm.vals);
    if Known(inp, tm.vals, k).SameText? {
      SameTextFits(inp, tm.vals, k);
      SameTextEntry(inp, tm, k);
      CopyIsHonest(inp, Known(inp, tm.vals, k).entry, k);
    }
    hide InputsOk, HonestEntry, Copied, NewEntry, Known, Inputs.CacheKeyOf, Inputs.Hash, Inputs.ItemOf, ByTextHash;
  }

  lemma SameTextEntry(inp: Inputs, tm: OMap<Entry>, k: string)
    requires tm.Valid() && Honest(inp.cfg, tm.vals) && k in inp.src.vals && Known(inp, tm.vals, k).SameText?
    requires inp.byText == ByTextHash(inp.cfg, tm.keys, tm.vals)
    ensures Known(inp, tm.vals, k).entry.textHash == HashText(inp.cfg, Known(inp, tm.vals, k).entry.text)
  {
    ByTextIsEntry(inp.cfg, tm.keys, tm.vals);
    hide Inputs.CacheKeyOf, Inputs.Hash, ByTextHash, HashText, CacheKey;
    var c :| c in tm.keys && tm.vals[c] == Known(inp, tm.vals, k).entry;
    assert HonestEntry(inp.cfg, c, tm.vals[c]);
  }

  lemma FinalOwnHonest(
      inp: Inputs, tm: OMap<Entry>, memory: map<string, Entry>, k: string, text: string)
    requires InputsOk(inp) && tm.Valid() && Honest(inp.cfg, tm.vals) && k in inp.src.vals
    requires inp.byText == ByTextHash(inp.cfg, tm.keys, tm.vals) && FinalOwn(inp, tm.vals, memory, k, text)
    ensures inp.CacheKeyOf(k) in memory ==> HonestEntry(inp.cfg, inp.CacheKeyOf(k), memory[inp.CacheKeyOf(k)])
  {
    hide InputsOk, HonestEntry, FinalEntry, Inputs.CacheKeyOf, ByTextHash;
    FinalIsHonest(inp, tm, k, text);
  }

  lemma FinalMemoryHonest(
      inp: Inputs, tm: OMap<Entry>, values: map<string, string>, memory: map<string, Entry>)
    requires InputsOk(inp) && tm.Valid() && Honest(inp.cfg, tm.vals)
    requires inp.byText == ByTextHash(inp.cfg, tm.keys, tm.vals) && FinalMemory(inp, tm.vals, values, memory)
    ensures Honest(inp.cfg, memory)
  {
    assert forall k :: k in inp.src.vals ==> k in inp.src.keys;
    hide InputsOk, HonestEntry, FinalOwn, Inputs.CacheKeyOf, ByTextHash;
    forall c | c in memory ensures HonestEntry(inp.cfg, c, memory[c]) {
      if Owned(inp, c) {
        var k :| k in inp.src.vals && inp.CacheKeyOf(k) == c;
        FinalOwnHonest(inp, tm, memory, k, values[k]);
      } else {
        assert Lookup(memory, c) == Lookup(tm.vals, c);
      }
    }
  }

  lemma DigestsAreDistinct(cfg: Config, src: OMap<string>)
    requires GoodDigest(cfg)
    ensures DigestsDistinct(cfg, src)
  {
    hide DigestsDistinct;
    CollisionFreeDigests(cfg, src);
  }

  lemma ByTextOfInputs(cfg: Config, source: Catalogue, files: Files)
    ensures var tm := LoadTm(files.tm);
      ReadInputs(cfg, source, files).byText == ByTextHash(cfg, tm.keys, tm.vals)
  {
    hide ByTextHash, LoadTm, Flatten;
  }

  lemma ExplainedAll(inp: Inputs, tm: OMap<Entry>, dialogue: Dialogue, values: map<string, string>, marks: seq<string>)
    requires GoodDigest(inp.cfg) && tm.Valid() && Honest(inp.cfg, tm.vals)
    requires inp.byText == ByTextHash(inp.cfg, tm.keys, tm.vals)
    requires forall k :: k in inp.src.keys ==>
      k in inp.src.vals && Resolved(inp, tm.vals, dialogue, values, k in marks, k)
    ensures forall k :: k in inp.src.keys ==>
      k in inp.src.vals && k in values && Explained(inp, tm.vals, dialogue, k, values[k])
  {
    hide GoodDigest, Honest, Resolved, Explained, ByTextHash;
    forall k | k in inp.src.keys
      ensures k in inp.src.vals && k in values && Explained(inp, tm.vals, dialogue, k, values[k]) {
      ResolvedIsExplained(inp, tm, dialogue, values, k in marks, k);
    }
  }

  /** From an honest memory, a finished run takes a translation from the memory only for a
      source text of the same words, asks about a key or leaves its source text only if the
      memory knows no text of the same words, and leaves an honest memory. */
  lemma TextsExplained(cfg: Config, source: Catalogue, raw: string, files: Files, opts: Options,
                       answers: nat -> Response, pos: nat)
    requires WellFormed(source) && StrictTotalOrder(cfg.less) && GoodDigest(cfg)
    requires Honest(cfg, LoadTm(files.tm).vals)
    requires Sync(cfg, source, raw, files, opts, answers, pos).0.Done?
    ensures var (outcome, end) := Sync(cfg, source, raw, files, opts, answers, pos);
      var next, inp, tm := outcome.expected, ReadInputs(cfg, source, files), LoadTm(files.tm).vals;
      && next.locale.Some?
      && (forall k :: k in inp.src.keys ==>
            k in inp.src.vals && k in Flatten(next.locale.value).vals
            && Explained(inp, tm, Dialogue(answers, pos, end), k, Flatten(next.locale.value).vals[k]))
      && Honest(cfg, LoadTm(next.tm).vals)
  {
    hide *;
    DigestsAreDistinct(cfg, Flatten(source));
    InputsOf(cfg, source, files);
    ByTextOfInputs(cfg, source, files);
    ReadInputsOk(cfg, source, files);
    EveryKeyResolved(cfg, source, raw, files, opts, answers, pos);
    MemoryOfRun(cfg, source, raw, files, opts, answers, pos);
    var inp, tm := ReadInputs(cfg, source, files), LoadTm(files.tm);
    var (outcome, end) := Sync(cfg, source, raw, files, opts, answers, pos);
    var values := Flatten(outcome.expected.locale.value).vals;
    ExplainedAll(inp, tm, Dialogue(answers, pos, end), values, outcome.expected.meta.value.fallbackKeys);
    FinalMemoryHonest(inp, tm, values, LoadTm(outcome.expected.tm).vals);
  }
}
