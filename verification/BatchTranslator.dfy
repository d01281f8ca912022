/** Translating one batch through an unreliable provider: two attempts, and a split in
    halves whenever an attempt of several keys times out.
    scripts/control-ui-i18n.ts, translateBatch. */
module BatchTranslator {
  import opened Text
  import opened TranslationBatches

  const TRANSLATE_MAX_ATTEMPTS := 2

  /** What one prompt comes back with: an exception (of the client, of the provider or of
      JSON parsing), the JSON value `null`, or a value with the given string properties. */
  datatype Response = Throws(message: string) | JsonNull | Fields(strings: map<string, string>)

  datatype Result<+T> = Ok(value: T) | Err(message: string)

  predicate IsPromptTimeout(message: string) {
    Contains(Lower(message), "timed out")
  }

  predicate IsProviderAuth(message: string) {
    var m := Lower(message);
    || Contains(m, "401") || Contains(m, "authentication_error")
    || Contains(m, "incorrect api key") || Contains(m, "invalid x-api-key")
  }

  /** A translation for exactly the requested keys, none of them blank. */
  ghost predicate Covers(translated: map<string, string>, items: seq<Item>) {
    && translated.Keys == ItemKeys(items)
    && forall k :: k in translated ==> !Blank(translated[k])
  }

  function ItemKeys(items: seq<Item>): set<string> {
    set i | 0 <= i < |items| :: items[i].key
  }

  /** Where the answer first lacks usable text for a requested key. */
  function FirstMissing(strings: map<string, string>, items: seq<Item>): (r: nat)
    ensures r <= |items|
    ensures r < |items| ==> items[r].key !in strings || Blank(strings[items[r].key])
    ensures forall i :: 0 <= i < r ==> items[i].key in strings && !Blank(strings[items[i].key])
  {
    if items == [] || items[0].key !in strings || Blank(strings[items[0].key]) then 0
    else 1 + FirstMissing(strings, items[1..])
  }

  /** What one answer is worth: the texts of all requested keys, or an error. */
  function ReadAnswer(response: Response, items: seq<Item>): (r: Result<map<string, string>>)
    ensures r.Ok? ==> Covers(r.value, items)
  {
    match response
    case Throws(message) => Err(message)
    case JsonNull =>
      if items == [] then Ok(map[])
      else Err("Cannot read properties of null (reading '" + items[0].key + "')")
    case Fields(strings) =>
      var missing := FirstMissing(strings, items);
      if missing < |items| then Err("missing translation for " + items[missing].key)
      else Ok(map k | k in ItemKeys(items) :: strings[k])
  }

  /** The loop that copies the requested keys out of the parsed object. */
  method ReadKeys(strings: map<string, string>, items: seq<Item>) returns (r: Result<map<string, string>>)
    ensures r == ReadAnswer(Fields(strings), items)
  {
    hide Blank, FirstMissing;
    var translated: map<string, string> := map[];
    var missing := FirstMissing(strings, items);
    for i := 0 to |items|
      invariant i <= missing
      invariant translated == map k | k in ItemKeys(items[..i]) :: strings[k]
    {
      var key := items[i].key;
      if key !in strings || Blank(strings[key]) {
        return Err("missing translation for " + key);
      }
      translated := translated[key := strings[key]];
      assert ItemKeys(items[..i + 1]) == ItemKeys(items[..i]) + {key} by {
        assert items[..i + 1] == items[..i] + [items[i]];
        ItemKeysAppend(items[..i], [items[i]]);
        assert ItemKeys([items[i]]) == {key};
      }
    }
    assert items[..|items|] == items;
    r := Ok(translated);
  }

  lemma ItemKeysAppend(a: seq<Item>, b: seq<Item>)
    ensures ItemKeys(a + b) == ItemKeys(a) + ItemKeys(b)
  {
    forall k | k in ItemKeys(a) + ItemKeys(b) ensures k in ItemKeys(a + b) {
      if k in ItemKeys(a) {
        var i :| 0 <= i < |a| && a[i].key == k;
        assert (a + b)[i].key == k;
      } else {
        var i :| 0 <= i < |b| && b[i].key == k;
        assert (a + b)[|a| + i].key == k;
      }
    }
  }

  lemma CoversJoin(left: map<string, string>, a: seq<Item>, right: map<string, string>, b: seq<Item>)
    requires Covers(left, a) && Covers(right, b)
    ensures Covers(left + right, a + b)
  {
    ItemKeysAppend(a, b);
  }

  function Midpoint(n: nat): nat {
    (n + 1) / 2
  }

  /** The specification: what translating `items` gives when the next prompt reads
      `answers(pos)`, and the position after the last prompt. */
  function Translate(answers: nat -> Response, pos: nat, items: seq<Item>, attempt: nat)
      : (Result<map<string, string>>, nat)
    requires attempt < TRANSLATE_MAX_ATTEMPTS
    decreases |items|, TRANSLATE_MAX_ATTEMPTS - attempt
  {
    var read := ReadAnswer(answers(pos), items);
    if read.Ok? then (read, pos + 1)
    else if IsPromptTimeout(read.message) then
      if |items| > 1 then
        var mid := Midpoint(|items|);
        var (left, pos1) := Translate(answers, pos + 1, items[..mid], 0);
        if left.Err? then (left, pos1)
        else
          var (right, pos2) := Translate(answers, pos1, items[mid..], 0);
          if right.Err? then (right, pos2) else (Ok(left.value + right.value), pos2)
      else (read, pos + 1)
    else if attempt + 1 < TRANSLATE_MAX_ATTEMPTS then Translate(answers, pos + 1, items, attempt + 1)
    else (read, pos + 1)
  }

  /** The provider behind the client: an arbitrary stream of answers, read one by one. */
  class Provider {
    const answers: nat -> Response
    var prompts: nat

    constructor (answers: nat -> Response)
      ensures this.answers == answers && prompts == 0
    {
      this.answers := answers;
      prompts := 0;
    }

    method Prompt() returns (response: Response)
      modifies this
      ensures response == answers(old(prompts)) && prompts == old(prompts) + 1
    {
      response := answers(prompts);
      prompts := prompts + 1;
    }
  }

  method TranslateBatch(provider: Provider, items: seq<Item>) returns (r: Result<map<string, string>>)
    modifies provider
    ensures (r, provider.prompts) == Translate(provider.answers, old(provider.prompts), items, 0)
    decreases |items|
  {
    hide IsPromptTimeout;
    ghost var whole := Translate(provider.answers, provider.prompts, items, 0);
    var attempt := 0;
    var lastError := "translation failed";
    while attempt < TRANSLATE_MAX_ATTEMPTS
      invariant attempt <= TRANSLATE_MAX_ATTEMPTS
      invariant attempt < TRANSLATE_MAX_ATTEMPTS ==>
        whole == Translate(provider.answers, provider.prompts, items, attempt)
      invariant attempt == TRANSLATE_MAX_ATTEMPTS ==> whole == (Err(lastError), provider.prompts)
    {
      var response := provider.Prompt();
      var read := ReadAnswer(response, items);
      if response.Fields? {
        read := ReadKeys(response.strings, items);
      }
      if read.Ok? {
        return read;
      }
      lastError := read.message;
      if IsPromptTimeout(lastError) && |items| > 1 {
        var mid := Midpoint(|items|);
        var left := TranslateBatch(provider, items[..mid]);
        if left.Err? {
          return left;
        }
        var right := TranslateBatch(provider, items[mid..]);
        if right.Err? {
          return right;
        }
        return Ok(left.value + right.value);
      }
      if IsPromptTimeout(lastError) {
        break;
      }
      attempt := attempt + 1;
    }
    r := Err(lastError);
  }

  /** Most prompts a batch of `n` keys can cost. */
  function PromptBound(n: nat): nat {
    if n == 0 then 2 else 4 * n - 2
  }

  /** Whatever the provider answers, a batch costs a bounded number of prompts. */
  lemma {:induction false} TranslatePrompts(answers: nat -> Response, pos: nat, items: seq<Item>, attempt: nat)
    requires attempt < TRANSLATE_MAX_ATTEMPTS
    ensures pos < Translate(answers, pos, items, attempt).1 <= pos + PromptBound(|items|) - attempt
    decreases |items|, TRANSLATE_MAX_ATTEMPTS - attempt
  {
    hide IsPromptTimeout, ReadAnswer;
    var read := ReadAnswer(answers(pos), items);
    if read.Err? {
      if IsPromptTimeout(read.message) {
        if |items| > 1 {
          var mid := Midpoint(|items|);
          TranslatePrompts(answers, pos + 1, items[..mid], 0);
          TranslatePrompts(answers, Translate(answers, pos + 1, items[..mid], 0).1, items[mid..], 0);
        }
      } else if attempt + 1 < TRANSLATE_MAX_ATTEMPTS {
        TranslatePrompts(answers, pos + 1, items, attempt + 1);
      }
    }
  }

  predicate Gives(response: Response, key: string, text: string) {
    response.Fields? && key in response.strings && response.strings[key] == text
  }

  /** One of the answers from `pos` up to `end` gives this text for this key. */
  ghost predicate GivenBy(answers: nat -> Response, pos: nat, end: nat, key: string, text: string) {
    exists p :: pos <= p < end && Gives(answers(p), key, text)
  }

  ghost predicate AllGiven(answers: nat -> Response, pos: nat, end: nat, translated: map<string, string>) {
    forall k :: k in translated ==> GivenBy(answers, pos, end, k, translated[k])
  }

  lemma GivenWithin(answers: nat -> Response, pos: nat, a: nat, b: nat, end: nat, translated: map<string, string>)
    requires pos <= a && b <= end && AllGiven(answers, a, b, translated)
    ensures AllGiven(answers, pos, end, translated)
  {
    forall k | k in translated ensures GivenBy(answers, pos, end, k, translated[k]) {
      assert GivenBy(answers, a, b, k, translated[k]);
    }
  }

  lemma AnswerGives(answers: nat -> Response, pos: nat, items: seq<Item>)
    requires ReadAnswer(answers(pos), items).Ok?
    ensures AllGiven(answers, pos, pos + 1, ReadAnswer(answers(pos), items).value)
  {
    hide Blank;
    var translated := ReadAnswer(answers(pos), items).value;
    forall k | k in translated ensures GivenBy(answers, pos, pos + 1, k, translated[k]) {
      assert Gives(answers(pos), k, translated[k]);
    }
  }

  lemma JoinGiven(answers: nat -> Response, pos: nat, end: nat, left: map<string, string>, right: map<string, string>)
    requires AllGiven(answers, pos, end, left) && AllGiven(answers, pos, end, right)
    ensures AllGiven(answers, pos, end, left + right)
  {
    hide GivenBy;
  }

  /** On success every requested key, and no other, has a non-blank text, and it is a text
      that one of the answers consumed gave for that very key. */
  lemma {:induction false} TranslateCovers(answers: nat -> Response, pos: nat, items: seq<Item>, attempt: nat)
    requires attempt < TRANSLATE_MAX_ATTEMPTS
    requires Translate(answers, pos, items, attempt).0.Ok?
    ensures var (r, end) := Translate(answers, pos, items, attempt);
      Covers(r.value, items) && AllGiven(answers, pos, end, r.value)
    decreases |items|, TRANSLATE_MAX_ATTEMPTS - attempt
  {
    hide IsPromptTimeout, ReadAnswer, Covers, AllGiven;
    var read := ReadAnswer(answers(pos), items);
    TranslatePrompts(answers, pos, items, attempt);
    if read.Ok? {
      AnswerGives(answers, pos, items);
    } else if IsPromptTimeout(read.message) {
      TranslateHalves(answers, pos, items, attempt);
    } else {
      var (r, end) := Translate(answers, pos + 1, items, attempt + 1);
      TranslateCovers(answers, pos + 1, items, attempt + 1);
      GivenWithin(answers, pos, pos + 1, end, end, r.value);
    }
  }

  lemma {:induction false} TranslateHalves(answers: nat -> Response, pos: nat, items: seq<Item>, attempt: nat)
    requires attempt < TRANSLATE_MAX_ATTEMPTS
    requires Translate(answers, pos, items, attempt).0.Ok?
    requires ReadAnswer(answers(pos), items).Err? && IsPromptTimeout(ReadAnswer(answers(pos), items).message)
    ensures var (r, end) := Translate(answers, pos, items, attempt);
      Covers(r.value, items) && AllGiven(answers, pos, end, r.value)
    decreases |items|, 0
  {
    hide IsPromptTimeout, ReadAnswer, Covers, AllGiven;
    var mid := Midpoint(|items|);
    var (left, pos1) := Translate(answers, pos + 1, items[..mid], 0);
    var (right, pos2) := Translate(answers, pos1, items[mid..], 0);
    assert Translate(answers, pos, items, attempt) == (Ok(left.value + right.value), pos2);
    hide Translate;
    TranslatePrompts(answers, pos + 1, items[..mid], 0);
    TranslatePrompts(answers, pos1, items[mid..], 0);
    TranslateCovers(answers, pos + 1, items[..mid], 0);
    TranslateCovers(answers, pos1, items[mid..], 0);
    CoversJoin(left.value, items[..mid], right.value, items[mid..]);
    assert items[..mid] + items[mid..] == items;
    GivenWithin(answers, pos, pos + 1, pos1, pos2, left.value);
    GivenWithin(answers, pos, pos1, pos2, pos2, right.value);
    JoinGiven(answers, pos, pos2, left.value, right.value);
  }

  /** The message is that of the answer at `p`, read for some of the items. */
  ghost predicate FailsWith(answers: nat -> Response, p: nat, items: seq<Item>, message: string) {
    exists i, j :: 0 <= i <= j <= |items| && ReadAnswer(answers(p), items[i..j]) == Err(message)
  }

  lemma PartOfPart(items: seq<Item>, i: nat, j: nat, a: nat, b: nat)
    requires i <= j <= |items| && a <= b <= j - i
    ensures items[i..j][a..b] == items[i + a..i + b]
  {
    var x, y := items[i..j][a..b], items[i + a..i + b];
    forall k | 0 <= k < b - a ensures x[k] == y[k] {
      assert x[k] == items[i..j][a + k];
    }
  }

  lemma FailsInPart(answers: nat -> Response, p: nat, items: seq<Item>, i: nat, j: nat, message: string)
    requires i <= j <= |items| && FailsWith(answers, p, items[i..j], message)
    ensures FailsWith(answers, p, items, message)
  {
    hide ReadAnswer;
    var part := items[i..j];
    var a, b :| 0 <= a <= b <= |part| && ReadAnswer(answers(p), part[a..b]) == Err(message);
    PartOfPart(items, i, j, a, b);
  }

  /** On failure the error is what the last answer consumed came to. */
  lemma {:induction false} TranslateFails(answers: nat -> Response, pos: nat, items: seq<Item>, attempt: nat)
    requires attempt < TRANSLATE_MAX_ATTEMPTS
    requires Translate(answers, pos, items, attempt).0.Err?
    ensures var (r, end) := Translate(answers, pos, items, attempt);
      pos < end && FailsWith(answers, end - 1, items, r.message)
    decreases |items|, TRANSLATE_MAX_ATTEMPTS - attempt
  {
    hide IsPromptTimeout, ReadAnswer, FailsWith;
    var (r, end) := Translate(answers, pos, items, attempt);
    var read := ReadAnswer(answers(pos), items);
    if IsPromptTimeout(read.message) && |items| > 1 {
      var mid := Midpoint(|items|);
      var (left, pos1) := Translate(answers, pos + 1, items[..mid], 0);
      assert items[0..mid] == items[..mid] && items[mid..|items|] == items[mid..];
      if left.Err? {
        TranslateFails(answers, pos + 1, items[..mid], 0);
        FailsInPart(answers, end - 1, items, 0, mid, r.message);
      } else {
        TranslatePrompts(answers, pos + 1, items[..mid], 0);
        TranslateFails(answers, pos1, items[mid..], 0);
        FailsInPart(answers, end - 1, items, mid, |items|, r.message);
      }
    } else if !IsPromptTimeout(read.message) && attempt + 1 < TRANSLATE_MAX_ATTEMPTS {
      TranslateFails(answers, pos + 1, items, attempt + 1);
    } else {
      FailsHere(answers, pos, items);
    }
  }

  lemma FailsHere(answers: nat -> Response, pos: nat, items: seq<Item>)
    requires ReadAnswer(answers(pos), items).Err?
    ensures FailsWith(answers, pos, items, ReadAnswer(answers(pos), items).message)
  {
    hide ReadAnswer;
    assert items[0..|items|] == items;
  }

  // ---------- what the tests on messages and the split mean ----------

  /** The phrase stands somewhere in the message, in any letter case. */
  ghost predicate Mentions(message: string, phrase: string) {
    exists i :: 0 <= i <= |message| && StandsAt(message, phrase, i)
  }

  /** A timeout is a message that mentions one, and an authentication error one of four
      phrases, in any letter case. */
  lemma MessageKinds(message: string)
    ensures IsPromptTimeout(message) <==> Mentions(message, "timed out")
    ensures IsProviderAuth(message) <==>
      || Mentions(message, "401") || Mentions(message, "authentication_error")
      || Mentions(message, "incorrect api key") || Mentions(message, "invalid x-api-key")
  {
    hide Contains, Lower, StandsAt;
    ContainsInAnyCase(message, "timed out");
    ContainsInAnyCase(message, "401");
    ContainsInAnyCase(message, "authentication_error");
    ContainsInAnyCase(message, "incorrect api key");
    ContainsInAnyCase(message, "invalid x-api-key");
  }

  /** An answer is good exactly if it gives every requested key a text that is not blank, and
      then it is read as exactly those texts; a thrown message is passed on as it is. */
  lemma AnswerMeaning(response: Response, items: seq<Item>)
    ensures response.Throws? ==> ReadAnswer(response, items) == Err(response.message)
    ensures response.Fields? ==>
      (ReadAnswer(response, items).Ok? <==>
        forall i :: 0 <= i < |items| ==> exists text :: Gives(response, items[i].key, text) && !Blank(text))
    ensures ReadAnswer(response, items).Ok? ==>
      forall k :: k in ReadAnswer(response, items).value <==> exists i :: 0 <= i < |items| && items[i].key == k
    ensures response.Fields? && ReadAnswer(response, items).Ok? ==>
      forall k :: k in ReadAnswer(response, items).value ==> Gives(response, k, ReadAnswer(response, items).value[k])
  {
    hide Blank;
    if response.Fields? {
      var missing := FirstMissing(response.strings, items);
      if missing == |items| {
        forall i | 0 <= i < |items|
          ensures exists text :: Gives(response, items[i].key, text) && !Blank(text) {
          assert Gives(response, items[i].key, response.strings[items[i].key]);
        }
      }
    }
  }

  /** Two halves of a batch, in order, neither of them empty, the first at most one longer. */
  ghost predicate Halves(items: seq<Item>, left: seq<Item>, right: seq<Item>) {
    left + right == items && right != [] && |right| <= |left| <= |right| + 1
  }

  /** An attempt for several keys that fails with a message that mentions a timeout, in any
      letter case, is replaced by attempts for the halves: the left half first, the right
      half only if the left one succeeds, and both anew. */
  lemma TimeoutSplits(answers: nat -> Response, pos: nat, items: seq<Item>, attempt: nat,
                      left: seq<Item>, right: seq<Item>)
    requires attempt < TRANSLATE_MAX_ATTEMPTS && Halves(items, left, right)
    requires ReadAnswer(answers(pos), items).Err? && Mentions(ReadAnswer(answers(pos), items).message, "timed out")
    ensures var (a, mid) := Translate(answers, pos + 1, left, 0);
      var (b, end) := Translate(answers, mid, right, 0);
      Translate(answers, pos, items, attempt)
        == if a.Err? then (a, mid) else if b.Err? then (b, end) else (Ok(a.value + b.value), end)
  {
    MessageKinds(ReadAnswer(answers(pos), items).message);
    assert left == items[..|left|] && right == items[|left|..] && |left| == Midpoint(|items|);
    hide IsPromptTimeout, IsProviderAuth, ReadAnswer, Mentions;
  }

  /** An attempt that fails otherwise is repeated once, and a timeout of a single key is not
      repeated at all. */
  lemma OtherFailures(answers: nat -> Response, pos: nat, items: seq<Item>)
    requires ReadAnswer(answers(pos), items).Err?
    ensures var read := ReadAnswer(answers(pos), items);
      && (!Mentions(read.message, "timed out") ==>
            && Translate(answers, pos, items, 0) == Translate(answers, pos + 1, items, 1)
            && Translate(answers, pos, items, 1) == (read, pos + 1))
      && (Mentions(read.message, "timed out") && |items| <= 1 ==>
            Translate(answers, pos, items, 0) == (read, pos + 1))
  {
    MessageKinds(ReadAnswer(answers(pos), items).message);
    hide IsPromptTimeout, IsProviderAuth, ReadAnswer, Mentions;
  }

  // ---------- the bound is attained ----------

  /** Answers that make every batch fail once, time out once and split, down to single keys
      that succeed at their second attempt. */
  function Adversary(items: seq<Item>): (r: seq<Response>)
    requires items != []
    ensures |r| == PromptBound(|items|)
    decreases |items|
  {
    if |items| == 1 then [Throws(""), Fields(map[items[0].key := "x"])]
    else
      var mid := Midpoint(|items|);
      [Throws(""), Throws("timed out")] + Adversary(items[..mid]) + Adversary(items[mid..])
  }

  ghost predicate Plays(answers: nat -> Response, pos: nat, script: seq<Response>) {
    forall i :: 0 <= i < |script| ==> answers(pos + i) == script[i]
  }

  lemma PlaysParts(answers: nat -> Response, pos: nat, a: seq<Response>, b: seq<Response>)
    requires Plays(answers, pos, a + b)
    ensures Plays(answers, pos, a) && Plays(answers, pos + |a|, b)
  {
    forall i | 0 <= i < |a| ensures answers(pos + i) == a[i] {
      assert (a + b)[i] == a[i];
    }
    forall i | 0 <= i < |b| ensures answers(pos + |a| + i) == b[i] {
      assert (a + b)[|a| + i] == b[i];
    }
  }

  lemma TimeoutMessages()
    ensures !IsPromptTimeout("") && IsPromptTimeout("timed out")
  {
    var m := Lower("timed out");
    assert m == "timed out";
    assert "timed out" <= m[0..];
  }

  lemma FailThenRetry(answers: nat -> Response, pos: nat, items: seq<Item>)
    requires answers(pos) == Throws("")
    ensures Translate(answers, pos, items, 0) == Translate(answers, pos + 1, items, 1)
  {
    TimeoutMessages();
  }

  lemma TimeOutThenSplit(answers: nat -> Response, pos: nat, items: seq<Item>)
    requires |items| > 1 && answers(pos) == Throws("timed out")
    requires Translate(answers, pos + 1, items[..Midpoint(|items|)], 0).0.Ok?
    ensures var (left, pos1) := Translate(answers, pos + 1, items[..Midpoint(|items|)], 0);
      var (right, pos2) := Translate(answers, pos1, items[Midpoint(|items|)..], 0);
      && Translate(answers, pos, items, 1).1 == pos2
      && (right.Ok? ==> Translate(answers, pos, items, 1).0.Ok?)
  {
    TimeoutMessages();
    hide IsPromptTimeout;
  }

  lemma SingleSucceeds(answers: nat -> Response, pos: nat, items: seq<Item>)
    requires |items| == 1 && answers(pos) == Fields(map[items[0].key := "x"])
    ensures Translate(answers, pos, items, 1).0.Ok? && Translate(answers, pos, items, 1).1 == pos + 1
  {
    assert !Blank("x");
    assert FirstMissing(map[items[0].key := "x"], items) == 1;
  }

  lemma AdversarySplits(items: seq<Item>) returns (a: seq<Response>, b: seq<Response>)
    requires |items| > 1
    ensures a == Adversary(items[..Midpoint(|items|)]) && b == Adversary(items[Midpoint(|items|)..])
    ensures Adversary(items) == [Throws(""), Throws("timed out")] + (a + b)
  {
    a, b := Adversary(items[..Midpoint(|items|)]), Adversary(items[Midpoint(|items|)..]);
  }

  lemma PlaysSplit(answers: nat -> Response, pos: nat, a: seq<Response>, b: seq<Response>)
    requires Plays(answers, pos, [Throws(""), Throws("timed out")] + (a + b))
    ensures answers(pos) == Throws("") && answers(pos + 1) == Throws("timed out")
    ensures Plays(answers, pos + 2, a) && Plays(answers, pos + 2 + |a|, b)
  {
    var start := [Throws(""), Throws("timed out")];
    PlaysParts(answers, pos, start, a + b);
    PlaysParts(answers, pos + 2, a, b);
    assert answers(pos + 0) == start[0] && answers(pos + 1) == start[1];
  }

  lemma {:induction false} AdversaryCost(answers: nat -> Response, pos: nat, items: seq<Item>)
    requires items != [] && Plays(answers, pos, Adversary(items))
    ensures Translate(answers, pos, items, 0).0.Ok?
    ensures Translate(answers, pos, items, 0).1 == pos + PromptBound(|items|)
    decreases |items|
  {
    hide Translate;
    if |items| == 1 {
      var script := Adversary(items);
      assert answers(pos + 0) == script[0] && answers(pos + 1) == script[1];
      FailThenRetry(answers, pos, items);
      SingleSucceeds(answers, pos + 1, items);
    } else {
      var a, b := AdversarySplits(items);
      hide Plays, Adversary;
      PlaysSplit(answers, pos, a, b);
      AdversaryCost(answers, pos + 2, items[..Midpoint(|items|)]);
      AdversaryCost(answers, pos + 2 + |a|, items[Midpoint(|items|)..]);
      FailThenRetry(answers, pos, items);
      TimeOutThenSplit(answers, pos + 1, items);
    }
  }

  lemma SomeProviderPlays(script: seq<Response>) returns (answers: nat -> Response)
    ensures Plays(answers, 0, script)
  {
    answers := (i: nat) => if i < |script| then script[i] else JsonNull;
  }

  /** For every non-empty batch some provider makes it cost exactly 4n - 2 prompts. */
  lemma PromptBoundIsTight(items: seq<Item>)
    requires items != []
    ensures exists answers: nat -> Response :: Translate(answers, 0, items, 0).1 == 4 * |items| - 2
  {
    hide Translate, Adversary, Plays;
    var answers := SomeProviderPlays(Adversary(items));
    AdversaryCost(answers, 0, items);
  }
}
