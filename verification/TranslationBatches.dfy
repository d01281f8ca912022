/** Packing pending catalogue keys into provider prompts.
    scripts/control-ui-i18n.ts, buildTranslationBatches and estimateBatchChars. */
module TranslationBatches {
  import opened Text

  datatype Item = Item(cacheKey: string, key: string, text: string, textHash: string)

  const MAX_BATCH_ITEMS := 20

  function EstimateBatchChars(items: seq<Item>): nat {
    if items == [] then 2
    else EstimateBatchChars(items[..|items| - 1]) + |items[|items| - 1].key| + |items[|items| - 1].text| + 8
  }

  /** The running size of a batch: 2 for the braces, then each item's own estimate. */
  function RunningChars(items: seq<Item>): nat {
    if items == [] then 2
    else RunningChars(items[..|items| - 1]) + EstimateBatchChars([items[|items| - 1]])
  }

  /** The two limits: at most 20 items, and the budget once a batch has a second item. */
  predicate Fits(batch: seq<Item>, budget: nat) {
    && |batch| <= MAX_BATCH_ITEMS
    && (|batch| >= 2 ==> RunningChars(batch) <= budget)
  }

  ghost predicate AllFit(batches: seq<seq<Item>>, budget: nat) {
    forall i :: 0 <= i < |batches| ==> Fits(batches[i], budget)
  }

  /** Closing a batch is always forced: the next batch's first item would not have fitted. */
  ghost predicate Greedy(batches: seq<seq<Item>>, budget: nat) {
    && (forall i :: 0 <= i < |batches| ==> batches[i] != [])
    && (forall i :: 0 <= i < |batches| - 1 ==> !Fits(batches[i] + [batches[i + 1][0]], budget))
  }

  lemma {:induction false} RunningSplit(a: seq<Item>, b: seq<Item>)
    ensures RunningChars(a + b) == RunningChars(a) + RunningChars(b) - 2
  {
    if b == [] {
      assert a + b == a;
    } else {
      var init, last := b[..|b| - 1], b[|b| - 1];
      assert (a + b)[..|a + b| - 1] == a + init;
      RunningSplit(a, init);
    }
  }

  /** Any stretch of a batch that fits also fits. */
  lemma FitsPart(pre: seq<Item>, part: seq<Item>, post: seq<Item>, budget: nat)
    requires Fits(pre + part + post, budget)
    ensures Fits(part, budget)
  {
    RunningSplit(pre + part, post);
    RunningSplit(pre, part);
    RunningAtLeast(pre);
    RunningAtLeast(post);
  }

  lemma RunningAtLeast(items: seq<Item>)
    ensures RunningChars(items) >= 2
  {
  }

  /** `next` may follow `batches`: its first item would not have fitted in the last of them. */
  ghost predicate Follows(batches: seq<seq<Item>>, next: seq<Item>, budget: nat) {
    next != [] && (batches == [] || !Fits(batches[|batches| - 1] + [next[0]], budget))
  }

  /** The loop's overflow test decides whether the open batch can take one more item. */
  lemma FitsOneMore(current: seq<Item>, item: Item, budget: nat)
    requires Fits(current, budget)
    ensures RunningChars(current + [item]) == RunningChars(current) + EstimateBatchChars([item])
    ensures Fits([item], budget)
    ensures Fits(current + [item], budget) <==>
      !(|current| > 0 && RunningChars(current) + EstimateBatchChars([item]) > budget)
      && |current| < MAX_BATCH_ITEMS
  {
    assert (current + [item])[..|current|] == current;
  }

  lemma GreedyClose(batches: seq<seq<Item>>, next: seq<Item>, budget: nat)
    requires Greedy(batches, budget) && Follows(batches, next, budget)
    ensures Greedy(batches + [next], budget)
  {
  }

  /** The loop invariant: closed batches, then an open one, hold the items seen so far. */
  ghost predicate Packed(batches: seq<seq<Item>>, current: seq<Item>, seen: seq<Item>, budget: nat) {
    && Concat(batches) + current == seen
    && AllFit(batches, budget) && Fits(current, budget)
    && Greedy(batches, budget)
    && (if current == [] then batches == [] else Follows(batches, current, budget))
  }

  lemma NothingPacked(budget: nat)
    ensures Packed([], [], [], budget) && RunningChars([]) == 2
  {
  }

  lemma PackedPush(batches: seq<seq<Item>>, current: seq<Item>, seen: seq<Item>, item: Item, budget: nat)
    requires Packed(batches, current, seen, budget) && Fits(current + [item], budget)
    ensures Packed(batches, current + [item], seen + [item], budget)
  {
    assert Concat(batches) + (current + [item]) == seen + [item];
  }

  lemma PackedClose(batches: seq<seq<Item>>, current: seq<Item>, seen: seq<Item>, item: Item, budget: nat)
    requires Packed(batches, current, seen, budget)
    requires current != [] && !Fits(current + [item], budget)
    ensures Packed(batches + [current], [item], seen + [item], budget)
  {
    ConcatSnoc(batches, current);
    GreedyClose(batches, current, budget);
    assert Fits([item], budget);
  }

  lemma PackedDone(batches: seq<seq<Item>>, current: seq<Item>, seen: seq<Item>, budget: nat)
    requires Packed(batches, current, seen, budget)
    ensures var all := if current == [] then batches else batches + [current];
      Concat(all) == seen && AllFit(all, budget) && Greedy(all, budget)
  {
    if current != [] {
      ConcatSnoc(batches, current);
      GreedyClose(batches, current, budget);
    }
  }

  method BuildTranslationBatches(items: seq<Item>, budget: nat) returns (batches: seq<seq<Item>>)
    ensures Concat(batches) == items
    ensures AllFit(batches, budget) && Greedy(batches, budget)
    ensures batches == Batches(items, budget)
  {
    hide Concat, AllFit, Greedy, Follows, RunningChars, EstimateBatchChars, Batches;
    NothingPacked(budget);
    batches := [];
    var current: seq<Item> := [];
    var currentChars := 2;
    for i := 0 to |items|
      invariant Packed(batches, current, items[..i], budget)
      invariant currentChars == RunningChars(current)
    {
      var item := items[i];
      var itemChars := EstimateBatchChars([item]);
      var wouldOverflow := |current| > 0 && currentChars + itemChars > budget;
      var reachedMaxItems := |current| >= MAX_BATCH_ITEMS;
      assert items[..i + 1] == items[..i] + [item];
      FitsOneMore(current, item, budget);
      FitsOneMore([], item, budget);
      assert [] + [item] == [item];
      if wouldOverflow || reachedMaxItems {
        PackedClose(batches, current, items[..i], item, budget);
        batches := batches + [current];
        current := [];
        currentChars := 2;
      } else {
        PackedPush(batches, current, items[..i], item, budget);
      }
      current := current + [item];
      currentChars := currentChars + itemChars;
    }
    assert items[..|items|] == items;
    PackedDone(batches, current, items, budget);
    if |current| > 0 {
      batches := batches + [current];
    }
    BatchesUnique(batches, items, budget);
  }

  /** Staying ahead: whatever the other split has already consumed of the remaining
      items, it needs at least as many further batches. */
  lemma {:induction false} GreedyStaysAhead(
      greedy: seq<seq<Item>>, other: seq<seq<Item>>, ahead: seq<Item>, budget: nat)
    requires Greedy(greedy, budget) && AllFit(other, budget)
    requires Concat(other) == ahead + Concat(greedy)
    ensures |greedy| <= |other|
    decreases |other|
  {
    hide RunningChars, EstimateBatchChars;
    assert greedy != [] ==> Concat(greedy)[..|greedy[0]|] == greedy[0];
    if other != [] && greedy != [] {
      var o, g := other[0], greedy[0];
      if |o| <= |ahead| {
        assert ahead[..|o|] == Concat(other)[..|o|] == o;
        assert Concat(other[1..]) == Concat(other)[|o|..] == ahead[|o|..] + Concat(greedy);
        GreedyStaysAhead(greedy, other[1..], ahead[|o|..], budget);
      } else {
        var reach := |o| - |ahead|;
        var rest := Concat(greedy[1..]);
        assert o == Concat(other)[..|o|] == ahead + Concat(greedy)[..reach];
        if reach > |g| {
          assert |greedy| >= 2 && rest[..|greedy[1]|] == greedy[1];
          var blocked := g + [greedy[1][0]];
          assert Concat(greedy)[..|g| + 1] == blocked;
          assert o == ahead + blocked + o[|ahead| + |blocked|..];
          FitsPart(ahead, blocked, o[|ahead| + |blocked|..], budget);
          assert false;
        } else {
          assert Concat(other[1..]) == Concat(other)[|o|..] == g[reach..] + rest;
          GreedyStaysAhead(greedy[1..], other[1..], g[reach..], budget);
        }
      }
    }
  }

  /** No order-preserving split within the same limits uses fewer batches. */
  lemma GreedyIsOptimal(greedy: seq<seq<Item>>, other: seq<seq<Item>>, budget: nat)
    requires Greedy(greedy, budget) && AllFit(other, budget)
    requires Concat(other) == Concat(greedy)
    ensures |greedy| <= |other|
  {
    assert Concat(other) == [] + Concat(greedy);
    GreedyStaysAhead(greedy, other, [], budget);
  }

  /** The limits and greediness leave no choice: the batches are a function of the items. */
  lemma {:induction false} GreedyUnique(a: seq<seq<Item>>, b: seq<seq<Item>>, budget: nat)
    requires Greedy(a, budget) && AllFit(a, budget)
    requires Greedy(b, budget) && AllFit(b, budget)
    requires Concat(a) == Concat(b)
    ensures a == b
  {
    assert a != [] ==> a[0] == Concat(a)[..|a[0]|];
    assert b != [] ==> b[0] == Concat(b)[..|b[0]|];
    if a != [] && b != [] {
      if |a[0]| < |b[0]| {
        GreedyFirstNotShorter(a, b, budget);
        assert false;
      }
      if |b[0]| < |a[0]| {
        GreedyFirstNotShorter(b, a, budget);
        assert false;
      }
      assert Concat(a[1..]) == Concat(a)[|a[0]|..];
      assert Concat(b[1..]) == Concat(b)[|b[0]|..];
      GreedyUnique(a[1..], b[1..], budget);
    }
  }

  lemma GreedyFirstNotShorter(a: seq<seq<Item>>, b: seq<seq<Item>>, budget: nat)
    requires a != [] && b != []
    requires Greedy(a, budget) && AllFit(b, budget)
    requires Concat(a) == Concat(b)
    ensures |a[0]| >= |b[0]|
  {
    hide RunningChars, EstimateBatchChars;
    if |a[0]| < |b[0]| {
      var whole := Concat(a);
      assert whole[..|b[0]|] == b[0] && whole == a[0] + Concat(a[1..]);
      assert |a| >= 2;
      assert Concat(a[1..]) == a[1] + Concat(a[1..][1..]);
      var blocked := a[0] + [a[1][0]];
      assert whole[|a[0]|] == a[1][0];
      assert whole[..|blocked|] == blocked;
      assert b[0] == [] + blocked + b[0][|blocked|..];
      FitsPart([], blocked, b[0][|blocked|..], budget);
    }
  }

  // ---------- the batches as a function of the items ----------

  function FirstLength(items: seq<Item>, n: nat, budget: nat): (r: nat)
    requires 1 <= n <= |items| && Fits(items[..n], budget)
    ensures n <= r <= |items| && Fits(items[..r], budget)
    ensures r < |items| ==> !Fits(items[..r + 1], budget)
    decreases |items| - n
  {
    if n < |items| && Fits(items[..n + 1], budget) then FirstLength(items, n + 1, budget) else n
  }

  function Batches(items: seq<Item>, budget: nat): seq<seq<Item>> {
    if items == [] then []
    else
      var n := FirstLength(items, 1, budget);
      [items[..n]] + Batches(items[n..], budget)
  }

  lemma GreedyOpen(first: seq<Item>, rest: seq<seq<Item>>, budget: nat)
    requires first != [] && Fits(first, budget)
    requires Greedy(rest, budget) && AllFit(rest, budget)
    requires rest != [] ==> Concat(rest) != [] && !Fits(first + [Concat(rest)[0]], budget)
    ensures Greedy([first] + rest, budget) && AllFit([first] + rest, budget)
    ensures Concat([first] + rest) == first + Concat(rest)
  {
    if rest != [] {
      assert Concat(rest) == rest[0] + Concat(rest[1..]);
      assert Concat(rest)[0] == rest[0][0];
    }
  }

  lemma FirstBatch(items: seq<Item>, budget: nat) returns (first: seq<Item>, rest: seq<Item>)
    requires items != []
    ensures first + rest == items && |rest| < |items| && first != [] && Fits(first, budget)
    ensures rest != [] ==> !Fits(first + [rest[0]], budget)
    ensures Batches(items, budget) == [first] + Batches(rest, budget)
  {
    var n := FirstLength(items, 1, budget);
    first, rest := items[..n], items[n..];
    assert n < |items| ==> first + [rest[0]] == items[..n + 1];
  }

  lemma {:induction false} BatchesAreGreedy(items: seq<Item>, budget: nat)
    ensures Concat(Batches(items, budget)) == items
    ensures AllFit(Batches(items, budget), budget) && Greedy(Batches(items, budget), budget)
    decreases |items|
  {
    if items != [] {
      hide Greedy, AllFit, Fits, Concat, Batches;
      var first, rest := FirstBatch(items, budget);
      BatchesAreGreedy(rest, budget);
      GreedyOpen(first, Batches(rest, budget), budget);
    }
  }

  /** Batches that keep the items in order, fit, and are closed only when forced are these. */
  lemma BatchesUnique(batches: seq<seq<Item>>, items: seq<Item>, budget: nat)
    requires Concat(batches) == items && AllFit(batches, budget) && Greedy(batches, budget)
    ensures batches == Batches(items, budget)
  {
    BatchesAreGreedy(items, budget);
    GreedyUnique(batches, Batches(items, budget), budget);
  }

  // ---------- what the budget means ----------

  function Characters(items: seq<Item>): nat {
    if items == [] then 0 else |items[0].key| + |items[0].text| + Characters(items[1..])
  }

  lemma {:induction false} CharactersAppend(a: seq<Item>, b: seq<Item>)
    ensures Characters(a + b) == Characters(a) + Characters(b)
  {
    if a == [] {
      assert a + b == b;
    } else {
      assert (a + b)[1..] == a[1..] + b;
      CharactersAppend(a[1..], b);
    }
  }

  /** The running size is the characters of keys and texts, ten for each item and two more. */
  lemma {:induction false} RunningIs(items: seq<Item>)
    ensures RunningChars(items) == 2 + 10 * |items| + Characters(items)
    decreases |items|
  {
    if items != [] {
      var n := |items| - 1;
      RunningIs(items[..n]);
      CharactersAppend(items[..n], [items[n]]);
      assert items[..n] + [items[n]] == items;
      var one := [items[n]];
      assert one[..0] == [] && one[1..] == [];
      assert EstimateBatchChars(one) == EstimateBatchChars([]) + |items[n].key| + |items[n].text| + 8;
    }
  }

  /** In every batch of two or more items the keys and texts, with ten characters for each
      item and two for the braces, stay within the budget. */
  lemma BatchWithinBudget(items: seq<Item>, budget: nat)
    ensures forall i :: 0 <= i < |Batches(items, budget)| ==>
      && 1 <= |Batches(items, budget)[i]| <= 20
      && (|Batches(items, budget)[i]| >= 2 ==>
            Characters(Batches(items, budget)[i]) + 10 * |Batches(items, budget)[i]| + 2 <= budget)
  {
    BatchesAreGreedy(items, budget);
    var batches := Batches(items, budget);
    hide RunningChars, Characters, Batches, Concat;
    forall i | 0 <= i < |batches| ensures Fits(batches[i], budget) && batches[i] != []
      ensures RunningChars(batches[i]) == 2 + 10 * |batches[i]| + Characters(batches[i]) {
      RunningIs(batches[i]);
    }
  }
}
