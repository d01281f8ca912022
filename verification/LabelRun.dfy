/** Labelling open issues and pull requests: pages regrouped into work batches, and a state
    file that must stay sound wherever a run stops.
    scripts/label-open-issues.ts. */
module LabelRun {
  import opened Text
  import opened Sorting

  const WORK_BATCH_SIZE := 500

  datatype Item = Item(number: nat, labels: set<string>)

  datatype Batch = Batch(batchIndex: nat, items: seq<Item>, fetchedCount: nat)

  // ---------- regrouping pages ----------

  /** How many of `total` items a run may take; no limit means all of them. */
  function Allowed(limit: Option<nat>, total: nat): nat {
    if limit.Some? && limit.value < total then limit.value else total
  }

  predicate Below(fetched: nat, limit: Option<nat>) {
    limit.None? || fetched < limit.value
  }

  function ItemsOf(batches: seq<Batch>): seq<Item> {
    if batches == [] then [] else ItemsOf(batches[..|batches| - 1]) + batches[|batches| - 1].items
  }

  /** Full batches, numbered from 1, each with the count of items up to its end. */
  ghost predicate FullBatches(batches: seq<Batch>) {
    forall i :: 0 <= i < |batches| ==>
      && batches[i].batchIndex == i + 1
      && |batches[i].items| == WORK_BATCH_SIZE
      && batches[i].fetchedCount == (i + 1) * WORK_BATCH_SIZE
  }

  /** What the generator has yielded and still holds, after taking `taken`. */
  ghost predicate Regrouped(batches: seq<Batch>, results: seq<Item>, taken: seq<Item>) {
    && FullBatches(batches)
    && |results| < WORK_BATCH_SIZE
    && ItemsOf(batches) + results == taken
    && |taken| == |batches| * WORK_BATCH_SIZE + |results|
  }

  lemma RegroupOne(batches: seq<Batch>, results: seq<Item>, taken: seq<Item>, item: Item)
    requires Regrouped(batches, results, taken)
    ensures if |results| + 1 < WORK_BATCH_SIZE
      then Regrouped(batches, results + [item], taken + [item])
      else Regrouped(batches + [Batch(|batches| + 1, results + [item], |taken| + 1)], [], taken + [item])
  {
    assert ItemsOf(batches) + (results + [item]) == taken + [item];
    var next := batches + [Batch(|batches| + 1, results + [item], |taken| + 1)];
    assert next[..|batches|] == batches;
    assert ItemsOf(next) == ItemsOf(batches) + (results + [item]);
    assert ItemsOf(next) + [] == ItemsOf(next);
  }

  /** One page: its items up to the limit. */
  method TakePage(nodes: seq<Item>, limit: Option<nat>, batches0: seq<Batch>, results0: seq<Item>, fetched0: nat,
                  ghost taken: seq<Item>)
      returns (batches: seq<Batch>, results: seq<Item>, fetchedCount: nat)
    requires Regrouped(batches0, results0, taken) && fetched0 == |taken|
    requires Below(fetched0, limit)
    ensures var n := Allowed(limit, |taken| + |nodes|) - |taken|;
      && 0 <= n <= |nodes| && fetchedCount == |taken| + n
      && Regrouped(batches, results, taken + nodes[..n])
  {
    batches, results, fetchedCount := batches0, results0, fetched0;
    assert taken + nodes[..0] == taken;
    hide Regrouped;
    var i := 0;
    while i < |nodes| && Below(fetchedCount, limit)
      invariant 0 <= i <= |nodes| && fetchedCount == |taken| + i
      invariant limit.Some? ==> fetchedCount <= limit.value
      invariant Regrouped(batches, results, taken + nodes[..i])
    {
      RegroupOne(batches, results, taken + nodes[..i], nodes[i]);
      assert taken + nodes[..i] + [nodes[i]] == taken + nodes[..i + 1];
      results := results + [nodes[i]];
      fetchedCount := fetchedCount + 1;
      if |results| >= WORK_BATCH_SIZE {
        batches := batches + [Batch(|batches| + 1, results, fetchedCount)];
        results := [];
      }
      i := i + 1;
    }
  }

  /** The batches of a finished generator: all but the last are full, none is empty, and
      each carries its number and the count of items up to its end. */
  ghost predicate WellBatched(batches: seq<Batch>, total: nat) {
    && (forall i :: 0 <= i < |batches| ==> batches[i].batchIndex == i + 1 && 1 <= |batches[i].items| <= WORK_BATCH_SIZE)
    && (forall i :: 0 <= i < |batches| - 1 ==>
          |batches[i].items| == WORK_BATCH_SIZE && batches[i].fetchedCount == (i + 1) * WORK_BATCH_SIZE)
    && (if batches == [] then total == 0 else batches[|batches| - 1].fetchedCount == total)
  }

  function FirstAllowed(all: seq<Item>, limit: Option<nat>): seq<Item> {
    all[..Allowed(limit, |all|)]
  }

  /** A page is fetched only while the limit has not been reached, and the last one fetched
      is the last there is or reaches it. */
  ghost predicate PagesNeeded(pages: seq<seq<Item>>, limit: Option<nat>, pagesFetched: nat) {
    && pagesFetched <= |pages|
    && (forall k :: 0 <= k < pagesFetched ==> Below(|Concat(pages[..k])|, limit))
    && (pagesFetched == |pages| || !Below(|Concat(pages[..pagesFetched])|, limit))
  }

  lemma OneMorePage(pages: seq<seq<Item>>, limit: Option<nat>, k: nat, taken: seq<Item>, n: nat)
    requires k < |pages| && taken == FirstAllowed(Concat(pages[..k]), limit) && Below(|taken|, limit)
    requires n == Allowed(limit, |taken| + |pages[k]|) - |taken| && n <= |pages[k]|
    ensures taken == Concat(pages[..k])
    ensures taken + pages[k][..n] == FirstAllowed(Concat(pages[..k + 1]), limit)
  {
    assert pages[..k + 1] == pages[..k] + [pages[k]];
    ConcatSnoc(pages[..k], pages[k]);
  }

  method FetchPages(pages: seq<seq<Item>>, limit: Option<nat>)
      returns (batches: seq<Batch>, results: seq<Item>, fetchedCount: nat, pagesFetched: nat, ghost taken: seq<Item>)
    requires pages != []
    ensures Regrouped(batches, results, taken) && fetchedCount == |taken|
    ensures taken == FirstAllowed(Concat(pages), limit)
    ensures PagesNeeded(pages, limit, pagesFetched)
  {
    batches, results, fetchedCount, pagesFetched, taken := [], [], 0, 0, [];
    assert pages[..0] == [];
    hide Regrouped;
    NothingRegrouped();
    hide Concat;
    while Below(fetchedCount, limit)
      invariant pagesFetched < |pages| && fetchedCount == |taken|
      invariant Regrouped(batches, results, taken)
      invariant taken == FirstAllowed(Concat(pages[..pagesFetched]), limit)
      invariant forall k :: 0 <= k < pagesFetched ==> Below(|Concat(pages[..k])|, limit)
      decreases |pages| - pagesFetched
    {
      var nodes := pages[pagesFetched];
      batches, results, fetchedCount := TakePage(nodes, limit, batches, results, fetchedCount, taken);
      OneMorePage(pages, limit, pagesFetched, taken, fetchedCount - |taken|);
      taken := taken + nodes[..fetchedCount - |taken|];
      pagesFetched := pagesFetched + 1;
      if pagesFetched == |pages| {
        break;
      }
    }
    AllTaken(pages, pagesFetched, limit);
  }

  /** The batches hold the first items of the pages, in order, up to the limit. `pages` are
      the pages up to the first that announces no next one. */
  method FetchOpenLabelItemBatches(pages: seq<seq<Item>>, limit: Option<nat>)
      returns (batches: seq<Batch>, pagesFetched: nat)
    requires pages != []
    ensures ItemsOf(batches) == FirstAllowed(Concat(pages), limit)
    ensures WellBatched(batches, |FirstAllowed(Concat(pages), limit)|)
    ensures PagesNeeded(pages, limit, pagesFetched)
  {
    ghost var taken;
    var results, fetchedCount;
    batches, results, fetchedCount, pagesFetched, taken := FetchPages(pages, limit);
    RegroupedEnds(batches, results, taken);
    if |results| > 0 {
      batches := batches + [Batch(|batches| + 1, results, fetchedCount)];
    }
  }

  lemma NothingRegrouped()
    ensures Regrouped([], [], []) && Concat<Item>([]) == []
  {
  }

  lemma RegroupedEnds(batches: seq<Batch>, results: seq<Item>, taken: seq<Item>)
    requires Regrouped(batches, results, taken)
    ensures var all := if results == [] then batches else batches + [Batch(|batches| + 1, results, |taken|)];
      ItemsOf(all) == taken && WellBatched(all, |taken|)
  {
    if results == [] {
      assert ItemsOf(batches) + [] == ItemsOf(batches);
    } else {
      var all := batches + [Batch(|batches| + 1, results, |taken|)];
      assert all[..|batches|] == batches;
    }
  }

  lemma ConcatSplit<T>(parts: seq<seq<T>>, k: nat)
    requires k <= |parts|
    ensures Concat(parts) == Concat(parts[..k]) + Concat(parts[k..])
  {
    hide Concat;
    var a, b := parts[..k], parts[k..];
    ConcatAppend(a, b);
    assert a + b == parts;
  }

  /** Once the limit is reached, further pages would add nothing. */
  lemma AllTaken(pages: seq<seq<Item>>, k: nat, limit: Option<nat>)
    requires k <= |pages|
    requires k == |pages| || !Below(|FirstAllowed(Concat(pages[..k]), limit)|, limit)
    ensures FirstAllowed(Concat(pages[..k]), limit) == FirstAllowed(Concat(pages), limit)
    ensures k == |pages| || !Below(|Concat(pages[..k])|, limit)
  {
    ConcatSplit(pages, k);
    assert k == |pages| ==> pages[..k] == pages && pages[k..] == [];
  }

  // ---------- labelling ----------

  const BUG_LABEL := "bug"
  const ENHANCEMENT_LABEL := "enhancement"
  const SUPPORT_LABEL := "r: support"
  const SKILL_LABEL := "r: skill"

  datatype Kind = Issue | PullRequest

  function Other(kind: Kind): Kind {
    if kind.Issue? then PullRequest else Issue
  }

  datatype Category = Bug | Enhancement

  datatype Classification = Classification(category: Category, isSupport: bool, isSkillOnly: bool)

  function CategoryLabel(c: Category): string {
    if c.Bug? then BUG_LABEL else ENHANCEMENT_LABEL
  }

  function LabelsToAdd(kind: Kind, labels: set<string>, c: Classification): seq<string> {
    var skill := if c.isSkillOnly && SKILL_LABEL !in labels then [SKILL_LABEL] else [];
    if kind.PullRequest? then skill
    else
      (if BUG_LABEL !in labels && ENHANCEMENT_LABEL !in labels then [CategoryLabel(c.category)] else [])
      + (if c.isSupport && SUPPORT_LABEL !in labels then [SUPPORT_LABEL] else [])
      + skill
  }

  /** The labels that a classification calls for on an item with these labels: a category for
      an issue that has none, and the other two where they apply; a pull request gets no
      label but the skill label. */
  predicate CallsFor(kind: Kind, labels: set<string>, c: Classification, l: string) {
    || (kind.Issue? && "bug" !in labels && "enhancement" !in labels
          && l == match c.category { case Bug => "bug" case Enhancement => "enhancement" })
    || (kind.Issue? && c.isSupport && l == "r: support")
    || (c.isSkillOnly && l == "r: skill")
  }

  /** Exactly the labels called for and not there yet are added, each once; with them, the
      same classification adds none. */
  lemma LabelsSettle(kind: Kind, labels: set<string>, c: Classification)
    ensures forall l :: l in LabelsToAdd(kind, labels, c) <==> CallsFor(kind, labels, c, l) && l !in labels
    ensures Distinct(LabelsToAdd(kind, labels, c))
    ensures LabelsToAdd(kind, labels + (set l | l in LabelsToAdd(kind, labels, c)), c) == []
  {
    var add := LabelsToAdd(kind, labels, c);
    var after := labels + (set l | l in add);
    if kind.Issue? && BUG_LABEL !in labels && ENHANCEMENT_LABEL !in labels {
      assert add[0] == CategoryLabel(c.category) && add[0] in after;
    }
    assert c.isSkillOnly && SKILL_LABEL !in labels ==> add[|add| - 1] == SKILL_LABEL;
    assert c.isSkillOnly ==> SKILL_LABEL in after;
    assert kind.Issue? && c.isSupport && SUPPORT_LABEL !in labels ==> SUPPORT_LABEL in add;
  }

  // ---------- the run and its checkpoints ----------

  /** What a run does: labels are added to an item, an item is entered into the state, or
      the state is saved. */
  datatype Action =
    | Edited(kind: Kind, number: nat, labels: seq<string>)
    | Processed(kind: Kind, item: Item)
    | Saved(issues: seq<nat>, pullRequests: seq<nat>)

  datatype Counters = Counters(scanned: nat, processed: nat, skipped: nat)

  /** How the outside answers: classifications, which may fail, and label edits, which may fail. */
  datatype Outside = Outside(classify: (Kind, Item) -> Option<Classification>, edit: (Kind, Item) -> bool)

  predicate NumericOrder(a: nat, b: nat) {
    a < b
  }

  /** buildStateSnapshot: a set in insertion order, as an ascending list. */
  function SortedNumbers(numbers: seq<nat>): seq<nat> {
    SortDistinct(numbers, NumericOrder)
  }

  lemma AscendingIsOrder()
    ensures StrictTotalOrder(NumericOrder)
  {
  }

  predicate Enters(a: Action, kind: Kind, n: nat) {
    a.Processed? && a.kind == kind && a.item.number == n
  }

  /** Whether `log` enters the number into the state. */
  ghost predicate Entered(kind: Kind, log: seq<Action>, n: nat) {
    exists i :: 0 <= i < |log| && Enters(log[i], kind, n)
  }

  /** The numbers loaded at the start or entered in `log`. */
  ghost predicate Known(kind: Kind, loaded: seq<nat>, log: seq<Action>, n: nat) {
    n in loaded || Entered(kind, log, n)
  }

  /** Each checkpoint lists, in ascending order, exactly what was loaded or entered
      before it. */
  ghost predicate CheckpointsSound(loadedIssues: seq<nat>, loadedPulls: seq<nat>, log: seq<Action>) {
    forall i :: 0 <= i < |log| && log[i].Saved? ==>
      && Ascending(log[i].issues, NumericOrder) && Ascending(log[i].pullRequests, NumericOrder)
      && (forall n :: n in log[i].issues <==> Known(Issue, loadedIssues, log[..i], n))
      && (forall n :: n in log[i].pullRequests <==> Known(PullRequest, loadedPulls, log[..i], n))
  }

  /** What `later` enters beyond `earlier` are items of this kind from `items`. */
  ghost predicate OnlyFrom(kind: Kind, items: seq<Item>, earlier: seq<Action>, later: seq<Action>) {
    forall a :: a in later && a.Processed? ==> a in earlier || (a.kind == kind && a.item in items)
  }

  lemma OnlyFromTwice(kind: Kind, a: seq<Item>, b: seq<Item>, x: seq<Action>, y: seq<Action>, z: seq<Action>)
    requires OnlyFrom(kind, a, x, y) && OnlyFrom(kind, b, y, z)
    ensures OnlyFrom(kind, a + b, x, z)
  {
  }

  lemma NothingEntered(kind: Kind, log: seq<Action>)
    ensures OnlyFrom(kind, [], log, log)
  {
  }

  /** What a run changes, seen from one kind: the log, its own and the other kind's numbers
      and counters. */
  datatype Progress = Progress(
    log: seq<Action>, mine: seq<nat>, counters: Counters, others: seq<nat>, otherCounters: Counters)

  class LabelState {
    const outside: Outside
    const dryRun: bool
    ghost const loadedIssues: seq<nat>
    ghost const loadedPulls: seq<nat>
    var issues: seq<nat>
    var pullRequests: seq<nat>
    var issueCounters: Counters
    var pullCounters: Counters
    var log: seq<Action>

    ghost predicate Valid()
      reads this
    {
      Consistent() && NoEditLast(log)
    }

    /** The sets hold what was loaded or entered; every checkpoint so far is sound; nothing
        loaded was entered again; an item is entered only when it is finished, and labels
        are added only right before that; a dry run edits and saves nothing. */
    ghost predicate Consistent()
      reads this
    {
      && (forall n :: n in issues <==> Known(Issue, loadedIssues, log, n))
      && (forall n :: n in pullRequests <==> Known(PullRequest, loadedPulls, log, n))
      && CheckpointsSound(loadedIssues, loadedPulls, log)
      && (forall n :: Entered(Issue, log, n) ==> n !in loadedIssues)
      && (forall n :: Entered(PullRequest, log, n) ==> n !in loadedPulls)
      && AllFinished(log) && EditsEnter(log)
      && (dryRun ==> forall a :: a in log ==> a.Processed?)
    }

    function StateOf(kind: Kind): seq<nat>
      reads this
    {
      if kind.Issue? then issues else pullRequests
    }

    function CountersOf(kind: Kind): Counters
      reads this
    {
      if kind.Issue? then issueCounters else pullCounters
    }

    constructor (outside: Outside, dryRun: bool, issues: seq<nat>, pullRequests: seq<nat>)
      ensures Valid() && log == [] && this.outside == outside && this.dryRun == dryRun
      ensures loadedIssues == issues && loadedPulls == pullRequests
      ensures issueCounters == Counters(0, 0, 0) && pullCounters == Counters(0, 0, 0)
    {
      this.outside, this.dryRun := outside, dryRun;
      loadedIssues, loadedPulls := issues, pullRequests;
      this.issues, this.pullRequests := issues, pullRequests;
      issueCounters, pullCounters, log := Counters(0, 0, 0), Counters(0, 0, 0), [];
    }

    /** The labels an item gets; None when its classification fails. A pull request that
        already has the skill label needs no classification. */
    function LabelsFor(kind: Kind, item: Item): Option<seq<string>> {
      if kind.PullRequest? && SKILL_LABEL in item.labels then Some([])
      else match outside.classify(kind, item)
        case None => None
        case Some(c) => Some(LabelsToAdd(kind, item.labels, c))
    }

    predicate NeedsEdit(labels: seq<string>) {
      labels != [] && !dryRun
    }

    /** Whether an item can be processed to the end. */
    predicate Completes(kind: Kind, item: Item) {
      var labels := LabelsFor(kind, item);
      labels.Some? && (NeedsEdit(labels.value) ==> outside.edit(kind, item))
    }

    // What finishing an item means, told from its classification and the labels it calls for.

    /** A pull request that already has the skill label is not classified. */
    predicate Exempt(kind: Kind, item: Item) {
      kind.PullRequest? && "r: skill" in item.labels
    }

    predicate Wants(kind: Kind, item: Item, c: Classification, l: string) {
      CallsFor(kind, item.labels, c, l) && l !in item.labels
    }

    /** The item is exempt, or was classified and, where labels are to be added, edited. */
    ghost predicate CanFinish(kind: Kind, item: Item) {
      || Exempt(kind, item)
      || (outside.classify(kind, item).Some?
            && (dryRun || outside.edit(kind, item)
                || forall l :: !Wants(kind, item, outside.classify(kind, item).value, l)))
    }

    ghost predicate NoEditLast(trace: seq<Action>) {
      trace != [] ==> !trace[|trace| - 1].Edited?
    }

    /** The last thing that `trace` did was to add to the item exactly the labels it wants,
        each once, if it wants any and the run is not dry; otherwise it was no edit. */
    ghost predicate EditedAsWanted(trace: seq<Action>, kind: Kind, item: Item) {
      if Exempt(kind, item) || dryRun then NoEditLast(trace)
      else
        && outside.classify(kind, item).Some?
        && var c := outside.classify(kind, item).value;
           if forall l :: !Wants(kind, item, c, l) then NoEditLast(trace)
           else
             && trace != [] && trace[|trace| - 1].Edited?
             && var edit := trace[|trace| - 1];
                && edit.kind == kind && edit.number == item.number && Distinct(edit.labels)
                && forall l :: l in edit.labels <==> Wants(kind, item, c, l)
    }

    /** The item entered at `i` could be finished, and right before it the labels that it
        wanted were added. */
    ghost predicate Finished(trace: seq<Action>, i: nat)
      requires i < |trace| && trace[i].Processed?
    {
      CanFinish(trace[i].kind, trace[i].item) && EditedAsWanted(trace[..i], trace[i].kind, trace[i].item)
    }

    ghost predicate AllFinished(trace: seq<Action>) {
      forall i :: 0 <= i < |trace| && trace[i].Processed? ==> Finished(trace, i)
    }

    /** Labels are added to an item only right before it is entered. */
    ghost predicate EditsEnter(trace: seq<Action>) {
      forall i :: 0 <= i < |trace| - 1 && trace[i].Edited? ==>
        trace[i + 1].Processed? && trace[i + 1].kind == trace[i].kind && trace[i + 1].item.number == trace[i].number
    }

    /** What the run computes is what the classification calls for. */
    lemma LabelsForMeans(kind: Kind, item: Item)
      ensures Exempt(kind, item) ==> LabelsFor(kind, item) == Some([])
      ensures !Exempt(kind, item) ==>
        (LabelsFor(kind, item).Some? <==> outside.classify(kind, item).Some?)
      ensures !Exempt(kind, item) && outside.classify(kind, item).Some? ==>
        var labels, c := LabelsFor(kind, item).value, outside.classify(kind, item).value;
        Distinct(labels) && forall l :: l in labels <==> Wants(kind, item, c, l)
    {
      if !Exempt(kind, item) && outside.classify(kind, item).Some? {
        LabelsSettle(kind, item.labels, outside.classify(kind, item).value);
      }
    }

    lemma CompletesMeans(kind: Kind, item: Item)
      ensures Completes(kind, item) <==> CanFinish(kind, item)
    {
      LabelsForMeans(kind, item);
      hide LabelsFor, Wants, Exempt;
      if !Exempt(kind, item) && LabelsFor(kind, item).Some? && LabelsFor(kind, item).value != [] {
        var l := LabelsFor(kind, item).value[0];
        assert Wants(kind, item, outside.classify(kind, item).value, l);
      }
    }

    lemma EditMeans(trace: seq<Action>, kind: Kind, item: Item, labels: seq<string>)
      requires NoEditLast(trace) && LabelsFor(kind, item) == Some(labels)
      ensures EditedAsWanted(trace + if NeedsEdit(labels) then [Edited(kind, item.number, labels)] else [], kind, item)
    {
      LabelsForMeans(kind, item);
      hide LabelsFor, Wants, Exempt;
      assert trace + [] == trace;
      if !Exempt(kind, item) && labels != [] {
        assert Wants(kind, item, outside.classify(kind, item).value, labels[0]);
      }
    }

    lemma FinishedGrows(trace: seq<Action>, a: Action)
      requires AllFinished(trace)
      requires a.Processed? ==> CanFinish(a.kind, a.item) && EditedAsWanted(trace, a.kind, a.item)
      ensures AllFinished(trace + [a])
    {
      var next := trace + [a];
      hide CanFinish, EditedAsWanted;
      forall i | 0 <= i < |next| && next[i].Processed? ensures Finished(next, i) {
        if i < |trace| {
          assert Finished(trace, i) && next[i] == trace[i] && next[..i] == trace[..i];
        } else {
          assert next[..i] == trace;
        }
      }
    }

    /** The number is that of an item of this kind that `trace` finished. */
    ghost predicate FullyProcessed(kind: Kind, trace: seq<Action>, n: nat) {
      exists i :: 0 <= i < |trace| && Enters(trace[i], kind, n) && Finished(trace, i)
    }

    /** What processing one item, and several, does. */
    function ActionsFor(kind: Kind, item: Item): seq<Action> {
      var labels := LabelsFor(kind, item);
      (if labels.Some? && NeedsEdit(labels.value) then [Edited(kind, item.number, labels.value)] else [])
      + [Processed(kind, item)]
    }

    function Actions(kind: Kind, items: seq<Item>): seq<Action> {
      if items == [] then []
      else Actions(kind, items[..|items| - 1]) + ActionsFor(kind, items[|items| - 1])
    }

    /** How many items at the front can be processed to the end. */
    function Completed(kind: Kind, items: seq<Item>): (n: nat)
      ensures n <= |items| && forall i :: 0 <= i < n ==> Completes(kind, items[i])
      ensures n < |items| ==> !Completes(kind, items[n])
    {
      if items == [] || !Completes(kind, items[0]) then 0 else 1 + Completed(kind, items[1..])
    }

    lemma EditsGrow(trace: seq<Action>, a: Action)
      requires EditsEnter(trace)
      requires trace != [] && trace[|trace| - 1].Edited? ==>
        a.Processed? && a.kind == trace[|trace| - 1].kind && a.item.number == trace[|trace| - 1].number
      ensures EditsEnter(trace + [a])
    {
    }

    /** applyLabels, where it does not fail. */
    method ApplyLabels(kind: Kind, item: Item, labels: seq<string>)
      requires Valid() && LabelsFor(kind, item) == Some(labels)
      modifies this`log
      ensures Consistent() && EditedAsWanted(log, kind, item)
      ensures log == old(log) + if NeedsEdit(labels) then [Edited(kind, item.number, labels)] else []
    {
      EditMeans(log, kind, item, labels);
      if labels != [] && !dryRun {
        LogGrows(loadedIssues, loadedPulls, log, Edited(kind, item.number, labels));
        FinishedGrows(log, Edited(kind, item.number, labels));
        EditsGrow(log, Edited(kind, item.number, labels));
        hide CheckpointsSound, AllFinished, EditsEnter, Entered, LabelsFor, EditedAsWanted;
        log := log + [Edited(kind, item.number, labels)];
      } else {
        assert log + [] == log;
      }
    }

    lemma WantedIsOwn(trace: seq<Action>, kind: Kind, item: Item)
      requires EditedAsWanted(trace, kind, item) && trace != [] && trace[|trace| - 1].Edited?
      ensures trace[|trace| - 1].kind == kind && trace[|trace| - 1].number == item.number
    {
      hide Wants, Exempt;
    }

    /** Adding a number to the state of its kind. */
    method Insert(kind: Kind, n: nat)
      modifies this`issues, this`pullRequests, this`issueCounters, this`pullCounters
      ensures forall m :: m in issues <==> (kind.Issue? && m == n) || m in old(issues)
      ensures forall m :: m in pullRequests <==> (kind.PullRequest? && m == n) || m in old(pullRequests)
      ensures forall m :: m in StateOf(kind) <==> m == n || m in old(StateOf(kind))
      ensures StateOf(Other(kind)) == old(StateOf(Other(kind)))
      ensures CountersOf(Other(kind)) == old(CountersOf(Other(kind)))
      ensures CountersOf(kind) == old(CountersOf(kind)).(processed := old(CountersOf(kind)).processed + 1)
    {
      if kind.Issue? {
        issues := if n in issues then issues else issues + [n];
        issueCounters := issueCounters.(processed := issueCounters.processed + 1);
      } else {
        pullRequests := if n in pullRequests then pullRequests else pullRequests + [n];
        pullCounters := pullCounters.(processed := pullCounters.processed + 1);
      }
    }

    /** What holds of a log also holds after entering a finished item. */
    lemma LogEntered(trace: seq<Action>, kind: Kind, item: Item)
      requires CheckpointsSound(loadedIssues, loadedPulls, trace) && AllFinished(trace) && EditsEnter(trace)
      requires CanFinish(kind, item) && EditedAsWanted(trace, kind, item)
      ensures var next := trace + [Processed(kind, item)];
        && CheckpointsSound(loadedIssues, loadedPulls, next) && AllFinished(next) && EditsEnter(next)
        && NoEditLast(next)
      ensures forall k, m ::
        Entered(k, trace + [Processed(kind, item)], m) <==> Entered(k, trace, m) || (k == kind && m == item.number)
    {
      LogGrows(loadedIssues, loadedPulls, trace, Processed(kind, item));
      FinishedGrows(trace, Processed(kind, item));
      if trace != [] && trace[|trace| - 1].Edited? {
        WantedIsOwn(trace, kind, item);
      }
      EditsGrow(trace, Processed(kind, item));
      hide CheckpointsSound, AllFinished, EditsEnter, Entered, CanFinish, EditedAsWanted;
    }

    /** Entering a finished item into the state. */
    method Add(kind: Kind, item: Item)
      requires Consistent() && NotLoaded(kind, item)
      requires CanFinish(kind, item) && EditedAsWanted(log, kind, item)
      modifies this
      ensures Valid() && log == old(log) + [Processed(kind, item)]
      ensures forall m :: m in StateOf(kind) <==> m == item.number || m in old(StateOf(kind))
      ensures StateOf(Other(kind)) == old(StateOf(Other(kind)))
      ensures CountersOf(Other(kind)) == old(CountersOf(Other(kind)))
      ensures CountersOf(kind) == old(CountersOf(kind)).(processed := old(CountersOf(kind)).processed + 1)
    {
      hide CheckpointsSound, AllFinished, EditsEnter, Entered, CanFinish, EditedAsWanted, NoEditLast;
      LogEntered(log, kind, item);
      Insert(kind, item.number);
      log := log + [Processed(kind, item)];
    }

    lemma ActionsGrow(kind: Kind, items: seq<Item>, item: Item)
      ensures Actions(kind, items + [item]) == Actions(kind, items) + ActionsFor(kind, item)
    {
      assert (items + [item])[..|items|] == items;
    }

    function Now(kind: Kind): Progress
      reads this
    {
      Progress(log, StateOf(kind), CountersOf(kind), StateOf(Other(kind)), CountersOf(Other(kind)))
    }

    function Numbers(items: seq<Item>): set<nat> {
      set i | 0 <= i < |items| :: items[i].number
    }

    /** From `p` to `q` exactly these items were processed, in order: their actions were
        logged, their numbers added, each was counted, and nothing else changed. */
    ghost predicate Performed(kind: Kind, items: seq<Item>, p: Progress, q: Progress) {
      && q.log == p.log + Actions(kind, items)
      && (forall n :: n in q.mine <==> n in p.mine || n in Numbers(items))
      && q.counters == p.counters.(processed := p.counters.processed + |items|)
      && q.others == p.others && q.otherCounters == p.otherCounters
    }

    lemma PerformedNone(kind: Kind, p: Progress)
      ensures Performed(kind, [], p, p)
    {
    }

    lemma PerformedMore(kind: Kind, items: seq<Item>, item: Item, p: Progress, q: Progress, r: Progress)
      requires Performed(kind, items, p, q) && Performed(kind, [item], q, r)
      ensures Performed(kind, items + [item], p, r)
    {
      ActionsGrow(kind, items, item);
      ActionsGrow(kind, [], item);
      hide ActionsFor;
      assert [] + [item] == [item];
    }

    lemma PerformedOne(kind: Kind, item: Item)
      ensures forall p, q :: Performed(kind, [item], p, q) <==>
        (&& q.log == p.log + ActionsFor(kind, item)
         && (forall n :: n in q.mine <==> n in p.mine || n == item.number)
         && q.counters == p.counters.(processed := p.counters.processed + 1)
         && q.others == p.others && q.otherCounters == p.otherCounters)
    {
      ActionsGrow(kind, [], item);
      assert [] + [item] == [item] && Actions(kind, []) + ActionsFor(kind, item) == ActionsFor(kind, item);
      assert forall n :: n in Numbers([item]) <==> n == item.number by {
        assert [item][0] == item;
      }
      hide Actions, ActionsFor, Numbers;
    }

    /** One item, from its labels to its place in the state. */
    method Perform(kind: Kind, item: Item)
      requires Valid() && NotLoaded(kind, item)
      requires Completes(kind, item)
      modifies this
      ensures Valid() && Performed(kind, [item], old(Now(kind)), Now(kind))
    {
      CompletesMeans(kind, item);
      PerformedOne(kind, item);
      hide Valid, Consistent, LabelsFor, CanFinish, EditedAsWanted, NotLoaded, Performed;
      ApplyLabels(kind, item, LabelsFor(kind, item).value);
      Add(kind, item);
    }

    ghost function Loaded(kind: Kind): seq<nat> {
      if kind.Issue? then loadedIssues else loadedPulls
    }

    ghost predicate NotLoaded(kind: Kind, item: Item) {
      item.number !in Loaded(kind)
    }

    ghost predicate NoneLoaded(kind: Kind, items: seq<Item>) {
      forall i :: 0 <= i < |items| ==> NotLoaded(kind, items[i])
    }

    method ProcessPending(kind: Kind, pending: seq<Item>) returns (ok: bool)
      requires Valid() && NoneLoaded(kind, pending)
      modifies this
      ensures Valid() && Performed(kind, pending[..Completed(kind, pending)], old(Now(kind)), Now(kind))
      ensures ok <==> Completed(kind, pending) == |pending|
    {
      PerformedNone(kind, Now(kind));
      hide Known, Valid, NotLoaded, Completes, Performed, Completed, Now, StateOf, CountersOf;
      for i := 0 to |pending|
        invariant Valid() && i <= Completed(kind, pending)
        invariant Performed(kind, pending[..i], old(Now(kind)), Now(kind))
      {
        var item := pending[i];
        assert NotLoaded(kind, item) && pending[..i + 1] == pending[..i] + [item];
        if !Completes(kind, item) {
          return false;
        }
        ghost var between := Now(kind);
        Perform(kind, item);
        PerformedMore(kind, pending[..i], item, old(Now(kind)), between, Now(kind));
      }
      assert pending[..|pending|] == pending;
      ok := true;
    }

    /** A save, if one is due, of the numbers of both kinds. */
    function Checkpoint(kind: Kind, p: Progress, due: bool): seq<Action> {
      if !due || dryRun then []
      else if kind.Issue? then [Saved(SortedNumbers(p.mine), SortedNumbers(p.others))]
      else [Saved(SortedNumbers(p.others), SortedNumbers(p.mine))]
    }

    function Counted(p: Progress, scanned: nat, skipped: nat): Progress {
      p.(counters := Counters(p.counters.scanned + scanned, p.counters.processed, p.counters.skipped + skipped))
    }

    /** One work batch takes `p` to `q`: what is known is skipped, the rest is processed in
        order, and then the state is saved. A failure leaves the run where it is. */
    ghost predicate BatchRan(kind: Kind, items: seq<Item>, p: Progress, q: Progress, ok: bool) {
      var pending := Pending(items, p.mine);
      var n := Completed(kind, pending);
      && ok == (n == |pending|)
      && exists after ::
           && Performed(kind, pending[..n], Counted(p, |items|, |items| - |pending|), after)
           && q == after.(log := after.log + Checkpoint(kind, after, ok && n > 0))
    }

    lemma PendingNotLoaded(kind: Kind, items: seq<Item>)
      requires Valid()
      ensures NoneLoaded(kind, Pending(items, StateOf(kind))) && Now(kind).mine == StateOf(kind)
    {
      var pending := Pending(items, StateOf(kind));
      PendingMembers(items, StateOf(kind));
      hide Pending;
      assert forall n :: n in Loaded(kind) ==> n in StateOf(kind);
      assert forall i :: 0 <= i < |pending| ==> pending[i] in pending;
    }

    lemma BatchEnds(kind: Kind, items: seq<Item>, p: Progress, after: Progress, ok: bool)
      requires var pending := Pending(items, p.mine);
        && Performed(kind, pending[..Completed(kind, pending)], Counted(p, |items|, |items| - |pending|), after)
        && ok == (Completed(kind, pending) == |pending|)
      ensures BatchRan(kind, items, p,
        after.(log := after.log + Checkpoint(kind, after, ok && Pending(items, p.mine) != [])), ok)
    {
      hide Performed, Pending, Completed, Checkpoint;
    }

    /** Counting and processing a batch, before its checkpoint. */
    method WorkThrough(kind: Kind, items: seq<Item>, pending: seq<Item>) returns (ok: bool)
      requires Valid() && NoneLoaded(kind, pending) && |pending| <= |items|
      modifies this
      ensures Valid()
      ensures Performed(kind, pending[..Completed(kind, pending)],
        Counted(old(Now(kind)), |items|, |items| - |pending|), Now(kind))
      ensures ok <==> Completed(kind, pending) == |pending|
    {
      hide Known, NoneLoaded, Valid, Performed, Completed, Now, StateOf, CountersOf, Counted;
      Count(kind, |items|, |items| - |pending|);
      ok := ProcessPending(kind, pending);
    }

    method RunBatch(kind: Kind, items: seq<Item>) returns (ok: bool)
      requires Valid()
      modifies this
      ensures Valid() && BatchRan(kind, items, old(Now(kind)), Now(kind), ok)
    {
      hide *;
      var pending := Pending(items, StateOf(kind));
      PendingNotLoaded(kind, items);
      ok := WorkThrough(kind, items, pending);
      BatchEnds(kind, items, old(Now(kind)), Now(kind), ok);
      SaveIfDue(kind, ok && |pending| > 0);
    }

    method SaveIfDue(kind: Kind, due: bool)
      requires Valid()
      modifies this`log
      ensures Valid()
      ensures Now(kind) == old(Now(kind)).(log := old(Now(kind)).log + Checkpoint(kind, old(Now(kind)), due))
    {
      if due && !dryRun {
        SaveState();
      }
    }

    /** The batches one after the other; only the last may have failed. */
    ghost predicate BatchesRan(kind: Kind, batches: seq<Batch>, p: Progress, q: Progress, ok: bool) {
      if batches == [] then q == p && ok
      else
        var n := |batches| - 1;
        exists between ::
          BatchesRan(kind, batches[..n], p, between, true) && BatchRan(kind, batches[n].items, between, q, ok)
    }

    /** The batches of one kind, until one fails. */
    method RunBatches(kind: Kind, batches: seq<Batch>) returns (ok: bool)
      requires Valid()
      modifies this
      ensures Valid()
      ensures exists k :: (0 <= k <= |batches| && (ok ==> k == |batches|)
        && BatchesRan(kind, batches[..k], old(Now(kind)), Now(kind), ok))
    {
      hide Valid, BatchRan, Now;
      ok := true;
      for i := 0 to |batches|
        invariant ok && Valid()
        invariant BatchesRan(kind, batches[..i], old(Now(kind)), Now(kind), true)
      {
        ghost var between := Now(kind);
        ok := RunBatch(kind, batches[i].items);
        assert batches[..i + 1][..i] == batches[..i];
        assert BatchesRan(kind, batches[..i + 1], old(Now(kind)), Now(kind), ok);
        if !ok {
          return;
        }
      }
      assert batches[..|batches|] == batches;
    }

    /** What a stretch of a run does to log and counters, and to no other kind's. */
    ghost predicate Accounted(p: Progress, q: Progress, scanned: nat, ok: bool) {
      && p.log <= q.log
      && q.others == p.others && q.otherCounters == p.otherCounters
      && (forall n :: n in p.mine ==> n in q.mine)
      && q.counters.scanned == p.counters.scanned + scanned
      && (ok ==> q.counters.processed + q.counters.skipped == p.counters.processed + p.counters.skipped + scanned)
      && (ok && !dryRun ==> q.log == p.log || q.log[|q.log| - 1].Saved?)
    }

    /** A batch that succeeds accounts for every item, leaves each one's number in the state
        and, if it did anything, ends with a checkpoint. */
    lemma BatchAccounts(kind: Kind, items: seq<Item>, p: Progress, q: Progress, ok: bool)
      requires BatchRan(kind, items, p, q, ok)
      ensures Accounted(p, q, |items|, ok)
      ensures ok ==> forall item :: item in items ==> item.number in q.mine
    {
      var pending := Pending(items, p.mine);
      PendingMembers(items, p.mine);
      assert Actions(kind, []) == [];
      assert pending[..|pending|] == pending;
      hide ActionsFor, Pending, Completed, SortedNumbers;
    }

    lemma AccountedTwice(p: Progress, q: Progress, r: Progress, a: nat, b: nat, ok: bool)
      requires Accounted(p, q, a, true) && Accounted(q, r, b, ok)
      ensures Accounted(p, r, a + b, ok)
    {
    }

    lemma LastBatch(kind: Kind, batches: seq<Batch>, p: Progress, q: Progress, ok: bool) returns (between: Progress)
      requires batches != [] && BatchesRan(kind, batches, p, q, ok)
      ensures BatchesRan(kind, batches[..|batches| - 1], p, between, true)
      ensures BatchRan(kind, batches[|batches| - 1].items, between, q, ok)
    {
      hide BatchRan;
      between :| BatchesRan(kind, batches[..|batches| - 1], p, between, true)
        && BatchRan(kind, batches[|batches| - 1].items, between, q, ok);
    }

    /** Scanned equals processed plus skipped over any run of batches that succeeds, and such
        a run ends with a checkpoint unless it changed nothing. */
    lemma {:induction false} BatchesAccount(kind: Kind, batches: seq<Batch>, p: Progress, q: Progress, ok: bool)
      requires BatchesRan(kind, batches, p, q, ok)
      ensures Accounted(p, q, |ItemsOf(batches)|, ok)
      ensures ok ==> forall item :: item in ItemsOf(batches) ==> item.number in q.mine
    {
      if batches != [] {
        var n := |batches| - 1;
        hide BatchesRan, BatchRan;
        var between := LastBatch(kind, batches, p, q, ok);
        BatchesAccount(kind, batches[..n], p, between, true);
        BatchAccounts(kind, batches[n].items, between, q, ok);
        assert forall k :: k in between.mine ==> k in q.mine;
        hide Accounted;
        AccountedTwice(p, between, q, |ItemsOf(batches[..n])|, |batches[n].items|, ok);
      }
    }

    lemma {:induction false} ActionsEnterOnly(kind: Kind, items: seq<Item>)
      ensures forall a :: a in Actions(kind, items) && a.Processed? ==> a.kind == kind && a.item in items
    {
      if items != [] {
        ActionsEnterOnly(kind, items[..|items| - 1]);
        hide LabelsFor;
      }
    }

    lemma BatchEntersOnly(kind: Kind, items: seq<Item>, p: Progress, q: Progress, ok: bool)
      requires BatchRan(kind, items, p, q, ok)
      ensures OnlyFrom(kind, items, p.log, q.log)
    {
      var pending := Pending(items, p.mine);
      PendingMembers(items, p.mine);
      ActionsEnterOnly(kind, pending[..Completed(kind, pending)]);
      hide Actions, Pending, Completed, SortedNumbers;
    }

    /** A run of batches enters no item that is not in them. */
    lemma {:induction false} BatchesEnterOnly(kind: Kind, batches: seq<Batch>, p: Progress, q: Progress, ok: bool)
      requires BatchesRan(kind, batches, p, q, ok)
      ensures OnlyFrom(kind, ItemsOf(batches), p.log, q.log)
    {
      hide OnlyFrom, BatchRan;
      if batches != [] {
        var n := |batches| - 1;
        hide BatchesRan;
        var between := LastBatch(kind, batches, p, q, ok);
        BatchesEnterOnly(kind, batches[..n], p, between, true);
        BatchEntersOnly(kind, batches[n].items, between, q, ok);
        OnlyFromTwice(kind, ItemsOf(batches[..n]), batches[n].items, p.log, between.log, q.log);
      } else {
        NothingEntered(kind, p.log);
      }
    }

    /** Some item whose number is not among `known` cannot be processed to the end. */
    ghost predicate Blocked(kind: Kind, items: seq<Item>, known: seq<nat>) {
      exists i :: 0 <= i < |items| && items[i].number !in known && !CanFinish(kind, items[i])
    }

    lemma BatchBlocked(kind: Kind, items: seq<Item>, p: Progress, q: Progress)
      requires BatchRan(kind, items, p, q, false)
      ensures Blocked(kind, items, p.mine)
    {
      var pending := Pending(items, p.mine);
      var n := Completed(kind, pending);
      assert n < |pending| && !Completes(kind, pending[n]);
      CompletesMeans(kind, pending[n]);
      hide Completes, CanFinish, Completed, Performed, Pending, Checkpoint;
      PendingMembers(items, p.mine);
      assert pending[n] in pending;
      var i :| 0 <= i < |items| && items[i] == pending[n];
    }

    lemma BlockedWithin(kind: Kind, init: seq<Item>, part: seq<Item>, known: seq<nat>, fewer: seq<nat>)
      requires Blocked(kind, part, known) && forall n :: n in fewer ==> n in known
      ensures Blocked(kind, init + part, fewer)
    {
      hide CanFinish;
      var i :| 0 <= i < |part| && part[i].number !in known && !CanFinish(kind, part[i]);
      assert (init + part)[|init| + i] == part[i];
    }

    /** A run of batches fails only because of an item that was not known when it started and
        cannot be processed to the end. */
    lemma BatchesBlocked(kind: Kind, batches: seq<Batch>, p: Progress, q: Progress)
      requires batches != [] && BatchesRan(kind, batches, p, q, false)
      ensures Blocked(kind, ItemsOf(batches), p.mine)
    {
      var n := |batches| - 1;
      hide BatchesRan, BatchRan, Blocked;
      var between := LastBatch(kind, batches, p, q, false);
      BatchesAccount(kind, batches[..n], p, between, true);
      BatchBlocked(kind, batches[n].items, between, q);
      BlockedWithin(kind, ItemsOf(batches[..n]), batches[n].items, between.mine, p.mine);
    }

    lemma FailedBatches(kind: Kind, batches: seq<Batch>, p: Progress, q: Progress)
      requires BatchesRan(kind, batches, p, q, false)
      ensures batches != []
    {
      hide BatchRan;
    }

    lemma BlockedAmong(kind: Kind, part: seq<Item>, items: seq<Item>, known: seq<nat>)
      requires Blocked(kind, part, known) && forall item :: item in part ==> item in items
      ensures Blocked(kind, items, known)
    {
      hide CanFinish;
      var i :| 0 <= i < |part| && part[i].number !in known && !CanFinish(kind, part[i]);
      assert part[i] in part;
      var j :| 0 <= j < |items| && items[j] == part[i];
    }

    method Count(kind: Kind, scanned: nat, skipped: nat)
      requires Valid()
      modifies this`issueCounters, this`pullCounters
      ensures Valid()
      ensures Now(kind) == Counted(old(Now(kind)), scanned, skipped)
    {
      if kind.Issue? {
        issueCounters := Counters(
          issueCounters.scanned + scanned, issueCounters.processed, issueCounters.skipped + skipped);
      } else {
        pullCounters := Counters(
          pullCounters.scanned + scanned, pullCounters.processed, pullCounters.skipped + skipped);
      }
    }

    method SaveState()
      requires Valid() && !dryRun
      modifies this`log
      ensures Valid() && log == old(log) + [Saved(SortedNumbers(issues), SortedNumbers(pullRequests))]
    {
      LogSaved(loadedIssues, loadedPulls, log, issues, pullRequests);
      FinishedGrows(log, Saved(SortedNumbers(issues), SortedNumbers(pullRequests)));
      EditsGrow(log, Saved(SortedNumbers(issues), SortedNumbers(pullRequests)));
      hide CheckpointsSound, AllFinished, EditsEnter, Entered, SortedNumbers;
      log := log + [Saved(SortedNumbers(issues), SortedNumbers(pullRequests))];
    }
  }

  function Pending(items: seq<Item>, known: seq<nat>): (r: seq<Item>)
    ensures |r| <= |items|
  {
    if items == [] then []
    else (if items[0].number in known then [] else [items[0]]) + Pending(items[1..], known)
  }

  lemma PendingFirst(item: Item, rest: seq<Item>, known: seq<nat>)
    ensures Pending([item] + rest, known) == (if item.number in known then [] else [item]) + Pending(rest, known)
  {
    assert ([item] + rest)[1..] == rest;
  }

  /** What is pending is what is not known, every item of it, in order. */
  lemma {:induction false} PendingFilters(a: seq<Item>, item: Item, b: seq<Item>, known: seq<nat>)
    ensures Pending(a + [item] + b, known)
      == Pending(a, known) + (if item.number in known then [] else [item]) + Pending(b, known)
    ensures Pending([], known) == []
  {
    assert Pending([], known) == [];
    hide Pending;
    if a == [] {
      assert a + [item] + b == [item] + b;
      PendingFirst(item, b, known);
    } else {
      assert a == [a[0]] + a[1..] && a + [item] + b == [a[0]] + (a[1..] + [item] + b);
      PendingFirst(a[0], a[1..], known);
      PendingFirst(a[0], a[1..] + [item] + b, known);
      PendingFilters(a[1..], item, b, known);
      var head, mid := (if a[0].number in known then [] else [a[0]]), if item.number in known then [] else [item];
      Regroup(head, Pending(a[1..], known) + mid, Pending(b, known));
      Regroup(head, Pending(a[1..], known), mid);
    }
  }

  lemma PendingMembers(items: seq<Item>, known: seq<nat>)
    ensures forall item :: item in Pending(items, known) <==> item in items && item.number !in known
  {
  }

  lemma LogGrows(loadedIssues: seq<nat>, loadedPulls: seq<nat>, log: seq<Action>, a: Action)
    requires CheckpointsSound(loadedIssues, loadedPulls, log) && !a.Saved?
    ensures CheckpointsSound(loadedIssues, loadedPulls, log + [a])
    ensures forall k, m :: Entered(k, log + [a], m) <==> Entered(k, log, m) || Enters(a, k, m)
  {
    var next := log + [a];
    hide Known;
    forall i | 0 <= i < |log| ensures next[i] == log[i] && next[..i] == log[..i] {
    }
    EnteredGrows(log, a);
  }

  lemma EnteredGrows(log: seq<Action>, a: Action)
    ensures forall k, m :: Entered(k, log + [a], m) <==> Entered(k, log, m) || Enters(a, k, m)
  {
    var next := log + [a];
    forall k, m ensures Entered(k, next, m) <==> Entered(k, log, m) || Enters(a, k, m) {
      if Entered(k, log, m) {
        var i :| 0 <= i < |log| && Enters(log[i], k, m);
        assert Enters(next[i], k, m);
      }
      if Enters(a, k, m) {
        assert Enters(next[|log|], k, m);
      }
    }
  }

  lemma LogSaved(loadedIssues: seq<nat>, loadedPulls: seq<nat>, log: seq<Action>, issues: seq<nat>, pulls: seq<nat>)
    requires CheckpointsSound(loadedIssues, loadedPulls, log)
    requires forall n :: n in issues <==> Known(Issue, loadedIssues, log, n)
    requires forall n :: n in pulls <==> Known(PullRequest, loadedPulls, log, n)
    ensures CheckpointsSound(loadedIssues, loadedPulls, log + [Saved(SortedNumbers(issues), SortedNumbers(pulls))])
    ensures forall k, m ::
      Entered(k, log + [Saved(SortedNumbers(issues), SortedNumbers(pulls))], m) <==> Entered(k, log, m)
  {
    var saved := Saved(SortedNumbers(issues), SortedNumbers(pulls));
    var next := log + [saved];
    AscendingIsOrder();
    SortAscending(issues, NumericOrder);
    SortAscending(pulls, NumericOrder);
    EnteredGrows(log, saved);
    hide Known;
    assert next[..|log|] == log;
    forall i | 0 <= i < |log| ensures next[i] == log[i] && next[..i] == log[..i] {
    }
  }

  // ---------- stopping anywhere ----------

  /** What the state file holds after `log`: the last checkpoint, or what was loaded. */
  function OnDisk(kind: Kind, loaded: seq<nat>, log: seq<Action>): seq<nat> {
    if log == [] then loaded
    else
      match log[|log| - 1]
      case Saved(issues, pullRequests) => if kind.Issue? then issues else pullRequests
      case _ => OnDisk(kind, loaded, log[..|log| - 1])
  }

  /** After a save and until the next one the state file holds what was saved; before any
      save it holds what was loaded. */
  lemma {:induction false} DiskHoldsLastSave(
      kind: Kind, loaded: seq<nat>, before: seq<Action>, issues: seq<nat>, pulls: seq<nat>, after: seq<Action>)
    requires forall i :: 0 <= i < |after| ==> !after[i].Saved?
    ensures OnDisk(kind, loaded, before + [Saved(issues, pulls)] + after) == if kind.Issue? then issues else pulls
    ensures OnDisk(kind, loaded, after) == loaded
    decreases |after|
  {
    var all := before + [Saved(issues, pulls)] + after;
    if after != [] {
      var n := |after| - 1;
      assert all[..|all| - 1] == before + [Saved(issues, pulls)] + after[..n];
      DiskHoldsLastSave(kind, loaded, before, issues, pulls, after[..n]);
    }
  }

  /** The state file keeps what was loaded and lists beyond it only what `log` entered. */
  lemma {:induction false} DiskIsSound(loadedIssues: seq<nat>, loadedPulls: seq<nat>, log: seq<Action>)
    requires CheckpointsSound(loadedIssues, loadedPulls, log)
    ensures forall n :: n in loadedIssues ==> n in OnDisk(Issue, loadedIssues, log)
    ensures forall n :: n in loadedPulls ==> n in OnDisk(PullRequest, loadedPulls, log)
    ensures forall n :: n in OnDisk(Issue, loadedIssues, log) ==> Known(Issue, loadedIssues, log, n)
    ensures forall n :: n in OnDisk(PullRequest, loadedPulls, log) ==> Known(PullRequest, loadedPulls, log, n)
  {
    if log != [] {
      var n := |log| - 1;
      var init := log[..n];
      PrefixSound(loadedIssues, loadedPulls, log, n);
      DiskIsSound(loadedIssues, loadedPulls, init);
      assert init + [log[n]] == log;
      EnteredGrows(init, log[n]);
      hide Entered;
    }
  }

  lemma PrefixSound(loadedIssues: seq<nat>, loadedPulls: seq<nat>, log: seq<Action>, k: nat)
    requires CheckpointsSound(loadedIssues, loadedPulls, log) && k <= |log|
    ensures CheckpointsSound(loadedIssues, loadedPulls, log[..k])
  {
    hide Known;
    forall i | 0 <= i < k ensures log[..k][i] == log[i] && log[..k][..i] == log[..i] {
    }
  }

  lemma EnteredIsFinished(s: LabelState, k: nat)
    requires s.AllFinished(s.log) && k <= |s.log|
    ensures forall kind, n :: Entered(kind, s.log[..k], n) ==> s.FullyProcessed(kind, s.log[..k], n)
  {
    var log := s.log[..k];
    hide LabelState.CanFinish, LabelState.EditedAsWanted;
    forall kind, n | Entered(kind, log, n) ensures s.FullyProcessed(kind, log, n) {
      var i :| 0 <= i < |log| && Enters(log[i], kind, n);
      assert s.log[i] == log[i] && s.Finished(s.log, i) && s.log[..i] == log[..i];
      assert s.Finished(log, i);
    }
  }

  /** Wherever a run stops, the state on disk keeps what was loaded and lists beyond that
      only numbers of items that the run had classified and, unless it is dry, given the
      labels they called for by then: a later run skips nothing undone. */
  lemma StopAnywhere(s: LabelState, k: nat)
    requires s.Valid() && k <= |s.log|
    ensures var log := s.log[..k];
      forall kind ::
        && (forall n :: n in s.Loaded(kind) ==> n in OnDisk(kind, s.Loaded(kind), log))
        && (forall n :: n in OnDisk(kind, s.Loaded(kind), log) ==>
              n in s.Loaded(kind) || s.FullyProcessed(kind, log, n))
  {
    PrefixSound(s.loadedIssues, s.loadedPulls, s.log, k);
    DiskIsSound(s.loadedIssues, s.loadedPulls, s.log[..k]);
    EnteredIsFinished(s, k);
    hide Entered, LabelState.FullyProcessed, CheckpointsSound, OnDisk;
    forall kind
      ensures forall n :: n in s.Loaded(kind) ==> n in OnDisk(kind, s.Loaded(kind), s.log[..k])
      ensures forall n :: n in OnDisk(kind, s.Loaded(kind), s.log[..k]) ==>
        n in s.Loaded(kind) || s.FullyProcessed(kind, s.log[..k], n) {
      assert kind == Issue || kind == PullRequest;
    }
  }

  /** A later run that loads what an earlier run, stopped anywhere, left on disk: at every
      moment, the numbers it skips are those loaded by the earlier run, those of items that
      the earlier run had fully processed when it stopped, and those of items that it has
      fully processed itself. */
  lemma LaterSkipsNothingUndone(earlier: LabelState, k: nat, later: LabelState)
    requires earlier.Valid() && later.Valid() && k <= |earlier.log|
    requires forall kind :: later.Loaded(kind) == OnDisk(kind, earlier.Loaded(kind), earlier.log[..k])
    ensures forall kind, n :: n in later.StateOf(kind) ==>
      || n in earlier.Loaded(kind)
      || earlier.FullyProcessed(kind, earlier.log[..k], n)
      || later.FullyProcessed(kind, later.log, n)
  {
    StopAnywhere(earlier, k);
    EnteredIsFinished(later, |later.log|);
    assert later.log[..|later.log|] == later.log;
    hide LabelState.FullyProcessed, CheckpointsSound, OnDisk;
    forall kind, n | n in later.StateOf(kind)
      ensures n in later.Loaded(kind) || later.FullyProcessed(kind, later.log, n) {
      assert Known(kind, later.Loaded(kind), later.log, n);
    }
  }

  lemma ItemsOfPrefix(batches: seq<Batch>, k: nat)
    requires k <= |batches|
    ensures forall item :: item in ItemsOf(batches[..k]) ==> item in ItemsOf(batches)
  {
    if k < |batches| {
      var init := batches[..|batches| - 1];
      ItemsOfPrefix(init, k);
      assert init[..k] == batches[..k];
    } else {
      assert batches[..k] == batches;
    }
  }

  /** One kind's loop over its pages takes `p` to `q`: the first items up to the limit, in
      full batches, run one batch after the other up to the first that fails. */
  ghost predicate KindRan(
      state: LabelState, kind: Kind, pages: seq<seq<Item>>, limit: Option<nat>, p: Progress, q: Progress, ok: bool)
  {
    var items := FirstAllowed(Concat(pages), limit);
    exists batches: seq<Batch>, k ::
      && 0 <= k <= |batches| && (ok ==> k == |batches|)
      && ItemsOf(batches) == items && WellBatched(batches, |items|)
      && state.BatchesRan(kind, batches[..k], p, q, ok)
  }

  method LabelOpenKind(state: LabelState, kind: Kind, pages: seq<seq<Item>>, limit: Option<nat>) returns (ok: bool)
    requires state.Valid() && pages != []
    modifies state
    ensures state.Valid()
    ensures KindRan(state, kind, pages, limit, old(state.Now(kind)), state.Now(kind), ok)
  {
    hide LabelState.BatchesRan, LabelState.Valid, FirstAllowed, WellBatched, ItemsOf, Concat, LabelState.Now;
    var batches, _ := FetchOpenLabelItemBatches(pages, limit);
    ghost var before := state.Now(kind);
    ok := state.RunBatches(kind, batches);
    ghost var k :| (0 <= k <= |batches| && (ok ==> k == |batches|)
      && state.BatchesRan(kind, batches[..k], before, state.Now(kind), ok));
  }

  /** What such a loop does: it enters only items within the limit; if it succeeds, all of
      them are in the state and accounted for; if it fails, one of them that was not known
      before could not be processed to the end. */
  lemma KindMeaning(
      state: LabelState, kind: Kind, pages: seq<seq<Item>>, limit: Option<nat>, p: Progress, q: Progress, ok: bool)
    requires KindRan(state, kind, pages, limit, p, q, ok)
    ensures var items := FirstAllowed(Concat(pages), limit);
      && OnlyFrom(kind, items, p.log, q.log)
      && q.others == p.others && q.otherCounters == p.otherCounters
      && (ok ==> state.Accounted(p, q, |items|, true) && forall item :: item in items ==> item.number in q.mine)
      && (!ok ==> state.Blocked(kind, items, p.mine))
  {
    hide LabelState.BatchesRan, LabelState.Blocked, FirstAllowed, WellBatched, ItemsOf, Concat;
    var items := FirstAllowed(Concat(pages), limit);
    var batches: seq<Batch>, k :| 0 <= k <= |batches| && (ok ==> k == |batches|)
      && ItemsOf(batches) == items && WellBatched(batches, |items|)
      && state.BatchesRan(kind, batches[..k], p, q, ok);
    state.BatchesEnterOnly(kind, batches[..k], p, q, ok);
    state.BatchesAccount(kind, batches[..k], p, q, ok);
    ItemsOfPrefix(batches, k);
    if ok {
      assert batches[..k] == batches;
    } else {
      state.FailedBatches(kind, batches[..k], p, q);
      state.BatchesBlocked(kind, batches[..k], p, q);
      state.BlockedAmong(kind, ItemsOf(batches[..k]), items, p.mine);
    }
  }

  /** The same progress, seen from the other kind. */
  function Turned(p: Progress): Progress {
    Progress(p.log, p.others, p.otherCounters, p.mine, p.counters)
  }

  /** Both loops, issues first. The run is the one that the loops describe: issues, then, if
      they succeed, pull requests. It enters only items within the limit; if it succeeds, all
      of them are in its state, and each kind's scanned count is its processed plus its
      skipped count; if it fails, an item within the limit that was not in the state at the
      start could not be processed to the end. */
  method LabelOpenItems(state: LabelState, issuePages: seq<seq<Item>>, pullPages: seq<seq<Item>>, limit: Option<nat>)
      returns (ok: bool)
    requires state.Valid() && issuePages != [] && pullPages != [] && state.log == []
    requires state.issueCounters == Counters(0, 0, 0) && state.pullCounters == Counters(0, 0, 0)
    modifies state
    ensures state.Valid()
    ensures exists between: Progress, issuesOk: bool ::
      && KindRan(state, Issue, issuePages, limit, old(state.Now(Issue)), between, issuesOk)
      && (if issuesOk then KindRan(state, PullRequest, pullPages, limit, Turned(between), state.Now(PullRequest), ok)
          else !ok && state.Now(Issue) == between)
    ensures forall a :: a in state.log && a.Processed? ==>
      a.item in FirstAllowed(Concat(if a.kind.Issue? then issuePages else pullPages), limit)
    ensures ok ==>
      && (forall item :: item in FirstAllowed(Concat(issuePages), limit) ==> item.number in state.issues)
      && (forall item :: item in FirstAllowed(Concat(pullPages), limit) ==> item.number in state.pullRequests)
      && state.issueCounters.scanned == |FirstAllowed(Concat(issuePages), limit)|
      && state.issueCounters.scanned == state.issueCounters.processed + state.issueCounters.skipped
      && state.pullCounters.scanned == |FirstAllowed(Concat(pullPages), limit)|
      && state.pullCounters.scanned == state.pullCounters.processed + state.pullCounters.skipped
    ensures ok && !state.dryRun && state.log != [] ==> state.log[|state.log| - 1].Saved?
    ensures !ok ==>
      || state.Blocked(Issue, FirstAllowed(Concat(issuePages), limit), old(state.issues))
      || state.Blocked(PullRequest, FirstAllowed(Concat(pullPages), limit), old(state.pullRequests))
  {
    hide LabelState.Valid, FirstAllowed, KindRan, LabelState.Blocked, Concat;
    ghost var start := state.Now(Issue);
    ok := LabelOpenKind(state, Issue, issuePages, limit);
    ghost var between := state.Now(Issue);
    KindMeaning(state, Issue, issuePages, limit, start, between, ok);
    if ok {
      assert Turned(between) == state.Now(PullRequest);
      ok := LabelOpenKind(state, PullRequest, pullPages, limit);
      KindMeaning(state, PullRequest, pullPages, limit, Turned(between), state.Now(PullRequest), ok);
    }
  }
}
