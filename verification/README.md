# Models of the repository's tooling cores

Dafny models of seven pieces of repository tooling, with the properties their callers rely on. Each module is
named after the piece it models.

- **Translation sync** (`scripts/control-ui-i18n.ts`). `CatalogueTree` has nested catalogues as values, with
  flattening to dotted keys and rebuilding; `CatalogueObjects` has the same catalogues as mutable objects that the
  rebuilding loop writes into. `TranslationBatches` packs pending keys into prompts, `BatchTranslator` gets one batch
  through an unreliable provider, `LocaleSync` is the whole run of one locale, and `LocaleSyncTheorems`,
  `LocaleSyncTexts`, `LocaleSyncRuns`, `LocaleSyncMemory` and `LocaleSyncWords` say what every run guarantees, the
  last with `Words`, the words of a text. `ProcessSupervisor` is the
  supervisor of a child process in the same file, an object driven by events.
- **Call scanning** (`scripts/check-temp-path-guardrails.ts`). `ArgumentScanner` finds the end of a call and splits its
  arguments; `CallGrammar` has calls as an independent grammar; `ReadPool` is the pool of file-reading workers under
  every schedule.
- **Schema code generation** (`scripts/protocol-gen-swift.ts`). `SchemaText` has schema signatures as text,
  `SchemaReader` reads them by the grammar of JSON,
  `SchemaIdentity` says when they coincide and what the registry of names holds, `SchemaUnion` chooses discriminators.
- **Import closure** (`scripts/openclaw-npm-postpublish-verify.ts`). `ImportClosure` searches a possibly cyclic graph.
- **Restart benchmark** (`scripts/bench-gateway-restart.ts`). `RestartProbe`, `RestartSummary`, `ProcessTree`, `LineBuffer`.
- **Sparkle build numbers** (`scripts/sparkle-build.ts`). `SparkleBuild`.
- **Labelling open items** (`scripts/label-open-issues.ts`). `LabelRun`.

`Text`, `Sorting`, `OrderedMap` and `Reachability` hold what several modules share.

Where the source works step by step, the model is a method with its loop, proved equal to a specification function or
relation; where it keeps state in fields, closures or module-level maps, the model is a class. The results in the
table are stated about those functions and relations, for all inputs, runs or schedules. SHA-256, locale-aware
collation, the clock, the provider, the file system and the network are parameters.

Findings about the code:

- The `--force` flag of translation sync has no effect on what a run does (`LocaleSyncRuns.ForceChangesNothing`).
- Idempotence of sync holds with a provider as well as without one, at any later time: the rerun sends no prompt.
- The bound of 4n - 2 prompts for a batch of n keys is attained (`BatchTranslator.PromptBoundIsTight`).
- A patch number can be so high that its Sparkle build number overtakes that of a later version. The exact limits are
  99 before the change of encoding, 10000 after it, and 890000 in a December (`SparkleBuild.BelowAllLaterIff`). The
  comment at `scripts/sparkle-build.ts:83` counts on four digits for the patch.
- Numbered suffixes from 89 on, of whatever name, share one Sparkle build number, as do suffixes that do not end in a
  digit with those numbered 1 (`SparkleBuild.NumberedSuffixesOrder`, `SparkleBuild.LaneMeaning`).
- A property whose enumeration lists its one value twice has no literal (`SchemaUnion.LiteralIsOnlyValue`).
- A printed call is read back exactly when its arguments are `Separable`, which lets the last argument leave square or
  curly brackets open (`ArgumentScanner.ReadBackIff`).

## Model

| member | source | states |
|---|---|---|
| CatalogueTree.FlattenIsLeaves | scripts/control-ui-i18n.ts:359-369 | Flattening lists every string of the tree once, in tree order, under the dotted form of its path, although it is written with an accumulator map. |
| CatalogueTree.JoinSplit | scripts/control-ui-i18n.ts:371-372 | Splitting at dots inverts joining for every path of non-empty dot-free names. |
| CatalogueTree.RebuildGivesPruned | scripts/control-ui-i18n.ts:371-386 | Rebuilding from flattened keys with any new strings gives the same tree in the same order, with those strings and without empty subtrees, and no step overwrites a string or an object. |
| CatalogueTree.RebuildRoundTrip | scripts/control-ui-i18n.ts:359-386 | With its own strings a catalogue is rebuilt as itself, empty subtrees pruned. |
| CatalogueTree.PruningMeaning | scripts/control-ui-i18n.ts:1597-1600 | Pruning removes the empty subtrees, all of them and nothing else. |
| CatalogueTree.FlattenAfterRebuild | scripts/control-ui-i18n.ts:1597-1600 | Flattening a rebuilt locale returns the source's keys, in order, with exactly the new values. |
| CatalogueObjects.Node.SetPathValue | scripts/control-ui-i18n.ts:373-385 | Writing through the mutable objects changes the catalogue they hold as the value-level write does; only the tree's own objects and new ones are written, and the tree stays free of sharing. |
| CatalogueObjects.SetNestedValue | scripts/control-ui-i18n.ts:371-386 | The same for a dotted key, from the root object. |
| CatalogueObjects.RebuildObjects | scripts/control-ui-i18n.ts:1597-1600 | The rebuilding loop leaves fresh objects that hold the pruned source tree with the new strings, in source order. |
| TranslationBatches.BuildTranslationBatches | scripts/control-ui-i18n.ts:1237-1261 | Batches concatenate to the items, hold at most 20 items, respect the character budget whenever they have two or more, and each is closed only because the next item would not fit. |
| TranslationBatches.FitsOneMore | scripts/control-ui-i18n.ts:1245-1247 | The running overflow test together with the item count decides exactly whether the open batch can take one more item. |
| TranslationBatches.GreedyIsOptimal | scripts/control-ui-i18n.ts:1237-1261 | No order-preserving split within the same limits uses fewer batches. |
| TranslationBatches.GreedyUnique | scripts/control-ui-i18n.ts:1237-1261 | Fitting and forced closing determine the batches uniquely. |
| TranslationBatches.BatchesUnique | scripts/control-ui-i18n.ts:1237-1261 | The loop's batches are one function of items and budget. |
| TranslationBatches.BatchWithinBudget | scripts/control-ui-i18n.ts:1237-1261 | Every batch holds 1 to 20 items, and in a batch of two or more the characters of keys and texts, with ten for each item and two more, stay within the budget. |
| BatchTranslator.ReadKeys | scripts/control-ui-i18n.ts:1377-1387 | The loop over an answer returns non-blank texts for exactly the requested keys, or the error for the first key that lacks one. |
| BatchTranslator.AnswerMeaning | scripts/control-ui-i18n.ts:1374-1391 | An answer is good exactly if it gives every requested key a text that is not blank, and is read as exactly those texts; a thrown message is passed on. |
| BatchTranslator.MessageKinds | scripts/control-ui-i18n.ts:907-919 | A timeout is a message that mentions one, and an authentication error one that mentions one of four phrases, in any letter case. |
| BatchTranslator.TranslateBatch | scripts/control-ui-i18n.ts:1360-1422 | Retry, split and early stop consume the provider's answers, and end, exactly as the specification does. |
| BatchTranslator.TranslatePrompts | scripts/control-ui-i18n.ts:1360-1422 | For n keys and any provider at least one and at most 4n - 2 prompts are sent (2 for an empty batch). |
| BatchTranslator.TranslateCovers | scripts/control-ui-i18n.ts:1377-1409 | A success has a non-blank text for every requested key and for no other key, across all splits, and each is the text that one of the answers consumed gave for that very key. |
| BatchTranslator.TranslateFails | scripts/control-ui-i18n.ts:1389-1421 | A failure carries the error that the last answer consumed came to when read for some of the keys. |
| BatchTranslator.TimeoutSplits | scripts/control-ui-i18n.ts:1395-1411 | A failed attempt for several keys that mentions a timeout is replaced by attempts for the two halves, which differ by at most one with the larger first, the second only after the first succeeds. |
| BatchTranslator.OtherFailures | scripts/control-ui-i18n.ts:1412-1421 | Any other failure is repeated once, and a timeout of a single key not at all. |
| BatchTranslator.PromptBoundIsTight | scripts/control-ui-i18n.ts:1360-1422 | For every non-empty batch some provider makes it cost exactly 4n - 2 prompts. |
| Words.NormalFormIffWords | scripts/control-ui-i18n.ts:304-306 | Two texts have the same normal form exactly when they have the same words, the maximal runs of characters other than white space. |
| LocaleSync.PlanKeys | scripts/control-ui-i18n.ts:1457-1498 | The planning loop computes the plan that the theorems are about. |
| LocaleSync.RecordBatch | scripts/control-ui-i18n.ts:1530-1550 | Recording a translated batch changes texts and memory as specified. |
| LocaleSync.TranslateBatches | scripts/control-ui-i18n.ts:1522-1564 | Batches are translated and recorded in order until one fails, whose error is the result. |
| LocaleSync.SettlePending | scripts/control-ui-i18n.ts:1574-1588 | The fallback loop settles every pending key as specified. |
| LocaleSync.SyncLocale | scripts/control-ui-i18n.ts:1431-1694 | A run has the specified outcome and consumes the specified number of provider answers; the theorems below are about that specification. |
| LocaleSync.LoadMeaning | scripts/control-ui-i18n.ts:517-536 | The memory read from its file holds, for a cache key, the last line of that key that has a translation. |
| LocaleSync.ByTextMeaning | scripts/control-ui-i18n.ts:548-560 | Of several usable entries for a text the last one in the memory counts. |
| LocaleSync.PlaceholderMeaning | scripts/control-ui-i18n.ts:402-406 | The placeholders of a text are the names that stand in braces somewhere in it. |
| LocaleSyncRuns.InputsMeaning | scripts/control-ui-i18n.ts:1438-1453 | A run reads the flattened source and locale, the marks of the metadata and the memory of its file, each empty where its file is missing. |
| LocaleSyncTheorems.CollisionFreeDigests | scripts/control-ui-i18n.ts:312-327 | A digest without collisions, empty values or bars gives different keys different cache keys, even when keys contain bars. |
| LocaleSyncWords.HashIffWords | scripts/control-ui-i18n.ts:304-314 | With a digest without collisions two texts have the same hash exactly when they have the same words. |
| LocaleSyncWords.CacheKeySeparates | scripts/control-ui-i18n.ts:325-327 | In one namespace, cache keys coincide exactly for the same locale, key and words. |
| LocaleSyncTheorems.ReloadTm | scripts/control-ui-i18n.ts:517-546 | Writing the memory in sorted order and reloading it keeps every entry, and writing it again gives the same file. |
| LocaleSyncTheorems.PlanSound | scripts/control-ui-i18n.ts:1457-1498 | Every planning step keeps the invariant: the memory never contradicts a chosen text, and every key seen has a text or is pending. |
| LocaleSyncTheorems.FinalDraft | scripts/control-ui-i18n.ts:1500-1595 | Every run that gets as far as the placeholder check has a text for every source key. |
| LocaleSyncTheorems.SyncIsIdempotent | scripts/control-ui-i18n.ts:1431-1694 | After a run that wrote, any later run for the same locale, by any clock, with any options, any budget and any provider answers, and even without the provider that the first run had, sends no prompt, reports no change and computes the same four files (the old `generatedAt` included), although it reloads the memory in another order. |
| LocaleSyncRuns.ForceChangesNothing | scripts/control-ui-i18n.ts:1574-1588 | The force flag never changes the outcome, the files or the prompts, whatever the digest. |
| LocaleSyncRuns.ProviderRun | scripts/control-ui-i18n.ts:1500-1595 | With a provider a run skips without writing exactly when translating failed with an authentication error and skipping was opted into; throws the error exactly when translating failed otherwise, and the error is what the last answer came to; throws a mismatch exactly when translating succeeded and some text lacks or adds a placeholder; and finishes exactly otherwise, with all source keys in order and no fallback key. At most four prompts per key. |
| LocaleSyncRuns.HowRunsEnd | scripts/control-ui-i18n.ts:1500-1600 | With or without a provider: translating fails and the run skips or throws, or every source key has a text, and the run finishes exactly when each text mentions the placeholders of its source text, writing those texts in source order, and throws the mismatch otherwise. |
| LocaleSyncRuns.PlaceholdersKept | scripts/control-ui-i18n.ts:402-455 | Every locale that a run writes mentions, under each key, exactly the placeholders of the source text. |
| LocaleSyncRuns.WhatIsWritten | scripts/control-ui-i18n.ts:1602-1694 | A finished run writes exactly when something changed and it may; its metadata counts translated and marked keys as all keys, lists the marks in order, and keeps the old time exactly when nothing else in it changed; it keeps a glossary that is not empty and else writes the default one. |
| LocaleSyncTexts.PlanIsPointwise | scripts/control-ui-i18n.ts:1457-1498 | What planning decides about a key depends on the files as they were read, not on the keys planned before it, although planning extends the memory as it goes. |
| LocaleSyncTexts.EveryKeyResolved | scripts/control-ui-i18n.ts:1457-1652 | For every finished run and every key: which of own memory entry, existing text, memory by text, a non-blank text that the provider gave for that key during the run, or source text is written, as its previous mark allows, and exactly which keys are marked as fallbacks. |
| LocaleSyncWords.TextsExplained | scripts/control-ui-i18n.ts:1457-1588 | From a memory whose entries have the hash of their own text and stand under their own key, a finished run takes a translation from the memory only for a source text of the same words; it asks the provider, or leaves the source text, only if the memory knows no text of the same words; and the memory it leaves is again of that kind. |
| LocaleSyncMemory.MemoryOfRun | scripts/control-ui-i18n.ts:1457-1550 | The memory that a run writes, read back, entry by entry: what belongs to no source key is kept; a source key's own entry is new if the provider was asked, a copy if an entry for the same text was used, and unchanged otherwise; every changed entry is filed for its key, no entry contradicts the locale, a new entry records provider, model, text and time, and the lines are in ascending order. |
| ProcessSupervisor.AppendCaptures | scripts/control-ui-i18n.ts:974-985 | A capture is always the last `maxChars` characters of the stream with the exact count of those dropped. |
| ProcessSupervisor.Supervisor.OnTimeout | scripts/control-ui-i18n.ts:1125-1143 | The timeout handler moves the object as the step relation says, and no further. |
| ProcessSupervisor.Supervisor.OnKillGraceEnd | scripts/control-ui-i18n.ts:1130-1137 | The same for the end of the kill grace. |
| ProcessSupervisor.Supervisor.OnClose | scripts/control-ui-i18n.ts:1160-1166 | The same for the child's close, with or without a living process group. |
| ProcessSupervisor.Supervisor.OnError | scripts/control-ui-i18n.ts:1150-1154 | The handler moves the object as the step relation says: a pending promise is settled with the error. |
| ProcessSupervisor.Supervisor.OnParentSignal | scripts/control-ui-i18n.ts:1036-1066 | The same for a relayed parent signal. |
| ProcessSupervisor.RunConsistent | scripts/control-ui-i18n.ts:994-1168 | After every possible sequence of events: both captured outputs are right, complaints about failed signals included, exactly the signals that the events call for were sent, callbacks ran at most once, settled means no timer and no handler, an error means settled, a timeout leaves the kill timer armed or SIGKILL sent until the promise settles, and the settlement fits the state. |
| ProcessSupervisor.ErrorSettles | scripts/control-ui-i18n.ts:1150-1154 | In every possible run the child's error settles a pending promise at once with that error, and disarms every timer and handler. |
| ProcessSupervisor.SettlesOnce | scripts/control-ui-i18n.ts:1084-1095 | Once settled, no later event changes the settlement, runs a second callback or leaves a timer or signal handler. |
| ProcessSupervisor.NeverResolvesAfterTimeout | scripts/control-ui-i18n.ts:1096-1143 | After a timeout the promise is only ever pending, timed out, or rejected by the child's error. |
| ProcessSupervisor.RelaysAtMostOnce | scripts/control-ui-i18n.ts:1059-1066 | At most one parent signal is ever relayed, and none once the promise is settled. |
| ProcessSupervisor.AlwaysSettles | scripts/control-ui-i18n.ts:1125-1166 | Once the child has closed, the promise is settled, or the kill timer is armed and its firing settles it as timed out. |
| ProcessSupervisor.ResolvedOutput | scripts/control-ui-i18n.ts:1096-1124 | Resolving with code 0 hands over the whole stream; with another code, its last `maxChars` characters. |
| ProcessSupervisor.CloseOutcome | scripts/control-ui-i18n.ts:1096-1124 | A clean exit resolves if and only if the output fitted and no timeout had fired; another exit, if and only if no timeout had fired and failures are not to be rejected; it resolves with the exit code, or 1 if there is none. |
| ProcessSupervisor.CloseDetails | scripts/control-ui-i18n.ts:1096-1123 | A close that settles, when the output fitted, hands over all of it; a rejected failure is described by the errors, else the output, else the signal. |
| ArgumentScanner.QuoteScanState.BeginQuotedSection | scripts/check-temp-path-guardrails.ts:47-53 | Opens a quote exactly at a quote mark and changes nothing else. |
| ArgumentScanner.QuoteScanState.ConsumeQuotedChar | scripts/check-temp-path-guardrails.ts:55-71 | Consumes exactly the characters inside a quote, tracking escapes and the closing mark. |
| ArgumentScanner.FindMatchingParen | scripts/check-temp-path-guardrails.ts:73-96 | The loop returns the offset that the recursive search finds. |
| ArgumentScanner.SplitTopLevelArguments | scripts/check-temp-path-guardrails.ts:98-162 | For any text: the pieces between its top-level commas make up the text, no cut is inside a quote or bracket, and what is returned are the pieces without the white space around them, a last piece of nothing but white space left out. |
| ArgumentScanner.PiecesRejoin | scripts/check-temp-path-guardrails.ts:98-162 | The untrimmed pieces, joined by commas, are the source: splitting loses nothing. |
| ArgumentScanner.PiecesSound | scripts/check-temp-path-guardrails.ts:98-162 | Every cut is at top level: no piece contains a separating comma and all but the last end with nothing open. |
| ArgumentScanner.ReadInvertsPrint | scripts/check-temp-path-guardrails.ts:73-162 | Printing well-formed arguments with any white space around each, between any prefix and suffix, and reading the call returns the closing parenthesis and exactly the arguments, without that white space. |
| ArgumentScanner.ReadBackIff | scripts/check-temp-path-guardrails.ts:73-162 | Trimmed non-empty arguments are read back, with the right parenthesis, if and only if they are separable. |
| CallGrammar.GrammarReadsBack | scripts/check-temp-path-guardrails.ts:47-162 | For every list of arguments built from plain characters, quoted strings of any text, escaped, and bracketed groups of any depth, each with any white space around it, the printed call is read back as those arguments, whatever surrounds it. |
| ReadPool.Claim | scripts/check-temp-path-guardrails.ts:233-243 | Between two awaits a worker claims a stretch of consecutive indices, passing only over empty paths. |
| ReadPool.RunWorkers | scripts/check-temp-path-guardrails.ts:232-261 | Under every schedule of the workers each index is claimed exactly once and the output, filtered, is the sequential reading. |
| ReadPool.ReadRuntimeSourceFiles | scripts/check-temp-path-guardrails.ts:223-263 | The pool's result equals reading the paths one by one in order and keeping those that could be read. |
| ReadPool.ReadingMeaning | scripts/check-temp-path-guardrails.ts:236-256 | Sequential reading keeps, for each non-empty path that can be read, its relative path and its text, at its place, and nothing else. |
| SchemaText.PrintUnique | scripts/protocol-gen-swift.ts:164-166 | Printed JSON determines its value, even with text after it, by the escaping rules of section 7 of RFC 8259. |
| SchemaReader.PrintReads | scripts/protocol-gen-swift.ts:164-166 | By the grammar of RFC 8259 (sections 3 to 7) the text printed for a value denotes that value, whatever delimited text follows. |
| SchemaReader.SignatureDenotes | scripts/protocol-gen-swift.ts:149-166 | A signature is JSON text that denotes the schema up to member order at every depth. |
| SchemaIdentity.SignatureIdentifies | scripts/protocol-gen-swift.ts:149-166 | Two schemas have equal signatures exactly when they are the same JSON value up to member order at every depth. |
| SchemaIdentity.SameIsEquivalence | scripts/protocol-gen-swift.ts:149-162 | Being the same up to member order is an equivalence. |
| SchemaIdentity.SchemaRegistry.RegisterNamedSchema | scripts/protocol-gen-swift.ts:168-180 | The mutable maps always hold what the history of registrations determines. |
| SchemaIdentity.SchemaRegistry.NamedSchema | scripts/protocol-gen-swift.ts:182-187 | Looks a schema up by identity first and by signature only when allowed. |
| SchemaIdentity.RegistryCounts | scripts/protocol-gen-swift.ts:168-180 | After any registrations the structural map holds exactly the values registered once, under that name, and the duplicate set those registered two or more times. |
| SchemaIdentity.LastNameOfObject | scripts/protocol-gen-swift.ts:168-169 | An object is known by the name of its last registration, and only if it has one. |
| SchemaIdentity.StructuralName | scripts/protocol-gen-swift.ts:182-187 | An unregistered object gets a name exactly when one registration, and only one, was of the same value. |
| SchemaIdentity.RegisteredName | scripts/protocol-gen-swift.ts:182-187 | A registered object gets the name of its last registration, with or without structural fallback. |
| SchemaUnion.ResolvableMeansDistinct | scripts/protocol-gen-swift.ts:483-489 | Within one type, counting printed literals decides whether the literals are distinct. |
| SchemaUnion.CollectCases | scripts/protocol-gen-swift.ts:458-473 | All branches contribute their case, or some branch has none. |
| SchemaUnion.EmitDiscriminatedUnion | scripts/protocol-gen-swift.ts:447-536 | A union is emitted for the first separating property of the first branch; none is emitted exactly when there are fewer than two branches, some branch is no object, or no property of the first branch separates them. |
| SchemaUnion.EmittedDecodes | scripts/protocol-gen-swift.ts:512-523 | An object carrying branch i's literal decodes to case i and to no other, and any other value is an error. |
| SchemaUnion.DefaultArm | scripts/protocol-gen-swift.ts:490-503 | Literals have one scalar type and none is null; the default arm is omitted exactly when both booleans have a case, and then there are two cases. |
| SchemaUnion.LiteralIsOnlyValue | scripts/protocol-gen-swift.ts:404-412 | The literal of a property is the only value it admits; a property that admits only one value has it as its literal, unless its enumeration repeats it. |
| SchemaUnion.CaseMeaning | scripts/protocol-gen-swift.ts:458-470 | A branch has a case exactly if it is named and its first property of the key has a literal, and the case holds that name and literal. |
| ImportClosure.ResolveInstalledDistRelativeImport | scripts/openclaw-npm-postpublish-verify.ts:229-263 | Returns the first candidate that exists strictly inside dist; nothing exactly when the specifier is not relative or no candidate qualifies. |
| ImportClosure.WalkRoute | scripts/openclaw-npm-postpublish-verify.ts:238-238 | From any directory to any target, climbing to what they share and going down from there leads to the target. |
| ImportClosure.WalkIgnores | scripts/openclaw-npm-postpublish-verify.ts:238-238 | Empty and single-dot segments anywhere in a specifier change nothing. |
| ImportClosure.SpecifierLeads | scripts/openclaw-npm-postpublish-verify.ts:234-247 | The relative specifier of a file, as written from any importer, names that file first, then the same with each extension, then as a directory with an index. |
| ImportClosure.FileResolves | scripts/openclaw-npm-postpublish-verify.ts:234-263 | A file inside dist is what its relative specifier resolves to, with or without the dot in front if it climbs. |
| ImportClosure.ScanFile | scripts/openclaw-npm-postpublish-verify.ts:299-314 | One file's specifiers: the error is a zod import of that file; otherwise there is none and exactly the resolved imports are pushed, in order. |
| ImportClosure.ZodMeaning | scripts/openclaw-npm-postpublish-verify.ts:299-303 | A zod specifier is the package itself or a module below it. |
| ImportClosure.CollectZodArtifactErrors | scripts/openclaw-npm-postpublish-verify.ts:265-318 | Ends on cyclic graphs; reports no error exactly when every file reachable from the entry is a bounded regular file that parses and imports no zod specifier; an error names a reachable file and a defect it has. |
| RestartProbe.WaitForRestartProbe | scripts/bench-gateway-restart.ts:643-728 | The result is the reference verdict on the attempts the loop should make, and every transition is also reported as an event on the sample's clock. |
| RestartProbe.PolledMeaning | scripts/bench-gateway-restart.ts:661-727 | The attempts made are those of the turns from the first on, and polling stops short of the deadline exactly at a dead process, at ready after successes only, or after a recovery. |
| RestartProbe.ProbeMeaning | scripts/bench-gateway-restart.ts:643-728 | `ms` is there exactly when the last attempt was 200, and is its time; downtime exactly when a 200 followed a failure, runs from the first failure to the last attempt, and is not negative; polling never goes on after a recovery. |
| RestartProbe.VerdictMeaning | scripts/bench-gateway-restart.ts:643-728 | When the endpoint first failed, when it recovered, the last status and whether there was an error are those of the attempts made. |
| RestartProbe.CompressIsRunLength | scripts/bench-gateway-restart.ts:680-695 | Transitions are a run-length compression: neighbours differ, both ends match the attempts, each shows an attempt made. |
| RestartProbe.CompressLogsEveryChange | scripts/bench-gateway-restart.ts:680-695 | Every change of state is logged and nothing else, in order: the k-th transition is the attempt at the k-th change. |
| RestartSummary.RunRestarts | scripts/bench-gateway-restart.ts:1426-1516 | One failure-free iteration for each turn before the first failing one, which adds its own unless the child was already gone; indices are consecutive from 1. |
| RestartSummary.TurnMeaning | scripts/bench-gateway-restart.ts:1144-1167 | A restart has no failure exactly if it was carried out, the child lives and all four measurements are there; otherwise the first thing missing names it. |
| RestartSummary.RunSample | scripts/bench-gateway-restart.ts:1260-1554 | A sample's failure is the earliest of initial, loop, exit and clean-up failure; it has none exactly when every one of them and every restart succeeded. |
| RestartSummary.ExitMeaning | scripts/bench-gateway-restart.ts:1187-1194 | A child that ended by itself is a failure, told apart by its exit code. |
| RestartSummary.RateAndFirstFailure | scripts/bench-gateway-restart.ts:494-538 | For any samples the rate lies in [0, 1] and is positive exactly when a first failure code is reported. |
| RestartSummary.RateMeaning | scripts/bench-gateway-restart.ts:513-536 | The failure rate is the failed samples over all iterations and the failed samples whose failure is not that of an iteration. |
| RestartSummary.FirstFailureMeaning | scripts/bench-gateway-restart.ts:520-523 | The first failure reported is that of the first failed sample. |
| RestartSummary.EachSampleCountsOnce | scripts/bench-gateway-restart.ts:494-538 | Each failed sample of the loop contributes exactly one failed unit, and the reported code is the first failed sample's. |
| RestartSummary.BenchmarkFailsIff | scripts/bench-gateway-restart.ts:1612-1616 | The benchmark fails exactly when some sample of some case failed. |
| ProcessTree.ReadTables | scripts/bench-gateway-restart.ts:968-985 | The two tables hold, for every process, the children and the last time the listing gives it. |
| ProcessTree.ChildrenMeaning | scripts/bench-gateway-restart.ts:968-985 | A process is a child of another exactly if some row says so. |
| ProcessTree.CpuMeaning | scripts/bench-gateway-restart.ts:968-985 | The time of a process is that of its last row; a process without a row has none. |
| ProcessTree.ReadProcessTreeCpuMs | scripts/bench-gateway-restart.ts:956-1005 | The total is the sum over exactly the non-zero processes reachable from the root, each once; ends on cyclic parent links and repeated rows; there is none exactly when the root is not listed. |
| LineBuffer.OutputBuffer.OnChunk | scripts/bench-gateway-restart.ts:1369-1385 | After every chunk the lines handed on and the carry are what splitting the stream so far at once gives. |
| LineBuffer.Resume | scripts/bench-gateway-restart.ts:1086-1092 | Splitting can resume from the last partial line wherever the stream was cut, even between CR and LF. |
| LineBuffer.ChunkingIsIrrelevant | scripts/bench-gateway-restart.ts:1086-1092 | For any chunks, the lines emitted followed by the final carry are the lines of the whole stream. |
| LineBuffer.SameStreamSameLines | scripts/bench-gateway-restart.ts:1086-1092 | Two ways of cutting the same stream give the same lines and the same carry. |
| LineBuffer.SplitLinesMeaning | scripts/bench-gateway-restart.ts:1086-1092 | Splitting at line breaks is splitting at line feeds and dropping one carriage return before each. |
| SparkleBuild.LegacyKeyIsPositional | scripts/sparkle-build.ts:41-43 | The legacy key, made by concatenating padded digits, equals its positional arithmetic, and takes two digits for the patch exactly up to 99. |
| SparkleBuild.LegacyFloorsArePositional | scripts/sparkle-build.ts:94-97 | The floors made by appending digits to the legacy key are ten times the key and a hundred times the key plus the lane. |
| SparkleBuild.BuildArithmetic | scripts/sparkle-build.ts:41-98 | Build numbers of valid versions, in both encodings, as arithmetic on year, month, patch and lane. |
| SparkleBuild.AdoptionMeaning | scripts/sparkle-build.ts:14-39 | Monthly patches are used from 2026.6.5 on. |
| SparkleBuild.MonthlyFloors | scripts/sparkle-build.ts:82-92 | All four floors of a version string from the adoption on, in arithmetic. |
| SparkleBuild.BelowAllLaterIff | scripts/sparkle-build.ts:20-98 | A version's build number is below those of all later versions if and only if its patch is within the limit for its encoding and month, or no later month can be written. |
| SparkleBuild.BuildsOrderVersions | scripts/sparkle-build.ts:20-98 | Among safe patches, build numbers compare exactly as (year, month, patch, lane), across the change of encoding too, are equal only for equal versions, and stay below 2^53. |
| SparkleBuild.ParseInvertsPrint | scripts/sparkle-build.ts:49-73 | Every release with every suffix the pattern admits is read back from its printed form. |
| SparkleBuild.ParsedIffSpelled | scripts/sparkle-build.ts:49-69 | A string denotes a version exactly if it is spelled as one, the version is made of the numbers spelled, and every other string is rejected. |
| SparkleBuild.TextBuildsOrder | scripts/sparkle-build.ts:49-102 | For any two version strings with safe patches the build numbers compare as the versions the strings denote. |
| SparkleBuild.LaneMeaning | scripts/sparkle-build.ts:71-80 | The lane is 90 exactly if there is no suffix, the number in its last digits up to 89 if it ends in a digit, and 1 otherwise. |
| SparkleBuild.LaneOfEverySuffix | scripts/sparkle-build.ts:71-80 | Every suffix has the form that the lane is characterised for. |
| SparkleBuild.FinalBuildsAboveSuffixed | scripts/sparkle-build.ts:71-98 | A final release builds above every suffixed version of it, whatever its patch. |
| SparkleBuild.NumberedSuffixesOrder | scripts/sparkle-build.ts:71-98 | Numbered suffixes of one release build in the order of their numbers if and only if the smaller is below 89, whatever their names, and alike if and only if the numbers are equal or both at least 89. |
| LabelRun.TakePage | scripts/label-open-issues.ts:555-572 | A page contributes its first items up to the limit, and full batches leave as soon as they are full. |
| LabelRun.FetchPages | scripts/label-open-issues.ts:544-581 | Exactly the pages needed are fetched, and the items taken are the first min(limit, total). |
| LabelRun.FetchOpenLabelItemBatches | scripts/label-open-issues.ts:529-589 | The batches concatenate to the first min(limit, total) items in order; all but the last have 500 items, and each carries its number and running count. |
| LabelRun.LabelsSettle | scripts/label-open-issues.ts:870-890 | Exactly the labels that the classification calls for and that are not there yet are added, each once; with them, the same classification adds none. |
| LabelRun.LabelState.LabelsForMeans | scripts/label-open-issues.ts:863-892 | What a run adds to an item are exactly the labels that its classification calls for and that it lacks, each once; a pull request with the skill label is not classified. |
| LabelRun.PendingFilters | scripts/label-open-issues.ts:852-853 | What is pending is every item that is not known, in order. |
| LabelRun.LabelState.ProcessPending | scripts/label-open-issues.ts:860-902 | Exactly the pending items before the first failing one are labelled, added to the state and counted, in order. |
| LabelRun.LabelState.Add | scripts/label-open-issues.ts:889-901 | An item enters the state only when its classification, and the edit it needs, succeeded, and right after exactly the labels it wanted were added, or no edit if it wanted none. |
| LabelRun.LabelState.RunBatch | scripts/label-open-issues.ts:847-908 | A batch skips what is known, processes the rest, and saves a checkpoint exactly when all succeeded, something was pending and the run is not dry. |
| LabelRun.LabelState.BatchAccounts | scripts/label-open-issues.ts:847-908 | A batch that succeeds accounts for every item as processed or skipped and leaves each one's number in the state. |
| LabelRun.LabelState.BatchesAccount | scripts/label-open-issues.ts:847-908 | Over any succeeding run of batches scanned equals processed plus skipped, the other kind is untouched, and the log ends with a checkpoint unless nothing was done. |
| LabelRun.LabelState.BatchesEnterOnly | scripts/label-open-issues.ts:847-908 | A run of batches, failed or not, enters only items of those batches. |
| LabelRun.LabelState.BatchesBlocked | scripts/label-open-issues.ts:847-908 | A run of batches fails only because of an item that was not known when it started and cannot be processed to the end. |
| LabelRun.LabelOpenKind | scripts/label-open-issues.ts:847-908 | One kind's loop is the run of the full batches of the first items up to the limit, up to the first batch that fails. |
| LabelRun.KindMeaning | scripts/label-open-issues.ts:847-908 | Such a loop enters only items within the limit; if it succeeds all of them are in the state and accounted for; if it fails one of them, not known before, could not be processed to the end. |
| LabelRun.LabelState.SaveState | scripts/label-open-issues.ts:402-413 | Logs a checkpoint of both sets in ascending order, and keeps every checkpoint sound. |
| LabelRun.DiskIsSound | scripts/label-open-issues.ts:402-413 | The state file keeps what was loaded and lists beyond it only numbers that the run had entered by then. |
| LabelRun.DiskHoldsLastSave | scripts/label-open-issues.ts:402-413 | After a save and until the next one the state file holds what was saved, and before any save what was loaded. |
| LabelRun.StopAnywhere | scripts/label-open-issues.ts:847-908 | After any prefix of a run, every number on disk beyond those loaded is that of an item that was classified, or exempt, and that, in a run that is not dry, had right before it was entered been given exactly the labels its classification calls for and it lacked. |
| LabelRun.LaterSkipsNothingUndone | scripts/label-open-issues.ts:371-413 | A run that loads what an earlier one, stopped anywhere, left on disk skips only numbers that the earlier run had loaded, or of items that the earlier run or it itself has fully processed. |
| LabelRun.LabelOpenItems | scripts/label-open-issues.ts:847-984 | Both loops run as described, issues first, then, if they succeed, pull requests; only items within the limit are entered; a run that succeeds has all of them in its state and its counters add up; one that fails met an item, not in the state at the start, that could not be processed to the end. |

## Left out

- CatalogueTree.RebuildGivesPruned: catalogue keys are non-empty and free of dots; integer-like names, which the engine would list first, and names with a special meaning such as `__proto__` keep insertion order here.
- CatalogueObjects.Node.SetPathValue: the source's cursor loop is a recursion on the child object here, because each object owns the objects below it.
- LocaleSync.SyncLocale: files are values; reading and printing JSON and TypeScript, the formatter, and malformed lines are not modelled, and the time of an entry is a function of its key.
- LocaleSync.SyncLocale: SHA-256 is any function and `localeCompare` any strict total order; results that need it assume a digest without collisions among a locale's keys.
- LocaleSyncTheorems.SyncIsIdempotent: the later run has the first run's locale, cache namespace, digest and collation, and if it has a provider, the first run had the same one; a run that gains a provider may well translate more.
- TranslationBatches.BuildTranslationBatches: the character budget is a whole number.
- BatchTranslator.TranslateBatch: waiting between attempts, the client's own timer and its reconnection are not modelled; an answer of any kind may come at any prompt.
- ProcessSupervisor.RunConsistent: signalling a process group is reduced to an optional failure message; killing a process tree on Windows is not modelled.
- Characters are Unicode scalar values, not UTF-16 code units, and decoding at chunk boundaries is done already.
- The regex collector of raw copy, comment stripping, the search for temporary directory joins, and the parser that yields import specifiers are not part of this model.
- ReadPool.RunWorkers: what a read returns does not depend on when it ends.
- SchemaText.PrintUnique: numbers are the texts they print as, and lone surrogates do not occur.
- SchemaUnion.EmitDiscriminatedUnion: the layout of the emitted Swift, and its case names, which can collide, are not modelled.
- ImportClosure.ResolveInstalledDistRelativeImport: paths have forward slashes, and a specifier that ends in a slash counts as one without it.
- RestartProbe.WaitForRestartProbe: times are real numbers and the deadline is the end of the list of turns.
- RestartSummary.RunSample: statistics, resource slopes and traces are left out; they would add only easy aggregation.
- ProcessTree.ReadProcessTreeCpuMs: parsing the listing, and its absence on Windows, are not modelled.
- LineBuffer.OutputBuffer.OnChunk: classifying the lines handed on is not modelled.
- SparkleBuild.BuildsOrderVersions: for patches beyond the limits the rounding of numbers above 2^53 is not modelled.
- LabelRun.FetchOpenLabelItemBatches: the generator runs to its end and its yields are listed; the total count is only printed by the source.
- LabelRun.LabelState.RunBatch: a classification or label edit that fails ends the run; what it had done remotely by then is not modelled.
- Counters of labels added, command-line arguments, usage texts, progress output, the clock and the network.
