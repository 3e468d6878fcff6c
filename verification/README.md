# BuildLabs: a verified model

BuildLabs accepts a generated site only with evidence. This Dafny project models the parts of its
controller that decide, and proves what they promise. `dafny verify dfyconfig.toml` checks everything.

## What is modelled

**The forbidden-claim scanner** (`AhoCorasick`, `CompactText`, `ClaimScan`). The automaton is built as in
the source: a growing node array, a breadth-first worklist, fail chasing. Its specification is the list of
all occurrences. Around it are the compact view of a text with its offsets, and the reporter that stops
early. Unicode normalisation and lower-casing are functions that are given.

**Unified diffs and canonical JSON** (`PatchApply`, `PatchParse`, `PatchGrammar`, `CanonicalJson`).
Applying a patch is a splice with a cursor, proved against a declarative splitting of the source into gaps
and old sides; a diff is accepted exactly when it is laid out by a grammar that says nothing about reading.
The canonical text of a value is its meaning and nothing else, and a JSON reader reads it back.

**The proof pipeline** (`Evidence`, `CommandVerification`, `PreviewInspection`, `RasterBatches`,
`RasterClaims`, `ContractEvaluation`, `EvaluationMeaning`, `ProofGate`, `GateMeaning`, `TileEvidence`,
`RouteEvidence`, `HonestPipeline`, `PatchReward`). Four producers compute digests, counts and citations
separately, and one gate re-derives them. The main theorem, `HonestPipeline.HonestPipelinePasses`, says that
an honest run that passes everywhere is never rejected; `GateMeaning.GateMeans` says what a pass means in the
receipts, both ways, and `EvaluationMeaning.SoundMeans` what a sound evaluation means in the evidence. The
training reward then collapses to the verdict of the gate.

**Event streams** (`EventLog`, `AgUiStream`, `AgUiResume`, `Observability`). A paged reader runs over a log
that grows while it is read. The store is assumed to keep sequences strictly increasing, to list the first
events after a cursor, and to change the run row only together with an appended event.

**Images** (`ImageGrammar`). The PNG and WebP scanners decide their chunk grammars (section 3.2 of RFC 2083
and section 2.3 of RFC 9649).

**The run** (`RunExecutor`, `Scheduler`, `AgentRun`, `PatchEvaluation`, `Statistics`). Every external call
returns or throws, as an arbitrary oracle says; one monitor over the log of effects states the rules of a
run, another ties its decisions and its outcome to the answers of the calls.

`Text`, `Numerals`, `Lists` and `Wrappers` hold shared definitions.

## Where the code departs from what one might expect

- A hunk with an empty old side and a start k > 0 is spliced before line k; the POSIX.1-2017 diff format
  puts it after line k (`PatchApply.InsertionAfterALineIsEarly`, with the exact condition in
  `PatchApply.StartsAgree`).
- A patched file without lines is written as one empty line (`PatchApply.ReverseRestoresText`).
- Of two receipts with the same completion time the one listed first is the latest
  (`ProofGate.TiesKeepTheEarlier`).
- The image scanners compare chunk types through an ASCII decoding that drops the highest bit of every
  byte. PNG and WebP files are accepted or refused wrongly for that (`ImageGrammar.HighBitPasses`,
  `ImageGrammar.HighBitRefuses`, `ImageGrammar.HighBitsInWebp`), exactly when `ImageGrammar.PngDiffersWhen`
  and `ImageGrammar.WebpDiffersWhen` say.
- A sandbox is lost when the trace span around its creation throws after the provider returned it, and the
  sandboxes held stay when the last read of the run throws. `RunExecutor.Executor.Execute` says that there
  is no other case, `RunExecutor.LosingTheBuilder` and `RunExecutor.KeepingTheBuilder` give one input each.
- A stream cannot be resumed beyond the 25,600th event of a run: it ends in the internal error, however often
  it is tried (`AgUiStream.Reconstruct`, `AgUiStream.Stream`).
- The scheduler asks the store for 0 runs when four are active, and the SQLite store then lists one; a fifth
  run starts if the store also grants a slot (`Scheduler.FifthExactlyWhen`).

## Model

| member | source | states |
|---|---|---|
| `AhoCorasick.AllMatchesIsOccurrences` | src/application/verification.ts:218-233 | the specification list of matches holds each real occurrence of a pattern and nothing else |
| `AhoCorasick.AllMatchesNoDuplicates` | src/application/verification.ts:218-233 | with one index per pattern no (index, start) pair is listed twice |
| `AhoCorasick.LongestIsLongest` | src/application/verification.ts:193-216 | the state a text leads to is its longest suffix in the trie |
| `AhoCorasick.ChaseFromLongest` | src/application/verification.ts:222-225 | reading one more unit through fail links keeps the state the longest suffix |
| `AhoCorasick.OutsAtLongest` | src/application/verification.ts:226-230 | reading the outputs at that state loses no pattern that ends there |
| `AhoCorasick.ChildFail` | src/application/verification.ts:205-209 | the fail link computed for a child is its longest proper suffix, and it is never the child itself, so the guard against that never fires |
| `AhoCorasick.AddPattern` | src/application/verification.ts:176-192 | adding a pattern keeps the nodes a trie whose states spell the patterns added, each with its own outputs |
| `AhoCorasick.FailOfChild` | src/application/verification.ts:201-212 | the chase over fail links ends at the longest proper suffix, a state whose outputs are already complete |
| `AhoCorasick.LinkChildren` | src/application/verification.ts:198-213 | one round of the breadth-first worklist keeps its invariant: everything queued is linked, level by level |
| `AhoCorasick.LinkFailures` | src/application/verification.ts:193-216 | after the worklist every state has its longest-suffix fail link and all inherited outputs |
| `AhoCorasick.BuildMatcher` | src/application/verification.ts:174-216 | for every list of non-empty patterns the result is a complete matcher |
| `AhoCorasick.Step` | src/application/verification.ts:222-225 | a step moves to the longest suffix; fail links followed are paid for by trie depth |
| `AhoCorasick.VisitOutputs` | src/application/verification.ts:226-230 | the outputs of a state are visited in order until the visitor stops |
| `AhoCorasick.FindMatches` | src/application/verification.ts:218-233 | an always-true visitor sees exactly the list of all matches, a stopping one a prefix of it cut where it stopped; at most as many fail links as text units are followed |
| `CompactText.CompactWithOffsets` | src/application/verification.ts:76-86 | the compact text and its offsets are those of the kept code points, all of them to the end of the text |
| `CompactText.CompactIsTheView` | src/application/verification.ts:76-86 | said of the offsets alone: they are the places where a letter or digit starts, each of them and no other, in order and once per unit, with the units of the text there |
| `CompactText.WindowIsMatched` | src/application/verification.ts:76-86 | the converse of CompactMatchHasWindow: any window of whole code points with the letters and digits of a claim gives a match whose origin is its first letter or digit |
| `CompactText.MatchStartsToken` | src/application/verification.ts:76-86 | a compact match never starts inside a surrogate pair |
| `CompactText.CompactMatchHasWindow` | src/application/verification.ts:76-86 | each compact match has an origin in the source, and a source window from there spells exactly the claim |
| `ClaimScan.LineAtOffset` | src/application/verification.ts:164-172 | the line is that of the offset |
| `ClaimScan.LineCounts` | src/application/verification.ts:164-172 | and it is one more than the number of line feeds before it |
| `ClaimScan.AddAllIs` | src/application/verification.ts:371-388 | after any calls of addLocation: the locations are the distinct ones, the first 20 are listed, the rest is noted as omitted |
| `ClaimScan.SearchText` | src/application/verification.ts:389-446 | one search reports exactly the placed matches, up to the early stop |
| `ClaimScan.ScanPayloads` | src/application/verification.ts:420-445 | decoded payloads are searched in their exact and compact text |
| `ClaimScan.ScanFile` | src/application/verification.ts:365-446 | one file contributes its exact, compact and payload locations |
| `ClaimScan.Scan` | src/application/verification.ts:322-456 | the whole run has the outcome of the file steps, which FoundIsReported, WindowIsReported, StepIsTaken and ScanIsExact say in terms of the files |
| `ClaimScan.FoundIsReported` | src/application/verification.ts:322-456 | what stands in some file is reported, and listed unless the list is full |
| `ClaimScan.WindowIsReported` | src/application/verification.ts:399-417 | when a window of a file has the letters and digits of a claim of at least four units, the scan reports the claim, on the line of its first letter or digit |
| `ClaimScan.StepIsTaken` | src/application/verification.ts:327-368 | a file is taken exactly when its path and kind are admitted, it can be read, and its size and the sums of the sizes up to it are within the four limits |
| `ClaimScan.FileLocationIs` | src/application/verification.ts:369-446 | a location belongs to a file exactly when the claim is there, on that line |
| `ClaimScan.CompactLocationHasWindow` | src/application/verification.ts:399-417 | a claim reported from the compact text is spelled by a window of the file that starts on the line reported |
| `ClaimScan.CompactMatchesArePlaced` | src/application/verification.ts:406-413 | the branch for a missing offset is dead |
| `ClaimScan.EarlyExitIsExact` | src/application/verification.ts:327-456 | breaking out of the file loop gives the outcome of looking at every file |
| `ClaimScan.ScanIsExact` | src/application/verification.ts:322-456 | a match is reported if and only if some claim is in some file; truncated if and only if there are more than 20 distinct locations (what the compact text holds is CompactText.CompactIsTheView) |
| `ClaimScan.ErrorHasCause` | src/application/verification.ts:327-368 | the scan throws exactly when it meets a file it cannot take before it has enough to report |
| `PatchApply.PatchedIffFits` | src/application/patch-model-provider.ts:433-468 | applying succeeds exactly when the source splits into gaps and old sides at the stated positions |
| `PatchApply.FitIsPatched` | src/application/patch-model-provider.ts:433-468 | the result is then the same gaps with the new sides |
| `PatchApply.ApplyHunkLines` | src/application/patch-model-provider.ts:447-462 | a hunk is applied exactly when its old side is next, and yields its new side |
| `PatchApply.ApplyFilePatch` | src/application/patch-model-provider.ts:433-468 | the cursor loop computes the declarative splice |
| `PatchApply.LengthChange` | src/application/patch-model-provider.ts:433-468 | output length minus source length is additions minus removals |
| `PatchApply.ReverseRestores` | src/application/patch-model-provider.ts:433-468 | the swapped patch with shifted starts restores the source |
| `PatchApply.ReverseRestoresText` | src/application/patch-model-provider.ts:433-468 | on text it restores the file if and only if the patched file kept a line |
| `PatchApply.EmptiedStays` | src/application/patch-model-provider.ts:466-467 | a file emptied of its lines is written as one empty line that the reverse patch leaves behind |
| `PatchApply.WrittenLines` | src/application/patch-model-provider.ts:434-467 | writing and reading lines back, with the case of no lines |
| `PatchApply.StartsAgree` | src/application/patch-model-provider.ts:440-445 | the code places a hunk where the POSIX diff format does exactly when its start is 0 if and only if its old side is empty |
| `PatchApply.StandardFitsAgree` | src/application/patch-model-provider.ts:433-468 | on hunks numbered so the code fits exactly what the standard fits, and on no others |
| `PatchApply.InsertionAfterALineIsEarly` | src/application/patch-model-provider.ts:440-445 | an insertion after line 1 is made before it: where the code departs from the standard |
| `PatchApply.PatchSetIsFilewise` | src/application/patch-model-provider.ts:470-488 | a set is its files patched one by one; unnamed files and the set of paths stay |
| `PatchApply.ApplyPatchSet` | src/application/patch-model-provider.ts:470-488 | the loop computes that result |
| `PatchParse.ParseHunkLines` | src/application/patch-model-provider.ts:377-396 | the nested scan takes the body of a hunk, counts it, and hands back a later line |
| `PatchParse.ParseHunk` | src/application/patch-model-provider.ts:371-414 | a header and its body make one hunk |
| `PatchParse.ParseSection` | src/application/patch-model-provider.ts:343-417 | each round of the outer loop moves on and keeps the totals |
| `PatchParse.ParseUnifiedPatch` | src/application/patch-model-provider.ts:335-431 | the loops compute the recursive parse |
| `PatchParse.ParsedIsConsistent` | src/application/patch-model-provider.ts:335-431 | on success the totals are the hunk counts, their difference the growth promised, and paths are distinct |
| `PatchParse.PatchedGrowth` | src/application/patch-model-provider.ts:335-468 | a parsed patch that applies changes the length by the counts in its headers |
| `PatchParse.ParseInvertsPrint` | src/application/patch-model-provider.ts:335-431 | parsing inverts printing on every well-formed patch within the size limit |
| `PatchGrammar.ParseMeans` | src/application/patch-model-provider.ts:335-431 | a diff is parsed to these files if and only if it is at most 2,000,000 bytes long and laid out of file lines with valid paths, metadata lines and hunks with true counts, in an order that reads one way, making these files, once each and with hunks; the totals are theirs |
| `PatchGrammar.SectionsLaid` | src/application/patch-model-provider.ts:343-421 | whatever is parsed is such a layout: no other line is passed over |
| `PatchGrammar.LaidIsRead` | src/application/patch-model-provider.ts:343-421 | and every such layout is parsed to its files |
| `CanonicalJson.SortSorts` | src/lib/canonical-json.ts:30-36 | sorting the keys sorts them by code unit |
| `CanonicalJson.SortedIsUnique` | src/lib/canonical-json.ts:30-36 | there is one sorted list of a set of keys |
| `CanonicalJson.NormalizeKeeps` | src/lib/canonical-json.ts:7-38 | normalising keeps the meaning, drops undefined fields and key order |
| `CanonicalJson.NormalIsCanonical` | src/lib/canonical-json.ts:7-38 | two normalised values with one meaning are one value |
| `CanonicalJson.EscapeInjective` | src/lib/canonical-json.ts:40-42 | two strings escaped alike are one string |
| `CanonicalJson.PrintIsPrefixFree` | src/lib/canonical-json.ts:40-42 | no printed value is a proper prefix of another, and printing is injective |
| `CanonicalJson.NormalizesIffWritable` | src/lib/canonical-json.ts:7-38 | a value is refused exactly when something in it is undefined (but for a field), non-finite or of an unsupported type |
| `CanonicalJson.PrintReads` | src/lib/canonical-json.ts:40-42 | a reader of JSON text, defined apart from the printer, reads a printed value as that value and stops where it ends |
| `CanonicalJson.CanonicalIsRead` | src/lib/canonical-json.ts:7-42 | what is written of a value is JSON text in which that reader reads what the value means, and it is written exactly when it can be |
| `CanonicalJson.RoundTrip` | src/lib/canonical-json.ts:7-42 | a JSON value that is written and read again is the same value, up to the order of its keys |
| `CanonicalJson.CanonicalIsMeaning` | src/lib/canonical-json.ts:7-42 | two values have the same canonical text if and only if they mean the same |
| `CommandVerification.CommandTargets` | src/application/verification.ts:691-769 | the pushed targets are those of the contract, in order |
| `CommandVerification.RunCommandVerification` | src/application/verification.ts:486-648 | receipts for the first of the targets, in order, passing exactly on exit code 0; the run ends after a dependency bootstrap that did not pass |
| `CommandVerification.AllRunExactlyWhen` | src/application/verification.ts:641-644 | all targets are run if and only if no bootstrap among them fails |
| `CommandVerification.RunLengthIs` | src/application/verification.ts:641-644 | otherwise the run ends with the first bootstrap that failed |
| `CommandVerification.FailedBootstrapIsLast` | src/application/verification.ts:641-644 | a case: one receipt, and no build |
| `CommandVerification.RequirementCommandsAre` | src/application/verification.ts:742-766 | the requirement targets are exactly the command verifiers |
| `PreviewInspection.PreviewTargets` | src/application/preview-inspector.ts:263-290 | the targets are the root and the HTTP verifiers, in order |
| `PreviewInspection.ValidateInspections` | src/application/preview-inspector.ts:398-501 | answers are accepted exactly when they are placed, shaped, distinct and within the tile and byte bounds |
| `PreviewInspection.InspectPreview` | src/application/preview-inspector.ts:48-261 | checks, pages and verdict are those of the accepted answers; it throws exactly when they are not acceptable |
| `RasterBatches.GreedyIsLeast` | src/application/raster-claim-inspector.ts:730-756 | greedy batches are never more than any other batches in order |
| `RasterBatches.CreateModelBatches` | src/application/raster-claim-inspector.ts:730-756 | a partition in order into batches within both limits, least in number; an error only when none exists |
| `RasterClaims.CollectRenderedAssets` | src/application/raster-claim-inspector.ts:507-557 | the assets are all tiles of all pages in path order, or an error exactly when a page or a bound is violated |
| `RasterClaims.InspectBatches` | src/application/raster-claim-inspector.ts:285-372 | one valid result for each asset, in order, from its own batch; refused exactly when an answer is invalid or from another model |
| `RasterClaims.PassesIffClear` | src/application/raster-claim-inspector.ts:232-266 | the verdict is a pass exactly when every asset is clear |
| `RasterClaims.ConcludedMeetsSchema` | src/domain/evidence.ts:417-560 | every concluded receipt meets the schema refinement |
| `RasterClaims.InspectRasterClaims` | src/application/raster-claim-inspector.ts:81-283 | every receipt meets the schema, and a passing one binds every tile of every page |
| `ContractEvaluation.FindMalformed` | src/application/contract-evaluator.ts:64-117 | nothing is malformed exactly when every requirement has one verdict and every verdict is grounded in controller evidence |
| `ContractEvaluation.EvaluateContract` | src/application/contract-evaluator.ts:25-204 | error exactly on malformed answers, pass exactly when every hard requirement is approved and no claim is unsupported; the scores say the same |
| `EvaluationMeaning.SoundMeans` | src/application/contract-evaluator.ts:64-117 | an answer is taken exactly when each requirement has one verdict, each citation stands for something that exists, and each pass cites for every verifier a run of its command, the page at its path, or some page: said of the receipts, pages, files and facts themselves |
| `EvaluationMeaning.Evaluate` | src/application/contract-evaluator.ts:25-204 | in these terms: a pass if and only if moreover every hard requirement has a passing verdict and no claim is unsupported |
| `ProofGate.LatestHeadsTheSort` | src/application/proof-gate.ts:37-46 | the latest receipt is the head of the filtered, stably sorted list |
| `ProofGate.LatestIsGood` | src/application/proof-gate.ts:37-46 | older receipts do not displace a later good one |
| `ProofGate.TiesKeepTheEarlier` | src/application/proof-gate.ts:37-46 | of two receipts completed at once the one listed first decides |
| `ProofGate.GatherTiles` | src/application/proof-gate.ts:861-880 | the map of tiles by path, in order of insertion, or nothing when a path has two kinds |
| `ProofGate.PixelReasons` | src/application/proof-gate.ts:228-242 | the binding fails exactly when digest, count or tile list differ |
| `ProofGate.RouteReasons` | src/application/proof-gate.ts:263-305 | no reason exactly when discovered routes are valid and new, others bound, and at most 32 |
| `ProofGate.ReviewReasons` | src/application/proof-gate.ts:307-372 | no reason exactly when all reviews are attested and the one authoritative review is clean (what clean is: GateMeaning.ReviewsMean) |
| `ProofGate.RequirementReasons` | src/application/proof-gate.ts:397-488 | the reasons of a requirement are those of its verdict and of each verifier |
| `ProofGate.TestReasons` | src/application/proof-gate.ts:153-166 | the reasons are those of each test command |
| `ProofGate.DecideProof` | src/application/proof-gate.ts:80-494 | the gate passes exactly when every part of the evidence passes (what that means in receipts: GateMeaning.GateMeans); reasons are listed once and are empty exactly then |
| `GateMeaning.LatestIsNewest` | src/application/proof-gate.ts:37-46 | the receipt the gate picks is the newest of those that serve: no later one, and none as late before it |
| `GateMeaning.CommandsMean` | src/application/proof-gate.ts:94-183 | the commands pass exactly when the newest receipt of each is a pass with exit code 0 |
| `GateMeaning.ReviewsMean` | src/application/proof-gate.ts:307-372 | the reviews pass exactly when each of the revision is attested and of one of the two kinds, and the one authoritative review is a complete pass under equal, present policy digests without a critical finding |
| `GateMeaning.BoundTiles` | src/application/proof-gate.ts:228-242 | a raster receipt that binds the preview lists, after the workspace digests, exactly the tile digests of the checks |
| `GateMeaning.GateMeans` | src/application/proof-gate.ts:80-494 | the gate passes if and only if all of this holds of the receipts: one run, the commands, the reviews, and the newest raster, preview and evaluation receipts with their tiles, routes and verifiers |
| `GateMeaning.Decide` | src/application/proof-gate.ts:80-494 | decideProof, in these terms |
| `TileEvidence.PixelsAgree` | src/application/proof-gate.ts:861-890 | what the gate gathers from the checks is what the raster inspector collected from the pages, tile by tile, and so is its digest |
| `RouteEvidence.RootPassesIfSettled` | src/application/proof-gate.ts:243-262 | a passing preview has exactly one valid root check |
| `RouteEvidence.RoutesPassIfSettled` | src/application/proof-gate.ts:263-305 | a passing preview has valid, new discovered routes, at most 32 with the requested ones |
| `RouteEvidence.HttpVerifierPasses` | src/application/proof-gate.ts:443-486 | a passing preview answers each hard HTTP verifier with exactly one check that carries the cited page |
| `HonestPipeline.CommandsAllPass` | src/application/proof-gate.ts:94-183 | the gate finds every command receipt of a passing round |
| `HonestPipeline.VerifierIsCited` | src/application/contract-evaluator.ts:96-111 | a passing evaluation cites evidence of each verifier of each hard requirement |
| `HonestPipeline.CitedIsRun` | src/application/proof-gate.ts:415-441 | the receipt cited for a command verifier is the one the gate looks at |
| `HonestPipeline.HonestPipelinePasses` | src/application/proof-gate.ts:80-494 | when all producers pass one revision and its review is clean, the gate passes |
| `HonestPipeline.SkippedIsRefused` | src/application/build-run-executor.ts:510-537 | a verification that skipped the preview as a command failed is refused when the revision has no older preview |
| `HonestPipeline.VerifyRound` | src/application/build-run-executor.ts:486-651 | the producers run in order, the preview only when all commands passed; the decision over the whole store is the gate predicate, a pass when all producers passed and a refusal without any preview |
| `PatchReward.ValidateSource` | src/application/patch-model-training.ts:440-544 | a source is admitted exactly under the stated conditions |
| `PatchReward.GateForcesComponents` | src/application/patch-model-training.ts:314-438 | a passing gate forces every hard component of an admitted source to 1 |
| `PatchReward.ComputeReward` | src/application/patch-model-training.ts:314-438 | every reward meets the schema refinement; for an admitted source accepted, terminal at least 0.75 and terminal positive are one |
| `EventLog.AfterIsSuffix` | src/http/ag-ui.ts:593-614 | the events after a cursor are a suffix of the log |
| `EventLog.Counters.Apply` | src/http/ag-ui.ts:724-741 | the counters updated in place follow the fold |
| `EventLog.Tally.Apply` | src/http/ag-ui.ts:743-764 | the evidence counters updated in place follow the fold |
| `EventLog.ProgressCounts` | src/http/ag-ui.ts:724-741 | the fold counts: completed and failed are the numbers of positions with a parsed tool event, and with one that was not ok; last tool and repair round are those of the last such position |
| `EventLog.ProofCounts` | src/http/ag-ui.ts:743-764 | the fold counts: passed, failed and errors are the numbers of positions of each verdict, receipts their sum, and each kind is listed with the number of its positions, and no other |
| `AgUiStream.ReadNewEvents` | src/http/ag-ui.ts:593-614 | a page is the next stretch of the history, and the check on it never fails |
| `AgUiStream.Reconstruct` | src/http/ag-ui.ts:260-286 | the progress before the cursor is rebuilt exactly; from the sequence of an event it fails if and only if that is beyond the 25,600th event, and it always fails beyond it |
| `AgUiStream.Replay` | src/http/ag-ui.ts:290-301 | a replay folds and emits each event of a page once, in order |
| `AgUiStream.Stabilize` | src/http/ag-ui.ts:303-325 | the row that a snapshot shows is the row as of the cursor |
| `AgUiStream.Show` | src/http/ag-ui.ts:327-359 | snapshots show the fold; the run is reported finished only when terminal and drained |
| `AgUiStream.Stream` | src/http/ag-ui.ts:239-368 | whatever is appended in between: durables once each in order, every snapshot the fold up to its cursor, an end only when drained; with a client that stays, every poll catches up with what the store showed and leaves the state shown; an internal error only beyond 25,600 events (and there always), or when events never cease |
| `AgUiResume.EventIdResumes` | src/http/ag-ui.ts:511-553 | an emitted id is accepted for its run, with its own cursor |
| `AgUiResume.EventIdIsBound` | src/http/ag-ui.ts:511-553 | and for no other run |
| `AgUiResume.ResumeContinues` | src/http/ag-ui.ts:857-889 | cut after any emitted id and resume: no event is lost, repeated or out of order |
| `AgUiResume.SnapshotCounts` | src/http/ag-ui.ts:624-680 | each snapshot of a stream shows these numbers for the log up to its cursor |
| `AgUiResume.SnapshotsAgree` | src/http/ag-ui.ts:624-680 | snapshots with one cursor agree in all streams, but for the artifact flag |
| `AgUiResume.StreamIsExact` | src/http/ag-ui.ts:239-368 | a stream that has caught up has emitted exactly the events after its start that could be seen, once and in order |
| `Observability.ReconstructRunEvents` | src/application/customer-build-observability.ts:95-119 | the whole log is read back exactly when it has fewer than 100,000 events |
| `Observability.SummarizeProgress` | src/application/customer-build-observability.ts:121-152 | the summary is the fold of the stream |
| `Observability.WindowThenRest` | src/application/customer-build-observability.ts:44-55 | a window with more to come is followed by exactly the rest of the timeline |
| `Observability.FollowYieldsAll` | src/application/customer-build-observability.ts:44-55 | following the windows yields each shown event once and in order, for every limit |
| `Observability.LastWindowIsLast` | src/application/customer-build-observability.ts:52-55 | the cursor served with the last window is past the whole log |
| `Observability.AppendsAreContinued` | src/application/customer-build-observability.ts:51-55 | events appended later are what that cursor continues with |
| `ImageGrammar.PngIsAnimatedOrMalformed` | src/application/raster-claim-inspector.ts:594-619 | false exactly for serialised chunk lists of still images, never reading out of bounds |
| `ImageGrammar.WebpIsAnimatedOrMalformed` | src/application/raster-claim-inspector.ts:621-658 | false exactly for exact padded RIFF chunk lists with an image and no animation |
| `ImageGrammar.ScannerReadsCleared` | src/application/raster-claim-inspector.ts:594-619 | chunk types count with their highest bits cleared |
| `ImageGrammar.AsciiIsStrict` | src/application/raster-claim-inspector.ts:594-619 | with ASCII types the grammar is that of the standard |
| `ImageGrammar.HighBitPasses` | src/application/raster-claim-inspector.ts:604-608 | a first chunk that is no IHDR is taken for one when only a high bit differs |
| `ImageGrammar.AcceptedWronglyWhen` | src/application/raster-claim-inspector.ts:594-619 | of the chunk lists the scanner accepts, those are no still image whose first or last type is not literally IHDR or IEND |
| `ImageGrammar.RefusedWronglyWhen` | src/application/raster-claim-inspector.ts:594-619 | of the still images, those are refused that have a chunk that reads like acTL, or like IEND before the end, once cleared |
| `ImageGrammar.PngDiffersWhen` | src/application/raster-claim-inspector.ts:594-619 | both, for any bytes: a file has one chunk list at most |
| `ImageGrammar.HighBitRefuses` | src/application/raster-claim-inspector.ts:609-611 | a chunk that is no acTL is taken for one |
| `ImageGrammar.WebpDiffersWhen` | src/application/raster-claim-inspector.ts:621-658 | accepted wrongly if and only if RIFF, WEBP or every image type is not literal; refused wrongly if and only if a type reads like an animation or a bad extended header |
| `ImageGrammar.HighBitsInWebp` | src/application/raster-claim-inspector.ts:621-658 | one file of either kind |
| `RunExecutor.LawfulMarksAreEarned` | src/application/build-run-executor.ts:241-254 | a pass follows the gate, a second check, the recorded artifact and the promotion of its digest; a rejection follows a refusal that nothing followed |
| `RunExecutor.LawfulReviewsAreSingle` | src/application/build-run-executor.ts:541-609 | a digest is reviewed by the provider once at most, and never when the ledger knew it |
| `RunExecutor.ReceivedIsDisposed` | src/application/build-run-executor.ts:855-869 | a sandbox no longer open was tried to be disposed of after it was received |
| `RunExecutor.AbandonedIs` | src/application/build-run-executor.ts:117-292 | a sandbox that a provider returned has no later attempt of disposal if and only if it is open or lost at the end |
| `RunExecutor.LostStaysLost` | src/application/build-run-executor.ts:816-853 | a lost sandbox never received stays so, and its span did throw |
| `RunExecutor.TruthAt` | src/application/build-run-executor.ts:614-720 | in a truthful course each effect says what the calls answered when it happened: a decision its gate, digest and advisory answers after two held checks of the digest, a recheck another one, giving up that there was nothing to repair with; no answer is used twice |
| `RunExecutor.SmoothIs` | src/application/build-run-executor.ts:161-239 | a smooth course is one in which no compared digest had changed and no sandbox in use was returned again |
| `RunExecutor.ClashIsTwice` | src/application/build-run-executor.ts:434-478 | and a clash is reported only of a sandbox that was returned twice without a disposal in between |
| `RunExecutor.LastIs` | src/application/build-run-executor.ts:161-239 | the last decision of a course is the last one in its log |
| `RunExecutor.Executor.Deliberate` | src/application/build-run-executor.ts:614-680 | the decision is made of the evidence, the review in the ledger and the digest checks, as the calls answer |
| `RunExecutor.Executor.CreateSandbox` | src/application/build-run-executor.ts:816-853 | a sandbox is lost exactly when the span throws after the provider returned it |
| `RunExecutor.Executor.Decide` | src/application/build-run-executor.ts:614-720 | unproven with a passing gate only for advisory findings, and then with feedback to repair |
| `RunExecutor.Executor.VerifyRevision` | src/application/build-run-executor.ts:389-785 | at the end of a verification only the builder is open, and the promoted verifier of a proven revision; when nothing throws and the course is smooth it has decided, accepting exactly when the revision is proven |
| `RunExecutor.Executor.Rounds` | src/application/build-run-executor.ts:161-239 | when nothing throws and the course is smooth the rounds come to an outcome: passed after an accepting decision; rejected after a refusal, and only after one more verification than repair rounds or with nothing to repair with |
| `RunExecutor.Executor.Finish` | src/application/build-run-executor.ts:275-292 | the final read throws exactly when its call does; only then the sandboxes held stay; the lease is released in either case |
| `RunExecutor.Executor.Execute` | src/application/build-run-executor.ts:117-292 | over the whole run, whatever throws: at most one terminal mark, earned, and one when nothing throws; when nothing throws and the course is smooth the run is passed or rejected after at least one verification; passed only if the last decision accepts, rejected only if it refuses and all rounds were used or there was nothing to repair with; one release; a sandbox is left behind if and only if its span threw, or it was held when the final read threw, or it is the verifier of a passed run |
| `RunExecutor.LosingTheBuilder` | src/application/build-run-executor.ts:122-137 | one input for the first: the span around the builder throws once it was created |
| `RunExecutor.KeepingTheBuilder` | src/application/build-run-executor.ts:275-292 | one input for the second: the store fails from the creation of the builder on |
| `Scheduler.DispatchedAreNew` | src/application/build-scheduler.ts:79-88 | no run is dispatched twice or while active |
| `Scheduler.BuildScheduler.Wake` | src/application/build-scheduler.ts:72-92 | a wake-up adds exactly the runs that are granted slots, and counts them |
| `Scheduler.BuildScheduler.Complete` | src/application/build-scheduler.ts:133-142 | a completion frees its place and wakes: never more than four with a store that lists no more than asked, nor after the completion of an active run with the other |
| `Scheduler.BuildScheduler.Start` | src/application/build-scheduler.ts:42-54 | starting wakes a scheduler that was stopped, within the same bounds |
| `Scheduler.FourAtMost` | src/application/build-scheduler.ts:78-88 | at most four runs are active with a store that lists no more than asked |
| `Scheduler.FifthExactlyWhen` | src/application/build-scheduler.ts:78-88 | with a store that lists one run for a limit of 0, a wake-up leads beyond four (or further beyond) if and only if all places are taken, the run is not active and a slot is granted; then by one run |
| `Scheduler.FifthIsDispatched` | src/application/build-scheduler.ts:78-88 | such a case |
| `AgentRun.CallsAreAnswered` | src/application/agent-runner.ts:317-434 | in a complete transcript each tool call is answered once, in order, right after its message |
| `AgentRun.Agent.ExecuteTool` | src/application/agent-runner.ts:580-701 | finish succeeds only after a preview was started |
| `AgentRun.Agent.AnswerOne` | src/application/agent-runner.ts:335-433 | one call is executed if allowed and answered unless it ends the run |
| `AgentRun.Agent.Warn` | src/application/agent-runner.ts:241-258 | each warning is sent once, when its time has come |
| `AgentRun.UnstoppedTools` | src/application/agent-runner.ts:317-434 | in each step exactly the allowed calls of the turn are executed, in order |
| `AgentRun.UnstoppedDoneAs` | src/application/agent-runner.ts:580-701 | each execution has the effect, and the answer, that its behaviour and the state of the preview give it |
| `AgentRun.FlagsAre` | src/application/agent-runner.ts:335-433 | a call is answered as ok exactly when it is executed and its own execution is |
| `AgentRun.FinishedOnce` | src/application/agent-runner.ts:420-433 | there is one first turn at most in which a finish succeeds |
| `AgentRun.Agent.Run` | src/application/agent-runner.ts:215-465 | the assistant messages are the turns of the model and the executions their allowed calls, up to the end of the run; interrupted if and only if a check found a break; else a finish at n exactly when n is the first turn in which one succeeds; at most the step limit of questions, each on an answered transcript; a handoff exactly when a preview was started without finish; only the handoff tool in the last turn |
| `PatchEvaluation.SelectModels` | src/application/patch-model-evaluation.ts:73-120 | one base, one candidate, some baselines, distinct and pinned |
| `PatchEvaluation.ValidateTrials` | src/application/patch-model-evaluation.ts:192-303 | accepted exactly when admitted, covered, paired and uniquely seeded |
| `PatchEvaluation.GridIsExact` | src/application/patch-model-evaluation.ts:192-303 | every place of the grid models x cases x repetitions is taken once |
| `PatchEvaluation.TrialIsInGrid` | src/application/patch-model-evaluation.ts:192-303 | and every trial stands in the grid |
| `PatchEvaluation.GridCount` | src/application/patch-model-evaluation.ts:192-303 | the number of trials is the product |
| `PatchEvaluation.GridIsSampled` | src/application/patch-model-evaluation.ts:245-283 | every model has trials of every case: no mean divides by zero |
| `PatchEvaluation.GridMeans` | src/application/patch-model-evaluation.ts:192-303 | a matrix is accepted if and only if its trials are attested, take each place of models x cases x repetitions once, are of as many cases as records, and two trials have one seed exactly when they are the same repetition of a case |
| `Statistics.PairedMean` | src/application/patch-model-evaluation.ts:397-439 | the paired mean is the difference of the means |
| `Statistics.VarianceIsPairwise` | src/application/patch-model-evaluation.ts:313-321 | n (n - 1) times the variance is the sum of the squared differences of all pairs |
| `Statistics.VarianceVanishes` | src/application/patch-model-evaluation.ts:313-321 | it is zero exactly when all values agree |
| `Statistics.MarginIs` | src/application/patch-model-evaluation.ts:322 | the square of the margin, in terms of the pairwise differences |
| `Statistics.ClearsBound` | src/application/patch-model-evaluation.ts:322-328 | a mean that is above a minimum by a gap that covers the margin has its lower bound there |
| `PatchEvaluation.EvaluateMatrix` | src/application/patch-model-evaluation.ts:373-500 | no reason exactly when the candidate is eligible |
| `PatchEvaluation.EligibleMeans` | src/application/patch-model-evaluation.ts:444-500 | an eligible candidate has at least 20 cases and every component at 1 in every trial; up to half a unit of the twelfth decimal its mean is at least the minimum, above that of the base by the minimum improvement, and at least that of every baseline |
| `PatchEvaluation.ClearIsEligible` | src/application/patch-model-evaluation.ts:444-500 | conversely a candidate without a failed component that is above every minimum by more than its margins is eligible |
| `PatchEvaluation.AcceptanceIsUnordered` | src/application/patch-model-evaluation.ts:192-303 | acceptance does not depend on the order of the trials |
| `PatchEvaluation.EligibilityIsUnordered` | src/application/patch-model-evaluation.ts:373-500 | nor does eligibility |

## Left out

- The adapters, the orchestration package, HTTP routing, scripts and user interfaces: provider calls and wiring.
- Cryptography: a digest is the value it is the digest of, so it is injective by construction; signatures and keys are flags.
- The fields of the review attestation: one opaque predicate stands for them.
- Regular-expression filters, redaction and text bounding: opaque functions, or dropped from messages.
- Walking the workspace for raster assets, and the AVIF, HEIF and other format detectors: their images, or their error, are given.
- Decoding payloads in scanned files: the decoded payloads are given.
- The advisory review of unfinished work in a run: it is one external call that may throw.
- HonestPipeline.VerifyRound: the review is among the receipts recorded before; sandboxes, stages and exceptions other than the inspector's are in RunExecutor.
- AgUiStream.Stream: the contract summary, the clock and the poll interval are not modelled; whether a keepalive is due in a poll is given.
- AgUiStream.Show: the artifact flag of a snapshot may be newer than its cursor, as in the code, so it is only bounded.
- RunExecutor.Executor.Execute: an abort is a call that throws; that an inner call may still run after it is not modelled, nor is the work before the try.
- Scheduler.BuildScheduler.Wake: timers, heartbeats and the lease variable are not modelled.
- CanonicalJson.PrintReads: the reader takes a run of digits and marks for a number; which runs the runtime prints is not modelled.
- RunExecutor.Executor.Calls: calls without an effect that the rules speak of are only counted.
- AgentRun.Agent.Run: prompts, tool arguments and workspace effects are not modelled.
- Statistics.IntervalOf: arithmetic is over the reals with the rounding to 12 decimals written out; floating-point error is not modelled.
- Retention of evaluation summaries and the signed record of the matrix: formatting after the decision.
- Run recovery: it deletes the sandboxes of interrupted runs and marks those runs cleaned up.
- Studio commands and the studio subagent: they forward a user's requests and check the words of a cancellation.
- The source inspection collector: it lists the files that the evaluator may cite, which are given here.
