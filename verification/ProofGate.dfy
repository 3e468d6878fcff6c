/**
 The proof gate (src/application/proof-gate.ts): it re-derives from the receipts of one revision
 everything that the producers claim, and passes only when nothing is missing or failing.

 The attestation of a review is one opaque predicate here.
 */
module ProofGate {
  import opened Wrappers
  import opened Text
  import opened Lists
  import opened Evidence
  import opened PreviewInspection
  import opened ContractEvaluation
  import RasterClaims

  /** The controller's fixed commands, and the scan command it derives from the forbidden claims. */
  datatype Commands = Commands(dockerfile: string, bootstrap: string, container: string, scan: seq<string> -> string)

  /** What the gate looks for one latest receipt of. */
  datatype Slot =
    | DockerfileSlot | BootstrapSlot | BuildSlot | ContainerSlot | TestSlot(command: string) | ScanSlot
    | VerifierSlot(id: string, index: nat, command: string)
    | VisualSlot | PreviewSlot | EvaluationSlot

  datatype Reason =
    | MixedRuns | MissingCommand(slot: Slot) | FailedCommand(slot: Slot) | UncitedCommand(slot: Slot)
    | MissingVisual | VisualNotPassed | VisualFindings | PixelsUnbound
    | MissingPreview | PreviewInputMismatch | PreviewOutputMismatch | PreviewNotPassed | PreviewClaims
    | RootInvalid | DiscoveredInvalid | UnboundCheck | TooManyRoutes
    | MissingReview | LegacyReview | InvalidReviewKind | NoAuthoritativeReview | ManyAuthoritativeReviews
    | Unattested | ReviewNotClean | NoPolicyDigest | PolicyMismatch | CriticalFindings
    | MissingEvaluation | EvaluationNotPassed | UnsupportedClaims | ScoresFailing
    | RequirementUnevaluated(id: string) | RequirementNotPassed(id: string)
    | HttpMissing(id: string, index: nat) | HttpAmbiguous(id: string, index: nat) | HttpFailed(id: string, index: nat)
    | HttpTextMissing(id: string, index: nat) | HttpTilesMissing(id: string, index: nat) | HttpUncited(id: string, index: nat)

  datatype Decision = Decision(passed: bool, reasons: seq<Reason>)

  // ----- The latest receipt -----

  /** The receipt is evidence for this slot, whatever its status. */
  predicate Fills(k: Commands, c: Contract, slot: Slot, r: Receipt) {
    match slot
    case DockerfileSlot => r.body.Command? && r.body.kind == Artifact && r.body.command == k.dockerfile
    case BootstrapSlot => r.body.Command? && r.body.kind == DependencyBootstrap && r.body.command == k.bootstrap
    case BuildSlot => r.body.Command? && r.body.kind == Build && r.body.command == c.buildCommand
    case ContainerSlot => r.body.Command? && r.body.kind == ContainerBuild && r.body.command == k.container
    case TestSlot(command) => r.body.Command? && r.body.kind == Test && r.body.command == command
    case ScanSlot =>
      && r.body.Command? && r.body.kind == ForbiddenClaim
      && r.body.claimIndices == Some(Indices(|c.forbiddenClaims|)) && r.body.command == k.scan(c.forbiddenClaims)
    case VerifierSlot(id, index, command) => RunsVerifier(r, id, index, command)
    case VisualSlot =>
      && r.body.Raster? && r.body.visual.forbiddenClaims == Indices(|c.forbiddenClaims|)
      && r.body.visual.claimSetDigest == Sha(OfStrings(c.forbiddenClaims))
      && r.body.visual.approvedFactSetDigest == Sha(OfStrings(Statements(c.approvedFacts)))
    case PreviewSlot => r.body.Preview?
    case EvaluationSlot => r.body.ContractEvaluation?
  }

  /** latest: of the receipts that fill the slot, one that completed last, and of those the first listed. */
  function Latest(k: Commands, c: Contract, slot: Slot, rs: seq<Receipt>): (r: Option<Receipt>)
    ensures r.Some? ==> Fills(k, c, slot, r.value)
  {
    if rs == [] then None
    else
      var rest := Latest(k, c, slot, rs[1..]);
      if Fills(k, c, slot, rs[0]) && (rest.None? || rs[0].completedAt >= rest.value.completedAt) then Some(rs[0]) else rest
  }

  /** The runtime's stable sort, latest completion first. */
  function SortLatest(rs: seq<Receipt>): seq<Receipt> {
    if rs == [] then [] else InsertLatest(rs[0], SortLatest(rs[1..]))
  }

  function InsertLatest(r: Receipt, sorted: seq<Receipt>): seq<Receipt> {
    if sorted != [] && sorted[0].completedAt > r.completedAt then [sorted[0]] + InsertLatest(r, sorted[1..])
    else [r] + sorted
  }

  /** The latest receipt is the head of the filtered and sorted list, as the source computes it. */
  lemma {:induction false} LatestHeadsTheSort(k: Commands, c: Contract, slot: Slot, rs: seq<Receipt>)
    ensures var sorted := SortLatest(Filter((r: Receipt) => Fills(k, c, slot, r), rs));
            Latest(k, c, slot, rs) == if sorted == [] then None else Some(sorted[0])
  {
    if rs != [] {
      LatestHeadsTheSort(k, c, slot, rs[1..]);
      var kept := Filter((r: Receipt) => Fills(k, c, slot, r), rs);
      var rest := Filter((r: Receipt) => Fills(k, c, slot, r), rs[1..]);
      assert Fills(k, c, slot, rs[0]) ==> kept[0] == rs[0] && kept[1..] == rest;
      assert !Fills(k, c, slot, rs[0]) ==> kept == rest;
    }
  }

  /**
   When every receipt for a slot that is not good completed before a good one did, the latest is good.
   */
  lemma {:induction false} LatestIsGood(k: Commands, c: Contract, slot: Slot, rs: seq<Receipt>, good: set<Receipt>, one: Receipt)
    requires one in good && one in rs && Fills(k, c, slot, one)
    requires forall r :: r in rs && Fills(k, c, slot, r) && r !in good ==> r.completedAt < one.completedAt
    ensures Latest(k, c, slot, rs).Some? && Latest(k, c, slot, rs).value in good
    ensures Latest(k, c, slot, rs).value in rs && Latest(k, c, slot, rs).value.completedAt >= one.completedAt
  {
    assert rs == [rs[0]] + rs[1..];
    if one in rs[1..] {
      LatestIsGood(k, c, slot, rs[1..], good, one);
    } else {
      LatestIsOne(k, c, slot, rs[1..]);
    }
  }

  lemma {:induction false} LatestIsOne(k: Commands, c: Contract, slot: Slot, rs: seq<Receipt>)
    ensures Latest(k, c, slot, rs).Some? ==> Latest(k, c, slot, rs).value in rs
    ensures forall r :: r in rs && Fills(k, c, slot, r) ==>
              Latest(k, c, slot, rs).Some? && r.completedAt <= Latest(k, c, slot, rs).value.completedAt
  {
    if rs != [] {
      assert rs == [rs[0]] + rs[1..];
      LatestIsOne(k, c, slot, rs[1..]);
    }
  }

  /**
   Two receipts that complete at the same time: the one listed first decides, so a failed earlier
   receipt is not superseded by a passing one with the same time stamp.
   */
  lemma TiesKeepTheEarlier(k: Commands, c: Contract, slot: Slot, first: Receipt, second: Receipt)
    requires Fills(k, c, slot, first) && Fills(k, c, slot, second)
    ensures Latest(k, c, slot, [first, second]) == Some(if second.completedAt > first.completedAt then second else first)
  {
    assert [first, second][1..] == [second] && [second][1..] == [];
    assert Latest(k, c, slot, [second]) == Some(second);
  }

  // ----- What passing means -----

  function OfRevision(all: seq<Receipt>, revision: string): (rs: seq<Receipt>)
    ensures forall r :: r in rs <==> r in all && r.revision == revision
  {
    if all == [] then []
    else
      assert all == [all[0]] + all[1..];
      (if all[0].revision == revision then [all[0]] else []) + OfRevision(all[1..], revision)
  }

  ghost predicate OneRun(rs: seq<Receipt>) {
    forall r, s :: r in rs && s in rs ==> r.runId == s.runId
  }

  predicate CommandPasses(k: Commands, c: Contract, rs: seq<Receipt>, slot: Slot) {
    var r := Latest(k, c, slot, rs);
    r.Some? && r.value.status == Pass && r.value.body.Command? && r.value.body.exitCode == Some(0)
  }

  ghost predicate CommandsPass(k: Commands, c: Contract, rs: seq<Receipt>) {
    && CommandPasses(k, c, rs, DockerfileSlot) && CommandPasses(k, c, rs, BootstrapSlot)
    && CommandPasses(k, c, rs, BuildSlot) && CommandPasses(k, c, rs, ContainerSlot)
    && (forall i :: 0 <= i < |c.testCommands| ==> CommandPasses(k, c, rs, TestSlot(c.testCommands[i])))
    && (c.forbiddenClaims != [] ==> CommandPasses(k, c, rs, ScanSlot))
  }

  predicate VisualPasses(visual: Option<Receipt>) {
    && visual.Some? && visual.value.body.Raster? && visual.value.status == Pass
    && visual.value.body.visual.matches == [] && visual.value.body.visual.unsupported == []
    && visual.value.body.visual.unverified == []
  }

  function ChecksOf(preview: Option<Receipt>): seq<Check> {
    if preview.Some? && preview.value.body.Preview? then preview.value.body.checks else []
  }

  predicate NoClaims(checks: seq<Check>) {
    forall i :: 0 <= i < |checks| ==> checks[i].forbiddenClaims == []
  }

  predicate PreviewPasses(c: Contract, preview: Option<Receipt>) {
    && preview.Some? && preview.value.body.Preview?
    && preview.value.body.inputDigest == InputDigest(c)
    && preview.value.body.outputDigest == Sha(OfChecks(preview.value.body.checks))
    && preview.value.status == Pass
    && NoClaims(ChecksOf(preview))
  }

  /** The tiles of the checked paths, each path where it first has some; None when a path has two kinds. */
  function Gather(checks: seq<Check>, entries: seq<Tiles>): Option<seq<Tiles>>
    decreases |checks|
  {
    if checks == [] then Some(entries)
    else if checks[0].tiles.None? then Gather(checks[1..], entries)
    else
      match TilesAt(entries, checks[0].path)
      case None => Gather(checks[1..], entries + [Tiles(checks[0].path, checks[0].tiles.value)])
      case Some(digests) => if digests == checks[0].tiles.value then Gather(checks[1..], entries) else None
  }

  function TilesAt(entries: seq<Tiles>, path: string): Option<seq<Digest>> {
    if entries == [] then None
    else if entries[|entries| - 1].path == path then Some(entries[|entries| - 1].digests)
    else TilesAt(entries[..|entries| - 1], path)
  }

  function SortedTiles(entries: seq<Tiles>): seq<Tiles> { SortByPath(RasterClaims.TilesPath, entries) }

  function AllDigests(entries: seq<Tiles>): seq<Digest> {
    if entries == [] then [] else AllDigests(entries[..|entries| - 1]) + entries[|entries| - 1].digests
  }

  /** The runtime's slice, which is empty past the end. */
  function SliceFrom<T>(xs: seq<T>, n: nat): seq<T> { if n <= |xs| then xs[n..] else [] }

  /** The raster inspection looked at exactly the pixels that the preview checks were rendered to. */
  predicate PixelsBound(visual: Option<Receipt>, preview: Option<Receipt>) {
    visual.Some? && visual.value.body.Raster? ==>
      && preview.Some? && Gather(ChecksOf(preview), []).Some?
      && var entries := SortedTiles(Gather(ChecksOf(preview), []).value);
         var v := visual.value.body.visual;
         && v.renderedInputDigest == Sha(OfTiles(entries))
         && v.renderedAssetCount == |AllDigests(entries)|
         && SliceFrom(v.assetDigests, v.workspaceAssetCount) == AllDigests(entries)
  }

  predicate IsRootCheck(check: Check) {
    check.requirementId.None? && check.verifierIndex.None? && check.path == "/"
  }

  function RootChecks(checks: seq<Check>): seq<Check> {
    if checks == [] then [] else (if IsRootCheck(checks[0]) then [checks[0]] else []) + RootChecks(checks[1..])
  }

  /** The page was rendered: it has a text digest and 1 to 256 tile digests. */
  predicate RenderedEvidence(check: Check) { check.visibleTextDigest.Some? && HasTiles(check.tiles) }

  predicate AnsweredPlainly(check: Check) {
    && check.expectedStatus == 200 && check.actualStatus == Some(200)
    && check.expectedText == [] && check.missingText == [] && !Truthy(check.error)
  }

  predicate RootValid(checks: seq<Check>) {
    |RootChecks(checks)| == 1 && AnsweredPlainly(RootChecks(checks)[0]) && RenderedEvidence(RootChecks(checks)[0])
  }

  function HttpPaths(r: Requirement): set<string> {
    set i | 0 <= i < |r.verifiers| && r.verifiers[i].HttpVerifier? :: r.verifiers[i].path
  }

  function RequestedSet(c: Contract): set<string> {
    {"/"} + set k, path | 0 <= k < |c.requirements| && path in HttpPaths(c.requirements[k]) :: path
  }

  predicate DiscoveredValid(check: Check, requested: set<string>) {
    && check.path !in requested && check.requirementId.None? && check.verifierIndex.None?
    && AnsweredPlainly(check) && check.nonHtmlMediaType.None? && RenderedEvidence(check)
  }

  function DiscoveredPaths(checks: seq<Check>): set<string> {
    set i | 0 <= i < |checks| && checks[i].discovered :: checks[i].path
  }

  predicate Unbound(check: Check) {
    !check.discovered && check.requirementId.None? && check.verifierIndex.None? && check.path != "/"
  }

  predicate RouteValid(checks: seq<Check>, requested: set<string>, i: nat)
    requires i < |checks|
  {
    if checks[i].discovered then DiscoveredValid(checks[i], requested) && checks[i].path !in DiscoveredPaths(checks[..i])
    else !Unbound(checks[i])
  }

  predicate RoutesValidTo(checks: seq<Check>, requested: set<string>, n: nat)
    requires n <= |checks|
  {
    forall i :: 0 <= i < n ==> RouteValid(checks, requested, i)
  }

  predicate RoutesValid(c: Contract, checks: seq<Check>) {
    && RoutesValidTo(checks, RequestedSet(c), |checks|)
    && |RequestedSet(c)| + |DiscoveredPaths(checks)| <= MAX_RENDERED_ROUTES
  }

  predicate RootPasses(preview: Option<Receipt>) { preview.Some? ==> RootValid(ChecksOf(preview)) }

  predicate RoutesPass(c: Contract, preview: Option<Receipt>) { preview.Some? ==> RoutesValid(c, ChecksOf(preview)) }

  function Reviews(rs: seq<Receipt>): seq<Receipt> {
    if rs == [] then [] else (if rs[0].body.Review? then [rs[0]] else []) + Reviews(rs[1..])
  }

  function WithKind(reviews: seq<Receipt>, kind: Option<ReviewKind>): seq<Receipt> {
    if reviews == [] then []
    else
      (if reviews[0].body.Review? && reviews[0].body.reviewKind == kind then [reviews[0]] else []) +
      WithKind(reviews[1..], kind)
  }

  predicate ReviewClean(attested: Receipt -> bool, r: Receipt) {
    && r.body.Review? && attested(r) && r.status == Pass && r.body.complete
    && Truthy(r.body.policyDigest) && Truthy(r.body.expectedPolicyDigest)
    && r.body.policyDigest == r.body.expectedPolicyDigest && Critical !in r.body.findings
  }

  /** Every review is attested as one of the two kinds, and the one authoritative review is clean. */
  predicate ReviewPasses(attested: Receipt -> bool, rs: seq<Receipt>) {
    var reviews := Reviews(rs);
    && WithKind(reviews, None) == [] && WithKind(reviews, Some(OtherKind)) == []
    && |WithKind(reviews, Some(Authoritative))| == 1
    && ReviewClean(attested, WithKind(reviews, Some(Authoritative))[0])
  }

  predicate EvaluationPasses(evaluation: Option<Receipt>) {
    && evaluation.Some? && evaluation.value.body.ContractEvaluation?
    && evaluation.value.status == Pass && evaluation.value.body.traceId != ""
    && evaluation.value.body.unsupportedClaims == 0
    && evaluation.value.body.scores.hardRequirements == 1
    && evaluation.value.body.scores.supportedBusinessFacts == 1
    && evaluation.value.body.scores.evidenceGrounding == 1
  }

  function ResultsOf(evaluation: Option<Receipt>): seq<Evaluation> {
    if evaluation.Some? && evaluation.value.body.ContractEvaluation? then evaluation.value.body.results else []
  }

  /** What an approved requirement cites. */
  function Cited(results: seq<Evaluation>, id: string): seq<Reference> {
    if VerdictOn(results, id).Some? then VerdictOn(results, id).value.evidenceRefs else []
  }

  function VerifierChecks(checks: seq<Check>, id: string, index: nat): seq<Check> {
    if checks == [] then []
    else
      (if checks[0].requirementId == Some(id) && checks[0].verifierIndex == Some(index) then [checks[0]] else []) +
      VerifierChecks(checks[1..], id, index)
  }

  predicate HttpAnswered(check: Check, path: string, status: int, includes: seq<string>) {
    && check.path == path && check.expectedStatus == status && check.expectedText == includes
    && !Truthy(check.error) && check.actualStatus == Some(status) && check.missingText == []
  }

  predicate HttpPasses(checks: seq<Check>, results: seq<Evaluation>, id: string, index: nat,
                       path: string, status: int, includes: seq<string>) {
    var found := VerifierChecks(checks, id, index);
    && |found| == 1 && HttpAnswered(found[0], path, status, includes) && RenderedEvidence(found[0])
    && (Approved(results, id) ==> PageRef(path, found[0].visibleTextDigest.value) in Cited(results, id))
  }

  predicate VerifierPasses(k: Commands, c: Contract, rs: seq<Receipt>, r: Requirement, index: nat)
    requires index < |r.verifiers|
  {
    var results := ResultsOf(Latest(k, c, EvaluationSlot, rs));
    match r.verifiers[index]
    case CommandVerifier(command) =>
      var slot := VerifierSlot(r.id, index, command);
      && CommandPasses(k, c, rs, slot)
      && (Approved(results, r.id) ==> ReceiptRef(Latest(k, c, slot, rs).value.id) in Cited(results, r.id))
    case HttpVerifier(path, status, includes) =>
      HttpPasses(ChecksOf(Latest(k, c, PreviewSlot, rs)), results, r.id, index, path, status, includes)
    case SemanticVerifier => true
  }

  ghost predicate RequirementPasses(k: Commands, c: Contract, rs: seq<Receipt>, r: Requirement) {
    r.hard ==>
      && Approved(ResultsOf(Latest(k, c, EvaluationSlot, rs)), r.id)
      && forall i :: 0 <= i < |r.verifiers| ==> VerifierPasses(k, c, rs, r, i)
  }

  ghost predicate RequirementsPass(k: Commands, c: Contract, rs: seq<Receipt>) {
    forall j :: 0 <= j < |c.requirements| ==> RequirementPasses(k, c, rs, c.requirements[j])
  }

  /** The preview, and the raster inspection of what it rendered. */
  ghost predicate RenderingPasses(k: Commands, c: Contract, rs: seq<Receipt>) {
    var visual, preview := Latest(k, c, VisualSlot, rs), Latest(k, c, PreviewSlot, rs);
    && VisualPasses(visual) && PreviewPasses(c, preview) && PixelsBound(visual, preview)
    && RootPasses(preview) && RoutesPass(c, preview)
  }

  ghost predicate JudgementPasses(k: Commands, c: Contract, rs: seq<Receipt>, attested: Receipt -> bool) {
    && ReviewPasses(attested, rs)
    && EvaluationPasses(Latest(k, c, EvaluationSlot, rs)) && RequirementsPass(k, c, rs)
  }

  /** What the gate stands for. */
  ghost predicate Passes(k: Commands, c: Contract, revision: string, all: seq<Receipt>, attested: Receipt -> bool) {
    var rs := OfRevision(all, revision);
    OneRun(rs) && CommandsPass(k, c, rs) && RenderingPasses(k, c, rs) && JudgementPasses(k, c, rs, attested)
  }

  // ----- The gate, step by step -----

  function CommandReasons(k: Commands, c: Contract, rs: seq<Receipt>, slot: Slot): (reasons: seq<Reason>)
    ensures reasons == [] <==> CommandPasses(k, c, rs, slot)
  {
    var r := Latest(k, c, slot, rs);
    if r.None? then [MissingCommand(slot)]
    else if r.value.status != Pass || !r.value.body.Command? || r.value.body.exitCode != Some(0) then [FailedCommand(slot)]
    else []
  }

  function VisualReasons(visual: Option<Receipt>): (reasons: seq<Reason>)
    ensures reasons == [] <==> VisualPasses(visual)
  {
    if visual.None? || !visual.value.body.Raster? then [MissingVisual]
    else if visual.value.status != Pass then [VisualNotPassed]
    else if visual.value.body.visual.matches != [] || visual.value.body.visual.unsupported != []
            || visual.value.body.visual.unverified != [] then [VisualFindings]
    else []
  }

  function PreviewReasons(c: Contract, preview: Option<Receipt>): (reasons: seq<Reason>)
    ensures reasons == [] <==> PreviewPasses(c, preview)
  {
    (if preview.None? || !preview.value.body.Preview? then [MissingPreview]
     else if preview.value.body.inputDigest != InputDigest(c) then [PreviewInputMismatch]
     else if preview.value.body.outputDigest != Sha(OfChecks(preview.value.body.checks)) then [PreviewOutputMismatch]
     else if preview.value.status != Pass then [PreviewNotPassed]
     else []) +
    (if !NoClaims(ChecksOf(preview)) then [PreviewClaims] else [])
  }

  function ReviewReasons(attested: Receipt -> bool, rs: seq<Receipt>): (reasons: seq<Reason>)
    ensures reasons == [] <==> ReviewPasses(attested, rs)
  {
    var reviews := Reviews(rs);
    var authoritative := WithKind(reviews, Some(Authoritative));
    (if |reviews| == 0 then [MissingReview] else []) +
    (if |WithKind(reviews, None)| > 0 then [LegacyReview] else []) +
    (if |WithKind(reviews, Some(OtherKind))| > 0 then [InvalidReviewKind] else []) +
    (if |authoritative| == 0 && |reviews| > 0 then [NoAuthoritativeReview]
     else if |authoritative| > 1 then [ManyAuthoritativeReviews] else []) +
    (if |authoritative| == 1 then AuthoritativeReasons(attested, authoritative[0]) else [])
  }

  function AuthoritativeReasons(attested: Receipt -> bool, r: Receipt): (reasons: seq<Reason>)
    ensures reasons == [] <==> ReviewClean(attested, r)
  {
    if !r.body.Review? then [MissingReview]
    else
      (if !attested(r) then [Unattested] else []) +
      (if r.status != Pass || !r.body.complete then [ReviewNotClean] else []) +
      (if r.body.complete && (!Truthy(r.body.policyDigest) || !Truthy(r.body.expectedPolicyDigest)) then [NoPolicyDigest]
       else if r.body.complete && r.body.policyDigest != r.body.expectedPolicyDigest then [PolicyMismatch] else []) +
      (if Critical in r.body.findings then [CriticalFindings] else [])
  }

  function EvaluationReasons(evaluation: Option<Receipt>): (reasons: seq<Reason>)
    ensures reasons == [] <==> EvaluationPasses(evaluation)
  {
    if evaluation.None? || !evaluation.value.body.ContractEvaluation? then [MissingEvaluation]
    else
      var e := evaluation.value;
      (if e.status != Pass || e.body.traceId == "" then [EvaluationNotPassed] else []) +
      (if e.body.unsupportedClaims > 0 then [UnsupportedClaims] else []) +
      (if e.body.scores.hardRequirements != 1 || e.body.scores.supportedBusinessFacts != 1
          || e.body.scores.evidenceGrounding != 1 then [ScoresFailing] else [])
  }

  function HttpReasons(checks: seq<Check>, results: seq<Evaluation>, id: string, index: nat,
                       path: string, status: int, includes: seq<string>): (reasons: seq<Reason>)
    ensures reasons == [] <==> HttpPasses(checks, results, id, index, path, status, includes)
  {
    var found := VerifierChecks(checks, id, index);
    if |found| == 0 then [HttpMissing(id, index)]
    else if |found| != 1 then [HttpAmbiguous(id, index)]
    else if !HttpAnswered(found[0], path, status, includes) then [HttpFailed(id, index)]
    else if found[0].visibleTextDigest.None? then [HttpTextMissing(id, index)]
    else if !HasTiles(found[0].tiles) then [HttpTilesMissing(id, index)]
    else if Approved(results, id) && PageRef(path, found[0].visibleTextDigest.value) !in Cited(results, id) then [HttpUncited(id, index)]
    else []
  }

  function VerifierReasons(k: Commands, c: Contract, rs: seq<Receipt>, r: Requirement, index: nat): (reasons: seq<Reason>)
    requires index < |r.verifiers|
    ensures reasons == [] <==> VerifierPasses(k, c, rs, r, index)
  {
    var results := ResultsOf(Latest(k, c, EvaluationSlot, rs));
    match r.verifiers[index]
    case CommandVerifier(command) =>
      var slot := VerifierSlot(r.id, index, command);
      if CommandReasons(k, c, rs, slot) != [] then CommandReasons(k, c, rs, slot)
      else if Approved(results, r.id) && ReceiptRef(Latest(k, c, slot, rs).value.id) !in Cited(results, r.id)
      then [UncitedCommand(slot)] else []
    case HttpVerifier(path, status, includes) =>
      HttpReasons(ChecksOf(Latest(k, c, PreviewSlot, rs)), results, r.id, index, path, status, includes)
    case SemanticVerifier => []
  }

  /** previewRenderedRasterInput, before sorting: a map from paths to tiles, in order of insertion. */
  method GatherTiles(checks: seq<Check>) returns (r: Option<seq<Tiles>>)
    ensures r == Gather(checks, [])
  {
    var byPath: map<string, seq<Digest>> := map[];
    var entries: seq<Tiles> := [];
    assert checks[0..] == checks;
    for i := 0 to |checks|
      invariant TilesIn(byPath, entries)
      invariant Gather(checks, []) == Gather(checks[i..], entries)
    {
      assert checks[i..][0] == checks[i] && checks[i..][1..] == checks[i + 1..];
      if checks[i].tiles.Some? {
        var path, digests := checks[i].path, checks[i].tiles.value;
        if path in byPath {
          if byPath[path] != digests { return None; }
        } else {
          TilesPush(byPath, entries, path, digests);
          entries := entries + [Tiles(path, digests)];
        }
        byPath := byPath[path := digests];
      }
    }
    return Some(entries);
  }

  ghost predicate TilesIn(byPath: map<string, seq<Digest>>, entries: seq<Tiles>) {
    forall path :: TilesAt(entries, path) == if path in byPath then Some(byPath[path]) else None
  }

  lemma TilesPush(byPath: map<string, seq<Digest>>, entries: seq<Tiles>, path: string, digests: seq<Digest>)
    requires TilesIn(byPath, entries)
    ensures TilesIn(byPath[path := digests], entries + [Tiles(path, digests)])
  {
    assert (entries + [Tiles(path, digests)])[..|entries|] == entries;
  }

  method RequirementReasons(k: Commands, c: Contract, rs: seq<Receipt>, r: Requirement) returns (reasons: seq<Reason>)
    ensures reasons == [] <==> RequirementPasses(k, c, rs, r)
    ensures forall x :: x in reasons <==>
              r.hard && (x in VerdictReasons(k, c, rs, r) || exists i :: 0 <= i < |r.verifiers| && x in VerifierReasons(k, c, rs, r, i))
  {
    reasons := [];
    if r.hard {
      reasons := VerdictReasons(k, c, rs, r);
      for i := 0 to |r.verifiers|
        invariant reasons == [] <==>
                  VerdictReasons(k, c, rs, r) == [] && forall j :: 0 <= j < i ==> VerifierPasses(k, c, rs, r, j)
        invariant forall x :: x in reasons <==>
                    x in VerdictReasons(k, c, rs, r) || exists j :: 0 <= j < i && x in VerifierReasons(k, c, rs, r, j)
      {
        reasons := reasons + VerifierReasons(k, c, rs, r, i);
      }
    }
  }

  function VerdictReasons(k: Commands, c: Contract, rs: seq<Receipt>, r: Requirement): (reasons: seq<Reason>)
    ensures reasons == [] <==> Approved(ResultsOf(Latest(k, c, EvaluationSlot, rs)), r.id)
  {
    var result := VerdictOn(ResultsOf(Latest(k, c, EvaluationSlot, rs)), r.id);
    if result.None? then [RequirementUnevaluated(r.id)]
    else if result.value.verdict != Passed then [RequirementNotPassed(r.id)]
    else []
  }

  method TestReasons(k: Commands, c: Contract, rs: seq<Receipt>) returns (reasons: seq<Reason>)
    ensures reasons == [] <==> forall i :: 0 <= i < |c.testCommands| ==> CommandPasses(k, c, rs, TestSlot(c.testCommands[i]))
    ensures forall x :: x in reasons <==>
              exists i :: 0 <= i < |c.testCommands| && x in CommandReasons(k, c, rs, TestSlot(c.testCommands[i]))
  {
    reasons := [];
    for i := 0 to |c.testCommands|
      invariant reasons == [] <==> forall j :: 0 <= j < i ==> CommandPasses(k, c, rs, TestSlot(c.testCommands[j]))
      invariant forall x :: x in reasons <==> exists j :: 0 <= j < i && x in CommandReasons(k, c, rs, TestSlot(c.testCommands[j]))
    {
      reasons := reasons + CommandReasons(k, c, rs, TestSlot(c.testCommands[i]));
    }
  }

  /** The walk over the preview checks: discovered routes are valid and new, the others are bound. */
  method RouteReasons(c: Contract, checks: seq<Check>) returns (reasons: seq<Reason>)
    ensures reasons == [] <==> RoutesValid(c, checks)
    ensures forall x :: x in reasons ==> x == DiscoveredInvalid || x == UnboundCheck || x == TooManyRoutes
  {
    var requested := RequestedSet(c);
    var discovered: set<string> := {};
    reasons := [];
    for i := 0 to |checks|
      invariant discovered == DiscoveredPaths(checks[..i])
      invariant reasons == [] <==> RoutesValidTo(checks, requested, i)
      invariant forall x :: x in reasons ==> x == DiscoveredInvalid || x == UnboundCheck
    {
      DiscoveredGrow(checks, i);
      assert RoutesValidTo(checks, requested, i + 1) <==> RoutesValidTo(checks, requested, i) && RouteValid(checks, requested, i);
      if checks[i].discovered {
        if !DiscoveredValid(checks[i], requested) || checks[i].path in discovered { reasons := reasons + [DiscoveredInvalid]; }
        discovered := discovered + {checks[i].path};
      } else if Unbound(checks[i]) {
        reasons := reasons + [UnboundCheck];
      }
    }
    assert checks[..|checks|] == checks;
    if |requested| + |discovered| > MAX_RENDERED_ROUTES { reasons := reasons + [TooManyRoutes]; }
  }

  lemma DiscoveredGrow(checks: seq<Check>, i: nat)
    requires i < |checks|
    ensures DiscoveredPaths(checks[..i + 1]) ==
            DiscoveredPaths(checks[..i]) + if checks[i].discovered then {checks[i].path} else {}
  {
    var before, after := DiscoveredPaths(checks[..i]), DiscoveredPaths(checks[..i + 1]);
    forall path | path in before ensures path in after {
      var j :| 0 <= j < i && checks[..i][j].discovered && checks[..i][j].path == path;
      assert checks[..i + 1][j].path == path;
    }
    if checks[i].discovered { assert checks[..i + 1][i].path == checks[i].path; }
  }

  lemma RunIdsTell(rs: seq<Receipt>, ids: set<string>)
    requires ids == set r | r in rs :: r.runId
    ensures |ids| <= 1 <==> OneRun(rs)
  {
    if OneRun(rs) {
      if rs != [] { assert ids == {rs[0].runId}; }
    } else {
      var r, s :| r in rs && s in rs && r.runId != s.runId;
      assert {r.runId, s.runId} <= ids;
      SubsetSize({r.runId, s.runId}, ids);
    }
  }

  method PixelReasons(visual: Option<Receipt>, preview: Option<Receipt>) returns (reasons: seq<Reason>)
    ensures reasons == [] <==> PixelsBound(visual, preview)
    ensures reasons == [] || reasons == [PixelsUnbound]
  {
    if visual.None? || !visual.value.body.Raster? { return []; }
    if preview.None? { return [PixelsUnbound]; }
    var gathered := GatherTiles(ChecksOf(preview));
    if gathered.None? { return [PixelsUnbound]; }
    var entries, v := SortedTiles(gathered.value), visual.value.body.visual;
    if v.renderedInputDigest != Sha(OfTiles(entries)) || v.renderedAssetCount != |AllDigests(entries)|
       || SliceFrom(v.assetDigests, v.workspaceAssetCount) != AllDigests(entries)
    {
      return [PixelsUnbound];
    }
    return [];
  }

  method RequirementsReasons(k: Commands, c: Contract, rs: seq<Receipt>) returns (reasons: seq<Reason>)
    ensures reasons == [] <==> RequirementsPass(k, c, rs)
  {
    reasons := [];
    for j := 0 to |c.requirements|
      invariant reasons == [] <==> forall i :: 0 <= i < j ==> RequirementPasses(k, c, rs, c.requirements[i])
    {
      var more := RequirementReasons(k, c, rs, c.requirements[j]);
      reasons := reasons + more;
    }
  }

  method CommandSection(k: Commands, c: Contract, rs: seq<Receipt>) returns (reasons: seq<Reason>)
    ensures reasons == [] <==> CommandsPass(k, c, rs)
  {
    reasons := CommandReasons(k, c, rs, DockerfileSlot) + CommandReasons(k, c, rs, BootstrapSlot)
             + CommandReasons(k, c, rs, BuildSlot) + CommandReasons(k, c, rs, ContainerSlot);
    var more := TestReasons(k, c, rs);
    reasons := reasons + more;
    if |c.forbiddenClaims| > 0 { reasons := reasons + CommandReasons(k, c, rs, ScanSlot); }
  }

  method RenderingSection(k: Commands, c: Contract, rs: seq<Receipt>) returns (reasons: seq<Reason>)
    ensures reasons == [] <==> RenderingPasses(k, c, rs)
  {
    var visual, preview := Latest(k, c, VisualSlot, rs), Latest(k, c, PreviewSlot, rs);
    reasons := VisualReasons(visual) + PreviewReasons(c, preview);
    var more := PixelReasons(visual, preview);
    reasons := reasons + more;
    if preview.Some? {
      if !RootValid(ChecksOf(preview)) { reasons := reasons + [RootInvalid]; }
      more := RouteReasons(c, ChecksOf(preview));
      reasons := reasons + more;
    }
  }

  method JudgementSection(k: Commands, c: Contract, rs: seq<Receipt>, attested: Receipt -> bool) returns (reasons: seq<Reason>)
    ensures reasons == [] <==> JudgementPasses(k, c, rs, attested)
  {
    reasons := ReviewReasons(attested, rs) + EvaluationReasons(Latest(k, c, EvaluationSlot, rs));
    var more := RequirementsReasons(k, c, rs);
    reasons := reasons + more;
  }

  /** decideProof. The receipts are those of the whole run; only those of the revision count. */
  method DecideProof(k: Commands, c: Contract, revision: string, all: seq<Receipt>, attested: Receipt -> bool)
    returns (d: Decision)
    ensures d.passed <==> Passes(k, c, revision, all, attested)
    ensures d.passed <==> d.reasons == []
    ensures NoDuplicates(d.reasons)
  {
    var rs := OfRevision(all, revision);
    var runIds := set r | r in rs :: r.runId;
    RunIdsTell(rs, runIds);
    var reasons: seq<Reason> := if |runIds| > 1 then [MixedRuns] else [];
    var commands := CommandSection(k, c, rs);
    var rendering := RenderingSection(k, c, rs);
    var judgement := JudgementSection(k, c, rs, attested);
    reasons := reasons + commands + rendering + judgement;
    DistinctKeeps([], reasons);
    if reasons != [] { assert reasons[0] in Distinct(reasons); }
    return Decision(|reasons| == 0, Distinct(reasons));
  }
}
