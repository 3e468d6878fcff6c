/**
 Contracts and evidence receipts (src/domain/contract.ts, src/domain/evidence.ts), cut down to the
 fields that the producers and the proof gate compute with.

 A digest is the value it is the digest of, so that two digests are equal exactly when the values
 are. Paths are compared by code point, which is the order of their UTF-8 encodings.
 */
module Evidence {
  import opened Wrappers

  datatype Status = Pass | Fail | Error

  // ----- Contracts -----

  datatype Verifier =
    | CommandVerifier(command: string)
    | HttpVerifier(path: string, expectedStatus: int, bodyIncludes: seq<string>)
    | SemanticVerifier

  datatype Requirement = Requirement(id: string, hard: bool, verifiers: seq<Verifier>)

  datatype Fact = Fact(id: string, statement: string)

  datatype Contract = Contract(
    forbiddenClaims: seq<string>, approvedFacts: seq<Fact>, requirements: seq<Requirement>,
    buildCommand: string, testCommands: seq<string>)

  /** The part of AcceptanceContractSchema that evidence is bound by: ids are present and distinct. */
  ghost predicate WellFormed(c: Contract) {
    && (forall i :: 0 <= i < |c.requirements| ==> c.requirements[i].id != "")
    && (forall i, j :: 0 <= i < j < |c.requirements| ==> c.requirements[i].id != c.requirements[j].id)
  }

  function Statements(facts: seq<Fact>): seq<string> {
    if facts == [] then [] else [facts[0].statement] + Statements(facts[1..])
  }

  function Indices(n: nat): (s: seq<nat>)
    ensures |s| == n && forall i :: 0 <= i < n ==> s[i] == i
  {
    seq(n, i => i)
  }

  // ----- Digests -----

  type Bytes = seq<nat>

  datatype Digest = Sha(of: Payload) | NotADigest(text: string)

  datatype Payload =
    | OfBytes(bytes: Bytes)
    | OfText(text: string)
    | OfStrings(strings: seq<string>)
    | OfTiles(entries: seq<Tiles>)
    | OfPreview(targets: seq<Target>, claims: seq<string>)
    | OfChecks(checks: seq<Check>)

  /** The screenshot tiles of one rendered page. */
  datatype Tiles = Tiles(path: string, digests: seq<Digest>)

  // ----- Receipts -----

  /** Something the rendered preview is checked for: the root, an HTTP verifier or a discovered route. */
  datatype Target = Target(
    requirementId: Option<string>, verifierIndex: Option<nat>, discovered: bool, blocking: bool,
    path: string, expectedStatus: int, bodyIncludes: seq<string>)

  datatype Check = Check(
    requirementId: Option<string>, verifierIndex: Option<nat>, discovered: bool,
    path: string, expectedStatus: int, actualStatus: Option<int>,
    expectedText: seq<string>, missingText: seq<string>, forbiddenClaims: seq<nat>,
    visibleTextDigest: Option<Digest>, tiles: Option<seq<Digest>>, nonHtmlMediaType: Option<string>,
    error: Option<string>)

  datatype CommandKind = Artifact | Build | ContainerBuild | DependencyBootstrap | ForbiddenClaim | Test | RequirementCommand

  datatype Provider = Controller | Fireworks

  datatype Match = Match(assetIndex: int, assetSha256: Digest, forbiddenClaims: seq<int>)

  datatype RasterErrorCode =
    | AssetBoundExceeded | InvalidAsset | WorkspaceReadFailed | PolicyBoundExceeded
    | ModelCapabilityUnavailable | ModelResponseInvalid | ProviderError | ProviderUnverified | OtherAssetError

  datatype Visual = Visual(
    provider: Provider, claimSetDigest: Digest, approvedFactSetDigest: Digest, renderedInputDigest: Digest,
    forbiddenClaims: seq<nat>, assetCount: nat, workspaceAssetCount: nat, renderedAssetCount: nat,
    aggregateBytes: nat, assetDigests: seq<Digest>, modelInputDigests: seq<Digest>, modelDigest: Option<string>,
    matches: seq<Match>, unsupported: seq<int>, unverified: seq<int>, errorCode: Option<RasterErrorCode>)

  datatype Verdict = Passed | Failed | Unverified

  datatype Evaluation = Evaluation(requirementId: string, verdict: Verdict, evidenceRefs: seq<Reference>)

  /** What an evaluation may cite. */
  datatype Reference =
    | FactRef(id: string) | ReceiptRef(id: string) | PageRef(path: string, visibleText: Digest)
    | SourceRef(path: string, contents: Digest) | OtherRef(text: string)

  datatype Scores = Scores(hardRequirements: nat, supportedBusinessFacts: nat, evidenceGrounding: nat, preferenceSatisfaction: real)

  datatype ReviewKind = Authoritative | Advisory | OtherKind

  datatype Severity = Critical | Major | Minor | Trivial | Info

  datatype Body =
    | Command(kind: CommandKind, command: string, exitCode: Option<int>,
              requirementId: Option<string>, verifierIndex: Option<nat>, claimIndices: Option<seq<nat>>)
    | Preview(inputDigest: Digest, outputDigest: Digest, checks: seq<Check>)
    | Raster(visual: Visual)
    | Review(reviewKind: Option<ReviewKind>, complete: bool, findings: seq<Severity>,
             policyDigest: Option<string>, expectedPolicyDigest: Option<string>)
    | ContractEvaluation(traceId: string, scores: Scores, results: seq<Evaluation>, unsupportedClaims: nat)

  /** `completedAt` is the time of completion; the source compares ISO 8601 texts in UTC. */
  datatype Receipt = Receipt(id: string, runId: string, revision: string, status: Status, completedAt: int, body: Body)
}
