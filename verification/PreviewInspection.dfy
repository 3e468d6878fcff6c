/**
 The rendered-preview inspector (src/application/preview-inspector.ts): what it asks the sandbox
 browser for, which answers it accepts, and the checks, pages and verdict it makes of them.
 */
module PreviewInspection {
  import opened Wrappers
  import opened Text
  import opened Lists
  import opened Evidence

  const MAX_RENDERED_ROUTES: nat := 32
  const MAX_ROUTE_TILES: nat := 256
  const MAX_TILES: nat := 512
  const MAX_SCREENSHOT_BYTES: nat := 6 * 1024 * 1024
  const MAX_VISIBLE_TEXT_BYTES: nat := 100_000
  const MAX_TOTAL_TEXT_BYTES: nat := 4 * 1024 * 1024
  const PNG_SIGNATURE: Bytes := [137, 80, 78, 71, 13, 10, 26, 10]

  /** Base64 text: canonical when decoding and encoding give it back, else decoded as far as it goes. */
  datatype Encoded = Canonical(bytes: Bytes) | Loose(bytes: Bytes)

  function DecodeCanonical(e: Encoded): Option<Bytes> {
    if e.Canonical? && e.bytes != [] then Some(e.bytes) else None
  }

  /** One answer of the sandbox browser. */
  datatype Inspection = Inspection(
    path: string, discovered: bool, status: Option<int>, visibleText: Option<string>, tiles: Option<seq<Digest>>,
    screenshots: Option<seq<Encoded>>, nonHtmlMediaType: Option<string>, error: Option<string>)

  /** A page as the later inspections see it. */
  datatype Page = Page(path: string, status: int, visibleText: string, screenshots: Option<seq<Encoded>>)

  /** Library functions: text normalisation, bounding and redaction, URL canonicity, UTF-8 length. */
  datatype Library = Library(
    normalize: string -> string, bound: string -> string, canonicalRoute: string -> bool, byteLength: string -> nat)

  predicate Truthy(text: Option<string>) { text.Some? && text.value != "" }

  // ----- Targets -----

  const ROOT := Target(None, None, false, true, "/", 200, [])

  function VerifierTarget(r: Requirement, i: nat): seq<Target>
    requires i < |r.verifiers|
  {
    match r.verifiers[i]
    case HttpVerifier(path, status, includes) =>
      [Target(Some(r.id), Some(i), false, r.hard, path, status, includes)]
    case _ => []
  }

  function VerifierTargets(r: Requirement, i: nat): seq<Target>
    requires i <= |r.verifiers|
    decreases |r.verifiers| - i
  {
    if i == |r.verifiers| then [] else VerifierTarget(r, i) + VerifierTargets(r, i + 1)
  }

  function RequirementTargets(rs: seq<Requirement>): seq<Target> {
    if rs == [] then [] else VerifierTargets(rs[0], 0) + RequirementTargets(rs[1..])
  }

  /** The root, and a target for each HTTP verifier in the contract's order. */
  function Targets(c: Contract): seq<Target> { [ROOT] + RequirementTargets(c.requirements) }

  /** previewTargets */
  method PreviewTargets(c: Contract) returns (targets: seq<Target>)
    ensures targets == Targets(c)
  {
    targets := [ROOT];
    var rs := c.requirements;
    assert rs[0..] == rs;
    for k := 0 to |rs|
      invariant targets + RequirementTargets(rs[k..]) == Targets(c)
    {
      assert rs[k..][1..] == rs[k + 1..];
      ConcatAssociates(targets, VerifierTargets(rs[k], 0), RequirementTargets(rs[k + 1..]));
      for i := 0 to |rs[k].verifiers|
        invariant targets + VerifierTargets(rs[k], i) + RequirementTargets(rs[k + 1..]) == Targets(c)
      {
        ConcatAssociates(targets, VerifierTarget(rs[k], i), VerifierTargets(rs[k], i + 1));
        match rs[k].verifiers[i] {
          case HttpVerifier(path, status, includes) =>
            targets := targets + [Target(Some(rs[k].id), Some(i), false, rs[k].hard, path, status, includes)];
          case _ =>
            EmptyConcat(targets);
        }
      }
      EmptyConcat(targets);
    }
    EmptyConcat(targets);
  }

  function PathOf(t: Target): string { t.path }

  function RequestedPaths(c: Contract): seq<string> { Distinct(Map(PathOf, Targets(c))) }

  // ----- Accepting the answers -----

  function Count<T>(xs: Option<seq<T>>): nat { if xs.Some? then |xs.value| else 0 }

  function TotalTiles(ins: seq<Inspection>): nat {
    if ins == [] then 0 else TotalTiles(ins[..|ins| - 1]) + Count(ins[|ins| - 1].tiles)
  }

  function SizeOf(shots: seq<Encoded>): nat {
    if shots == [] then 0 else SizeOf(shots[..|shots| - 1]) + |shots[|shots| - 1].bytes|
  }

  function ScreenshotBytes(i: Inspection): nat { if i.screenshots.Some? then SizeOf(i.screenshots.value) else 0 }

  function TotalBytes(ins: seq<Inspection>): nat {
    if ins == [] then 0 else TotalBytes(ins[..|ins| - 1]) + ScreenshotBytes(ins[|ins| - 1])
  }

  predicate HasMediaType(i: Inspection) {
    i.nonHtmlMediaType.Some? && 1 <= |i.nonHtmlMediaType.value| <= 200
  }

  predicate HasTiles(tiles: Option<seq<Digest>>) {
    tiles.Some? && 1 <= |tiles.value| <= MAX_ROUTE_TILES && forall k :: 0 <= k < |tiles.value| ==> tiles.value[k].Sha?
  }

  predicate IsPng(bytes: Bytes) { |bytes| >= 8 && bytes[..8] == PNG_SIGNATURE }

  predicate ShotMatches(shot: Encoded, tile: Digest) {
    DecodeCanonical(shot).Some? && IsPng(shot.bytes) && Sha(OfBytes(shot.bytes)) == tile
  }

  /** Screenshots, where they are sent at all, are the pictures that the tile digests name. */
  predicate ShotsMatch(i: Inspection) {
    i.screenshots.Some? ==>
      && HasTiles(i.tiles) && |i.screenshots.value| == |i.tiles.value|
      && forall k :: 0 <= k < |i.tiles.value| ==> ShotMatches(i.screenshots.value[k], i.tiles.value[k])
  }

  /** Either an error without a status, or a status with one kind of content. */
  predicate WellShaped(i: Inspection) {
    match i.status
    case None =>
      i.error.Some? && i.visibleText.None? && i.tiles.None? && i.screenshots.None? && i.nonHtmlMediaType.None?
    case Some(status) =>
      && 100 <= status <= 599 && i.error.None?
      && (if HasMediaType(i) then i.visibleText.None? && i.tiles.None? && i.screenshots.None?
          else i.visibleText.Some? && HasTiles(i.tiles) && ShotsMatch(i))
  }

  /** The requested paths in order, and after them only new discovered routes. */
  predicate Placed(lib: Library, expected: seq<string>, ins: seq<Inspection>, k: nat)
    requires k < |ins|
  {
    if k < |expected| then ins[k].path == expected[k] && !ins[k].discovered
    else ins[k].discovered && ins[k].path !in expected && lib.canonicalRoute(ins[k].path)
  }

  ghost predicate AcceptedUpTo(lib: Library, expected: seq<string>, ins: seq<Inspection>, n: nat)
    requires n <= |ins|
  {
    && (forall k :: 0 <= k < n ==> Placed(lib, expected, ins, k) && WellShaped(ins[k]))
    && (forall j, k :: 0 <= j < k < n ==> ins[j].path != ins[k].path)
    && TotalTiles(ins[..n]) <= MAX_TILES && TotalBytes(ins[..n]) <= MAX_SCREENSHOT_BYTES
  }

  ghost predicate Accepted(lib: Library, expected: seq<string>, ins: seq<Inspection>) {
    |expected| <= |ins| <= MAX_RENDERED_ROUTES && AcceptedUpTo(lib, expected, ins, |ins|)
  }

  /** The byte-counting pass over one answer's screenshots: stops at the first that is wrong or too much. */
  method CheckShots(i: Inspection, total: nat) returns (ok: bool, total': nat)
    requires total <= MAX_SCREENSHOT_BYTES
    ensures ok <==> ShotsMatch(i) && total + ScreenshotBytes(i) <= MAX_SCREENSHOT_BYTES
    ensures ok ==> total' == total + ScreenshotBytes(i)
  {
    total' := total;
    if i.screenshots.None? { return true, total'; }
    if !HasTiles(i.tiles) || |i.screenshots.value| != |i.tiles.value| { return false, total'; }
    var shots := i.screenshots.value;
    assert shots[..0] == [];
    for k := 0 to |shots|
      invariant forall j :: 0 <= j < k ==> ShotMatches(shots[j], i.tiles.value[j])
      invariant total' == total + SizeOf(shots[..k]) <= MAX_SCREENSHOT_BYTES
    {
      assert shots[..k + 1][..k] == shots[..k];
      if !ShotMatches(shots[k], i.tiles.value[k]) { return false, total'; }
      total' := total' + |shots[k].bytes|;
      if total' > MAX_SCREENSHOT_BYTES {
        SizeGrows(shots, k + 1);
        return false, total';
      }
    }
    assert shots[..|shots|] == shots;
    return true, total';
  }

  lemma {:induction false} SizeGrows(shots: seq<Encoded>, k: nat)
    requires k <= |shots|
    ensures SizeOf(shots[..k]) <= SizeOf(shots)
    decreases |shots|
  {
    if k == |shots| {
      assert shots[..k] == shots;
    } else {
      assert shots[..|shots| - 1][..k] == shots[..k];
      SizeGrows(shots[..|shots| - 1], k);
    }
  }

  lemma {:induction false} TotalsGrow(ins: seq<Inspection>, k: nat)
    requires k <= |ins|
    ensures TotalTiles(ins[..k]) <= TotalTiles(ins) && TotalBytes(ins[..k]) <= TotalBytes(ins)
    decreases |ins|
  {
    if k == |ins| {
      assert ins[..k] == ins;
    } else {
      assert ins[..|ins| - 1][..k] == ins[..k];
      TotalsGrow(ins[..|ins| - 1], k);
    }
  }

  lemma AcceptedStep(lib: Library, expected: seq<string>, ins: seq<Inspection>, k: nat)
    requires k < |ins| && AcceptedUpTo(lib, expected, ins, k)
    ensures AcceptedUpTo(lib, expected, ins, k + 1) <==>
            && Placed(lib, expected, ins, k) && WellShaped(ins[k])
            && (forall j :: 0 <= j < k ==> ins[j].path != ins[k].path)
            && TotalTiles(ins[..k]) + Count(ins[k].tiles) <= MAX_TILES
            && TotalBytes(ins[..k]) + ScreenshotBytes(ins[k]) <= MAX_SCREENSHOT_BYTES
  {
    assert ins[..k + 1][..k] == ins[..k];
  }

  lemma AcceptedPrefix(lib: Library, expected: seq<string>, ins: seq<Inspection>, k: nat)
    requires k <= |ins| && AcceptedUpTo(lib, expected, ins, |ins|)
    ensures AcceptedUpTo(lib, expected, ins, k)
  {
    TotalsGrow(ins, k);
    assert ins[..|ins|] == ins;
  }

  /** The tests on the content of one answer, given the outcome of the screenshot pass. */
  predicate ShapeAccepted(i: Inspection, shotsMatch: bool) {
    if i.status.Some? then
      && 100 <= i.status.value <= 599
      && !i.error.Some?
      && (if HasMediaType(i) then !i.visibleText.Some? && !i.tiles.Some? && !i.screenshots.Some?
          else i.visibleText.Some? && HasTiles(i.tiles) && shotsMatch)
    else i.error.Some? && !i.visibleText.Some? && !i.tiles.Some? && !i.screenshots.Some? && !i.nonHtmlMediaType.Some?
  }

  /** validateRenderedInspections; its map keeps the answers, in their order, under distinct paths. */
  method ValidateInspections(lib: Library, expected: seq<string>, ins: seq<Inspection>) returns (ok: bool)
    ensures ok <==> Accepted(lib, expected, ins)
  {
    if |ins| < |expected| || |ins| > MAX_RENDERED_ROUTES { return false; }
    var seen: set<string> := {};
    var totalBytes: nat, totalTiles: nat := 0, 0;
    assert ins[..0] == [];
    for k := 0 to |ins|
      invariant AcceptedUpTo(lib, expected, ins, k)
      invariant seen == set j | 0 <= j < k :: ins[j].path
      invariant totalBytes == TotalBytes(ins[..k]) && totalTiles == TotalTiles(ins[..k])
    {
      var i := ins[k];
      AcceptedStep(lib, expected, ins, k);
      if Accepted(lib, expected, ins) { AcceptedPrefix(lib, expected, ins, k + 1); }
      if !Placed(lib, expected, ins, k) || i.path in seen { return false; }
      var shotsOk, bytes' := CheckShots(i, totalBytes);
      if HasTiles(i.tiles) {
        totalTiles := totalTiles + |i.tiles.value|;
        if totalTiles > MAX_TILES { return false; }
      }
      if !ShapeAccepted(i, shotsOk) { return false; }
      assert ins[..k + 1][..k] == ins[..k];
      totalBytes := bytes';
      seen := seen + {i.path};
    }
    return true;
  }

  // ----- Results by path -----

  datatype PageResult =
    | Broken(message: string)
    | NonHtml(status: int, mediaType: string)
    | Rendered(status: int, text: string, tiles: seq<Digest>, screenshots: Option<seq<Encoded>>)

  function ResultOf(i: Inspection): PageResult
    requires WellShaped(i)
  {
    if Truthy(i.error) || i.status.None? then Broken(i.error.value)
    else if Truthy(i.nonHtmlMediaType) then NonHtml(i.status.value, i.nonHtmlMediaType.value)
    else Rendered(i.status.value, i.visibleText.value, i.tiles.value, i.screenshots)
  }

  function Results(ins: seq<Inspection>): seq<(string, PageResult)>
    requires forall k :: 0 <= k < |ins| ==> WellShaped(ins[k])
  {
    seq(|ins|, k requires 0 <= k < |ins| => (ins[k].path, ResultOf(ins[k])))
  }

  /** What the map of results holds for a path. */
  function At(results: seq<(string, PageResult)>, path: string): Option<PageResult> {
    if results == [] then None
    else if results[|results| - 1].0 == path then Some(results[|results| - 1].1)
    else At(results[..|results| - 1], path)
  }

  function TextBytes(lib: Library, results: seq<(string, PageResult)>): nat {
    if results == [] then 0
    else
      TextBytes(lib, results[..|results| - 1]) +
      match results[|results| - 1].1
      case Rendered(_, text, _, _) => lib.byteLength(text)
      case _ => 0
  }

  predicate TextFits(lib: Library, r: PageResult) {
    r.Rendered? ==> lib.byteLength(r.text) <= MAX_VISIBLE_TEXT_BYTES
  }

  ghost predicate TextsFit(lib: Library, results: seq<(string, PageResult)>) {
    && (forall k :: 0 <= k < |results| ==> TextFits(lib, results[k].1))
    && TextBytes(lib, results) <= MAX_TOTAL_TEXT_BYTES
  }

  // ----- Checks -----

  predicate Includes(text: string, part: string) {
    exists i :: 0 <= i <= |text| && part <= text[i..]
  }

  /** matchingForbiddenClaimIndices, from claim `i` on. */
  function MatchingClaims(lib: Library, text: string, claims: seq<string>, i: nat): seq<nat>
    requires i <= |claims|
    decreases |claims| - i
  {
    if i == |claims| then []
    else (if Includes(lib.normalize(text), lib.normalize(claims[i])) then [i] else []) + MatchingClaims(lib, text, claims, i + 1)
  }

  function CheckOf(lib: Library, claims: seq<string>, t: Target, r: Option<PageResult>): Check {
    var id := if Truthy(t.requirementId) then t.requirementId else None;
    var index := if Truthy(t.requirementId) then t.verifierIndex else None;
    match r
    case None =>
      Check(id, index, t.discovered, t.path, t.expectedStatus, None, t.bodyIncludes, t.bodyIncludes, [],
            None, None, None, Some(lib.bound("Preview was not inspected")))
    case Some(Broken(message)) =>
      Check(id, index, t.discovered, t.path, t.expectedStatus, None, t.bodyIncludes, t.bodyIncludes, [],
            None, None, None, Some(lib.bound(message)))
    case Some(NonHtml(status, mediaType)) =>
      Check(id, index, t.discovered, t.path, t.expectedStatus, Some(status), t.bodyIncludes, t.bodyIncludes, [],
            None, None, Some(mediaType),
            Some("Reachable non-HTML content (" + mediaType + ") has no type-specific rendered-claim evidence"))
    case Some(Rendered(status, text, tiles, _)) =>
      Check(id, index, t.discovered, t.path, t.expectedStatus, Some(status), t.bodyIncludes,
            Filter(part => !Includes(text, part), t.bodyIncludes), MatchingClaims(lib, text, claims, 0),
            Some(Sha(OfText(text))), Some(tiles), None, None)
  }

  function DiscoveredTargets(ins: seq<Inspection>): seq<Target> {
    if ins == [] then []
    else
      (if ins[0].discovered then [Target(None, None, true, true, ins[0].path, 200, [])] else []) +
      DiscoveredTargets(ins[1..])
  }

  function AllTargets(c: Contract, ins: seq<Inspection>): seq<Target> { Targets(c) + DiscoveredTargets(ins) }

  function ChecksFor(lib: Library, claims: seq<string>, targets: seq<Target>, results: seq<(string, PageResult)>): seq<Check> {
    Map((t: Target) => CheckOf(lib, claims, t, At(results, t.path)), targets)
  }

  predicate Erred(t: Target, check: Check) { t.blocking && Truthy(check.error) }

  predicate Failing(t: Target, check: Check) {
    || (t.blocking && (check.actualStatus != Some(check.expectedStatus) || check.missingText != []))
    || check.forbiddenClaims != []
  }

  function StatusOf(targets: seq<Target>, checks: seq<Check>): Status
    requires |targets| == |checks|
  {
    if exists k :: 0 <= k < |checks| && Erred(targets[k], checks[k]) then Error
    else if exists k :: 0 <= k < |checks| && Failing(targets[k], checks[k]) then Fail
    else Pass
  }

  /** The rendered pages, in the order in which they were inspected. */
  function PagesOf(results: seq<(string, PageResult)>): seq<Page> {
    if results == [] then []
    else
      PagesOf(results[..|results| - 1]) +
      match results[|results| - 1].1
      case Rendered(status, text, _, shots) => [Page(results[|results| - 1].0, status, text, shots)]
      case _ => []
  }

  datatype Inspected = Inspected(status: Status, checks: seq<Check>, pages: seq<Page>)

  /** The inspector goes through with these answers. */
  ghost predicate Inspectable(lib: Library, c: Contract, ins: seq<Inspection>) {
    && |RequestedPaths(c)| <= MAX_RENDERED_ROUTES
    && Accepted(lib, RequestedPaths(c), ins)
    && TextsFit(lib, Results(ins))
  }

  ghost function Inspect(lib: Library, c: Contract, ins: seq<Inspection>): Inspected
    requires Inspectable(lib, c, ins)
  {
    var targets := AllTargets(c, ins);
    var checks := ChecksFor(lib, c.forbiddenClaims, targets, Results(ins));
    Inspected(StatusOf(targets, checks), checks, PagesOf(Results(ins)))
  }

  /** inspectPreview, after the browser has answered; Failure is its exception. */
  method InspectPreview(lib: Library, c: Contract, ins: seq<Inspection>) returns (r: Result<Inspected>)
    ensures r.Success? <==> Inspectable(lib, c, ins)
    ensures r.Success? ==> r.value == Inspect(lib, c, ins)
  {
    var targets := PreviewTargets(c);
    var uniquePaths := Distinct(Map(PathOf, targets));
    if |uniquePaths| > MAX_RENDERED_ROUTES { return Failure; }
    var valid := ValidateInspections(lib, uniquePaths, ins);
    if !valid { return Failure; }
    var pagesByPath := IndexResults(lib, ins);
    if pagesByPath.Failure? { return Failure; }
    var allTargets := targets + DiscoveredTargets(ins);
    var checks := MakeChecks(lib, c.forbiddenClaims, allTargets, pagesByPath.value, Results(ins));
    var pages := MakePages(ins, pagesByPath.value);
    return Success(Inspected(StatusOf(allTargets, checks), checks, pages));
  }

  /** The map from paths to results; Failure when there is too much visible text. */
  method IndexResults(lib: Library, ins: seq<Inspection>) returns (r: Result<map<string, PageResult>>)
    requires forall k :: 0 <= k < |ins| ==> WellShaped(ins[k])
    ensures r.Success? <==> TextsFit(lib, Results(ins))
    ensures r.Success? ==> MapIs(r.value, Results(ins))
  {
    ghost var results := Results(ins);
    var pagesByPath: map<string, PageResult> := map[];
    var totalBytes: nat := 0;
    assert results[..0] == [];
    for k := 0 to |ins|
      invariant MapIs(pagesByPath, results[..k])
      invariant totalBytes == TextBytes(lib, results[..k]) <= MAX_TOTAL_TEXT_BYTES
      invariant forall j :: 0 <= j < k ==> TextFits(lib, results[j].1)
    {
      assert results[..k + 1][..k] == results[..k];
      TextBytesGrow(lib, results, k + 1);
      var result := ResultOf(ins[k]);
      assert results[k] == (ins[k].path, result);
      if result.Rendered? {
        if lib.byteLength(result.text) > MAX_VISIBLE_TEXT_BYTES { return Failure; }
        totalBytes := totalBytes + lib.byteLength(result.text);
        if totalBytes > MAX_TOTAL_TEXT_BYTES { return Failure; }
      }
      MapPush(pagesByPath, results[..k], ins[k].path, result);
      PrefixGrows(results, k);
      pagesByPath := pagesByPath[ins[k].path := result];
    }
    assert results[..|ins|] == results;
    return Success(pagesByPath);
  }

  method MakeChecks(lib: Library, claims: seq<string>, targets: seq<Target>, pagesByPath: map<string, PageResult>,
                    ghost results: seq<(string, PageResult)>) returns (checks: seq<Check>)
    requires MapIs(pagesByPath, results)
    ensures checks == ChecksFor(lib, claims, targets, results)
  {
    checks := [];
    for k := 0 to |targets|
      invariant |checks| == k
      invariant forall j :: 0 <= j < k ==> checks[j] == CheckOf(lib, claims, targets[j], At(results, targets[j].path))
    {
      var t := targets[k];
      var result := if t.path in pagesByPath then Some(pagesByPath[t.path]) else None;
      checks := checks + [CheckOf(lib, claims, t, result)];
    }
  }

  method MakePages(ins: seq<Inspection>, pagesByPath: map<string, PageResult>) returns (pages: seq<Page>)
    requires forall k :: 0 <= k < |ins| ==> WellShaped(ins[k])
    requires forall i, j :: 0 <= i < j < |ins| ==> ins[i].path != ins[j].path
    requires MapIs(pagesByPath, Results(ins))
    ensures pages == PagesOf(Results(ins))
  {
    ghost var results := Results(ins);
    pages := [];
    for k := 0 to |ins|
      invariant pages == PagesOf(results[..k])
    {
      assert results[..k + 1][..k] == results[..k];
      PathsDistinct(ins, k, results);
      match pagesByPath[ins[k].path] {
        case Rendered(status, text, _, shots) => pages := pages + [Page(ins[k].path, status, text, shots)];
        case _ => EmptyConcat(pages);
      }
    }
    assert results[..|ins|] == results;
  }

  ghost predicate MapIs(m: map<string, PageResult>, results: seq<(string, PageResult)>) {
    forall path :: At(results, path) == if path in m then Some(m[path]) else None
  }

  lemma MapPush(m: map<string, PageResult>, results: seq<(string, PageResult)>, path: string, result: PageResult)
    requires MapIs(m, results)
    ensures MapIs(m[path := result], results + [(path, result)])
  {
    assert (results + [(path, result)])[..|results|] == results;
  }

  lemma {:induction false} TextBytesGrow(lib: Library, results: seq<(string, PageResult)>, k: nat)
    requires k <= |results|
    ensures TextBytes(lib, results[..k]) <= TextBytes(lib, results)
    decreases |results|
  {
    if k == |results| {
      assert results[..k] == results;
    } else {
      assert results[..|results| - 1][..k] == results[..k];
      TextBytesGrow(lib, results[..|results| - 1], k);
    }
  }

  /** A listed path holds its own result, the paths being distinct. */
  lemma {:induction false} PathsDistinct(ins: seq<Inspection>, k: nat, results: seq<(string, PageResult)>)
    requires k < |ins| == |results| && forall j :: 0 <= j < |ins| ==> results[j].0 == ins[j].path
    requires forall i, j :: 0 <= i < j < |ins| ==> ins[i].path != ins[j].path
    ensures At(results, ins[k].path) == Some(results[k].1)
  {
    if k < |ins| - 1 { PathsDistinct(ins[..|ins| - 1], k, results[..|ins| - 1]); }
  }

  /** The target digest that both the inspector and the gate compute from the contract. */
  function InputDigest(c: Contract): Digest { Sha(OfPreview(Targets(c), c.forbiddenClaims)) }
}
