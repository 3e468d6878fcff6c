/**
 The raster claim inspector (src/application/raster-claim-inspector.ts): the rendered screenshots and
 the workspace images are sent to a vision model in batches, and its answers become one receipt.

 Walking the workspace is not part of this model: its images, or its error, are given.
 */
module RasterClaims {
  import opened Wrappers
  import opened Text
  import opened Lists
  import opened Evidence
  import opened PreviewInspection
  import opened RasterBatches

  const MAX_RASTER_ASSETS: nat := 64
  const MAX_RASTER_AGGREGATE_BYTES: nat := 64 * 1024 * 1024
  const MAX_RENDERED_RASTER_ASSETS: nat := 512
  const MAX_RENDERED_RASTER_BYTES: nat := 6 * 1024 * 1024

  /** An asset sent for inspection; its index is its position among all of them. */
  datatype Image = Image(sha256: Digest, sizeBytes: nat, rendered: bool)

  function Base64Length(n: nat): nat { (n + 2) / 3 * 4 }

  function Numbered(images: seq<Image>): (assets: seq<Asset>)
    ensures |assets| == |images| && forall i :: 0 <= i < |assets| ==> assets[i].index == i
  {
    seq(|images|, i requires 0 <= i < |images| => Asset(i, Base64Length(images[i].sizeBytes)))
  }

  // ----- The rendered assets -----

  function PagePath(p: Page): string { p.path }

  function SortedPages(pages: seq<Page>): seq<Page> { SortByPath(PagePath, pages) }

  predicate TileAccepted(shot: Encoded) {
    DecodeCanonical(shot).Some? && IsPng(shot.bytes)
  }

  predicate TilesAccepted(shots: seq<Encoded>) {
    forall k :: 0 <= k < |shots| ==> TileAccepted(shots[k])
  }

  predicate PageAccepted(p: Page) {
    p.screenshots.Some? && p.screenshots.value != [] && TilesAccepted(p.screenshots.value)
  }

  function ImageOf(shot: Encoded): Image { Image(Sha(OfBytes(shot.bytes)), |shot.bytes|, true) }

  function ShotsOf(p: Page): seq<Encoded> { if p.screenshots.Some? then p.screenshots.value else [] }

  function AllShots(pages: seq<Page>): seq<Encoded> {
    if pages == [] then [] else AllShots(pages[..|pages| - 1]) + ShotsOf(pages[|pages| - 1])
  }

  ghost predicate AcceptedTo(pages: seq<Page>, k: nat)
    requires k <= |pages|
  {
    forall j :: 0 <= j < k ==> PageAccepted(pages[j])
  }

  lemma AcceptedOneMore(pages: seq<Page>, k: nat)
    requires k < |pages|
    ensures AcceptedTo(pages, k + 1) <==> AcceptedTo(pages, k) && PageAccepted(pages[k])
    ensures AcceptedTo(pages, |pages|) ==> PageAccepted(pages[k])
  {}

  /** Every page is accepted and all the tiles are within bounds. */
  ghost predicate WithinBounds(pages: seq<Page>) {
    && AcceptedTo(pages, |pages|)
    && |AllShots(pages)| <= MAX_RENDERED_RASTER_ASSETS
    && SizeOf(AllShots(pages)) <= MAX_RENDERED_RASTER_BYTES
  }

  ghost predicate Collectable(pages: seq<Page>) {
    NoDuplicates(Map(PagePath, SortedPages(pages))) && WithinBounds(SortedPages(pages))
  }

  function ImagesOf(shots: seq<Encoded>): seq<Image> { Map(ImageOf, shots) }

  datatype Collected = Assets(images: seq<Image>) | Refused(code: RasterErrorCode)

  /** collectRenderedAssets: all the tiles in the order of their pages' paths, or an error. */
  method CollectRenderedAssets(pages: seq<Page>) returns (r: Collected)
    ensures r.Assets? <==> Collectable(pages)
    ensures r.Assets? ==> r.images == ImagesOf(AllShots(SortedPages(pages)))
  {
    var sorted := SortedPages(pages);
    SortKeeps(PagePath, pages);
    var paths := Map(PagePath, sorted);
    SetSizeTells(paths);
    if |set path | path in paths| != |pages| { return Refused(InvalidAsset); }
    r := CollectPages(sorted);
  }

  method CollectPages(sorted: seq<Page>) returns (r: Collected)
    ensures r.Assets? <==> WithinBounds(sorted)
    ensures r.Assets? ==> r.images == ImagesOf(AllShots(sorted))
  {
    var assets: seq<Image> := [];
    var aggregateBytes: nat := 0;
    assert sorted[..0] == [] && ImagesOf([]) == [];
    for k := 0 to |sorted|
      invariant AcceptedTo(sorted, k)
      invariant assets == ImagesOf(AllShots(sorted[..k]))
      invariant aggregateBytes == SizeOf(AllShots(sorted[..k])) <= MAX_RENDERED_RASTER_BYTES
      invariant |assets| <= MAX_RENDERED_RASTER_ASSETS
    {
      AcceptedOneMore(sorted, k);
      if sorted[k].screenshots.None? || sorted[k].screenshots.value == [] { return Refused(InvalidAsset); }
      var shots := sorted[k].screenshots.value;
      ShotsThrough(sorted, k);
      r, aggregateBytes := CollectTiles(shots, AllShots(sorted[..k]), assets, aggregateBytes);
      if r.Refused? { return; }
      assets := r.images;
    }
    assert sorted[..|sorted|] == sorted;
    return Assets(assets);
  }

  lemma ShotsThrough(pages: seq<Page>, k: nat)
    requires k < |pages|
    ensures AllShots(pages[..k + 1]) == AllShots(pages[..k]) + ShotsOf(pages[k])
    ensures |AllShots(pages[..k + 1])| <= |AllShots(pages)| && SizeOf(AllShots(pages[..k + 1])) <= SizeOf(AllShots(pages))
  {
    assert pages[..k + 1][..k] == pages[..k] && ShotsOf(pages[k])[..|ShotsOf(pages[k])|] == ShotsOf(pages[k]);
    ShotsAreReached(pages, k, |ShotsOf(pages[k])|);
  }

  /** The tiles of one page, added to the assets of the pages before it. */
  method CollectTiles(shots: seq<Encoded>, ghost before: seq<Encoded>, assets: seq<Image>, aggregateBytes: nat)
    returns (r: Collected, total: nat)
    requires assets == ImagesOf(before) && |assets| <= MAX_RENDERED_RASTER_ASSETS
    requires aggregateBytes == SizeOf(before) <= MAX_RENDERED_RASTER_BYTES
    ensures r.Assets? <==>
            && TilesAccepted(shots)
            && |before + shots| <= MAX_RENDERED_RASTER_ASSETS && SizeOf(before + shots) <= MAX_RENDERED_RASTER_BYTES
    ensures r.Assets? ==> r.images == ImagesOf(before + shots) && total == SizeOf(before + shots)
  {
    total := aggregateBytes;
    var images := assets;
    assert before + shots[..0] == before;
    for t := 0 to |shots|
      invariant TilesAccepted(shots[..t])
      invariant images == ImagesOf(before + shots[..t])
      invariant total == SizeOf(before + shots[..t]) <= MAX_RENDERED_RASTER_BYTES
      invariant |images| <= MAX_RENDERED_RASTER_ASSETS
    {
      PushShot(before, shots, t);
      AcceptedTile(shots, t);
      if |images| >= MAX_RENDERED_RASTER_ASSETS { return Refused(AssetBoundExceeded), total; }
      if !TileAccepted(shots[t]) { return Refused(InvalidAsset), total; }
      total := total + |shots[t].bytes|;
      if total > MAX_RENDERED_RASTER_BYTES {
        PartIsNoLarger(before, shots, t + 1);
        return Refused(AssetBoundExceeded), total;
      }
      images := images + [ImageOf(shots[t])];
    }
    assert shots[..|shots|] == shots;
    return Assets(images), total;
  }

  lemma AcceptedTile(shots: seq<Encoded>, t: nat)
    requires t < |shots|
    ensures TilesAccepted(shots[..t + 1]) <==> TilesAccepted(shots[..t]) && TileAccepted(shots[t])
    ensures TilesAccepted(shots) ==> TileAccepted(shots[t])
  {
    assert forall k :: 0 <= k < t ==> shots[..t + 1][k] == shots[..t][k];
    if TilesAccepted(shots[..t + 1]) { assert shots[..t + 1][t] == shots[t]; }
    forall k | 0 <= k < t && TilesAccepted(shots[..t + 1]) ensures TileAccepted(shots[..t][k]) {
      assert TileAccepted(shots[..t + 1][k]);
    }
  }

  lemma PartIsNoLarger(before: seq<Encoded>, shots: seq<Encoded>, t: nat)
    requires t <= |shots|
    ensures SizeOf(before + shots[..t]) <= SizeOf(before + shots)
  {
    assert (before + shots)[..|before| + t] == before + shots[..t];
    SizeGrows(before + shots, |before| + t);
  }

  lemma PushShot(before: seq<Encoded>, shots: seq<Encoded>, t: nat)
    requires t < |shots|
    ensures ImagesOf(before + shots[..t + 1]) == ImagesOf(before + shots[..t]) + [ImageOf(shots[t])]
    ensures SizeOf(before + shots[..t + 1]) == SizeOf(before + shots[..t]) + |shots[t].bytes|
  {
    var grown := before + shots[..t + 1];
    assert grown[..|grown| - 1] == before + shots[..t] && grown[|grown| - 1] == shots[t];
  }

  /** The tiles collected up to some point are no more, and no larger, than all of them. */
  lemma {:induction false} ShotsAreReached(pages: seq<Page>, k: nat, t: nat)
    requires k < |pages| && t <= |ShotsOf(pages[k])|
    ensures |AllShots(pages[..k])| + t <= |AllShots(pages)|
    ensures SizeOf(AllShots(pages[..k]) + ShotsOf(pages[k])[..t]) <= SizeOf(AllShots(pages))
    decreases |pages|
  {
    var front, last := pages[..|pages| - 1], pages[|pages| - 1];
    if k == |pages| - 1 {
      var all := AllShots(pages);
      assert all[..|AllShots(front)| + t] == AllShots(front) + ShotsOf(last)[..t];
      SizeGrows(all, |AllShots(front)| + t);
    } else {
      assert front[..k] == pages[..k];
      ShotsAreReached(front, k, t);
      assert AllShots(pages)[..|AllShots(front)|] == AllShots(front);
      SizeGrows(AllShots(pages), |AllShots(front)|);
    }
  }

  // ----- The model's answers -----

  datatype ImageStatus = Clear | Matching | Unsupported | Unverifiable | OtherStatus

  /** One result of a model answer; nothing about it is trusted. */
  datatype Finding = Finding(assetIndex: int, status: ImageStatus, claims: seq<int>)

  datatype Answer = Throws(malformed: bool) | Answer(modelDigest: string, results: seq<Finding>)

  predicate IsSha256(text: string) {
    |text| == 64 && forall k :: 0 <= k < 64 ==> '0' <= text[k] <= '9' || 'a' <= text[k] <= 'f'
  }

  /** Claim indices are in range and ascending; there are some exactly when the image matches. */
  predicate FindingValid(f: Finding, position: nat, claimCount: nat) {
    && f.assetIndex == position && f.status != OtherStatus
    && (forall k :: 0 <= k < |f.claims| ==> 0 <= f.claims[k] < claimCount)
    && (forall k :: 0 < k < |f.claims| ==> f.claims[k - 1] < f.claims[k])
    && (f.status == Matching <==> f.claims != [])
  }

  /** validateModelOutput */
  predicate AnswerValid(a: Answer, assetCount: nat, claimCount: nat) {
    a.Answer? && IsSha256(a.modelDigest) && |a.results| == assetCount && InOrder(a.results, claimCount)
  }

  /** A batch's results, numbered as the assets they are about. */
  function Renumbered(results: seq<Finding>, batch: seq<Asset>): seq<Finding>
    requires |results| == |batch|
  {
    seq(|batch|, k requires 0 <= k < |batch| => results[k].(assetIndex := batch[k].index))
  }

  ghost predicate AllAnswersValid(batches: seq<seq<Asset>>, answer: nat -> Answer, claimCount: nat, n: nat)
    requires n <= |batches|
  {
    forall k :: 0 <= k < n ==> AnswerValid(answer(k), |batches[k]|, claimCount)
  }

  ghost predicate OneModel(answer: nat -> Answer, n: nat) {
    forall k :: 0 < k < n ==> answer(k).Answer? && answer(0).Answer? && answer(k).modelDigest == answer(0).modelDigest
  }

  /** The answers to the first `n` batches are valid and come from one model. */
  ghost predicate Consistent(batches: seq<seq<Asset>>, answer: nat -> Answer, claimCount: nat, n: nat)
    requires n <= |batches|
  {
    AllAnswersValid(batches, answer, claimCount, n) && OneModel(answer, n)
  }

  lemma ConsistentStep(batches: seq<seq<Asset>>, answer: nat -> Answer, claimCount: nat, k: nat)
    requires k < |batches| && Consistent(batches, answer, claimCount, k)
    requires AnswerValid(answer(k), |batches[k]|, claimCount)
    requires k > 0 ==> answer(0).Answer? && answer(k).modelDigest == answer(0).modelDigest
    ensures Consistent(batches, answer, claimCount, k + 1)
  {}

  lemma ConsistentAt(batches: seq<seq<Asset>>, answer: nat -> Answer, claimCount: nat, k: nat)
    requires k < |batches| && Consistent(batches, answer, claimCount, |batches|)
    ensures AnswerValid(answer(k), |batches[k]|, claimCount)
    ensures k > 0 ==> answer(0).Answer? && answer(k).modelDigest == answer(0).modelDigest
  {}

  /** The results for the assets of the first `n` batches. */
  ghost function Bound(batches: seq<seq<Asset>>, answer: nat -> Answer, claimCount: nat, n: nat): seq<Finding>
    requires n <= |batches| && Consistent(batches, answer, claimCount, n)
  {
    if n == 0 then []
    else Bound(batches, answer, claimCount, n - 1) + Renumbered(answer(n - 1).results, batches[n - 1])
  }

  lemma BoundStep(batches: seq<seq<Asset>>, answer: nat -> Answer, claimCount: nat, k: nat)
    requires k < |batches| && Consistent(batches, answer, claimCount, k) && Consistent(batches, answer, claimCount, k + 1)
    ensures Bound(batches, answer, claimCount, k + 1)
         == Bound(batches, answer, claimCount, k) + Renumbered(answer(k).results, batches[k])
    ensures NumberBefore(batches, k + 1) == NumberBefore(batches, k) + |Renumbered(answer(k).results, batches[k])|
  {}

  predicate IndexAfter(a: Finding, b: Finding) { a.assetIndex > b.assetIndex }

  function InsertByIndex(f: Finding, sorted: seq<Finding>): seq<Finding> {
    if sorted == [] then [f]
    else if IndexAfter(f, sorted[0]) then [sorted[0]] + InsertByIndex(f, sorted[1..])
    else [f] + sorted
  }

  function SortByIndex(results: seq<Finding>): seq<Finding> {
    if results == [] then [] else InsertByIndex(results[0], SortByIndex(results[1..]))
  }

  /** Results in order are left in order. */
  lemma {:induction false} SortedStays(results: seq<Finding>, from: nat)
    requires forall k :: 0 <= k < |results| ==> results[k].assetIndex == from + k
    ensures SortByIndex(results) == results
  {
    if results != [] {
      SortedStays(results[1..], from + 1);
      assert results == [results[0]] + results[1..];
    }
  }

  datatype Findings = Findings(modelDigest: string, results: seq<Finding>)

  datatype Batched = Found(findings: Findings) | Refuted(code: RasterErrorCode)

  /** One result for each asset, in order, valid, and the model's own for the batch it was sent in. */
  ghost predicate Complete(f: Findings, assets: seq<Asset>, claimCount: nat) {
    IsSha256(f.modelDigest) && |f.results| == |assets| && InOrder(f.results, claimCount)
  }

  predicate InOrder(results: seq<Finding>, claimCount: nat) {
    forall k :: 0 <= k < |results| ==> FindingValid(results[k], k, claimCount)
  }

  lemma OrderKept(results: seq<Finding>, more: seq<Finding>, batch: seq<Asset>, claimCount: nat)
    requires InOrder(results, claimCount) && InOrder(more, claimCount) && |more| == |batch|
    requires forall j :: 0 <= j < |batch| ==> batch[j].index == |results| + j
    ensures InOrder(results + Renumbered(more, batch), claimCount)
  {
    var all := results + Renumbered(more, batch);
    forall k | 0 <= k < |all| ensures FindingValid(all[k], k, claimCount) {
      if k >= |results| { assert FindingValid(more[k - |results|], k - |results|, claimCount); }
    }
  }

  lemma InOrderStays(results: seq<Finding>, claimCount: nat)
    requires InOrder(results, claimCount)
    ensures SortByIndex(results) == results
  {
    SortedStays(results, 0);
  }

  /**
   inspectBatches; `answer(k)` is what the model does with the k-th batch. Refuted stands for its exceptions.
   */
  method InspectBatches(assets: seq<Asset>, claimCount: nat, answer: nat -> Answer)
    returns (r: Batched, ghost batches: seq<seq<Asset>>)
    requires forall i :: 0 <= i < |assets| ==> assets[i].index == i
    ensures r.Found? ==> Batching(assets, batches) && forall other :: Batching(assets, other) ==> |batches| <= |other|
    ensures r.Found? ==> Consistent(batches, answer, claimCount, |batches|)
    ensures r.Found? ==> r.findings.results == Bound(batches, answer, claimCount, |batches|)
    ensures r.Found? ==> Complete(r.findings, assets, claimCount)
    ensures r.Refuted? ==> assets == [] || !Batching(assets, batches) || !Consistent(batches, answer, claimCount, |batches|)
    ensures r.Refuted? && !Batching(assets, batches) ==> forall other :: !Batching(assets, other)
  {
    var made := CreateModelBatches(assets);
    if made.None? { return Refuted(ProviderError), []; }
    batches := made.value;
    var allResults: seq<Finding> := [];
    var modelDigest: Option<string> := None;
    for k := 0 to |made.value|
      invariant Consistent(batches, answer, claimCount, k)
      invariant allResults == Bound(batches, answer, claimCount, k)
      invariant |allResults| == NumberBefore(batches, k)
      invariant InOrder(allResults, claimCount)
      invariant if k == 0 then modelDigest == None
                else modelDigest == Some(answer(0).modelDigest) && IsSha256(answer(0).modelDigest)
    {
      var batch, output := made.value[k], answer(k);
      if Consistent(batches, answer, claimCount, |batches|) { ConsistentAt(batches, answer, claimCount, k); }
      if output.Throws? && !output.malformed { return Refuted(ProviderError), batches; }
      if !AnswerValid(output, |batch|, claimCount) { return Refuted(ModelResponseInvalid), batches; }
      if modelDigest.Some? && output.modelDigest != modelDigest.value { return Refuted(ModelResponseInvalid), batches; }
      ConsistentStep(batches, answer, claimCount, k);
      BatchPlace(assets, batches, k);
      OrderKept(allResults, output.results, batch, claimCount);
      BoundStep(batches, answer, claimCount, k);
      modelDigest := Some(output.modelDigest);
      allResults := allResults + Renumbered(output.results, batch);
    }
    NumbersBefore(batches, |batches|);
    assert batches[..|batches|] == batches;
    if modelDigest.None? || |allResults| != |assets| { return Refuted(ModelResponseInvalid), batches; }
    InOrderStays(allResults, claimCount);
    return Found(Findings(modelDigest.value, SortByIndex(allResults))), batches;
  }

  function NumberBefore(batches: seq<seq<Asset>>, k: nat): nat
    requires k <= |batches|
  {
    if k == 0 then 0 else NumberBefore(batches, k - 1) + |batches[k - 1]|
  }

  lemma {:induction false} NumbersBefore(batches: seq<seq<Asset>>, k: nat)
    requires k <= |batches|
    ensures NumberBefore(batches, k) == |Concat(batches[..k])|
  {
    if k == 0 {
      assert batches[..0] == [];
    } else {
      NumbersBefore(batches, k - 1);
      PrefixGrows(batches, k - 1);
      ConcatPush(batches[..k - 1], batches[k - 1]);
    }
  }

  /** The assets of a batch are numbered from the number of assets before it. */
  lemma BatchPlace(assets: seq<Asset>, batches: seq<seq<Asset>>, k: nat)
    requires Batching(assets, batches) && k < |batches|
    requires forall i :: 0 <= i < |assets| ==> assets[i].index == i
    ensures forall j :: 0 <= j < |batches[k]| ==> batches[k][j].index == NumberBefore(batches, k) + j
  {
    NumbersBefore(batches, k);
    ConcatSplits(batches, k);
    var at := NumberBefore(batches, k);
    forall j | 0 <= j < |batches[k]| ensures batches[k][j].index == at + j {
      assert batches[k..][0] == batches[k];
      assert assets[at + j] == batches[k][j];
    }
  }

  // ----- The receipt -----

  function TilesPath(t: Tiles): string { t.path }

  function DigestOf(shot: Encoded): Digest { Sha(OfBytes(shot.bytes)) }

  function TilesOf(p: Page): Tiles { Tiles(p.path, Map(DigestOf, ShotsOf(p))) }

  /** renderedRasterInputDigest */
  function RenderedInputDigest(pages: seq<Page>): Digest {
    Sha(OfTiles(SortByPath(TilesPath, Map(TilesOf, pages))))
  }

  function SumBytes(images: seq<Image>): nat {
    if images == [] then 0 else SumBytes(images[..|images| - 1]) + images[|images| - 1].sizeBytes
  }

  function ShaOf(i: Image): Digest { i.sha256 }

  datatype Shape = Shape(
    provider: Provider, status: Status, workspace: seq<Image>, rendered: seq<Image>,
    matches: seq<Match>, unsupported: seq<int>, unverified: seq<int>,
    modelDigest: Option<string>, errorCode: Option<RasterErrorCode>)

  /** createVisualReceipt */
  function VisualReceipt(c: Contract, pages: seq<Page>, s: Shape): Visual {
    var assets := s.workspace + s.rendered;
    Visual(s.provider, Sha(OfStrings(c.forbiddenClaims)), Sha(OfStrings(Statements(c.approvedFacts))), RenderedInputDigest(pages),
           Indices(|c.forbiddenClaims|), |assets|, |s.workspace|, |s.rendered|, SumBytes(assets),
           Map(ShaOf, assets), Map(ShaOf, assets), s.modelDigest, s.matches, s.unsupported, s.unverified, s.errorCode)
  }

  function Failed(code: RasterErrorCode): Shape {
    Shape(Controller, Error, [], [], [], [], [], None, Some(code))
  }

  /** The assets with results of one status, in order. */
  function IndicesWith(results: seq<Finding>, status: ImageStatus): seq<int> {
    if results == [] then []
    else
      var last := results[|results| - 1];
      IndicesWith(results[..|results| - 1], status) + if last.status == status then [last.assetIndex] else []
  }

  function MatchesOf(results: seq<Finding>, images: seq<Image>): seq<Match>
    requires forall k :: 0 <= k < |results| ==> 0 <= results[k].assetIndex < |images|
  {
    if results == [] then []
    else
      var last := results[|results| - 1];
      MatchesOf(results[..|results| - 1], images) +
      if last.status == Matching then [Match(last.assetIndex, images[last.assetIndex].sha256, last.claims)] else []
  }

  /** The shape of the receipt once every asset has its result. */
  function Concluded(workspace: seq<Image>, rendered: seq<Image>, f: Findings): Shape
    requires forall k :: 0 <= k < |f.results| ==> 0 <= f.results[k].assetIndex < |workspace + rendered|
  {
    var matches := MatchesOf(f.results, workspace + rendered);
    var unsupported := IndicesWith(f.results, Unsupported);
    var unverified := IndicesWith(f.results, Unverifiable);
    if unverified != [] then
      Shape(Fireworks, Error, workspace, rendered, [], [], unverified, Some(f.modelDigest), Some(ProviderUnverified))
    else
      Shape(Fireworks, if matches != [] || unsupported != [] then Fail else Pass, workspace, rendered,
            matches, unsupported, [], Some(f.modelDigest), None)
  }

  /** RasterClaimReceiptSchema's refinement and bounds (src/domain/evidence.ts). */
  ghost predicate SchemaHolds(status: Status, v: Visual) {
    EveryAssetBound(v) && FindingsDistinct(v) && FindingsBound(v) && StatusClean(status, v)
  }

  ghost predicate EveryAssetBound(v: Visual) {
    && |v.assetDigests| == |v.modelInputDigests| == v.assetCount == v.workspaceAssetCount + v.renderedAssetCount
    && v.workspaceAssetCount <= 64 && v.renderedAssetCount <= 512 && v.aggregateBytes <= 70 * 1024 * 1024
    && (forall k :: 0 <= k < |v.forbiddenClaims| ==> v.forbiddenClaims[k] == k)
  }

  ghost predicate FindingsDistinct(v: Visual) {
    NoDuplicates(MatchIndices(v.matches) + v.unsupported + v.unverified)
  }

  ghost predicate FindingsBound(v: Visual) {
    && (forall k :: 0 <= k < |v.matches| ==> MatchBound(v, v.matches[k]))
    && (forall x :: x in v.unsupported || x in v.unverified ==> 0 <= x < v.assetCount)
  }

  predicate StatusClean(status: Status, v: Visual) {
    && (status == Pass ==> v.matches == [] && v.unsupported == [] && v.unverified == [] && v.errorCode.None?)
    && (status == Fail ==> (v.matches != [] || v.unsupported != []) && v.unverified == [] && v.errorCode.None?)
    && (status == Error ==> v.errorCode.Some? && v.matches == [] && v.unsupported == [])
    && (v.assetCount > 0 && status != Error ==> v.provider == Fireworks && v.modelDigest.Some? && IsSha256(v.modelDigest.value))
  }

  function MatchIndices(matches: seq<Match>): seq<int> { Map((m: Match) => m.assetIndex, matches) }

  ghost predicate MatchBound(v: Visual, m: Match) {
    && 0 <= m.assetIndex < |v.assetDigests| && v.assetDigests[m.assetIndex] == m.assetSha256
    && m.forbiddenClaims != []
    && (forall k :: 0 < k < |m.forbiddenClaims| ==> m.forbiddenClaims[k - 1] < m.forbiddenClaims[k])
    && (forall k :: 0 <= k < |m.forbiddenClaims| ==> 0 <= m.forbiddenClaims[k] < |v.forbiddenClaims|)
  }

  lemma OrderOfFront(results: seq<Finding>, claimCount: nat)
    requires InOrder(results, claimCount) && results != []
    ensures InOrder(results[..|results| - 1], claimCount)
    ensures FindingValid(results[|results| - 1], |results| - 1, claimCount)
  {
    var front := results[..|results| - 1];
    forall k | 0 <= k < |front| ensures FindingValid(front[k], k, claimCount) { assert front[k] == results[k]; }
  }

  lemma {:induction false} IndicesWithAre(results: seq<Finding>, status: ImageStatus, claimCount: nat)
    requires InOrder(results, claimCount)
    ensures NoDuplicates(IndicesWith(results, status))
    ensures forall x :: x in IndicesWith(results, status) <==> 0 <= x < |results| && results[x].status == status
  {
    if results != [] {
      var front := results[..|results| - 1];
      OrderOfFront(results, claimCount);
      IndicesWithAre(front, status, claimCount);
      ConcatNoDuplicates(IndicesWith(front, status), if results[|results| - 1].status == status then [|results| - 1] else []);
    }
  }

  predicate MatchFrom(results: seq<Finding>, images: seq<Image>, m: Match) {
    && 0 <= m.assetIndex < |results| && m.assetIndex < |images|
    && m == Match(m.assetIndex, images[m.assetIndex].sha256, results[m.assetIndex].claims)
    && results[m.assetIndex].status == Matching
  }

  lemma {:induction false} MatchesAre(results: seq<Finding>, images: seq<Image>, claimCount: nat)
    requires InOrder(results, claimCount) && |results| <= |images|
    ensures MatchIndices(MatchesOf(results, images)) == IndicesWith(results, Matching)
  {
    if results != [] {
      OrderOfFront(results, claimCount);
      MatchesAre(results[..|results| - 1], images, claimCount);
    }
  }

  lemma {:induction false} MatchesAreFound(results: seq<Finding>, images: seq<Image>, claimCount: nat)
    requires InOrder(results, claimCount) && |results| <= |images|
    ensures forall m :: m in MatchesOf(results, images) ==> MatchFrom(results, images, m)
  {
    if results != [] {
      var front := results[..|results| - 1];
      OrderOfFront(results, claimCount);
      MatchesAreFound(front, images, claimCount);
      forall m | m in MatchesOf(results, images) ensures MatchFrom(results, images, m) {
        if m in MatchesOf(front, images) { assert MatchFrom(front, images, m); }
      }
    }
  }

  /** The walk of the workspace keeps its own bounds. */
  ghost predicate WorkspaceBounded(images: seq<Image>) {
    |images| <= MAX_RASTER_ASSETS && SumBytes(images) <= MAX_RASTER_AGGREGATE_BYTES
  }

  lemma {:induction false} SumBytesConcat(a: seq<Image>, b: seq<Image>)
    ensures SumBytes(a + b) == SumBytes(a) + SumBytes(b)
  {
    if b == [] {
      EmptyConcat(a);
    } else {
      assert (a + b)[..|a + b| - 1] == a + b[..|b| - 1];
      SumBytesConcat(a, b[..|b| - 1]);
    }
  }

  lemma {:induction false} SumOfImages(shots: seq<Encoded>)
    ensures SumBytes(ImagesOf(shots)) == SizeOf(shots)
  {
    if shots != [] {
      assert ImagesOf(shots)[..|shots| - 1] == ImagesOf(shots[..|shots| - 1]);
      SumOfImages(shots[..|shots| - 1]);
    }
  }

  ghost predicate ShapeBounded(s: Shape) {
    && WorkspaceBounded(s.workspace) && |s.rendered| <= MAX_RENDERED_RASTER_ASSETS
    && SumBytes(s.rendered) <= MAX_RENDERED_RASTER_BYTES
  }

  lemma AssetsAreBound(c: Contract, pages: seq<Page>, s: Shape)
    requires ShapeBounded(s)
    ensures EveryAssetBound(VisualReceipt(c, pages, s))
  {
    SumBytesConcat(s.workspace, s.rendered);
  }

  lemma FailedMeetsSchema(c: Contract, pages: seq<Page>, s: Shape)
    requires ShapeBounded(s)
    requires s.matches == [] && s.unsupported == [] && s.unverified == []
    requires if s.status == Error then s.errorCode.Some?
             else s.status == Pass && s.errorCode.None? && s.workspace == [] && s.rendered == []
    ensures SchemaHolds(s.status, VisualReceipt(c, pages, s))
  {
    AssetsAreBound(c, pages, s);
  }

  /** Every conclusion drawn from complete results makes a receipt that meets the schema. */
  lemma ConcludedMeetsSchema(c: Contract, pages: seq<Page>, workspace: seq<Image>, rendered: seq<Image>, f: Findings)
    requires Complete(f, Numbered(workspace + rendered), |c.forbiddenClaims|)
    requires Numbers(f.results, |workspace + rendered|)
    requires ShapeBounded(Concluded(workspace, rendered, f))
    ensures var s := Concluded(workspace, rendered, f);
            SchemaHolds(s.status, VisualReceipt(c, pages, s))
  {
    var s := Concluded(workspace, rendered, f);
    var v := VisualReceipt(c, pages, s);
    AssetsAreBound(c, pages, s);
    ConcludedDistinct(c, pages, workspace, rendered, f);
    ConcludedBound(c, pages, workspace, rendered, f);
    assert StatusClean(s.status, v);
  }

  lemma ConcludedDistinct(c: Contract, pages: seq<Page>, workspace: seq<Image>, rendered: seq<Image>, f: Findings)
    requires Complete(f, Numbered(workspace + rendered), |c.forbiddenClaims|)
    requires Numbers(f.results, |workspace + rendered|)
    ensures FindingsDistinct(VisualReceipt(c, pages, Concluded(workspace, rendered, f)))
  {
    var claimCount := |c.forbiddenClaims|;
    MatchesAre(f.results, workspace + rendered, claimCount);
    IndicesWithAre(f.results, Matching, claimCount);
    IndicesWithAre(f.results, Unsupported, claimCount);
    IndicesWithAre(f.results, Unverifiable, claimCount);
    var matching, unsupported := IndicesWith(f.results, Matching), IndicesWith(f.results, Unsupported);
    ConcatNoDuplicates(matching, unsupported);
    EmptyConcat(matching + unsupported);
    EmptyConcat(IndicesWith(f.results, Unverifiable));
  }

  lemma ConcludedBound(c: Contract, pages: seq<Page>, workspace: seq<Image>, rendered: seq<Image>, f: Findings)
    requires Complete(f, Numbered(workspace + rendered), |c.forbiddenClaims|)
    requires Numbers(f.results, |workspace + rendered|)
    ensures FindingsBound(VisualReceipt(c, pages, Concluded(workspace, rendered, f)))
  {
    var claimCount := |c.forbiddenClaims|;
    IndicesWithAre(f.results, Unsupported, claimCount);
    IndicesWithAre(f.results, Unverifiable, claimCount);
    var s := Concluded(workspace, rendered, f);
    MatchesBound(VisualReceipt(c, pages, s), f.results, workspace + rendered, claimCount, s.matches);
  }

  /** The receipt passes exactly when every asset is clear. */
  lemma PassesIffClear(workspace: seq<Image>, rendered: seq<Image>, f: Findings, claimCount: nat)
    requires Complete(f, Numbered(workspace + rendered), claimCount)
    ensures Numbers(f.results, |workspace + rendered|)
    ensures Concluded(workspace, rendered, f).status == Pass <==> AllClear(f.results)
  {
    OrderNumbers(f.results, claimCount);
    MatchesAre(f.results, workspace + rendered, claimCount);
    IndicesWithAre(f.results, Matching, claimCount);
    IndicesWithAre(f.results, Unsupported, claimCount);
    IndicesWithAre(f.results, Unverifiable, claimCount);
    FoundIn(f.results, IndicesWith(f.results, Matching), IndicesWith(f.results, Unsupported), IndicesWith(f.results, Unverifiable));
  }

  predicate Numbers(results: seq<Finding>, n: nat) {
    forall k :: 0 <= k < |results| ==> 0 <= results[k].assetIndex < n
  }

  predicate AllClear(results: seq<Finding>) {
    forall k :: 0 <= k < |results| ==> results[k].status == Clear
  }

  lemma OrderNumbers(results: seq<Finding>, claimCount: nat)
    requires InOrder(results, claimCount)
    ensures Numbers(results, |results|)
    ensures forall k :: 0 <= k < |results| ==> results[k].status != OtherStatus
  {
    forall k | 0 <= k < |results| ensures results[k].assetIndex == k && results[k].status != OtherStatus {
      assert FindingValid(results[k], k, claimCount);
    }
  }

  lemma FoundIn(results: seq<Finding>, matching: seq<int>, unsupported: seq<int>, unverified: seq<int>)
    requires forall x :: x in matching <==> 0 <= x < |results| && results[x].status == Matching
    requires forall x :: x in unsupported <==> 0 <= x < |results| && results[x].status == Unsupported
    requires forall x :: x in unverified <==> 0 <= x < |results| && results[x].status == Unverifiable
    requires forall k :: 0 <= k < |results| ==> results[k].status != OtherStatus
    ensures matching == [] && unsupported == [] && unverified == [] <==> AllClear(results)
  {
    if matching == [] && unsupported == [] && unverified == [] {
      forall k | 0 <= k < |results| ensures results[k].status == Clear {
        assert k !in matching && k !in unsupported && k !in unverified;
      }
    } else {
      var some := matching + unsupported + unverified;
      var x := some[0];
      assert x in matching || x in unsupported || x in unverified;
      assert results[x].status != Clear;
    }
  }

  lemma MatchesBound(v: Visual, results: seq<Finding>, images: seq<Image>, claimCount: nat, matches: seq<Match>)
    requires InOrder(results, claimCount) && |results| == |images| && v.assetDigests == Map(ShaOf, images)
    requires |v.forbiddenClaims| == claimCount
    requires matches == MatchesOf(results, images) || matches == []
    ensures forall k :: 0 <= k < |matches| ==> MatchBound(v, matches[k])
  {
    MatchesAreFound(results, images, claimCount);
    forall k | 0 <= k < |matches| ensures MatchBound(v, matches[k]) {
      assert MatchFrom(results, images, matches[k]);
      var i := matches[k].assetIndex;
      assert FindingValid(results[i], i, claimCount);
    }
  }

  /** The findings are the model's own answers to a least batching of the assets. */
  ghost predicate AnsweredBy(f: Findings, assets: seq<Asset>, claimCount: nat, answer: nat -> Answer) {
    Complete(f, assets, claimCount) &&
    exists batches :: Batching(assets, batches) && BoundBy(f, batches, answer, claimCount)
  }

  ghost predicate BoundBy(f: Findings, batches: seq<seq<Asset>>, answer: nat -> Answer, claimCount: nat) {
    Consistent(batches, answer, claimCount, |batches|) && f.results == Bound(batches, answer, claimCount, |batches|)
  }

  /** A shape is an error, or an empty pass, or what the model's answers conclude. */
  ghost predicate ShapeSound(s: Shape, workspace: seq<Image>, rendered: seq<Image>, claimCount: nat, answer: nat -> Answer) {
    || (s.status == Error && s.errorCode.Some? && s.matches == [] && s.unsupported == [] && s.unverified == [])
    || (workspace + rendered == [] && s == Shape(Controller, Pass, [], [], [], [], [], None, None))
    || (exists f :: AnsweredBy(f, Numbered(workspace + rendered), claimCount, answer)
                    && Numbers(f.results, |workspace + rendered|) && s == Concluded(workspace, rendered, f))
  }

  /** What the gate and its tries make of the collected assets. */
  method Conclude(workspace: seq<Image>, rendered: seq<Image>, claimCount: nat, available: bool, answer: nat -> Answer)
    returns (s: Shape)
    ensures ShapeSound(s, workspace, rendered, claimCount, answer)
    ensures s.workspace == workspace && s.rendered == rendered
  {
    var assets := Numbered(workspace + rendered);
    var empty := Shape(Controller, Pass, workspace, rendered, [], [], [], None, None);
    if assets == [] { return empty; }
    if !available { return empty.(status := Error, errorCode := Some(ModelCapabilityUnavailable)); }
    var output, batches := InspectBatches(assets, claimCount, answer);
    if output.Refuted? { return empty.(provider := Fireworks, status := Error, errorCode := Some(output.code)); }
    OrderNumbers(output.findings.results, claimCount);
    assert BoundBy(output.findings, batches, answer, claimCount);
    assert AnsweredBy(output.findings, assets, claimCount, answer);
    return Concluded(workspace, rendered, output.findings);
  }

  lemma SoundMeetsSchema(c: Contract, pages: seq<Page>, s: Shape, answer: nat -> Answer)
    requires ShapeBounded(s) && ShapeSound(s, s.workspace, s.rendered, |c.forbiddenClaims|, answer)
    ensures SchemaHolds(s.status, VisualReceipt(c, pages, s))
    ensures s.status == Pass ==> s.matches == [] && s.unsupported == [] && s.unverified == [] && s.errorCode.None?
  {
    if s.workspace + s.rendered == [] || s.status == Error {
      assert s.workspace + s.rendered == [] ==> s.workspace == [] && s.rendered == [];
    }
    if f :| AnsweredBy(f, Numbered(s.workspace + s.rendered), |c.forbiddenClaims|, answer)
            && Numbers(f.results, |s.workspace + s.rendered|) && s == Concluded(s.workspace, s.rendered, f)
    {
      ConcludedMeetsSchema(c, pages, s.workspace, s.rendered, f);
    } else {
      FailedMeetsSchema(c, pages, s);
    }
  }

  /** What a passing receipt says: every tile of every page was collected, and every asset is clear. */
  ghost predicate PassesOnly(c: Contract, pages: seq<Page>, workspace: Collected, v: Visual) {
    && workspace.Assets? && Collectable(pages)
    && v == VisualReceipt(c, pages, Shape(v.provider, Pass, workspace.images, ImagesOf(AllShots(SortedPages(pages))),
                                          [], [], [], v.modelDigest, None))
  }

  /**
   inspectRasterClaims. `policyBounded` says whether the approved facts are within their bound,
   `available` whether the model can inspect images at all.
   */
  method InspectRasterClaims(c: Contract, pages: seq<Page>, policyBounded: bool, workspace: Collected,
                             available: bool, answer: nat -> Answer)
    returns (status: Status, v: Visual)
    requires workspace.Assets? ==> WorkspaceBounded(workspace.images)
    ensures SchemaHolds(status, v)
    ensures status == Pass ==> PassesOnly(c, pages, workspace, v)
    ensures !policyBounded || workspace.Refused? || !Collectable(pages) ==> status == Error
    ensures policyBounded && workspace.Assets? && Collectable(pages) ==>
              exists s :: ShapeSound(s, workspace.images, ImagesOf(AllShots(SortedPages(pages))), |c.forbiddenClaims|, answer)
                          && status == s.status && v == VisualReceipt(c, pages, s)
  {
    if !policyBounded {
      FailedMeetsSchema(c, pages, Failed(PolicyBoundExceeded));
      return Error, VisualReceipt(c, pages, Failed(PolicyBoundExceeded));
    }
    if workspace.Refused? {
      FailedMeetsSchema(c, pages, Failed(workspace.code));
      return Error, VisualReceipt(c, pages, Failed(workspace.code));
    }
    var collected := CollectRenderedAssets(pages);
    if collected.Refused? {
      FailedMeetsSchema(c, pages, Failed(collected.code));
      return Error, VisualReceipt(c, pages, Failed(collected.code));
    }
    SumOfImages(AllShots(SortedPages(pages)));
    var s := Conclude(workspace.images, collected.images, |c.forbiddenClaims|, available, answer);
    SoundMeetsSchema(c, pages, s, answer);
    return s.status, VisualReceipt(c, pages, s);
  }
}
