/**
 What a pass of the proof gate means, said of the receipts alone: which receipts there are, which of them
 is the newest of its sort, and what it says. The gate passes if and only if all of this holds.
 */
module GateMeaning {
  import opened Wrappers
  import opened Text
  import opened Lists
  import opened Evidence
  import opened ContractEvaluation
  import opened ProofGate
  import PreviewInspection
  import RasterClaims

  // ----- The newest receipt -----

  /** What a receipt may be the evidence of. */
  datatype Wanted =
    | Run(kind: CommandKind, command: string)
    | Scan(scan: string, claims: nat)
    | RequirementRun(id: string, index: nat, check: string)
    | Pixels(contract: Contract)
    | AnyPreview
    | AnyEvaluation

  /** The numbers from 0 on. */
  predicate CountsUp(s: seq<nat>, n: nat) { |s| == n && forall i :: 0 <= i < n ==> s[i] == i }

  predicate Serves(r: Receipt, w: Wanted) {
    match w
    case Run(kind, command) => r.body.Command? && r.body.kind == kind && r.body.command == command
    case Scan(command, claims) =>
      && r.body.Command? && r.body.kind == ForbiddenClaim && r.body.command == command
      && r.body.claimIndices.Some? && CountsUp(r.body.claimIndices.value, claims)
    case RequirementRun(id, index, command) =>
      && r.body.Command? && r.body.kind == RequirementCommand && r.body.command == command
      && r.body.requirementId == Some(id) && r.body.verifierIndex == Some(index)
    case Pixels(c) =>
      && r.body.Raster? && CountsUp(r.body.visual.forbiddenClaims, |c.forbiddenClaims|)
      && r.body.visual.claimSetDigest == Sha(OfStrings(c.forbiddenClaims))
      && r.body.visual.approvedFactSetDigest == Sha(OfStrings(Statements(c.approvedFacts)))
    case AnyPreview => r.body.Preview?
    case AnyEvaluation => r.body.ContractEvaluation?
  }

  /** Receipt `i` is of the revision, and evidence of what is wanted. */
  predicate Counts(all: seq<Receipt>, revision: string, w: Wanted, i: nat) {
    i < |all| && all[i].revision == revision && Serves(all[i], w)
  }

  /** No other such receipt completed later, or as late and was listed before. */
  predicate Newest(all: seq<Receipt>, revision: string, w: Wanted, i: nat) {
    && Counts(all, revision, w, i)
    && forall j :: 0 <= j < |all| && Counts(all, revision, w, j) ==>
         all[j].completedAt < all[i].completedAt || (all[j].completedAt == all[i].completedAt && i <= j)
  }

  function WantedBy(k: Commands, c: Contract, slot: Slot): Wanted {
    match slot
    case DockerfileSlot => Run(Artifact, k.dockerfile)
    case BootstrapSlot => Run(DependencyBootstrap, k.bootstrap)
    case BuildSlot => Run(Build, c.buildCommand)
    case ContainerSlot => Run(ContainerBuild, k.container)
    case TestSlot(command) => Run(Test, command)
    case ScanSlot => Scan(k.scan(c.forbiddenClaims), |c.forbiddenClaims|)
    case VerifierSlot(id, index, command) => RequirementRun(id, index, command)
    case VisualSlot => Pixels(c)
    case PreviewSlot => AnyPreview
    case EvaluationSlot => AnyEvaluation
  }

  lemma CountsUpIs(s: seq<nat>, n: nat)
    ensures CountsUp(s, n) <==> s == Indices(n)
  {}

  lemma FillsServes(k: Commands, c: Contract, slot: Slot, r: Receipt)
    ensures Fills(k, c, slot, r) <==> Serves(r, WantedBy(k, c, slot))
  {
    match slot
    case ScanSlot => if r.body.Command? && r.body.claimIndices.Some? { CountsUpIs(r.body.claimIndices.value, |c.forbiddenClaims|); }
    case VisualSlot => if r.body.Raster? { CountsUpIs(r.body.visual.forbiddenClaims, |c.forbiddenClaims|); }
    case _ =>
  }

  /** There is one newest receipt at most. */
  lemma NewestOnce(all: seq<Receipt>, revision: string, w: Wanted, i: nat, j: nat)
    requires Newest(all, revision, w, i) && Newest(all, revision, w, j)
    ensures i == j
  {}

  lemma NewestShifts(all: seq<Receipt>, revision: string, w: Wanted, i: nat)
    requires all != [] && Newest(all[1..], revision, w, i)
    requires !Counts(all, revision, w, 0) || all[0].completedAt < all[i + 1].completedAt
    ensures Newest(all, revision, w, i + 1)
  {
    forall j | 0 <= j < |all| && Counts(all, revision, w, j)
      ensures all[j].completedAt < all[i + 1].completedAt || (all[j].completedAt == all[i + 1].completedAt && i + 1 <= j)
    {
      if j > 0 { assert Counts(all[1..], revision, w, j - 1); }
    }
  }

  lemma NewestFirst(all: seq<Receipt>, revision: string, w: Wanted)
    requires Counts(all, revision, w, 0)
    requires forall j :: 0 <= j < |all[1..]| && Counts(all[1..], revision, w, j) ==> all[1..][j].completedAt <= all[0].completedAt
    ensures Newest(all, revision, w, 0)
  {
    forall j | 0 < j < |all| && Counts(all, revision, w, j) ensures all[j].completedAt <= all[0].completedAt {
      assert Counts(all[1..], revision, w, j - 1);
    }
  }

  lemma OfRevisionStep(all: seq<Receipt>, revision: string)
    requires all != []
    ensures OfRevision(all, revision) ==
            (if all[0].revision == revision then [all[0]] else []) + OfRevision(all[1..], revision)
  {}

  lemma LatestStep(k: Commands, c: Contract, slot: Slot, all: seq<Receipt>, revision: string)
    requires all != []
    ensures var rest := Latest(k, c, slot, OfRevision(all[1..], revision));
            Latest(k, c, slot, OfRevision(all, revision)) ==
            if Counts(all, revision, WantedBy(k, c, slot), 0) && (rest.None? || all[0].completedAt >= rest.value.completedAt)
            then Some(all[0]) else rest
  {
    var rest := OfRevision(all[1..], revision);
    OfRevisionStep(all, revision);
    FillsServes(k, c, slot, all[0]);
    ConsTail(all[0], rest);
    EmptyConcat(rest);
  }

  /** The receipt that the gate picks is the newest. */
  lemma {:induction false} LatestIsNewest(k: Commands, c: Contract, slot: Slot, all: seq<Receipt>, revision: string) returns (n: Option<nat>)
    ensures IsPicked(all, revision, WantedBy(k, c, slot), Latest(k, c, slot, OfRevision(all, revision)), n)
  {
    if all == [] { return None; }
    LatestStep(k, c, slot, all, revision);
    var m := LatestIsNewest(k, c, slot, all[1..], revision);
    n := PickStep(all, revision, WantedBy(k, c, slot), Latest(k, c, slot, OfRevision(all[1..], revision)), m);
  }

  /** The pick is the newest receipt, which is number `n`, or there is none. */
  ghost predicate IsPicked(all: seq<Receipt>, revision: string, w: Wanted, r: Option<Receipt>, n: Option<nat>) {
    match n
    case None => r == None && forall i :: !Counts(all, revision, w, i)
    case Some(i) => Newest(all, revision, w, i) && r == Some(all[i])
  }

  lemma PickStep(all: seq<Receipt>, revision: string, w: Wanted, r: Option<Receipt>, m: Option<nat>) returns (n: Option<nat>)
    requires all != [] && IsPicked(all[1..], revision, w, r, m)
    ensures IsPicked(all, revision, w,
                     if Counts(all, revision, w, 0) && (r.None? || all[0].completedAt >= r.value.completedAt) then Some(all[0]) else r, n)
  {
    if Counts(all, revision, w, 0) && (r.None? || all[0].completedAt >= r.value.completedAt) {
      NewestFirst(all, revision, w);
      return Some(0);
    }
    if m.Some? {
      NewestShifts(all, revision, w, m.value);
      return Some(m.value + 1);
    }
    forall i: nat ensures !Counts(all, revision, w, i) {
      if i > 0 { assert !Counts(all[1..], revision, w, i - 1); }
    }
    return None;
  }

  // ----- Commands -----

  /** The newest run of the command passed. */
  ghost predicate RunPassed(all: seq<Receipt>, revision: string, w: Wanted) {
    exists i: nat :: Newest(all, revision, w, i) && PassedRun(all[i])
  }

  predicate PassedRun(r: Receipt) { r.status == Pass && r.body.Command? && r.body.exitCode == Some(0) }

  lemma CommandMeans(k: Commands, c: Contract, slot: Slot, all: seq<Receipt>, revision: string)
    ensures CommandPasses(k, c, OfRevision(all, revision), slot) <==> RunPassed(all, revision, WantedBy(k, c, slot))
  {
    var n := LatestIsNewest(k, c, slot, all, revision);
    if i: nat :| Newest(all, revision, WantedBy(k, c, slot), i) && PassedRun(all[i]) {
      if n.Some? { NewestOnce(all, revision, WantedBy(k, c, slot), i, n.value); }
    }
  }

  /** The fixed commands, each test, and the scan if anything is forbidden. */
  ghost predicate CommandsHold(k: Commands, c: Contract, all: seq<Receipt>, revision: string) {
    && RunPassed(all, revision, Run(Artifact, k.dockerfile))
    && RunPassed(all, revision, Run(DependencyBootstrap, k.bootstrap))
    && RunPassed(all, revision, Run(Build, c.buildCommand))
    && RunPassed(all, revision, Run(ContainerBuild, k.container))
    && (forall i :: 0 <= i < |c.testCommands| ==> RunPassed(all, revision, Run(Test, c.testCommands[i])))
    && (c.forbiddenClaims != [] ==> RunPassed(all, revision, Scan(k.scan(c.forbiddenClaims), |c.forbiddenClaims|)))
  }

  lemma TestsMean(k: Commands, c: Contract, all: seq<Receipt>, revision: string)
    ensures (forall i :: 0 <= i < |c.testCommands| ==> CommandPasses(k, c, OfRevision(all, revision), TestSlot(c.testCommands[i]))) <==>
            (forall i :: 0 <= i < |c.testCommands| ==> RunPassed(all, revision, Run(Test, c.testCommands[i])))
  {
    forall i | 0 <= i < |c.testCommands|
      ensures CommandPasses(k, c, OfRevision(all, revision), TestSlot(c.testCommands[i])) <==>
              RunPassed(all, revision, Run(Test, c.testCommands[i]))
    {
      CommandMeans(k, c, TestSlot(c.testCommands[i]), all, revision);
    }
  }

  lemma RunMeans(k: Commands, c: Contract, slot: Slot, all: seq<Receipt>, revision: string, w: Wanted)
    requires w == WantedBy(k, c, slot)
    ensures CommandPasses(k, c, OfRevision(all, revision), slot) <==> RunPassed(all, revision, w)
  {
    CommandMeans(k, c, slot, all, revision);
  }

  lemma CommandsMean(k: Commands, c: Contract, all: seq<Receipt>, revision: string)
    ensures CommandsPass(k, c, OfRevision(all, revision)) <==> CommandsHold(k, c, all, revision)
  {
    RunMeans(k, c, DockerfileSlot, all, revision, Run(Artifact, k.dockerfile));
    RunMeans(k, c, BootstrapSlot, all, revision, Run(DependencyBootstrap, k.bootstrap));
    RunMeans(k, c, BuildSlot, all, revision, Run(Build, c.buildCommand));
    RunMeans(k, c, ContainerSlot, all, revision, Run(ContainerBuild, k.container));
    RunMeans(k, c, ScanSlot, all, revision, Scan(k.scan(c.forbiddenClaims), |c.forbiddenClaims|));
    TestsMean(k, c, all, revision);
  }

  // ----- Reviews -----

  predicate ReviewAt(all: seq<Receipt>, revision: string, kind: Option<ReviewKind>, i: nat) {
    i < |all| && all[i].revision == revision && all[i].body.Review? && all[i].body.reviewKind == kind
  }

  /** Complete and without a critical finding, attested, and held to the controller's own policy. */
  predicate CleanReview(r: Receipt, attested: Receipt -> bool) {
    && r.status == Pass && r.body.Review? && r.body.complete && attested(r)
    && (forall i :: 0 <= i < |r.body.findings| ==> r.body.findings[i] != Critical)
    && r.body.policyDigest.Some? && r.body.policyDigest.value != "" && r.body.expectedPolicyDigest == r.body.policyDigest
  }

  /** Every review of the revision is full or advisory; one is full, and it is clean. */
  ghost predicate ReviewsHold(all: seq<Receipt>, revision: string, attested: Receipt -> bool) {
    && (forall i: nat :: !ReviewAt(all, revision, None, i))
    && (forall i: nat :: !ReviewAt(all, revision, Some(OtherKind), i))
    && exists i: nat :: OnlyReview(all, revision, Some(Authoritative), i) && CleanReview(all[i], attested)
  }

  function ReviewsOf(all: seq<Receipt>, revision: string, kind: Option<ReviewKind>): seq<Receipt> {
    WithKind(Reviews(OfRevision(all, revision)), kind)
  }

  lemma ReviewsOfStep(all: seq<Receipt>, revision: string, kind: Option<ReviewKind>)
    requires all != []
    ensures ReviewsOf(all, revision, kind) ==
            (if ReviewAt(all, revision, kind, 0) then [all[0]] else []) + ReviewsOf(all[1..], revision, kind)
  {
    var rest := OfRevision(all[1..], revision);
    if all[0].revision == revision {
      ConsTail(all[0], rest);
      if all[0].body.Review? {
        ConsTail(all[0], Reviews(rest));
      } else {
        EmptyConcat(Reviews(rest));
      }
    } else {
      EmptyConcat(rest);
    }
    EmptyConcat(WithKind(Reviews(rest), kind));
  }

  ghost predicate OnlyReview(all: seq<Receipt>, revision: string, kind: Option<ReviewKind>, i: nat) {
    ReviewAt(all, revision, kind, i) && forall j: nat :: ReviewAt(all, revision, kind, j) ==> j == i
  }

  lemma ReviewShifts(all: seq<Receipt>, revision: string, kind: Option<ReviewKind>, i: nat)
    requires all != []
    ensures ReviewAt(all, revision, kind, i + 1) <==> ReviewAt(all[1..], revision, kind, i)
  {}

  lemma {:induction false} NoReviews(all: seq<Receipt>, revision: string, kind: Option<ReviewKind>)
    ensures ReviewsOf(all, revision, kind) == [] <==> forall i: nat :: !ReviewAt(all, revision, kind, i)
  {
    if all != [] {
      NoReviews(all[1..], revision, kind);
      ReviewsOfStep(all, revision, kind);
      forall i: nat ensures ReviewAt(all, revision, kind, i + 1) <==> ReviewAt(all[1..], revision, kind, i) {
        ReviewShifts(all, revision, kind, i);
      }
      if forall i: nat :: !ReviewAt(all[1..], revision, kind, i) {
        forall i: nat | i > 0 ensures !ReviewAt(all, revision, kind, i) { ReviewShifts(all, revision, kind, i - 1); }
      }
    }
  }

  lemma {:induction false} OneReviewIsListed(all: seq<Receipt>, revision: string, kind: Option<ReviewKind>, i: nat)
    requires OnlyReview(all, revision, kind, i)
    ensures ReviewsOf(all, revision, kind) == [all[i]]
  {
    ReviewsOfStep(all, revision, kind);
    if i == 0 {
      forall j: nat ensures !ReviewAt(all[1..], revision, kind, j) { ReviewShifts(all, revision, kind, j); }
      NoReviews(all[1..], revision, kind);
    } else {
      forall j: nat | ReviewAt(all[1..], revision, kind, j) ensures j == i - 1 { ReviewShifts(all, revision, kind, j); }
      OneReviewIsListed(all[1..], revision, kind, i - 1);
    }
  }

  lemma {:induction false} ListedIsOneReview(all: seq<Receipt>, revision: string, kind: Option<ReviewKind>) returns (i: nat)
    requires |ReviewsOf(all, revision, kind)| == 1
    ensures OnlyReview(all, revision, kind, i)
  {
    ReviewsOfStep(all, revision, kind);
    if ReviewAt(all, revision, kind, 0) {
      NoReviews(all[1..], revision, kind);
      forall j: nat | ReviewAt(all, revision, kind, j) ensures j == 0 {
        if j > 0 { ReviewShifts(all, revision, kind, j - 1); }
      }
      return 0;
    }
    var m := ListedIsOneReview(all[1..], revision, kind);
    forall j: nat | ReviewAt(all, revision, kind, j) ensures j == m + 1 { ReviewShifts(all, revision, kind, j - 1); }
    return m + 1;
  }

  lemma CleanMeans(attested: Receipt -> bool, r: Receipt)
    ensures ReviewClean(attested, r) <==> CleanReview(r, attested)
  {
    if r.body.Review? {
      assert (forall i :: 0 <= i < |r.body.findings| ==> r.body.findings[i] != Critical) <==> Critical !in r.body.findings;
    }
  }

  lemma ReviewsMean(all: seq<Receipt>, revision: string, attested: Receipt -> bool)
    ensures ReviewPasses(attested, OfRevision(all, revision)) <==> ReviewsHold(all, revision, attested)
  {
    NoReviews(all, revision, None);
    NoReviews(all, revision, Some(OtherKind));
    var full := ReviewsOf(all, revision, Some(Authoritative));
    if |full| == 1 {
      var i := ListedIsOneReview(all, revision, Some(Authoritative));
      OneReviewIsListed(all, revision, Some(Authoritative), i);
      CleanMeans(attested, all[i]);
    }
    if i: nat :| OnlyReview(all, revision, Some(Authoritative), i) && CleanReview(all[i], attested) {
      OneReviewIsListed(all, revision, Some(Authoritative), i);
      CleanMeans(attested, all[i]);
    }
  }

  // ----- Tiles -----

  /** The entries are the tiles of the checks: all of them, nothing else, one for each path, in order of path. */
  ghost predicate TilesOfChecks(checks: seq<Check>, entries: seq<Tiles>) {
    && Ascending(entries)
    && (forall i :: 0 <= i < |checks| && checks[i].tiles.Some? ==> Tiles(checks[i].path, checks[i].tiles.value) in entries)
    && (forall t :: t in entries ==> IsTileOf(checks, t))
  }

  ghost predicate Ascending(entries: seq<Tiles>) {
    forall i, j :: 0 <= i < j < |entries| ==> After(entries[j].path, entries[i].path)
  }

  predicate IsTileOf(checks: seq<Check>, t: Tiles) {
    exists i :: 0 <= i < |checks| && checks[i].path == t.path && checks[i].tiles == Some(t.digests)
  }

  /** The raster receipt is bound to the tiles of the checks: by digest, by number, and one by one. */
  ghost predicate TilesBound(v: Visual, checks: seq<Check>) {
    exists entries :: TilesOfChecks(checks, entries) && BoundTo(v, entries)
  }

  predicate BoundTo(v: Visual, entries: seq<Tiles>) {
    && v.renderedInputDigest == Sha(OfTiles(entries))
    && v.renderedAssetCount == |AllDigests(entries)|
    && SliceFrom(v.assetDigests, v.workspaceAssetCount) == AllDigests(entries)
  }

  lemma {:induction false} DigestsAre(entries: seq<Tiles>, d: Digest)
    ensures d in AllDigests(entries) <==> exists t :: t in entries && d in t.digests
  {
    if entries != [] {
      var init, last := entries[..|entries| - 1], entries[|entries| - 1];
      DigestsAre(init, d);
      assert entries == init + [last];
    }
  }

  /** So every tile of every check stands among the assets of the raster receipt after the workspace's, and conversely. */
  lemma BoundTiles(v: Visual, checks: seq<Check>, d: Digest)
    requires TilesBound(v, checks)
    ensures d in SliceFrom(v.assetDigests, v.workspaceAssetCount) <==>
            exists i :: 0 <= i < |checks| && checks[i].tiles.Some? && d in checks[i].tiles.value
  {
    var entries :| TilesOfChecks(checks, entries) && BoundTo(v, entries);
    DigestsAre(entries, d);
    if t: Tiles :| t in entries && d in t.digests {
      var i :| 0 <= i < |checks| && checks[i].path == t.path && checks[i].tiles == Some(t.digests);
      assert d in checks[i].tiles.value;
    }
    if i :| 0 <= i < |checks| && checks[i].tiles.Some? && d in checks[i].tiles.value {
      var t := Tiles(checks[i].path, checks[i].tiles.value);
      assert t in entries && d in t.digests;
    }
  }

  // The order of paths is strict and total.

  lemma {:induction false} AfterIsStrict(a: string, b: string)
    ensures !(After(a, b) && After(b, a)) && (a == b ==> !After(a, b))
  {
    if a != [] && b != [] && a[0] == b[0] { AfterIsStrict(a[1..], b[1..]); }
  }

  lemma {:induction false} AfterIsTotal(a: string, b: string)
    requires a != b
    ensures After(a, b) || After(b, a)
  {
    if a != [] && b != [] && a[0] == b[0] {
      assert a == [a[0]] + a[1..] && b == [b[0]] + b[1..];
      AfterIsTotal(a[1..], b[1..]);
    }
  }

  lemma {:induction false} AfterTransits(a: string, b: string, c: string)
    requires After(a, b) && After(b, c)
    ensures After(a, c)
  {
    if b != [] && c != [] && a[0] == b[0] && b[0] == c[0] { AfterTransits(a[1..], b[1..], c[1..]); }
  }

  ghost predicate DistinctPaths(entries: seq<Tiles>) {
    forall i, j :: 0 <= i < j < |entries| ==> entries[i].path != entries[j].path
  }

  lemma AscendingIsDistinct(entries: seq<Tiles>)
    requires Ascending(entries)
    ensures DistinctPaths(entries)
  {
    forall i, j | 0 <= i < j < |entries| ensures entries[i].path != entries[j].path {
      AfterIsStrict(entries[j].path, entries[i].path);
    }
  }

  lemma {:induction false} InsertAscends(t: Tiles, sorted: seq<Tiles>)
    requires Ascending(sorted) && forall u :: u in sorted ==> u.path != t.path
    ensures Ascending(InsertByPath(RasterClaims.TilesPath, t, sorted))
  {
    if sorted != [] {
      assert sorted == [sorted[0]] + sorted[1..];
      if After(t.path, sorted[0].path) {
        InsertAscends(t, sorted[1..]);
        InsertKeeps(RasterClaims.TilesPath, t, sorted[1..]);
        var more := InsertByPath(RasterClaims.TilesPath, t, sorted[1..]);
        forall j | 0 <= j < |more| ensures After(more[j].path, sorted[0].path) {
          assert more[j] in more;
          if more[j] != t {
            var m :| 0 <= m < |sorted[1..]| && sorted[1..][m] == more[j];
            assert sorted[m + 1] == more[j];
          }
        }
      } else {
        AfterIsTotal(t.path, sorted[0].path);
        forall j | 0 <= j < |sorted| ensures After(sorted[j].path, t.path) {
          if j > 0 { AfterTransits(sorted[j].path, sorted[0].path, t.path); }
        }
      }
    }
  }

  lemma {:induction false} SortAscends(entries: seq<Tiles>)
    requires DistinctPaths(entries)
    ensures Ascending(SortedTiles(entries))
  {
    if entries != [] {
      SortAscends(entries[1..]);
      SortKeeps(RasterClaims.TilesPath, entries[1..]);
      forall u | u in SortedTiles(entries[1..]) ensures u.path != entries[0].path {
        var m :| 0 <= m < |entries[1..]| && entries[1..][m] == u;
        assert entries[m + 1] == u;
      }
      InsertAscends(entries[0], SortedTiles(entries[1..]));
    }
  }

  lemma AscendingFirst(a: seq<Tiles>, b: seq<Tiles>)
    requires Ascending(a) && Ascending(b) && a != [] && forall t :: t in a <==> t in b
    ensures b != [] && a[0] == b[0]
  {
    assert a[0] in b;
    assert b[0] in a;
    var i :| 0 <= i < |b| && b[i] == a[0];
    var j :| 0 <= j < |a| && a[j] == b[0];
    if i > 0 && j > 0 { AfterIsStrict(a[j].path, a[0].path); }
  }

  /** A set of entries has one order. */
  lemma {:induction false} AscendingIsUnique(a: seq<Tiles>, b: seq<Tiles>)
    requires Ascending(a) && Ascending(b) && forall t :: t in a <==> t in b
    ensures a == b
  {
    if b != [] { assert b[0] in b; }
    if a != [] {
      AscendingFirst(a, b);
      AscendingIsDistinct(a);
      AscendingIsDistinct(b);
      assert a == [a[0]] + a[1..] && b == [b[0]] + b[1..];
      forall t ensures t in a[1..] <==> t in b[1..] {
        if t in a[1..] {
          var m :| 0 <= m < |a[1..]| && a[1..][m] == t;
          assert a[m + 1] == t && t in b;
        }
        if t in b[1..] {
          var m :| 0 <= m < |b[1..]| && b[1..][m] == t;
          assert b[m + 1] == t && t in a;
        }
      }
      AscendingIsUnique(a[1..], b[1..]);
    }
  }

  lemma {:induction false} TilesAtIs(entries: seq<Tiles>, path: string)
    requires DistinctPaths(entries)
    ensures match TilesAt(entries, path)
            case None => forall t :: t in entries ==> t.path != path
            case Some(digests) => Tiles(path, digests) in entries && forall t :: t in entries && t.path == path ==> t.digests == digests
  {
    if entries != [] {
      var init, last := entries[..|entries| - 1], entries[|entries| - 1];
      assert entries == init + [last];
      if last.path == path {
        forall t | t in init ensures t.path != path { LastIsNew(entries, t); }
      } else {
        TilesAtIs(init, path);
      }
    }
  }

  lemma LastIsNew(entries: seq<Tiles>, t: Tiles)
    requires DistinctPaths(entries) && entries != [] && t in entries[..|entries| - 1]
    ensures t.path != entries[|entries| - 1].path
  {
    var init := entries[..|entries| - 1];
    var m :| 0 <= m < |init| && init[m] == t;
    assert entries[m] == t;
  }

  lemma DistinctPush(entries: seq<Tiles>, t: Tiles)
    requires DistinctPaths(entries) && forall u :: u in entries ==> u.path != t.path
    ensures DistinctPaths(entries + [t])
  {}

  /** What the gate gathers holds every tile list of the checks, and what it started from, and nothing else. */
  lemma {:induction false} GatheredAre(checks: seq<Check>, entries: seq<Tiles>)
    requires DistinctPaths(entries) && Gather(checks, entries).Some?
    ensures var g := Gather(checks, entries).value;
            && DistinctPaths(g)
            && (forall t :: t in g <==> t in entries || IsTileOf(checks, t))
    decreases |checks|
  {
    if checks != [] {
      var rest, path := checks[1..], checks[0].path;
      assert checks == [checks[0]] + rest;
      var next := entries;
      if checks[0].tiles.Some? {
        TilesAtIs(entries, path);
        if TilesAt(entries, path).None? {
          next := entries + [Tiles(path, checks[0].tiles.value)];
          DistinctPush(entries, Tiles(path, checks[0].tiles.value));
        }
      }
      GatheredAre(rest, next);
      forall t ensures IsTileOf(checks, t) <==> IsTileOf(rest, t) || (checks[0].path == t.path && checks[0].tiles == Some(t.digests)) {
        TileOfFirst(checks, t);
      }
    }
  }

  lemma TileOfFirst(checks: seq<Check>, t: Tiles)
    requires checks != []
    ensures IsTileOf(checks, t) <==> IsTileOf(checks[1..], t) || (checks[0].path == t.path && checks[0].tiles == Some(t.digests))
  {
    if i :| 0 <= i < |checks| && checks[i].path == t.path && checks[i].tiles == Some(t.digests) {
      if i > 0 { assert checks[1..][i - 1] == checks[i]; }
    }
    if i :| 0 <= i < |checks[1..]| && checks[1..][i].path == t.path && checks[1..][i].tiles == Some(t.digests) {
      assert checks[i + 1] == checks[1..][i];
    }
  }

  /** Checks that agree on every path are gathered. */
  lemma {:induction false} AgreeingIsGathered(checks: seq<Check>, entries: seq<Tiles>, all: seq<Tiles>)
    requires DistinctPaths(all) && DistinctPaths(entries) && forall t :: t in entries ==> t in all
    requires forall i :: 0 <= i < |checks| && checks[i].tiles.Some? ==> Tiles(checks[i].path, checks[i].tiles.value) in all
    ensures Gather(checks, entries).Some?
    decreases |checks|
  {
    if checks != [] {
      var rest, next := checks[1..], entries;
      assert forall i :: 0 <= i < |rest| ==> rest[i] == checks[i + 1];
      if checks[0].tiles.Some? {
        var t := Tiles(checks[0].path, checks[0].tiles.value);
        TilesAtIs(entries, t.path);
        if TilesAt(entries, t.path).None? {
          next := entries + [t];
          DistinctPush(entries, t);
        } else {
          OnePathOneEntry(all, t, Tiles(t.path, TilesAt(entries, t.path).value));
        }
      }
      AgreeingIsGathered(rest, next, all);
    }
  }

  lemma OnePathOneEntry(entries: seq<Tiles>, t: Tiles, u: Tiles)
    requires DistinctPaths(entries) && t in entries && u in entries && t.path == u.path
    ensures t == u
  {
    var i :| 0 <= i < |entries| && entries[i] == t;
    var j :| 0 <= j < |entries| && entries[j] == u;
  }

  /** The gate's entries are the tiles of the checks, and it has none exactly when no list is. */
  lemma GatherMeans(checks: seq<Check>)
    ensures Gather(checks, []).Some? ==> TilesOfChecks(checks, SortedTiles(Gather(checks, []).value))
    ensures forall entries :: TilesOfChecks(checks, entries) ==>
              Gather(checks, []).Some? && SortedTiles(Gather(checks, []).value) == entries
  {
    if Gather(checks, []).Some? {
      var g := Gather(checks, []).value;
      GatheredAre(checks, []);
      SortAscends(g);
      SortKeeps(RasterClaims.TilesPath, g);
      forall i | 0 <= i < |checks| && checks[i].tiles.Some? ensures Tiles(checks[i].path, checks[i].tiles.value) in g {
        assert IsTileOf(checks, Tiles(checks[i].path, checks[i].tiles.value));
      }
    }
    forall entries | TilesOfChecks(checks, entries)
      ensures Gather(checks, []).Some? && SortedTiles(Gather(checks, []).value) == entries
    {
      AscendingIsDistinct(entries);
      AgreeingIsGathered(checks, [], entries);
      SortedIsEntries(checks, entries);
    }
  }

  lemma SortedIsEntries(checks: seq<Check>, entries: seq<Tiles>)
    requires TilesOfChecks(checks, entries) && Gather(checks, []).Some?
    ensures SortedTiles(Gather(checks, []).value) == entries
  {
    var g := Gather(checks, []).value;
    GatheredAre(checks, []);
    SortAscends(g);
    SortKeeps(RasterClaims.TilesPath, g);
    forall t ensures t in SortedTiles(g) <==> t in entries {
      if t in g {
        var i :| 0 <= i < |checks| && checks[i].path == t.path && checks[i].tiles == Some(t.digests);
        assert Tiles(checks[i].path, checks[i].tiles.value) == t;
      }
    }
    AscendingIsUnique(SortedTiles(g), entries);
  }

  lemma TilesMean(visual: Receipt, preview: Receipt)
    requires visual.body.Raster? && preview.body.Preview?
    ensures PixelsBound(Some(visual), Some(preview)) <==> TilesBound(visual.body.visual, preview.body.checks)
  {
    var checks := preview.body.checks;
    GatherMeans(checks);
    if PixelsBound(Some(visual), Some(preview)) { assert BoundTo(visual.body.visual, SortedTiles(Gather(checks, []).value)); }
  }

  // ----- The checks of the preview -----

  /** Requested, answered with 200, nothing missing, no error. */
  predicate AnsweredWell(check: Check) {
    && check.expectedStatus == 200 && check.actualStatus == Some(200)
    && check.expectedText == [] && check.missingText == [] && (check.error == None || check.error == Some(""))
  }

  /** A text digest and between 1 and 256 tiles, which are digests. */
  predicate Rendered(check: Check) {
    && check.visibleTextDigest.Some? && check.tiles.Some? && 1 <= |check.tiles.value| <= 256
    && forall i :: 0 <= i < |check.tiles.value| ==> check.tiles.value[i].Sha?
  }

  predicate ForNoRequirement(check: Check) { check.requirementId == None && check.verifierIndex == None }

  /** What the one check of its sort is looked for. */
  datatype Sought = TheRoot | ForVerifier(id: string, index: nat)

  predicate CheckAt(checks: seq<Check>, s: Sought, p: nat) {
    && p < |checks|
    && match s
       case TheRoot => ForNoRequirement(checks[p]) && checks[p].path == "/"
       case ForVerifier(id, index) => checks[p].requirementId == Some(id) && checks[p].verifierIndex == Some(index)
  }

  ghost predicate OnlyCheck(checks: seq<Check>, s: Sought, p: nat) {
    CheckAt(checks, s, p) && forall q: nat :: CheckAt(checks, s, q) ==> q == p
  }

  /** One check is of the root, and it is well answered and rendered. */
  ghost predicate RootHolds(checks: seq<Check>) {
    exists p: nat :: OnlyCheck(checks, TheRoot, p) && AnsweredWell(checks[p]) && Rendered(checks[p])
  }

  /** The paths of the root and of the HTTP verifiers. */
  function WantedPaths(c: Contract): set<string> {
    {"/"} + set j, i | 0 <= j < |c.requirements| && 0 <= i < |c.requirements[j].verifiers| && c.requirements[j].verifiers[i].HttpVerifier?
            :: c.requirements[j].verifiers[i].path
  }

  function FoundPaths(checks: seq<Check>): set<string> { set i | 0 <= i < |checks| && checks[i].discovered :: checks[i].path }

  /** A discovered route is well answered, rendered as a page, and found once; no other check is of a route nobody asked for. */
  predicate RouteHolds(c: Contract, checks: seq<Check>, i: nat)
    requires i < |checks|
  {
    if checks[i].discovered then
      && AnsweredWell(checks[i]) && Rendered(checks[i]) && checks[i].nonHtmlMediaType == None && ForNoRequirement(checks[i])
      && checks[i].path !in WantedPaths(c)
      && forall j :: 0 <= j < i && checks[j].discovered ==> checks[j].path != checks[i].path
    else ForNoRequirement(checks[i]) ==> checks[i].path == "/"
  }

  predicate RoutesHold(c: Contract, checks: seq<Check>) {
    && (forall i :: 0 <= i < |checks| ==> RouteHolds(c, checks, i))
    && |WantedPaths(c)| + |FoundPaths(checks)| <= 32
  }

  lemma ShownMeans(check: Check)
    ensures AnsweredPlainly(check) <==> AnsweredWell(check)
    ensures RenderedEvidence(check) <==> Rendered(check)
  {}

  lemma WantedPathsAre(c: Contract)
    ensures RequestedSet(c) == WantedPaths(c)
  {
    forall path | path in RequestedSet(c) && path != "/" ensures path in WantedPaths(c) {
      var j :| 0 <= j < |c.requirements| && path in HttpPaths(c.requirements[j]);
      var i :| 0 <= i < |c.requirements[j].verifiers| && c.requirements[j].verifiers[i].HttpVerifier? && c.requirements[j].verifiers[i].path == path;
    }
    forall path | path in WantedPaths(c) && path != "/" ensures path in RequestedSet(c) {
      var j, i :| 0 <= j < |c.requirements| && 0 <= i < |c.requirements[j].verifiers| && c.requirements[j].verifiers[i].HttpVerifier?
                  && c.requirements[j].verifiers[i].path == path;
      assert path in HttpPaths(c.requirements[j]);
    }
  }

  lemma RouteMeans(c: Contract, checks: seq<Check>, i: nat)
    requires i < |checks|
    ensures RouteValid(checks, RequestedSet(c), i) <==> RouteHolds(c, checks, i)
  {
    WantedPathsAre(c);
    ShownMeans(checks[i]);
    if checks[i].path in DiscoveredPaths(checks[..i]) {
      var j :| 0 <= j < i && checks[..i][j].discovered && checks[..i][j].path == checks[i].path;
      assert checks[j] == checks[..i][j];
    }
    forall j | 0 <= j < i && checks[j].discovered ensures checks[j].path in DiscoveredPaths(checks[..i]) {
      assert checks[..i][j] == checks[j];
    }
  }

  lemma RoutesMean(c: Contract, checks: seq<Check>)
    ensures RoutesValid(c, checks) <==> RoutesHold(c, checks)
  {
    WantedPathsAre(c);
    assert DiscoveredPaths(checks) == FoundPaths(checks);
    forall i | 0 <= i < |checks| ensures RouteValid(checks, RequestedSet(c), i) <==> RouteHolds(c, checks, i) { RouteMeans(c, checks, i); }
  }

  /** The gate's lists of such checks. */
  function Sifted(checks: seq<Check>, s: Sought): seq<Check> {
    match s
    case TheRoot => RootChecks(checks)
    case ForVerifier(id, index) => VerifierChecks(checks, id, index)
  }

  lemma SiftStep(checks: seq<Check>, s: Sought)
    requires checks != []
    ensures Sifted(checks, s) == (if CheckAt(checks, s, 0) then [checks[0]] else []) + Sifted(checks[1..], s)
  {}

  lemma CheckShifts(checks: seq<Check>, s: Sought, p: nat)
    requires checks != []
    ensures CheckAt(checks, s, p + 1) <==> CheckAt(checks[1..], s, p)
  {}

  lemma {:induction false} NoCheck(checks: seq<Check>, s: Sought)
    ensures Sifted(checks, s) == [] <==> forall p: nat :: !CheckAt(checks, s, p)
  {
    if checks != [] {
      NoCheck(checks[1..], s);
      SiftStep(checks, s);
      forall p: nat ensures CheckAt(checks, s, p + 1) <==> CheckAt(checks[1..], s, p) { CheckShifts(checks, s, p); }
      if forall p: nat :: !CheckAt(checks[1..], s, p) {
        forall p: nat | p > 0 ensures !CheckAt(checks, s, p) { CheckShifts(checks, s, p - 1); }
      }
    }
  }

  lemma {:induction false} OneCheckIsListed(checks: seq<Check>, s: Sought, p: nat)
    requires OnlyCheck(checks, s, p)
    ensures Sifted(checks, s) == [checks[p]]
  {
    SiftStep(checks, s);
    if p == 0 {
      forall q: nat ensures !CheckAt(checks[1..], s, q) { CheckShifts(checks, s, q); }
      NoCheck(checks[1..], s);
    } else {
      CheckShifts(checks, s, p - 1);
      forall q: nat | CheckAt(checks[1..], s, q) ensures q == p - 1 { CheckShifts(checks, s, q); }
      OneCheckIsListed(checks[1..], s, p - 1);
    }
  }

  lemma {:induction false} ListedIsOneCheck(checks: seq<Check>, s: Sought) returns (p: nat)
    requires |Sifted(checks, s)| == 1
    ensures OnlyCheck(checks, s, p)
  {
    SiftStep(checks, s);
    if CheckAt(checks, s, 0) {
      NoCheck(checks[1..], s);
      forall q: nat | CheckAt(checks, s, q) ensures q == 0 {
        if q > 0 { CheckShifts(checks, s, q - 1); }
      }
      return 0;
    }
    var m := ListedIsOneCheck(checks[1..], s);
    CheckShifts(checks, s, m);
    forall q: nat | CheckAt(checks, s, q) ensures q == m + 1 { CheckShifts(checks, s, q - 1); }
    return m + 1;
  }

  lemma RootMeans(checks: seq<Check>)
    ensures RootValid(checks) <==> RootHolds(checks)
  {
    if |Sifted(checks, TheRoot)| == 1 {
      var p := ListedIsOneCheck(checks, TheRoot);
      OneCheckIsListed(checks, TheRoot, p);
      ShownMeans(checks[p]);
    }
    if p: nat :| OnlyCheck(checks, TheRoot, p) && AnsweredWell(checks[p]) && Rendered(checks[p]) {
      OneCheckIsListed(checks, TheRoot, p);
      ShownMeans(checks[p]);
    }
  }

  // ----- The evaluation and the requirements -----

  predicate EvaluationHolds(r: Receipt) {
    && r.status == Pass && r.body.ContractEvaluation? && r.body.traceId != "" && r.body.unsupportedClaims == 0
    && r.body.scores.hardRequirements == 1 && r.body.scores.supportedBusinessFacts == 1 && r.body.scores.evidenceGrounding == 1
  }

  /** The first verdict on a requirement. */
  predicate FirstVerdict(results: seq<Evaluation>, id: string, u: nat) {
    u < |results| && results[u].requirementId == id && forall t :: 0 <= t < u ==> results[t].requirementId != id
  }

  lemma {:induction false} VerdictMeans(results: seq<Evaluation>, id: string)
    ensures forall u: nat :: FirstVerdict(results, id, u) ==> VerdictOn(results, id) == Some(results[u])
    ensures VerdictOn(results, id).Some? ==> exists u: nat :: FirstVerdict(results, id, u)
  {
    if results != [] {
      VerdictMeans(results[1..], id);
      if results[0].requirementId == id {
        assert FirstVerdict(results, id, 0);
      } else {
        forall u: nat | FirstVerdict(results, id, u) ensures VerdictOn(results, id) == Some(results[u]) {
          assert FirstVerdict(results[1..], id, u - 1);
        }
        if u: nat :| FirstVerdict(results[1..], id, u) { assert FirstVerdict(results, id, u + 1); }
      }
    }
  }

  /** A verifier of an approved requirement: its newest run passed, or its one check was answered as asked; and it is cited. */
  ghost predicate VerifierHolds(all: seq<Receipt>, revision: string, checks: seq<Check>, refs: seq<Reference>, r: Requirement, index: nat)
    requires index < |r.verifiers|
  {
    match r.verifiers[index]
    case CommandVerifier(command) =>
      exists n: nat :: CitedRun(all, revision, RequirementRun(r.id, index, command), refs, n)
    case HttpVerifier(path, status, includes) =>
      exists p: nat :: OnlyCheck(checks, ForVerifier(r.id, index), p) && AnsweredAsAsked(checks[p], path, status, includes) && Rendered(checks[p])
                       && PageRef(path, checks[p].visibleTextDigest.value) in refs
    case SemanticVerifier => true
  }

  predicate AnsweredAsAsked(check: Check, path: string, status: int, includes: seq<string>) {
    && check.path == path && check.expectedStatus == status && check.actualStatus == Some(status)
    && check.expectedText == includes && check.missingText == [] && (check.error == None || check.error == Some(""))
  }

  ghost predicate RequirementHolds(all: seq<Receipt>, revision: string, checks: seq<Check>, results: seq<Evaluation>, r: Requirement) {
    exists u: nat ::
      && FirstVerdict(results, r.id, u) && results[u].verdict == Passed
      && forall i :: 0 <= i < |r.verifiers| ==> VerifierHolds(all, revision, checks, results[u].evidenceRefs, r, i)
  }

  ghost predicate RequirementsHold(c: Contract, all: seq<Receipt>, revision: string, checks: seq<Check>, results: seq<Evaluation>) {
    forall j :: 0 <= j < |c.requirements| && c.requirements[j].hard ==> RequirementHolds(all, revision, checks, results, c.requirements[j])
  }

  /** The newest run of a command verifier passed, and is cited. */
  ghost predicate CitedRun(all: seq<Receipt>, revision: string, w: Wanted, refs: seq<Reference>, n: nat) {
    Newest(all, revision, w, n) && PassedRun(all[n]) && ReceiptRef(all[n].id) in refs
  }

  lemma CommandVerifierMeans(k: Commands, c: Contract, all: seq<Receipt>, revision: string, id: string, i: nat, command: string, refs: seq<Reference>)
    ensures var rs, slot := OfRevision(all, revision), VerifierSlot(id, i, command);
            CommandPasses(k, c, rs, slot) && ReceiptRef(Latest(k, c, slot, rs).value.id) in refs <==>
            exists n: nat :: CitedRun(all, revision, RequirementRun(id, i, command), refs, n)
  {
    var slot := VerifierSlot(id, i, command);
    var n := LatestIsNewest(k, c, slot, all, revision);
    RunIsCited(all, revision, RequirementRun(id, i, command), refs, Latest(k, c, slot, OfRevision(all, revision)), n);
  }

  lemma RunIsCited(all: seq<Receipt>, revision: string, w: Wanted, refs: seq<Reference>, r: Option<Receipt>, n: Option<nat>)
    requires IsPicked(all, revision, w, r, n)
    ensures r.Some? && PassedRun(r.value) && ReceiptRef(r.value.id) in refs <==> exists m: nat :: CitedRun(all, revision, w, refs, m)
  {
    if m: nat :| CitedRun(all, revision, w, refs, m) { NewestIsPicked(all, revision, w, r, n, m); }
    if r.Some? && PassedRun(r.value) && ReceiptRef(r.value.id) in refs { assert CitedRun(all, revision, w, refs, n.value); }
  }

  lemma HttpVerifierMeans(checks: seq<Check>, results: seq<Evaluation>, id: string, i: nat, path: string, status: int, includes: seq<string>)
    requires Approved(results, id)
    ensures HttpPasses(checks, results, id, i, path, status, includes) <==>
            exists p: nat :: OnlyCheck(checks, ForVerifier(id, i), p) && AnsweredAsAsked(checks[p], path, status, includes) && Rendered(checks[p])
                             && PageRef(path, checks[p].visibleTextDigest.value) in VerdictOn(results, id).value.evidenceRefs
  {
    var s := ForVerifier(id, i);
    if |Sifted(checks, s)| == 1 {
      var p := ListedIsOneCheck(checks, s);
      OneCheckIsListed(checks, s, p);
      ShownMeans(checks[p]);
    }
    if p: nat :| OnlyCheck(checks, s, p) {
      OneCheckIsListed(checks, s, p);
      ShownMeans(checks[p]);
    }
  }

  lemma VerifierMeans(k: Commands, c: Contract, all: seq<Receipt>, revision: string, r: Requirement, i: nat)
    requires i < |r.verifiers|
    requires var rs := OfRevision(all, revision); Approved(ResultsOf(Latest(k, c, EvaluationSlot, rs)), r.id)
    ensures var rs := OfRevision(all, revision);
            var results := ResultsOf(Latest(k, c, EvaluationSlot, rs));
            VerifierPasses(k, c, rs, r, i) <==>
            VerifierHolds(all, revision, ChecksOf(Latest(k, c, PreviewSlot, rs)), VerdictOn(results, r.id).value.evidenceRefs, r, i)
  {
    var rs := OfRevision(all, revision);
    var results := ResultsOf(Latest(k, c, EvaluationSlot, rs));
    match r.verifiers[i] {
      case CommandVerifier(command) =>
        CommandVerifierMeans(k, c, all, revision, r.id, i, command, VerdictOn(results, r.id).value.evidenceRefs);
      case HttpVerifier(path, status, includes) =>
        HttpVerifierMeans(ChecksOf(Latest(k, c, PreviewSlot, rs)), results, r.id, i, path, status, includes);
      case SemanticVerifier =>
    }
  }

  lemma RequirementMeans(k: Commands, c: Contract, all: seq<Receipt>, revision: string, r: Requirement)
    requires r.hard
    ensures var rs := OfRevision(all, revision);
            RequirementPasses(k, c, rs, r) <==>
            RequirementHolds(all, revision, ChecksOf(Latest(k, c, PreviewSlot, rs)), ResultsOf(Latest(k, c, EvaluationSlot, rs)), r)
  {
    var rs := OfRevision(all, revision);
    var results := ResultsOf(Latest(k, c, EvaluationSlot, rs));
    VerdictMeans(results, r.id);
    if Approved(results, r.id) {
      forall i | 0 <= i < |r.verifiers|
        ensures VerifierPasses(k, c, rs, r, i) <==>
                VerifierHolds(all, revision, ChecksOf(Latest(k, c, PreviewSlot, rs)), VerdictOn(results, r.id).value.evidenceRefs, r, i)
      {
        VerifierMeans(k, c, all, revision, r, i);
      }
    }
  }

  lemma RequirementsMean(k: Commands, c: Contract, all: seq<Receipt>, revision: string)
    ensures var rs := OfRevision(all, revision);
            RequirementsPass(k, c, rs) <==>
            RequirementsHold(c, all, revision, ChecksOf(Latest(k, c, PreviewSlot, rs)), ResultsOf(Latest(k, c, EvaluationSlot, rs)))
  {
    forall j | 0 <= j < |c.requirements| && c.requirements[j].hard
      ensures var rs := OfRevision(all, revision);
              RequirementPasses(k, c, rs, c.requirements[j]) <==>
              RequirementHolds(all, revision, ChecksOf(Latest(k, c, PreviewSlot, rs)), ResultsOf(Latest(k, c, EvaluationSlot, rs)), c.requirements[j])
    {
      RequirementMeans(k, c, all, revision, c.requirements[j]);
    }
  }

  // ----- The gate -----

  /** No match, nothing unsupported and nothing unverified among the pixels. */
  predicate PixelsHold(r: Receipt) {
    && r.status == Pass && r.body.Raster? && r.body.visual.matches == [] && r.body.visual.unsupported == [] && r.body.visual.unverified == []
  }

  /** The preview is the one that was asked for, its digest is of its checks, and no check shows a forbidden claim. */
  predicate PreviewHolds(c: Contract, r: Receipt) {
    && r.status == Pass && r.body.Preview? && r.body.inputDigest == PreviewInspection.InputDigest(c)
    && r.body.outputDigest == Sha(OfChecks(r.body.checks))
    && forall i :: 0 <= i < |r.body.checks| ==> r.body.checks[i].forbiddenClaims == []
  }

  ghost predicate OfOneRun(all: seq<Receipt>, revision: string) {
    forall i, j :: 0 <= i < |all| && 0 <= j < |all| && all[i].revision == revision && all[j].revision == revision ==> all[i].runId == all[j].runId
  }

  /** The newest pixels, preview and evaluation, and what they say together. */
  ghost predicate JudgedOn(c: Contract, all: seq<Receipt>, revision: string, v: nat, p: nat, e: nat) {
    && Newest(all, revision, Pixels(c), v) && Newest(all, revision, AnyPreview, p) && Newest(all, revision, AnyEvaluation, e)
    && PixelsHold(all[v]) && PreviewHolds(c, all[p]) && TilesBound(all[v].body.visual, all[p].body.checks)
    && RootHolds(all[p].body.checks) && RoutesHold(c, all[p].body.checks)
    && EvaluationHolds(all[e]) && RequirementsHold(c, all, revision, all[p].body.checks, all[e].body.results)
  }

  ghost predicate GateHolds(k: Commands, c: Contract, revision: string, all: seq<Receipt>, attested: Receipt -> bool) {
    && OfOneRun(all, revision) && CommandsHold(k, c, all, revision) && ReviewsHold(all, revision, attested)
    && exists v: nat, p: nat, e: nat :: JudgedOn(c, all, revision, v, p, e)
  }

  lemma OneRunMeans(all: seq<Receipt>, revision: string)
    ensures OneRun(OfRevision(all, revision)) <==> OfOneRun(all, revision)
  {
    if OneRun(OfRevision(all, revision)) {
      forall i, j | 0 <= i < |all| && 0 <= j < |all| && all[i].revision == revision && all[j].revision == revision
        ensures all[i].runId == all[j].runId
      {
        assert all[i] in OfRevision(all, revision) && all[j] in OfRevision(all, revision);
      }
    }
  }

  /** What the gate asks of the three receipts it picked. */
  ghost predicate PickedPass(k: Commands, c: Contract, rs: seq<Receipt>) {
    RenderingPasses(k, c, rs) && EvaluationPasses(Latest(k, c, EvaluationSlot, rs)) && RequirementsPass(k, c, rs)
  }

  lemma JudgedMeans(k: Commands, c: Contract, all: seq<Receipt>, revision: string, v: nat, p: nat, e: nat)
    requires Newest(all, revision, Pixels(c), v) && Newest(all, revision, AnyPreview, p) && Newest(all, revision, AnyEvaluation, e)
    requires var rs := OfRevision(all, revision);
             && Latest(k, c, VisualSlot, rs) == Some(all[v]) && Latest(k, c, PreviewSlot, rs) == Some(all[p])
             && Latest(k, c, EvaluationSlot, rs) == Some(all[e])
    ensures PickedPass(k, c, OfRevision(all, revision)) <==> JudgedOn(c, all, revision, v, p, e)
  {
    RenderingMeans(k, c, OfRevision(all, revision), all[v], all[p]);
    EvaluationMeans(all[e]);
    RequirementsMean(k, c, all, revision);
  }

  lemma RenderingMeans(k: Commands, c: Contract, rs: seq<Receipt>, visual: Receipt, preview: Receipt)
    requires Latest(k, c, VisualSlot, rs) == Some(visual) && Latest(k, c, PreviewSlot, rs) == Some(preview)
    requires visual.body.Raster? && preview.body.Preview?
    ensures RenderingPasses(k, c, rs) <==>
            && PixelsHold(visual) && PreviewHolds(c, preview) && TilesBound(visual.body.visual, preview.body.checks)
            && RootHolds(preview.body.checks) && RoutesHold(c, preview.body.checks)
  {
    TilesMean(visual, preview);
    RootMeans(preview.body.checks);
    RoutesMean(c, preview.body.checks);
    PreviewMeans(c, preview);
  }

  lemma PreviewMeans(c: Contract, preview: Receipt)
    ensures PreviewPasses(c, Some(preview)) <==> PreviewHolds(c, preview)
  {}

  lemma EvaluationMeans(r: Receipt)
    ensures EvaluationPasses(Some(r)) <==> EvaluationHolds(r)
  {}

  lemma PickedNeeds(k: Commands, c: Contract, rs: seq<Receipt>)
    requires PickedPass(k, c, rs)
    ensures Latest(k, c, VisualSlot, rs).Some? && Latest(k, c, PreviewSlot, rs).Some? && Latest(k, c, EvaluationSlot, rs).Some?
  {}

  lemma PickedIsJudged(k: Commands, c: Contract, all: seq<Receipt>, revision: string) returns (v: nat, p: nat, e: nat)
    requires PickedPass(k, c, OfRevision(all, revision))
    ensures JudgedOn(c, all, revision, v, p, e)
  {
    PickedNeeds(k, c, OfRevision(all, revision));
    var v', p', e' := Picks(k, c, all, revision);
    JudgedMeans(k, c, all, revision, v'.value, p'.value, e'.value);
    return v'.value, p'.value, e'.value;
  }

  lemma Picks(k: Commands, c: Contract, all: seq<Receipt>, revision: string) returns (v: Option<nat>, p: Option<nat>, e: Option<nat>)
    ensures IsPicked(all, revision, Pixels(c), Latest(k, c, VisualSlot, OfRevision(all, revision)), v)
    ensures IsPicked(all, revision, AnyPreview, Latest(k, c, PreviewSlot, OfRevision(all, revision)), p)
    ensures IsPicked(all, revision, AnyEvaluation, Latest(k, c, EvaluationSlot, OfRevision(all, revision)), e)
  {
    v := LatestIsNewest(k, c, VisualSlot, all, revision);
    p := LatestIsNewest(k, c, PreviewSlot, all, revision);
    e := LatestIsNewest(k, c, EvaluationSlot, all, revision);
  }

  lemma NewestIsPicked(all: seq<Receipt>, revision: string, w: Wanted, r: Option<Receipt>, n: Option<nat>, i: nat)
    requires IsPicked(all, revision, w, r, n) && Newest(all, revision, w, i)
    ensures n == Some(i) && r == Some(all[i])
  {}

  lemma JudgedIsPicked(k: Commands, c: Contract, all: seq<Receipt>, revision: string, v: nat, p: nat, e: nat)
    requires JudgedOn(c, all, revision, v, p, e)
    ensures PickedPass(k, c, OfRevision(all, revision))
  {
    var v', p', e' := Picks(k, c, all, revision);
    var rs := OfRevision(all, revision);
    NewestIsPicked(all, revision, Pixels(c), Latest(k, c, VisualSlot, rs), v', v);
    NewestIsPicked(all, revision, AnyPreview, Latest(k, c, PreviewSlot, rs), p', p);
    NewestIsPicked(all, revision, AnyEvaluation, Latest(k, c, EvaluationSlot, rs), e', e);
    JudgedMeans(k, c, all, revision, v, p, e);
  }

  /** The gate passes if and only if all of this holds of the receipts of the run. */
  lemma GateMeans(k: Commands, c: Contract, revision: string, all: seq<Receipt>, attested: Receipt -> bool)
    ensures Passes(k, c, revision, all, attested) <==> GateHolds(k, c, revision, all, attested)
  {
    OneRunMeans(all, revision);
    CommandsMean(k, c, all, revision);
    ReviewsMean(all, revision, attested);
    if Passes(k, c, revision, all, attested) { var v, p, e := PickedIsJudged(k, c, all, revision); }
    if v: nat, p: nat, e: nat :| JudgedOn(c, all, revision, v, p, e) { JudgedIsPicked(k, c, all, revision, v, p, e); }
  }

  /** decideProof, in these terms. */
  method Decide(k: Commands, c: Contract, revision: string, all: seq<Receipt>, attested: Receipt -> bool) returns (d: Decision)
    ensures d.passed <==> GateHolds(k, c, revision, all, attested)
    ensures d.passed <==> d.reasons == []
  {
    d := DecideProof(k, c, revision, all, attested);
    GateMeans(k, c, revision, all, attested);
  }
}
