/**
 The tiles that the gate gathers from the checks of a passing preview, and their digest, are those that
 the raster inspector collected from its pages.
 */
module TileEvidence {
  import opened Wrappers
  import opened Text
  import opened Lists
  import opened Evidence
  import opened PreviewInspection
  import opened ProofGate
  import RasterClaims

  // ----- Results and pages -----

  /** The tiles shown for a path, if it was rendered. */
  function PathTiles(results: seq<(string, PageResult)>, path: string): Option<seq<Digest>> {
    match At(results, path)
    case Some(Rendered(_, _, tiles, _)) => Some(tiles)
    case _ => None
  }

  function EntriesFor(results: seq<(string, PageResult)>, paths: seq<string>): seq<Tiles> {
    if paths == [] then []
    else
      var last := paths[|paths| - 1];
      EntriesFor(results, paths[..|paths| - 1]) +
      match PathTiles(results, last)
      case Some(tiles) => [Tiles(last, tiles)]
      case None => []
  }

  function InspectionPath(i: Inspection): string { i.path }

  function PathsOf(ins: seq<Inspection>): seq<string> { Map(InspectionPath, ins) }

  function CheckPath(check: Check): string { check.path }

  lemma {:induction false} TilesAtEntries(results: seq<(string, PageResult)>, paths: seq<string>, path: string)
    ensures TilesAt(EntriesFor(results, paths), path) == if path in paths then PathTiles(results, path) else None
  {
    if paths != [] {
      var front, last := paths[..|paths| - 1], paths[|paths| - 1];
      TilesAtEntries(results, front, path);
      assert paths == front + [last];
      if PathTiles(results, last).Some? {
        assert EntriesFor(results, paths)[..|EntriesFor(results, front)|] == EntriesFor(results, front);
      } else {
        EmptyConcat(EntriesFor(results, front));
      }
    }
  }

  lemma EntriesPush(results: seq<(string, PageResult)>, paths: seq<string>, path: string)
    ensures EntriesFor(results, paths + [path]) ==
            EntriesFor(results, paths) +
            if PathTiles(results, path).Some? then [Tiles(path, PathTiles(results, path).value)] else []
  {
    assert (paths + [path])[..|paths|] == paths;
  }

  /** The gate's gathering visits each path once, in the order in which the paths are first checked. */
  lemma {:induction false} GatherIs(checks: seq<Check>, results: seq<(string, PageResult)>, seen: seq<string>)
    requires forall i :: 0 <= i < |checks| ==> checks[i].tiles == PathTiles(results, checks[i].path)
    ensures Gather(checks, EntriesFor(results, seen)) ==
            Some(EntriesFor(results, DistinctOnto(seen, Map(CheckPath, checks))))
    decreases |checks|
  {
    if checks != [] {
      var path := checks[0].path;
      assert checks == [checks[0]] + checks[1..];
      MapCons(CheckPath, checks[0], checks[1..]);
      ConsTail(path, Map(CheckPath, checks[1..]));
      TilesAtEntries(results, seen, path);
      EntriesPush(results, seen, path);
      EmptyConcat(EntriesFor(results, seen));
      GatherIs(checks[1..], results, if path in seen then seen else seen + [path]);
    }
  }

  // ----- The accepted inspections -----

  function DiscoveredTarget(path: string): Target { Target(None, None, true, true, path, 200, []) }

  lemma {:induction false} AllDiscovered(ins: seq<Inspection>)
    requires forall k :: 0 <= k < |ins| ==> ins[k].discovered
    ensures |DiscoveredTargets(ins)| == |ins|
    ensures forall k :: 0 <= k < |ins| ==> DiscoveredTargets(ins)[k] == DiscoveredTarget(ins[k].path)
  {
    if ins != [] { AllDiscovered(ins[1..]); }
  }

  lemma {:induction false} RequestedFirst(ins: seq<Inspection>, n: nat)
    requires n <= |ins| && forall k :: 0 <= k < n ==> !ins[k].discovered
    ensures DiscoveredTargets(ins) == DiscoveredTargets(ins[n..])
  {
    if n == 0 {
      assert ins[0..] == ins;
    } else {
      RequestedFirst(ins[1..], n - 1);
      assert ins[1..][n - 1..] == ins[n..];
      EmptyConcat(DiscoveredTargets(ins[1..]));
    }
  }

  /** The targets for discovered routes stand for the answers after the requested ones. */
  lemma DiscoveredAre(lib: Library, expected: seq<string>, ins: seq<Inspection>)
    requires Accepted(lib, expected, ins)
    ensures |DiscoveredTargets(ins)| == |ins| - |expected|
    ensures forall k :: 0 <= k < |ins| - |expected| ==>
              DiscoveredTargets(ins)[k] == DiscoveredTarget(ins[k + |expected|].path)
  {
    var rest := ins[|expected|..];
    forall k | 0 <= k < |ins| ensures ins[k].discovered <==> k >= |expected| { assert Placed(lib, expected, ins, k); }
    RequestedFirst(ins, |expected|);
    AllDiscovered(rest);
  }

  /** The facts that acceptance gives about the paths. */
  lemma AcceptedPaths(lib: Library, c: Contract, ins: seq<Inspection>)
    requires Inspectable(lib, c, ins)
    ensures NoDuplicates(PathsOf(ins))
    ensures RequestedPaths(c) + Map(PathOf, DiscoveredTargets(ins)) == PathsOf(ins)
  {
    var expected := RequestedPaths(c);
    DiscoveredAre(lib, expected, ins);
    forall k | 0 <= k < |expected| ensures PathsOf(ins)[k] == expected[k] { assert Placed(lib, expected, ins, k); }
  }

  lemma DiscoveredIsNew(lib: Library, c: Contract, ins: seq<Inspection>, t: Target)
    requires Inspectable(lib, c, ins) && t in DiscoveredTargets(ins)
    ensures t == DiscoveredTarget(t.path) && t.path !in RequestedPaths(c)
  {
    var expected := RequestedPaths(c);
    DiscoveredAre(lib, expected, ins);
    var k :| 0 <= k < |DiscoveredTargets(ins)| && DiscoveredTargets(ins)[k] == t;
    assert Placed(lib, expected, ins, k + |expected|);
  }

  lemma CheckedPaths(lib: Library, claims: seq<string>, targets: seq<Target>, more: seq<Target>, results: seq<(string, PageResult)>)
    requires NoDuplicates(Distinct(Map(PathOf, targets)) + Map(PathOf, more))
    ensures Distinct(Map(CheckPath, ChecksFor(lib, claims, targets + more, results))) ==
            Distinct(Map(PathOf, targets)) + Map(PathOf, more)
  {
    assert Map(CheckPath, ChecksFor(lib, claims, targets + more, results)) == Map(PathOf, targets + more);
    assert Map(PathOf, targets + more) == Map(PathOf, targets) + Map(PathOf, more);
    DistinctConcat([], Map(PathOf, targets), Map(PathOf, more));
    DistinctAppends(Distinct(Map(PathOf, targets)), Map(PathOf, more));
  }

  /** The checks carry the tiles of their paths. */
  lemma CheckTiles(lib: Library, claims: seq<string>, targets: seq<Target>, results: seq<(string, PageResult)>)
    ensures forall i :: 0 <= i < |targets| ==>
              var check := ChecksFor(lib, claims, targets, results)[i];
              check.tiles == PathTiles(results, check.path)
  {
    forall i | 0 <= i < |targets|
      ensures var check := ChecksFor(lib, claims, targets, results)[i];
              check.tiles == PathTiles(results, check.path)
    {
      assert ChecksFor(lib, claims, targets, results)[i] == CheckOf(lib, claims, targets[i], At(results, targets[i].path));
    }
  }

  /** What the gate gathers: the tiles of the inspected paths, in order. */
  lemma GatheredAre(lib: Library, c: Contract, ins: seq<Inspection>)
    requires Inspectable(lib, c, ins)
    ensures Gather(Inspect(lib, c, ins).checks, []) == Some(EntriesFor(Results(ins), PathsOf(ins)))
  {
    AcceptedPaths(lib, c, ins);
    GatherTargets(lib, c.forbiddenClaims, Targets(c), DiscoveredTargets(ins), Results(ins));
  }

  lemma GatherTargets(lib: Library, claims: seq<string>, targets: seq<Target>, more: seq<Target>, results: seq<(string, PageResult)>)
    requires NoDuplicates(Distinct(Map(PathOf, targets)) + Map(PathOf, more))
    ensures Gather(ChecksFor(lib, claims, targets + more, results), []) ==
            Some(EntriesFor(results, Distinct(Map(PathOf, targets)) + Map(PathOf, more)))
  {
    CheckTiles(lib, claims, targets + more, results);
    CheckedPaths(lib, claims, targets, more, results);
    GatherIs(ChecksFor(lib, claims, targets + more, results), results, []);
  }

  /** The tiles of the rendered pages, in the order in which they were inspected. */
  lemma {:induction false} PageTilesAre(ins: seq<Inspection>, n: nat)
    requires n <= |ins| && forall k :: 0 <= k < |ins| ==> WellShaped(ins[k])
    requires NoDuplicates(PathsOf(ins))
    requires forall p :: p in PagesOf(Results(ins)[..n]) ==> p.screenshots.Some?
    ensures Map(RasterClaims.TilesOf, PagesOf(Results(ins)[..n])) == EntriesFor(Results(ins), PathsOf(ins)[..n])
  {
    var results, paths := Results(ins), PathsOf(ins);
    if n == 0 {
      assert results[..0] == [] && paths[..0] == [];
    } else {
      assert results[..n][..n - 1] == results[..n - 1] && paths[..n][..n - 1] == paths[..n - 1];
      PageTilesAre(ins, n - 1);
      assert paths[..n][n - 1] == ins[n - 1].path;
      PageTilesStep(ins, n - 1);
    }
  }

  /** The page of one inspection, and the entry for its path. */
  lemma PageTilesStep(ins: seq<Inspection>, k: nat)
    requires k < |ins| && forall j :: 0 <= j < |ins| ==> WellShaped(ins[j])
    requires NoDuplicates(PathsOf(ins))
    requires forall p :: p in PagesOf(Results(ins)[..k + 1]) ==> p.screenshots.Some?
    ensures Map(RasterClaims.TilesOf, PagesOf(Results(ins)[..k + 1])) ==
            Map(RasterClaims.TilesOf, PagesOf(Results(ins)[..k])) +
            if PathTiles(Results(ins), ins[k].path).Some? then [Tiles(ins[k].path, PathTiles(Results(ins), ins[k].path).value)] else []
  {
    var results, paths := Results(ins), PathsOf(ins);
    assert results[..k + 1][..k] == results[..k];
    forall i, j | 0 <= i < j < |ins| ensures ins[i].path != ins[j].path { assert paths[i] != paths[j]; }
    PathsDistinct(ins, k, results);
    match results[k].1 {
      case Rendered(status, text, tiles, shots) =>
        var p := Page(ins[k].path, status, text, shots);
        assert PagesOf(results[..k + 1]) == PagesOf(results[..k]) + [p];
        assert p in PagesOf(results[..k + 1]);
        ShotsGiveTiles(ins[k]);
      case _ =>
        EmptyConcat(PagesOf(results[..k]));
        EmptyConcat(Map(RasterClaims.TilesOf, PagesOf(results[..k])));
    }
  }

  lemma ShotsGiveTiles(i: Inspection)
    requires WellShaped(i) && ResultOf(i).Rendered? && i.screenshots.Some?
    ensures Map(RasterClaims.DigestOf, i.screenshots.value) == i.tiles.value
  {
    assert ShotsMatch(i);
    forall k | 0 <= k < |i.tiles.value| ensures RasterClaims.DigestOf(i.screenshots.value[k]) == i.tiles.value[k] {
      assert ShotMatches(i.screenshots.value[k], i.tiles.value[k]);
    }
  }

  lemma {:induction false} DigestsOfPages(pages: seq<Page>)
    ensures Map(RasterClaims.ShaOf, RasterClaims.ImagesOf(RasterClaims.AllShots(pages))) ==
            AllDigests(Map(RasterClaims.TilesOf, pages))
  {
    if pages != [] {
      var front, last := pages[..|pages| - 1], pages[|pages| - 1];
      DigestsOfPages(front);
      assert Map(RasterClaims.TilesOf, pages)[..|pages| - 1] == Map(RasterClaims.TilesOf, front);
      assert RasterClaims.ImagesOf(RasterClaims.AllShots(pages)) ==
             RasterClaims.ImagesOf(RasterClaims.AllShots(front)) + RasterClaims.ImagesOf(RasterClaims.ShotsOf(last));
      assert Map(RasterClaims.ShaOf, RasterClaims.ImagesOf(RasterClaims.ShotsOf(last))) ==
             Map(RasterClaims.DigestOf, RasterClaims.ShotsOf(last));
    }
  }

  lemma CollectedShots(pages: seq<Page>)
    requires RasterClaims.Collectable(pages)
    ensures forall p :: p in pages ==> p.screenshots.Some?
  {
    var sorted := RasterClaims.SortedPages(pages);
    SortKeeps(RasterClaims.PagePath, pages);
    forall p | p in pages ensures p.screenshots.Some? {
      var k :| 0 <= k < |sorted| && sorted[k] == p;
      RasterClaims.AcceptedOneMore(sorted, k);
    }
  }

  lemma PagesTilesAre(ins: seq<Inspection>)
    requires forall k :: 0 <= k < |ins| ==> WellShaped(ins[k])
    requires NoDuplicates(PathsOf(ins)) && RasterClaims.Collectable(PagesOf(Results(ins)))
    ensures Map(RasterClaims.TilesOf, PagesOf(Results(ins))) == EntriesFor(Results(ins), PathsOf(ins))
  {
    CollectedShots(PagesOf(Results(ins)));
    assert Results(ins)[..|ins|] == Results(ins) && PathsOf(ins)[..|ins|] == PathsOf(ins);
    PageTilesAre(ins, |ins|);
  }

  /** The raster receipt, in terms of the tiles of its pages. */
  lemma ReceiptTiles(c: Contract, pages: seq<Page>, workspace: RasterClaims.Collected, v: Visual)
    requires RasterClaims.PassesOnly(c, pages, workspace, v)
    ensures var sorted := SortedTiles(Map(RasterClaims.TilesOf, pages));
            && v.renderedInputDigest == Sha(OfTiles(sorted))
            && v.renderedAssetCount == |AllDigests(sorted)|
            && SliceFrom(v.assetDigests, v.workspaceAssetCount) == AllDigests(sorted)
  {
    var sorted := RasterClaims.SortedPages(pages);
    SortMaps(RasterClaims.PagePath, RasterClaims.TilesOf, RasterClaims.TilesPath, pages);
    DigestsOfPages(sorted);
    SliceOfMap(workspace.images, RasterClaims.ImagesOf(RasterClaims.AllShots(sorted)));
  }

  /**
   The pixels: what the gate gathers from the checks is what the raster inspector collected from the
   pages, path by path and tile by tile, and so is its digest.
   */
  lemma PixelsAgree(lib: Library, c: Contract, ins: seq<Inspection>, workspace: RasterClaims.Collected, v: Visual)
    requires Inspectable(lib, c, ins) && RasterClaims.PassesOnly(c, Inspect(lib, c, ins).pages, workspace, v)
    ensures var gathered := Gather(Inspect(lib, c, ins).checks, []);
            && gathered.Some?
            && v.renderedInputDigest == Sha(OfTiles(SortedTiles(gathered.value)))
            && v.renderedAssetCount == |AllDigests(SortedTiles(gathered.value))|
            && SliceFrom(v.assetDigests, v.workspaceAssetCount) == AllDigests(SortedTiles(gathered.value))
  {
    GatheredAre(lib, c, ins);
    AcceptedPaths(lib, c, ins);
    PagesTilesAre(ins);
    ReceiptTiles(c, Inspect(lib, c, ins).pages, workspace, v);
  }

  lemma SliceOfMap(workspace: seq<RasterClaims.Image>, rendered: seq<RasterClaims.Image>)
    ensures SliceFrom(Map(RasterClaims.ShaOf, workspace + rendered), |workspace|) == Map(RasterClaims.ShaOf, rendered)
  {}
}
