/**
 A passing preview meets the gate's tests on its checks: the root, the discovered routes and their
 number, and exactly one answered check for each hard HTTP verifier.
 */
module RouteEvidence {
  import opened Wrappers
  import opened Text
  import opened Lists
  import opened Evidence
  import opened PreviewInspection
  import opened ContractEvaluation
  import opened ProofGate
  import opened TileEvidence

  // ----- Targets -----

  lemma {:induction false} VerifierTargetsAre(r: Requirement, i: nat)
    requires i <= |r.verifiers|
    ensures forall t :: t in VerifierTargets(r, i) <==> exists j :: i <= j < |r.verifiers| && VerifierTarget(r, j) == [t]
    decreases |r.verifiers| - i
  {
    if i < |r.verifiers| {
      VerifierTargetsAre(r, i + 1);
      forall t | t in VerifierTarget(r, i) ensures VerifierTarget(r, i) == [t] {}
    }
  }

  /** The targets after the root stand for the HTTP verifiers. */
  lemma {:induction false} RequirementTargetsAre(rs: seq<Requirement>)
    ensures forall t :: t in RequirementTargets(rs) <==>
              exists j, i :: 0 <= j < |rs| && 0 <= i < |rs[j].verifiers| && VerifierTarget(rs[j], i) == [t]
  {
    if rs != [] {
      var rest := rs[1..];
      RequirementTargetsAre(rest);
      VerifierTargetsAre(rs[0], 0);
      forall t ensures t in RequirementTargets(rs) <==>
                       exists j, i :: 0 <= j < |rs| && 0 <= i < |rs[j].verifiers| && VerifierTarget(rs[j], i) == [t]
      {
        if t in RequirementTargets(rest) {
          var j, i :| 0 <= j < |rest| && 0 <= i < |rest[j].verifiers| && VerifierTarget(rest[j], i) == [t];
          assert rs[j + 1] == rest[j] && VerifierTarget(rs[j + 1], i) == [t];
        }
        if j, i :| 0 <= j < |rs| && 0 <= i < |rs[j].verifiers| && VerifierTarget(rs[j], i) == [t] {
          if j > 0 { assert rest[j - 1] == rs[j]; }
        }
      }
    }
  }

  function Key(t: Target): (Option<string>, Option<nat>) { (t.requirementId, t.verifierIndex) }

  ghost predicate KeysDistinct(targets: seq<Target>) {
    forall j, k :: 0 <= j < k < |targets| ==> Key(targets[j]) != Key(targets[k])
  }

  lemma {:induction false} VerifierKeys(r: Requirement, i: nat)
    requires i <= |r.verifiers|
    ensures KeysDistinct(VerifierTargets(r, i))
    ensures forall k :: 0 <= k < |VerifierTargets(r, i)| ==>
              var t := VerifierTargets(r, i)[k];
              t.requirementId == Some(r.id) && t.verifierIndex.Some? && t.verifierIndex.value >= i
    decreases |r.verifiers| - i
  {
    if i < |r.verifiers| { VerifierKeys(r, i + 1); }
  }

  /** Distinct requirement ids give distinct target keys. */
  lemma {:induction false} RequirementKeys(rs: seq<Requirement>)
    requires forall i, j :: 0 <= i < j < |rs| ==> rs[i].id != rs[j].id
    ensures KeysDistinct(RequirementTargets(rs))
  {
    if rs != [] {
      RequirementKeys(rs[1..]);
      VerifierKeys(rs[0], 0);
      OtherKeys(rs[1..], rs[0].id);
    }
  }

  lemma {:induction false} OtherKeys(rs: seq<Requirement>, id: string)
    requires forall i :: 0 <= i < |rs| ==> rs[i].id != id
    ensures forall k :: 0 <= k < |RequirementTargets(rs)| ==> RequirementTargets(rs)[k].requirementId != Some(id)
  {
    if rs != [] {
      OtherKeys(rs[1..], id);
      VerifierKeys(rs[0], 0);
    }
  }

  // ----- Checks that pass -----

  /** Only rendered pages have tiles, and then 1 to 256 of them. */
  lemma {:induction false} RenderedHasTiles(ins: seq<Inspection>, n: nat, path: string)
    requires n <= |ins| && forall k :: 0 <= k < |ins| ==> WellShaped(ins[k])
    requires At(Results(ins)[..n], path).Some? && At(Results(ins)[..n], path).value.Rendered?
    ensures HasTiles(Some(At(Results(ins)[..n], path).value.tiles))
  {
    var results := Results(ins)[..n];
    assert results[|results| - 1] == (ins[n - 1].path, ResultOf(ins[n - 1]));
    if ins[n - 1].path == path {
      assert WellShaped(ins[n - 1]);
    } else {
      assert Results(ins)[..n][..n - 1] == Results(ins)[..n - 1];
      RenderedHasTiles(ins, n - 1, path);
    }
  }

  /** A check that neither errs nor fails. */
  predicate Settled(t: Target, check: Check) { !Erred(t, check) && !Failing(t, check) }

  lemma PassingSettles(targets: seq<Target>, checks: seq<Check>)
    requires |targets| == |checks| && StatusOf(targets, checks) == Pass
    ensures forall k :: 0 <= k < |checks| ==> Settled(targets[k], checks[k])
    ensures NoClaims(checks)
  {
    forall k | 0 <= k < |checks| ensures Settled(targets[k], checks[k]) && checks[k].forbiddenClaims == [] {
      assert !Erred(targets[k], checks[k]) && !Failing(targets[k], checks[k]);
    }
  }

  /** A settled blocking check is of a rendered page with the expected status and text. */
  lemma SettledIsRendered(lib: Library, claims: seq<string>, ins: seq<Inspection>, t: Target)
    requires forall k :: 0 <= k < |ins| ==> WellShaped(ins[k])
    requires t.blocking && Settled(t, CheckOf(lib, claims, t, At(Results(ins), t.path)))
    ensures var check, r := CheckOf(lib, claims, t, At(Results(ins), t.path)), At(Results(ins), t.path);
            && r.Some? && r.value.Rendered? && RenderedEvidence(check)
            && check.visibleTextDigest == Some(Sha(OfText(r.value.text)))
            && check.path == t.path && check.expectedStatus == t.expectedStatus && check.actualStatus == Some(t.expectedStatus)
            && check.expectedText == t.bodyIncludes && check.missingText == [] && check.error.None? && check.nonHtmlMediaType.None?
  {
    var r := At(Results(ins), t.path);
    assert Results(ins)[..|ins|] == Results(ins);
    if r.Some? && r.value.Rendered? { RenderedHasTiles(ins, |ins|, t.path); }
  }

  // ----- The root -----

  lemma {:induction false} NoRoot(checks: seq<Check>)
    requires forall k :: 0 <= k < |checks| ==> !IsRootCheck(checks[k])
    ensures RootChecks(checks) == []
  {
    if checks != [] { NoRoot(checks[1..]); }
  }

  lemma RootIsRequested(c: Contract)
    ensures "/" in RequestedPaths(c) && NoDuplicates(RequestedPaths(c))
    ensures forall path :: path in RequestedPaths(c) <==> path in RequestedSet(c)
  {
    DistinctKeeps([], Map(PathOf, Targets(c)));
    assert Map(PathOf, Targets(c))[0] == "/";
    RequirementTargetsAre(c.requirements);
    forall path ensures path in Map(PathOf, Targets(c)) <==> path in RequestedSet(c) {
      if path in Map(PathOf, Targets(c)) && path != "/" {
        var n :| 0 <= n < |Targets(c)| && Map(PathOf, Targets(c))[n] == path;
        var t := Targets(c)[n];
        assert t in RequirementTargets(c.requirements);
        var j, i :| 0 <= j < |c.requirements| && 0 <= i < |c.requirements[j].verifiers| && VerifierTarget(c.requirements[j], i) == [t];
        assert path in HttpPaths(c.requirements[j]);
      }
      if path in RequestedSet(c) && path != "/" {
        var j :| 0 <= j < |c.requirements| && path in HttpPaths(c.requirements[j]);
        var r := c.requirements[j];
        var i :| 0 <= i < |r.verifiers| && r.verifiers[i].HttpVerifier? && r.verifiers[i].path == path;
        var t := VerifierTarget(r, i)[0];
        assert VerifierTarget(r, i) == [t] && t in RequirementTargets(c.requirements) && t in Targets(c);
        var n :| 0 <= n < |Targets(c)| && Targets(c)[n] == t;
        assert Map(PathOf, Targets(c))[n] == path;
      }
    }
  }

  /** Where the targets come from: the root, a requirement of the contract, or a new discovered route. */
  lemma TargetKinds(lib: Library, c: Contract, ins: seq<Inspection>, k: nat)
    requires WellFormed(c) && Inspectable(lib, c, ins) && k < |AllTargets(c, ins)|
    ensures var t := AllTargets(c, ins)[k];
            if k == 0 then t == ROOT
            else if k < |Targets(c)| then !t.discovered && Truthy(t.requirementId)
            else t == DiscoveredTarget(t.path) && t.path !in RequestedPaths(c)
  {
    var t := AllTargets(c, ins)[k];
    if 0 < k < |Targets(c)| {
      assert t in RequirementTargets(c.requirements);
      RequirementTargetsAre(c.requirements);
    } else if k >= |Targets(c)| {
      assert t in DiscoveredTargets(ins);
      DiscoveredIsNew(lib, c, ins, t);
    }
  }

  /** The checks are those of the targets, and they are settled. */
  ghost predicate Checked(lib: Library, claims: seq<string>, ins: seq<Inspection>, targets: seq<Target>, checks: seq<Check>) {
    && (forall k :: 0 <= k < |ins| ==> WellShaped(ins[k]))
    && |checks| == |targets|
    && (forall k :: 0 <= k < |targets| ==> CheckedAt(lib, claims, ins, targets[k], checks[k]))
  }

  ghost predicate CheckedAt(lib: Library, claims: seq<string>, ins: seq<Inspection>, t: Target, check: Check)
    requires forall k :: 0 <= k < |ins| ==> WellShaped(ins[k])
  {
    check == CheckOf(lib, claims, t, At(Results(ins), t.path)) && Settled(t, check)
  }

  lemma PassingIsChecked(lib: Library, c: Contract, ins: seq<Inspection>)
    requires Inspectable(lib, c, ins) && Inspect(lib, c, ins).status == Pass
    ensures Checked(lib, c.forbiddenClaims, ins, AllTargets(c, ins), Inspect(lib, c, ins).checks)
    ensures NoClaims(Inspect(lib, c, ins).checks)
  {
    PassingSettles(AllTargets(c, ins), Inspect(lib, c, ins).checks);
  }

  lemma RootPasses(lib: Library, claims: seq<string>, ins: seq<Inspection>, targets: seq<Target>, checks: seq<Check>)
    requires Checked(lib, claims, ins, targets, checks)
    requires targets != [] && targets[0] == ROOT
    requires forall k :: 0 < k < |targets| ==> Truthy(targets[k].requirementId) || targets[k].path != "/"
    ensures RootValid(checks)
  {
    assert CheckedAt(lib, claims, ins, ROOT, checks[0]);
    SettledIsRendered(lib, claims, ins, ROOT);
    forall k | 0 <= k < |checks[1..]| ensures !IsRootCheck(checks[1..][k]) {
      assert CheckedAt(lib, claims, ins, targets[k + 1], checks[k + 1]);
    }
    NoRoot(checks[1..]);
  }

  lemma RootPassesIfSettled(lib: Library, c: Contract, ins: seq<Inspection>)
    requires WellFormed(c) && Inspectable(lib, c, ins) && Inspect(lib, c, ins).status == Pass
    ensures RootValid(Inspect(lib, c, ins).checks)
  {
    var targets := AllTargets(c, ins);
    PassingIsChecked(lib, c, ins);
    RootIsRequested(c);
    forall k | 0 <= k < |targets|
      ensures k == 0 ==> targets[k] == ROOT
      ensures k > 0 ==> Truthy(targets[k].requirementId) || targets[k].path != "/"
    {
      TargetKinds(lib, c, ins, k);
    }
    RootPasses(lib, c.forbiddenClaims, ins, targets, Inspect(lib, c, ins).checks);
  }

  // ----- Routes -----

  /** The checks keep which targets are discovered routes, the last ones, and their paths. */
  ghost predicate RoutesKept(targets: seq<Target>, more: seq<Target>, checks: seq<Check>) {
    && |checks| == |targets + more|
    && forall k :: 0 <= k < |checks| ==> (checks[k].discovered <==> k >= |targets|) && checks[k].path == (targets + more)[k].path
  }

  lemma CheckKeeps(lib: Library, claims: seq<string>, t: Target, r: Option<PageResult>)
    ensures CheckOf(lib, claims, t, r).discovered == t.discovered && CheckOf(lib, claims, t, r).path == t.path
  {}

  lemma ChecksKeepRoutes(lib: Library, c: Contract, ins: seq<Inspection>)
    requires WellFormed(c) && Inspectable(lib, c, ins) && Inspect(lib, c, ins).status == Pass
    ensures RoutesKept(Targets(c), DiscoveredTargets(ins), Inspect(lib, c, ins).checks)
  {
    var targets, checks := AllTargets(c, ins), Inspect(lib, c, ins).checks;
    PassingIsChecked(lib, c, ins);
    forall k | 0 <= k < |checks|
      ensures (checks[k].discovered <==> k >= |Targets(c)|) && checks[k].path == targets[k].path
    {
      assert CheckedAt(lib, c.forbiddenClaims, ins, targets[k], checks[k]);
      CheckKeeps(lib, c.forbiddenClaims, targets[k], At(Results(ins), targets[k].path));
      TargetKinds(lib, c, ins, k);
    }
  }

  lemma DiscoveredCheckIsValid(lib: Library, claims: seq<string>, ins: seq<Inspection>, t: Target, check: Check, requested: set<string>)
    requires forall k :: 0 <= k < |ins| ==> WellShaped(ins[k])
    requires CheckedAt(lib, claims, ins, t, check) && t == DiscoveredTarget(t.path) && t.path !in requested
    ensures DiscoveredValid(check, requested)
  {
    SettledIsRendered(lib, claims, ins, t);
  }

  lemma RouteIsValid(lib: Library, c: Contract, ins: seq<Inspection>, k: nat)
    requires WellFormed(c) && Inspectable(lib, c, ins) && Inspect(lib, c, ins).status == Pass
    requires k < |AllTargets(c, ins)|
    ensures RouteValid(Inspect(lib, c, ins).checks, RequestedSet(c), k)
  {
    var targets, checks := AllTargets(c, ins), Inspect(lib, c, ins).checks;
    PassingIsChecked(lib, c, ins);
    assert CheckedAt(lib, c.forbiddenClaims, ins, targets[k], checks[k]);
    TargetKinds(lib, c, ins, k);
    if k >= |Targets(c)| {
      RootIsRequested(c);
      DiscoveredCheckIsValid(lib, c.forbiddenClaims, ins, targets[k], checks[k], RequestedSet(c));
      ChecksKeepRoutes(lib, c, ins);
      AcceptedPaths(lib, c, ins);
      NewRoute(Targets(c), DiscoveredTargets(ins), RequestedPaths(c), checks, k);
    }
  }

  /** The paths of the discovered routes are all different. */
  lemma NewRoute(targets: seq<Target>, more: seq<Target>, requested: seq<string>, checks: seq<Check>, k: nat)
    requires NoDuplicates(requested + Map(PathOf, more)) && RoutesKept(targets, more, checks)
    requires |targets| <= k < |checks|
    ensures checks[k].path !in DiscoveredPaths(checks[..k])
  {
    var paths := requested + Map(PathOf, more);
    forall j | 0 <= j < k && checks[..k][j].discovered ensures checks[..k][j].path != checks[k].path {
      assert checks[..k][j] == checks[j];
      assert paths[|requested| + j - |targets|] == checks[j].path && paths[|requested| + k - |targets|] == checks[k].path;
    }
  }

  lemma CountRoutes(targets: seq<Target>, more: seq<Target>, requested: seq<string>, checks: seq<Check>)
    requires RoutesKept(targets, more, checks)
    ensures |set path | path in requested| + |DiscoveredPaths(checks)| <= |requested| + |more|
  {
    SetAtMost(requested);
    var paths := Map(PathOf, more);
    forall path | path in DiscoveredPaths(checks) ensures path in paths {
      var k :| 0 <= k < |checks| && checks[k].discovered && checks[k].path == path;
      assert paths[k - |targets|] == path;
    }
    SubsetSize(DiscoveredPaths(checks), set path | path in paths);
    SetAtMost(paths);
  }

  lemma RouteCount(lib: Library, c: Contract, ins: seq<Inspection>)
    requires WellFormed(c) && Inspectable(lib, c, ins) && Inspect(lib, c, ins).status == Pass
    ensures |RequestedSet(c)| + |DiscoveredPaths(Inspect(lib, c, ins).checks)| <= MAX_RENDERED_ROUTES
  {
    RootIsRequested(c);
    AcceptedPaths(lib, c, ins);
    ChecksKeepRoutes(lib, c, ins);
    CountRoutes(Targets(c), DiscoveredTargets(ins), RequestedPaths(c), Inspect(lib, c, ins).checks);
    assert RequestedSet(c) == set path | path in RequestedPaths(c);
    assert |RequestedPaths(c) + Map(PathOf, DiscoveredTargets(ins))| == |ins|;
  }

  lemma RoutesPassIfSettled(lib: Library, c: Contract, ins: seq<Inspection>)
    requires WellFormed(c) && Inspectable(lib, c, ins) && Inspect(lib, c, ins).status == Pass
    ensures RoutesValid(c, Inspect(lib, c, ins).checks)
  {
    var checks := Inspect(lib, c, ins).checks;
    forall k | 0 <= k < |checks| ensures RouteValid(checks, RequestedSet(c), k) { RouteIsValid(lib, c, ins, k); }
    RouteCount(lib, c, ins);
  }

  // ----- HTTP verifiers -----

  predicate HasKey(check: Check, id: string, index: nat) {
    check.requirementId == Some(id) && check.verifierIndex == Some(index)
  }

  lemma {:induction false} OneVerifierCheck(checks: seq<Check>, id: string, index: nat, at: nat)
    requires at < |checks| && HasKey(checks[at], id, index)
    requires forall k :: 0 <= k < |checks| && k != at ==> !HasKey(checks[k], id, index)
    ensures VerifierChecks(checks, id, index) == [checks[at]]
  {
    if at == 0 {
      NoVerifierCheck(checks[1..], id, index);
    } else {
      OneVerifierCheck(checks[1..], id, index, at - 1);
    }
  }

  lemma {:induction false} NoVerifierCheck(checks: seq<Check>, id: string, index: nat)
    requires forall k :: 0 <= k < |checks| ==> !HasKey(checks[k], id, index)
    ensures VerifierChecks(checks, id, index) == []
  {
    if checks != [] { NoVerifierCheck(checks[1..], id, index); }
  }

  /** An HTTP verifier has one target. */
  lemma VerifierHasOneTarget(lib: Library, c: Contract, ins: seq<Inspection>, j: nat, i: nat) returns (at: nat)
    requires WellFormed(c) && Inspectable(lib, c, ins)
    requires j < |c.requirements| && i < |c.requirements[j].verifiers| && c.requirements[j].verifiers[i].HttpVerifier?
    ensures at < |AllTargets(c, ins)| && [AllTargets(c, ins)[at]] == VerifierTarget(c.requirements[j], i)
    ensures forall k :: 0 <= k < |AllTargets(c, ins)| && k != at ==> Key(AllTargets(c, ins)[k]) != (Some(c.requirements[j].id), Some(i))
  {
    var rs, targets := c.requirements, AllTargets(c, ins);
    RequirementKeys(rs);
    var n := TargetPlace(rs, j, i);
    at := n + 1;
    forall k | 0 <= k < |targets| && k != at ensures Key(targets[k]) != (Some(rs[j].id), Some(i)) {
      TargetKinds(lib, c, ins, k);
      if 0 < k < |Targets(c)| { assert targets[k] == RequirementTargets(rs)[k - 1]; }
    }
  }

  lemma TargetPlace(rs: seq<Requirement>, j: nat, i: nat) returns (n: nat)
    requires j < |rs| && i < |rs[j].verifiers| && rs[j].verifiers[i].HttpVerifier?
    ensures n < |RequirementTargets(rs)| && VerifierTarget(rs[j], i) == [RequirementTargets(rs)[n]]
    ensures Key(RequirementTargets(rs)[n]) == (Some(rs[j].id), Some(i))
  {
    var t := VerifierTarget(rs[j], i)[0];
    RequirementTargetsAre(rs);
    assert VerifierTarget(rs[j], i) == [t];
    n :| 0 <= n < |RequirementTargets(rs)| && RequirementTargets(rs)[n] == t;
  }

  /** The page reference the evaluator offers for a rendered path is the one the gate looks for. */
  lemma {:induction false} PageRefOfRendered(results: seq<(string, PageResult)>, path: string)
    requires At(results, path).Some? && At(results, path).value.Rendered?
    ensures PageRefAt(PagesOf(results), path) == Some(PageRef(path, Sha(OfText(At(results, path).value.text))))
  {
    var front, last := results[..|results| - 1], results[|results| - 1];
    if last.1.Rendered? {
      assert PagesOf(results)[..|PagesOf(results)| - 1] == PagesOf(front);
    } else {
      EmptyConcat(PagesOf(front));
    }
    if last.0 != path { PageRefOfRendered(front, path); }
  }

  /** A hard HTTP verifier of a passing preview passes at the gate, when its page is cited. */
  lemma HttpVerifierPasses(lib: Library, c: Contract, ins: seq<Inspection>, results: seq<Evaluation>, j: nat, i: nat)
    requires WellFormed(c) && Inspectable(lib, c, ins) && Inspect(lib, c, ins).status == Pass
    requires j < |c.requirements| && i < |c.requirements[j].verifiers|
    requires c.requirements[j].hard && c.requirements[j].verifiers[i].HttpVerifier?
    requires var v := c.requirements[j].verifiers[i];
             PageRefAt(Inspect(lib, c, ins).pages, v.path).Some? ==>
               PageRefAt(Inspect(lib, c, ins).pages, v.path).value in Cited(results, c.requirements[j].id)
    ensures var v := c.requirements[j].verifiers[i];
            HttpPasses(Inspect(lib, c, ins).checks, results, c.requirements[j].id, i, v.path, v.expectedStatus, v.bodyIncludes)
  {
    var targets, r := AllTargets(c, ins), c.requirements[j];
    PassingIsChecked(lib, c, ins);
    var at := VerifierHasOneTarget(lib, c, ins, j, i);
    OneTargetPasses(lib, c.forbiddenClaims, ins, targets, Inspect(lib, c, ins).checks, results, r, i, at);
  }

  lemma KeyKept(lib: Library, claims: seq<string>, t: Target, r: Option<PageResult>, id: string, index: nat)
    requires id != ""
    ensures HasKey(CheckOf(lib, claims, t, r), id, index) <==> Key(t) == (Some(id), Some(index))
  {}

  lemma OneTargetPasses(lib: Library, claims: seq<string>, ins: seq<Inspection>, targets: seq<Target>, checks: seq<Check>,
                        results: seq<Evaluation>, r: Requirement, i: nat, at: nat)
    requires Checked(lib, claims, ins, targets, checks) && at < |targets|
    requires r.id != "" && r.hard && i < |r.verifiers| && r.verifiers[i].HttpVerifier? && [targets[at]] == VerifierTarget(r, i)
    requires forall k :: 0 <= k < |targets| && k != at ==> Key(targets[k]) != (Some(r.id), Some(i))
    requires var path := r.verifiers[i].path;
             PageRefAt(PagesOf(Results(ins)), path).Some? ==> PageRefAt(PagesOf(Results(ins)), path).value in Cited(results, r.id)
    ensures var v := r.verifiers[i];
            HttpPasses(checks, results, r.id, i, v.path, v.expectedStatus, v.bodyIncludes)
  {
    var t := targets[at];
    forall k | 0 <= k < |checks| ensures HasKey(checks[k], r.id, i) <==> k == at {
      assert CheckedAt(lib, claims, ins, targets[k], checks[k]);
      KeyKept(lib, claims, targets[k], At(Results(ins), targets[k].path), r.id, i);
    }
    OneVerifierCheck(checks, r.id, i, at);
    assert CheckedAt(lib, claims, ins, t, checks[at]);
    SettledIsRendered(lib, claims, ins, t);
    PageRefOfRendered(Results(ins), t.path);
  }
}
