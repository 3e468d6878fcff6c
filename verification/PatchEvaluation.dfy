/**
 The evaluation matrix of patch models (src/application/patch-model-evaluation.ts): which trials make a
 matrix, and when a candidate model is eligible for promotion.

 Arithmetic is over the reals (Statistics). Signatures and the comparison of pinned fields are one flag of a
 trial.
 */
module PatchEvaluation {
  import opened Wrappers
  import opened Text
  import opened Lists
  import opened Statistics
  import CanonicalJson

  type Id = Utf16

  datatype Role = Base | Candidate | Baseline

  datatype Component =
    | ProofGate | Privacy | Build | Tests | RequestedChange | PriorRequirements | Accessibility | Performance
    | SupportedClaims | MinimalPatch

  datatype Model = Model(
    role: Role, name: Id, resource: Id, experiment: Id, comparison: Option<Id>, returnedResource: Id)

  /** `passed` are the components that scored 1. */
  datatype Trial = Trial(
    model: Id, caseId: Id, index: nat, seed: nat, attested: bool, terminal: real, passed: set<Component>)

  datatype Matrix = Matrix(
    models: seq<Model>, trials: seq<Trial>, recordCount: nat, trialsPerCase: nat,
    minimumTerminal: real, minimumPaired: real)

  const MINIMUM_CASES: nat := 20

  // ----- Models -----

  function WithRole(models: seq<Model>, role: Role): seq<Model> {
    if models == [] then [] else (if models[0].role == role then [models[0]] else []) + WithRole(models[1..], role)
  }

  function ResourceOf(m: Model): Id { m.resource }
  function NameOf(m: Model): Id { m.name }
  function ExperimentOf(m: Model): Id { m.experiment }

  /** selectModels accepts: one base, one candidate, some baselines, all distinct and pinned to the base. */
  ghost predicate Pinned(models: seq<Model>) {
    && |WithRole(models, Base)| == 1 && |WithRole(models, Candidate)| == 1 && |WithRole(models, Baseline)| >= 1
    && NoDuplicates(Map(NameOf, models)) && NoDuplicates(Map(ResourceOf, models)) && NoDuplicates(Map(ExperimentOf, models))
    && WithRole(models, Base)[0].comparison.None?
    && (forall i :: 0 <= i < |models| && models[i].role != Base ==> models[i].comparison == Some(WithRole(models, Base)[0].experiment))
    && (forall i :: 0 <= i < |models| ==> models[i].returnedResource == models[i].resource)
  }

  predicate Unique(ids: seq<Id>) { |set id | id in ids| == |ids| }

  method SelectModels(models: seq<Model>) returns (ok: bool)
    ensures ok <==> Pinned(models)
  {
    var bases, candidates, baselines := WithRole(models, Base), WithRole(models, Candidate), WithRole(models, Baseline);
    if |bases| != 1 || |candidates| != 1 || |baselines| < 1 { return false; }
    SetSizeTells(Map(NameOf, models));
    SetSizeTells(Map(ResourceOf, models));
    SetSizeTells(Map(ExperimentOf, models));
    if !Unique(Map(NameOf, models)) || !Unique(Map(ResourceOf, models)) || !Unique(Map(ExperimentOf, models)) { return false; }
    if bases[0].comparison.Some? { return false; }
    if exists i :: 0 <= i < |models| && models[i].role != Base && models[i].comparison != Some(bases[0].experiment) { return false; }
    if exists i :: 0 <= i < |models| && models[i].returnedResource != models[i].resource { return false; }
    return true;
  }

  // ----- Trials -----

  function OfModel(trials: seq<Trial>, resource: Id): seq<Trial> {
    if trials == [] then [] else (if trials[0].model == resource then [trials[0]] else []) + OfModel(trials[1..], resource)
  }

  function OfCase(trials: seq<Trial>, caseId: Id): seq<Trial> {
    if trials == [] then [] else (if trials[0].caseId == caseId then [trials[0]] else []) + OfCase(trials[1..], caseId)
  }

  function CaseOf(t: Trial): Id { t.caseId }

  /** The case ids, sorted. */
  function CaseIds(trials: seq<Trial>): seq<Id> { CanonicalJson.Sort(Distinct(Map(CaseOf, trials))) }

  function Keys(trials: seq<Trial>): set<(Id, nat)> { set t | t in trials :: (t.caseId, t.index) }

  function IndicesOf(trials: seq<Trial>): set<nat> { set t | t in trials :: t.index }

  lemma {:induction false} OfModelHolds(trials: seq<Trial>, resource: Id)
    ensures forall t :: t in OfModel(trials, resource) <==> t in trials && t.model == resource
  {
    if trials != [] {
      assert trials == [trials[0]] + trials[1..];
      OfModelHolds(trials[1..], resource);
    }
  }

  lemma {:induction false} OfCaseHolds(trials: seq<Trial>, caseId: Id)
    ensures forall t :: t in OfCase(trials, caseId) <==> t in trials && t.caseId == caseId
  {
    if trials != [] {
      assert trials == [trials[0]] + trials[1..];
      OfCaseHolds(trials[1..], caseId);
    }
  }

  lemma CaseIdsAre(trials: seq<Trial>)
    ensures NoDuplicates(CaseIds(trials)) && CanonicalJson.Sorted(CaseIds(trials))
    ensures forall c :: c in CaseIds(trials) <==> exists t :: t in trials && t.caseId == c
  {
    var distinct := Distinct(Map(CaseOf, trials));
    DistinctKeeps([], Map(CaseOf, trials));
    CanonicalJson.SortSorts(distinct);
    var sorted := CanonicalJson.Sort(distinct);
    forall i, j | 0 <= i < j < |sorted| ensures sorted[i] != sorted[j] { CanonicalJson.LessIsStrict(sorted[i], sorted[i]); }
    forall c ensures c in CaseIds(trials) <==> exists t :: t in trials && t.caseId == c {
      if c in Map(CaseOf, trials) {
        var k :| 0 <= k < |trials| && Map(CaseOf, trials)[k] == c;
        assert trials[k] in trials;
      }
      if t :| t in trials && t.caseId == c {
        var k :| 0 <= k < |trials| && trials[k] == t;
        assert Map(CaseOf, trials)[k] == c;
      }
    }
  }

  // ----- The grid -----

  function Reference(x: Matrix): seq<Trial>
    requires x.models != []
  {
    OfModel(x.trials, x.models[0].resource)
  }

  function Cases(x: Matrix): seq<Id>
    requires x.models != []
  {
    CaseIds(Reference(x))
  }

  predicate Known(models: seq<Model>, resource: Id) {
    exists i :: 0 <= i < |models| && models[i].resource == resource
  }

  predicate SameKey(t: Trial, u: Trial) { t.model == u.model && t.caseId == u.caseId && t.index == u.index }

  ghost predicate Admitted(x: Matrix, n: nat)
    requires n <= |x.trials|
  {
    && (forall i :: 0 <= i < n ==> x.trials[i].attested && Known(x.models, x.trials[i].model))
    && (forall i, j :: 0 <= i < j < n ==> !SameKey(x.trials[i], x.trials[j]))
  }

  function UpTo(n: nat): (s: set<nat>)
    ensures forall i :: i in s <==> 0 <= i < n
  {
    if n == 0 then {} else UpTo(n - 1) + {n - 1}
  }

  /** The trials of a case are numbered from 0 on. */
  predicate Contiguous(trials: seq<Trial>, n: nat) { |trials| == n && IndicesOf(trials) == UpTo(n) }

  ghost predicate CoversCases(x: Matrix, i: nat)
    requires i < |x.models|
  {
    var trials := OfModel(x.trials, x.models[i].resource);
    && Keys(trials) == Keys(Reference(x))
    && forall c :: 0 <= c < |Cases(x)| ==> Contiguous(OfCase(trials, Cases(x)[c]), x.trialsPerCase)
  }

  ghost predicate Paired(x: Matrix)
    requires x.models != []
  {
    forall t, u :: t in Reference(x) && u in x.trials && t.caseId == u.caseId && t.index == u.index ==> t.seed == u.seed
  }

  ghost predicate SeedsUnique(trials: seq<Trial>) {
    forall i, j :: 0 <= i < j < |trials| ==> trials[i].seed != trials[j].seed
  }

  /** validateTrials accepts. */
  ghost predicate ValidGrid(x: Matrix) {
    && x.models != [] && Admitted(x, |x.trials|)
    && |Cases(x)| == x.recordCount
    && (forall i :: 0 <= i < |x.models| ==> CoversCases(x, i))
    && Paired(x) && SeedsUnique(Reference(x))
  }

  method CheckTrials(x: Matrix) returns (ok: bool)
    ensures ok <==> Admitted(x, |x.trials|)
  {
    var seen: set<(Id, Id, nat)> := {};
    for i := 0 to |x.trials|
      invariant Admitted(x, i)
      invariant forall j :: 0 <= j < i ==> (x.trials[j].model, x.trials[j].caseId, x.trials[j].index) in seen
      invariant forall k :: k in seen ==> exists j :: 0 <= j < i && (x.trials[j].model, x.trials[j].caseId, x.trials[j].index) == k
    {
      var t := x.trials[i];
      if !t.attested || !Known(x.models, t.model) { return false; }
      if (t.model, t.caseId, t.index) in seen { return false; }
      seen := seen + {(t.model, t.caseId, t.index)};
    }
    return true;
  }

  method CheckCoverage(x: Matrix) returns (ok: bool)
    requires x.models != []
    ensures ok <==> forall i :: 0 <= i < |x.models| ==> CoversCases(x, i)
  {
    var referenceKeys, cases := Keys(Reference(x)), Cases(x);
    for i := 0 to |x.models|
      invariant forall j :: 0 <= j < i ==> CoversCases(x, j)
    {
      var trials := OfModel(x.trials, x.models[i].resource);
      assert CoversCases(x, i) <==>
             Keys(trials) == referenceKeys && forall d :: 0 <= d < |cases| ==> Contiguous(OfCase(trials, cases[d]), x.trialsPerCase);
      if Keys(trials) != referenceKeys { return false; }
      for c := 0 to |cases|
        invariant forall d :: 0 <= d < c ==> Contiguous(OfCase(trials, cases[d]), x.trialsPerCase)
      {
        if !Contiguous(OfCase(trials, cases[c]), x.trialsPerCase) { return false; }
      }
    }
    return true;
  }

  method CheckSeeds(x: Matrix) returns (ok: bool)
    requires x.models != []
    ensures ok <==> Paired(x) && SeedsUnique(Reference(x))
  {
    var reference := Reference(x);
    var seeds: set<nat> := {};
    for i := 0 to |reference|
      invariant forall j, u :: 0 <= j < i && u in x.trials && reference[j].caseId == u.caseId && reference[j].index == u.index ==>
                  reference[j].seed == u.seed
      invariant forall j, k :: 0 <= j < k < i ==> reference[j].seed != reference[k].seed
      invariant seeds == set j | 0 <= j < i :: reference[j].seed
    {
      var t := reference[i];
      assert t in reference;
      if exists u :: u in x.trials && t.caseId == u.caseId && t.index == u.index && t.seed != u.seed { return false; }
      if t.seed in seeds { return false; }
      seeds := seeds + {t.seed};
    }
    return true;
  }

  method ValidateTrials(x: Matrix) returns (ok: bool)
    requires x.models != []
    ensures ok <==> ValidGrid(x)
  {
    ok := CheckTrials(x);
    if !ok || |Cases(x)| != x.recordCount { return false; }
    ok := CheckCoverage(x);
    if !ok { return false; }
    ok := CheckSeeds(x);
  }

  // ----- The trials are exactly the grid -----

  /** Every place of the grid is taken once, and every trial stands in the grid. */
  lemma GridIsExact(x: Matrix, i: nat, c: Id, n: nat) returns (t: Trial)
    requires ValidGrid(x) && i < |x.models| && c in Cases(x) && n < x.trialsPerCase
    ensures t in x.trials && t.model == x.models[i].resource && t.caseId == c && t.index == n
    ensures forall u :: u in x.trials && SameKey(t, u) ==> u == t
  {
    var mine := OfModel(x.trials, x.models[i].resource);
    assert CoversCases(x, i);
    var k :| 0 <= k < |Cases(x)| && Cases(x)[k] == c;
    assert Contiguous(OfCase(mine, Cases(x)[k]), x.trialsPerCase);
    assert n in IndicesOf(OfCase(mine, c));
    t :| t in OfCase(mine, c) && t.index == n;
    OfCaseHolds(mine, c);
    OfModelHolds(x.trials, x.models[i].resource);
    forall u | u in x.trials && SameKey(t, u) ensures u == t {
      var a :| 0 <= a < |x.trials| && x.trials[a] == t;
      var b :| 0 <= b < |x.trials| && x.trials[b] == u;
      assert a == b;
    }
  }

  lemma TrialIsInGrid(x: Matrix, t: Trial)
    requires ValidGrid(x) && t in x.trials
    ensures t.caseId in Cases(x) && t.index < x.trialsPerCase
    ensures exists i :: 0 <= i < |x.models| && x.models[i].resource == t.model
  {
    var a :| 0 <= a < |x.trials| && x.trials[a] == t;
    assert Known(x.models, x.trials[a].model);
    var i :| 0 <= i < |x.models| && x.models[i].resource == t.model;
    assert CoversCases(x, i);
    var mine := OfModel(x.trials, t.model);
    OfModelHolds(x.trials, t.model);
    assert (t.caseId, t.index) in Keys(mine);
    assert (t.caseId, t.index) in Keys(Reference(x));
    var u :| u in Reference(x) && (u.caseId, u.index) == (t.caseId, t.index);
    CaseIdsAre(Reference(x));
    assert u in Reference(x) && u.caseId == t.caseId;
    assert t.caseId in CaseIds(Reference(x));
    var k :| 0 <= k < |Cases(x)| && Cases(x)[k] == t.caseId;
    OfCaseHolds(mine, t.caseId);
    assert Contiguous(OfCase(mine, Cases(x)[k]), x.trialsPerCase);
    assert t.index in IndicesOf(OfCase(mine, t.caseId));
  }

  lemma {:induction false} OfCaseCount(trials: seq<Trial>, cases: seq<Id>, n: nat)
    requires NoDuplicates(cases) && (forall t :: t in trials ==> t.caseId in cases)
    requires forall c :: c in cases ==> |OfCase(trials, c)| == n
    ensures |trials| == Times(|cases|, n)
    decreases |cases|
  {
    if trials != [] { assert trials[0] in trials; }
    if cases != [] {
      var others := NotOfCase(trials, cases[0]);
      SplitByCase(trials, cases[0]);
      assert cases == [cases[0]] + cases[1..];
      forall c | c in cases[1..] ensures |OfCase(others, c)| == n { OthersKeepCase(trials, cases[0], c); }
      OfCaseCount(others, cases[1..], n);
    }
  }

  /** Adding `n` up `m` times. */
  function Times(m: nat, n: nat): nat { if m == 0 then 0 else n + Times(m - 1, n) }

  lemma {:induction false} TimesIs(m: nat, n: nat)
    ensures Times(m, n) == m * n
  {
    if m > 0 { TimesIs(m - 1, n); }
  }

  function NotOfCase(trials: seq<Trial>, caseId: Id): seq<Trial> {
    if trials == [] then [] else (if trials[0].caseId == caseId then [] else [trials[0]]) + NotOfCase(trials[1..], caseId)
  }

  lemma {:induction false} SplitByCase(trials: seq<Trial>, caseId: Id)
    ensures |trials| == |OfCase(trials, caseId)| + |NotOfCase(trials, caseId)|
    ensures forall t :: t in NotOfCase(trials, caseId) <==> t in trials && t.caseId != caseId
  {
    if trials != [] {
      assert trials == [trials[0]] + trials[1..];
      SplitByCase(trials[1..], caseId);
    }
  }

  lemma {:induction false} OthersKeepCase(trials: seq<Trial>, gone: Id, caseId: Id)
    requires gone != caseId
    ensures OfCase(NotOfCase(trials, gone), caseId) == OfCase(trials, caseId)
  {
    if trials != [] {
      OthersKeepCase(trials[1..], gone, caseId);
      ConsTail(trials[0], NotOfCase(trials[1..], gone));
      EmptyConcat(NotOfCase(trials[1..], gone));
    }
  }

  function NotOfModel(trials: seq<Trial>, resource: Id): seq<Trial> {
    if trials == [] then [] else (if trials[0].model == resource then [] else [trials[0]]) + NotOfModel(trials[1..], resource)
  }

  lemma {:induction false} SplitByModel(trials: seq<Trial>, resource: Id)
    ensures |trials| == |OfModel(trials, resource)| + |NotOfModel(trials, resource)|
    ensures forall t :: t in NotOfModel(trials, resource) <==> t in trials && t.model != resource
  {
    if trials != [] {
      assert trials == [trials[0]] + trials[1..];
      SplitByModel(trials[1..], resource);
    }
  }

  lemma {:induction false} OthersKeepModel(trials: seq<Trial>, gone: Id, resource: Id)
    requires gone != resource
    ensures OfModel(NotOfModel(trials, gone), resource) == OfModel(trials, resource)
  {
    if trials != [] {
      OthersKeepModel(trials[1..], gone, resource);
      ConsTail(trials[0], NotOfModel(trials[1..], gone));
      EmptyConcat(NotOfModel(trials[1..], gone));
    }
  }

  lemma {:induction false} OfModelCount(trials: seq<Trial>, resources: seq<Id>, n: nat)
    requires NoDuplicates(resources) && (forall t :: t in trials ==> t.model in resources)
    requires forall r :: r in resources ==> |OfModel(trials, r)| == n
    ensures |trials| == Times(|resources|, n)
    decreases |resources|
  {
    if trials != [] { assert trials[0] in trials; }
    if resources != [] {
      var others := NotOfModel(trials, resources[0]);
      SplitByModel(trials, resources[0]);
      assert resources == [resources[0]] + resources[1..];
      forall r | r in resources[1..] ensures |OfModel(others, r)| == n { OthersKeepModel(trials, resources[0], r); }
      OfModelCount(others, resources[1..], n);
    }
  }

  /** Each model has as many trials as there are cases and repetitions. */
  lemma ModelCount(x: Matrix, i: nat)
    requires ValidGrid(x) && i < |x.models|
    ensures |OfModel(x.trials, x.models[i].resource)| == x.recordCount * x.trialsPerCase
  {
    var mine := OfModel(x.trials, x.models[i].resource);
    OfModelHolds(x.trials, x.models[i].resource);
    CaseIdsAre(Reference(x));
    assert CoversCases(x, i);
    forall t | t in mine ensures t.caseId in Cases(x) { TrialIsInGrid(x, t); }
    forall c | c in Cases(x) ensures |OfCase(mine, c)| == x.trialsPerCase {
      var k :| 0 <= k < |Cases(x)| && Cases(x)[k] == c;
      assert Contiguous(OfCase(mine, Cases(x)[k]), x.trialsPerCase);
    }
    OfCaseCount(mine, Cases(x), x.trialsPerCase);
    TimesIs(|Cases(x)|, x.trialsPerCase);
  }

  /** An accepted matrix has exactly models x cases x repetitions trials. */
  lemma GridCount(x: Matrix)
    requires ValidGrid(x) && NoDuplicates(Map(ResourceOf, x.models))
    ensures |x.trials| == |x.models| * (x.recordCount * x.trialsPerCase)
  {
    var resources := Map(ResourceOf, x.models);
    forall t | t in x.trials ensures t.model in resources {
      TrialIsInGrid(x, t);
      var i :| 0 <= i < |x.models| && x.models[i].resource == t.model;
      assert resources[i] == t.model;
    }
    forall r | r in resources ensures |OfModel(x.trials, r)| == x.recordCount * x.trialsPerCase {
      var i :| 0 <= i < |resources| && resources[i] == r;
      ModelCount(x, i);
    }
    OfModelCount(x.trials, resources, x.recordCount * x.trialsPerCase);
    TimesIs(|resources|, x.recordCount * x.trialsPerCase);
  }

  // ----- What an accepted matrix is, place by place -----

  predicate Stands(t: Trial, resource: Id, caseId: Id, n: nat) { t.model == resource && t.caseId == caseId && t.index == n }

  ghost predicate Taken(x: Matrix, resource: Id, caseId: Id, n: nat) {
    exists t :: t in x.trials && Stands(t, resource, caseId, n)
  }

  function CasesIn(trials: seq<Trial>): set<Id> { set t | t in trials :: t.caseId }

  predicate SamePlace(t: Trial, u: Trial) { t.caseId == u.caseId && t.index == u.index }

  /**
   The trials are attested, of the given models, and take each place of models x cases x repetitions once; there
   are as many cases as records; and two trials have one seed exactly when they are the same repetition of a case.
   */
  ghost predicate GridHolds(x: Matrix) {
    && x.models != []
    && (forall t :: t in x.trials ==> t.attested && Known(x.models, t.model) && t.index < x.trialsPerCase)
    && NoDuplicates(Map(KeyOf, x.trials))
    && (forall m, c, n: nat :: m in x.models && c in CasesIn(x.trials) && n < x.trialsPerCase ==> Taken(x, m.resource, c, n))
    && |CasesIn(x.trials)| == x.recordCount
    && (forall t, u :: t in x.trials && u in x.trials ==> (t.seed == u.seed <==> SamePlace(t, u)))
  }

  function IndexOf(t: Trial): nat { t.index }

  lemma {:induction false} UpToSize(n: nat)
    ensures |UpTo(n)| == n
  {
    if n > 0 { UpToSize(n - 1); }
  }

  lemma {:induction false} OfModelDistinct(trials: seq<Trial>, resource: Id)
    requires NoDuplicates(Map(KeyOf, trials))
    ensures NoDuplicates(Map(KeyOf, OfModel(trials, resource)))
  {
    if trials != [] {
      var rest, mine := trials[1..], OfModel(trials[1..], resource);
      assert Map(KeyOf, trials)[1..] == Map(KeyOf, rest);
      OfModelDistinct(rest, resource);
      OfModelHolds(rest, resource);
      if trials[0].model == resource {
        FirstIsApart(trials);
        MapCons(KeyOf, trials[0], mine);
        forall i | 0 <= i < |mine| ensures KeyOf(mine[i]) != KeyOf(trials[0]) { assert mine[i] in rest; }
      } else {
        EmptyConcat(mine);
      }
    }
  }

  lemma FirstIsApart(trials: seq<Trial>)
    requires trials != [] && NoDuplicates(Map(KeyOf, trials))
    ensures forall t :: t in trials[1..] ==> KeyOf(t) != KeyOf(trials[0])
  {
    forall t | t in trials[1..] ensures KeyOf(t) != KeyOf(trials[0]) {
      var i :| 1 <= i < |trials| && trials[i] == t;
      assert Map(KeyOf, trials)[0] != Map(KeyOf, trials)[i];
    }
  }

  lemma {:induction false} OfCaseDistinct(trials: seq<Trial>, caseId: Id)
    requires NoDuplicates(Map(KeyOf, trials))
    ensures NoDuplicates(Map(KeyOf, OfCase(trials, caseId)))
  {
    if trials != [] {
      var rest, mine := trials[1..], OfCase(trials[1..], caseId);
      assert Map(KeyOf, trials)[1..] == Map(KeyOf, rest);
      OfCaseDistinct(rest, caseId);
      OfCaseHolds(rest, caseId);
      if trials[0].caseId == caseId {
        FirstIsApart(trials);
        MapCons(KeyOf, trials[0], mine);
        forall i | 0 <= i < |mine| ensures KeyOf(mine[i]) != KeyOf(trials[0]) { assert mine[i] in rest; }
      } else {
        EmptyConcat(mine);
      }
    }
  }

  lemma IndicesDistinct(mine: seq<Trial>, resource: Id, caseId: Id)
    requires NoDuplicates(Map(KeyOf, mine)) && forall i :: 0 <= i < |mine| ==> mine[i].model == resource && mine[i].caseId == caseId
    ensures |IndicesOf(mine)| == |mine|
  {
    var indices := Map(IndexOf, mine);
    forall i, j | 0 <= i < j < |indices| ensures indices[i] != indices[j] {
      assert Map(KeyOf, mine)[i] != Map(KeyOf, mine)[j];
    }
    assert NoDuplicates(indices);
    forall n: nat ensures n in IndicesOf(mine) <==> n in indices { IndexIsListed(mine, n); }
    ListedOnce(IndicesOf(mine), indices);
  }

  /** Trials of one model and case, with distinct keys, are as many as their indices. */
  lemma IndicesCount(trials: seq<Trial>, resource: Id, caseId: Id)
    requires NoDuplicates(Map(KeyOf, trials))
    ensures var mine := OfCase(OfModel(trials, resource), caseId); |IndicesOf(mine)| == |mine|
  {
    var mine := OfCase(OfModel(trials, resource), caseId);
    OfModelDistinct(trials, resource);
    OfModelHolds(trials, resource);
    OfCaseDistinct(OfModel(trials, resource), caseId);
    OfCaseHolds(OfModel(trials, resource), caseId);
    forall i | 0 <= i < |mine| ensures mine[i].model == resource && mine[i].caseId == caseId { assert mine[i] in mine; }
    IndicesDistinct(mine, resource, caseId);
  }

  lemma IndexIsListed(trials: seq<Trial>, n: nat)
    ensures n in IndicesOf(trials) <==> n in Map(IndexOf, trials)
  {
    if t :| t in trials && t.index == n {
      var k :| 0 <= k < |trials| && trials[k] == t;
      assert Map(IndexOf, trials)[k] == n;
    }
    if n in Map(IndexOf, trials) {
      var k :| 0 <= k < |trials| && Map(IndexOf, trials)[k] == n;
      assert trials[k] in trials;
    }
  }

  /** The cases of the first model are all cases. */
  lemma CasesAre(x: Matrix)
    requires x.models != [] && forall t :: t in x.trials ==> t.caseId in Cases(x)
    ensures |Cases(x)| == |CasesIn(x.trials)| && forall c :: c in Cases(x) <==> c in CasesIn(x.trials)
  {
    CaseIdsAre(Reference(x));
    OfModelHolds(x.trials, x.models[0].resource);
    forall c ensures c in Cases(x) <==> c in CasesIn(x.trials) {
      if c in Cases(x) { var t :| t in Reference(x) && t.caseId == c; }
    }
    SetSizeTells(Cases(x));
    assert CasesIn(x.trials) == set c | c in Cases(x);
  }

  lemma ReferenceOf(x: Matrix, t: Trial) returns (r: Trial)
    requires ValidGrid(x) && t in x.trials
    ensures r in Reference(x) && SamePlace(r, t) && r.seed == t.seed
  {
    TrialIsInGrid(x, t);
    r := GridIsExact(x, 0, t.caseId, t.index);
    OfModelHolds(x.trials, x.models[0].resource);
  }

  lemma SeedsTell(x: Matrix, t: Trial, u: Trial)
    requires ValidGrid(x) && t in x.trials && u in x.trials
    ensures t.seed == u.seed <==> SamePlace(t, u)
  {
    var r := ReferenceOf(x, t);
    var s := ReferenceOf(x, u);
    var i :| 0 <= i < |Reference(x)| && Reference(x)[i] == r;
    var j :| 0 <= j < |Reference(x)| && Reference(x)[j] == s;
    OfModelHolds(x.trials, x.models[0].resource);
    if t.seed == u.seed { assert i == j; }
  }

  lemma ValidGridHolds(x: Matrix)
    requires ValidGrid(x)
    ensures GridHolds(x)
  {
    AdmittedIs(x);
    forall t | t in x.trials ensures t.caseId in Cases(x) && t.index < x.trialsPerCase { TrialIsInGrid(x, t); }
    CasesAre(x);
    forall m, c, n: nat | m in x.models && c in CasesIn(x.trials) && n < x.trialsPerCase ensures Taken(x, m.resource, c, n) {
      var i :| 0 <= i < |x.models| && x.models[i] == m;
      var t := GridIsExact(x, i, c, n);
      assert Stands(t, m.resource, c, n);
    }
    forall t, u | t in x.trials && u in x.trials ensures t.seed == u.seed <==> SamePlace(t, u) { SeedsTell(x, t, u); }
  }

  lemma GridKeys(x: Matrix, m: Model, p: (Id, nat))
    requires GridHolds(x) && m in x.models
    ensures p in Keys(OfModel(x.trials, m.resource)) <==> p.0 in CasesIn(x.trials) && p.1 < x.trialsPerCase
  {
    OfModelHolds(x.trials, m.resource);
    if p.0 in CasesIn(x.trials) && p.1 < x.trialsPerCase {
      assert Taken(x, m.resource, p.0, p.1);
      var t :| t in x.trials && Stands(t, m.resource, p.0, p.1);
      assert t in OfModel(x.trials, m.resource) && (t.caseId, t.index) == p;
    }
  }

  lemma GridCovers(x: Matrix, i: nat)
    requires GridHolds(x) && i < |x.models| && forall c :: c in Cases(x) ==> c in CasesIn(x.trials)
    ensures CoversCases(x, i)
  {
    var m := x.models[i];
    var mine := OfModel(x.trials, m.resource);
    forall p ensures p in Keys(mine) <==> p in Keys(Reference(x)) {
      GridKeys(x, m, p);
      GridKeys(x, x.models[0], p);
    }
    assert Keys(mine) == Keys(Reference(x));
    forall k | 0 <= k < |Cases(x)| ensures Contiguous(OfCase(mine, Cases(x)[k]), x.trialsPerCase) {
      assert Cases(x)[k] in Cases(x);
      CaseIsContiguous(x, m, Cases(x)[k]);
    }
  }

  lemma CaseIsContiguous(x: Matrix, m: Model, c: Id)
    requires GridHolds(x) && m in x.models && c in CasesIn(x.trials)
    ensures Contiguous(OfCase(OfModel(x.trials, m.resource), c), x.trialsPerCase)
  {
    var mine := OfModel(x.trials, m.resource);
    OfModelHolds(x.trials, m.resource);
    OfCaseHolds(mine, c);
    forall n: nat ensures n in IndicesOf(OfCase(mine, c)) <==> n in UpTo(x.trialsPerCase) {
      if n < x.trialsPerCase {
        assert Taken(x, m.resource, c, n);
        var t :| t in x.trials && Stands(t, m.resource, c, n);
        assert t in OfCase(mine, c);
      }
    }
    IndicesCount(x.trials, m.resource, c);
    UpToSize(x.trialsPerCase);
    assert IndicesOf(OfCase(mine, c)) == UpTo(x.trialsPerCase);
  }

  lemma HoldingCasesAreListed(x: Matrix)
    requires GridHolds(x)
    ensures forall t :: t in x.trials ==> t.caseId in Cases(x)
  {
    var resource := x.models[0].resource;
    OfModelHolds(x.trials, resource);
    CaseIdsAre(Reference(x));
    forall t | t in x.trials ensures t.caseId in Cases(x) {
      assert x.models[0] in x.models && t.caseId in CasesIn(x.trials);
      assert Taken(x, resource, t.caseId, t.index);
      var u :| u in x.trials && Stands(u, resource, t.caseId, t.index);
      assert u in Reference(x);
    }
  }

  lemma HoldingSeeds(x: Matrix)
    requires GridHolds(x)
    ensures Paired(x) && SeedsUnique(Reference(x))
  {
    var reference := Reference(x);
    OfModelDistinct(x.trials, x.models[0].resource);
    OfModelHolds(x.trials, x.models[0].resource);
    forall i, j | 0 <= i < j < |reference| ensures reference[i].seed != reference[j].seed {
      assert reference[i] in reference && reference[j] in reference;
      assert Map(KeyOf, reference)[i] != Map(KeyOf, reference)[j];
    }
    forall t, u | t in reference && u in x.trials && t.caseId == u.caseId && t.index == u.index ensures t.seed == u.seed {
      assert SamePlace(t, u);
    }
  }

  lemma HoldingGridIsValid(x: Matrix)
    requires GridHolds(x)
    ensures ValidGrid(x)
  {
    AdmittedIs(x);
    HoldingCasesAreListed(x);
    CasesAre(x);
    forall i | 0 <= i < |x.models| ensures CoversCases(x, i) { GridCovers(x, i); }
    HoldingSeeds(x);
  }

  /** A matrix is accepted exactly when its trials are the grid, with a seed for each of its places. */
  lemma GridMeans(x: Matrix)
    ensures ValidGrid(x) <==> GridHolds(x)
  {
    if ValidGrid(x) { ValidGridHolds(x); }
    if GridHolds(x) { HoldingGridIsValid(x); }
  }

  // ----- Means -----

  function TerminalOf(t: Trial): real { t.terminal }

  /** Every case has a trial. */
  predicate Sampled(trials: seq<Trial>, cases: seq<Id>) {
    forall k :: 0 <= k < |cases| ==> OfCase(trials, cases[k]) != []
  }

  /** The mean score of one case. */
  function CaseMean(trials: seq<Trial>, caseId: Id): real
    requires OfCase(trials, caseId) != []
  {
    Mean(Map(TerminalOf, OfCase(trials, caseId)))
  }

  function CaseMeans(trials: seq<Trial>, cases: seq<Id>): (means: seq<real>)
    requires Sampled(trials, cases)
    ensures |means| == |cases| && forall k :: 0 <= k < |cases| ==> means[k] == CaseMean(trials, cases[k])
  {
    seq(|cases|, k requires 0 <= k < |cases| => CaseMean(trials, cases[k]))
  }

  lemma OwnCasesAreSampled(trials: seq<Trial>)
    ensures Sampled(trials, CaseIds(trials))
  {
    var cases := CaseIds(trials);
    CaseIdsAre(trials);
    forall k | 0 <= k < |cases| ensures OfCase(trials, cases[k]) != [] {
      assert cases[k] in cases;
      var t :| t in trials && t.caseId == cases[k];
      OfCaseHolds(trials, cases[k]);
      assert t in OfCase(trials, cases[k]);
    }
  }

  /** In an accepted matrix every model has trials of every case: no mean divides by zero. */
  lemma GridIsSampled(x: Matrix, i: nat)
    requires ValidGrid(x) && i < |x.models|
    ensures Sampled(OfModel(x.trials, x.models[i].resource), Cases(x))
  {
    var cases := Cases(x);
    assert CoversCases(x, i) && CoversCases(x, 0);
    OwnCasesAreSampled(Reference(x));
    forall k | 0 <= k < |cases| ensures OfCase(OfModel(x.trials, x.models[i].resource), cases[k]) != [] {
      assert Contiguous(OfCase(Reference(x), cases[k]), x.trialsPerCase);
      assert Contiguous(OfCase(OfModel(x.trials, x.models[i].resource), cases[k]), x.trialsPerCase);
    }
  }

  // ----- Eligibility -----

  function RoleModel(x: Matrix, role: Role): (m: Model)
    requires WithRole(x.models, role) != []
    ensures m in x.models && m.role == role
  {
    WithRoleIsListed(x.models, role);
    WithRole(x.models, role)[0]
  }

  function Baselines(x: Matrix): (models: seq<Model>)
    ensures forall m :: m in models ==> m in x.models
  {
    WithRoleIsListed(x.models, Baseline);
    WithRole(x.models, Baseline)
  }

  function TrialsOf(x: Matrix, m: Model): seq<Trial> { OfModel(x.trials, m.resource) }

  /** The cases of the base model, which are those of every model. */
  function BaseCases(x: Matrix): seq<Id>
    requires WithRole(x.models, Base) != []
  {
    CaseIds(TrialsOf(x, RoleModel(x, Base)))
  }

  /** There are a base, a candidate and a case, and every model has trials of every case. */
  ghost predicate Graded(x: Matrix) {
    && WithRole(x.models, Base) != [] && WithRole(x.models, Candidate) != [] && BaseCases(x) != []
    && forall m :: m in x.models ==> Sampled(TrialsOf(x, m), BaseCases(x))
  }

  function MeansOf(x: Matrix, m: Model): seq<real>
    requires WithRole(x.models, Base) != [] && Sampled(TrialsOf(x, m), BaseCases(x))
  {
    CaseMeans(TrialsOf(x, m), BaseCases(x))
  }

  const COMPONENTS: seq<Component> := [
    ProofGate, Privacy, Build, Tests, RequestedChange, PriorRequirements, Accessibility, Performance, SupportedClaims, MinimalPatch]

  predicate NotVetoed(trials: seq<Trial>, component: Component) {
    forall i :: 0 <= i < |trials| ==> component in trials[i].passed
  }

  /** The improvement of the candidate over another model, case by case. */
  function Improvement(x: Matrix, other: Model, root: real -> real): Interval
    requires Graded(x) && other in x.models
  {
    IntervalOf(Differences(MeansOf(x, RoleModel(x, Candidate)), MeansOf(x, other)), -1.0, 1.0, root)
  }

  predicate NotWorse(x: Matrix, other: Model, root: real -> real)
    requires Graded(x) && other in x.models
  {
    Improvement(x, other, root).lower >= 0.0
  }

  /** What eligibility stands for. */
  ghost predicate Eligible(x: Matrix, root: real -> real)
    requires Graded(x) && CandidateMeans(x) != []
  {
    && x.recordCount >= MINIMUM_CASES
    && IntervalOf(CandidateMeans(x), 0.0, 1.0, root).lower >= x.minimumTerminal
    && (forall i :: 0 <= i < |Baselines(x)| ==> NotWorse(x, Baselines(x)[i], root))
    && Improvement(x, RoleModel(x, Base), root).lower >= x.minimumPaired
    && forall k :: 0 <= k < |COMPONENTS| ==> NotVetoed(TrialsOf(x, RoleModel(x, Candidate)), COMPONENTS[k])
  }

  /** The means in the candidate's summary, over its own cases. */
  function CandidateMeans(x: Matrix): (means: seq<real>)
    requires WithRole(x.models, Candidate) != []
  {
    var trials := TrialsOf(x, RoleModel(x, Candidate));
    OwnCasesAreSampled(trials);
    CaseMeans(trials, CaseIds(trials))
  }

  lemma {:induction false} WithRoleIsListed(models: seq<Model>, role: Role)
    ensures forall m :: m in WithRole(models, role) ==> m in models && m.role == role
  {
    if models != [] {
      assert models == [models[0]] + models[1..];
      WithRoleIsListed(models[1..], role);
    }
  }

  /** Models with the same keys have the same cases. */
  lemma SameKeysSameCases(a: seq<Trial>, b: seq<Trial>)
    requires Keys(a) == Keys(b)
    ensures CaseIds(a) == CaseIds(b)
  {
    CaseIdsAre(a);
    CaseIdsAre(b);
    forall c ensures c in CaseIds(a) <==> c in CaseIds(b) {
      if t :| t in a && t.caseId == c {
        assert (t.caseId, t.index) in Keys(b);
        var u :| u in b && (u.caseId, u.index) == (t.caseId, t.index);
        assert u in b && u.caseId == c;
      }
      if t :| t in b && t.caseId == c {
        assert (t.caseId, t.index) in Keys(a);
        var u :| u in a && (u.caseId, u.index) == (t.caseId, t.index);
        assert u in a && u.caseId == c;
      }
    }
    CanonicalJson.SortedIsUnique(CaseIds(a), CaseIds(b));
  }

  /** In an accepted matrix the cases of the base are those of the matrix. */
  lemma GridIsGraded(x: Matrix)
    requires Pinned(x.models) && ValidGrid(x) && BaseCases(x) != []
    ensures Graded(x)
  {
    var base := RoleModel(x, Base);
    var i :| 0 <= i < |x.models| && x.models[i] == base;
    assert CoversCases(x, i);
    SameKeysSameCases(TrialsOf(x, base), Reference(x));
    forall m | m in x.models ensures Sampled(TrialsOf(x, m), BaseCases(x)) {
      var j :| 0 <= j < |x.models| && x.models[j] == m;
      GridIsSampled(x, j);
    }
  }

  /** In an accepted matrix the candidate's own cases are those of the base. */
  lemma CandidateHasBaseCases(x: Matrix)
    requires Pinned(x.models) && ValidGrid(x) && Graded(x)
    ensures CandidateMeans(x) == MeansOf(x, RoleModel(x, Candidate))
  {
    WithRoleIsListed(x.models, Base);
    WithRoleIsListed(x.models, Candidate);
    var base, candidate := RoleModel(x, Base), RoleModel(x, Candidate);
    assert base in x.models && candidate in x.models;
    var i :| 0 <= i < |x.models| && x.models[i] == base;
    var j :| 0 <= j < |x.models| && x.models[j] == candidate;
    assert CoversCases(x, i) && CoversCases(x, j);
    SameKeysSameCases(TrialsOf(x, base), TrialsOf(x, candidate));
  }

  datatype Reason = TooFewCases | TerminalTooLow | BaselineRegression(resource: Id) | PairedTooLow | Vetoed(component: Component)

  datatype Veto = Veto(caseId: Id, index: nat, component: Component)

  method FindVetoes(trials: seq<Trial>) returns (vetoes: seq<Veto>)
    ensures forall v :: v in vetoes <==>
              exists i, k :: 0 <= i < |trials| && 0 <= k < |COMPONENTS| && VetoAt(trials[i], COMPONENTS[k], v)
  {
    vetoes := [];
    for i := 0 to |trials|
      invariant forall v :: v in vetoes <==>
                  exists j, k :: 0 <= j < i && 0 <= k < |COMPONENTS| && VetoAt(trials[j], COMPONENTS[k], v)
    {
      for c := 0 to |COMPONENTS|
        invariant forall v :: v in vetoes <==>
                    || (exists j, k :: 0 <= j < i && 0 <= k < |COMPONENTS| && VetoAt(trials[j], COMPONENTS[k], v))
                    || (exists k :: 0 <= k < c && VetoAt(trials[i], COMPONENTS[k], v))
      {
        if COMPONENTS[c] !in trials[i].passed {
          vetoes := vetoes + [Veto(trials[i].caseId, trials[i].index, COMPONENTS[c])];
        }
      }
    }
  }

  predicate VetoAt(t: Trial, component: Component, v: Veto) {
    component !in t.passed && v == Veto(t.caseId, t.index, component)
  }

  /** evaluatePatchModelMatrix, up to its signed record; Failure is one of its exceptions. */
  method EvaluateMatrix(x: Matrix, root: real -> real) returns (r: Result<seq<Reason>>)
    ensures r.Success? <==> Pinned(x.models) && ValidGrid(x) && BaseCases(x) != []
    ensures r.Success? ==> Graded(x) && CandidateMeans(x) != [] && (r.value == [] <==> Eligible(x, root))
  {
    var selected := SelectModels(x.models);
    if !selected { return Failure; }
    PinnedIsNotEmpty(x.models);
    var valid := ValidateTrials(x);
    if !valid || BaseCases(x) == [] { return Failure; }
    GridIsGraded(x);
    CandidateHasBaseCases(x);
    var base, candidate, baselines := RoleModel(x, Base), RoleModel(x, Candidate), Baselines(x);
    var vetoes := FindVetoes(TrialsOf(x, candidate));
    var reasons: seq<Reason> := if x.recordCount < MINIMUM_CASES then [TooFewCases] else [];
    if IntervalOf(CandidateMeans(x), 0.0, 1.0, root).lower < x.minimumTerminal { reasons := reasons + [TerminalTooLow]; }
    var more := BaselineReasons(x, baselines, root);
    reasons := reasons + more;
    if Improvement(x, base, root).lower < x.minimumPaired { reasons := reasons + [PairedTooLow]; }
    more := VetoReasons(TrialsOf(x, candidate), vetoes);
    return Success(reasons + more);
  }

  lemma PinnedIsNotEmpty(models: seq<Model>)
    requires Pinned(models)
    ensures models != []
  {}

  predicate NoneWorse(x: Matrix, models: seq<Model>, n: nat, root: real -> real)
    requires n <= |models| && Graded(x) && forall m :: m in models ==> m in x.models
  {
    forall j :: 0 <= j < n ==> NotWorse(x, models[j], root)
  }

  lemma NoneWorseStep(x: Matrix, models: seq<Model>, n: nat, root: real -> real)
    requires n < |models| && Graded(x) && forall m :: m in models ==> m in x.models
    ensures NoneWorse(x, models, n + 1, root) <==> NoneWorse(x, models, n, root) && NotWorse(x, models[n], root)
  {}

  method BaselineReasons(x: Matrix, baselines: seq<Model>, root: real -> real) returns (reasons: seq<Reason>)
    requires Graded(x) && forall m :: m in baselines ==> m in x.models
    ensures reasons == [] <==> NoneWorse(x, baselines, |baselines|, root)
  {
    reasons := [];
    for i := 0 to |baselines|
      invariant reasons == [] <==> NoneWorse(x, baselines, i, root)
    {
      NoneWorseStep(x, baselines, i, root);
      if !NotWorse(x, baselines[i], root) { reasons := reasons + [BaselineRegression(baselines[i].resource)]; }
    }
  }

  method VetoReasons(trials: seq<Trial>, vetoes: seq<Veto>) returns (reasons: seq<Reason>)
    requires forall v :: v in vetoes <==>
               exists i, k :: 0 <= i < |trials| && 0 <= k < |COMPONENTS| && VetoAt(trials[i], COMPONENTS[k], v)
    ensures reasons == [] <==> forall k :: 0 <= k < |COMPONENTS| ==> NotVetoed(trials, COMPONENTS[k])
  {
    reasons := [];
    for k := 0 to |COMPONENTS|
      invariant reasons == [] <==> forall j :: 0 <= j < k ==> NotVetoed(trials, COMPONENTS[j])
    {
      VetoedTells(trials, vetoes, k);
      if exists v :: v in vetoes && v.component == COMPONENTS[k] { reasons := reasons + [Vetoed(COMPONENTS[k])]; }
    }
  }

  lemma VetoedTells(trials: seq<Trial>, vetoes: seq<Veto>, k: nat)
    requires k < |COMPONENTS|
    requires forall v :: v in vetoes <==>
               exists i, k :: 0 <= i < |trials| && 0 <= k < |COMPONENTS| && VetoAt(trials[i], COMPONENTS[k], v)
    ensures (exists v :: v in vetoes && v.component == COMPONENTS[k]) <==> !NotVetoed(trials, COMPONENTS[k])
  {
    if v :| v in vetoes && v.component == COMPONENTS[k] {
      var i, j :| 0 <= i < |trials| && 0 <= j < |COMPONENTS| && VetoAt(trials[i], COMPONENTS[j], v);
      assert COMPONENTS[k] !in trials[i].passed;
    }
    if i :| 0 <= i < |trials| && COMPONENTS[k] !in trials[i].passed {
      var v := Veto(trials[i].caseId, trials[i].index, COMPONENTS[k]);
      assert VetoAt(trials[i], COMPONENTS[k], v);
      assert v in vetoes;
    }
  }

  // ----- What eligibility guarantees -----

  /**
   An eligible candidate has every component at 1 in every trial of at least 20 cases; and up to half a unit of the
   twelfth decimal, its mean terminal score is at least the minimum, and above that of the base by the minimum
   improvement, and at least that of every baseline.
   */
  lemma EligibleMeans(x: Matrix, root: real -> real, b: nat)
    requires Graded(x) && CandidateMeans(x) != [] && IsRoot(root) && Eligible(x, root) && b < |Baselines(x)|
    ensures x.recordCount >= MINIMUM_CASES
    ensures forall t, component :: t in TrialsOf(x, RoleModel(x, Candidate)) ==> component in t.passed
    ensures Max(0.0, Mean(CandidateMeans(x))) * SCALE >= x.minimumTerminal * SCALE - 0.5
    ensures var means := MeansOf(x, RoleModel(x, Candidate));
            && Max(-1.0, Mean(means) - Mean(MeansOf(x, RoleModel(x, Base)))) * SCALE >= x.minimumPaired * SCALE - 0.5
            && (Mean(means) - Mean(MeansOf(x, Baselines(x)[b]))) * SCALE >= -0.5
  {
    var candidate, base, baseline := RoleModel(x, Candidate), RoleModel(x, Base), Baselines(x)[b];
    AllPass(x);
    LowerBoundBoundsMean(CandidateMeans(x), 0.0, 1.0, root, x.minimumTerminal);
    LowerBoundBoundsMean(Differences(MeansOf(x, candidate), MeansOf(x, base)), -1.0, 1.0, root, x.minimumPaired);
    PairedMean(MeansOf(x, candidate), MeansOf(x, base));
    assert NotWorse(x, baseline, root);
    LowerBoundBoundsMean(Differences(MeansOf(x, candidate), MeansOf(x, baseline)), -1.0, 1.0, root, 0.0);
    PairedMean(MeansOf(x, candidate), MeansOf(x, baseline));
  }

  /** No component is vetoed exactly when each is at 1 in every trial of the candidate. */
  lemma AllPass(x: Matrix)
    requires WithRole(x.models, Candidate) != []
    ensures var trials := TrialsOf(x, RoleModel(x, Candidate));
            (forall k :: 0 <= k < |COMPONENTS| ==> NotVetoed(trials, COMPONENTS[k])) <==>
            (forall t, component :: t in trials ==> component in t.passed)
  {
    var trials := TrialsOf(x, RoleModel(x, Candidate));
    if forall k :: 0 <= k < |COMPONENTS| ==> NotVetoed(trials, COMPONENTS[k]) {
      forall t, component | t in trials ensures component in t.passed {
        var k := PlaceOf(component);
        assert NotVetoed(trials, COMPONENTS[k]);
        var i :| 0 <= i < |trials| && trials[i] == t;
      }
    }
  }

  ghost predicate ClearsBySomeGap(values: seq<real>, minimum: real)
    requires values != []
  {
    exists gap :: Clears(values, minimum, gap)
  }

  /** A candidate that fails nothing and is above every minimum by more than its margins is eligible. */
  lemma ClearIsEligible(x: Matrix, root: real -> real)
    requires Graded(x) && CandidateMeans(x) != [] && IsRoot(root)
    requires x.recordCount >= MINIMUM_CASES
    requires forall t, component :: t in TrialsOf(x, RoleModel(x, Candidate)) ==> component in t.passed
    requires ClearsBySomeGap(CandidateMeans(x), x.minimumTerminal)
    requires ClearsBySomeGap(Differences(MeansOf(x, RoleModel(x, Candidate)), MeansOf(x, RoleModel(x, Base))), x.minimumPaired)
    requires forall m :: m in Baselines(x) ==> ClearsBySomeGap(Differences(MeansOf(x, RoleModel(x, Candidate)), MeansOf(x, m)), 0.0)
    ensures Eligible(x, root)
  {
    AllPass(x);
    var means := MeansOf(x, RoleModel(x, Candidate));
    var gap :| Clears(CandidateMeans(x), x.minimumTerminal, gap);
    ClearsBound(CandidateMeans(x), 0.0, 1.0, root, x.minimumTerminal, gap);
    gap :| Clears(Differences(means, MeansOf(x, RoleModel(x, Base))), x.minimumPaired, gap);
    ClearsBound(Differences(means, MeansOf(x, RoleModel(x, Base))), -1.0, 1.0, root, x.minimumPaired, gap);
    forall i | 0 <= i < |Baselines(x)| ensures NotWorse(x, Baselines(x)[i], root) {
      var values := Differences(means, MeansOf(x, Baselines(x)[i]));
      var gap :| Clears(values, 0.0, gap);
      ClearsBound(values, -1.0, 1.0, root, 0.0, gap);
    }
  }

  function PlaceOf(component: Component): (k: nat)
    ensures k < |COMPONENTS| && COMPONENTS[k] == component
  {
    match component
    case ProofGate => 0
    case Privacy => 1
    case Build => 2
    case Tests => 3
    case RequestedChange => 4
    case PriorRequirements => 5
    case Accessibility => 6
    case Performance => 7
    case SupportedClaims => 8
    case MinimalPatch => 9
  }

  // ----- The order of the trials does not matter -----

  lemma {:induction false} OfModelPermutes(a: seq<Trial>, b: seq<Trial>, resource: Id)
    requires Permuted(a, b)
    ensures Permuted(OfModel(a, resource), OfModel(b, resource))
    decreases |a|
  {
    PermutedHolds(a, b);
    if a != [] {
      var i := PermutedRest(a, b);
      OfModelPermutes(a[1..], b[..i] + b[i + 1..], resource);
      OfModelMiddle(b, i, resource);
    }
  }

  lemma {:induction false} OfModelMiddle(b: seq<Trial>, i: nat, resource: Id)
    requires i < |b|
    ensures multiset(OfModel(b, resource)) ==
            multiset(if b[i].model == resource then [b[i]] else []) + multiset(OfModel(b[..i] + b[i + 1..], resource))
  {
    if i == 0 {
      assert b[..0] + b[1..] == b[1..];
    } else {
      assert (b[..i] + b[i + 1..])[0] == b[0] && (b[..i] + b[i + 1..])[1..] == b[1..][..i - 1] + b[1..][i..];
      OfModelMiddle(b[1..], i - 1, resource);
    }
  }

  lemma {:induction false} OfCasePermutes(a: seq<Trial>, b: seq<Trial>, caseId: Id)
    requires Permuted(a, b)
    ensures Permuted(OfCase(a, caseId), OfCase(b, caseId))
    decreases |a|
  {
    PermutedHolds(a, b);
    if a != [] {
      var i := PermutedRest(a, b);
      OfCasePermutes(a[1..], b[..i] + b[i + 1..], caseId);
      OfCaseMiddle(b, i, caseId);
    }
  }

  lemma {:induction false} OfCaseMiddle(b: seq<Trial>, i: nat, caseId: Id)
    requires i < |b|
    ensures multiset(OfCase(b, caseId)) ==
            multiset(if b[i].caseId == caseId then [b[i]] else []) + multiset(OfCase(b[..i] + b[i + 1..], caseId))
  {
    if i == 0 {
      assert b[..0] + b[1..] == b[1..];
    } else {
      assert (b[..i] + b[i + 1..])[0] == b[0] && (b[..i] + b[i + 1..])[1..] == b[1..][..i - 1] + b[1..][i..];
      OfCaseMiddle(b[1..], i - 1, caseId);
    }
  }

  lemma {:induction false} SumMiddle(b: seq<real>, i: nat)
    requires i < |b|
    ensures Sum(b) == b[i] + Sum(b[..i] + b[i + 1..])
  {
    if i == 0 {
      assert b[..0] + b[1..] == b[1..];
    } else {
      assert (b[..i] + b[i + 1..])[0] == b[0] && (b[..i] + b[i + 1..])[1..] == b[1..][..i - 1] + b[1..][i..];
      SumMiddle(b[1..], i - 1);
    }
  }

  lemma {:induction false} SumPermutes(a: seq<real>, b: seq<real>)
    requires Permuted(a, b)
    ensures Sum(a) == Sum(b)
    decreases |a|
  {
    PermutedHolds(a, b);
    if a != [] {
      var i := PermutedRest(a, b);
      SumPermutes(a[1..], b[..i] + b[i + 1..]);
      SumMiddle(b, i);
    }
  }

  lemma CaseMeanPermutes(a: seq<Trial>, b: seq<Trial>, caseId: Id)
    requires Permuted(a, b) && OfCase(a, caseId) != []
    ensures OfCase(b, caseId) != [] && CaseMean(a, caseId) == CaseMean(b, caseId)
  {
    OfCasePermutes(a, b, caseId);
    MapPermutes(TerminalOf, OfCase(a, caseId), OfCase(b, caseId));
    PermutedHolds(OfCase(a, caseId), OfCase(b, caseId));
    SumPermutes(Map(TerminalOf, OfCase(a, caseId)), Map(TerminalOf, OfCase(b, caseId)));
  }

  lemma CaseMeansPermute(a: seq<Trial>, b: seq<Trial>, cases: seq<Id>)
    requires Permuted(a, b) && Sampled(a, cases)
    ensures Sampled(b, cases) && CaseMeans(a, cases) == CaseMeans(b, cases)
  {
    forall k | 0 <= k < |cases| ensures OfCase(b, cases[k]) != [] && CaseMean(a, cases[k]) == CaseMean(b, cases[k]) { CaseMeanPermutes(a, b, cases[k]); }
  }

  lemma KeysPermute(a: seq<Trial>, b: seq<Trial>)
    requires Permuted(a, b)
    ensures Keys(a) == Keys(b) && CaseIds(a) == CaseIds(b) && IndicesOf(a) == IndicesOf(b) && |a| == |b|
  {
    PermutedHolds(a, b);
    assert Keys(a) == Keys(b);
    SameKeysSameCases(a, b);
  }

  /** The same matrix with its trials in another order. */
  ghost predicate Reordered(x: Matrix, y: Matrix) {
    Permuted(x.trials, y.trials) && y == x.(trials := y.trials)
  }

  /** Eligibility does not depend on the order in which the trials are listed. */
  lemma EligibilityIsUnordered(x: Matrix, y: Matrix, root: real -> real)
    requires Reordered(x, y) && Graded(x) && CandidateMeans(x) != []
    ensures Graded(y) && CandidateMeans(y) != []
    ensures Eligible(x, root) <==> Eligible(y, root)
  {
    GradedPermutes(x, y);
    CandidateMeansPermute(x, y);
    ImprovementPermutes(x, y, RoleModel(x, Base), root);
    BaselinesPermute(x, y, root);
    VetoesPermute(x, y);
  }

  lemma BaselinesPermute(x: Matrix, y: Matrix, root: real -> real)
    requires Reordered(x, y) && Graded(x) && Graded(y)
    ensures (forall i :: 0 <= i < |Baselines(x)| ==> NotWorse(x, Baselines(x)[i], root)) <==>
            (forall i :: 0 <= i < |Baselines(y)| ==> NotWorse(y, Baselines(y)[i], root))
  {
    assert Baselines(x) == Baselines(y);
    forall i | 0 <= i < |Baselines(x)| ensures NotWorse(x, Baselines(x)[i], root) <==> NotWorse(y, Baselines(y)[i], root) {
      ImprovementPermutes(x, y, Baselines(x)[i], root);
    }
  }

  lemma VetoesPermute(x: Matrix, y: Matrix)
    requires Reordered(x, y) && WithRole(x.models, Candidate) != []
    ensures (forall k :: 0 <= k < |COMPONENTS| ==> NotVetoed(TrialsOf(x, RoleModel(x, Candidate)), COMPONENTS[k])) <==>
            (forall k :: 0 <= k < |COMPONENTS| ==> NotVetoed(TrialsOf(y, RoleModel(y, Candidate)), COMPONENTS[k]))
  {
    var candidate := RoleModel(x, Candidate);
    ModelPermutes(x, y, candidate);
    forall k | 0 <= k < |COMPONENTS| ensures NotVetoed(TrialsOf(x, candidate), COMPONENTS[k]) <==> NotVetoed(TrialsOf(y, candidate), COMPONENTS[k]) {
      VetoPermutes(TrialsOf(x, candidate), TrialsOf(y, candidate), COMPONENTS[k]);
    }
  }

  ghost predicate TrialsAlike(x: Matrix, y: Matrix, m: Model) { Permuted(TrialsOf(x, m), TrialsOf(y, m)) }

  lemma ModelPermutes(x: Matrix, y: Matrix, m: Model)
    requires Reordered(x, y)
    ensures TrialsAlike(x, y, m)
  {
    OfModelPermutes(x.trials, y.trials, m.resource);
  }

  lemma MeansPermute(x: Matrix, y: Matrix, m: Model)
    requires Reordered(x, y) && WithRole(x.models, Base) != [] && Sampled(TrialsOf(x, m), BaseCases(x))
    ensures BaseCases(x) == BaseCases(y) && Sampled(TrialsOf(y, m), BaseCases(y)) && MeansOf(x, m) == MeansOf(y, m)
  {
    ModelPermutes(x, y, RoleModel(x, Base));
    KeysPermute(TrialsOf(x, RoleModel(x, Base)), TrialsOf(y, RoleModel(x, Base)));
    ModelPermutes(x, y, m);
    CaseMeansPermute(TrialsOf(x, m), TrialsOf(y, m), BaseCases(x));
  }

  lemma GradedPermutes(x: Matrix, y: Matrix)
    requires Reordered(x, y) && Graded(x)
    ensures Graded(y)
  {
    MeansPermute(x, y, RoleModel(x, Base));
    forall m | m in y.models ensures Sampled(TrialsOf(y, m), BaseCases(y)) { MeansPermute(x, y, m); }
  }

  lemma ImprovementPermutes(x: Matrix, y: Matrix, m: Model, root: real -> real)
    requires Reordered(x, y) && Graded(x) && m in x.models
    ensures Graded(y) && Improvement(x, m, root) == Improvement(y, m, root)
  {
    GradedPermutes(x, y);
    MeansPermute(x, y, m);
    MeansPermute(x, y, RoleModel(x, Candidate));
  }

  lemma CandidateMeansPermute(x: Matrix, y: Matrix)
    requires Reordered(x, y) && WithRole(x.models, Candidate) != []
    ensures CandidateMeans(x) == CandidateMeans(y)
  {
    var m := RoleModel(x, Candidate);
    ModelPermutes(x, y, m);
    KeysPermute(TrialsOf(x, m), TrialsOf(y, m));
    OwnCasesAreSampled(TrialsOf(x, m));
    CaseMeansPermute(TrialsOf(x, m), TrialsOf(y, m), CaseIds(TrialsOf(x, m)));
  }

  lemma VetoPermutes(a: seq<Trial>, b: seq<Trial>, component: Component)
    requires Permuted(a, b)
    ensures NotVetoed(a, component) <==> NotVetoed(b, component)
  {
    PermutedHolds(a, b);
    assert NotVetoed(a, component) <==> forall t :: t in a ==> component in t.passed;
    assert NotVetoed(b, component) <==> forall t :: t in b ==> component in t.passed;
  }

  // ----- Nor does acceptance depend on the order -----

  function KeyOf(t: Trial): (Id, Id, nat) { (t.model, t.caseId, t.index) }

  function SeedOf(t: Trial): nat { t.seed }

  lemma AdmittedIs(x: Matrix)
    ensures Admitted(x, |x.trials|) <==>
            (forall t :: t in x.trials ==> t.attested && Known(x.models, t.model)) && NoDuplicates(Map(KeyOf, x.trials))
  {
    if NoDuplicates(Map(KeyOf, x.trials)) {
      forall i, j | 0 <= i < j < |x.trials| ensures !SameKey(x.trials[i], x.trials[j]) {
        assert Map(KeyOf, x.trials)[i] != Map(KeyOf, x.trials)[j];
      }
    }
  }

  lemma SeedsUniqueIs(trials: seq<Trial>)
    ensures SeedsUnique(trials) <==> NoDuplicates(Map(SeedOf, trials))
  {
    if NoDuplicates(Map(SeedOf, trials)) {
      forall i, j | 0 <= i < j < |trials| ensures trials[i].seed != trials[j].seed {
        assert Map(SeedOf, trials)[i] != Map(SeedOf, trials)[j];
      }
    }
  }

  lemma CoversPermutes(x: Matrix, y: Matrix, i: nat)
    requires Reordered(x, y) && i < |x.models| && CoversCases(x, i)
    ensures CoversCases(y, i)
  {
    var resource, first := x.models[i].resource, x.models[0].resource;
    OfModelPermutes(x.trials, y.trials, resource);
    OfModelPermutes(x.trials, y.trials, first);
    KeysPermute(OfModel(x.trials, resource), OfModel(y.trials, resource));
    KeysPermute(Reference(x), Reference(y));
    forall c | 0 <= c < |Cases(y)| ensures Contiguous(OfCase(OfModel(y.trials, resource), Cases(y)[c]), y.trialsPerCase) {
      assert Contiguous(OfCase(OfModel(x.trials, resource), Cases(x)[c]), x.trialsPerCase);
      OfCasePermutes(OfModel(x.trials, resource), OfModel(y.trials, resource), Cases(x)[c]);
      KeysPermute(OfCase(OfModel(x.trials, resource), Cases(x)[c]), OfCase(OfModel(y.trials, resource), Cases(x)[c]));
    }
  }

  /** A matrix is accepted in any order of its trials, or in none. */
  lemma AcceptanceIsUnordered(x: Matrix, y: Matrix)
    requires Reordered(x, y) && ValidGrid(x)
    ensures ValidGrid(y)
  {
    PermutedHolds(x.trials, y.trials);
    AdmittedIs(x);
    AdmittedIs(y);
    MapPermutes(KeyOf, x.trials, y.trials);
    DistinctPermutes(Map(KeyOf, x.trials), Map(KeyOf, y.trials));
    OfModelPermutes(x.trials, y.trials, x.models[0].resource);
    KeysPermute(Reference(x), Reference(y));
    PermutedHolds(Reference(x), Reference(y));
    SeedsUniqueIs(Reference(x));
    SeedsUniqueIs(Reference(y));
    MapPermutes(SeedOf, Reference(x), Reference(y));
    DistinctPermutes(Map(SeedOf, Reference(x)), Map(SeedOf, Reference(y)));
    forall i | 0 <= i < |y.models| ensures CoversCases(y, i) { CoversPermutes(x, y, i); }
  }
}
