/**
 The training reward of a patch (src/application/patch-model-training.ts, validateSource and
 computeReward; src/domain/patch-model.ts, PatchRewardSchema): nine component scores read off the
 receipts, which for an admitted source collapse to the verdict of the proof gate.
 */
module PatchReward {
  import opened Wrappers
  import opened Text
  import opened Lists
  import opened Evidence
  import opened ContractEvaluation
  import opened ProofGate

  datatype Patch = Patch(baseRevision: string, revision: string, additions: nat, deletions: nat, maxChangedLines: nat)

  datatype Selection = Selection(requestedChange: string, accessibility: seq<string>, performance: seq<string>)

  /** Consent is two facts here: it is for this project, and it was recorded before curation. */
  datatype Source = Source(
    contract: Contract, patch: Patch, selection: Selection, runId: string,
    before: seq<Receipt>, after: seq<Receipt>, consentMatches: bool, consentPredates: bool)

  // ----- Admission -----

  predicate InScope(receipts: seq<Receipt>, runId: string, revision: string) {
    forall i :: 0 <= i < |receipts| ==> receipts[i].runId == runId && receipts[i].revision == revision
  }

  function ReceiptIds(s: Source): seq<string> { Map((r: Receipt) => r.id, s.before + s.after) }

  /** The first requirement of this id is hard. */
  predicate IsHard(rs: seq<Requirement>, id: string) {
    rs != [] && if rs[0].id == id then rs[0].hard else IsHard(rs[1..], id)
  }

  function LatestEvaluation(k: Commands, c: Contract, receipts: seq<Receipt>): Option<Receipt> {
    Latest(k, c, EvaluationSlot, receipts)
  }

  predicate PassedIn(k: Commands, c: Contract, receipts: seq<Receipt>, id: string) {
    Approved(ResultsOf(LatestEvaluation(k, c, receipts)), id)
  }

  /** The requirement has a verdict, and it is not a pass. */
  predicate OpenBefore(k: Commands, s: Source) {
    var verdict := VerdictOn(ResultsOf(LatestEvaluation(k, s.contract, s.before)), s.selection.requestedChange);
    verdict.Some? && verdict.value.verdict != Passed
  }

  predicate Guards(k: Commands, s: Source, ids: seq<string>) {
    forall i :: 0 <= i < |ids| ==> IsHard(s.contract.requirements, ids[i]) && PassedIn(k, s.contract, s.before, ids[i])
  }

  ghost predicate Admitted(k: Commands, s: Source) {
    var guards := s.selection.accessibility + s.selection.performance;
    && s.consentMatches && s.consentPredates
    && InScope(s.before, s.runId, s.patch.baseRevision) && InScope(s.after, s.runId, s.patch.revision)
    && NoDuplicates(ReceiptIds(s))
    && (exists i :: 0 <= i < |s.before| && s.before[i].status != Pass)
    && IsHard(s.contract.requirements, s.selection.requestedChange)
    && s.selection.requestedChange !in guards && NoDuplicates(guards)
    && OpenBefore(k, s)
    && Guards(k, s, s.selection.accessibility) && Guards(k, s, s.selection.performance)
  }

  predicate Unique(ids: seq<string>) { |set id | id in ids| == |ids| }

  method CheckScope(receipts: seq<Receipt>, runId: string, revision: string) returns (ok: bool)
    ensures ok <==> InScope(receipts, runId, revision)
  {
    for i := 0 to |receipts|
      invariant InScope(receipts[..i], runId, revision)
    {
      if receipts[i].runId != runId || receipts[i].revision != revision { return false; }
      assert receipts[..i + 1] == receipts[..i] + [receipts[i]];
    }
    assert receipts[..|receipts|] == receipts;
    return true;
  }

  method CheckGuards(k: Commands, s: Source, ids: seq<string>) returns (ok: bool)
    ensures ok <==> Guards(k, s, ids)
  {
    for i := 0 to |ids|
      invariant forall j :: 0 <= j < i ==> IsHard(s.contract.requirements, ids[j]) && PassedIn(k, s.contract, s.before, ids[j])
    {
      if !IsHard(s.contract.requirements, ids[i]) { return false; }
      if !PassedIn(k, s.contract, s.before, ids[i]) { return false; }
    }
    return true;
  }

  /** validateSource; false is one of its exceptions. */
  method ValidateSource(k: Commands, s: Source) returns (ok: bool)
    ensures ok <==> Admitted(k, s)
  {
    if !s.consentMatches || !s.consentPredates { return false; }
    var beforeOk := CheckScope(s.before, s.runId, s.patch.baseRevision);
    var afterOk := CheckScope(s.after, s.runId, s.patch.revision);
    if !beforeOk || !afterOk { return false; }
    SetSizeTells(ReceiptIds(s));
    if !Unique(ReceiptIds(s)) { return false; }
    if !exists i :: 0 <= i < |s.before| && s.before[i].status != Pass { return false; }
    var guards := s.selection.accessibility + s.selection.performance;
    PartsDistinct(s.selection.accessibility, s.selection.performance);
    SetSizeTells(s.selection.accessibility);
    SetSizeTells(s.selection.performance);
    if !Unique(s.selection.accessibility) || !Unique(s.selection.performance) { return false; }
    if !IsHard(s.contract.requirements, s.selection.requestedChange) { return false; }
    if s.selection.requestedChange in guards { return false; }
    SetSizeTells(guards);
    if !Unique(guards) { return false; }
    if !OpenBefore(k, s) { return false; }
    var accessibilityOk := CheckGuards(k, s, s.selection.accessibility);
    var performanceOk := CheckGuards(k, s, s.selection.performance);
    return accessibilityOk && performanceOk;
  }

  lemma PartsDistinct<T>(a: seq<T>, b: seq<T>)
    ensures NoDuplicates(a + b) ==> NoDuplicates(a) && NoDuplicates(b)
  {
    if NoDuplicates(a + b) {
      forall i, j | 0 <= i < j < |a| ensures a[i] != a[j] { assert (a + b)[i] != (a + b)[j]; }
      forall i, j | 0 <= i < j < |b| ensures b[i] != b[j] { assert (a + b)[|a| + i] != (a + b)[|a| + j]; }
    }
  }

  // ----- The reward -----

  datatype Component =
    | ProofGate | BuildComponent | Tests | RequestedChange | PriorRequirements | Accessibility | Performance
    | SupportedClaims | MinimalPatch

  const COMPONENTS: seq<Component> := [
    ProofGate, BuildComponent, Tests, RequestedChange, PriorRequirements, Accessibility, Performance,
    SupportedClaims, MinimalPatch]

  /** A reason code names the component that scored 0. */
  datatype Reward = Reward(scored: set<Component>, terminal: real, accepted: bool, reasons: seq<Component>)

  predicate IsHardComponent(x: Component) { !x.MinimalPatch? }

  const HARD_COMPONENTS: set<Component> := {
    ProofGate, BuildComponent, Tests, RequestedChange, PriorRequirements, Accessibility, Performance, SupportedClaims}

  /** PatchRewardSchema's refinement: `scored` is the set of the components that are 1. */
  ghost predicate SchemaHolds(r: Reward) {
    && NoDuplicates(r.reasons) && (forall x :: x in r.reasons <==> x !in r.scored)
    && r.terminal == (if HARD_COMPONENTS <= r.scored then (if MinimalPatch in r.scored then 1.0 else 0.75) else 0.0)
    && (r.accepted <==> ProofGate in r.scored)
  }

  predicate HardPriorsPass(k: Commands, s: Source) {
    forall i :: 0 <= i < |s.contract.requirements|
                && s.contract.requirements[i].hard && s.contract.requirements[i].id != s.selection.requestedChange
                ==> PassedIn(k, s.contract, s.after, s.contract.requirements[i].id)
  }

  predicate AllPassed(k: Commands, s: Source, ids: seq<string>) {
    forall i :: 0 <= i < |ids| ==> PassedIn(k, s.contract, s.after, ids[i])
  }

  predicate ClaimsSupported(k: Commands, s: Source) {
    var e := LatestEvaluation(k, s.contract, s.after);
    && e.Some? && e.value.body.ContractEvaluation? && e.value.status == Pass && e.value.body.unsupportedClaims == 0
    && e.value.body.scores.supportedBusinessFacts == 1 && e.value.body.scores.evidenceGrounding == 1
    && (s.contract.forbiddenClaims == [] || CommandPasses(k, s.contract, s.after, ScanSlot))
  }

  /** What each component other than the gate measures. */
  predicate Scores(k: Commands, s: Source, x: Component) {
    var c, after := s.contract, s.after;
    match x
    case ProofGate => true
    case BuildComponent =>
      CommandPasses(k, c, after, BootstrapSlot) && CommandPasses(k, c, after, BuildSlot) && CommandPasses(k, c, after, ContainerSlot)
    case Tests => forall i :: 0 <= i < |c.testCommands| ==> CommandPasses(k, c, after, TestSlot(c.testCommands[i]))
    case RequestedChange => PassedIn(k, c, after, s.selection.requestedChange)
    case PriorRequirements => HardPriorsPass(k, s)
    case Accessibility => AllPassed(k, s, s.selection.accessibility)
    case Performance => AllPassed(k, s, s.selection.performance)
    case SupportedClaims => ClaimsSupported(k, s)
    case MinimalPatch => s.patch.additions + s.patch.deletions <= s.patch.maxChangedLines
  }

  /** computeReward: one reason is pushed for each component that is 0. */
  method ComputeReward(k: Commands, s: Source, attested: Receipt -> bool) returns (r: Reward)
    ensures SchemaHolds(r)
    ensures r.accepted <==> Passes(k, s.contract, s.patch.revision, s.after, attested)
    ensures forall x :: x != ProofGate ==> (x in r.scored <==> Scores(k, s, x))
    ensures Admitted(k, s) ==> (r.accepted <==> r.terminal >= 0.75) && (r.accepted <==> r.terminal > 0.0)
  {
    var decision := DecideProof(k, s.contract, s.patch.revision, s.after, attested);
    var scored: set<Component> := {};
    var reasons: seq<Component> := [];
    assert forall i, j :: 0 <= i < j < |COMPONENTS| ==> COMPONENTS[i] != COMPONENTS[j];
    assert COMPONENTS[..0] == [];
    for i := 0 to |COMPONENTS|
      invariant NoDuplicates(reasons)
      invariant forall x :: x in reasons <==> x in COMPONENTS[..i] && x !in scored
      invariant forall x :: x in scored <==> x in COMPONENTS[..i] && Attained(k, s, decision.passed, x)
    {
      var x := COMPONENTS[i];
      PrefixGrows(COMPONENTS, i);
      assert x !in COMPONENTS[..i];
      if Attained(k, s, decision.passed, x) {
        scored := scored + {x};
      } else {
        ConcatNoDuplicates(reasons, [x]);
        reasons := reasons + [x];
      }
    }
    AllComponents();
    assert COMPONENTS[..|COMPONENTS|] == COMPONENTS;
    var terminal := if HARD_COMPONENTS <= scored then (if MinimalPatch in scored then 1.0 else 0.75) else 0.0;
    r := Reward(scored, terminal, decision.passed, reasons);
    if Admitted(k, s) && decision.passed {
      GateForcesComponents(k, s, attested);
    }
  }

  predicate Attained(k: Commands, s: Source, passed: bool, x: Component) {
    if x == ProofGate then passed else Scores(k, s, x)
  }

  lemma AllComponents()
    ensures forall x: Component :: x in COMPONENTS
    ensures forall x :: x in HARD_COMPONENTS <==> IsHardComponent(x)
  {
    forall x: Component ensures x in COMPONENTS {
      match x {
        case ProofGate => assert COMPONENTS[0] == x;
        case BuildComponent => assert COMPONENTS[1] == x;
        case Tests => assert COMPONENTS[2] == x;
        case RequestedChange => assert COMPONENTS[3] == x;
        case PriorRequirements => assert COMPONENTS[4] == x;
        case Accessibility => assert COMPONENTS[5] == x;
        case Performance => assert COMPONENTS[6] == x;
        case SupportedClaims => assert COMPONENTS[7] == x;
        case MinimalPatch => assert COMPONENTS[8] == x;
      }
    }
  }

  lemma {:induction false} ScopedIsRevision(receipts: seq<Receipt>, runId: string, revision: string)
    requires InScope(receipts, runId, revision)
    ensures OfRevision(receipts, revision) == receipts
  {
    if receipts != [] {
      assert receipts == [receipts[0]] + receipts[1..];
      ScopedIsRevision(receipts[1..], runId, revision);
    }
  }

  lemma {:induction false} HardIsListed(rs: seq<Requirement>, id: string)
    requires IsHard(rs, id)
    ensures exists i :: 0 <= i < |rs| && rs[i].id == id && rs[i].hard
  {
    if rs[0].id == id {
      assert rs[0].hard;
    } else {
      HardIsListed(rs[1..], id);
      var i :| 0 <= i < |rs[1..]| && rs[1..][i].id == id && rs[1..][i].hard;
      assert rs[i + 1].id == id && rs[i + 1].hard;
    }
  }

  /** A hard requirement of a revision that passes the gate has passed. */
  lemma HardHasPassed(k: Commands, s: Source, id: string)
    requires RequirementsPass(k, s.contract, s.after) && IsHard(s.contract.requirements, id)
    ensures PassedIn(k, s.contract, s.after, id)
  {
    HardIsListed(s.contract.requirements, id);
    var i :| 0 <= i < |s.contract.requirements| && s.contract.requirements[i].id == id && s.contract.requirements[i].hard;
    assert RequirementPasses(k, s.contract, s.after, s.contract.requirements[i]);
  }

  lemma SelectedHavePassed(k: Commands, s: Source, ids: seq<string>)
    requires RequirementsPass(k, s.contract, s.after) && Guards(k, s, ids)
    ensures AllPassed(k, s, ids)
  {
    forall i | 0 <= i < |ids| ensures PassedIn(k, s.contract, s.after, ids[i]) { HardHasPassed(k, s, ids[i]); }
  }

  lemma PriorsHavePassed(k: Commands, s: Source)
    requires RequirementsPass(k, s.contract, s.after)
    ensures HardPriorsPass(k, s)
  {
    forall i | 0 <= i < |s.contract.requirements| && s.contract.requirements[i].hard
      ensures PassedIn(k, s.contract, s.after, s.contract.requirements[i].id)
    {
      assert RequirementPasses(k, s.contract, s.after, s.contract.requirements[i]);
    }
  }

  lemma GateSupportsClaims(k: Commands, s: Source, attested: Receipt -> bool)
    requires CommandsPass(k, s.contract, s.after) && JudgementPasses(k, s.contract, s.after, attested)
    ensures ClaimsSupported(k, s)
  {}

  /** A passing gate forces every hard component of an admitted source to 1. */
  lemma GateForcesComponents(k: Commands, s: Source, attested: Receipt -> bool)
    requires Admitted(k, s) && Passes(k, s.contract, s.patch.revision, s.after, attested)
    ensures forall x :: IsHardComponent(x) ==> Scores(k, s, x)
  {
    ScopedIsRevision(s.after, s.runId, s.patch.revision);
    var c, after := s.contract, s.after;
    assert CommandsPass(k, c, after) && JudgementPasses(k, c, after, attested) && RequirementsPass(k, c, after);
    GateSupportsClaims(k, s, attested);
    HardHasPassed(k, s, s.selection.requestedChange);
    SelectedHavePassed(k, s, s.selection.accessibility);
    SelectedHavePassed(k, s, s.selection.performance);
    PriorsHavePassed(k, s);
    ScoresFollow(k, s);
  }

  lemma ScoresFollow(k: Commands, s: Source)
    requires CommandsPass(k, s.contract, s.after) && ClaimsSupported(k, s)
    requires PassedIn(k, s.contract, s.after, s.selection.requestedChange) && HardPriorsPass(k, s)
    requires AllPassed(k, s, s.selection.accessibility) && AllPassed(k, s, s.selection.performance)
    ensures forall x :: IsHardComponent(x) ==> Scores(k, s, x)
  {}
}
