/**
 The theorem that spans the producers and the gate: when the command runner, the preview inspector, the
 raster inspector and the contract evaluator all pass one revision, and its review is in order, the
 gate passes it.

 The receipts may stand among any others of the run. Older receipts of the same revision are harmless
 when they completed before the new ones; TiesKeepTheEarlier in ProofGate shows why that is needed.
 */
module HonestPipeline {
  import opened Wrappers
  import opened Evidence
  import opened PreviewInspection
  import opened ContractEvaluation
  import opened ProofGate
  import opened CommandVerification
  import opened TileEvidence
  import opened RouteEvidence
  import RasterClaims

  /** The receipts of one verification of a revision. */
  datatype Round = Round(commands: seq<Receipt>, delivery: seq<Receipt>, preview: Receipt, visual: Receipt, evaluation: Receipt)

  function CommandEvidence(round: Round): seq<Receipt> { round.commands + round.delivery }

  /** What the producers were given. */
  datatype Setting = Setting(
    k: Commands, c: Contract, lib: Library, runId: string, revision: string,
    ins: seq<Inspection>, workspace: RasterClaims.Collected, sources: seq<SourceFile>, output: Output)

  // ----- What each producer guarantees -----

  ghost predicate CommandsProduced(s: Setting, round: Round) {
    && Ran(CommandVerification.Targets(s.k, s.c, CommandsPhase), s.runId, s.revision, round.commands)
    && Ran(CommandVerification.Targets(s.k, s.c, DeliveryPhase), s.runId, s.revision, round.delivery)
  }

  ghost predicate PreviewProduced(s: Setting, r: Receipt) {
    && Inspectable(s.lib, s.c, s.ins)
    && r.runId == s.runId && r.revision == s.revision
    && var inspected := Inspect(s.lib, s.c, s.ins);
       r.status == inspected.status && r.body == Preview(InputDigest(s.c), Sha(OfChecks(inspected.checks)), inspected.checks)
  }

  ghost predicate VisualProduced(s: Setting, pages: seq<Page>, r: Receipt) {
    && r.runId == s.runId && r.revision == s.revision && r.body.Raster?
    && (r.status == Pass ==> RasterClaims.PassesOnly(s.c, pages, s.workspace, r.body.visual))
  }

  ghost predicate EvaluationProduced(s: Setting, pages: seq<Page>, evidence: seq<Receipt>, r: Receipt) {
    && r.runId == s.runId && r.revision == s.revision && r.body.ContractEvaluation?
    && r.body.results == s.output.results && r.body.unsupportedClaims == s.output.unsupportedClaims
    && (r.status == Pass ==>
          && Sound(s.c, pages, s.sources, evidence, s.output) && HardApproved(s.c.requirements, s.output.results)
          && s.output.unsupportedClaims == 0
          && r.body.scores.hardRequirements == 1 && r.body.scores.supportedBusinessFacts == 1
          && r.body.scores.evidenceGrounding == 1)
  }

  ghost predicate Produced(s: Setting, round: Round) {
    && CommandsProduced(s, round) && PreviewProduced(s, round.preview)
    && VisualProduced(s, Inspect(s.lib, s.c, s.ins).pages, round.visual)
    && EvaluationProduced(s, Inspect(s.lib, s.c, s.ins).pages, CommandEvidence(round), round.evaluation)
  }

  predicate AllPass(round: Round) {
    && (forall i :: 0 <= i < |round.commands| ==> round.commands[i].status == Pass)
    && (forall i :: 0 <= i < |round.delivery| ==> round.delivery[i].status == Pass)
    && round.preview.status == Pass && round.visual.status == Pass && round.evaluation.status == Pass
    && round.evaluation.body.ContractEvaluation? && round.evaluation.body.traceId != ""
  }

  predicate InRound(r: Receipt, round: Round) {
    r in round.commands || r in round.delivery || r == round.preview || r == round.visual || r == round.evaluation
  }

  /** Of this revision there are the round, reviews, and receipts that completed before the round's. */
  ghost predicate Supersedes(s: Setting, round: Round, rs: seq<Receipt>) {
    && (forall r :: InRound(r, round) ==> r in rs)
    && (forall r :: r in rs ==> r.runId == s.runId)
    && (forall r, f :: r in rs && InRound(f, round) && !InRound(r, round) && !r.body.Review? ==> r.completedAt < f.completedAt)
  }

  // ----- The gate finds the round's receipts -----

  predicate IsCommandSlot(slot: Slot) { !slot.VisualSlot? && !slot.PreviewSlot? && !slot.EvaluationSlot? }

  lemma CommandOf(s: Setting, round: Round, r: Receipt)
    requires CommandsProduced(s, round) && AllPass(round) && (r in round.commands || r in round.delivery)
    ensures r.body.Command? && r.status == Pass && r.body.exitCode == Some(0)
  {
    if r in round.commands {
      var i :| 0 <= i < |round.commands| && round.commands[i] == r;
      assert IsFor(CommandVerification.Targets(s.k, s.c, CommandsPhase)[i], s.runId, s.revision, r);
    } else {
      var i :| 0 <= i < |round.delivery| && round.delivery[i] == r;
      assert IsFor(CommandVerification.Targets(s.k, s.c, DeliveryPhase)[i], s.runId, s.revision, r);
    }
  }

  /** The latest receipt for a command slot that the round fills is one of the round's. */
  lemma CommandSlotPasses(s: Setting, round: Round, rs: seq<Receipt>, slot: Slot, one: Receipt)
    requires Produced(s, round) && AllPass(round) && Supersedes(s, round, rs)
    requires IsCommandSlot(slot) && one in CommandEvidence(round) && Fills(s.k, s.c, slot, one)
    ensures CommandPasses(s.k, s.c, rs, slot)
    ensures Latest(s.k, s.c, slot, rs).value in CommandEvidence(round)
  {
    var good := set r | r in CommandEvidence(round);
    assert InRound(one, round);
    forall r | r in rs && Fills(s.k, s.c, slot, r) && r !in good ensures r.completedAt < one.completedAt {
      assert r.body.Command?;
      assert !InRound(r, round);
    }
    LatestIsGood(s.k, s.c, slot, rs, good, one);
    CommandOf(s, round, Latest(s.k, s.c, slot, rs).value);
  }

  /** The latest preview, raster and evaluation receipts are the round's. */
  lemma PreviewSingle(s: Setting, round: Round, rs: seq<Receipt>)
    requires Produced(s, round) && AllPass(round) && Supersedes(s, round, rs)
    ensures Latest(s.k, s.c, PreviewSlot, rs) == Some(round.preview)
  {
    forall r | r in round.commands || r in round.delivery ensures r.body.Command? { CommandOf(s, round, r); }
    assert InRound(round.preview, round);
    LatestIsGood(s.k, s.c, PreviewSlot, rs, {round.preview}, round.preview);
  }

  lemma VisualSingle(s: Setting, round: Round, rs: seq<Receipt>)
    requires Produced(s, round) && AllPass(round) && Supersedes(s, round, rs)
    ensures Latest(s.k, s.c, VisualSlot, rs) == Some(round.visual)
  {
    forall r | r in round.commands || r in round.delivery ensures r.body.Command? { CommandOf(s, round, r); }
    assert InRound(round.visual, round);
    assert RasterClaims.PassesOnly(s.c, Inspect(s.lib, s.c, s.ins).pages, s.workspace, round.visual.body.visual);
    LatestIsGood(s.k, s.c, VisualSlot, rs, {round.visual}, round.visual);
  }

  lemma EvaluationSingle(s: Setting, round: Round, rs: seq<Receipt>)
    requires Produced(s, round) && AllPass(round) && Supersedes(s, round, rs)
    ensures Latest(s.k, s.c, EvaluationSlot, rs) == Some(round.evaluation)
  {
    forall r | r in round.commands || r in round.delivery ensures r.body.Command? { CommandOf(s, round, r); }
    assert InRound(round.evaluation, round);
    LatestIsGood(s.k, s.c, EvaluationSlot, rs, {round.evaluation}, round.evaluation);
  }

  lemma SingleSlots(s: Setting, round: Round, rs: seq<Receipt>)
    requires Produced(s, round) && AllPass(round) && Supersedes(s, round, rs)
    ensures Latest(s.k, s.c, PreviewSlot, rs) == Some(round.preview)
    ensures Latest(s.k, s.c, VisualSlot, rs) == Some(round.visual)
    ensures Latest(s.k, s.c, EvaluationSlot, rs) == Some(round.evaluation)
  {
    PreviewSingle(s, round, rs);
    VisualSingle(s, round, rs);
    EvaluationSingle(s, round, rs);
  }

  // ----- Commands -----

  /** A target has its receipt. */
  lemma ReceiptOfTarget(s: Setting, round: Round, t: CommandTarget) returns (r: Receipt)
    requires CommandsProduced(s, round) && AllPass(round)
    requires t in CommandVerification.Targets(s.k, s.c, CommandsPhase) || t in CommandVerification.Targets(s.k, s.c, DeliveryPhase)
    ensures r in CommandEvidence(round) && IsFor(t, s.runId, s.revision, r)
  {
    PassingRanAll(CommandVerification.Targets(s.k, s.c, CommandsPhase), s.runId, s.revision, round.commands);
    PassingRanAll(CommandVerification.Targets(s.k, s.c, DeliveryPhase), s.runId, s.revision, round.delivery);
    if t in CommandVerification.Targets(s.k, s.c, CommandsPhase) {
      var i :| 0 <= i < |CommandVerification.Targets(s.k, s.c, CommandsPhase)| && CommandVerification.Targets(s.k, s.c, CommandsPhase)[i] == t;
      r := round.commands[i];
    } else {
      var i :| 0 <= i < |CommandVerification.Targets(s.k, s.c, DeliveryPhase)| && CommandVerification.Targets(s.k, s.c, DeliveryPhase)[i] == t;
      r := round.delivery[i];
    }
  }

  lemma TargetSlotPasses(s: Setting, round: Round, rs: seq<Receipt>, t: CommandTarget, slot: Slot)
    requires Produced(s, round) && AllPass(round) && Supersedes(s, round, rs)
    requires t in CommandVerification.Targets(s.k, s.c, CommandsPhase) || t in CommandVerification.Targets(s.k, s.c, DeliveryPhase)
    requires Answers(s.k, s.c, t, slot)
    ensures CommandPasses(s.k, s.c, rs, slot)
    ensures Latest(s.k, s.c, slot, rs).value in CommandEvidence(round)
  {
    var r := ReceiptOfTarget(s, round, t);
    AnswerFills(s.k, s.c, t, slot, s.runId, s.revision, r);
    CommandSlotPasses(s, round, rs, slot, r);
  }

  /** The receipt for this target is what the gate looks for in this slot. */
  predicate Answers(k: Commands, c: Contract, t: CommandTarget, slot: Slot) {
    match slot
    case DockerfileSlot => t.kind == Artifact && t.command == k.dockerfile
    case ContainerSlot => t.kind == ContainerBuild && t.command == k.container
    case BootstrapSlot => t.kind == DependencyBootstrap && t.command == k.bootstrap
    case BuildSlot => t.kind == Build && t.command == c.buildCommand
    case TestSlot(test) => t.kind == Test && t.command == test
    case ScanSlot =>
      t.kind == ForbiddenClaim && t.claimIndices == Some(Indices(|c.forbiddenClaims|)) && t.command == k.scan(c.forbiddenClaims)
    case VerifierSlot(id, index, command) =>
      t.kind == RequirementCommand && t.requirementId == Some(id) && t.verifierIndex == Some(index) && t.command == command
    case _ => false
  }

  lemma AnswerFills(k: Commands, c: Contract, t: CommandTarget, slot: Slot, runId: string, revision: string, r: Receipt)
    requires Answers(k, c, t, slot) && IsFor(t, runId, revision, r)
    ensures Fills(k, c, slot, r) && IsCommandSlot(slot)
  {}

  lemma FixedTargetsHold(k: Commands, c: Contract)
    ensures Plain(Artifact, k.dockerfile) in CommandVerification.Targets(k, c, DeliveryPhase)
    ensures Plain(ContainerBuild, k.container) in CommandVerification.Targets(k, c, DeliveryPhase)
    ensures Plain(DependencyBootstrap, k.bootstrap) in CommandVerification.Targets(k, c, CommandsPhase)
    ensures Plain(Build, c.buildCommand) in CommandVerification.Targets(k, c, CommandsPhase)
  {}

  lemma ScanPasses(s: Setting, round: Round, rs: seq<Receipt>)
    requires Produced(s, round) && AllPass(round) && Supersedes(s, round, rs) && s.c.forbiddenClaims != []
    ensures CommandPasses(s.k, s.c, rs, ScanSlot)
  {
    ScanIsTarget(s.k, s.c);
    TargetSlotPasses(s, round, rs, ScanTarget(s.k, s.c), ScanSlot);
  }

  function ScanTarget(k: Commands, c: Contract): CommandTarget {
    CommandTarget(ForbiddenClaim, k.scan(c.forbiddenClaims), None, None, Some(Indices(|c.forbiddenClaims|)))
  }

  lemma ScanIsTarget(k: Commands, c: Contract)
    requires c.forbiddenClaims != []
    ensures ScanTarget(k, c) in CommandVerification.Targets(k, c, CommandsPhase)
  {
    assert FixedTargets(k, c)[0] == ScanTarget(k, c);
  }

  lemma TestIsTarget(k: Commands, c: Contract, i: nat)
    requires i < |c.testCommands|
    ensures Plain(Test, c.testCommands[i]) in CommandVerification.Targets(k, c, CommandsPhase)
  {
    TestTargetAt(c.testCommands, i);
  }

  lemma TestPasses(s: Setting, round: Round, rs: seq<Receipt>, i: nat)
    requires Produced(s, round) && AllPass(round) && Supersedes(s, round, rs) && i < |s.c.testCommands|
    ensures CommandPasses(s.k, s.c, rs, TestSlot(s.c.testCommands[i]))
  {
    TestIsTarget(s.k, s.c, i);
    TargetSlotPasses(s, round, rs, Plain(Test, s.c.testCommands[i]), TestSlot(s.c.testCommands[i]));
  }

  lemma CommandsAllPass(s: Setting, round: Round, rs: seq<Receipt>)
    requires Produced(s, round) && AllPass(round) && Supersedes(s, round, rs)
    ensures CommandsPass(s.k, s.c, rs)
  {
    FixedTargetsHold(s.k, s.c);
    TargetSlotPasses(s, round, rs, Plain(Artifact, s.k.dockerfile), DockerfileSlot);
    TargetSlotPasses(s, round, rs, Plain(ContainerBuild, s.k.container), ContainerSlot);
    TargetSlotPasses(s, round, rs, Plain(DependencyBootstrap, s.k.bootstrap), BootstrapSlot);
    TargetSlotPasses(s, round, rs, Plain(Build, s.c.buildCommand), BuildSlot);
    forall i | 0 <= i < |s.c.testCommands| ensures CommandPasses(s.k, s.c, rs, TestSlot(s.c.testCommands[i])) {
      TestPasses(s, round, rs, i);
    }
    if s.c.forbiddenClaims != [] { ScanPasses(s, round, rs); }
  }

  // ----- The rendering -----

  lemma RenderingAllPasses(s: Setting, round: Round, rs: seq<Receipt>)
    requires WellFormed(s.c) && Produced(s, round) && AllPass(round) && Supersedes(s, round, rs)
    ensures RenderingPasses(s.k, s.c, rs)
  {
    SingleSlots(s, round, rs);
    PassingIsChecked(s.lib, s.c, s.ins);
    PixelsAgree(s.lib, s.c, s.ins, s.workspace, round.visual.body.visual);
    RootPassesIfSettled(s.lib, s.c, s.ins);
    RoutesPassIfSettled(s.lib, s.c, s.ins);
  }

  // ----- The requirements -----

  ghost predicate CommandKeysDistinct(targets: seq<CommandTarget>) {
    forall i, j :: 0 <= i < j < |targets| ==>
      (targets[i].requirementId, targets[i].verifierIndex) != (targets[j].requirementId, targets[j].verifierIndex)
  }

  lemma {:induction false} VerifierCommandKeys(r: Requirement, i: nat)
    requires i <= |r.verifiers|
    ensures CommandKeysDistinct(VerifierCommands(r, i))
    ensures forall k :: 0 <= k < |VerifierCommands(r, i)| ==>
              var t := VerifierCommands(r, i)[k];
              t.requirementId == Some(r.id) && t.verifierIndex.Some? && t.verifierIndex.value >= i
    decreases |r.verifiers| - i
  {
    if i < |r.verifiers| { VerifierCommandKeys(r, i + 1); }
  }

  lemma {:induction false} RequirementCommandKeys(rs: seq<Requirement>)
    requires forall i, j :: 0 <= i < j < |rs| ==> rs[i].id != rs[j].id
    ensures CommandKeysDistinct(RequirementCommands(rs))
  {
    if rs != [] {
      RequirementCommandKeys(rs[1..]);
      VerifierCommandKeys(rs[0], 0);
      OtherCommandKeys(rs[1..], rs[0].id);
    }
  }

  lemma {:induction false} OtherCommandKeys(rs: seq<Requirement>, id: string)
    requires forall i :: 0 <= i < |rs| ==> rs[i].id != id
    ensures forall k :: 0 <= k < |RequirementCommands(rs)| ==> RequirementCommands(rs)[k].requirementId != Some(id)
  {
    if rs != [] {
      OtherCommandKeys(rs[1..], id);
      VerifierCommandKeys(rs[0], 0);
    }
  }

  lemma FixedHaveNoRequirement(k: Commands, c: Contract)
    ensures forall i :: 0 <= i < |FixedTargets(k, c)| ==> FixedTargets(k, c)[i].kind != RequirementCommand
  {
    TestTargetsAreTests(c.testCommands);
  }

  /** The round runs each command verifier once. */
  lemma OneVerifierReceipt(s: Setting, round: Round, x: Receipt, y: Receipt, id: string, index: nat, command: string)
    requires WellFormed(s.c) && CommandsProduced(s, round)
    requires x in CommandEvidence(round) && RunsVerifier(x, id, index, command)
    requires y in CommandEvidence(round) && RunsVerifier(y, id, index, command)
    ensures x == y
  {
    var i := VerifierPlace(s, round, x, id, index, command);
    var j := VerifierPlace(s, round, y, id, index, command);
    RequirementCommandKeys(s.c.requirements);
  }

  lemma VerifierPlace(s: Setting, round: Round, x: Receipt, id: string, index: nat, command: string) returns (i: nat)
    requires CommandsProduced(s, round) && x in CommandEvidence(round) && RunsVerifier(x, id, index, command)
    ensures i < |RequirementCommands(s.c.requirements)|
    ensures RequirementCommands(s.c.requirements)[i].requirementId == Some(id)
    ensures RequirementCommands(s.c.requirements)[i].verifierIndex == Some(index)
    ensures |FixedTargets(s.k, s.c)| + i < |round.commands| && round.commands[|FixedTargets(s.k, s.c)| + i] == x
  {
    FixedHaveNoRequirement(s.k, s.c);
    DeliveryHasNoRequirement(s, round);
    var n :| 0 <= n < |round.commands| && round.commands[n] == x;
    assert IsFor(CommandVerification.Targets(s.k, s.c, CommandsPhase)[n], s.runId, s.revision, x);
    i := n - |FixedTargets(s.k, s.c)|;
  }

  lemma DeliveryHasNoRequirement(s: Setting, round: Round)
    requires CommandsProduced(s, round)
    ensures forall x :: x in round.delivery ==> x.body.Command? && x.body.kind != RequirementCommand
  {
    forall n | 0 <= n < |round.delivery| ensures round.delivery[n].body.Command? && round.delivery[n].body.kind != RequirementCommand {
      assert IsFor(CommandVerification.Targets(s.k, s.c, DeliveryPhase)[n], s.runId, s.revision, round.delivery[n]);
    }
  }

  lemma {:induction false} CommandRefsAre(evidence: seq<Receipt>, id: string, index: nat, command: string)
    ensures forall ref :: ref in CommandRefs(evidence, id, index, command) ==>
              exists k :: 0 <= k < |evidence| && RunsVerifier(evidence[k], id, index, command) && ref == ReceiptRef(evidence[k].id)
  {
    if evidence != [] {
      CommandRefsAre(evidence[1..], id, index, command);
      forall ref | ref in CommandRefs(evidence[1..], id, index, command)
        ensures exists k :: 0 <= k < |evidence| && RunsVerifier(evidence[k], id, index, command) && ref == ReceiptRef(evidence[k].id)
      {
        var k :| 0 <= k < |evidence[1..]| && RunsVerifier(evidence[1..][k], id, index, command) && ref == ReceiptRef(evidence[1..][k].id);
        assert evidence[k + 1] == evidence[1..][k];
      }
    }
  }

  lemma {:induction false} RequiredIs(rs: seq<Requirement>, pages: seq<Page>, evidence: seq<Receipt>, j: nat)
    requires j < |rs| && forall i, k :: 0 <= i < k < |rs| ==> rs[i].id != rs[k].id
    ensures rs[j].id in Required(rs, pages, evidence)
    ensures Required(rs, pages, evidence)[rs[j].id] == Groups(rs[j], pages, evidence)
  {
    if j < |rs| - 1 { RequiredIs(rs[..|rs| - 1], pages, evidence, j); }
  }

  lemma {:induction false} VerdictIsListed(results: seq<Evaluation>, id: string)
    requires VerdictOn(results, id).Some?
    ensures VerdictOn(results, id).value in results && VerdictOn(results, id).value.requirementId == id
  {
    if results[0].requirementId != id { VerdictIsListed(results[1..], id); }
  }

  /** A passing evaluation cites evidence of each verifier of each hard requirement. */
  lemma VerifierIsCited(s: Setting, pages: seq<Page>, evidence: seq<Receipt>, j: nat, i: nat)
    requires WellFormed(s.c) && Sound(s.c, pages, s.sources, evidence, s.output)
    requires HardApproved(s.c.requirements, s.output.results)
    requires j < |s.c.requirements| && s.c.requirements[j].hard && i < |s.c.requirements[j].verifiers|
    ensures Approved(s.output.results, s.c.requirements[j].id)
    ensures CitesOneOf(Cited(s.output.results, s.c.requirements[j].id), Group(s.c.requirements[j], i, pages, evidence))
  {
    var r := s.c.requirements[j];
    VerdictIsListed(s.output.results, r.id);
    var e := VerdictOn(s.output.results, r.id).value;
    var n :| 0 <= n < |s.output.results| && s.output.results[n] == e;
    assert Grounded(s.c, pages, s.sources, evidence, s.output.results[n]);
    RequiredIs(s.c.requirements, pages, evidence, j);
    assert Groups(r, pages, evidence)[i] == Group(r, i, pages, evidence);
  }

  lemma VerifierSlotPasses(s: Setting, round: Round, rs: seq<Receipt>, j: nat, i: nat)
    requires WellFormed(s.c) && Produced(s, round) && AllPass(round) && Supersedes(s, round, rs)
    requires j < |s.c.requirements|
    requires i < |s.c.requirements[j].verifiers| && s.c.requirements[j].verifiers[i].CommandVerifier?
    ensures var slot := VerifierSlot(s.c.requirements[j].id, i, s.c.requirements[j].verifiers[i].command);
            CommandPasses(s.k, s.c, rs, slot) && Latest(s.k, s.c, slot, rs).value in CommandEvidence(round)
  {
    var r := s.c.requirements[j];
    var command := r.verifiers[i].command;
    VerifierIsTarget(s.k, s.c, j, i);
    TargetSlotPasses(s, round, rs, CommandTarget(RequirementCommand, command, Some(r.id), Some(i), None),
                     VerifierSlot(r.id, i, command));
  }

  lemma VerifierIsTarget(k: Commands, c: Contract, j: nat, i: nat)
    requires WellFormed(c) && j < |c.requirements|
    requires i < |c.requirements[j].verifiers| && c.requirements[j].verifiers[i].CommandVerifier?
    ensures CommandTarget(RequirementCommand, c.requirements[j].verifiers[i].command, Some(c.requirements[j].id), Some(i), None)
            in CommandVerification.Targets(k, c, CommandsPhase)
  {
    var r := c.requirements[j];
    var t := CommandTarget(RequirementCommand, r.verifiers[i].command, Some(r.id), Some(i), None);
    assert VerifierCommand(r, i) == [t];
    RequirementCommandsAre(c.requirements);
  }

  /** The receipt cited for a command verifier is the only one there is. */
  lemma CitedIsRun(s: Setting, round: Round, r: Requirement, i: nat, pages: seq<Page>, refs: seq<Reference>, y: Receipt)
    requires WellFormed(s.c) && CommandsProduced(s, round)
    requires i < |r.verifiers| && r.verifiers[i].CommandVerifier?
    requires CitesOneOf(refs, Group(r, i, pages, CommandEvidence(round)))
    requires y in CommandEvidence(round) && RunsVerifier(y, r.id, i, r.verifiers[i].command)
    ensures ReceiptRef(y.id) in refs
  {
    var evidence, command := CommandEvidence(round), r.verifiers[i].command;
    CommandRefsAre(evidence, r.id, i, command);
    var group := CommandRefs(evidence, r.id, i, command);
    var g :| 0 <= g < |group| && group[g] in refs;
    assert group[g] in group;
    var n :| 0 <= n < |evidence| && RunsVerifier(evidence[n], r.id, i, command) && group[g] == ReceiptRef(evidence[n].id);
    OneVerifierReceipt(s, round, evidence[n], y, r.id, i, command);
  }

  lemma VerifierRun(s: Setting, round: Round, rs: seq<Receipt>, j: nat, i: nat) returns (y: Receipt)
    requires WellFormed(s.c) && Produced(s, round) && AllPass(round) && Supersedes(s, round, rs)
    requires j < |s.c.requirements|
    requires i < |s.c.requirements[j].verifiers| && s.c.requirements[j].verifiers[i].CommandVerifier?
    ensures var r := s.c.requirements[j];
            var slot := VerifierSlot(r.id, i, r.verifiers[i].command);
            && CommandPasses(s.k, s.c, rs, slot) && Latest(s.k, s.c, slot, rs) == Some(y)
            && y in CommandEvidence(round) && RunsVerifier(y, r.id, i, r.verifiers[i].command)
  {
    VerifierSlotPasses(s, round, rs, j, i);
    var r := s.c.requirements[j];
    y := Latest(s.k, s.c, VerifierSlot(r.id, i, r.verifiers[i].command), rs).value;
  }

  lemma CommandVerifierCited(s: Setting, round: Round, j: nat, i: nat, y: Receipt)
    requires WellFormed(s.c) && Produced(s, round) && AllPass(round)
    requires j < |s.c.requirements| && s.c.requirements[j].hard
    requires i < |s.c.requirements[j].verifiers| && s.c.requirements[j].verifiers[i].CommandVerifier?
    requires y in CommandEvidence(round) && RunsVerifier(y, s.c.requirements[j].id, i, s.c.requirements[j].verifiers[i].command)
    ensures ReceiptRef(y.id) in Cited(s.output.results, s.c.requirements[j].id)
  {
    var r := s.c.requirements[j];
    var pages := Inspect(s.lib, s.c, s.ins).pages;
    VerifierIsCited(s, pages, CommandEvidence(round), j, i);
    CitedIsRun(s, round, r, i, pages, Cited(s.output.results, r.id), y);
  }

  lemma CommandVerifierPasses(s: Setting, round: Round, rs: seq<Receipt>, j: nat, i: nat)
    requires WellFormed(s.c) && Produced(s, round) && AllPass(round) && Supersedes(s, round, rs)
    requires j < |s.c.requirements| && s.c.requirements[j].hard
    requires i < |s.c.requirements[j].verifiers| && s.c.requirements[j].verifiers[i].CommandVerifier?
    ensures VerifierPasses(s.k, s.c, rs, s.c.requirements[j], i)
  {
    var y := VerifierRun(s, round, rs, j, i);
    CommandVerifierCited(s, round, j, i, y);
    SingleSlots(s, round, rs);
  }

  lemma VerifierAllPasses(s: Setting, round: Round, rs: seq<Receipt>, j: nat, i: nat)
    requires WellFormed(s.c) && Produced(s, round) && AllPass(round) && Supersedes(s, round, rs)
    requires j < |s.c.requirements| && i < |s.c.requirements[j].verifiers| && s.c.requirements[j].hard
    ensures VerifierPasses(s.k, s.c, rs, s.c.requirements[j], i)
  {
    match s.c.requirements[j].verifiers[i] {
      case CommandVerifier(_) => CommandVerifierPasses(s, round, rs, j, i);
      case HttpVerifier(_, _, _) =>
        SingleSlots(s, round, rs);
        VerifierIsCited(s, Inspect(s.lib, s.c, s.ins).pages, CommandEvidence(round), j, i);
        HttpVerifierPasses(s.lib, s.c, s.ins, s.output.results, j, i);
      case SemanticVerifier =>
    }
  }

  lemma RequirementAllPasses(s: Setting, round: Round, rs: seq<Receipt>, j: nat)
    requires WellFormed(s.c) && Produced(s, round) && AllPass(round) && Supersedes(s, round, rs)
    requires j < |s.c.requirements|
    ensures RequirementPasses(s.k, s.c, rs, s.c.requirements[j])
  {
    SingleSlots(s, round, rs);
    forall i | 0 <= i < |s.c.requirements[j].verifiers| && s.c.requirements[j].hard
      ensures VerifierPasses(s.k, s.c, rs, s.c.requirements[j], i)
    {
      VerifierAllPasses(s, round, rs, j, i);
    }
  }

  lemma RequirementsAllPass(s: Setting, round: Round, rs: seq<Receipt>)
    requires WellFormed(s.c) && Produced(s, round) && AllPass(round) && Supersedes(s, round, rs)
    ensures RequirementsPass(s.k, s.c, rs)
  {
    forall j | 0 <= j < |s.c.requirements| ensures RequirementPasses(s.k, s.c, rs, s.c.requirements[j]) {
      RequirementAllPasses(s, round, rs, j);
    }
  }

  // ----- The theorem -----

  /**
   No honest run is rejected: a round whose producers all passed, with a clean review, passes the gate.
   */
  lemma HonestPipelinePasses(s: Setting, round: Round, all: seq<Receipt>, attested: Receipt -> bool)
    requires WellFormed(s.c) && Produced(s, round) && AllPass(round)
    requires Supersedes(s, round, OfRevision(all, s.revision))
    requires ReviewPasses(attested, OfRevision(all, s.revision))
    ensures Passes(s.k, s.c, s.revision, all, attested)
  {
    var rs := OfRevision(all, s.revision);
    CommandsAllPass(s, round, rs);
    RenderingAllPasses(s, round, rs);
    RequirementsAllPass(s, round, rs);
    SingleSlots(s, round, rs);
  }

  /** Receipts already in the store: of this revision only reviews, and others that completed earlier. */
  predicate Earlier(s: Setting, before: seq<Receipt>, started: int) {
    forall i :: 0 <= i < |before| && before[i].revision == s.revision ==>
      before[i].runId == s.runId && (before[i].body.Review? || before[i].completedAt < started)
  }

  lemma {:induction false} OfRevisionConcat(a: seq<Receipt>, b: seq<Receipt>, revision: string)
    ensures OfRevision(a + b, revision) == OfRevision(a, revision) + OfRevision(b, revision)
  {
    if a == [] {
      assert a + b == b;
    } else {
      assert (a + b)[0] == a[0] && (a + b)[1..] == a[1..] + b;
      OfRevisionConcat(a[1..], b, revision);
    }
  }

  lemma {:induction false} ReviewsConcat(a: seq<Receipt>, b: seq<Receipt>)
    requires forall r :: r in b ==> !r.body.Review?
    ensures Reviews(a + b) == Reviews(a)
  {
    if a == [] {
      assert a + b == b;
      if b != [] {
        assert b[0] in b && forall r :: r in b[1..] ==> r in b;
        ReviewsConcat([], b[1..]);
        assert [] + b[1..] == b[1..];
      }
    } else {
      assert (a + b)[0] == a[0] && (a + b)[1..] == a[1..] + b;
      ReviewsConcat(a[1..], b);
    }
  }

  function Made(round: Round): seq<Receipt> { CommandEvidence(round) + [round.preview, round.visual, round.evaluation] }

  /** The round's receipts are of this revision and completed no earlier than it started. */
  ghost predicate MadeSince(s: Setting, round: Round, started: int) {
    forall r :: InRound(r, round) ==> r.revision == s.revision && r.runId == s.runId && r.completedAt >= started && !r.body.Review?
  }

  lemma MadeIsRound(round: Round)
    ensures forall r :: r in Made(round) <==> InRound(r, round)
  {}

  lemma RoundSupersedes(s: Setting, round: Round, before: seq<Receipt>, started: int)
    requires Earlier(s, before, started) && MadeSince(s, round, started)
    ensures Supersedes(s, round, OfRevision(before + Made(round), s.revision))
  {
    var rs := OfRevision(before + Made(round), s.revision);
    MadeIsRound(round);
    forall r | r in rs ensures r.runId == s.runId && (InRound(r, round) || r.body.Review? || r.completedAt < started) {
      if r in before {
        var i :| 0 <= i < |before| && before[i] == r;
      }
    }
  }

  lemma ReviewStands(s: Setting, round: Round, before: seq<Receipt>, attested: Receipt -> bool, started: int)
    requires MadeSince(s, round, started) && ReviewPasses(attested, OfRevision(before, s.revision))
    ensures ReviewPasses(attested, OfRevision(before + Made(round), s.revision))
  {
    MadeIsRound(round);
    OfRevisionConcat(before, Made(round), s.revision);
    ReviewsConcat(OfRevision(before, s.revision), OfRevision(Made(round), s.revision));
  }

  method PreviewStage(s: Setting, stamp: Stamp) returns (r: Option<Receipt>, pages: seq<Page>)
    ensures r.Some? <==> Inspectable(s.lib, s.c, s.ins)
    ensures r.Some? ==> PreviewProduced(s, r.value) && r.value.completedAt == stamp.completedAt
    ensures r.Some? ==> pages == Inspect(s.lib, s.c, s.ins).pages
  {
    var inspected := InspectPreview(s.lib, s.c, s.ins);
    if inspected.Failure? { return None, []; }
    var checks := inspected.value.checks;
    return Some(Receipt(stamp.id, s.runId, s.revision, inspected.value.status, stamp.completedAt,
                        Preview(InputDigest(s.c), Sha(OfChecks(checks)), checks))), inspected.value.pages;
  }

  method VisualStage(s: Setting, pages: seq<Page>, stamp: Stamp, policyBounded: bool, available: bool, answer: nat -> RasterClaims.Answer)
    returns (r: Receipt)
    requires s.workspace.Assets? ==> RasterClaims.WorkspaceBounded(s.workspace.images)
    ensures VisualProduced(s, pages, r) && r.completedAt == stamp.completedAt
  {
    var status, v := RasterClaims.InspectRasterClaims(s.c, pages, policyBounded, s.workspace, available, answer);
    return Receipt(stamp.id, s.runId, s.revision, status, stamp.completedAt, Raster(v));
  }

  method EvaluationStage(s: Setting, pages: seq<Page>, evidence: seq<Receipt>, stamp: Stamp, traceId: string) returns (r: Receipt)
    ensures EvaluationProduced(s, pages, evidence, r) && r.completedAt == stamp.completedAt
  {
    var verdict, scores := EvaluateContract(s.c, pages, s.sources, evidence, s.output);
    return Receipt(stamp.id, s.runId, s.revision, verdict, stamp.completedAt,
                   ContractEvaluation(traceId, scores, s.output.results, s.output.unsupportedClaims));
  }

  method CommandStage(s: Setting, phase: Phase, outcome: nat -> Outcome, stamp: nat -> Stamp, ghost started: int)
    returns (receipts: seq<Receipt>)
    ensures Ran(CommandVerification.Targets(s.k, s.c, phase), s.runId, s.revision, receipts)
    ensures (forall i :: started <= stamp(i).completedAt) ==>
              forall r :: r in receipts ==> r.revision == s.revision && r.runId == s.runId && r.completedAt >= started && !r.body.Review?
  {
    receipts := RunCommandVerification(s.k, s.c, phase, s.runId, s.revision, outcome, stamp);
  }

  lemma RoundIsMade(s: Setting, round: Round, started: int)
    requires Produced(s, round)
    requires forall r :: r in round.commands ==> r.revision == s.revision && r.runId == s.runId && r.completedAt >= started && !r.body.Review?
    requires forall r :: r in round.delivery ==> r.revision == s.revision && r.runId == s.runId && r.completedAt >= started && !r.body.Review?
    requires round.preview.completedAt >= started && round.visual.completedAt >= started && round.evaluation.completedAt >= started
    ensures MadeSince(s, round, started)
  {}

  lemma HonestRoundPasses(s: Setting, round: Round, before: seq<Receipt>, attested: Receipt -> bool, started: int)
    requires WellFormed(s.c) && Produced(s, round) && AllPass(round) && MadeSince(s, round, started)
    requires Earlier(s, before, started) && ReviewPasses(attested, OfRevision(before, s.revision))
    ensures Passes(s.k, s.c, s.revision, before + Made(round), attested)
  {
    RoundSupersedes(s, round, before, started);
    ReviewStands(s, round, before, attested, started);
    HonestPipelinePasses(s, round, before + Made(round), attested);
  }

  /** How a verification ended: with all receipts, without a preview as a command failed, or by an exception. */
  datatype Verified =
    | WithPreview(round: Round)
    | WithoutPreview(commands: seq<Receipt>, delivery: seq<Receipt>, visual: Receipt, evaluation: Receipt)
    | Aborted

  function MadeBy(v: Verified): seq<Receipt> {
    match v
    case WithPreview(round) => Made(round)
    case WithoutPreview(commands, delivery, visual, evaluation) => commands + delivery + [visual, evaluation]
    case Aborted => []
  }

  predicate CommandsPassed(receipts: seq<Receipt>) {
    forall i :: 0 <= i < |receipts| ==> receipts[i].status == Pass
  }

  /** What each producer made of the setting, with or without pages. */
  ghost predicate VerifiedFrom(s: Setting, v: Verified) {
    match v
    case WithPreview(round) => Produced(s, round) && CommandsPassed(CommandEvidence(round))
    case WithoutPreview(commands, delivery, visual, evaluation) =>
      && Ran(CommandVerification.Targets(s.k, s.c, CommandsPhase), s.runId, s.revision, commands)
      && Ran(CommandVerification.Targets(s.k, s.c, DeliveryPhase), s.runId, s.revision, delivery)
      && !CommandsPassed(commands + delivery)
      && VisualProduced(s, [], visual) && EvaluationProduced(s, [], commands + delivery, evaluation)
    case Aborted => !Inspectable(s.lib, s.c, s.ins)
  }

  /** Without a preview of the revision the gate refuses it. */
  lemma SkippedIsRefused(s: Setting, before: seq<Receipt>, attested: Receipt -> bool, v: Verified)
    requires v.WithoutPreview? && VerifiedFrom(s, v)
    requires forall r :: r in before && r.revision == s.revision ==> !r.body.Preview?
    ensures !Passes(s.k, s.c, s.revision, before + MadeBy(v), attested)
  {
    var all := before + MadeBy(v);
    forall r | r in all && r.revision == s.revision ensures !r.body.Preview? {
      if r in v.commands {
        var i :| 0 <= i < |v.commands| && v.commands[i] == r;
        assert IsFor(CommandVerification.Targets(s.k, s.c, CommandsPhase)[i], s.runId, s.revision, v.commands[i]);
      }
      if r in v.delivery {
        var i :| 0 <= i < |v.delivery| && v.delivery[i] == r;
        assert IsFor(CommandVerification.Targets(s.k, s.c, DeliveryPhase)[i], s.runId, s.revision, v.delivery[i]);
      }
    }
    LatestIsOne(s.k, s.c, PreviewSlot, OfRevision(all, s.revision));
  }

  /**
   The producers in the order in which a revision is verified, then the gate over the whole store. The
   preview is inspected only when all commands passed.
   */
  method VerifyRound(s: Setting, before: seq<Receipt>, attested: Receipt -> bool, traceId: string,
                     outcome: nat -> Outcome, deliveryOutcome: nat -> Outcome, stamp: nat -> Stamp, deliveryStamp: nat -> Stamp,
                     policyBounded: bool, available: bool, answer: nat -> RasterClaims.Answer, ghost started: int)
    returns (end: Verified, decision: Decision)
    requires s.workspace.Assets? ==> RasterClaims.WorkspaceBounded(s.workspace.images)
    requires forall i :: started <= stamp(i).completedAt && started <= deliveryStamp(i).completedAt
    ensures VerifiedFrom(s, end)
    ensures !end.Aborted? ==> (decision.passed <==> Passes(s.k, s.c, s.revision, before + MadeBy(end), attested))
    ensures end.WithPreview? && WellFormed(s.c) && AllPass(end.round) && Earlier(s, before, started)
            && ReviewPasses(attested, OfRevision(before, s.revision))
            ==> decision.passed
    ensures end.WithoutPreview? && (forall r :: r in before && r.revision == s.revision ==> !r.body.Preview?) ==> !decision.passed
  {
    var commands := CommandStage(s, CommandsPhase, outcome, stamp, started);
    var delivery := CommandStage(s, DeliveryPhase, deliveryOutcome, deliveryStamp, started);
    var n := |delivery|;
    if CommandsPassed(commands + delivery) {
      var made := InspectedStage(s, commands, delivery, deliveryStamp(n), deliveryStamp(n + 1), deliveryStamp(n + 2), traceId,
                                 policyBounded, available, answer, started);
      if made.None? { return Aborted, Decision(false, []); }
      end := WithPreview(made.value);
    } else {
      var visual := VisualStage(s, [], deliveryStamp(n), policyBounded, available, answer);
      var evaluation := EvaluationStage(s, [], commands + delivery, deliveryStamp(n + 1), traceId);
      end := WithoutPreview(commands, delivery, visual, evaluation);
    }
    decision := DecideProof(s.k, s.c, s.revision, before + MadeBy(end), attested);
    if end.WithPreview? {
      if WellFormed(s.c) && AllPass(end.round) && Earlier(s, before, started) && ReviewPasses(attested, OfRevision(before, s.revision)) {
        HonestRoundPasses(s, end.round, before, attested, started);
      }
    } else if forall r :: r in before && r.revision == s.revision ==> !r.body.Preview? {
      SkippedIsRefused(s, before, attested, end);
    }
  }

  /** Preview, pixels and evaluation; None is the exception of the inspector. */
  method InspectedStage(s: Setting, commands: seq<Receipt>, delivery: seq<Receipt>, previewStamp: Stamp, visualStamp: Stamp,
                        evaluationStamp: Stamp, traceId: string, policyBounded: bool, available: bool,
                        answer: nat -> RasterClaims.Answer, ghost started: int)
    returns (round: Option<Round>)
    requires s.workspace.Assets? ==> RasterClaims.WorkspaceBounded(s.workspace.images)
    requires Ran(CommandVerification.Targets(s.k, s.c, CommandsPhase), s.runId, s.revision, commands)
    requires Ran(CommandVerification.Targets(s.k, s.c, DeliveryPhase), s.runId, s.revision, delivery)
    requires forall r :: r in commands ==> r.revision == s.revision && r.runId == s.runId && r.completedAt >= started && !r.body.Review?
    requires forall r :: r in delivery ==> r.revision == s.revision && r.runId == s.runId && r.completedAt >= started && !r.body.Review?
    requires previewStamp.completedAt >= started && visualStamp.completedAt >= started && evaluationStamp.completedAt >= started
    ensures round.Some? <==> Inspectable(s.lib, s.c, s.ins)
    ensures round.Some? ==> round.value.commands == commands && round.value.delivery == delivery
    ensures round.Some? ==> Produced(s, round.value) && MadeSince(s, round.value, started)
  {
    var preview, pages := PreviewStage(s, previewStamp);
    if preview.None? { return None; }
    var visual := VisualStage(s, pages, visualStamp, policyBounded, available, answer);
    var evaluation := EvaluationStage(s, pages, commands + delivery, evaluationStamp, traceId);
    var made := Round(commands, delivery, preview.value, visual, evaluation);
    RoundIsMade(s, made, started);
    round := Some(made);
  }
}
