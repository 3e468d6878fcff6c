/**
 Running the controller's commands (src/application/verification.ts, commandTargets and
 runCommandVerification): one receipt for each command, in order, up to a dependency bootstrap that does
 not pass; nothing runs after that.
 */
module CommandVerification {
  import opened Wrappers
  import opened Text
  import opened Evidence
  import opened ProofGate

  datatype Phase = CommandsPhase | DeliveryPhase

  datatype CommandTarget = CommandTarget(
    kind: CommandKind, command: string, requirementId: Option<string>, verifierIndex: Option<nat>,
    claimIndices: Option<seq<nat>>)

  function Plain(kind: CommandKind, command: string): CommandTarget { CommandTarget(kind, command, None, None, None) }

  function TestTargets(commands: seq<string>): seq<CommandTarget> {
    if commands == [] then [] else [Plain(Test, commands[0])] + TestTargets(commands[1..])
  }

  function VerifierCommand(r: Requirement, i: nat): seq<CommandTarget>
    requires i < |r.verifiers|
  {
    if r.verifiers[i].CommandVerifier? && r.id != "" then
      [CommandTarget(RequirementCommand, r.verifiers[i].command, Some(r.id), Some(i), None)]
    else []
  }

  function VerifierCommands(r: Requirement, i: nat): seq<CommandTarget>
    requires i <= |r.verifiers|
    decreases |r.verifiers| - i
  {
    if i == |r.verifiers| then [] else VerifierCommand(r, i) + VerifierCommands(r, i + 1)
  }

  function RequirementCommands(rs: seq<Requirement>): seq<CommandTarget> {
    if rs == [] then [] else VerifierCommands(rs[0], 0) + RequirementCommands(rs[1..])
  }

  function FixedTargets(k: Commands, c: Contract): seq<CommandTarget> {
    (if c.forbiddenClaims != [] then
       [CommandTarget(ForbiddenClaim, k.scan(c.forbiddenClaims), None, None, Some(Indices(|c.forbiddenClaims|)))]
     else []) +
    [Plain(DependencyBootstrap, k.bootstrap), Plain(Build, c.buildCommand)] + TestTargets(c.testCommands)
  }

  function Targets(k: Commands, c: Contract, phase: Phase): seq<CommandTarget> {
    match phase
    case DeliveryPhase => [Plain(Artifact, k.dockerfile), Plain(ContainerBuild, k.container)]
    case CommandsPhase => FixedTargets(k, c) + RequirementCommands(c.requirements)
  }

  /** commandTargets: the requirements' commands are pushed one by one. */
  method CommandTargets(k: Commands, c: Contract, phase: Phase) returns (targets: seq<CommandTarget>)
    ensures targets == Targets(k, c, phase)
  {
    if phase.DeliveryPhase? { return [Plain(Artifact, k.dockerfile), Plain(ContainerBuild, k.container)]; }
    targets := FixedTargets(k, c);
    var rs := c.requirements;
    assert rs[0..] == rs;
    for j := 0 to |rs|
      invariant targets + RequirementCommands(rs[j..]) == Targets(k, c, phase)
    {
      assert rs[j..][1..] == rs[j + 1..];
      ConcatAssociates(targets, VerifierCommands(rs[j], 0), RequirementCommands(rs[j + 1..]));
      for i := 0 to |rs[j].verifiers|
        invariant targets + VerifierCommands(rs[j], i) + RequirementCommands(rs[j + 1..]) == Targets(k, c, phase)
      {
        ConcatAssociates(targets, VerifierCommand(rs[j], i), VerifierCommands(rs[j], i + 1));
        if rs[j].verifiers[i].CommandVerifier? && rs[j].id != "" {
          targets := targets + [CommandTarget(RequirementCommand, rs[j].verifiers[i].command, Some(rs[j].id), Some(i), None)];
        } else {
          EmptyConcat(targets);
        }
      }
      EmptyConcat(targets);
    }
    EmptyConcat(targets);
  }

  /** What a command run comes to: an exit code, or an exception. */
  datatype Outcome = Exited(code: int) | Threw

  datatype Stamp = Stamp(id: string, completedAt: int)

  function ReceiptFor(runId: string, revision: string, t: CommandTarget, o: Outcome, s: Stamp): Receipt {
    var exitCode := match o case Exited(code) => Some(code) case Threw => None;
    Receipt(s.id, runId, revision, StatusOf(o), s.completedAt,
            Command(t.kind, t.command, exitCode, t.requirementId, t.verifierIndex, t.claimIndices))
  }

  /** The run of the commands ends with this one. */
  predicate Stops(t: CommandTarget, status: Status) { t.kind == DependencyBootstrap && status != Pass }

  /**
   The receipts are for the first of the targets, one each and in order, and pass exactly on exit code 0.
   They stop short of the last target only after a bootstrap that did not pass.
   */
  ghost predicate Ran(targets: seq<CommandTarget>, runId: string, revision: string, receipts: seq<Receipt>) {
    && |receipts| <= |targets|
    && (forall i :: 0 <= i < |receipts| ==> IsFor(targets[i], runId, revision, receipts[i]))
    && (forall i :: 0 <= i < |receipts| - 1 ==> !Stops(targets[i], receipts[i].status))
    && (|receipts| < |targets| ==> receipts != [] && Stops(targets[|receipts| - 1], receipts[|receipts| - 1].status))
  }

  /** When all receipts pass, there is one for every target. */
  lemma PassingRanAll(targets: seq<CommandTarget>, runId: string, revision: string, receipts: seq<Receipt>)
    requires Ran(targets, runId, revision, receipts) && forall i :: 0 <= i < |receipts| ==> receipts[i].status == Pass
    ensures |receipts| == |targets|
  {}

  predicate IsFor(t: CommandTarget, runId: string, revision: string, r: Receipt) {
    && r.runId == runId && r.revision == revision && r.body.Command?
    && r.body.kind == t.kind && r.body.command == t.command && r.body.requirementId == t.requirementId
    && r.body.verifierIndex == t.verifierIndex && r.body.claimIndices == t.claimIndices
    && (r.status == Pass <==> r.body.exitCode == Some(0))
  }

  function StatusOf(o: Outcome): Status {
    match o
    case Exited(code) => if code == 0 then Pass else Fail
    case Threw => Error
  }

  /** How many of the targets are run, from number `i` on. */
  function RunLength(targets: seq<CommandTarget>, outcome: nat -> Outcome, i: nat): (n: nat)
    requires i <= |targets|
    decreases |targets| - i
  {
    if i == |targets| then i
    else if Stops(targets[i], StatusOf(outcome(i))) then i + 1
    else RunLength(targets, outcome, i + 1)
  }

  /** All are run when none stops the run; otherwise they end with the first that does. */
  lemma {:induction false} RunLengthIs(targets: seq<CommandTarget>, outcome: nat -> Outcome, i: nat)
    requires i <= |targets|
    ensures var n := RunLength(targets, outcome, i);
            && i <= n <= |targets|
            && (forall j :: i <= j < n - 1 ==> !Stops(targets[j], StatusOf(outcome(j))))
            && (n == |targets| || (i < n && Stops(targets[n - 1], StatusOf(outcome(n - 1)))))
    ensures (forall j :: i <= j < |targets| ==> !Stops(targets[j], StatusOf(outcome(j)))) ==> RunLength(targets, outcome, i) == |targets|
    decreases |targets| - i
  {
    if i < |targets| && !Stops(targets[i], StatusOf(outcome(i))) { RunLengthIs(targets, outcome, i + 1); }
  }

  lemma LastOf<T>(a: seq<T>, b: seq<T>)
    requires b != []
    ensures (a + b)[|a + b| - 1] == b[|b| - 1]
  {}

  /** The last target is a requirement's command, a test or the build. */
  lemma LastIsNoBootstrap(k: Commands, c: Contract)
    ensures var targets := Targets(k, c, CommandsPhase); targets != [] && targets[|targets| - 1].kind != DependencyBootstrap
  {
    var fixed, tests, commands := FixedTargets(k, c), TestTargets(c.testCommands), RequirementCommands(c.requirements);
    TestTargetsAreTests(c.testCommands);
    RequirementCommandKinds(c.requirements);
    if commands != [] {
      LastOf(fixed, commands);
      assert commands[|commands| - 1] in commands;
    } else {
      EmptyConcat(fixed);
      if tests != [] { assert fixed[|fixed| - 1] == tests[|tests| - 1] && tests[|tests| - 1] in tests; }
    }
  }

  /** A bootstrap is never the last target: the build follows it. */
  lemma BootstrapIsFollowed(k: Commands, c: Contract, phase: Phase, i: nat)
    requires i < |Targets(k, c, phase)| && Targets(k, c, phase)[i].kind == DependencyBootstrap
    ensures i + 1 < |Targets(k, c, phase)|
  {
    if phase.CommandsPhase? { LastIsNoBootstrap(k, c); }
  }

  /** All targets are run exactly when no bootstrap among them fails. */
  lemma AllRunExactlyWhen(k: Commands, c: Contract, phase: Phase, outcome: nat -> Outcome)
    ensures var targets := Targets(k, c, phase);
            RunLength(targets, outcome, 0) == |targets| <==>
            forall i :: 0 <= i < |targets| ==> !Stops(targets[i], StatusOf(outcome(i)))
  {
    var targets := Targets(k, c, phase);
    RunLengthIs(targets, outcome, 0);
    var n := RunLength(targets, outcome, 0);
    forall i | 0 <= i < |targets| && Stops(targets[i], StatusOf(outcome(i))) ensures n < |targets| {
      BootstrapIsFollowed(k, c, phase, i);
    }
  }

  /** A failed bootstrap of a contract without forbidden claims: one receipt, and no build. */
  lemma FailedBootstrapIsLast(k: Commands, c: Contract, outcome: nat -> Outcome)
    requires c.forbiddenClaims == [] && outcome(0) != Exited(0)
    ensures RunLength(Targets(k, c, CommandsPhase), outcome, 0) == 1 < |Targets(k, c, CommandsPhase)|
  {
    assert Targets(k, c, CommandsPhase)[0] == Plain(DependencyBootstrap, k.bootstrap);
    BootstrapIsFollowed(k, c, CommandsPhase, 0);
  }

  /** The receipts of the targets that are run. */
  predicate AreReceipts(targets: seq<CommandTarget>, runId: string, revision: string, outcome: nat -> Outcome, stamp: nat -> Stamp,
                        receipts: seq<Receipt>)
  {
    && |receipts| <= |targets|
    && forall i :: 0 <= i < |receipts| ==> receipts[i] == ReceiptFor(runId, revision, targets[i], outcome(i), stamp(i))
  }

  lemma ReceiptsRan(targets: seq<CommandTarget>, runId: string, revision: string, outcome: nat -> Outcome, stamp: nat -> Stamp,
                    receipts: seq<Receipt>)
    requires AreReceipts(targets, runId, revision, outcome, stamp, receipts) && |receipts| == RunLength(targets, outcome, 0)
    ensures Ran(targets, runId, revision, receipts)
  {
    RunLengthIs(targets, outcome, 0);
    forall i | 0 <= i < |receipts| ensures receipts[i].status == StatusOf(outcome(i)) {}
  }

  /** runCommandVerification: the loop breaks after a bootstrap that did not pass. */
  method RunCommandVerification(k: Commands, c: Contract, phase: Phase, runId: string, revision: string,
                                outcome: nat -> Outcome, stamp: nat -> Stamp)
    returns (receipts: seq<Receipt>)
    ensures AreReceipts(Targets(k, c, phase), runId, revision, outcome, stamp, receipts)
    ensures |receipts| == RunLength(Targets(k, c, phase), outcome, 0)
    ensures Ran(Targets(k, c, phase), runId, revision, receipts)
  {
    var targets := CommandTargets(k, c, phase);
    receipts := RunTargets(targets, runId, revision, outcome, stamp);
    ReceiptsRan(targets, runId, revision, outcome, stamp, receipts);
  }

  method RunTargets(targets: seq<CommandTarget>, runId: string, revision: string, outcome: nat -> Outcome, stamp: nat -> Stamp)
    returns (receipts: seq<Receipt>)
    ensures AreReceipts(targets, runId, revision, outcome, stamp, receipts)
    ensures |receipts| == RunLength(targets, outcome, 0)
  {
    receipts := [];
    for i := 0 to |targets|
      invariant |receipts| == i && RunLength(targets, outcome, i) == RunLength(targets, outcome, 0)
      invariant AreReceipts(targets, runId, revision, outcome, stamp, receipts)
    {
      var receipt := ReceiptFor(runId, revision, targets[i], outcome(i), stamp(i));
      receipts := receipts + [receipt];
      if targets[i].kind == DependencyBootstrap && receipt.status != Pass { break; }
    }
  }

  // ----- Which targets there are -----

  lemma {:induction false} TestTargetAt(commands: seq<string>, i: nat)
    requires i < |commands|
    ensures Plain(Test, commands[i]) in TestTargets(commands)
  {
    if i > 0 { TestTargetAt(commands[1..], i - 1); }
  }

  lemma {:induction false} TestTargetsAreTests(commands: seq<string>)
    ensures forall t :: t in TestTargets(commands) ==> t.kind == Test
  {
    if commands != [] { TestTargetsAreTests(commands[1..]); }
  }

  lemma {:induction false} VerifierCommandKinds(r: Requirement, i: nat)
    requires i <= |r.verifiers|
    ensures forall t :: t in VerifierCommands(r, i) ==> t.kind == RequirementCommand
    decreases |r.verifiers| - i
  {
    if i < |r.verifiers| { VerifierCommandKinds(r, i + 1); }
  }

  lemma {:induction false} RequirementCommandKinds(rs: seq<Requirement>)
    ensures forall t :: t in RequirementCommands(rs) ==> t.kind == RequirementCommand
  {
    if rs != [] {
      VerifierCommandKinds(rs[0], 0);
      RequirementCommandKinds(rs[1..]);
    }
  }

  lemma {:induction false} VerifierCommandsAre(r: Requirement, i: nat)
    requires i <= |r.verifiers| && r.id != ""
    ensures forall t :: t in VerifierCommands(r, i) <==> exists j :: i <= j < |r.verifiers| && VerifierCommand(r, j) == [t]
    decreases |r.verifiers| - i
  {
    if i < |r.verifiers| {
      VerifierCommandsAre(r, i + 1);
      forall t | t in VerifierCommand(r, i) ensures VerifierCommand(r, i) == [t] {}
    }
  }

  lemma {:induction false} RequirementCommandsAre(rs: seq<Requirement>)
    requires forall j :: 0 <= j < |rs| ==> rs[j].id != ""
    ensures forall t :: t in RequirementCommands(rs) <==>
              exists j, i :: 0 <= j < |rs| && 0 <= i < |rs[j].verifiers| && VerifierCommand(rs[j], i) == [t]
  {
    if rs != [] {
      var rest := rs[1..];
      RequirementCommandsAre(rest);
      VerifierCommandsAre(rs[0], 0);
      forall t ensures t in RequirementCommands(rs) <==>
                       exists j, i :: 0 <= j < |rs| && 0 <= i < |rs[j].verifiers| && VerifierCommand(rs[j], i) == [t]
      {
        if t in RequirementCommands(rest) {
          var j, i :| 0 <= j < |rest| && 0 <= i < |rest[j].verifiers| && VerifierCommand(rest[j], i) == [t];
          assert rs[j + 1] == rest[j] && VerifierCommand(rs[j + 1], i) == [t];
        }
        if j, i :| 0 <= j < |rs| && 0 <= i < |rs[j].verifiers| && VerifierCommand(rs[j], i) == [t] {
          if j > 0 { assert rest[j - 1] == rs[j]; }
        }
      }
    }
  }
}
