/**
 The contract evaluator (src/application/contract-evaluator.ts): the model's verdicts count only when
 they cite controller evidence, and for a passing requirement evidence of each of its verifiers.
 */
module ContractEvaluation {
  import opened Wrappers
  import opened Lists
  import opened Evidence
  import opened PreviewInspection

  datatype SourceFile = SourceFile(path: string, contents: string)

  /** The model's answer. */
  datatype Output = Output(results: seq<Evaluation>, unsupportedClaims: nat)

  datatype Malformed =
    | UnknownRequirement(id: string) | DuplicateRequirement(id: string) | PassWithoutEvidence(id: string)
    | UnknownEvidence(ref: Reference, id: string) | NoEvidence(verifierIndex: nat, id: string)
    | NotCited(verifierIndex: nat, id: string) | OmittedRequirement(id: string)

  // ----- The evidence policy -----

  /** The value of the map of page references at a path: the last page with that path. */
  function PageRefAt(pages: seq<Page>, path: string): Option<Reference> {
    if pages == [] then None
    else if pages[|pages| - 1].path == path then Some(PageRef(path, Sha(OfText(pages[|pages| - 1].visibleText))))
    else PageRefAt(pages[..|pages| - 1], path)
  }

  function PageRefs(pages: seq<Page>, paths: seq<string>): seq<Reference> {
    if paths == [] then []
    else
      (match PageRefAt(pages, paths[0])
       case Some(ref) => [ref]
       case None => []) + PageRefs(pages, paths[1..])
  }

  function SemanticRefs(pages: seq<Page>): seq<Reference> {
    PageRefs(pages, Distinct(Map((p: Page) => p.path, pages)))
  }

  predicate RunsVerifier(r: Receipt, id: string, index: nat, command: string) {
    && r.body.Command? && r.body.kind == RequirementCommand
    && r.body.requirementId == Some(id) && r.body.verifierIndex == Some(index) && r.body.command == command
  }

  function CommandRefs(evidence: seq<Receipt>, id: string, index: nat, command: string): seq<Reference> {
    if evidence == [] then []
    else
      (if RunsVerifier(evidence[0], id, index, command) then [ReceiptRef(evidence[0].id)] else []) +
      CommandRefs(evidence[1..], id, index, command)
  }

  /** The references of which a passing verdict must cite one for this verifier. */
  function Group(r: Requirement, index: nat, pages: seq<Page>, evidence: seq<Receipt>): seq<Reference>
    requires index < |r.verifiers|
  {
    match r.verifiers[index]
    case CommandVerifier(command) => CommandRefs(evidence, r.id, index, command)
    case HttpVerifier(path, _, _) =>
      (match PageRefAt(pages, path)
       case Some(ref) => [ref]
       case None => [])
    case SemanticVerifier => SemanticRefs(pages)
  }

  function Groups(r: Requirement, pages: seq<Page>, evidence: seq<Receipt>): seq<seq<Reference>> {
    if r.verifiers == [] then [SemanticRefs(pages)]
    else seq(|r.verifiers|, i requires 0 <= i < |r.verifiers| => Group(r, i, pages, evidence))
  }

  /** The required references by requirement id; a later requirement of the same id replaces an earlier. */
  function Required(rs: seq<Requirement>, pages: seq<Page>, evidence: seq<Receipt>): map<string, seq<seq<Reference>>> {
    if rs == [] then map[]
    else
      var last := rs[|rs| - 1];
      Required(rs[..|rs| - 1], pages, evidence)[last.id := Groups(last, pages, evidence)]
  }

  predicate Available(c: Contract, pages: seq<Page>, sources: seq<SourceFile>, evidence: seq<Receipt>, ref: Reference) {
    match ref
    case FactRef(id) => exists k :: 0 <= k < |c.approvedFacts| && c.approvedFacts[k].id == id
    case ReceiptRef(id) => exists k :: 0 <= k < |evidence| && evidence[k].id == id
    case PageRef(path, _) => PageRefAt(pages, path) == Some(ref)
    case SourceRef(path, text) => exists k :: 0 <= k < |sources| && sources[k].path == path && text == Sha(OfText(sources[k].contents))
    case OtherRef(_) => false
  }

  // ----- Sound answers -----

  predicate GroupsCited(refs: seq<Reference>, groups: seq<seq<Reference>>) {
    forall k :: 0 <= k < |groups| ==> CitesOneOf(refs, groups[k])
  }

  predicate CitesOneOf(refs: seq<Reference>, group: seq<Reference>) {
    exists k :: 0 <= k < |group| && group[k] in refs
  }

  /** One verdict is grounded in the controller's evidence. */
  ghost predicate Grounded(c: Contract, pages: seq<Page>, sources: seq<SourceFile>, evidence: seq<Receipt>, e: Evaluation) {
    var required := Required(c.requirements, pages, evidence);
    && e.requirementId in required
    && (e.verdict == Passed ==> e.evidenceRefs != [] && GroupsCited(e.evidenceRefs, required[e.requirementId]))
    && (forall k :: 0 <= k < |e.evidenceRefs| ==> Available(c, pages, sources, evidence, e.evidenceRefs[k]))
  }

  ghost predicate GroundedTo(c: Contract, pages: seq<Page>, sources: seq<SourceFile>, evidence: seq<Receipt>,
                             results: seq<Evaluation>, n: nat)
    requires n <= |results|
  {
    && (forall k :: 0 <= k < n ==> Grounded(c, pages, sources, evidence, results[k]))
    && (forall j, k :: 0 <= j < k < n ==> results[j].requirementId != results[k].requirementId)
  }

  predicate Covers(rs: seq<Requirement>, results: seq<Evaluation>) {
    forall k :: 0 <= k < |rs| ==> Mentioned(results, rs[k].id)
  }

  predicate Mentioned(results: seq<Evaluation>, id: string) {
    exists k :: 0 <= k < |results| && results[k].requirementId == id
  }

  /** Every requirement has one verdict, and every verdict is grounded. */
  ghost predicate Sound(c: Contract, pages: seq<Page>, sources: seq<SourceFile>, evidence: seq<Receipt>, o: Output) {
    GroundedTo(c, pages, sources, evidence, o.results, |o.results|) && Covers(c.requirements, o.results)
  }

  /** The verdict on a requirement: the first of its results. */
  function VerdictOn(results: seq<Evaluation>, id: string): Option<Evaluation> {
    if results == [] then None
    else if results[0].requirementId == id then Some(results[0])
    else VerdictOn(results[1..], id)
  }

  predicate Approved(results: seq<Evaluation>, id: string) {
    VerdictOn(results, id).Some? && VerdictOn(results, id).value.verdict == Passed
  }

  /** Every hard requirement passes. */
  predicate HardApproved(rs: seq<Requirement>, results: seq<Evaluation>) {
    forall k :: 0 <= k < |rs| && rs[k].hard ==> Approved(results, rs[k].id)
  }

  // ----- The evaluator -----

  method RequiredRefs(rs: seq<Requirement>, pages: seq<Page>, evidence: seq<Receipt>)
    returns (required: map<string, seq<seq<Reference>>>)
    ensures required == Required(rs, pages, evidence)
  {
    required := map[];
    assert rs[..0] == [];
    for k := 0 to |rs|
      invariant required == Required(rs[..k], pages, evidence)
    {
      assert rs[..k + 1][..k] == rs[..k];
      required := required[rs[k].id := Groups(rs[k], pages, evidence)];
    }
    assert rs[..|rs|] == rs;
  }

  /** What is wrong with the citations of one passing verdict. */
  method CitationFaults(e: Evaluation, groups: seq<seq<Reference>>) returns (faults: seq<Malformed>)
    ensures faults == [] <==> GroupsCited(e.evidenceRefs, groups)
  {
    faults := [];
    for k := 0 to |groups|
      invariant faults == [] <==> forall j :: 0 <= j < k ==> CitesOneOf(e.evidenceRefs, groups[j])
    {
      if |groups[k]| == 0 {
        faults := faults + [NoEvidence(k, e.requirementId)];
      } else if !CitesOneOf(e.evidenceRefs, groups[k]) {
        faults := faults + [NotCited(k, e.requirementId)];
      }
    }
  }

  method ReferenceFaults(c: Contract, pages: seq<Page>, sources: seq<SourceFile>, evidence: seq<Receipt>, e: Evaluation)
    returns (faults: seq<Malformed>)
    ensures faults == [] <==> forall k :: 0 <= k < |e.evidenceRefs| ==> Available(c, pages, sources, evidence, e.evidenceRefs[k])
  {
    faults := [];
    for k := 0 to |e.evidenceRefs|
      invariant faults == [] <==> forall j :: 0 <= j < k ==> Available(c, pages, sources, evidence, e.evidenceRefs[j])
    {
      if !Available(c, pages, sources, evidence, e.evidenceRefs[k]) {
        faults := faults + [UnknownEvidence(e.evidenceRefs[k], e.requirementId)];
      }
    }
  }

  method VerdictFaults(c: Contract, pages: seq<Page>, sources: seq<SourceFile>, evidence: seq<Receipt>,
                       required: map<string, seq<seq<Reference>>>, e: Evaluation)
    returns (faults: seq<Malformed>)
    requires required == Required(c.requirements, pages, evidence)
    ensures faults == [] <==> Grounded(c, pages, sources, evidence, e)
  {
    faults := if e.requirementId in required then [] else [UnknownRequirement(e.requirementId)];
    if e.verdict == Passed && |e.evidenceRefs| == 0 {
      faults := faults + [PassWithoutEvidence(e.requirementId)];
    }
    var more := ReferenceFaults(c, pages, sources, evidence, e);
    faults := faults + more;
    if e.verdict == Passed && e.requirementId in required {
      more := CitationFaults(e, required[e.requirementId]);
      faults := faults + more;
    }
  }

  ghost predicate MentionedIs(seen: set<string>, results: seq<Evaluation>) {
    forall id :: id in seen <==> Mentioned(results, id)
  }

  lemma GroundedStep(c: Contract, pages: seq<Page>, sources: seq<SourceFile>, evidence: seq<Receipt>,
                     results: seq<Evaluation>, k: nat)
    requires k < |results|
    ensures GroundedTo(c, pages, sources, evidence, results, k + 1) <==>
            && GroundedTo(c, pages, sources, evidence, results, k)
            && Grounded(c, pages, sources, evidence, results[k])
            && !Mentioned(results[..k], results[k].requirementId)
  {
    if Mentioned(results[..k], results[k].requirementId) {
      var j :| 0 <= j < k && results[..k][j].requirementId == results[k].requirementId;
      assert results[j].requirementId == results[k].requirementId;
    } else {
      forall j | 0 <= j < k ensures results[j].requirementId != results[k].requirementId {
        assert results[..k][j] == results[j];
      }
    }
  }

  lemma NoneOfBoth<T>(a: seq<T>, b: seq<T>)
    ensures a + b == [] <==> a == [] && b == []
  {
    assert |a + b| == |a| + |b|;
  }

  /** One turn of the loop over the verdicts. */
  method ResultFaults(c: Contract, pages: seq<Page>, sources: seq<SourceFile>, evidence: seq<Receipt>,
                      required: map<string, seq<seq<Reference>>>, results: seq<Evaluation>, k: nat, seen: set<string>)
    returns (faults: seq<Malformed>)
    requires k < |results| && MentionedIs(seen, results[..k]) && required == Required(c.requirements, pages, evidence)
    ensures GroundedTo(c, pages, sources, evidence, results, k + 1) <==>
            GroundedTo(c, pages, sources, evidence, results, k) && faults == []
  {
    var e := results[k];
    faults := VerdictFaults(c, pages, sources, evidence, required, e);
    if e.requirementId in seen { faults := faults + [DuplicateRequirement(e.requirementId)]; }
    GroundedStep(c, pages, sources, evidence, results, k);
  }

  /** All that is malformed about the answer; nothing is exactly when it is sound. */
  method FindMalformed(c: Contract, pages: seq<Page>, sources: seq<SourceFile>, evidence: seq<Receipt>, o: Output)
    returns (faults: seq<Malformed>)
    ensures faults == [] <==> Sound(c, pages, sources, evidence, o)
  {
    var required := RequiredRefs(c.requirements, pages, evidence);
    var seen: set<string> := {};
    faults := [];
    for k := 0 to |o.results|
      invariant faults == [] <==> GroundedTo(c, pages, sources, evidence, o.results, k)
      invariant MentionedIs(seen, o.results[..k])
    {
      ghost var before := faults;
      var more := ResultFaults(c, pages, sources, evidence, required, o.results, k, seen);
      faults := faults + more;
      SeenGrows(seen, o.results, k);
      seen := seen + {o.results[k].requirementId};
      NoneOfBoth(before, more);
    }
    assert o.results[..|o.results|] == o.results;
    var omitted := FindOmitted(c.requirements, o.results, seen);
    faults := faults + omitted;
  }

  method FindOmitted(rs: seq<Requirement>, results: seq<Evaluation>, seen: set<string>) returns (faults: seq<Malformed>)
    requires MentionedIs(seen, results)
    ensures faults == [] <==> Covers(rs, results)
  {
    faults := [];
    for k := 0 to |rs|
      invariant faults == [] <==> forall j :: 0 <= j < k ==> Mentioned(results, rs[j].id)
    {
      if rs[k].id !in seen { faults := faults + [OmittedRequirement(rs[k].id)]; }
    }
  }

  lemma SeenGrows(seen: set<string>, results: seq<Evaluation>, k: nat)
    requires k < |results| && MentionedIs(seen, results[..k])
    ensures MentionedIs(seen + {results[k].requirementId}, results[..k + 1])
  {
    forall id ensures Mentioned(results[..k + 1], id) <==> Mentioned(results[..k], id) || id == results[k].requirementId {
      if Mentioned(results[..k], id) {
        var j :| 0 <= j < k && results[..k][j].requirementId == id;
        assert results[..k + 1][j].requirementId == id;
      }
      if id == results[k].requirementId { assert results[..k + 1][k].requirementId == id; }
    }
  }

  /** evaluateContract, given the model's answer. */
  method EvaluateContract(c: Contract, pages: seq<Page>, sources: seq<SourceFile>, evidence: seq<Receipt>, o: Output)
    returns (status: Status, scores: Scores)
    ensures status == Error <==> !Sound(c, pages, sources, evidence, o)
    ensures status == Pass <==>
            Sound(c, pages, sources, evidence, o) && HardApproved(c.requirements, o.results) && o.unsupportedClaims == 0
    ensures scores.hardRequirements == 1 <==> HardApproved(c.requirements, o.results) && status != Error
    ensures scores.supportedBusinessFacts == 1 <==> o.unsupportedClaims == 0
    ensures scores.evidenceGrounding == 1 <==> status != Error
    ensures 0.0 <= scores.preferenceSatisfaction <= 1.0
  {
    var faults := FindMalformed(c, pages, sources, evidence, o);
    var hardFailures := HardFailures(c.requirements, o.results);
    var preferences := Preferences(c.requirements);
    var passing := Passing(preferences, o.results);
    status :=
      if |faults| > 0 then Error
      else if |hardFailures| > 0 || o.unsupportedClaims > 0 then Fail
      else Pass;
    scores := Scores(
      if |hardFailures| == 0 && |faults| == 0 then 1 else 0,
      if o.unsupportedClaims == 0 then 1 else 0,
      if |faults| == 0 then 1 else 0,
      Share(|passing|, |preferences|));
  }

  function Share(part: nat, whole: nat): (share: real)
    requires part <= whole
    ensures 0.0 <= share <= 1.0 && (share == 1.0 <==> part == whole)
  {
    if whole == 0 then 1.0 else part as real / whole as real
  }

  function HardFailures(rs: seq<Requirement>, results: seq<Evaluation>): (failures: seq<Requirement>)
    ensures failures == [] <==> HardApproved(rs, results)
  {
    if rs == [] then []
    else
      assert rs == [rs[0]] + rs[1..];
      assert HardApproved(rs, results) <==> (rs[0].hard ==> Approved(results, rs[0].id)) && HardApproved(rs[1..], results) by {
        if HardApproved(rs, results) {
          forall k | 0 <= k < |rs[1..]| && rs[1..][k].hard ensures Approved(results, rs[1..][k].id) { assert rs[k + 1].hard; }
        }
      }
      (if rs[0].hard && !Approved(results, rs[0].id) then [rs[0]] else []) + HardFailures(rs[1..], results)
  }

  function Preferences(rs: seq<Requirement>): seq<Requirement> {
    if rs == [] then [] else (if rs[0].hard then [] else [rs[0]]) + Preferences(rs[1..])
  }

  function Passing(rs: seq<Requirement>, results: seq<Evaluation>): (passing: seq<Requirement>)
    ensures |passing| <= |rs|
  {
    if rs == [] then [] else (if Approved(results, rs[0].id) then [rs[0]] else []) + Passing(rs[1..], results)
  }
}
