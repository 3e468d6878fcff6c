/**
 What a passing evaluation means in the evidence itself (src/application/contract-evaluator.ts): which page, receipt,
 file or fact stands behind each verdict. Nothing here is said through the lists of references that the
 evaluator gathers.
 */
module EvaluationMeaning {
  import opened Wrappers
  import opened Text
  import opened Lists
  import opened Evidence
  import opened PreviewInspection
  import opened ContractEvaluation

  // ----- Evidence and citations -----

  /** The last page with its path. */
  predicate IsLast(pages: seq<Page>, k: nat) {
    k < |pages| && forall j :: k < j < |pages| ==> pages[j].path != pages[k].path
  }

  /** A page is cited by its path and the digest of its visible text. */
  predicate Shows(page: Page, ref: Reference) { ref == PageRef(page.path, Sha(OfText(page.visibleText))) }

  ghost predicate CitesPage(refs: seq<Reference>, pages: seq<Page>, k: nat) {
    IsLast(pages, k) && exists ref :: ref in refs && Shows(pages[k], ref)
  }

  /** The reference is to something that exists. */
  ghost predicate Stands(c: Contract, pages: seq<Page>, sources: seq<SourceFile>, evidence: seq<Receipt>, ref: Reference) {
    match ref
    case FactRef(id) => exists f :: f in c.approvedFacts && f.id == id
    case ReceiptRef(id) => exists e :: e in evidence && e.id == id
    case PageRef(path, digest) => exists k: nat :: IsLast(pages, k) && Shows(pages[k], ref)
    case SourceRef(path, digest) => exists s :: s in sources && s.path == path && digest == Sha(OfText(s.contents))
    case OtherRef(_) => false
  }

  /** A receipt of the command that the contract names for this verifier. */
  predicate IsRunOf(e: Receipt, id: string, v: nat, command: string) {
    && e.body.Command? && e.body.kind == RequirementCommand && e.body.command == command
    && e.body.requirementId == Some(id) && e.body.verifierIndex == Some(v)
  }

  ghost predicate ProvenBy(refs: seq<Reference>, r: Requirement, v: nat, pages: seq<Page>, evidence: seq<Receipt>)
    requires v < |r.verifiers|
  {
    match r.verifiers[v]
    case CommandVerifier(command) => exists e :: e in evidence && IsRunOf(e, r.id, v, command) && ReceiptRef(e.id) in refs
    case HttpVerifier(path, _, _) => exists k: nat :: CitesPage(refs, pages, k) && pages[k].path == path
    case SemanticVerifier => exists k: nat :: CitesPage(refs, pages, k)
  }

  /** The references prove the requirement: something for each verifier, and a page when it has none. */
  ghost predicate Proves(refs: seq<Reference>, r: Requirement, pages: seq<Page>, evidence: seq<Receipt>) {
    && refs != []
    && (forall v: nat :: v < |r.verifiers| ==> ProvenBy(refs, r, v, pages, evidence))
    && (r.verifiers == [] ==> exists k: nat :: CitesPage(refs, pages, k))
  }

  /** The requirement that an id names: the last with it. */
  predicate Names(rs: seq<Requirement>, id: string, k: nat) {
    k < |rs| && rs[k].id == id && forall j :: k < j < |rs| ==> rs[j].id != id
  }

  /** One verdict is about a requirement, cites what exists, and for a pass what proves it. */
  ghost predicate VerdictHolds(c: Contract, pages: seq<Page>, sources: seq<SourceFile>, evidence: seq<Receipt>, e: Evaluation) {
    && (exists k: nat :: Names(c.requirements, e.requirementId, k) &&
          (e.verdict == Passed ==> Proves(e.evidenceRefs, c.requirements[k], pages, evidence)))
    && forall ref :: ref in e.evidenceRefs ==> Stands(c, pages, sources, evidence, ref)
  }

  /** Every requirement has exactly one verdict, and every verdict holds. */
  ghost predicate AnswerHolds(c: Contract, pages: seq<Page>, sources: seq<SourceFile>, evidence: seq<Receipt>, o: Output) {
    && (forall e :: e in o.results ==> VerdictHolds(c, pages, sources, evidence, e))
    && (forall i, j :: 0 <= i < j < |o.results| ==> o.results[i].requirementId != o.results[j].requirementId)
    && (forall r :: r in c.requirements ==> exists e :: e in o.results && e.requirementId == r.id)
  }

  // ----- Pages -----

  lemma {:induction false} PageRefMeans(pages: seq<Page>, path: string, ref: Reference)
    ensures PageRefAt(pages, path) == Some(ref) <==> exists k: nat :: IsLast(pages, k) && pages[k].path == path && Shows(pages[k], ref)
  {
    if pages != [] {
      var front, last := pages[..|pages| - 1], pages[|pages| - 1];
      PageRefMeans(front, path, ref);
      if last.path == path {
        assert IsLast(pages, |pages| - 1);
      } else {
        if k: nat :| IsLast(front, k) && front[k].path == path && Shows(front[k], ref) { assert IsLast(pages, k); }
        if k: nat :| IsLast(pages, k) && pages[k].path == path && Shows(pages[k], ref) { assert IsLast(front, k); }
      }
    }
  }

  lemma {:induction false} PageRefsMean(pages: seq<Page>, paths: seq<string>, ref: Reference)
    ensures ref in PageRefs(pages, paths) <==> exists i :: 0 <= i < |paths| && PageRefAt(pages, paths[i]) == Some(ref)
  {
    if paths != [] {
      PageRefsMean(pages, paths[1..], ref);
      if i :| 0 <= i < |paths| && PageRefAt(pages, paths[i]) == Some(ref) {
        if i > 0 { assert paths[1..][i - 1] == paths[i]; }
      }
      if i :| 0 <= i < |paths[1..]| && PageRefAt(pages, paths[1..][i]) == Some(ref) { assert paths[i + 1] == paths[1..][i]; }
    }
  }

  lemma SemanticRefsMean(pages: seq<Page>, ref: Reference)
    ensures ref in SemanticRefs(pages) <==> exists k: nat :: IsLast(pages, k) && Shows(pages[k], ref)
  {
    var all := Map((p: Page) => p.path, pages);
    var paths := Distinct(all);
    DistinctKeeps([], all);
    PageRefsMean(pages, paths, ref);
    if i :| 0 <= i < |paths| && PageRefAt(pages, paths[i]) == Some(ref) { PageRefMeans(pages, paths[i], ref); }
    if k: nat :| IsLast(pages, k) && Shows(pages[k], ref) {
      PageRefMeans(pages, pages[k].path, ref);
      assert all[k] == pages[k].path;
      assert pages[k].path in paths;
      var i :| 0 <= i < |paths| && paths[i] == pages[k].path;
    }
  }

  lemma CitesSomePage(refs: seq<Reference>, pages: seq<Page>)
    ensures CitesOneOf(refs, SemanticRefs(pages)) <==> exists k: nat :: CitesPage(refs, pages, k)
  {
    if i :| 0 <= i < |SemanticRefs(pages)| && SemanticRefs(pages)[i] in refs {
      SemanticRefsMean(pages, SemanticRefs(pages)[i]);
      var k: nat :| IsLast(pages, k) && Shows(pages[k], SemanticRefs(pages)[i]);
      assert CitesPage(refs, pages, k);
    }
    if k: nat :| CitesPage(refs, pages, k) {
      var ref :| ref in refs && Shows(pages[k], ref);
      SemanticRefsMean(pages, ref);
      var i :| 0 <= i < |SemanticRefs(pages)| && SemanticRefs(pages)[i] == ref;
    }
  }

  lemma CitesPageAt(refs: seq<Reference>, pages: seq<Page>, path: string)
    ensures (PageRefAt(pages, path).Some? && PageRefAt(pages, path).value in refs) <==>
            exists k: nat :: CitesPage(refs, pages, k) && pages[k].path == path
  {
    if PageRefAt(pages, path).Some? && PageRefAt(pages, path).value in refs {
      var ref := PageRefAt(pages, path).value;
      PageRefMeans(pages, path, ref);
      var k: nat :| IsLast(pages, k) && pages[k].path == path && Shows(pages[k], ref);
      assert CitesPage(refs, pages, k);
    }
    if k: nat :| CitesPage(refs, pages, k) && pages[k].path == path {
      var ref :| ref in refs && Shows(pages[k], ref);
      PageRefMeans(pages, path, ref);
    }
  }

  // ----- Groups -----

  lemma {:induction false} CommandRefsMean(evidence: seq<Receipt>, id: string, v: nat, command: string, ref: Reference)
    ensures ref in CommandRefs(evidence, id, v, command) <==>
            exists e :: e in evidence && IsRunOf(e, id, v, command) && ref == ReceiptRef(e.id)
  {
    if evidence != [] {
      assert evidence == [evidence[0]] + evidence[1..];
      CommandRefsMean(evidence[1..], id, v, command, ref);
    }
  }

  lemma CommandIsCited(refs: seq<Reference>, evidence: seq<Receipt>, id: string, v: nat, command: string)
    ensures CitesOneOf(refs, CommandRefs(evidence, id, v, command)) <==>
            exists e :: e in evidence && IsRunOf(e, id, v, command) && ReceiptRef(e.id) in refs
  {
    var group := CommandRefs(evidence, id, v, command);
    if i :| 0 <= i < |group| && group[i] in refs { CommandRefsMean(evidence, id, v, command, group[i]); }
    if e :| e in evidence && IsRunOf(e, id, v, command) && ReceiptRef(e.id) in refs {
      CommandRefsMean(evidence, id, v, command, ReceiptRef(e.id));
      var i :| 0 <= i < |group| && group[i] == ReceiptRef(e.id);
    }
  }

  lemma GroupMeans(refs: seq<Reference>, r: Requirement, v: nat, pages: seq<Page>, evidence: seq<Receipt>)
    requires v < |r.verifiers|
    ensures CitesOneOf(refs, Group(r, v, pages, evidence)) <==> ProvenBy(refs, r, v, pages, evidence)
  {
    match r.verifiers[v] {
      case CommandVerifier(command) => CommandIsCited(refs, evidence, r.id, v, command);
      case HttpVerifier(path, _, _) =>
        CitesPageAt(refs, pages, path);
        if PageRefAt(pages, path).Some? { OneIsCited(refs, PageRefAt(pages, path).value); }
      case SemanticVerifier => CitesSomePage(refs, pages);
    }
  }

  lemma OneIsCited(refs: seq<Reference>, ref: Reference)
    ensures CitesOneOf(refs, [ref]) <==> ref in refs
  {
    if ref in refs { assert [ref][0] in refs; }
  }

  lemma GroupsMean(refs: seq<Reference>, r: Requirement, pages: seq<Page>, evidence: seq<Receipt>)
    ensures refs != [] && GroupsCited(refs, Groups(r, pages, evidence)) <==> Proves(refs, r, pages, evidence)
  {
    if r.verifiers == [] {
      CitesSomePage(refs, pages);
      assert Groups(r, pages, evidence)[0] == SemanticRefs(pages);
    } else {
      forall v: nat | v < |r.verifiers|
        ensures CitesOneOf(refs, Groups(r, pages, evidence)[v]) <==> ProvenBy(refs, r, v, pages, evidence)
      {
        GroupMeans(refs, r, v, pages, evidence);
      }
    }
  }

  ghost predicate IsRequired(rs: seq<Requirement>, pages: seq<Page>, evidence: seq<Receipt>, id: string) {
    var required := Required(rs, pages, evidence);
    && (id in required <==> exists k: nat :: Names(rs, id, k))
    && forall k: nat :: Names(rs, id, k) ==> id in required && required[id] == Groups(rs[k], pages, evidence)
  }

  lemma NamesLast(rs: seq<Requirement>, id: string)
    requires rs != [] && rs[|rs| - 1].id == id
    ensures forall k: nat :: Names(rs, id, k) <==> k == |rs| - 1
  {}

  lemma NamesEarlier(rs: seq<Requirement>, id: string, k: nat)
    requires rs != [] && rs[|rs| - 1].id != id
    ensures Names(rs, id, k) <==> Names(rs[..|rs| - 1], id, k)
  {
    var front := rs[..|rs| - 1];
    assert forall j :: 0 <= j < |front| ==> front[j] == rs[j];
  }

  lemma {:induction false} RequiredMeans(rs: seq<Requirement>, pages: seq<Page>, evidence: seq<Receipt>, id: string)
    ensures IsRequired(rs, pages, evidence, id)
  {
    if rs != [] {
      var front, last := rs[..|rs| - 1], rs[|rs| - 1];
      RequiredMeans(front, pages, evidence, id);
      if last.id == id {
        NamesLast(rs, id);
        assert Names(rs, id, |rs| - 1);
      } else {
        forall k: nat ensures Names(rs, id, k) <==> Names(front, id, k) { NamesEarlier(rs, id, k); }
      }
    }
  }

  // ----- The answer -----

  lemma RefMeans(c: Contract, pages: seq<Page>, sources: seq<SourceFile>, evidence: seq<Receipt>, ref: Reference)
    ensures Available(c, pages, sources, evidence, ref) <==> Stands(c, pages, sources, evidence, ref)
  {
    match ref {
      case FactRef(id) =>
        if f :| f in c.approvedFacts && f.id == id { var k :| 0 <= k < |c.approvedFacts| && c.approvedFacts[k] == f; }
        if k :| 0 <= k < |c.approvedFacts| && c.approvedFacts[k].id == id { assert c.approvedFacts[k] in c.approvedFacts; }
      case ReceiptRef(id) =>
        if e :| e in evidence && e.id == id { var k :| 0 <= k < |evidence| && evidence[k] == e; }
        if k :| 0 <= k < |evidence| && evidence[k].id == id { assert evidence[k] in evidence; }
      case PageRef(path, digest) =>
        PageRefMeans(pages, path, ref);
      case SourceRef(path, text) =>
        if s :| s in sources && s.path == path && text == Sha(OfText(s.contents)) { var k :| 0 <= k < |sources| && sources[k] == s; }
        if k :| 0 <= k < |sources| && sources[k].path == path && text == Sha(OfText(sources[k].contents)) { assert sources[k] in sources; }
      case OtherRef(_) =>
    }
  }

  lemma RefsMean(c: Contract, pages: seq<Page>, sources: seq<SourceFile>, evidence: seq<Receipt>, refs: seq<Reference>)
    ensures (forall k :: 0 <= k < |refs| ==> Available(c, pages, sources, evidence, refs[k])) <==>
            (forall ref :: ref in refs ==> Stands(c, pages, sources, evidence, ref))
  {
    forall ref ensures Available(c, pages, sources, evidence, ref) <==> Stands(c, pages, sources, evidence, ref) {
      RefMeans(c, pages, sources, evidence, ref);
    }
  }

  lemma GroundedMeans(c: Contract, pages: seq<Page>, sources: seq<SourceFile>, evidence: seq<Receipt>, e: Evaluation)
    ensures Grounded(c, pages, sources, evidence, e) <==> VerdictHolds(c, pages, sources, evidence, e)
  {
    RefsMean(c, pages, sources, evidence, e.evidenceRefs);
    RequiredMeans(c.requirements, pages, evidence, e.requirementId);
    if k: nat :| Names(c.requirements, e.requirementId, k) {
      GroupsMean(e.evidenceRefs, c.requirements[k], pages, evidence);
      OneIsNamed(c.requirements, e.requirementId, k);
    }
  }

  lemma OneIsNamed(rs: seq<Requirement>, id: string, k: nat)
    requires Names(rs, id, k)
    ensures forall j: nat :: Names(rs, id, j) ==> j == k
  {}

  /** An answer is taken exactly when each requirement has one verdict, which holds by the evidence. */
  lemma SoundMeans(c: Contract, pages: seq<Page>, sources: seq<SourceFile>, evidence: seq<Receipt>, o: Output)
    ensures Sound(c, pages, sources, evidence, o) <==> AnswerHolds(c, pages, sources, evidence, o)
  {
    var results := o.results;
    forall e ensures Grounded(c, pages, sources, evidence, e) <==> VerdictHolds(c, pages, sources, evidence, e) {
      GroundedMeans(c, pages, sources, evidence, e);
    }
    assert (forall k :: 0 <= k < |results| ==> Grounded(c, pages, sources, evidence, results[k])) <==>
           (forall e :: e in results ==> VerdictHolds(c, pages, sources, evidence, e));
    forall id ensures Mentioned(results, id) <==> exists e :: e in results && e.requirementId == id {
      MentionedMeans(results, id);
    }
    assert Covers(c.requirements, results) <==> forall r :: r in c.requirements ==> Mentioned(results, r.id);
  }

  lemma MentionedMeans(results: seq<Evaluation>, id: string)
    ensures Mentioned(results, id) <==> exists e :: e in results && e.requirementId == id
  {
    if e :| e in results && e.requirementId == id { var k :| 0 <= k < |results| && results[k] == e; }
    if k :| 0 <= k < |results| && results[k].requirementId == id { assert results[k] in results; }
  }

  /** The evaluator passes exactly when the answer holds, no claim is unsupported, and every hard requirement is proven. */
  method Evaluate(c: Contract, pages: seq<Page>, sources: seq<SourceFile>, evidence: seq<Receipt>, o: Output)
    returns (status: Status)
    ensures status == Error <==> !AnswerHolds(c, pages, sources, evidence, o)
    ensures status == Pass <==>
            && AnswerHolds(c, pages, sources, evidence, o) && o.unsupportedClaims == 0
            && forall r :: r in c.requirements && r.hard ==> exists e :: e in o.results && e.requirementId == r.id && e.verdict == Passed
  {
    SoundMeans(c, pages, sources, evidence, o);
    if AnswerHolds(c, pages, sources, evidence, o) { HardMeans(c.requirements, o.results); }
    var scores;
    status, scores := EvaluateContract(c, pages, sources, evidence, o);
  }

  lemma {:induction false} VerdictIs(results: seq<Evaluation>, id: string, e: Evaluation)
    requires forall i, j :: 0 <= i < j < |results| ==> results[i].requirementId != results[j].requirementId
    ensures VerdictOn(results, id) == Some(e) <==> e in results && e.requirementId == id
  {
    if results != [] {
      assert results == [results[0]] + results[1..];
      VerdictIs(results[1..], id, e);
      if e in results[1..] {
        var i :| 0 <= i < |results[1..]| && results[1..][i] == e;
        assert results[0].requirementId != results[i + 1].requirementId;
      }
    }
  }

  lemma HardMeans(rs: seq<Requirement>, results: seq<Evaluation>)
    requires forall i, j :: 0 <= i < j < |results| ==> results[i].requirementId != results[j].requirementId
    ensures HardApproved(rs, results) <==>
            forall r :: r in rs && r.hard ==> exists e :: e in results && e.requirementId == r.id && e.verdict == Passed
  {
    forall r | r in rs ensures Approved(results, r.id) <==> exists e :: e in results && e.requirementId == r.id && e.verdict == Passed {
      ApprovedMeans(results, r.id);
    }
  }

  lemma ApprovedMeans(results: seq<Evaluation>, id: string)
    requires forall i, j :: 0 <= i < j < |results| ==> results[i].requirementId != results[j].requirementId
    ensures Approved(results, id) <==> exists e :: e in results && e.requirementId == id && e.verdict == Passed
  {
    if Approved(results, id) { VerdictIs(results, id, VerdictOn(results, id).value); }
    if e :| e in results && e.requirementId == id && e.verdict == Passed { VerdictIs(results, id, e); }
  }
}
