/**
 The durable event log of a run, as its readers may rely on it: sequences increase strictly, a page is
 the first events after a cursor, and progress is a fold over the events
 (src/http/ag-ui.ts, src/application/customer-build-observability.ts).
 */
module EventLog {
  import opened Wrappers

  datatype Verdict = Pass | Fail | Error

  datatype ToolCall = ToolCall(tool: string, ok: bool, repairRound: nat)

  datatype Evidence = Evidence(kind: string, verdict: Verdict)

  /** None stands for a payload that does not parse. */
  datatype Kind =
    | ToolCompleted(call: Option<ToolCall>) | EvidenceRecorded(evidence: Option<Evidence>)
    | Stage | Workspace | Lifecycle | Internal

  datatype Event = Event(sequence: nat, kind: Kind)

  ghost predicate Increasing(log: seq<Event>) {
    && (forall i :: 0 <= i < |log| ==> log[i].sequence > 0)
    && (forall i, j :: 0 <= i < j < |log| ==> log[i].sequence < log[j].sequence)
  }

  // ----- Cursors and pages -----

  /** How many events lie up to a cursor. */
  function UpTo(log: seq<Event>, cursor: nat): (n: nat)
    ensures n <= |log|
  {
    if log == [] || log[0].sequence > cursor then 0 else 1 + UpTo(log[1..], cursor)
  }

  function After(log: seq<Event>, cursor: nat): seq<Event> {
    if log == [] then []
    else (if log[0].sequence > cursor then [log[0]] else []) + After(log[1..], cursor)
  }

  /** listEvents: the first `limit` events after the cursor. */
  function Page(log: seq<Event>, cursor: nat, limit: nat): seq<Event> {
    var after := After(log, cursor);
    if |after| <= limit then after else after[..limit]
  }

  lemma {:induction false} AfterIsAll(log: seq<Event>, cursor: nat)
    requires forall i :: 0 <= i < |log| ==> log[i].sequence > cursor
    ensures After(log, cursor) == log
  {
    if log != [] { AfterIsAll(log[1..], cursor); }
  }

  /** The events after a cursor are a suffix. */
  lemma {:induction false} AfterIsSuffix(log: seq<Event>, cursor: nat)
    requires Increasing(log)
    ensures After(log, cursor) == log[UpTo(log, cursor)..]
  {
    if log != [] {
      if log[0].sequence > cursor {
        AfterIsAll(log, cursor);
      } else {
        AfterIsSuffix(log[1..], cursor);
      }
    }
  }

  /** Where the cursor stands: every event before it is at most the cursor, every later one is above. */
  lemma {:induction false} UpToDivides(log: seq<Event>, cursor: nat)
    requires Increasing(log)
    ensures forall i :: 0 <= i < |log| ==> (log[i].sequence <= cursor <==> i < UpTo(log, cursor))
  {
    if log != [] && log[0].sequence <= cursor { UpToDivides(log[1..], cursor); }
  }

  lemma UpToIs(log: seq<Event>, cursor: nat, n: nat)
    requires Increasing(log) && n <= |log|
    requires n > 0 ==> log[n - 1].sequence <= cursor
    requires n < |log| ==> log[n].sequence > cursor
    ensures UpTo(log, cursor) == n
  {
    UpToDivides(log, cursor);
  }

  /** What is visible of the log is a prefix of it; the cursor stands at the same place, if it is reached. */
  lemma UpToOfPrefix(log: seq<Event>, cursor: nat, v: nat)
    requires Increasing(log) && v <= |log|
    ensures UpTo(log[..v], cursor) == if UpTo(log, cursor) < v then UpTo(log, cursor) else v
  {
    UpToDivides(log, cursor);
    UpToIs(log[..v], cursor, if UpTo(log, cursor) < v then UpTo(log, cursor) else v);
  }

  // ----- Progress -----

  datatype Progress = Progress(completed: nat, failed: nat, lastTool: Option<string>, repairRound: nat)

  datatype Proof = Proof(receipts: nat, passed: nat, failed: nat, errors: nat, byKind: map<string, nat>)

  const NO_PROGRESS := Progress(0, 0, None, 0)
  const NO_PROOF := Proof(0, 0, 0, 0, map[])

  /** applyAgentProgressEvent */
  function Advance(p: Progress, e: Event): Progress {
    match e.kind
    case ToolCompleted(Some(call)) =>
      Progress(p.completed + 1, if call.ok then p.failed else p.failed + 1, Some(call.tool), call.repairRound)
    case _ => p
  }

  /** applyProofProgressEvent */
  function Record(p: Proof, e: Event): Proof {
    match e.kind
    case EvidenceRecorded(Some(evidence)) =>
      Proof(p.receipts + 1,
            if evidence.verdict == Pass then p.passed + 1 else p.passed,
            if evidence.verdict == Fail then p.failed + 1 else p.failed,
            if evidence.verdict == Error then p.errors + 1 else p.errors,
            p.byKind[evidence.kind := (if evidence.kind in p.byKind then p.byKind[evidence.kind] else 0) + 1])
    case _ => p
  }

  function ProgressOf(log: seq<Event>): Progress {
    if log == [] then NO_PROGRESS else Advance(ProgressOf(log[..|log| - 1]), log[|log| - 1])
  }

  function ProofOf(log: seq<Event>): Proof {
    if log == [] then NO_PROOF else Record(ProofOf(log[..|log| - 1]), log[|log| - 1])
  }

  lemma FoldOne(log: seq<Event>, n: nat)
    requires n < |log|
    ensures ProgressOf(log[..n + 1]) == Advance(ProgressOf(log[..n]), log[n])
    ensures ProofOf(log[..n + 1]) == Record(ProofOf(log[..n]), log[n])
  {
    assert log[..n + 1][..n] == log[..n];
  }

  // ----- What the folds count -----

  /** What can be asked of an event: its verdict or kind of evidence, or whether it is a tool call, or a failed one. */
  datatype Query = OfVerdict(verdict: Verdict) | OfKind(kind: string) | AnyTool | FailedTool

  predicate Fits(e: Event, q: Query) {
    match q
    case OfVerdict(v) => e.kind.EvidenceRecorded? && e.kind.evidence.Some? && e.kind.evidence.value.verdict == v
    case OfKind(kind) => e.kind.EvidenceRecorded? && e.kind.evidence.Some? && e.kind.evidence.value.kind == kind
    case AnyTool => e.kind.ToolCompleted? && e.kind.call.Some?
    case FailedTool => e.kind.ToolCompleted? && e.kind.call.Some? && !e.kind.call.value.ok
  }

  /** The positions of a log that hold such an event. */
  ghost function Positions(log: seq<Event>, q: Query): set<nat> { set i: nat | i < |log| && Fits(log[i], q) }

  ghost function Count(log: seq<Event>, q: Query): nat { |Positions(log, q)| }

  lemma CountOne(log: seq<Event>, q: Query)
    requires log != []
    ensures CountsOneMore(log, q)
  {
    var n := |log| - 1;
    var front := log[..n];
    forall i: nat ensures i in Positions(log, q) <==> i in Positions(front, q) || (i == n && Fits(log[n], q)) {
      if i < n { assert front[i] == log[i]; }
    }
    assert Positions(log, q) == Positions(front, q) + if Fits(log[n], q) then {n} else {};
  }

  ghost predicate CountsOneMore(log: seq<Event>, q: Query)
    requires log != []
  {
    var n := |log| - 1;
    Count(log, q) == Count(log[..n], q) + if Fits(log[n], q) then 1 else 0
  }

  /** The proof counts the events of each verdict and of each kind, and has no other kind. */
  ghost predicate CountsEvidence(log: seq<Event>, p: Proof) {
    && p.passed == Count(log, OfVerdict(Pass))
    && p.failed == Count(log, OfVerdict(Fail))
    && p.errors == Count(log, OfVerdict(Error))
    && p.receipts == p.passed + p.failed + p.errors
    && CountsKinds(log, p.byKind)
  }

  ghost predicate CountsKinds(log: seq<Event>, byKind: map<string, nat>) {
    forall k :: Count(log, OfKind(k)) == (if k in byKind then byKind[k] else 0) && (k in byKind ==> byKind[k] > 0)
  }

  /** The last tool call of the log. */
  predicate IsLastTool(log: seq<Event>, i: nat) {
    i < |log| && Fits(log[i], AnyTool) && forall j :: i < j < |log| ==> !Fits(log[j], AnyTool)
  }

  /** The progress counts the tool calls and those that failed, and shows the last of them. */
  ghost predicate CountsTools(log: seq<Event>, p: Progress) {
    && p.completed == Count(log, AnyTool) && p.failed == Count(log, FailedTool)
    && ShowsLastTool(log, p)
  }

  ghost predicate ShowsLastTool(log: seq<Event>, p: Progress) {
    && ((forall i :: 0 <= i < |log| ==> !Fits(log[i], AnyTool)) ==> p.lastTool == None && p.repairRound == 0)
    && (forall i: nat :: IsLastTool(log, i) ==>
          p.lastTool == Some(log[i].kind.call.value.tool) && p.repairRound == log[i].kind.call.value.repairRound)
  }

  lemma {:induction false} ProofCounts(log: seq<Event>)
    ensures CountsEvidence(log, ProofOf(log))
  {
    if log != [] {
      ProofCounts(log[..|log| - 1]);
      CountOne(log, OfVerdict(Pass));
      CountOne(log, OfVerdict(Fail));
      CountOne(log, OfVerdict(Error));
      KindsCountOne(log, ProofOf(log[..|log| - 1]));
    } else {
      forall k ensures Count(log, OfKind(k)) == 0 {}
    }
  }

  lemma KindsCountOne(log: seq<Event>, before: Proof)
    requires log != [] && CountsKinds(log[..|log| - 1], before.byKind)
    ensures CountsKinds(log, Record(before, log[|log| - 1]).byKind)
  {
    forall k: string ensures CountsOneMore(log, OfKind(k)) { CountOne(log, OfKind(k)); }
  }

  lemma {:induction false} ProgressCounts(log: seq<Event>)
    ensures CountsTools(log, ProgressOf(log))
  {
    if log != [] {
      ProgressCounts(log[..|log| - 1]);
      CountOne(log, AnyTool);
      CountOne(log, FailedTool);
      LastToolOne(log, ProgressOf(log[..|log| - 1]));
    }
  }

  lemma LastToolOne(log: seq<Event>, before: Progress)
    requires log != [] && ShowsLastTool(log[..|log| - 1], before)
    ensures ShowsLastTool(log, Advance(before, log[|log| - 1]))
  {
    var n := |log| - 1;
    if !Fits(log[n], AnyTool) {
      forall i: nat | IsLastTool(log, i) ensures IsLastTool(log[..n], i) && log[..n][i] == log[i] {}
      if forall i :: 0 <= i < |log| ==> !Fits(log[i], AnyTool) {
        forall i | 0 <= i < n ensures !Fits(log[..n][i], AnyTool) { assert log[..n][i] == log[i]; }
      }
    }
  }

  /** The progress counters that the stream updates in place. */
  class Counters {
    var completed: nat
    var failed: nat
    var lastTool: Option<string>
    var repairRound: nat

    constructor ()
      ensures Value() == NO_PROGRESS
    {
      completed, failed, lastTool, repairRound := 0, 0, None, 0;
    }

    function Value(): Progress
      reads this
    {
      Progress(completed, failed, lastTool, repairRound)
    }

    method Apply(e: Event)
      modifies this
      ensures Value() == Advance(old(Value()), e)
    {
      match e.kind {
        case ToolCompleted(Some(call)) =>
          completed := completed + 1;
          if !call.ok { failed := failed + 1; }
          lastTool := Some(call.tool);
          repairRound := call.repairRound;
        case _ =>
      }
    }
  }

  /** The evidence counters that the stream updates in place. */
  class Tally {
    var receipts: nat
    var passed: nat
    var failed: nat
    var errors: nat
    var byKind: map<string, nat>

    constructor ()
      ensures Value() == NO_PROOF
    {
      receipts, passed, failed, errors, byKind := 0, 0, 0, 0, map[];
    }

    function Value(): Proof
      reads this
    {
      Proof(receipts, passed, failed, errors, byKind)
    }

    method Apply(e: Event)
      modifies this
      ensures Value() == Record(old(Value()), e)
    {
      match e.kind {
        case EvidenceRecorded(Some(evidence)) =>
          receipts := receipts + 1;
          byKind := byKind[evidence.kind := (if evidence.kind in byKind then byKind[evidence.kind] else 0) + 1];
          if evidence.verdict == Pass {
            passed := passed + 1;
          } else if evidence.verdict == Fail {
            failed := failed + 1;
          } else {
            errors := errors + 1;
          }
        case _ =>
      }
    }
  }
}
