/**
 The executor of one build run (src/application/build-run-executor.ts, execute from its try on, and
 #verifyRevision). Every external call returns or throws, as an arbitrary oracle says; what happens is
 logged, and a monitor over the log states the rules of a run.

 Abort signals count as calls that throw; that a call may go on after an abort is not modelled.
 */
module RunExecutor {
  import opened Wrappers
  import opened Text

  type Digest = nat
  type SandboxId = nat

  datatype Status = Queued | Running | Passed | Rejected | Failed | Cancelled

  /** What the run does that the rules speak of. */
  datatype Effect =
    | Created(sandbox: SandboxId, at: nat)  // call `at` returned a sandbox and the caller received it
    | Lost(lost: SandboxId, at: nat)        // call `at` returned a sandbox, but the trace span around it threw
    | DisposeTried(target: SandboxId)
    | VerificationStarted
    | FrozenChecked(at: nat, held: bool)    // the digest was compared, by question `at`
    | Clashed(used: SandboxId)              // a new sandbox is one of those in use
    | ReviewCalled(digest: Digest)
    | ReviewKept(kept: Digest, at: nat)     // the review that call `at` returned is in the ledger
    | Decided(decided: Digest, gate: bool, same: bool, advisory: bool, at: nat)
    | GaveUp(at: nat)                       // nothing to repair with, not even briefs, by question `at`
    | Rechecked(rechecked: Digest)
    | ArtifactRecorded(recorded: Digest)
    | Promoted(promoted: SandboxId)
    | MarkedPassed(proven: Digest)
    | MarkedRejected
    | MarkedOther
    | FinalRead(at: nat, failed: bool)      // the last read of the run, at call `at`
    | Released

  // ----- The monitor -----

  /** How far the current revision has come. */
  datatype Stage =
    | Undecided | Refused(refused: Digest) | Accepted(accepted: Digest) | Confirmed(confirmed: Digest)
    | Stored(stored: Digest) | Retained(retained: Digest, sandbox: SandboxId)

  /**
   `received` are the sandboxes received, `open` those not tried to dispose of since, `lost` those that
   only the provider knows of; `reviewed` are the digests with a provider review, `read` is the call of the
   final read, and `lawful` says that no rule was broken. `throws` and `number` are the answers of the calls.
   */
  datatype Monitor = Monitor(
    received: set<SandboxId>, open: set<SandboxId>, repeated: set<SandboxId>, lost: set<SandboxId>, stage: Stage, rounds: nat, reviewed: set<Digest>,
    marks: nat, read: Option<nat>, releases: nat, lawful: bool, throws: nat -> bool, number: nat -> nat)

  function Initial(ledger: set<Digest>, throws: nat -> bool, number: nat -> nat): Monitor {
    Monitor({}, {}, {}, {}, Undecided, 0, ledger, 0, None, 0, true, throws, number)
  }

  function StageAfter(s: Stage, e: Effect): Stage {
    match e
    case VerificationStarted => Undecided
    case Decided(d, gate, same, advisory, _) => if !gate || !same then Refused(d) else if advisory then Undecided else Accepted(d)
    case Rechecked(d) => if s == Accepted(d) then Confirmed(d) else Undecided
    case ArtifactRecorded(d) => if s == Confirmed(d) then Stored(d) else Undecided
    case Promoted(v) => if s.Stored? then Retained(s.stored, v) else Undecided
    case _ => s
  }

  /** The rules: what may happen when. */
  predicate Lawful(m: Monitor, e: Effect) {
    match e
    case Created(x, at) => x == m.number(at) && !m.throws(at + 1)
    case Lost(x, at) => x == m.number(at) && m.throws(at + 1)
    case DisposeTried(x) => x in m.received
    case Clashed(x) => x in m.repeated
    case FinalRead(at, failed) => m.read.None? && (failed <==> m.throws(at))
    case ReviewCalled(d) => d !in m.reviewed
    case MarkedPassed(d) => m.marks == 0 && m.stage.Retained? && m.stage.retained == d
    case MarkedRejected => m.marks == 0 && m.stage.Refused?
    case MarkedOther => m.marks == 0
    case Released => m.releases == 0
    case _ => true
  }

  function Step(m: Monitor, e: Effect): Monitor {
    Monitor(
      if e.Created? then m.received + {e.sandbox} else m.received,
      match e case Created(x, _) => m.open + {x} case DisposeTried(x) => m.open - {x} case _ => m.open,
      if e.Created? then m.repeated + ({e.sandbox} * m.open) else m.repeated,
      match e case Lost(x, _) => m.lost + {x} case DisposeTried(x) => m.lost - {x} case _ => m.lost,
      StageAfter(m.stage, e),
      if e.VerificationStarted? then m.rounds + 1 else m.rounds,
      if e.ReviewCalled? then m.reviewed + {e.digest} else m.reviewed,
      if e.MarkedPassed? || e.MarkedRejected? || e.MarkedOther? then m.marks + 1 else m.marks,
      if e.FinalRead? then Some(e.at) else m.read,
      if e.Released? then m.releases + 1 else m.releases,
      m.lawful && Lawful(m, e), m.throws, m.number)
  }

  function Watch(start: Monitor, log: seq<Effect>): Monitor {
    if log == [] then start else Step(Watch(start, log[..|log| - 1]), log[|log| - 1])
  }

  // ----- What the rules mean for the log -----

  ghost predicate AcceptedIn(log: seq<Effect>, d: Digest, n: nat)
    requires n <= |log|
  {
    exists a :: 0 <= a < n && AcceptedAt(log, d, a)
  }

  /** The gate passed the revision, its digest was still the same, and no advisory finding went to repair. */
  predicate AcceptedAt(log: seq<Effect>, d: Digest, a: nat)
    requires a < |log|
  {
    log[a].Decided? && log[a].decided == d && log[a].gate && log[a].same && !log[a].advisory
  }

  ghost predicate ConfirmedIn(log: seq<Effect>, d: Digest, n: nat)
    requires n <= |log|
  {
    exists b :: 0 <= b < n && log[b] == Rechecked(d) && AcceptedIn(log, d, b)
  }

  ghost predicate StoredIn(log: seq<Effect>, d: Digest, n: nat)
    requires n <= |log|
  {
    exists c :: 0 <= c < n && log[c] == ArtifactRecorded(d) && ConfirmedIn(log, d, c)
  }

  /** Accepted by the gate, then checked again, then recorded, then its verifier promoted. */
  ghost predicate RetainedIn(log: seq<Effect>, d: Digest, v: SandboxId, n: nat)
    requires n <= |log|
  {
    exists e :: 0 <= e < n && log[e] == Promoted(v) && StoredIn(log, d, e)
  }

  /** The last decision before `n` refused this digest, and nothing was verified since. */
  ghost predicate RefusedIn(log: seq<Effect>, d: Digest, n: nat)
    requires n <= |log|
  {
    exists a :: 0 <= a < n && RefusedAt(log, d, a) && forall k :: a < k < n ==> !log[k].VerificationStarted? && !log[k].Decided?
  }

  predicate RefusedAt(log: seq<Effect>, d: Digest, a: nat)
    requires a < |log|
  {
    log[a].Decided? && log[a].decided == d && !(log[a].gate && log[a].same)
  }

  /** The monitor's stage stands for a trail in the log. */
  ghost predicate Trailed(s: Stage, log: seq<Effect>, n: nat)
    requires n <= |log|
  {
    match s
    case Undecided => true
    case Refused(d) => RefusedIn(log, d, n)
    case Accepted(d) => AcceptedIn(log, d, n)
    case Confirmed(d) => ConfirmedIn(log, d, n)
    case Stored(d) => StoredIn(log, d, n)
    case Retained(d, v) => RetainedIn(log, d, v, n)
  }

  lemma TrailGrows(s: Stage, log: seq<Effect>, n: nat)
    requires n < |log| && Trailed(s, log, n)
    ensures Trailed(StageAfter(s, log[n]), log, n + 1)
  {
    var e := log[n];
    assert e.Decided? && !(e.gate && e.same) ==> RefusedAt(log, e.decided, n);
    assert e.Decided? && e.gate && e.same && !e.advisory ==> AcceptedAt(log, e.decided, n);
  }

  lemma {:induction false} StageIsTrailed(start: Monitor, log: seq<Effect>, n: nat)
    requires start.stage.Undecided? && n <= |log|
    ensures Trailed(Watch(start, log[..n]).stage, log, n)
  {
    if n > 0 {
      StageIsTrailed(start, log, n - 1);
      TrailGrows(Watch(start, log[..n - 1]).stage, log, n - 1);
      assert log[..n][..n - 1] == log[..n - 1];
    }
  }

  lemma {:induction false} LawfulAt(start: Monitor, log: seq<Effect>, i: nat)
    requires Watch(start, log).lawful && i < |log|
    ensures Lawful(Watch(start, log[..i]), log[i])
  {
    var front := log[..|log| - 1];
    if i < |front| {
      assert front[..i] == log[..i];
      LawfulAt(start, front, i);
    }
  }

  /** In a lawful run a pass has its whole proof before it, and a rejection its refusal. */
  lemma LawfulMarksAreEarned(start: Monitor, log: seq<Effect>, i: nat)
    requires start.stage.Undecided? && Watch(start, log).lawful && i < |log|
    ensures log[i].MarkedPassed? ==> exists v :: RetainedIn(log, log[i].proven, v, i)
    ensures log[i].MarkedRejected? ==> exists d :: RefusedIn(log, d, i)
  {
    LawfulAt(start, log, i);
    StageIsTrailed(start, log, i);
  }

  lemma {:induction false} ReviewedGrows(start: Monitor, log: seq<Effect>, i: nat, d: Digest)
    requires i < |log| && log[i] == ReviewCalled(d)
    ensures d in Watch(start, log).reviewed
  {
    if i < |log| - 1 { ReviewedGrows(start, log[..|log| - 1], i, d); }
  }

  lemma {:induction false} KnownStaysReviewed(start: Monitor, log: seq<Effect>, d: Digest)
    requires d in start.reviewed
    ensures d in Watch(start, log).reviewed
  {
    if log != [] { KnownStaysReviewed(start, log[..|log| - 1], d); }
  }

  /** In a lawful run the provider reviews a digest once at most, and never one that the ledger knew. */
  lemma LawfulReviewsAreSingle(start: Monitor, log: seq<Effect>, i: nat, j: nat)
    requires Watch(start, log).lawful && i < j < |log| && log[i].ReviewCalled? && log[j].ReviewCalled?
    ensures log[i].digest != log[j].digest && log[j].digest !in start.reviewed
  {
    LawfulAt(start, log, j);
    ReviewedGrows(start, log[..j], i, log[i].digest);
    if log[j].digest in start.reviewed { KnownStaysReviewed(start, log[..j], log[j].digest); }
  }

  /** A sandbox that is not open at the end was tried to be disposed of after it was received. */
  lemma {:induction false} ReceivedIsDisposed(start: Monitor, log: seq<Effect>, i: nat)
    requires i < |log| && log[i].Created? && log[i].sandbox !in Watch(start, log).open
    ensures exists j :: i < j < |log| && log[j] == DisposeTried(log[i].sandbox)
  {
    var front := log[..|log| - 1];
    if log[|log| - 1] != DisposeTried(log[i].sandbox) {
      ReceivedIsDisposed(start, front, i);
      var j :| i < j < |front| && front[j] == DisposeTried(log[i].sandbox);
      assert log[j] == front[j];
    } else {
      assert i < |log| - 1;
    }
  }

  predicate Provided(e: Effect, x: SandboxId) { (e.Created? && e.sandbox == x) || (e.Lost? && e.lost == x) }

  /** A provider returned the sandbox at effect `i`, and nothing tried to dispose of it later. */
  predicate AbandonedAt(log: seq<Effect>, x: SandboxId, i: nat)
    requires i < |log|
  {
    Provided(log[i], x) && forall j :: i < j < |log| ==> log[j] != DisposeTried(x)
  }

  ghost predicate Abandoned(log: seq<Effect>, x: SandboxId) {
    exists i :: 0 <= i < |log| && AbandonedAt(log, x, i)
  }

  lemma AbandonedStep(log: seq<Effect>, x: SandboxId)
    requires log != []
    ensures var last := log[|log| - 1];
            Abandoned(log, x) <==> Provided(last, x) || (last != DisposeTried(x) && Abandoned(log[..|log| - 1], x))
  {
    var front, last := log[..|log| - 1], log[|log| - 1];
    if Abandoned(log, x) {
      var i :| 0 <= i < |log| && AbandonedAt(log, x, i);
      if i < |front| { assert AbandonedAt(front, x, i); }
    }
    if Provided(last, x) { assert AbandonedAt(log, x, |log| - 1); }
    if last != DisposeTried(x) && Abandoned(front, x) {
      var i :| 0 <= i < |front| && AbandonedAt(front, x, i);
      assert log[i] == front[i] && forall j :: i < j < |front| ==> log[j] == front[j];
      assert AbandonedAt(log, x, i);
    }
  }

  /** The sandboxes abandoned are those still open and those lost. */
  lemma {:induction false} AbandonedIs(start: Monitor, log: seq<Effect>, x: SandboxId)
    requires start.open == {} && start.lost == {}
    ensures Abandoned(log, x) <==> x in Watch(start, log).open || x in Watch(start, log).lost
  {
    if log != [] {
      AbandonedIs(start, log[..|log| - 1], x);
      AbandonedStep(log, x);
    }
  }

  /** A provider returned at effect `j` the sandbox that it had returned at effect `i`, which was not disposed of since. */
  predicate TwiceAt(log: seq<Effect>, x: SandboxId, i: nat, j: nat) {
    && i < j < |log| && log[i].Created? && log[i].sandbox == x && log[j].Created? && log[j].sandbox == x
    && forall k :: i < k < j ==> log[k] != DisposeTried(x)
  }

  /** An open sandbox was received, and not disposed of since. */
  lemma {:induction false} OpenIsCreated(start: Monitor, log: seq<Effect>, x: SandboxId) returns (i: nat)
    requires start.open == {} && x in Watch(start, log).open
    ensures i < |log| && log[i].Created? && log[i].sandbox == x && forall k :: i < k < |log| ==> log[k] != DisposeTried(x)
  {
    var n := |log| - 1;
    if log[n].Created? && log[n].sandbox == x {
      i := n;
    } else {
      i := OpenIsCreated(start, log[..n], x);
      assert forall k :: 0 <= k < n ==> log[k] == log[..n][k];
    }
  }

  /** A lawful run reports a clash only of a sandbox that was returned again while it was in use. */
  lemma {:induction false} RepeatedIsTwice(start: Monitor, log: seq<Effect>, x: SandboxId) returns (i: nat, j: nat)
    requires start.open == {} && start.repeated == {} && x in Watch(start, log).repeated
    ensures TwiceAt(log, x, i, j)
  {
    var n := |log| - 1;
    var front := log[..n];
    if x in Watch(start, front).repeated {
      i, j := RepeatedIsTwice(start, front, x);
    } else {
      i := OpenIsCreated(start, front, x);
      j := n;
    }
    assert forall k :: 0 <= k < n ==> log[k] == front[k];
  }

  lemma ClashIsTwice(start: Monitor, log: seq<Effect>, n: nat) returns (i: nat, j: nat)
    requires start.open == {} && start.repeated == {} && Watch(start, log).lawful && n < |log| && log[n].Clashed?
    ensures j < n && TwiceAt(log, log[n].used, i, j)
  {
    LawfulAt(start, log, n);
    i, j := RepeatedIsTwice(start, log[..n], log[n].used);
    assert forall k :: 0 <= k < n ==> log[k] == log[..n][k];
  }

  /** A lost sandbox that was never received stays so: nobody can dispose of it. */
  lemma {:induction false} LostStaysLost(start: Monitor, log: seq<Effect>, i: nat)
    requires Watch(start, log).lawful && i < |log| && log[i].Lost? && log[i].lost !in Watch(start, log).received
    ensures log[i].lost in Watch(start, log).lost && start.throws(log[i].at + 1) && start.number(log[i].at) == log[i].lost
  {
    OracleIsFixed(start, log[..|log| - 1]);
    if i < |log| - 1 { LostStaysLost(start, log[..|log| - 1], i); }
  }

  lemma {:induction false} OracleIsFixed(start: Monitor, log: seq<Effect>)
    ensures Watch(start, log).throws == start.throws && Watch(start, log).number == start.number
  {
    if log != [] { OracleIsFixed(start, log[..|log| - 1]); }
  }

  // ----- Reviews and feedback -----

  datatype Review = Review(
    complete: bool, critical: nat, major: nat, minor: nat,
    policyDigest: Option<Digest>, expectedPolicyDigest: Option<Digest>, integrated: bool, digestMatches: bool)

  /** The review part of the proof gate. */
  predicate ReviewAccepted(r: Review) {
    r.complete && r.critical == 0 && r.policyDigest.Some? && r.policyDigest == r.expectedPolicyDigest && r.integrated && r.digestMatches
  }

  predicate HasAdvisoryFindings(r: Review) { r.complete && (r.major > 0 || r.minor > 0) }

  /** reviewFeedback is not empty. */
  predicate HasFeedback(r: Review) { !r.complete || r.critical + r.major + r.minor > 0 }

  /** actionableReviewFeedback is not empty. */
  predicate ActionableFeedback(r: Review) {
    && r.complete && r.policyDigest.Some? && r.policyDigest == r.expectedPolicyDigest && r.integrated && r.digestMatches
    && HasFeedback(r)
  }

  // ----- The course of a run -----

  /** What the calls answer that decide it. */
  datatype Oracle = Oracle(bit: nat -> bool, sameDigest: nat -> bool, reviewOf: nat -> Review)

  datatype Decision = Decision(digest: Digest, gate: bool, same: bool, advisory: bool, at: nat)

  predicate Accepts(d: Decision) { d.gate && d.same && !d.advisory }

  /**
   How a run comes about: `limit` is the number of repair rounds, `ledger` the reviews kept, `last` the last
   decision. `compared` is how often the digest was compared and the same, since the verification began or
   its decision fell. No answer of a call before `next` is left to be used. `smooth` says that every digest compared
   was the same and every sandbox new; `truthful` that every effect says what the calls answered, in order.
   */
  datatype Course = Course(
    oracle: Oracle, limit: nat, rounds: nat, ledger: map<Digest, Review>, last: Option<Decision>, gaveUp: bool,
    compared: nat, next: nat, smooth: bool, truthful: bool)

  function Outset(oracle: Oracle, limit: nat, ledger: map<Digest, Review>): Course {
    Course(oracle, limit, 0, ledger, None, false, 0, 0, true, true)
  }

  /**
   Question `at` is whether the evidence passes, `at + 1` whether there is feedback beside the review's,
   `at + 3` whether the digest is still the same. Advisory findings go to repair while a round is left.
   */
  predicate DecidedTruly(c: Course, d: Decision) {
    && d.digest in c.ledger
    && (d.gate <==> c.oracle.bit(d.at) && ReviewAccepted(c.ledger[d.digest]))
    && (d.same <==> c.oracle.sameDigest(d.at + 3))
    && (d.advisory <==> c.rounds <= c.limit && HasAdvisoryFindings(c.ledger[d.digest]))
  }

  /** There is something to repair with after a decision. */
  predicate HasRepairFeedback(c: Course, d: Decision) {
    d.digest in c.ledger && (ActionableFeedback(c.ledger[d.digest]) || c.oracle.bit(d.at + 1) || !d.same)
  }

  predicate Truthful(c: Course, e: Effect) {
    match e
    case FrozenChecked(at, held) => c.next <= at && held == c.oracle.sameDigest(at)
    case ReviewKept(_, at) => c.next <= at
    case Decided(d, gate, same, advisory, at) => c.compared >= 2 && c.next <= at && DecidedTruly(c, Decision(d, gate, same, advisory, at))
    case Rechecked(_) => c.compared >= 1
    case GaveUp(at) => c.next <= at && c.last.Some? && c.last.value.digest in c.ledger && !HasRepairFeedback(c, c.last.value) && !c.oracle.bit(at)
    case _ => true
  }

  function CourseStep(c: Course, e: Effect): Course {
    var truthful := c.truthful && Truthful(c, e);
    match e
    case VerificationStarted => c.(rounds := c.rounds + 1, gaveUp := false, compared := 0)
    case FrozenChecked(at, held) => c.(compared := if held then c.compared + 1 else 0, next := at + 1, smooth := c.smooth && held, truthful := truthful)
    case Clashed(_) => c.(smooth := false)
    case ReviewKept(d, at) => c.(ledger := c.ledger[d := c.oracle.reviewOf(at)], next := at + 1, truthful := truthful)
    case Decided(d, gate, same, advisory, at) =>
      c.(last := Some(Decision(d, gate, same, advisory, at)), compared := 0, next := at + 4, truthful := truthful)
    case Rechecked(_) => c.(truthful := truthful)
    case GaveUp(at) => c.(gaveUp := true, next := at + 1, truthful := truthful)
    case _ => c
  }

  function Track(start: Course, log: seq<Effect>): Course {
    if log == [] then start else CourseStep(Track(start, log[..|log| - 1]), log[|log| - 1])
  }

  /** In a truthful course every effect says what the calls had answered when it happened. */
  lemma {:induction false} TruthAt(start: Course, log: seq<Effect>, i: nat)
    requires Track(start, log).truthful && i < |log|
    ensures Truthful(Track(start, log[..i]), log[i])
  {
    var front := log[..|log| - 1];
    if i < |front| {
      assert front[..i] == log[..i];
      TruthAt(start, front, i);
    }
  }

  predicate Rough(e: Effect) { e.Clashed? || (e.FrozenChecked? && !e.held) }

  ghost predicate NoneRough(log: seq<Effect>) {
    forall i :: 0 <= i < |log| ==> !Rough(log[i])
  }

  lemma SmoothStep(log: seq<Effect>, c: Course)
    requires log != [] && (c.smooth <==> NoneRough(log[..|log| - 1]))
    ensures CourseStep(c, log[|log| - 1]).smooth <==> NoneRough(log)
  {
    var front, last := log[..|log| - 1], log[|log| - 1];
    assert CourseStep(c, last).smooth <==> c.smooth && !Rough(last);
    assert NoneRough(log) <==> NoneRough(front) && !Rough(last) by {
      assert forall i :: 0 <= i < |front| ==> log[i] == front[i];
    }
  }

  /** A smooth course is one without a changed digest and without a sandbox returned twice. */
  lemma {:induction false} SmoothIs(start: Course, log: seq<Effect>)
    requires start.smooth
    ensures Track(start, log).smooth <==> NoneRough(log)
  {
    if log != [] {
      SmoothIs(start, log[..|log| - 1]);
      SmoothStep(log, Track(start, log[..|log| - 1]));
    }
  }

  /** The last decision of a course, in its log. */
  predicate LastDecision(log: seq<Effect>, i: nat) {
    i < |log| && log[i].Decided? && forall j :: i < j < |log| ==> !log[j].Decided?
  }

  ghost predicate ShowsLast(log: seq<Effect>, last: Option<Decision>) {
    match last
    case None => forall i :: 0 <= i < |log| ==> !log[i].Decided?
    case Some(d) => exists i: nat :: LastDecision(log, i) && IsDecision(log[i], d)
  }

  lemma {:induction false} LastIs(start: Course, log: seq<Effect>)
    requires start.last.None?
    ensures ShowsLast(log, Track(start, log).last)
  {
    if log != [] {
      var n := |log| - 1;
      LastIs(start, log[..n]);
      LastStep(log, Track(start, log[..n]));
    }
  }

  lemma LastStep(log: seq<Effect>, c: Course)
    requires log != [] && ShowsLast(log[..|log| - 1], c.last)
    ensures ShowsLast(log, CourseStep(c, log[|log| - 1]).last)
  {
    var front := log[..|log| - 1];
    assert forall i :: 0 <= i < |front| ==> front[i] == log[i];
    if log[|log| - 1].Decided? {
      assert LastDecision(log, |log| - 1);
    } else if c.last.Some? {
      var i: nat :| LastDecision(front, i) && IsDecision(front[i], c.last.value);
      assert LastDecision(log, i);
    }
  }

  predicate IsDecision(e: Effect, d: Decision) { e == Decided(d.digest, d.gate, d.same, d.advisory, d.at) }

  datatype Verification =
    | Threw
    | Proven(digest: Digest, sandbox: SandboxId)
    | Unproven(gate: bool, same: bool, advisoryOnly: bool, feedback: bool)

  datatype Outcome = Broke | PassedOutcome(digest: Digest) | RejectedOutcome

  /**
   What creating a sandbox from call `c` on leaves in the log: the span begins with two calls that may throw,
   the provider answers call c + 2, and the span may throw once more when it ends.
   */
  function SandboxEffect(throws: nat -> bool, number: nat -> nat, c: nat): seq<Effect> {
    if throws(c) || throws(c + 1) then []
    else if throws(c + 3) then [Lost(number(c + 2), c + 2)]
    else [Created(number(c + 2), c + 2)]
  }

  /** The sandbox that calls from `c` on create, if it is received, and if it is lost. */
  function SandboxFrom(throws: nat -> bool, number: nat -> nat, c: nat): Option<SandboxId> {
    if throws(c) || throws(c + 1) || throws(c + 3) then None else Some(number(c + 2))
  }

  function LostFrom(throws: nat -> bool, number: nat -> nat, c: nat): Option<SandboxId> {
    if !throws(c) && !throws(c + 1) && throws(c + 3) then Some(number(c + 2)) else None
  }

  function Gained(m: Monitor, got: Option<SandboxId>, lost: Option<SandboxId>): Monitor {
    m.(received := m.received + Held(got), open := m.open + Held(got), repeated := m.repeated + (Held(got) * m.open), lost := m.lost + Held(lost))
  }

  lemma GainedIs(m: Monitor, at: nat)
    ensures Gained(m, None, None) == m
    ensures !m.throws(at + 1) ==> Step(m, Created(m.number(at), at)) == Gained(m, Some(m.number(at)), None)
    ensures m.throws(at + 1) ==> Step(m, Lost(m.number(at), at)) == Gained(m, None, Some(m.number(at)))
  {}

  /** The monitor after a creation, field by field; a sandbox that was open already adds nothing. */
  lemma GainedFields(m: Monitor, got: Option<SandboxId>, lost: Option<SandboxId>)
    requires m.open <= m.received
    ensures var next := Gained(m, got, lost);
            && next == m.(received := next.received, open := next.open, repeated := next.repeated, lost := next.lost)
            && Held(got) * m.open <= next.repeated
            && (Held(got) <= m.open ==> next.received == m.received && next.open == m.open)
            && (m.received == {} ==> next.received == Held(got) && next.open == Held(got))
            && (m.lost == {} ==> next.lost == Held(lost))
  {}

  /** A verifier that is none of the sandboxes in use adds itself; another adds nothing, and is a clash. */
  lemma IsolatedFields(m: Monitor, got: Option<SandboxId>, lost: Option<SandboxId>, kept: Option<SandboxId>)
    requires m.open <= m.received && kept == (if Held(got) <= m.open then None else got)
    ensures var next := Gained(m, got, lost);
            && next == m.(received := next.received, open := next.open, repeated := next.repeated, lost := next.lost)
            && next.received == m.received + Held(kept) && next.open == m.open + Held(kept) && Held(kept) !! m.open
            && (got.Some? && kept.None? ==> Step(next, Clashed(got.value)) == next)
  {
    GainedFields(m, got, lost);
  }

  function StageOf(d: Decision): Stage {
    if !d.gate || !d.same then Refused(d.digest) else if d.advisory then Undecided else Accepted(d.digest)
  }

  lemma DecideStep(m: Monitor, c: Course, d: Decision)
    requires m.lawful && c.truthful && c.compared >= 2 && c.next <= d.at && DecidedTruly(c, d)
    ensures var e, next := Decided(d.digest, d.gate, d.same, d.advisory, d.at), c.(last := Some(d), compared := 0, next := d.at + 4);
            && Step(m, e) == m.(stage := StageOf(d)) && CourseStep(c, e) == next
            && DecidedTruly(next, d) && (HasRepairFeedback(next, d) <==> HasRepairFeedback(c, d))
  {}

  lemma StartStep(m: Monitor, c: Course)
    requires m.lawful
    ensures Step(m, VerificationStarted) == m.(stage := Undecided, rounds := m.rounds + 1)
    ensures CourseStep(c, VerificationStarted) == c.(rounds := c.rounds + 1, gaveUp := false, compared := 0)
  {}

  lemma ReadStep(m: Monitor, at: nat, failed: bool)
    requires m.lawful && m.read.None? && failed == m.throws(at)
    ensures Step(m, FinalRead(at, failed)) == m.(read := Some(at))
  {}

  lemma ReleaseStep(m: Monitor)
    requires m.lawful && m.releases == 0
    ensures Step(m, Released) == m.(releases := 1)
  {}

  /** Disposal tried of what is held. */
  function Tried(m: Monitor, sandbox: Option<SandboxId>): Monitor {
    if sandbox.Some? then Step(m, DisposeTried(sandbox.value)) else m
  }

  /** The disposals of the end of a run, if it comes to them. */
  function AllTried(m: Monitor, reached: bool, first: Option<SandboxId>, second: Option<SandboxId>): Monitor {
    var tried := Held(first) + Held(second);
    if reached then m.(open := m.open - tried, lost := m.lost - tried) else m
  }

  lemma TriedIs(m: Monitor, sandbox: Option<SandboxId>)
    requires m.lawful && Held(sandbox) <= m.received
    ensures Tried(m, sandbox) == m.(open := m.open - Held(sandbox), lost := m.lost - Held(sandbox))
  {}

  function Held(sandbox: Option<SandboxId>): set<SandboxId> { if sandbox.Some? then {sandbox.value} else {} }

  class Executor {
    const throws: nat -> bool
    const bit: nat -> bool
    const sameDigest: nat -> bool
    const number: nat -> nat
    const reviewOf: nat -> Review
    const start: Monitor
    const outset: Course
    var calls: nat
    var log: seq<Effect>
    var status: Status
    var ledger: map<Digest, Review>

    constructor (throws: nat -> bool, bit: nat -> bool, sameDigest: nat -> bool, number: nat -> nat, reviewOf: nat -> Review, ledger: map<Digest, Review>,
                 maxRepairRounds: nat)
      ensures this.bit == bit && this.sameDigest == sameDigest && this.reviewOf == reviewOf && outset == Outset(Oracle(bit, sameDigest, reviewOf), maxRepairRounds, ledger)
      ensures calls == 0 && log == [] && status == Queued && this.ledger == ledger
      ensures this.throws == throws && this.number == number && start == Initial(ledger.Keys, throws, number)
    {
      this.throws, this.bit, this.sameDigest, this.number, this.reviewOf := throws, bit, sameDigest, number, reviewOf;
      start := Initial(ledger.Keys, throws, number);
      outset := Outset(Oracle(bit, sameDigest, reviewOf), maxRepairRounds, ledger);
      calls, log, status, this.ledger := 0, [], Queued, ledger;
    }

    ghost function M(): Monitor
      reads this
    {
      Watch(start, log)
    }

    ghost function C(): Course
      reads this
    {
      Track(outset, log)
    }

    method Emit(e: Effect)
      modifies this`log
      ensures log == old(log) + [e] && M() == Step(old(M()), e) && C() == CourseStep(old(C()), e)
    {
      log := log + [e];
      assert log[..|log| - 1] == old(log);
    }

    /** `n` external calls in a row without an effect that the rules speak of; false when one threw. */
    method Calls(n: nat) returns (ok: bool)
      modifies this`calls
      ensures ok <==> forall i :: old(calls) <= i < old(calls) + n ==> !throws(i)
      ensures old(calls) <= calls <= old(calls) + n && (ok ==> calls == old(calls) + n)
      ensures n == 1 ==> (ok <==> !throws(old(calls))) && calls == old(calls) + 1
    {
      ok := true;
      for i := 0 to n
        invariant calls == old(calls) + i && forall j :: old(calls) <= j < calls ==> !throws(j)
      {
        if throws(calls) {
          calls := calls + 1;
          return false;
        }
        calls := calls + 1;
      }
    }

    method Ask() returns (b: bool)
      modifies this`calls
      ensures calls == old(calls) + 1 && b == bit(old(calls))
    {
      b := bit(calls);
      calls := calls + 1;
    }

    /** Whether the digest is still the one that was frozen. */
    method AskDigest() returns (same: bool)
      modifies this`calls
      ensures calls == old(calls) + 1 && same == sameDigest(old(calls))
    {
      same := sameDigest(calls);
      calls := calls + 1;
    }

    method Receive() returns (n: nat)
      modifies this`calls
      ensures calls == old(calls) + 1 && n == number(old(calls))
    {
      n := number(calls);
      calls := calls + 1;
    }

    /** The monitors were told the answers of these calls, and know the ledger. */
    ghost predicate Told()
      reads this
    {
      M().throws == throws && M().number == number
    }

    ghost predicate Tracked()
      reads this
    {
      C().truthful && C().oracle == Oracle(bit, sameDigest, reviewOf) && C().ledger == ledger && C().next <= calls
    }

    ghost predicate NothingThrows()
      reads this
    {
      forall i :: !throws(i)
    }

    /** The digest is compared with the one that was frozen. */
    method CheckFrozen() returns (held: bool)
      requires Tracked()
      modifies this`calls, this`log
      ensures M() == old(M()) && C() == old(C()).(compared := if held then old(C()).compared + 1 else 0, next := C().next, smooth := C().smooth) && Tracked()
      ensures !held ==> !C().smooth
    {
      var at := calls;
      held := AskDigest();
      Emit(FrozenChecked(at, held));
    }

    /** A sandbox is created inside a trace span, which may throw before, or after it was created. */
    method CreateSandbox() returns (sandbox: Option<SandboxId>)
      requires Told()
      modifies this`calls, this`log
      ensures sandbox == SandboxFrom(throws, number, old(calls))
      ensures M() == Gained(old(M()), sandbox, LostFrom(throws, number, old(calls)))
      ensures log == old(log) + SandboxEffect(throws, number, old(calls)) && C() == old(C())
      ensures old(calls) <= calls <= old(calls) + 4 && (sandbox.Some? ==> calls == old(calls) + 4)
    {
      GainedIs(M(), calls + 2);
      EmptyConcat(log);
      var ok := BeginSpan();
      if !ok { return None; }
      sandbox := EndSpan();
    }

    method BeginSpan() returns (ok: bool)
      modifies this`calls
      ensures ok <==> !throws(old(calls)) && !throws(old(calls) + 1)
      ensures old(calls) <= calls <= old(calls) + 2 && (ok ==> calls == old(calls) + 2)
    {
      ok := Calls(1);
      if ok { ok := Calls(1); }
    }

    /** The provider answers, and the span ends. */
    method EndSpan() returns (sandbox: Option<SandboxId>)
      requires Told()
      modifies this`calls, this`log
      ensures var at, id := old(calls), number(old(calls));
              && calls == at + 2 && C() == old(C())
              && (throws(at + 1) ==> sandbox.None? && log == old(log) + [Lost(id, at)] && M() == Gained(old(M()), None, Some(id)))
              && (!throws(at + 1) ==> sandbox == Some(id) && log == old(log) + [Created(id, at)] && M() == Gained(old(M()), sandbox, None))
    {
      var at := calls;
      GainedIs(M(), at);
      var id := Receive();
      var ok := Calls(1);
      if ok {
        Emit(Created(id, at));
        sandbox := Some(id);
      } else {
        Emit(Lost(id, at));
        sandbox := None;
      }
    }

    /** disposeSandbox: dispose, else stop; the attempt is what counts. */
    method Dispose(id: SandboxId) returns (ok: bool)
      requires id in M().received
      modifies this`calls, this`log
      ensures M() == Step(old(M()), DisposeTried(id)) && log == old(log) + [DisposeTried(id)] && calls >= old(calls)
      ensures C() == old(C()) && (!ok ==> !NothingThrows())
    {
      Emit(DisposeTried(id));
      ok := Calls(1);
      if !ok { ok := Calls(1); }
    }

    /** The disposals of a finally block, each tried whatever becomes of the other. */
    method DisposeHeld(first: Option<SandboxId>, second: Option<SandboxId>)
      requires M().lawful && Held(first) + Held(second) <= M().received
      modifies this`calls, this`log
      ensures M() == Tried(Tried(old(M()), first), second) && C() == old(C())
      ensures calls >= old(calls) && old(log) <= log
    {
      var ok;
      TriedIs(M(), first);
      if first.Some? { ok := Dispose(first.value); }
      if second.Some? { ok := Dispose(second.value); }
    }

    // ----- One verification -----

    /** The parts of the monitor that only the end of a run touches are as before. */
    ghost predicate Continues(before: Monitor)
      reads this
    {
      && M().marks == before.marks && M().read == before.read && M().releases == before.releases
      && M().throws == before.throws && M().number == before.number && before.received <= M().received
    }

    /** The review of a revision: the last one in the ledger, or a new one of the provider. */
    method ReviewStep(digest: Digest) returns (review: Option<Review>)
      requires M().lawful && M().reviewed == ledger.Keys && Tracked()
      modifies this`calls, this`log, this`ledger
      ensures M() == old(M()).(reviewed := M().reviewed) && C() == old(C()).(ledger := ledger, next := C().next) && Tracked()
      ensures review.Some? ==> M().reviewed == ledger.Keys && digest in ledger && review.value == ledger[digest]
      ensures review.None? ==> !NothingThrows()
    {
      var ok := Calls(2);
      if !ok { return None; }
      if digest in ledger {
        ok := Calls(1);
      } else {
        ok := CallReview(digest);
        if ok { ok := Calls(1); }
      }
      var cleaned := Calls(1);
      return if ok && cleaned then Some(ledger[digest]) else None;
    }

    /** The provider's review, kept in the ledger when it has come. */
    method CallReview(digest: Digest) returns (ok: bool)
      requires M().lawful && M().reviewed == ledger.Keys && digest !in ledger && Tracked()
      modifies this`calls, this`log, this`ledger
      ensures M() == old(M()).(reviewed := M().reviewed) && C() == old(C()).(ledger := ledger, next := C().next) && Tracked()
      ensures if ok then M().reviewed == ledger.Keys && digest in ledger else !NothingThrows()
    {
      Emit(ReviewCalled(digest));
      var at := calls;
      var found := reviewOf(calls);
      ok := Calls(2);
      if ok {
        ledger := ledger[digest := found];
        Emit(ReviewKept(digest, at));
      }
    }

    /** What a judgement leaves behind: a decision, and a proven revision only after an accepting one. */
    ghost predicate Judged(v: Verification)
      reads this
    {
      && (v.Threw? && NothingThrows() ==> !C().smooth)
      && (v.Proven? ==> C().last.Some? && Accepts(C().last.value))
      && (v.Unproven? ==>
            && C().last.Some? && !Accepts(C().last.value)
            && C().last.value.gate == v.gate && C().last.value.same == v.same
            && C().last.value.digest in C().ledger && (v.feedback <==> HasRepairFeedback(C(), C().last.value)))
    }

    /** A revision that is not proven was refused, or has advisory findings, which then go to repair with a round left. */
    ghost predicate UnprovenFor(v: Verification, repairAdvisoryFindings: bool)
      reads this
    {
      v.Unproven? ==>
        && (!(v.gate && v.same) ==> M().stage.Refused?)
        && (v.advisoryOnly <==> v.gate && v.same)
        && (v.advisoryOnly ==> repairAdvisoryFindings && v.feedback)
    }

    /** From the raster inspection to the recorded artifact, with the exported workspace. */
    method JudgeStep(digest: Digest, repairAdvisoryFindings: bool) returns (v: Verification)
      requires M().lawful && Tracked() && C().compared == 2 && digest in ledger && (repairAdvisoryFindings <==> C().rounds <= C().limit)
      modifies this`calls, this`log
      ensures M() == old(M()).(stage := M().stage) && C() == old(C()).(last := C().last, compared := C().compared, next := C().next, smooth := C().smooth)
      ensures Tracked() && Judged(v) && UnprovenFor(v, repairAdvisoryFindings)
      ensures v.Proven? ==> M().stage == Stored(digest) && v.digest == digest
    {
      v := Decide(digest, repairAdvisoryFindings);
      var cleaned := Calls(1);
      if !cleaned { return Threw; }
    }

    method Decide(digest: Digest, repairAdvisoryFindings: bool) returns (v: Verification)
      requires M().lawful && Tracked() && C().compared == 2 && digest in ledger && (repairAdvisoryFindings <==> C().rounds <= C().limit)
      modifies this`calls, this`log
      ensures M() == old(M()).(stage := M().stage) && C() == old(C()).(last := C().last, compared := C().compared, next := C().next, smooth := C().smooth)
      ensures Tracked() && Judged(v) && UnprovenFor(v, repairAdvisoryFindings)
      ensures v.Proven? ==> M().stage == Stored(digest) && v.digest == digest
    {
      var d, feedback := Deliberate(digest, repairAdvisoryFindings);
      if d.None? { return Threw; }
      if !d.value.gate || !d.value.same || d.value.advisory {
        return Unproven(d.value.gate, d.value.same, d.value.gate && d.value.same, feedback);
      }
      v := Persist(digest);
    }

    /** The inspections, the gate, and whether the digest is still the same. */
    method Deliberate(digest: Digest, repairAdvisoryFindings: bool) returns (d: Option<Decision>, feedback: bool)
      requires M().lawful && Tracked() && C().compared == 2 && digest in ledger && (repairAdvisoryFindings <==> C().rounds <= C().limit)
      modifies this`calls, this`log
      ensures Tracked() && (d.None? ==> !NothingThrows() && M() == old(M()) && C() == old(C()))
      ensures d.Some? ==>
                && C() == old(C()).(last := d, compared := 0, next := C().next) && d.value.digest == digest && DecidedTruly(C(), d.value)
                && (feedback <==> HasRepairFeedback(C(), d.value))
                && M() == old(M()).(stage := StageOf(d.value))
    {
      d, feedback := Weigh(digest, repairAdvisoryFindings);
      if d.None? { return; }
      DecideStep(M(), C(), d.value);
      Emit(Decided(d.value.digest, d.value.gate, d.value.same, d.value.advisory, d.value.at));
    }

    /** What the decision is made of, from the answers of the calls. */
    method Weigh(digest: Digest, repairAdvisoryFindings: bool) returns (d: Option<Decision>, feedback: bool)
      requires Tracked() && digest in ledger && (repairAdvisoryFindings <==> C().rounds <= C().limit)
      modifies this`calls
      ensures calls >= old(calls) && (d.None? ==> !NothingThrows())
      ensures d.Some? ==> C().next <= d.value.at <= calls - 4
      ensures d.Some? ==> d.value.digest == digest && DecidedTruly(C(), d.value) && (feedback <==> HasRepairFeedback(C(), d.value))
    {
      var review := ledger[digest];
      var ok := Calls(7);
      if !ok { return None, false; }
      var at := calls;
      var evidencePasses := Ask();
      var otherFeedback := Ask();
      ok := Calls(1);
      if !ok { return None, false; }
      var same := AskDigest();
      var advisory := repairAdvisoryFindings && HasAdvisoryFindings(review);
      var decision := Decision(digest, evidencePasses && ReviewAccepted(review), same, advisory, at);
      return Some(decision), ActionableFeedback(review) || otherFeedback || !same;
    }

    /** Snapshot, preview, persisting, one more check of the digest, and the record of the artifact. */
    method Persist(digest: Digest) returns (v: Verification)
      requires M().lawful && M().stage == Accepted(digest) && Tracked()
      modifies this`calls, this`log
      ensures M() == old(M()).(stage := M().stage) && C() == old(C()).(compared := C().compared, next := C().next, smooth := C().smooth)
      ensures Tracked()
      ensures (v.Threw? && (NothingThrows() ==> !C().smooth)) || (v == Proven(digest, 0) && M().stage == Stored(digest))
    {
      var ok := Calls(4);
      if !ok { return Threw; }
      var frozen := CheckFrozen();
      if !frozen { return Threw; }
      Emit(Rechecked(digest));
      ok := Calls(1);
      if !ok { return Threw; }
      Emit(ArtifactRecorded(digest));
      return Proven(digest, 0);
    }

    /** #verifyRevision */
    method VerifyRevision(builder: SandboxId, repairAdvisoryFindings: bool) returns (v: Verification)
      requires M().lawful && M().reviewed == ledger.Keys && M().open == {builder} && builder in M().received && Told() && Tracked()
      requires repairAdvisoryFindings <==> C().rounds < C().limit
      modifies this`calls, this`log, this`ledger
      ensures M().lawful && M().rounds == old(M()).rounds + 1 && Continues(old(M()))
      ensures !v.Threw? ==> M().reviewed == ledger.Keys
      ensures v.Proven? ==>
                && M().stage == Retained(v.digest, v.sandbox) && v.sandbox != builder
                && M().open == {builder, v.sandbox} && v.sandbox in M().received
      ensures !v.Proven? ==> M().open == {builder}
      ensures UnprovenFor(v, repairAdvisoryFindings)
      ensures Verified(old(C()), v) && C().rounds == old(C()).rounds + 1
    {
      var ok := Begin();
      if !ok { return Threw; }
      var commands, delivery: Option<SandboxId>;
      v, commands, delivery := VerifyIsolated(builder, repairAdvisoryFindings);
      CleanUp(commands, if v.Proven? then None else delivery);
    }

    /** The stage is updated, and the digest compared with the frozen one. */
    method Begin() returns (ok: bool)
      requires M().lawful && Tracked()
      modifies this`calls, this`log
      ensures M() == old(M()).(stage := Undecided, rounds := old(M()).rounds + 1)
      ensures Tracked() && C() == old(C()).(rounds := old(C()).rounds + 1, gaveUp := false, compared := if ok then 1 else 0, next := C().next, smooth := C().smooth)
      ensures !ok && NothingThrows() ==> !C().smooth
    {
      StartStep(M(), C());
      Emit(VerificationStarted);
      ok := Calls(3);
      if ok { ok := CheckFrozen(); }
    }

    /** The finally block of #verifyRevision. */
    method CleanUp(commands: Option<SandboxId>, delivery: Option<SandboxId>)
      requires M().lawful && Held(commands) + Held(delivery) <= M().received
      modifies this`calls, this`log
      ensures M() == AllTried(old(M()), true, commands, delivery) && C() == old(C()) && calls >= old(calls)
    {
      var ok := Calls(1);
      TriedIs(M(), commands);
      TriedIs(Tried(M(), commands), delivery);
      DisposeHeld(commands, delivery);
    }

    /** What a verification leaves of the course. */
    ghost predicate Verified(before: Course, v: Verification)
      reads this
    {
      Tracked() && C().limit == before.limit && Judged(v)
    }

    /**
     The try block of #verifyRevision: the sandboxes it still holds at the end, apart from the builder.
     */
    method VerifyIsolated(builder: SandboxId, repairAdvisoryFindings: bool)
      returns (v: Verification, commands: Option<SandboxId>, delivery: Option<SandboxId>)
      requires M().lawful && M().reviewed == ledger.Keys && M().open == {builder} && builder in M().received && Told()
      requires Tracked() && C().compared == 1 && (repairAdvisoryFindings <==> C().rounds <= C().limit)
      modifies this`calls, this`log, this`ledger
      ensures M().lawful && M().rounds == old(M()).rounds && Continues(old(M()))
      ensures !v.Threw? ==> M().reviewed == ledger.Keys
      ensures M().open - Held(commands) == {builder} + Held(delivery) && Held(commands) + Held(delivery) <= M().received
      ensures (commands.Some? ==> commands.value != builder) && (delivery.Some? ==> delivery.value != builder)
      ensures commands.Some? && delivery.Some? ==> commands.value != delivery.value
      ensures v.Proven? ==> commands.None? && delivery == Some(v.sandbox) && M().stage == Retained(v.digest, v.sandbox)
      ensures UnprovenFor(v, repairAdvisoryFindings)
      ensures Verified(old(C()), v) && C().rounds == old(C()).rounds
    {
      var digest;
      digest, commands, delivery := Isolate(builder);
      if digest.None? { return Threw, commands, delivery; }
      TriedIs(M(), commands);
      var ok := RunCommands(commands.value);
      if !ok { return Threw, commands, delivery; }
      commands := None;
      v := Prove(digest.value, delivery.value, repairAdvisoryFindings);
    }

    /** The review, the judgement, and the promotion of the verifier of a proven revision. */
    method Prove(digest: Digest, delivery: SandboxId, repairAdvisoryFindings: bool) returns (v: Verification)
      requires M().lawful && M().reviewed == ledger.Keys && Tracked() && C().compared == 1 && (repairAdvisoryFindings <==> C().rounds <= C().limit)
      modifies this`calls, this`log, this`ledger
      ensures M() == old(M()).(stage := M().stage, reviewed := M().reviewed)
      ensures !v.Threw? ==> M().reviewed == ledger.Keys
      ensures v.Proven? ==> v.sandbox == delivery && M().stage == Retained(v.digest, delivery)
      ensures UnprovenFor(v, repairAdvisoryFindings)
      ensures Verified(old(C()), v) && C().rounds == old(C()).rounds
    {
      v := ReviewAndJudge(digest, repairAdvisoryFindings);
      if !v.Proven? { return v; }
      var ok := Calls(1);
      if !ok { return Threw; }
      Emit(Promoted(delivery));
      return Proven(digest, delivery);
    }

    /** A verifier that is none of the sandboxes in use. One of these, returned again, is not held twice. */
    method CreateIsolated(inUse: set<SandboxId>) returns (sandbox: Option<SandboxId>)
      requires inUse == M().open <= M().received && Told() && Tracked()
      modifies this`calls, this`log
      ensures M() == old(M()).(received := M().received, open := M().open, repeated := M().repeated, lost := M().lost)
      ensures M().received == old(M()).received + Held(sandbox) && M().open == inUse + Held(sandbox)
      ensures Held(sandbox) !! inUse
      ensures C() == old(C()).(next := C().next, smooth := C().smooth) && (sandbox.None? && NothingThrows() ==> !C().smooth)
      ensures Tracked()
    {
      ghost var got, lost := SandboxFrom(throws, number, calls), LostFrom(throws, number, calls);
      IsolatedFields(M(), got, lost, if Held(got) <= inUse then None else got);
      sandbox := CreateSandbox();
      if sandbox.Some? {
        if sandbox.value in inUse {
          Emit(Clashed(sandbox.value));
          sandbox := None;
        }
      }
    }

    /** The export, and two verifiers that are isolated from the builder and from each other. */
    method Isolate(builder: SandboxId) returns (digest: Option<Digest>, commands: Option<SandboxId>, delivery: Option<SandboxId>)
      requires M().open == {builder} && builder in M().received && Told() && Tracked()
      modifies this`calls, this`log
      ensures M() == old(M()).(received := M().received, open := M().open, repeated := M().repeated, lost := M().lost)
      ensures M().received == old(M()).received + Held(commands) + Held(delivery)
      ensures M().open == {builder} + Held(commands) + Held(delivery)
      ensures (commands.Some? ==> commands.value != builder) && (delivery.Some? ==> delivery.value != builder)
      ensures commands.Some? && delivery.Some? ==> commands.value != delivery.value
      ensures digest.Some? ==> commands.Some? && delivery.Some?
      ensures C() == old(C()).(next := C().next, smooth := C().smooth) && (digest.None? && NothingThrows() ==> !C().smooth)
      ensures Tracked()
    {
      var ok := Calls(1);
      if !ok { return None, None, None; }
      var exported := Receive();
      ok := Calls(1);
      if !ok { return None, None, None; }
      commands := CreateIsolated({builder});
      if commands.None? { return None, None, None; }
      ok := Calls(1);
      if !ok { return None, commands, None; }
      delivery := CreateIsolated({builder, commands.value});
      if delivery.None? { return None, commands, None; }
      ok := Calls(1);
      if !ok { return None, commands, delivery; }
      return Some(exported), commands, delivery;
    }

    /** The commands, after which their verifier is disposed of; then the delivery commands and the preview. */
    method RunCommands(commands: SandboxId) returns (ok: bool)
      requires M().lawful && commands in M().received
      modifies this`calls, this`log
      ensures M() == old(M()) || M() == Tried(old(M()), Some(commands))
      ensures ok ==> M() == Tried(old(M()), Some(commands))
      ensures C() == old(C()) && calls >= old(calls) && (!ok ==> !NothingThrows())
    {
      ok := Calls(1);
      if !ok { return; }
      ok := Dispose(commands);
      if !ok { return; }
      ok := Calls(2);
      if !ok { return; }
      var commandsPass := Ask();
      if commandsPass { ok := Calls(4); }
    }

    method ReviewAndJudge(digest: Digest, repairAdvisoryFindings: bool) returns (v: Verification)
      requires M().lawful && M().reviewed == ledger.Keys && Tracked() && C().compared == 1 && (repairAdvisoryFindings <==> C().rounds <= C().limit)
      modifies this`calls, this`log, this`ledger
      ensures M() == old(M()).(stage := M().stage, reviewed := M().reviewed)
      ensures !v.Threw? ==> M().reviewed == ledger.Keys
      ensures UnprovenFor(v, repairAdvisoryFindings)
      ensures Verified(old(C()), v) && C().rounds == old(C()).rounds
      ensures v.Proven? ==> M().stage == Stored(digest) && v.digest == digest
    {
      var review := ReviewStep(digest);
      if review.None? { return Threw; }
      var ok := Calls(1);
      if !ok { return Threw; }
      var frozen := CheckFrozen();
      if !frozen { return Threw; }
      ok := Calls(1);
      if !ok { return Threw; }
      v := JudgeStep(digest, repairAdvisoryFindings);
    }

    // ----- The run -----

    predicate Marked()
      reads this
    {
      status != Queued && status != Running
    }

    /** A terminal mark: the store accepts it only while the run is running, and may throw before or after. */
    method Mark(e: Effect, to: Status) returns (ok: bool)
      requires e.MarkedPassed? || e.MarkedRejected? || e.MarkedOther?
      requires to != Running && to != Queued && (to == Passed <==> e.MarkedPassed?)
      modifies this`calls, this`log, this`status
      ensures old(status) != Running ==> M() == old(M()) && status == old(status) && log == old(log) && !ok
      ensures status == old(status) || (status == to && M() == Step(old(M()), e))
      ensures status == old(status) ==> M() == old(M())
      ensures (ok ==> status == to) && calls >= old(calls)
      ensures NothingThrows() && old(status) == Running ==> ok
      ensures C() == old(C())
    {
      var accepted := Calls(1);
      if !accepted || status != Running { return false; }
      Emit(e);
      status := to;
      ok := Calls(1);
    }

    /** Between two verifications and at the end of a run: what the monitors must show. */
    ghost predicate Between(builder: SandboxId, rounds: nat)
      reads this
    {
      && M().lawful && M().reviewed == ledger.Keys && M().open == {builder}
      && M().rounds == rounds && M().marks == 0 && M().read.None? && M().releases == 0
      && builder in M().received && Told() && Tracked() && C().rounds == rounds
    }

    /** The outcome follows from the course: from its last decision, and for a rejection from there being no repair. */
    ghost predicate Follows(outcome: Outcome)
      reads this
    {
      && (outcome.Broke? && NothingThrows() ==> !C().smooth)
      && (outcome.PassedOutcome? ==> C().last.Some? && Accepts(C().last.value) && C().rounds > 0)
      && (outcome.RejectedOutcome? ==>
            && C().last.Some? && !(C().last.value.gate && C().last.value.same) && C().rounds > 0
            && (C().rounds == C().limit + 1 || C().gaveUp))
    }

    /** The loop over the repair rounds. `sandbox` is the retained verifier of a proven revision. */
    method Rounds(builder: SandboxId, maxRepairRounds: nat) returns (outcome: Outcome, sandbox: Option<SandboxId>)
      requires Between(builder, 0) && C().limit == maxRepairRounds
      modifies this`calls, this`log, this`ledger
      ensures M().lawful && M().rounds <= maxRepairRounds + 1 && Continues(old(M()))
      ensures M().open == {builder} + Held(sandbox) && Held(sandbox) <= M().received
      ensures sandbox.Some? ==> sandbox.value != builder && M().stage.Retained? && M().stage.sandbox == sandbox.value
      ensures outcome.PassedOutcome? ==> sandbox.Some? && M().stage.retained == outcome.digest
      ensures outcome == RejectedOutcome ==> sandbox.None? && M().stage.Refused?
      ensures C().truthful && C().limit == maxRepairRounds && Follows(outcome)
    {
      for round := 0 to maxRepairRounds + 1
        invariant Between(builder, round) && Continues(old(M())) && C().limit == maxRepairRounds
        invariant round == maxRepairRounds + 1 ==> Follows(Broke)
      {
        var ok := Calls(1);
        if !ok { return Broke, None; }
        var v := VerifyRevision(builder, round < maxRepairRounds);
        match v {
          case Threw =>
            return Broke, None;
          case Proven(digest, verifier) =>
            ok := Calls(1);
            return if ok then PassedOutcome(digest) else Broke, Some(verifier);
          case Unproven(gate, same, advisoryOnly, feedback) =>
            if round == maxRepairRounds { return RejectedOutcome, None; }
            if !feedback {
              var briefs := AskForBriefs();
              if !briefs { return RejectedOutcome, None; }
            }
            ok := Calls(3);
            if !ok { return Broke, None; }
        }
      }
      return Broke, None;
    }

    /** Without feedback there may be briefs to repair with; else the run gives up. */
    method AskForBriefs() returns (briefs: bool)
      requires Tracked() && C().last.Some? && C().last.value.digest in C().ledger && !HasRepairFeedback(C(), C().last.value)
      modifies this`calls, this`log
      ensures M() == old(M()) && Tracked() && C() == (if briefs then old(C()) else old(C()).(gaveUp := true, next := C().next))
    {
      var at := calls;
      briefs := Ask();
      if !briefs { Emit(GaveUp(at)); }
    }

    /** The span around the creation of the builder throws after the provider returned it. */
    ghost predicate SpanThrows()
      reads this
    {
      (forall i :: 0 <= i < 6 ==> !throws(i)) && throws(7)
    }

    /** Everything throws from the first call after the builder was created. */
    ghost predicate Outage()
      reads this
    {
      forall i :: throws(i) <==> i >= 8
    }

    /** startRun, which may throw before or after the run is running. */
    method StartRun() returns (ok: bool)
      modifies this`calls, this`status
      ensures calls >= old(calls) && (ok ==> status == Running && calls == old(calls) + 2)
      ensures status == old(status) || status == Running
      ensures ok <==> !throws(old(calls)) && !throws(old(calls) + 1)
    {
      ok := Calls(1);
      if !ok { return; }
      status := Running;
      ok := Calls(1);
    }

    /** What comes before the builder is created. */
    method Prepare() returns (ok: bool)
      requires status == Queued
      modifies this`calls, this`status
      ensures ok ==> status == Running && calls == old(calls) + 4
      ensures status == Queued || status == Running
      ensures NothingThrows() || (old(calls) == 0 && (SpanThrows() || Outage())) ==> ok
    {
      ok := StartRun();
      if ok { ok := Calls(2); }
    }

    method StartBuilder() returns (builder: Option<SandboxId>)
      requires M() == Initial(ledger.Keys, throws, number) && status == Queued
      modifies this`calls, this`log, this`status
      ensures M() == old(M()).(received := Held(builder), open := Held(builder), repeated := M().repeated, lost := M().lost)
      ensures !Marked() && (builder.Some? || NothingThrows() ==> status == Running)
      ensures C() == old(C()) && (NothingThrows() ==> builder.Some?)
      ensures old(calls) == 0 && SpanThrows() ==> M().lost == {number(6)} && builder.None?
      ensures old(calls) == 0 && Outage() ==> builder == Some(number(6)) && calls == 8
    {
      var ok := Prepare();
      if !ok { return None; }
      GainedFields(M(), SandboxFrom(throws, number, calls), LostFrom(throws, number, calls));
      builder := CreateSandbox();
    }

    /** The traced part of execute, with the variables that its finally block sees. */
    method Traced(maxRepairRounds: nat) returns (outcome: Outcome, builder: Option<SandboxId>, retained: Option<SandboxId>)
      requires M() == Initial(ledger.Keys, throws, number) && status == Queued
      requires C() == Outset(Oracle(bit, sameDigest, reviewOf), maxRepairRounds, ledger)
      modifies this`calls, this`log, this`ledger, this`status
      ensures C().truthful && C().limit == maxRepairRounds && Follows(outcome)
      ensures M().lawful && M().rounds <= maxRepairRounds + 1 && M().marks == 0 && M().read.None? && M().releases == 0 && Told()
      ensures !Marked() && (!outcome.Broke? || NothingThrows() ==> status == Running)
      ensures M().open == Held(builder) + Held(retained) && M().open <= M().received
      ensures builder.Some? && retained.Some? ==> builder.value != retained.value
      ensures retained.Some? ==> M().stage.Retained? && M().stage.sandbox == retained.value
      ensures outcome.PassedOutcome? ==> retained.Some? && M().stage.retained == outcome.digest
      ensures outcome == RejectedOutcome ==> retained.None? && M().stage.Refused?
      ensures old(calls) == 0 && SpanThrows() ==> M().lost == {number(6)} && builder.None? && retained.None?
      ensures old(calls) == 0 && Outage() ==> outcome.Broke? && builder == Some(number(6)) && retained.None? && calls >= 8
    {
      retained := None;
      builder := StartBuilder();
      if builder.None? { return Broke, None, None; }
      assert Outage() ==> throws(8);
      var ok := Calls(4);
      if !ok { return Broke, builder, None; }
      outcome, retained := Rounds(builder.value, maxRepairRounds);
    }

    /** What is marked passed or rejected came out so; what was to be marked is marked. */
    ghost predicate MarkFollows(outcome: Outcome)
      reads this
    {
      (status == Passed ==> outcome.PassedOutcome?) && (status == Rejected ==> outcome.RejectedOutcome?)
    }

    /** Flushing the trace and the mark that the outcome calls for; false when something threw. */
    method Conclude(outcome: Outcome) returns (ok: bool)
      requires M().lawful && M().marks == 0 && !Marked()
      requires outcome.PassedOutcome? ==> M().stage.Retained? && M().stage.retained == outcome.digest
      requires outcome == RejectedOutcome ==> M().stage.Refused?
      modifies this`calls, this`log, this`status
      ensures M().lawful && M() == old(M()).(marks := M().marks)
      ensures (status == old(status) || Marked()) && M().marks == if Marked() then 1 else 0
      ensures (ok ==> status == Passed || status == Rejected) && calls >= old(calls)
      ensures C() == old(C()) && MarkFollows(outcome)
      ensures NothingThrows() && old(status) == Running && outcome != Broke ==> ok
    {
      if outcome == Broke { return false; }
      ok := Calls(2);
      if !ok { return; }
      if outcome.PassedOutcome? {
        ok := Mark(MarkedPassed(outcome.digest), Passed);
      } else {
        ok := Mark(MarkedRejected, Rejected);
      }
    }

    /** The catch block: a run that is still running is marked cancelled or failed, if the store lets it. */
    method Recover()
      requires M().lawful && M().marks == if Marked() then 1 else 0
      modifies this`calls, this`log, this`status
      ensures M().lawful && M() == old(M()).(marks := M().marks) && calls >= old(calls)
      ensures M().marks == (if Marked() then 1 else 0) && (status == Passed <==> old(status) == Passed)
      ensures (NothingThrows() && old(status) == Running) || old(Marked()) ==> Marked()
      ensures C() == old(C()) && (status == Rejected <==> old(status) == Rejected)
    {
      var ok := Calls(1);
      if !ok || status != Running { return; }
      var cancelRequested := Ask();
      if cancelRequested {
        ok := Mark(MarkedOther, Cancelled);
      } else {
        ok := Mark(MarkedOther, Failed);
      }
    }

    /** The end of the try block, and the catch block when something threw. */
    method Settle(outcome: Outcome)
      requires M().lawful && M().marks == 0 && !Marked()
      requires outcome.PassedOutcome? ==> M().stage.Retained? && M().stage.retained == outcome.digest
      requires outcome == RejectedOutcome ==> M().stage.Refused?
      modifies this`calls, this`log, this`status
      ensures M().lawful && M() == old(M()).(marks := if Marked() then 1 else 0) && calls >= old(calls)
      ensures C() == old(C()) && MarkFollows(outcome)
      ensures NothingThrows() && old(status) == Running ==> Marked() && (outcome != Broke ==> status == Passed || status == Rejected)
    {
      var ok := Conclude(outcome);
      if !ok { Recover(); }
    }

    method DisposeAtEnd(builder: Option<SandboxId>, retained: Option<SandboxId>)
      requires M().lawful && Held(builder) + Held(retained) <= M().received
      modifies this`calls, this`log
      ensures M() == AllTried(old(M()), true, builder, retained) && C() == old(C())
      ensures calls >= old(calls) && old(log) <= log
    {
      TriedIs(M(), builder);
      TriedIs(Tried(M(), builder), retained);
      DisposeHeld(builder, retained);
      var ok := Calls(1);
    }

    /** The finally block: the disposals, unless reading the run throws, and the release of the lease. */
    method Finish(builder: Option<SandboxId>, retained: Option<SandboxId>) returns (readFailed: bool)
      requires M().lawful && M().read.None? && M().releases == 0 && Told()
      requires M().open == Held(builder) + Held(retained) && M().open <= M().received
      modifies this`calls, this`log
      ensures readFailed == throws(old(calls)) && calls > old(calls) && C() == old(C())
      ensures var kept := if status == Passed then None else retained;
              M() == AllTried(old(M()).(read := Some(old(calls))), !readFailed, builder, kept).(releases := 1)
      ensures old(log) + [FinalRead(old(calls), readFailed)] <= log && log[|log| - 1] == Released
    {
      readFailed := ReadRun();
      LeaveRun(readFailed, builder, if status == Passed then None else retained);
    }

    /** The disposals of the finally block, and the release. */
    method LeaveRun(readFailed: bool, builder: Option<SandboxId>, kept: Option<SandboxId>)
      requires M().lawful && M().releases == 0 && Held(builder) + Held(kept) <= M().received
      modifies this`calls, this`log
      ensures M() == AllTried(old(M()), !readFailed, builder, kept).(releases := 1) && C() == old(C())
      ensures calls >= old(calls) && old(log) <= log && log != [] && log[|log| - 1] == Released
    {
      if !readFailed { DisposeAtEnd(builder, kept); }
      Release();
    }

    /** The final read of the run. */
    method ReadRun() returns (failed: bool)
      requires M().lawful && M().read.None? && Told()
      modifies this`calls, this`log
      ensures failed == throws(old(calls)) && calls > old(calls) && C() == old(C())
      ensures log == old(log) + [FinalRead(old(calls), failed)] && M() == old(M()).(read := Some(old(calls)))
    {
      var at := calls;
      var ok := Calls(1);
      failed := !ok;
      ReadStep(M(), at, failed);
      Emit(FinalRead(at, failed));
    }

    method Release()
      requires M().lawful && M().releases == 0
      modifies this`log
      ensures log == old(log) + [Released] && M() == old(M()).(releases := 1) && C() == old(C())
    {
      ReleaseStep(M());
      Emit(Released);
    }

    /** The run up to its finally block. */
    method Conduct(maxRepairRounds: nat) returns (builder: Option<SandboxId>, retained: Option<SandboxId>)
      requires M() == Initial(ledger.Keys, throws, number) && status == Queued
      requires C() == Outset(Oracle(bit, sameDigest, reviewOf), maxRepairRounds, ledger)
      modifies this`calls, this`log, this`ledger, this`status
      ensures C().truthful && C().limit == maxRepairRounds && RunFollows(maxRepairRounds)
      ensures M().lawful && M().rounds <= maxRepairRounds + 1 && M().read.None? && M().releases == 0 && Told()
      ensures M().marks == (if Marked() then 1 else 0) && (NothingThrows() ==> Marked())
      ensures M().open == Held(builder) + Held(retained) && M().open <= M().received
      ensures builder.Some? && retained.Some? ==> builder.value != retained.value
      ensures status == Passed ==> retained.Some? && M().stage.Retained? && M().stage.sandbox == retained.value
      ensures old(calls) == 0 && SpanThrows() ==> M().lost == {number(6)} && builder.None? && retained.None?
      ensures old(calls) == 0 && Outage() ==> builder == Some(number(6)) && retained.None? && calls >= 8
    {
      var outcome;
      outcome, builder, retained := Traced(maxRepairRounds);
      Settle(outcome);
    }

    /** How the mark follows from the course of the run. */
    ghost predicate RunFollows(maxRepairRounds: nat)
      reads this
    {
      && (NothingThrows() && C().smooth ==> (status == Passed || status == Rejected) && C().rounds > 0)
      && (status == Passed ==> C().last.Some? && Accepts(C().last.value))
      && (status == Rejected ==>
            && C().last.Some? && !(C().last.value.gate && C().last.value.same)
            && (C().rounds == maxRepairRounds + 1 || C().gaveUp))
    }

    /** The verifier of a passed run. */
    ghost predicate KeptVerifier(x: SandboxId)
      reads this
    {
      status == Passed && M().stage.Retained? && M().stage.sandbox == x
    }

    /** What the run leaves behind: `f` is the effect of its final read. */
    ghost predicate LeavesBehind(f: nat)
      requires f < |log| && log[f].FinalRead?
      reads this
    {
      forall x ::
        Abandoned(log, x) <==>
          || x in M().lost
          || (x in Watch(start, log[..f]).open && (throws(log[f].at) || KeptVerifier(x)))
    }

    /**
     execute, from its try on. All rules hold over the whole run, whatever throws: at most one terminal
     mark takes effect, and one does when nothing throws; passed is marked only for a digest that the gate
     accepted, that was checked again, and whose artifact was recorded before its verifier was promoted;
     rejected only when the last gate decision refused, and no repair round or nothing to repair with was
     left; when nothing throws, no digest changed and every sandbox was new, the run is marked passed or
     rejected, and passed if and only if the last decision accepts; one provider review at most for a digest;
     the lease is released once, at the end.
     A sandbox that a provider returned is left without an attempt to dispose of it exactly when its span
     threw, or it was held when the final read of the run threw, or it is the verifier of a passed run.
     */
    method Execute(maxRepairRounds: nat) returns (ghost f: nat)
      requires calls == 0 && log == [] && status == Queued && start == Initial(ledger.Keys, throws, number)
      requires outset == Outset(Oracle(bit, sameDigest, reviewOf), maxRepairRounds, ledger)
      modifies this
      ensures C().truthful && C().limit == maxRepairRounds && RunFollows(maxRepairRounds)
      ensures M().lawful && M().rounds <= maxRepairRounds + 1 && M().releases == 1
      ensures M().marks == (if Marked() then 1 else 0) && (NothingThrows() ==> Marked())
      ensures f < |log| && log[|log| - 1] == Released
      ensures log[f].FinalRead? && M().read == Some(log[f].at) && log[f].at < calls
      ensures status == Passed ==> M().stage.Retained? && M().stage.sandbox in Watch(start, log[..f]).open
      ensures LeavesBehind(f)
      ensures SpanThrows() ==> number(6) in M().lost
      ensures Outage() ==> throws(log[f].at) && number(6) in Watch(start, log[..f]).open
    {
      var builder, retained := Conduct(maxRepairRounds);
      f := |log|;
      ghost var was, at := log, calls;
      var readFailed := Finish(builder, retained);
      assert log[..f] == was && log[f] == FinalRead(at, readFailed);
      forall x ensures Abandoned(log, x) <==> x in M().open || x in M().lost { AbandonedIs(start, log, x); }
    }
  }

  // ----- One input for each sandbox left behind -----

  /** The span around the builder's creation throws once the provider has returned it: nobody disposes of it. */
  method LosingTheBuilder(review: Review) returns (e: Executor)
    ensures e.throws(7) && (forall i :: i != 7 ==> !e.throws(i)) && Abandoned(e.log, e.number(6))
  {
    e := new Executor(i => i == 7, i => true, i => true, i => i, i => review, map[], 0);
    ghost var f := e.Execute(0);
  }

  /** The store fails once the builder is there, also for the final read: the builder stays. */
  method KeepingTheBuilder(review: Review) returns (e: Executor)
    ensures (forall i :: e.throws(i) <==> i >= 8) && Abandoned(e.log, e.number(6))
  {
    e := new Executor(i => i >= 8, i => true, i => true, i => i, i => review, map[], 0);
    ghost var f := e.Execute(0);
  }
}
