/**
 Resuming an AG-UI stream (src/http/ag-ui.ts, agUiSseEventId and applyLastEventId): the id of an
 emitted event, sent back as Last-Event-ID, continues the stream where it was left.
 */
module AgUiResume {
  import opened Wrappers
  import opened Text
  import opened Numerals
  import opened EventLog
  import opened AgUiStream

  const MAX_SAFE_INTEGER: nat := 0x1F_FFFF_FFFF_FFFF
  const MAX_ID_LENGTH: nat := 192

  /** The cursor that an emission names, if it has an id. */
  function ResumePoint(e: Emitted): Option<nat> {
    match e
    case Durable(event) => Some(event.sequence)
    case Snapshot(state) => Some(state.cursor)
    case Keepalive(cursor) => Some(cursor)
    case Finished(cursor, _) => Some(cursor)
    case _ => None
  }

  // ----- The id -----

  predicate Padded(s: string) { s != [] && (IsSpace(s[0]) || IsSpace(s[|s| - 1])) }

  predicate IsRunId(id: string) {
    |id| == 36 && forall i :: 0 <= i < |id| ==> IsDigit(id[i]) || 'a' <= id[i] <= 'f' || id[i] == '-'
  }

  /** agUiSseEventId, for an event that has an id. */
  function EventId(runId: string, cursor: nat): string { runId + ":" + Decimal(cursor) }

  /** lastIndexOf(":"), or the length of the text when there is none. */
  function LastColon(s: string): (i: nat)
    ensures i <= |s| && (i < |s| ==> s[i] == ':')
    ensures forall j :: 0 <= j < |s| && s[j] == ':' ==> i < |s| && j <= i
  {
    if s == [] then 0
    else if s[|s| - 1] == ':' then |s| - 1
    else
      var i := LastColon(s[..|s| - 1]);
      assert forall j :: 0 <= j < |s| - 1 ==> s[..|s| - 1][j] == s[j];
      if i == |s| - 1 then |s| else i
  }

  /** applyLastEventId: the cursor to resume from; Failure is its exception. */
  function ApplyLastEventId(header: Option<string>, runId: string, afterSequence: nat): Result<nat> {
    if header.None? || header.value == "" then Success(afterSequence)
    else
      var text := header.value;
      if |text| > MAX_ID_LENGTH || Padded(text) then Failure
      else
        var separator := LastColon(text);
        if separator == 0 || separator >= |text| - 1 then Failure
        else
          var digits := text[separator + 1..];
          if !IsNumeral(digits) || text[..separator] != runId || DecimalValue(digits) > MAX_SAFE_INTEGER then Failure
          else Success(DecimalValue(digits))
  }

  function Power10(k: nat): nat { if k == 0 then 1 else 10 * Power10(k - 1) }

  lemma {:induction false} DecimalLength(n: nat, k: nat)
    requires k > 0 && n < Power10(k)
    ensures |Decimal(n)| <= k
  {
    if n >= 10 {
      assert Power10(1) == 10 * Power10(0) && Power10(0) == 1;
      DecimalLength(n / 10, k - 1);
    }
  }

  lemma SafeIntegersAreShort(n: nat)
    requires n <= MAX_SAFE_INTEGER
    ensures |Decimal(n)| <= 16
  {
    assert Power10(4) == 10_000 by {
      assert Power10(1) == 10 && Power10(2) == 100 && Power10(3) == 1_000;
    }
    assert Power10(8) == 100_000_000 by { assert Power10(5) == 100_000 && Power10(6) == 1_000_000 && Power10(7) == 10_000_000; }
    assert Power10(12) == 1_000_000_000_000 by {
      assert Power10(9) == 1_000_000_000 && Power10(10) == 10_000_000_000 && Power10(11) == 100_000_000_000;
    }
    assert Power10(16) == 10_000_000_000_000_000 by {
      assert Power10(13) == 10_000_000_000_000 && Power10(14) == 100_000_000_000_000 && Power10(15) == 1_000_000_000_000_000;
    }
    DecimalLength(n, 16);
  }

  lemma EventIdParts(runId: string, cursor: nat)
    ensures var text := EventId(runId, cursor);
            && LastColon(text) == |runId| < |text| - 1 && text[..|runId|] == runId
            && text[|runId| + 1..] == Decimal(cursor)
  {
    var text, digits := EventId(runId, cursor), Decimal(cursor);
    DecimalReads(cursor);
    assert text[|runId|] == ':' && text[..|runId|] == runId && text[|runId| + 1..] == digits;
    forall j | |runId| < j < |text| ensures text[j] != ':' { assert IsDigit(digits[j - |runId| - 1]); }
  }

  lemma EventIdIsPlain(runId: string, cursor: nat)
    requires IsRunId(runId) && cursor <= MAX_SAFE_INTEGER
    ensures var text := EventId(runId, cursor); text != "" && |text| <= MAX_ID_LENGTH && !Padded(text)
  {
    var text, digits := EventId(runId, cursor), Decimal(cursor);
    DecimalReads(cursor);
    SafeIntegersAreShort(cursor);
    assert text[0] == runId[0];
    assert text[|text| - 1] == digits[|digits| - 1];
    assert IsDigit(digits[|digits| - 1]);
  }

  /** An id that was emitted for a run is accepted for that run, with its own cursor. */
  lemma EventIdResumes(runId: string, cursor: nat, afterSequence: nat)
    requires IsRunId(runId) && cursor <= MAX_SAFE_INTEGER
    ensures ApplyLastEventId(Some(EventId(runId, cursor)), runId, afterSequence) == Success(cursor)
  {
    EventIdParts(runId, cursor);
    EventIdIsPlain(runId, cursor);
    DecimalReads(cursor);
  }

  /** And for no other run. */
  lemma EventIdIsBound(runId: string, other: string, cursor: nat, afterSequence: nat)
    requires IsRunId(runId) && runId != other
    ensures ApplyLastEventId(Some(EventId(runId, cursor)), other, afterSequence) == Failure
  {
    EventIdParts(runId, cursor);
  }

  // ----- Continuing -----

  /** Where a stream stood when it emitted an event with an id. */
  lemma PointIsPlace(store: Store, from: nat, out: seq<Emitted>, p: nat)
    requires Increasing(store.history) && Faithful(store, from, out) && p < |out| && ResumePoint(out[p]).Some?
    ensures var n := UpTo(store.history, ResumePoint(out[p]).value);
            UpTo(store.history, from) <= n && Durables(out[..p + 1]) == store.history[UpTo(store.history, from)..n]
  {
    assert FaithfulAt(store, from, out, p);
    assert out[..p + 1][..p] == out[..p];
    var base := UpTo(store.history, from);
    var n := base + |Durables(out[..p])|;
    if out[p].Durable? {
      UpToIs(store.history, out[p].event.sequence, n + 1);
      SliceGrows(store.history, base, n);
    } else {
      EmptyConcat(Durables(out[..p]));
    }
  }

  lemma FaithfulDurables(store: Store, from: nat, out: seq<Emitted>)
    requires Faithful(store, from, out) && out != []
    ensures var base := UpTo(store.history, from);
            base + |Durables(out)| <= |store.history| && Durables(out) == store.history[base..base + |Durables(out)|]
  {
    assert FaithfulAt(store, from, out, |out| - 1);
    var base, init, last := UpTo(store.history, from), Durables(out[..|out| - 1]), out[|out| - 1];
    var n := base + |init|;
    if last.Durable? {
      assert Durables(out) == init + [store.history[n]];
      SliceGrows(store.history, base, n);
    } else {
      EmptyConcat(init);
      assert Durables(out) == init;
    }
  }

  /**
   Cut a stream after any emission with an id and resume from that id: the durable events before the
   cut and after it are together a stretch of the history from the first cursor on, with no event lost,
   repeated or out of order.
   */
  lemma ResumeContinues(store: Store, from: nat, out: seq<Emitted>, p: nat, next: seq<Emitted>)
    requires Increasing(store.history) && Faithful(store, from, out) && p < |out| && ResumePoint(out[p]).Some?
    requires next != [] && Faithful(store, ResumePoint(out[p]).value, next)
    ensures var base, end := UpTo(store.history, from), UpTo(store.history, ResumePoint(out[p]).value) + |Durables(next)|;
            base <= end <= |store.history| && Durables(out[..p + 1]) + Durables(next) == store.history[base..end]
  {
    PointIsPlace(store, from, out, p);
    FaithfulDurables(store, ResumePoint(out[p]).value, next);
    var base, n := UpTo(store.history, from), UpTo(store.history, ResumePoint(out[p]).value);
    SlicesMeet(store.history, base, n, n + |Durables(next)|);
  }

  lemma SlicesMeet<T>(s: seq<T>, i: nat, j: nat, k: nat)
    requires i <= j <= k <= |s|
    ensures s[i..j] + s[j..k] == s[i..k]
  {}

  /** Snapshots with one cursor agree, in whatever streams they are shown, but for the artifact. */
  lemma SnapshotsAgree(store: Store, from: nat, out: seq<Emitted>, p: nat, from': nat, out': seq<Emitted>, q: nat)
    requires Faithful(store, from, out) && p < |out| && out[p].Snapshot?
    requires Faithful(store, from', out') && q < |out'| && out'[q].Snapshot?
    requires out[p].state.cursor == out'[q].state.cursor
    ensures out[p].state.(artifactAvailable := false) == out'[q].state.(artifactAvailable := false)
  {
    assert FaithfulAt(store, from, out, p) && FaithfulAt(store, from', out', q);
  }

  /**
   What a snapshot shows: the numbers of the events of the history up to its cursor, by verdict, by kind
   and by tool, and the last tool among them.
   */
  lemma SnapshotCounts(store: Store, from: nat, out: seq<Emitted>, p: nat)
    requires Increasing(store.history) && Faithful(store, from, out) && p < |out| && out[p].Snapshot?
    ensures ShowsCounts(store.history, out[p].state)
  {
    assert FaithfulAt(store, from, out, p);
    FoldCounts(store, out[p].state, UpTo(store.history, out[p].state.cursor));
  }

  /** The numbers of the state are those of the events up to its cursor. */
  ghost predicate ShowsCounts(history: seq<Event>, s: State) {
    exists n :: 0 <= n <= |history| && EndsAt(history, s.cursor, n) &&
      CountsEvidence(history[..n], s.proof) && CountsTools(history[..n], s.progress)
  }

  /** The first `n` events, and only they, are at or before the cursor. */
  ghost predicate EndsAt(history: seq<Event>, cursor: nat, n: int) {
    forall i :: 0 <= i < |history| ==> (history[i].sequence <= cursor <==> i < n)
  }

  lemma FoldCounts(store: Store, s: State, n: nat)
    requires Increasing(store.history) && n <= |store.history| && ShowsFold(store, s, n)
    ensures ShowsCounts(store.history, s)
  {
    ProofCounts(store.history[..n]);
    ProgressCounts(store.history[..n]);
    UpToDivides(store.history, s.cursor);
    assert EndsAt(store.history, s.cursor, n);
  }

  /**
   What a stream that has caught up has emitted: each event that could be seen after its start, and
   nothing else of the history up to where it stands, once and in order.
   */
  lemma StreamIsExact(store: Store, from: nat, out: seq<Emitted>, seen: nat)
    requires Increasing(store.history) && Faithful(store, from, out) && out != []
    requires UpTo(store.history, from) + |Durables(out)| >= seen
    ensures Increasing(Durables(out))
    ensures var end := UpTo(store.history, from) + |Durables(out)|;
            && seen <= end <= |store.history|
            && forall e :: e in Durables(out) <==> e in store.history[..end] && e.sequence > from
  {
    FaithfulDurables(store, from, out);
    StretchIsExact(store.history, from, UpTo(store.history, from) + |Durables(out)|);
  }

  /** The events of the history in a range of cursors, each once and in order. */
  lemma StretchIsExact(log: seq<Event>, from: nat, end: nat)
    requires Increasing(log) && UpTo(log, from) <= end <= |log|
    ensures Increasing(log[UpTo(log, from)..end])
    ensures forall e :: e in log[UpTo(log, from)..end] <==> e in log[..end] && e.sequence > from
  {
    UpToDivides(log, from);
    StretchHolds(log[..end], UpTo(log, from), from);
    assert log[UpTo(log, from)..end] == log[..end][UpTo(log, from)..];
  }

  lemma StretchHolds(log: seq<Event>, base: nat, from: nat)
    requires base <= |log| && forall i :: 0 <= i < |log| ==> (log[i].sequence <= from <==> i < base)
    ensures forall e :: e in log[base..] <==> e in log && e.sequence > from
  {
    forall e | e in log && e.sequence > from ensures e in log[base..] {
      var i :| 0 <= i < |log| && log[i] == e;
      assert log[base..][i - base] == e;
    }
    forall e | e in log[base..] ensures e in log && e.sequence > from {
      var k :| 0 <= k < |log[base..]| && log[base..][k] == e;
      assert log[base + k] == e;
    }
  }
}
