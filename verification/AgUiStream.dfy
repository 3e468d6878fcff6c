/**
 The AG-UI stream of a run (src/http/ag-ui.ts, streamBuildRunAsAgUi and readNewEvents): durable events
 are replayed in pages while others append to the log, and snapshots fold all that was replayed.

 The store shows, at each read, some prefix of the run's whole history; the prefixes only grow, and
 the run row changes only together with an appended event. Waiting between polls, the clock and the
 contract summary are not part of this model; whether a keepalive is due is given.
 */
module AgUiStream {
  import opened Wrappers
  import opened Text
  import opened EventLog

  const PAGE_SIZE: nat := 256
  const MAX_PAGES: nat := 100
  const MAX_STABILIZATION_READS: nat := 100

  datatype RunStatus = Queued | Running | Passed | Rejected | FailedRun | Cancelled

  predicate Terminal(s: RunStatus) { s.Passed? || s.Rejected? || s.FailedRun? || s.Cancelled? }

  /** A run row: its status, and all else of it that snapshots show. */
  datatype Row = Row(status: RunStatus, details: string)

  class Store {
    const history: seq<Event>
    const visible: nat -> nat
    const rowAt: nat -> Row
    const artifactAt: nat -> bool
    var readCount: nat

    /** Read `k` sees the first `visible(k)` events of the history. */
    ghost predicate Valid() {
      && Increasing(history)
      && (forall k :: visible(k) <= |history|)
      && (forall j, k :: j <= k ==> visible(j) <= visible(k))
    }

    constructor (history: seq<Event>, visible: nat -> nat, rowAt: nat -> Row, artifactAt: nat -> bool)
      ensures this.history == history && this.visible == visible && this.rowAt == rowAt && this.artifactAt == artifactAt
      ensures readCount == 0
    {
      this.history, this.visible, this.rowAt, this.artifactAt, readCount := history, visible, rowAt, artifactAt, 0;
    }

    method ListEvents(cursor: nat, limit: nat) returns (page: seq<Event>)
      requires Valid()
      modifies this
      ensures readCount == old(readCount) + 1
      ensures page == Page(history[..visible(old(readCount))], cursor, limit)
    {
      page := Page(history[..visible(readCount)], cursor, limit);
      readCount := readCount + 1;
    }

    method GetRun() returns (row: Row)
      modifies this
      ensures readCount == old(readCount) + 1 && row == rowAt(visible(old(readCount)))
    {
      row := rowAt(visible(readCount));
      readCount := readCount + 1;
    }

    method GetArtifact() returns (present: bool)
      modifies this
      ensures readCount == old(readCount) + 1 && present == artifactAt(visible(old(readCount)))
    {
      present := artifactAt(visible(readCount));
      readCount := readCount + 1;
    }
  }

  datatype State = State(cursor: nat, row: Row, progress: Progress, proof: Proof, artifactAvailable: bool)

  datatype Emitted =
    | Started | Durable(event: Event) | Snapshot(state: State) | Activity(shown: State)
    | Keepalive(cursor: nat) | Finished(at: nat, status: RunStatus) | InternalError

  // ----- What a stream must show -----

  function Durables(out: seq<Emitted>): seq<Event> {
    if out == [] then []
    else Durables(out[..|out| - 1]) + if out[|out| - 1].Durable? then [out[|out| - 1].event] else []
  }

  /** A state shown when `n` events of the history have been folded. Only the artifact may be newer. */
  ghost predicate ShowsFold(store: Store, s: State, n: nat)
    requires n <= |store.history|
  {
    && UpTo(store.history, s.cursor) == n && s.row == store.rowAt(n)
    && s.progress == ProgressOf(store.history[..n]) && s.proof == ProofOf(store.history[..n])
    && exists m :: ArtifactAsOf(store, s, n, m)
  }

  ghost predicate ArtifactAsOf(store: Store, s: State, n: nat, m: nat) {
    n <= m <= |store.history| && s.artifactAvailable == store.artifactAt(m)
  }

  /** What may be emitted when the stream stands after the first `n` events. */
  ghost predicate MayEmit(store: Store, e: Emitted, n: nat)
    requires n <= |store.history|
  {
    match e
    case Durable(event) => n < |store.history| && event == store.history[n]
    case Snapshot(s) => ShowsFold(store, s, n)
    case Activity(s) => ShowsFold(store, s, n)
    case Keepalive(c) => UpTo(store.history, c) == n
    case Finished(c, status) => UpTo(store.history, c) == n && status == store.rowAt(n).status && Terminal(status)
    case _ => true
  }

  /** The stream from a cursor: every emission fits where the stream stands, and durables move it on. */
  ghost predicate FaithfulAt(store: Store, from: nat, out: seq<Emitted>, p: nat)
    requires p < |out|
  {
    var base := UpTo(store.history, from);
    var n := base + |Durables(out[..p])|;
    n <= |store.history| && Durables(out[..p]) == store.history[base..n] && MayEmit(store, out[p], n)
  }

  ghost predicate Faithful(store: Store, from: nat, out: seq<Emitted>) {
    forall p :: 0 <= p < |out| ==> FaithfulAt(store, from, out, p)
  }

  /** The stream stands at `cursor`, after the first `n` events, having emitted those after `from`. */
  ghost predicate Stands(store: Store, from: nat, out: seq<Emitted>, cursor: nat, n: nat) {
    && Faithful(store, from, out)
    && UpTo(store.history, from) <= n <= |store.history| && UpTo(store.history, cursor) == n
    && Durables(out) == store.history[UpTo(store.history, from)..n]
  }

  /** Nothing so far has ended the stream. */
  predicate Open(out: seq<Emitted>) {
    forall p :: 0 <= p < |out| ==> !out[p].Finished? && !out[p].InternalError?
  }

  /** A stream that has started, stands, and has not ended. */
  ghost predicate Live(store: Store, from: nat, out: seq<Emitted>, cursor: nat, n: nat) {
    Stands(store, from, out, cursor, n) && Open(out) && out != [] && out[0] == Started
  }

  lemma FaithfulPush(store: Store, from: nat, out: seq<Emitted>, cursor: nat, n: nat, e: Emitted)
    requires Stands(store, from, out, cursor, n) && MayEmit(store, e, n)
    ensures Faithful(store, from, out + [e])
    ensures Durables(out + [e]) == Durables(out) + if e.Durable? then [e.event] else []
  {
    var grown := out + [e];
    assert grown[..|out|] == out;
    forall p | 0 <= p < |grown| ensures FaithfulAt(store, from, grown, p) {
      if p < |out| {
        assert grown[..p] == out[..p];
        assert FaithfulAt(store, from, out, p);
      }
    }
  }

  lemma StaysPut(store: Store, from: nat, out: seq<Emitted>, cursor: nat, n: nat, e: Emitted)
    requires Live(store, from, out, cursor, n) && MayEmit(store, e, n)
    requires !e.Durable? && !e.Finished? && !e.InternalError?
    ensures Live(store, from, out + [e], cursor, n)
  {
    FaithfulPush(store, from, out, cursor, n, e);
    EmptyConcat(Durables(out));
  }

  lemma MovesOn(store: Store, from: nat, out: seq<Emitted>, cursor: nat, n: nat)
    requires Increasing(store.history) && Live(store, from, out, cursor, n) && n < |store.history|
    ensures Live(store, from, out + [Durable(store.history[n])], store.history[n].sequence, n + 1)
  {
    FaithfulPush(store, from, out, cursor, n, Durable(store.history[n]));
    UpToIs(store.history, store.history[n].sequence, n + 1);
    SliceGrows(store.history, UpTo(store.history, from), n);
  }

  // ----- Pages -----

  /** A page read at a cursor that the visible log has reached is the next stretch of the history. */
  lemma PageIs(store: Store, cursor: nat, limit: nat, v: nat, n: nat)
    requires Increasing(store.history) && v <= |store.history| && UpTo(store.history, cursor) == n <= v
    ensures var page := Page(store.history[..v], cursor, limit);
            && |page| <= limit && n + |page| <= v && page == store.history[n..n + |page|]
            && (|page| < limit ==> n + |page| == v)
  {
    UpToOfPrefix(store.history, cursor, v);
    AfterIsSuffix(store.history[..v], cursor);
    assert store.history[..v][n..] == store.history[n..v];
  }

  lemma PageIncreases(log: seq<Event>, cursor: nat, page: seq<Event>, i: nat)
    requires Increasing(log) && i < |page| && UpTo(log, cursor) + |page| <= |log|
    requires page == log[UpTo(log, cursor)..UpTo(log, cursor) + |page|]
    ensures page[i].sequence > if i == 0 then cursor else page[i - 1].sequence
  {
    var n := UpTo(log, cursor);
    UpToDivides(log, cursor);
    assert page[i] == log[n + i];
    assert i > 0 ==> page[i - 1] == log[n + i - 1];
  }

  /** readNewEvents: the page, checked; the check never fails on such a store. */
  method ReadNewEvents(store: Store, cursor: nat) returns (page: Result<seq<Event>>)
    requires store.Valid() && UpTo(store.history, cursor) <= store.visible(store.readCount)
    modifies store
    ensures store.readCount == old(store.readCount) + 1
    ensures page.Success?
    ensures var n, v := UpTo(store.history, cursor), store.visible(old(store.readCount));
            && |page.value| <= PAGE_SIZE && n + |page.value| <= v && page.value == store.history[n..n + |page.value|]
            && (|page.value| < PAGE_SIZE ==> n + |page.value| == v)
  {
    ghost var n, v := UpTo(store.history, cursor), store.visible(store.readCount);
    PageIs(store, cursor, PAGE_SIZE, v, n);
    var events := store.ListEvents(cursor, PAGE_SIZE);
    ghost var log := store.history;
    assert |events| <= PAGE_SIZE && n + |events| <= v <= |log| && events == log[n..n + |events|];
    if |events| > PAGE_SIZE { return Failure; }
    var previous := cursor;
    for i := 0 to |events|
      invariant store.readCount == old(store.readCount) + 1
      invariant previous == if i == 0 then cursor else events[i - 1].sequence
    {
      PageIncreases(log, cursor, events, i);
      if events[i].sequence <= previous { return Failure; }
      previous := events[i].sequence;
    }
    return Success(events);
  }

  // ----- The stream -----

  /** The client, which may be found gone at any check. */
  class Client {
    const goneAt: nat -> bool
    var checks: nat

    constructor (goneAt: nat -> bool)
      ensures this.goneAt == goneAt && checks == 0
    {
      this.goneAt, checks := goneAt, 0;
    }

    /** No check so far found the client gone. */
    ghost predicate Stayed()
      reads this
    {
      forall k :: 0 <= k < checks ==> !goneAt(k)
    }

    method Aborted() returns (gone: bool)
      modifies this
      ensures checks == old(checks) + 1 && gone == goneAt(old(checks))
      ensures Stayed() <==> old(Stayed()) && !gone
    {
      gone := goneAt(checks);
      checks := checks + 1;
    }
  }

  ghost predicate Folded(store: Store, counters: Counters, tally: Tally, n: nat)
    requires n <= |store.history|
    reads counters, tally
  {
    counters.Value() == ProgressOf(store.history[..n]) && tally.Value() == ProofOf(store.history[..n])
  }

  /** One page of the reconstruction: its events up to the client's cursor. */
  method FoldPage(store: Store, from: nat, page: seq<Event>, counters: Counters, tally: Tally, start: nat, ghost before: nat)
    returns (cursor: nat, ghost n: nat)
    requires Increasing(store.history) && UpTo(store.history, start) == before <= UpTo(store.history, from) && start < from
    requires before + |page| <= |store.history| && page == store.history[before..before + |page|]
    requires Folded(store, counters, tally, before)
    modifies counters, tally
    ensures n == if before + |page| <= UpTo(store.history, from) then before + |page| else UpTo(store.history, from)
    ensures UpTo(store.history, cursor) == n && Folded(store, counters, tally, n)
    ensures start <= cursor <= from && (n > before ==> start < cursor)
  {
    cursor, n := start, before;
    UpToDivides(store.history, from);
    UpToDivides(store.history, start);
    for i := 0 to |page|
      invariant n == before + i <= UpTo(store.history, from)
      invariant UpTo(store.history, cursor) == n && Folded(store, counters, tally, n)
      invariant start <= cursor <= from && (i > 0 ==> start < cursor)
    {
      assert page[i] == store.history[n];
      if page[i].sequence > from { break; }
      FoldOne(store.history, n);
      counters.Apply(page[i]);
      tally.Apply(page[i]);
      cursor := page[i].sequence;
      UpToIs(store.history, cursor, n + 1);
      n := n + 1;
    }
  }

  /** The cursor is the sequence of an event, as in every id that is emitted, or the start. */
  predicate AtEvent(log: seq<Event>, cursor: nat) {
    cursor == 0 || (UpTo(log, cursor) > 0 && log[UpTo(log, cursor) - 1].sequence == cursor)
  }

  lemma ReachedExactly(log: seq<Event>, from: nat, cursor: nat)
    requires Increasing(log) && cursor <= from
    ensures UpTo(log, cursor) <= UpTo(log, from)
    ensures AtEvent(log, from) ==> (cursor < from <==> UpTo(log, cursor) < UpTo(log, from))
  {
    UpToDivides(log, cursor);
    UpToDivides(log, from);
  }

  /** A page lies after its cursor; it ends beyond another cursor exactly when it holds an event beyond it. */
  lemma PageEnds(log: seq<Event>, from: nat, cursor: nat, page: seq<Event>)
    requires Increasing(log) && page != [] && UpTo(log, cursor) + |page| <= |log|
    requires page == log[UpTo(log, cursor)..UpTo(log, cursor) + |page|]
    ensures page[0].sequence > cursor
    ensures page[|page| - 1].sequence > from <==> UpTo(log, cursor) + |page| > UpTo(log, from)
  {
    UpToDivides(log, cursor);
    UpToDivides(log, from);
    assert page[0] == log[UpTo(log, cursor)] && page[|page| - 1] == log[UpTo(log, cursor) + |page| - 1];
  }

  const MOST_REBUILT: nat := MAX_PAGES * PAGE_SIZE

  datatype PageEnd = Nothing | Within | Beyond

  /** One page of the reconstruction, read and folded, and where it ended. */
  method RebuildPage(store: Store, from: nat, counters: Counters, tally: Tally, start: nat, ghost before: nat)
    returns (end: PageEnd, cursor: nat, ghost n: nat)
    requires store.Valid() && UpTo(store.history, start) == before <= UpTo(store.history, from) && start < from
    requires UpTo(store.history, from) <= store.visible(store.readCount) && Folded(store, counters, tally, before)
    modifies store, counters, tally
    ensures store.readCount == old(store.readCount) + 1
    ensures n == if before + PAGE_SIZE < UpTo(store.history, from) then before + PAGE_SIZE else UpTo(store.history, from)
    ensures UpTo(store.history, cursor) == n && Folded(store, counters, tally, n) && start <= cursor <= from
    ensures end == Nothing ==> n == before
    ensures if end == Within then start < cursor && before < UpTo(store.history, from) else n == UpTo(store.history, from)
  {
    var read := ReadNewEvents(store, start);
    var page := read.value;
    if |page| == 0 { return Nothing, start, before; }
    PageEnds(store.history, from, start, page);
    cursor, n := FoldPage(store, from, page, counters, tally, start, before);
    end := if page[|page| - 1].sequence > from then Beyond else Within;
  }

  /**
   Folding up to where the client stopped: at most 100 pages from the start of the log. From the sequence of
   an event this fails exactly when it lies beyond the 25,600th. Another cursor may need one page more.
   */
  method Reconstruct(store: Store, from: nat, counters: Counters, tally: Tally) returns (ok: bool)
    requires store.Valid() && UpTo(store.history, from) <= store.visible(store.readCount)
    requires counters.Value() == NO_PROGRESS && tally.Value() == NO_PROOF
    modifies store, counters, tally
    ensures store.readCount >= old(store.readCount)
    ensures ok ==> Folded(store, counters, tally, UpTo(store.history, from))
    ensures AtEvent(store.history, from) ==> (!ok <==> UpTo(store.history, from) > MOST_REBUILT)
    ensures UpTo(store.history, from) > MOST_REBUILT ==> !ok
    ensures !ok ==> UpTo(store.history, from) > MOST_REBUILT - PAGE_SIZE
  {
    var cursor: nat, pages: nat := 0, 0;
    ghost var n: nat, goal := 0, UpTo(store.history, from);
    UpToDivides(store.history, 0);
    while cursor < from
      invariant store.readCount >= old(store.readCount)
      invariant UpTo(store.history, cursor) == n && Folded(store, counters, tally, n)
      invariant n == if pages * PAGE_SIZE < goal then pages * PAGE_SIZE else goal
      invariant pages <= MAX_PAGES && (pages > 0 ==> (pages - 1) * PAGE_SIZE < goal)
      invariant cursor <= from
      decreases from - cursor
    {
      assert store.visible(old(store.readCount)) <= store.visible(store.readCount);
      ReachedExactly(store.history, from, cursor);
      var end;
      end, cursor, n := RebuildPage(store, from, counters, tally, cursor, n);
      if end == Nothing { break; }
      pages := pages + 1;
      if pages > MAX_PAGES { return false; }
      if end == Beyond { break; }
    }
    ReachedExactly(store.history, from, cursor);
    return true;
  }

  /** One replay: each event of the page is folded and emitted, unless the client is found gone. */
  method Replay(store: Store, client: Client, from: nat, page: seq<Event>, counters: Counters, tally: Tally,
                emitted: seq<Emitted>, start: nat, ghost before: nat)
    returns (out: seq<Emitted>, cursor: nat, gone: bool, ghost n: nat)
    requires Increasing(store.history) && Live(store, from, emitted, start, before)
    requires before + |page| <= |store.history| && page == store.history[before..before + |page|]
    requires Folded(store, counters, tally, before)
    modifies client, counters, tally
    ensures before <= n <= before + |page| && (if gone then !client.Stayed() else n == before + |page|)
    ensures Live(store, from, out, cursor, n) && (page == [] ==> out == emitted)
    ensures Folded(store, counters, tally, n)
  {
    out, cursor, gone, n := emitted, start, false, before;
    for i := 0 to |page|
      invariant n == before + i && (i == 0 ==> out == emitted)
      invariant Live(store, from, out, cursor, n)
      invariant Folded(store, counters, tally, n)
    {
      gone := client.Aborted();
      if gone { return; }
      assert page[i] == store.history[n];
      FoldOne(store.history, n);
      MovesOn(store, from, out, cursor, n);
      cursor := page[i].sequence;
      counters.Apply(page[i]);
      tally.Apply(page[i]);
      out := out + [Durable(page[i])];
      n := n + 1;
    }
  }

  datatype Stability = Stable | Unstable | Gone

  /** Reads the row until no event followed it: the row is then the one as of the cursor. */
  method Stabilize(store: Store, client: Client, from: nat, counters: Counters, tally: Tally,
                   emitted: seq<Emitted>, start: nat, ghost before: nat)
    returns (row: Row, out: seq<Emitted>, cursor: nat, updated: bool, end: Stability, ghost n: nat)
    requires store.Valid() && Live(store, from, emitted, start, before)
    requires before <= store.visible(store.readCount) && Folded(store, counters, tally, before)
    modifies store, client, counters, tally
    ensures store.readCount > old(store.readCount) + 1
    ensures before <= n <= store.visible(store.readCount)
    ensures Live(store, from, out, cursor, n) && Folded(store, counters, tally, n)
    ensures end == Stable ==> row == store.rowAt(n) && store.visible(store.readCount - 1) == n && (!updated ==> out == emitted)
    ensures end == Unstable ==> n > before + MAX_STABILIZATION_READS
    ensures end == Gone ==> !client.Stayed()
  {
    out, cursor, updated, n := emitted, start, false, before;
    var stabilizationReads: nat := 0;
    while true
      invariant !updated ==> out == emitted
      invariant store.readCount >= old(store.readCount)
      invariant stabilizationReads <= MAX_STABILIZATION_READS && n >= before + stabilizationReads
      invariant n <= store.visible(store.readCount)
      invariant Live(store, from, out, cursor, n) && Folded(store, counters, tally, n)
      decreases MAX_STABILIZATION_READS - stabilizationReads
    {
      ghost var first := store.readCount;
      row := store.GetRun();
      assert store.visible(first) <= store.visible(first + 1) <= store.visible(first + 2);
      var read := ReadNewEvents(store, cursor);
      if |read.value| == 0 {
        end := Stable;
        return;
      }
      var gone: bool;
      out, cursor, gone, n := Replay(store, client, from, read.value, counters, tally, out, cursor, n);
      if gone {
        end := Gone;
        return;
      }
      updated := true;
      stabilizationReads := stabilizationReads + 1;
      if stabilizationReads > MAX_STABILIZATION_READS {
        end := Unstable;
        return;
      }
    }
  }

  /** What the guarantees of a stream are, and how it may end. */
  ghost predicate StreamedWell(store: Store, from: nat, out: seq<Emitted>) {
    && out != [] && out[0] == Started && Faithful(store, from, out)
    && Open(out[..|out| - 1])
    && (out[|out| - 1].InternalError? ==> TooFarBack(store, from, out) || Restless(out))
  }

  /** The reconstruction needed more pages than it may read: nothing was streamed. */
  ghost predicate TooFarBack(store: Store, from: nat, out: seq<Emitted>) {
    && out == [Started, InternalError]
    && UpTo(store.history, from) > if AtEvent(store.history, from) then MOST_REBUILT else MOST_REBUILT - PAGE_SIZE
  }

  /** Events kept being appended while one poll waited for a settled row. */
  ghost predicate Restless(out: seq<Emitted>) { |Durables(out)| > MAX_STABILIZATION_READS }

  /** Every event is emitted that the last but one read of the store could see. */
  ghost predicate CaughtUp(store: Store, from: nat, out: seq<Emitted>)
    reads store
  {
    store.readCount >= 2 && UpTo(store.history, from) + |Durables(out)| >= store.visible(store.readCount - 2)
  }

  lemma EndsWith(store: Store, from: nat, out: seq<Emitted>, cursor: nat, n: nat, e: Emitted)
    requires Live(store, from, out, cursor, n) && MayEmit(store, e, n)
    requires !e.Durable? && (e.InternalError? ==> TooFarBack(store, from, out + [e]) || Restless(out))
    ensures StreamedWell(store, from, out + [e])
  {
    FaithfulPush(store, from, out, cursor, n, e);
    EmptyConcat(Durables(out));
    assert (out + [e])[..|out|] == out;
  }

  lemma GoesOn(store: Store, from: nat, out: seq<Emitted>, cursor: nat, n: nat)
    requires Live(store, from, out, cursor, n)
    ensures StreamedWell(store, from, out) && !out[|out| - 1].Finished?
  {
    assert !out[|out| - 1].InternalError?;
  }

  /** No durable event was emitted since the last snapshot. */
  ghost predicate Shown(out: seq<Emitted>) {
    exists p :: 0 <= p < |out| && ShownAt(out, p)
  }

  predicate ShownAt(out: seq<Emitted>, p: nat)
    requires p < |out|
  {
    out[p].Snapshot? && forall q :: p < q < |out| ==> !out[q].Durable?
  }

  lemma ShownStays(out: seq<Emitted>, e: Emitted)
    requires !e.Durable? && (e.Snapshot? || Shown(out))
    ensures Shown(out + [e])
  {
    if e.Snapshot? {
      assert ShownAt(out + [e], |out|);
    } else {
      var p :| 0 <= p < |out| && ShownAt(out, p);
      assert ShownAt(out + [e], p);
    }
  }

  datatype Turn = Again | Ended | Broken

  /** The snapshot of a settled poll, if one is due, and the end of the stream, if the run has ended. */
  method Show(store: Store, from: nat, counters: Counters, tally: Tally, row: Row, needed: bool, keepalive: bool,
              emitted: seq<Emitted>, cursor: nat, ghost n: nat)
    returns (out: seq<Emitted>, turn: Turn)
    requires store.Valid() && Live(store, from, emitted, cursor, n) && Folded(store, counters, tally, n)
    requires store.readCount > 0 && store.visible(store.readCount - 1) == n && row == store.rowAt(n)
    modifies store
    ensures old(store.readCount) <= store.readCount <= old(store.readCount) + 1 && Folded(store, counters, tally, n)
    ensures turn == Again || turn == Ended
    ensures needed || Shown(emitted) ==> Shown(out)
    ensures turn == Again ==> Live(store, from, out, cursor, n)
    ensures turn == Ended ==>
              && StreamedWell(store, from, out) && out[|out| - 1] == Finished(cursor, row.status)
              && Durables(out) == store.history[UpTo(store.history, from)..n]
              && store.readCount >= 2 && store.visible(store.readCount - 2) == n
  {
    out := emitted;
    if needed || Terminal(row.status) {
      ghost var m := store.visible(store.readCount);
      assert store.visible(store.readCount - 1) <= m;
      var artifact := store.GetArtifact();
      var state := State(cursor, row, counters.Value(), tally.Value(), artifact);
      assert ArtifactAsOf(store, state, n, m);
      StaysPut(store, from, out, cursor, n, Snapshot(state));
      ShownStays(out, Snapshot(state));
      out := out + [Snapshot(state)];
      StaysPut(store, from, out, cursor, n, Activity(state));
      ShownStays(out, Activity(state));
      out := out + [Activity(state)];
    }
    if Terminal(row.status) {
      EndsWith(store, from, out, cursor, n, Finished(cursor, row.status));
      FaithfulPush(store, from, out, cursor, n, Finished(cursor, row.status));
      EmptyConcat(Durables(out));
      ShownStays(out, Finished(cursor, row.status));
      return out + [Finished(cursor, row.status)], Ended;
    }
    if !needed && keepalive {
      StaysPut(store, from, out, cursor, n, Keepalive(cursor));
      if Shown(out) { ShownStays(out, Keepalive(cursor)); }
      out := out + [Keepalive(cursor)];
    }
    return out, Again;
  }

  /** The last read before the run was reported as finished found nothing after the cursor. */
  ghost predicate Drained(store: Store, out: seq<Emitted>)
    requires store.Valid()
    reads store
  {
    out != [] && out[|out| - 1].Finished? ==>
      store.readCount >= 2 && store.visible(store.readCount - 2) == UpTo(store.history, out[|out| - 1].at)
  }

  /** The events after the cursor that are visible, if the client is still there. */
  method ReplayNew(store: Store, client: Client, from: nat, counters: Counters, tally: Tally,
                   emitted: seq<Emitted>, start: nat, ghost before: nat)
    returns (out: seq<Emitted>, cursor: nat, gone: bool, any: bool, ghost n: nat)
    requires store.Valid() && Live(store, from, emitted, start, before) && Folded(store, counters, tally, before)
    requires before <= store.visible(store.readCount)
    modifies store, client, counters, tally
    ensures old(store.readCount) <= store.readCount && before <= n <= store.visible(store.readCount)
    ensures if gone then !client.Stayed() else store.readCount == old(store.readCount) + 1
    ensures Live(store, from, out, cursor, n) && Folded(store, counters, tally, n)
    ensures !gone && !any ==> out == emitted
  {
    gone := client.Aborted();
    if gone { return emitted, start, true, false, before; }
    assert store.visible(store.readCount) <= store.visible(store.readCount + 1);
    var replay := ReadNewEvents(store, start);
    any := |replay.value| > 0;
    out, cursor, gone, n := Replay(store, client, from, replay.value, counters, tally, emitted, start, before);
  }

  /** One poll: a replay, a settled row, and what is shown of it. Broken means that the client is gone. */
  method Poll(store: Store, client: Client, from: nat, counters: Counters, tally: Tally,
              first: bool, keepalive: bool, emitted: seq<Emitted>, start: nat, ghost before: nat)
    returns (out: seq<Emitted>, cursor: nat, turn: Turn, ghost n: nat)
    requires store.Valid() && Live(store, from, emitted, start, before) && Folded(store, counters, tally, before)
    requires before <= store.visible(store.readCount)
    modifies store, client, counters, tally
    ensures StreamedWell(store, from, out) && Drained(store, out)
    ensures turn == Broken ==> !client.Stayed()
    ensures turn == Again || (turn == Ended && !out[|out| - 1].InternalError?) ==>
              CaughtUp(store, from, out) && (first || Shown(emitted) ==> Shown(out)) && store.readCount >= old(store.readCount) + 3
    ensures turn == Ended ==> out[|out| - 1].Finished? || out[|out| - 1].InternalError?
    ensures turn == Again ==>
              && n <= store.visible(store.readCount)
              && Live(store, from, out, cursor, n) && Folded(store, counters, tally, n)
  {
    var gone, any;
    out, cursor, gone, any, n := ReplayNew(store, client, from, counters, tally, emitted, start, before);
    GoesOn(store, from, out, cursor, n);
    if gone { return out, cursor, Broken, n; }
    out, cursor, turn, n := Settle(store, client, from, counters, tally, first || any, keepalive, out, cursor, n);
  }

  /** The second half of a poll. */
  method Settle(store: Store, client: Client, from: nat, counters: Counters, tally: Tally,
                needed: bool, keepalive: bool, emitted: seq<Emitted>, start: nat, ghost before: nat)
    returns (out: seq<Emitted>, cursor: nat, turn: Turn, ghost n: nat)
    requires store.Valid() && Live(store, from, emitted, start, before) && Folded(store, counters, tally, before)
    requires before <= store.visible(store.readCount)
    modifies store, client, counters, tally
    ensures StreamedWell(store, from, out) && Drained(store, out)
    ensures turn == Broken ==> !client.Stayed()
    ensures turn == Again || (turn == Ended && !out[|out| - 1].InternalError?) ==>
              CaughtUp(store, from, out) && (needed || Shown(emitted) ==> Shown(out)) && store.readCount >= old(store.readCount) + 2
    ensures turn == Ended ==> out[|out| - 1].Finished? || out[|out| - 1].InternalError?
    ensures turn == Again ==>
              && n <= store.visible(store.readCount)
              && Live(store, from, out, cursor, n) && Folded(store, counters, tally, n)
  {
    var row, updated, end;
    row, out, cursor, updated, end, n := Stabilize(store, client, from, counters, tally, emitted, start, before);
    GoesOn(store, from, out, cursor, n);
    if end == Gone { return out, cursor, Broken, n; }
    if end == Unstable {
      out, turn := BreakOff(store, client, from, out, cursor, n);
    } else {
      out, turn := ShowSettled(store, from, counters, tally, row, needed || updated, keepalive, out, cursor, n);
    }
  }

  /** The catch block: an error that is shown unless the client is gone. */
  method BreakOff(store: Store, client: Client, from: nat, emitted: seq<Emitted>, cursor: nat, ghost n: nat)
    returns (out: seq<Emitted>, turn: Turn)
    requires Live(store, from, emitted, cursor, n)
    requires TooFarBack(store, from, emitted + [InternalError]) || Restless(emitted)
    modifies client
    ensures StreamedWell(store, from, out) && !out[|out| - 1].Finished?
    ensures if turn == Ended then out == emitted + [InternalError] else turn == Broken && out == emitted && !client.Stayed()
  {
    out := emitted;
    GoesOn(store, from, out, cursor, n);
    var gone := client.Aborted();
    if gone { return out, Broken; }
    EndsWith(store, from, out, cursor, n, InternalError);
    return out + [InternalError], Ended;
  }

  /** Show, right after the row has settled. */
  method ShowSettled(store: Store, from: nat, counters: Counters, tally: Tally, row: Row, needed: bool, keepalive: bool,
                     emitted: seq<Emitted>, cursor: nat, ghost n: nat)
    returns (out: seq<Emitted>, turn: Turn)
    requires store.Valid() && Live(store, from, emitted, cursor, n) && Folded(store, counters, tally, n)
    requires store.readCount > 1 && store.visible(store.readCount - 1) == n && row == store.rowAt(n)
    modifies store
    ensures store.readCount >= old(store.readCount) && StreamedWell(store, from, out) && Drained(store, out) && CaughtUp(store, from, out)
    ensures turn == Again || (turn == Ended && out[|out| - 1].Finished?)
    ensures needed || Shown(emitted) ==> Shown(out)
    ensures turn == Again ==>
              && n <= store.visible(store.readCount)
              && Live(store, from, out, cursor, n) && Folded(store, counters, tally, n)
  {
    ghost var settled := store.readCount;
    assert store.visible(settled - 2) <= n;
    out, turn := Show(store, from, counters, tally, row, needed, keepalive, emitted, cursor, n);
    assert n <= store.visible(settled) <= store.visible(store.readCount);
    if turn == Again { GoesOn(store, from, out, cursor, n); }
  }

  /**
   streamBuildRunAsAgUi, watched for at most `polls` polls. `due(k)` says whether a keepalive is due in
   poll `k`. The handler has checked that the log reaches the cursor.
   */
  method Stream(store: Store, client: Client, from: nat, polls: nat, due: nat -> bool) returns (out: seq<Emitted>)
    requires store.Valid() && UpTo(store.history, from) <= store.visible(store.readCount)
    modifies store, client
    ensures StreamedWell(store, from, out) && Drained(store, out)
    ensures UpTo(store.history, from) > MOST_REBUILT ==> out == [Started] || out == [Started, InternalError]
    ensures client.Stayed() ==>
              && (UpTo(store.history, from) > MOST_REBUILT ==> out == [Started, InternalError])
              && (polls > 0 && !out[|out| - 1].InternalError? ==>
                    && CaughtUp(store, from, out) && Shown(out)
                    && store.readCount >= old(store.readCount) + 3 * if out[|out| - 1].Finished? then 1 else polls)
  {
    var counters := new Counters();
    var tally := new Tally();
    out := [Started];
    ghost var n: nat, first := UpTo(store.history, from), store.readCount;
    Begins(store, from);
    GoesOn(store, from, out, from, n);
    var rebuilt := Reconstruct(store, from, counters, tally);
    assert store.visible(first) <= store.visible(store.readCount);
    if !rebuilt {
      var turn;
      out, turn := BreakOff(store, client, from, out, from, n);
      return;
    }
    out := Polls(store, client, from, polls, due, counters, tally, out, n);
  }

  /** The poll loop, after the reconstruction. */
  method Polls(store: Store, client: Client, from: nat, polls: nat, due: nat -> bool, counters: Counters, tally: Tally,
               emitted: seq<Emitted>, ghost before: nat)
    returns (out: seq<Emitted>)
    requires store.Valid() && Live(store, from, emitted, from, before) && Folded(store, counters, tally, before)
    requires before <= store.visible(store.readCount)
    modifies store, client, counters, tally
    ensures StreamedWell(store, from, out) && Drained(store, out)
    ensures client.Stayed() && polls > 0 && !out[|out| - 1].InternalError? ==>
              && CaughtUp(store, from, out) && Shown(out)
              && store.readCount >= old(store.readCount) + 3 * if out[|out| - 1].Finished? then 1 else polls
  {
    out := emitted;
    var cursor := from;
    ghost var n: nat, first := before, store.readCount;
    GoesOn(store, from, out, from, n);
    for poll := 0 to polls
      invariant n <= store.visible(store.readCount) && store.readCount >= first + 3 * poll
      invariant StreamedWell(store, from, out) && Drained(store, out) && (poll > 0 ==> CaughtUp(store, from, out) && Shown(out))
      invariant Live(store, from, out, cursor, n) && Folded(store, counters, tally, n)
    {
      var turn;
      out, cursor, turn, n := Poll(store, client, from, counters, tally, poll == 0, due(poll), out, cursor, n);
      if turn != Again { return; }
    }
  }

  lemma Begins(store: Store, from: nat)
    ensures Live(store, from, [Started], from, UpTo(store.history, from))
  {
    assert [Started][..1] == [Started] && [Started][..0] == [];
    assert FaithfulAt(store, from, [Started], 0);
  }
}
