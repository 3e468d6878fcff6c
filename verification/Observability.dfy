/**
 The customer view of a run (src/application/customer-build-observability.ts): the whole log is read
 back in pages, its progress is summarised, and a timeline of the visible events is served in windows.
 */
module Observability {
  import opened Wrappers
  import opened Text
  import opened EventLog

  const RECONSTRUCTION_PAGE_SIZE: nat := 1000
  const MAX_RECONSTRUCTION_PAGES: nat := 100

  /** reconstructRunEvents: the whole log, or Failure when it is too long to be read back. */
  method ReconstructRunEvents(log: seq<Event>) returns (r: Result<seq<Event>>)
    requires Increasing(log)
    ensures r.Success? <==> |log| < RECONSTRUCTION_PAGE_SIZE * MAX_RECONSTRUCTION_PAGES
    ensures r.Success? ==> r.value == log
  {
    var events: seq<Event> := [];
    var cursor: nat := 0;
    UpToIs(log, 0, 0);
    for page := 0 to MAX_RECONSTRUCTION_PAGES
      invariant |events| == page * RECONSTRUCTION_PAGE_SIZE <= |log| && events == log[..|events|]
      invariant UpTo(log, cursor) == |events|
    {
      NextPage(log, cursor, |events|);
      var next := Page(log, cursor, RECONSTRUCTION_PAGE_SIZE);
      if |next| == 0 { return Success(events); }
      var ok;
      ok, events, cursor := AppendPage(log, events, next, cursor);
      if !ok { return Failure; }
      if |next| < RECONSTRUCTION_PAGE_SIZE { return Success(events); }
    }
    return Failure;
  }

  /** The events of a page, each checked to follow the one before it; the check never fails. */
  method AppendPage(ghost log: seq<Event>, before: seq<Event>, next: seq<Event>, start: nat)
    returns (ok: bool, events: seq<Event>, cursor: nat)
    requires Increasing(log) && |before| + |next| <= |log| && before == log[..|before|]
    requires next == log[|before|..|before| + |next|] && UpTo(log, start) == |before|
    ensures ok && events == log[..|before| + |next|] && UpTo(log, cursor) == |before| + |next|
  {
    ok, events, cursor := true, before, start;
    for i := 0 to |next|
      invariant ok && |events| == |before| + i && events == log[..|events|]
      invariant UpTo(log, cursor) == |events|
    {
      assert next[i] == log[|before| + i];
      UpToDivides(log, cursor);
      if next[i].sequence <= cursor { return false, events, cursor; }
      events := events + [next[i]];
      cursor := next[i].sequence;
      UpToIs(log, cursor, |before| + i + 1);
    }
  }

  lemma NextPage(log: seq<Event>, cursor: nat, start: nat)
    requires Increasing(log) && UpTo(log, cursor) == start
    ensures var next := Page(log, cursor, RECONSTRUCTION_PAGE_SIZE);
            && start + |next| <= |log| && next == log[start..start + |next|]
            && (|next| == RECONSTRUCTION_PAGE_SIZE || start + |next| == |log|)
  {
    AfterIsSuffix(log, cursor);
  }

  /** summarizeProgress: the same fold as the stream's, in four local counters. */
  method SummarizeProgress(events: seq<Event>) returns (p: Progress)
    ensures p == ProgressOf(events)
  {
    var completed: nat, failed: nat, lastTool: Option<string>, repairRound: nat := 0, 0, None, 0;
    assert events[..0] == [];
    for i := 0 to |events|
      invariant Progress(completed, failed, lastTool, repairRound) == ProgressOf(events[..i])
    {
      FoldOne(events, i);
      match events[i].kind {
        case ToolCompleted(Some(call)) =>
          completed := completed + 1;
          if !call.ok { failed := failed + 1; }
          lastTool := Some(call.tool);
          repairRound := call.repairRound;
        case _ =>
      }
    }
    assert events[..|events|] == events;
    return Progress(completed, failed, lastTool, repairRound);
  }

  // ----- The timeline -----

  /** toCustomerTimelineEvent keeps these events. */
  predicate Shown(e: Event) {
    match e.kind
    case ToolCompleted(call) => call.Some?
    case EvidenceRecorded(evidence) => evidence.Some?
    case Internal => false
    case _ => true
  }

  function ShownOf(log: seq<Event>): seq<Event> {
    if log == [] then [] else (if Shown(log[0]) then [log[0]] else []) + ShownOf(log[1..])
  }

  /** The shown events after a cursor. */
  function Timeline(log: seq<Event>, cursor: nat): seq<Event> { ShownOf(After(log, cursor)) }

  function LatestSequence(log: seq<Event>): nat { if log == [] then 0 else log[|log| - 1].sequence }

  datatype Window = Window(items: seq<Event>, nextAfterSequence: nat, hasMore: bool)

  /** The timeline part of observeBuildRunForCustomer. */
  function Observe(log: seq<Event>, after: nat, limit: nat): Window
    requires limit > 0
  {
    var visible := Timeline(log, after);
    if |visible| > limit then Window(visible[..limit], visible[limit - 1].sequence, true)
    else Window(visible, if LatestSequence(log) > after then LatestSequence(log) else after, false)
  }

  lemma {:induction false} ShownAre(log: seq<Event>)
    requires Increasing(log)
    ensures Increasing(ShownOf(log))
    ensures forall e :: e in ShownOf(log) <==> e in log && Shown(e)
  {
    if log != [] {
      ShownAre(log[1..]);
      assert log == [log[0]] + log[1..];
      forall e | e in log[1..] ensures e.sequence > log[0].sequence {
        var i :| 0 <= i < |log[1..]| && log[1..][i] == e;
        assert log[i + 1] == e;
      }
      var rest := ShownOf(log[1..]);
      forall i | 0 <= i < |rest| ensures rest[i].sequence > log[0].sequence { assert rest[i] in log[1..]; }
    }
  }

  lemma AfterIncreases(log: seq<Event>, cursor: nat)
    requires Increasing(log)
    ensures Increasing(After(log, cursor))
  {
    AfterIsSuffix(log, cursor);
  }

  /** Showing and cutting at a cursor may be exchanged. */
  lemma {:induction false} ShownAfter(log: seq<Event>, cursor: nat)
    ensures ShownOf(After(log, cursor)) == After(ShownOf(log), cursor)
  {
    if log != [] {
      ShownAfter(log[1..], cursor);
      ConsTail(log[0], After(log[1..], cursor));
      ConsTail(log[0], ShownOf(log[1..]));
      EmptyConcat(After(log[1..], cursor));
      EmptyConcat(ShownOf(log[1..]));
    }
  }

  /** A window with more to come is followed by the rest of the timeline. */
  lemma WindowThenRest(log: seq<Event>, after: nat, limit: nat)
    requires Increasing(log) && limit > 0 && Observe(log, after, limit).hasMore
    ensures var w := Observe(log, after, limit);
            && Timeline(log, after) == w.items + Timeline(log, w.nextAfterSequence)
            && |w.items| == limit && w.nextAfterSequence > after
  {
    ShownAfter(log, after);
    ShownAfter(log, Observe(log, after, limit).nextAfterSequence);
    ShownAre(log);
    CutAfter(ShownOf(log), after, limit);
  }

  lemma CutAfter(all: seq<Event>, after: nat, limit: nat)
    requires Increasing(all) && 0 < limit < |After(all, after)|
    ensures var rest := After(all, after);
            && rest == rest[..limit] + After(all, rest[limit - 1].sequence) && rest[limit - 1].sequence > after
  {
    AfterIsSuffix(all, after);
    UpToDivides(all, after);
    var base := UpTo(all, after);
    var last := all[base + limit - 1];
    UpToIs(all, last.sequence, base + limit);
    AfterIsSuffix(all, last.sequence);
    assert all[base..][..limit] + all[base + limit..] == all[base..];
  }

  /** Following nextAfterSequence until hasMore is false. */
  function Follow(log: seq<Event>, after: nat, limit: nat): seq<Event>
    requires Increasing(log) && limit > 0
    decreases |Timeline(log, after)|
  {
    var w := Observe(log, after, limit);
    if !w.hasMore then w.items
    else
      WindowThenRest(log, after, limit);
      w.items + Follow(log, w.nextAfterSequence, limit)
  }

  /** For every limit, following the windows yields each shown event after the cursor, once and in order. */
  lemma {:induction false} FollowYieldsAll(log: seq<Event>, after: nat, limit: nat)
    requires Increasing(log) && limit > 0
    ensures Follow(log, after, limit) == Timeline(log, after)
    ensures Increasing(Follow(log, after, limit))
    ensures forall e :: e in Follow(log, after, limit) <==> e in log && Shown(e) && e.sequence > after
    decreases |Timeline(log, after)|
  {
    var w := Observe(log, after, limit);
    if w.hasMore {
      WindowThenRest(log, after, limit);
      FollowYieldsAll(log, w.nextAfterSequence, limit);
    }
    AfterIncreases(log, after);
    ShownAre(After(log, after));
    InAfter(log, after);
  }

  lemma {:induction false} InAfter(log: seq<Event>, cursor: nat)
    ensures forall e :: e in After(log, cursor) <==> e in log && e.sequence > cursor
  {
    if log != [] {
      InAfter(log[1..], cursor);
      assert log == [log[0]] + log[1..];
    }
  }

  /** The cursor served with the last window has passed the whole log: the next window is empty. */
  lemma LastWindowIsLast(log: seq<Event>, after: nat, limit: nat)
    requires Increasing(log) && limit > 0 && !Observe(log, after, limit).hasMore
    ensures Timeline(log, Observe(log, after, limit).nextAfterSequence) == []
  {
    var next := Observe(log, after, limit).nextAfterSequence;
    UpToIs(log, next, |log|);
    AfterIsSuffix(log, next);
  }

  /** Events appended after the last window are the timeline that its cursor continues with. */
  lemma AppendsAreContinued(log: seq<Event>, more: seq<Event>, after: nat, limit: nat)
    requires Increasing(log + more) && Increasing(log) && limit > 0 && !Observe(log, after, limit).hasMore
    requires UpTo(log, after) <= |log| && (after <= LatestSequence(log) || more == [])
    ensures Timeline(log + more, Observe(log, after, limit).nextAfterSequence) == ShownOf(more)
  {
    var all, next := log + more, Observe(log, after, limit).nextAfterSequence;
    if more == [] {
      EmptyConcat(log);
      LastWindowIsLast(log, after, limit);
    } else {
      assert |log| > 0 ==> all[|log| - 1] == log[|log| - 1];
      assert all[|log|] == more[0];
      UpToIs(all, next, |log|);
      AfterIsSuffix(all, next);
      assert all[|log|..] == more;
    }
  }
}
