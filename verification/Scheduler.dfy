/**
 The build scheduler (src/application/build-scheduler.ts): which queued runs a wake-up dispatches, and
 how many runs are active.

 Timers, heartbeats and the execution itself are not part of this model: a run is dispatched, and later
 its completion is reported.
 */
module Scheduler {
  import opened Text

  const MAX_ACTIVE: nat := 4

  /** The runs of a queue that get a slot: each not yet active, until the store refuses a slot. */
  function Dispatched(queue: seq<string>, active: set<string>, granted: string -> bool): seq<string> {
    if queue == [] then []
    else if queue[0] in active then Dispatched(queue[1..], active, granted)
    else if !granted(queue[0]) then []
    else [queue[0]] + Dispatched(queue[1..], active + {queue[0]}, granted)
  }

  /** No run is dispatched twice, or while it is active; and only runs of the queue are. */
  lemma {:induction false} DispatchedAreNew(queue: seq<string>, active: set<string>, granted: string -> bool)
    ensures var runs := Dispatched(queue, active, granted);
            && NoDuplicates(runs) && |runs| <= |queue|
            && forall run :: run in runs ==> run in queue && run !in active && granted(run)
  {
    if queue != [] {
      assert queue == [queue[0]] + queue[1..];
      if queue[0] in active {
        DispatchedAreNew(queue[1..], active, granted);
      } else if granted(queue[0]) {
        DispatchedAreNew(queue[1..], active + {queue[0]}, granted);
        ConcatNoDuplicates([queue[0]], Dispatched(queue[1..], active + {queue[0]}, granted));
      }
    }
  }

  /** Something is dispatched exactly when the first run that is not active is granted a slot. */
  lemma {:induction false} DispatchesSome(queue: seq<string>, active: set<string>, granted: string -> bool)
    ensures Dispatched(queue, active, granted) != [] <==>
            exists i :: 0 <= i < |queue| && queue[i] !in active && granted(queue[i]) && forall j :: 0 <= j < i ==> queue[j] in active
  {
    if queue != [] {
      DispatchesSome(queue[1..], active, granted);
      if queue[0] in active {
        if i :| 0 <= i < |queue| && queue[i] !in active && granted(queue[i]) && forall j :: 0 <= j < i ==> queue[j] in active {
          assert queue[1..][i - 1] == queue[i];
          assert forall j :: 0 <= j < i - 1 ==> queue[1..][j] == queue[j + 1];
        }
        if i :| 0 <= i < |queue[1..]| && queue[1..][i] !in active && granted(queue[1..][i]) && forall j :: 0 <= j < i ==> queue[1..][j] in active {
          assert queue[i + 1] == queue[1..][i];
          assert forall j :: 0 < j < i + 1 ==> queue[j] == queue[1..][j - 1];
        }
      } else if granted(queue[0]) {
        assert queue[0] !in active;
      }
    }
  }

  function Available(active: set<string>): nat { if |active| < MAX_ACTIVE then MAX_ACTIVE - |active| else 0 }

  /** How many runs are active after a wake-up. */
  function ActiveAfter(active: set<string>, listQueued: nat -> seq<string>, granted: string -> bool): nat {
    |active| + |Dispatched(listQueued(Available(active)), active, granted)|
  }

  /** The store lists no more runs than asked for. */
  ghost predicate Frugal(listQueued: nat -> seq<string>) { forall n: nat :: |listQueued(n)| <= n }

  /** The store lists at least one run even for a limit of 0, as the SQLite store does (src/adapters/sqlite/run-store.ts:240-241). */
  ghost predicate ListsOne(listQueued: nat -> seq<string>) { forall n: nat :: |listQueued(n)| <= if n == 0 then 1 else n }

  /** All four places are taken, yet the store lists a run that is not active, and grants it a slot. */
  predicate Overfills(active: set<string>, listQueued: nat -> seq<string>, granted: string -> bool) {
    && |active| >= MAX_ACTIVE && |listQueued(0)| == 1
    && listQueued(0)[0] !in active && granted(listQueued(0)[0])
  }

  /** What a wake-up from some active runs comes to, with either kind of store. */
  ghost predicate Bounded(before: set<string>, active: set<string>, listQueued: nat -> seq<string>, granted: string -> bool) {
    && (Frugal(listQueued) && |before| <= MAX_ACTIVE ==> |active| <= MAX_ACTIVE)
    && (ListsOne(listQueued) && |before| <= MAX_ACTIVE ==> (|active| > MAX_ACTIVE <==> Overfills(before, listQueued, granted)))
  }

  lemma WakeIsBounded(before: set<string>, active: set<string>, listQueued: nat -> seq<string>, granted: string -> bool)
    requires |active| == ActiveAfter(before, listQueued, granted)
    ensures Bounded(before, active, listQueued, granted)
  {
    if |before| <= MAX_ACTIVE && Frugal(listQueued) { FourAtMost(before, listQueued, granted); }
    if ListsOne(listQueued) { FifthExactlyWhen(before, listQueued, granted); }
  }

  function SetOf(runs: seq<string>): set<string> { set run | run in runs }

  lemma SetPush(before: set<string>, runs: seq<string>, run: string)
    ensures before + SetOf(runs + [run]) == before + SetOf(runs) + {run}
  {}

  class BuildScheduler {
    var active: set<string>
    var aborted: set<string>
    var stopped: bool
    var ticking: bool

    /** One entry for a run; only active runs are aborted; no wake-up is under way between calls. */
    ghost predicate Valid()
      reads this
    {
      aborted <= active && !ticking
    }

    constructor ()
      ensures Valid() && active == {} && stopped
    {
      active, aborted, stopped, ticking := {}, {}, true, false;
    }

    /**
     wake. `listQueued` and `granted` are the store's answers: the queued runs for a limit, and whether
     a run gets a slot.
     */
    method Wake(listQueued: nat -> seq<string>, granted: string -> bool)
      requires Valid()
      modifies this`active, this`ticking
      ensures Valid()
      ensures stopped ==> active == old(active)
      ensures !stopped ==>
                && active == old(active) + SetOf(Dispatched(listQueued(Available(old(active))), old(active), granted))
                && |active| == ActiveAfter(old(active), listQueued, granted)
                && Bounded(old(active), active, listQueued, granted)
    {
      if stopped || ticking { return; }
      ticking := true;
      ghost var before := active;
      DispatchAll(listQueued(Available(active)), granted);
      WakeIsBounded(before, active, listQueued, granted);
      ticking := false;
    }

    /** The loop of wake: each run that is not active gets a slot and an entry, until a slot is refused. */
    method DispatchAll(queue: seq<string>, granted: string -> bool)
      modifies this`active
      ensures var runs := Dispatched(queue, old(active), granted);
              active == old(active) + SetOf(runs) && |active| == |old(active)| + |runs|
    {
      ghost var before := active;
      ghost var runs: seq<string> := [];
      assert queue[0..] == queue;
      for i := 0 to |queue|
        invariant active == before + SetOf(runs) && |active| == |before| + |runs|
        invariant Dispatched(queue, before, granted) == runs + Dispatched(queue[i..], active, granted)
      {
        assert queue[i..][0] == queue[i] && queue[i..][1..] == queue[i + 1..];
        if queue[i] in active { continue; }
        if !granted(queue[i]) {
          EmptyConcat(runs);
          return;
        }
        ConcatAssociates(runs, [queue[i]], Dispatched(queue[i + 1..], active + {queue[i]}, granted));
        SetPush(before, runs, queue[i]);
        active := active + {queue[i]};
        runs := runs + [queue[i]];
      }
      EmptyConcat(runs);
    }

    /** A run has completed: its entry goes, and unless the scheduler is stopped it wakes. */
    method Complete(run: string, listQueued: nat -> seq<string>, granted: string -> bool)
      requires Valid()
      modifies this
      ensures Valid() && stopped == old(stopped)
      ensures stopped ==> active == old(active) - {run}
      ensures !stopped ==>
                && active == old(active) - {run} +
                             SetOf(Dispatched(listQueued(Available(old(active) - {run})), old(active) - {run}, granted))
                && Bounded(old(active) - {run}, active, listQueued, granted)
      ensures ListsOne(listQueued) && run in old(active) && |old(active)| <= MAX_ACTIVE ==> |active| <= MAX_ACTIVE
    {
      active := active - {run};
      aborted := aborted - {run};
      if !stopped { Wake(listQueued, granted); }
    }

    /** cancel: only a request that changed something aborts the run, if it is active. */
    method Cancel(run: string, changed: bool)
      requires Valid()
      modifies this`aborted
      ensures Valid() && active == old(active) && aborted == old(aborted) + if changed && run in active then {run} else {}
    {
      if changed && run in active { aborted := aborted + {run}; }
    }

    /** stop: no run is dispatched any more, and every active run is aborted. */
    method Stop()
      requires Valid()
      modifies this`aborted, this`stopped
      ensures Valid() && active == old(active) && stopped && (!old(stopped) ==> aborted == active) && (old(stopped) ==> aborted == old(aborted))
    {
      if stopped { return; }
      stopped := true;
      aborted := active;
    }

    method Start(listQueued: nat -> seq<string>, granted: string -> bool)
      requires Valid()
      modifies this`stopped, this`active, this`ticking
      ensures Valid() && !stopped
      ensures !old(stopped) ==> active == old(active)
      ensures old(stopped) ==>
                && active == old(active) + SetOf(Dispatched(listQueued(Available(old(active))), old(active), granted))
                && Bounded(old(active), active, listQueued, granted)
    {
      if !stopped { return; }
      stopped := false;
      Wake(listQueued, granted);
    }
  }

  /** A store that lists no more runs than asked for keeps the scheduler at four. */
  lemma FourAtMost(active: set<string>, listQueued: nat -> seq<string>, granted: string -> bool)
    requires |active| <= MAX_ACTIVE && Frugal(listQueued)
    ensures ActiveAfter(active, listQueued, granted) <= MAX_ACTIVE
  {
    DispatchedAreNew(listQueued(MAX_ACTIVE - |active|), active, granted);
  }

  /** The other store leads beyond four, or further beyond, exactly when it overfills; then by one run. */
  lemma FifthExactlyWhen(active: set<string>, listQueued: nat -> seq<string>, granted: string -> bool)
    requires ListsOne(listQueued)
    ensures var after, most := ActiveAfter(active, listQueued, granted), if |active| > MAX_ACTIVE then |active| else MAX_ACTIVE;
            (after > most <==> Overfills(active, listQueued, granted)) && after <= most + 1
  {
    DispatchedAreNew(listQueued(Available(active)), active, granted);
    if Available(active) == 0 {
      DispatchesSome(listQueued(0), active, granted);
    }
  }

  /** Such a store, and four active runs whose slots have just been released, do give a fifth. */
  lemma FifthIsDispatched()
    ensures ActiveAfter({"a", "b", "c", "d"}, n => ["e"], run => true) == 5
  {
    var active := {"a", "b", "c", "d"};
    assert |active| == 4;
    var queue := ["e"];
    assert queue[0] !in active by { assert "e"[0] != "a"[0] && "e"[0] != "b"[0] && "e"[0] != "c"[0] && "e"[0] != "d"[0]; }
    DispatchesSome(queue, active, run => true);
    DispatchedAreNew(queue, active, run => true);
    assert queue[1..] == [];
  }
}
