/**
 The build agent (src/application/agent-runner.ts, AgentRunner.run and executeTool): a bounded
 conversation with a model that calls tools, whatever the model says and whatever the tools do.

 Prompts, tool arguments and results are cut down to what the protocol depends on. An abort, or a
 trace span that throws, ends the run.
 */
module AgentRun {
  import opened Wrappers
  import opened Text

  const MIN_WINDOW: nat := 4
  const MAX_WINDOW: nat := 10

  datatype Tool = StartPreview | Finish | Workspace(name: string) | Unknown(name: string)

  datatype ToolCall = ToolCall(id: string, tool: Tool)

  datatype Message =
    | SystemPrompt | UserPrompt
    | WindowWarning(remaining: nat) | FinalWarning(remaining: nat) | Nudge
    | Assistant(calls: seq<ToolCall>)
    | ToolResult(id: string, ok: bool)

  /** What a tool does when it is executed: it may take effect and still be reported as failed. */
  datatype Behaviour = Succeeds | FailsAfterEffect | Fails

  datatype Execution = Execution(step: nat, tool: Tool, effect: bool, ok: bool)

  datatype Outcome = ModelFinish(steps: nat) | BudgetHandoff(steps: nat) | StepLimitExceeded | Interrupted

  /** getCompletionWindowSteps; the runtime's product with 0.3 is exact enough for every limit up to 2000. */
  function WindowSteps(limit: nat): (w: nat)
    ensures w <= limit && w <= MAX_WINDOW && (limit >= MIN_WINDOW ==> w >= MIN_WINDOW)
  {
    var share := (3 * limit + 9) / 10;
    var least := if share < MIN_WINDOW then MIN_WINDOW else share;
    var most := if least > MAX_WINDOW then MAX_WINDOW else least;
    if most > limit then limit else most
  }

  // ----- The protocol -----

  function Ids(calls: seq<ToolCall>): (ids: seq<string>)
    ensures |ids| == |calls|
  {
    if calls == [] then [] else Ids(calls[..|calls| - 1]) + [calls[|calls| - 1].id]
  }

  /**
   The tool calls still to be answered after a transcript; None when it breaks the protocol: answers
   come in order, one for each call, before anyone else speaks.
   */
  function Unanswered(messages: seq<Message>): Option<seq<string>> {
    if messages == [] then Some([])
    else
      var last := messages[|messages| - 1];
      match Unanswered(messages[..|messages| - 1])
      case None => None
      case Some(ids) =>
        match last
        case Assistant(calls) => if ids == [] then Some(Ids(calls)) else None
        case ToolResult(id, _) => if ids != [] && ids[0] == id then Some(ids[1..]) else None
        case _ => if ids == [] then Some([]) else None
  }

  /** The next message may be the result of this call. */
  predicate Awaits(messages: seq<Message>, id: string) {
    Unanswered(messages).Some? && Unanswered(messages).value != [] && Unanswered(messages).value[0] == id
  }

  function WindowWarnings(messages: seq<Message>): nat {
    if messages == [] then 0
    else WindowWarnings(messages[..|messages| - 1]) + if messages[|messages| - 1].WindowWarning? then 1 else 0
  }

  function FinalWarnings(messages: seq<Message>): nat {
    if messages == [] then 0
    else FinalWarnings(messages[..|messages| - 1]) + if messages[|messages| - 1].FinalWarning? then 1 else 0
  }

  lemma Said(messages: seq<Message>, m: Message)
    ensures WindowWarnings(messages + [m]) == WindowWarnings(messages) + if m.WindowWarning? then 1 else 0
    ensures FinalWarnings(messages + [m]) == FinalWarnings(messages) + if m.FinalWarning? then 1 else 0
    ensures Unanswered(messages) == Some([]) && !m.Assistant? && !m.ToolResult? ==> Unanswered(messages + [m]) == Some([])
    ensures Unanswered(messages) == Some([]) && m.Assistant? ==> Unanswered(messages + [m]) == Some(Ids(m.calls))
    ensures m.ToolResult? && Awaits(messages, m.id) ==> Unanswered(messages + [m]) == Some(Unanswered(messages).value[1..])
  {
    assert (messages + [m])[..|messages|] == messages;
  }

  lemma {:induction false} IdsAt(calls: seq<ToolCall>, k: nat)
    requires k < |calls|
    ensures Ids(calls)[k] == calls[k].id
  {
    if k < |calls| - 1 { IdsAt(calls[..|calls| - 1], k); }
  }

  lemma {:induction false} PrefixKeepsProtocol(messages: seq<Message>, n: nat)
    requires n <= |messages| && Unanswered(messages).Some?
    ensures Unanswered(messages[..n]).Some?
    decreases |messages|
  {
    if n == |messages| {
      assert messages[..n] == messages;
    } else {
      assert messages[..|messages| - 1][..n] == messages[..n];
      PrefixKeepsProtocol(messages[..|messages| - 1], n);
    }
  }

  /** The next message while calls wait for their answers. */
  lemma NextAnswers(messages: seq<Message>, n: nat)
    requires n < |messages| && Unanswered(messages[..n + 1]).Some?
    requires Unanswered(messages[..n]).Some? && Unanswered(messages[..n]).value != []
    ensures var waiting := Unanswered(messages[..n]).value;
            && messages[n].ToolResult? && messages[n].id == waiting[0]
            && Unanswered(messages[..n + 1]) == Some(waiting[1..])
  {
    assert messages[..n + 1][..n] == messages[..n];
  }

  /** After `k` answers to the calls at `p`, the others are still to be answered. */
  lemma {:induction false} AnswersFollow(messages: seq<Message>, p: nat, k: nat)
    requires p < |messages| && messages[p].Assistant? && Unanswered(messages) == Some([])
    requires k <= |messages[p].calls|
    ensures p + k < |messages| && Unanswered(messages[..p + 1 + k]) == Some(Ids(messages[p].calls)[k..])
    ensures k > 0 ==> messages[p + k].ToolResult? && messages[p + k].id == messages[p].calls[k - 1].id
  {
    var ids := Ids(messages[p].calls);
    PrefixKeepsProtocol(messages, p + 1);
    assert messages[..p + 1][..p] == messages[..p];
    assert ids[0..] == ids;
    if k > 0 {
      AnswersFollow(messages, p, k - 1);
      IdsAt(messages[p].calls, k - 1);
      assert messages[..|messages|] == messages;
      assert ids[k - 1..] != [];
      PrefixKeepsProtocol(messages, p + k + 1);
      NextAnswers(messages, p + k);
      assert ids[k - 1..][1..] == ids[k..];
    }
  }

  /** In a complete transcript each call of an assistant message is answered once, in order, right after it. */
  lemma CallsAreAnswered(messages: seq<Message>, p: nat, k: nat)
    requires p < |messages| && messages[p].Assistant? && Unanswered(messages) == Some([])
    requires k < |messages[p].calls|
    ensures p + 1 + k < |messages| && messages[p + 1 + k].ToolResult? && messages[p + 1 + k].id == messages[p].calls[k].id
  {
    AnswersFollow(messages, p, k + 1);
  }

  // ----- What the executions say -----

  predicate Starts(e: Execution) { e.tool == StartPreview && e.effect }

  predicate Finishes(e: Execution) { e.tool == Finish && e.ok }

  /** A preview was started in a step before `step`. */
  predicate StartedBefore(executions: seq<Execution>, step: nat) {
    exists i :: 0 <= i < |executions| && Starts(executions[i]) && executions[i].step < step
  }

  predicate Started(executions: seq<Execution>) {
    exists i :: 0 <= i < |executions| && Starts(executions[i])
  }

  predicate NoFinish(executions: seq<Execution>) {
    forall i :: 0 <= i < |executions| ==> !Finishes(executions[i])
  }

  /** The last execution is a finish, the first to succeed, after a preview was started. */
  predicate EndsInFinish(executions: seq<Execution>) {
    && executions != [] && Finishes(executions[|executions| - 1])
    && Started(executions[..|executions| - 1]) && NoFinish(executions[..|executions| - 1])
  }

  /** The one tool of the last turn. */
  function Handoff(started: bool): Tool { if started then Finish else StartPreview }

  /** In the last turn only the handoff tool is executed: finish when a preview was started before, else start_preview. */
  ghost predicate LastTurnHandsOff(executions: seq<Execution>, limit: nat) {
    forall i :: 0 <= i < |executions| && executions[i].step == limit ==>
      executions[i].tool == Handoff(StartedBefore(executions, limit))
  }

  /** Every question was asked with all calls before it answered. */
  ghost predicate AllAnswered(asked: seq<seq<Message>>) {
    forall k :: 0 <= k < |asked| ==> Unanswered(asked[k]) == Some([])
  }

  // ----- What the model asked for, and what was done -----

  /** The tool calls of the assistant messages of a transcript, turn by turn. */
  function Assistants(messages: seq<Message>): seq<seq<ToolCall>> {
    if messages == [] then []
    else
      var last := messages[|messages| - 1];
      Assistants(messages[..|messages| - 1]) + if last.Assistant? then [last.calls] else []
  }

  /** What the answers of a transcript say of the calls, one by one. */
  function Replies(messages: seq<Message>): seq<bool> {
    if messages == [] then []
    else
      var last := messages[|messages| - 1];
      Replies(messages[..|messages| - 1]) + if last.ToolResult? then [last.ok] else []
  }

  lemma Spoken(messages: seq<Message>, m: Message)
    ensures Assistants(messages + [m]) == if m.Assistant? then Assistants(messages) + [m.calls] else Assistants(messages)
    ensures Replies(messages + [m]) == if m.ToolResult? then Replies(messages) + [m.ok] else Replies(messages)
  {
    assert (messages + [m])[..|messages|] == messages;
  }

  /** The warnings that fall to a turn: when the window, or the last two turns, begin, or with the first turn. */
  function WindowDue(step: nat, limit: nat, window: nat): seq<Message>
    requires step <= limit
  {
    var remaining := limit - step + 1;
    if remaining == window || (step == 1 && remaining < window) then [WindowWarning(remaining)] else []
  }

  function FinalDue(step: nat, limit: nat): seq<Message>
    requires step <= limit
  {
    var remaining := limit - step + 1;
    if remaining == 2 || (step == 1 && remaining < 2) then [FinalWarning(remaining)] else []
  }

  function DueWarnings(step: nat, limit: nat): (due: seq<Message>)
    requires step <= limit
    ensures AllWarnings(due)
  {
    WindowDue(step, limit, WindowSteps(limit)) + FinalDue(step, limit)
  }

  predicate AllWarnings(warnings: seq<Message>) {
    forall i :: 0 <= i < |warnings| ==> warnings[i].WindowWarning? || warnings[i].FinalWarning?
  }

  lemma {:induction false} WarningsSayNothing(messages: seq<Message>, warnings: seq<Message>)
    requires AllWarnings(warnings)
    ensures Assistants(messages + warnings) == Assistants(messages) && Replies(messages + warnings) == Replies(messages)
  {
    if warnings == [] {
      EmptyConcat(messages);
    } else {
      var init, last := warnings[..|warnings| - 1], warnings[|warnings| - 1];
      WarningsSayNothing(messages, init);
      Spoken(messages + init, last);
      assert warnings == init + [last];
      ConcatAssociates(messages, init, [last]);
    }
  }

  /** The first `n` turns of the model. */
  function Turns(turn: nat -> seq<ToolCall>, n: nat): (turns: seq<seq<ToolCall>>)
    ensures |turns| == n && forall k :: 0 <= k < n ==> turns[k] == turn(k + 1)
  {
    if n == 0 then [] else Turns(turn, n - 1) + [turn(n)]
  }

  /** Question number `k` was asked with a beginning of the transcript that holds the turns before it. */
  ghost predicate AskedInTurn(turn: nat -> seq<ToolCall>, asked: seq<seq<Message>>, messages: seq<Message>) {
    forall k :: 0 <= k < |asked| ==> asked[k] <= messages && Assistants(asked[k]) == Turns(turn, k)
  }

  lemma AskedKept(turn: nat -> seq<ToolCall>, asked: seq<seq<Message>>, before: seq<Message>, messages: seq<Message>)
    requires AskedInTurn(turn, asked, before) && before <= messages
    ensures AskedInTurn(turn, asked, messages)
    ensures Assistants(messages) == Turns(turn, |asked|) ==> AskedInTurn(turn, asked + [messages], messages)
  {}

  lemma QuestionSays(turn: nat -> seq<ToolCall>, step: nat, limit: nat, m0: seq<Message>, q0: seq<seq<Message>>,
                     m1: seq<Message>, q1: seq<seq<Message>>)
    requires 0 < step <= limit && |q0| == step - 1 && AskedInTurn(turn, q0, m0) && Assistants(m0) == Turns(turn, step - 1)
    requires (m1 == m0 || m1 == m0 + DueWarnings(step, limit)) && (q1 == q0 || q1 == q0 + [m1])
    ensures AskedInTurn(turn, q1, m1) && Assistants(m1) == Assistants(m0) && Replies(m1) == Replies(m0)
  {
    WarningsSayNothing(m0, DueWarnings(step, limit));
    AskedKept(turn, q0, m0, m1);
  }

  predicate Allows(only: Option<Tool>, tool: Tool) { only.None? || only.value == tool }

  /** The calls of a turn that may be executed. */
  function AllowedTools(calls: seq<ToolCall>, only: Option<Tool>): seq<Tool> {
    if calls == [] then []
    else
      var last := calls[|calls| - 1].tool;
      AllowedTools(calls[..|calls| - 1], only) + if Allows(only, last) then [last] else []
  }

  /** The next execution: a tool that is known, and no finish before a preview, can succeed. */
  function Executed(behaviour: nat -> Behaviour, before: seq<Execution>, step: nat, tool: Tool): Execution {
    var able := !tool.Unknown? && (tool == Finish ==> Started(before));
    Execution(step, tool, able && behaviour(|before|) != Fails, able && behaviour(|before|) == Succeeds)
  }

  function ExecuteAll(behaviour: nat -> Behaviour, before: seq<Execution>, step: nat, tools: seq<Tool>): seq<Execution> {
    if tools == [] then before
    else
      var done := ExecuteAll(behaviour, before, step, tools[..|tools| - 1]);
      done + [Executed(behaviour, done, step, tools[|tools| - 1])]
  }

  /** What the calls of a turn are answered: those that are not executed, or fail, are not ok. */
  function Flags(behaviour: nat -> Behaviour, before: seq<Execution>, step: nat, calls: seq<ToolCall>, only: Option<Tool>): seq<bool> {
    if calls == [] then []
    else
      var init, last := calls[..|calls| - 1], calls[|calls| - 1].tool;
      var done := ExecuteAll(behaviour, before, step, AllowedTools(init, only));
      Flags(behaviour, before, step, init, only) + [Allows(only, last) && Executed(behaviour, done, step, last).ok]
  }

  function OnlyTool(executions: seq<Execution>, step: nat, limit: nat): Option<Tool> {
    if step == limit then Some(Handoff(Started(executions))) else None
  }

  /** The tools to execute in turn `n`. */
  function ToolsOfTurn(turn: nat -> seq<ToolCall>, before: seq<Execution>, n: nat, limit: nat): seq<Tool> {
    AllowedTools(turn(n), OnlyTool(before, n, limit))
  }

  /** The executions of the first `n` turns if no finish ended the run. */
  function Unstopped(turn: nat -> seq<ToolCall>, behaviour: nat -> Behaviour, limit: nat, n: nat): seq<Execution> {
    if n == 0 then []
    else
      var before := Unstopped(turn, behaviour, limit, n - 1);
      ExecuteAll(behaviour, before, n, ToolsOfTurn(turn, before, n, limit))
  }

  function UnstoppedFlags(turn: nat -> seq<ToolCall>, behaviour: nat -> Behaviour, limit: nat, n: nat): seq<bool> {
    if n == 0 then []
    else
      var before := Unstopped(turn, behaviour, limit, n - 1);
      UnstoppedFlags(turn, behaviour, limit, n - 1) + Flags(behaviour, before, n, turn(n), OnlyTool(before, n, limit))
  }

  lemma {:induction false} ExecuteAllGrows(behaviour: nat -> Behaviour, before: seq<Execution>, step: nat, tools: seq<Tool>, k: nat)
    requires k <= |tools|
    ensures before <= ExecuteAll(behaviour, before, step, tools[..k]) <= ExecuteAll(behaviour, before, step, tools)
    decreases |tools|
  {
    if k == |tools| {
      assert tools[..k] == tools;
      if tools != [] { ExecuteAllGrows(behaviour, before, step, tools[..|tools| - 1], |tools| - 1); }
    } else {
      assert tools[..|tools| - 1][..k] == tools[..k];
      ExecuteAllGrows(behaviour, before, step, tools[..|tools| - 1], k);
    }
  }

  lemma {:induction false} AllowedGrow(calls: seq<ToolCall>, only: Option<Tool>, k: nat)
    requires k <= |calls|
    ensures AllowedTools(calls[..k], only) <= AllowedTools(calls, only)
    decreases |calls|
  {
    if k == |calls| {
      assert calls[..k] == calls;
    } else {
      assert calls[..|calls| - 1][..k] == calls[..k];
      AllowedGrow(calls[..|calls| - 1], only, k);
    }
  }

  /** The executions after `k` calls of a turn begin those of the whole turn. */
  lemma TurnGrows(behaviour: nat -> Behaviour, before: seq<Execution>, step: nat, calls: seq<ToolCall>, only: Option<Tool>, k: nat)
    requires k <= |calls|
    ensures before <= ExecuteAll(behaviour, before, step, AllowedTools(calls[..k], only))
                   <= ExecuteAll(behaviour, before, step, AllowedTools(calls, only))
  {
    var part, all := AllowedTools(calls[..k], only), AllowedTools(calls, only);
    AllowedGrow(calls, only, k);
    assert all[..|part|] == part;
    ExecuteAllGrows(behaviour, before, step, all, |part|);
  }

  lemma {:induction false} FlagsGrow(behaviour: nat -> Behaviour, before: seq<Execution>, step: nat, calls: seq<ToolCall>, only: Option<Tool>, k: nat)
    requires k <= |calls|
    ensures Flags(behaviour, before, step, calls[..k], only) <= Flags(behaviour, before, step, calls, only)
    decreases |calls|
  {
    if k == |calls| {
      assert calls[..k] == calls;
    } else {
      assert calls[..|calls| - 1][..k] == calls[..k];
      FlagsGrow(behaviour, before, step, calls[..|calls| - 1], only, k);
    }
  }

  /** One more call of a turn. */
  lemma CallStep(behaviour: nat -> Behaviour, before: seq<Execution>, step: nat, calls: seq<ToolCall>, only: Option<Tool>, k: nat)
    requires k < |calls|
    ensures var done := ExecuteAll(behaviour, before, step, AllowedTools(calls[..k], only));
            var e := Executed(behaviour, done, step, calls[k].tool);
            && ExecuteAll(behaviour, before, step, AllowedTools(calls[..k + 1], only)) ==
               (if Allows(only, calls[k].tool) then done + [e] else done)
            && Flags(behaviour, before, step, calls[..k + 1], only) ==
               Flags(behaviour, before, step, calls[..k], only) + [Allows(only, calls[k].tool) && e.ok]
  {
    assert calls[..k + 1][..k] == calls[..k];
    var init, tool := AllowedTools(calls[..k], only), calls[k].tool;
    if Allows(only, tool) {
      assert (init + [tool])[..|init|] == init;
    } else {
      assert init + [] == init;
    }
  }

  lemma UnstoppedGrowsOnce(turn: nat -> seq<ToolCall>, behaviour: nat -> Behaviour, limit: nat, n: nat)
    ensures Unstopped(turn, behaviour, limit, n) <= Unstopped(turn, behaviour, limit, n + 1)
  {
    var before := Unstopped(turn, behaviour, limit, n);
    TurnGrows(behaviour, before, n + 1, turn(n + 1), OnlyTool(before, n + 1, limit), 0);
  }

  lemma {:induction false} UnstoppedGrows(turn: nat -> seq<ToolCall>, behaviour: nat -> Behaviour, limit: nat, m: nat, n: nat)
    requires m <= n
    ensures Unstopped(turn, behaviour, limit, m) <= Unstopped(turn, behaviour, limit, n)
    decreases n
  {
    if m < n {
      UnstoppedGrows(turn, behaviour, limit, m, n - 1);
      UnstoppedGrowsOnce(turn, behaviour, limit, n - 1);
    }
  }

  lemma {:induction false} ExecuteAllLength(behaviour: nat -> Behaviour, before: seq<Execution>, step: nat, tools: seq<Tool>)
    ensures |ExecuteAll(behaviour, before, step, tools)| == |before| + |tools|
  {
    if tools != [] { ExecuteAllLength(behaviour, before, step, tools[..|tools| - 1]); }
  }

  /** A call is answered as ok exactly when it is executed and its own execution is. */
  lemma FlagsAre(behaviour: nat -> Behaviour, before: seq<Execution>, step: nat, calls: seq<ToolCall>, only: Option<Tool>, k: nat)
    requires k < |calls|
    ensures var flags, all := Flags(behaviour, before, step, calls, only), ExecuteAll(behaviour, before, step, AllowedTools(calls, only));
            var j := |before| + |AllowedTools(calls[..k], only)|;
            && |flags| == |calls|
            && (flags[k] <==> Allows(only, calls[k].tool) && j < |all| && all[j].tool == calls[k].tool && all[j].ok)
  {
    FlagsLength(behaviour, before, step, calls, only);
    FlagsLength(behaviour, before, step, calls[..k], only);
    FlagsGrow(behaviour, before, step, calls, only, k + 1);
    TurnGrows(behaviour, before, step, calls, only, k + 1);
    ExecuteAllLength(behaviour, before, step, AllowedTools(calls[..k], only));
    CallStep(behaviour, before, step, calls, only, k);
    assert Flags(behaviour, before, step, calls, only)[k] == Flags(behaviour, before, step, calls[..k + 1], only)[k];
  }

  lemma {:induction false} FlagsLength(behaviour: nat -> Behaviour, before: seq<Execution>, step: nat, calls: seq<ToolCall>, only: Option<Tool>)
    ensures |Flags(behaviour, before, step, calls, only)| == |calls|
  {
    if calls != [] { FlagsLength(behaviour, before, step, calls[..|calls| - 1], only); }
  }

  /** What the answers to some calls have done since the transcript `said` and the executions `base`: all, or a beginning. */
  ghost predicate Replied(behaviour: nat -> Behaviour, said: seq<Message>, base: seq<Execution>, step: nat, calls: seq<ToolCall>,
                          only: Option<Tool>, all: bool, messages: seq<Message>, executions: seq<Execution>)
  {
    var done := ExecuteAll(behaviour, base, step, AllowedTools(calls, only));
    var flags := Replies(said) + Flags(behaviour, base, step, calls, only);
    && said <= messages && Assistants(messages) == Assistants(said)
    && (if all then executions == done else executions <= done)
    && (if all then Replies(messages) == flags else Replies(messages) <= flags)
  }

  lemma RepliedNothing(behaviour: nat -> Behaviour, said: seq<Message>, base: seq<Execution>, step: nat, only: Option<Tool>)
    ensures Replied(behaviour, said, base, step, [], only, true, said, base)
  {
    EmptyConcat(Replies(said));
  }

  /** One more call, and its answer. */
  lemma AnsweredStep(behaviour: nat -> Behaviour, said: seq<Message>, base: seq<Execution>, step: nat, calls: seq<ToolCall>,
                     only: Option<Tool>, k: nat, m0: seq<Message>, x0: seq<Execution>, x1: seq<Execution>)
    requires k < |calls| && Replied(behaviour, said, base, step, calls[..k], only, true, m0, x0)
    requires var e := Executed(behaviour, x0, step, calls[k].tool); x1 == if Allows(only, calls[k].tool) then x0 + [e] else x0
    ensures var ok := Allows(only, calls[k].tool) && Executed(behaviour, x0, step, calls[k].tool).ok;
            Replied(behaviour, said, base, step, calls[..k + 1], only, true, m0 + [ToolResult(calls[k].id, ok)], x1)
  {
    var ok := Allows(only, calls[k].tool) && Executed(behaviour, x0, step, calls[k].tool).ok;
    CallStep(behaviour, base, step, calls, only, k);
    Spoken(m0, ToolResult(calls[k].id, ok));
    ConcatAssociates(Replies(said), Flags(behaviour, base, step, calls[..k], only), [ok]);
  }

  /** One more call that is the last thing that happens. */
  lemma UnansweredStep(behaviour: nat -> Behaviour, said: seq<Message>, base: seq<Execution>, step: nat, calls: seq<ToolCall>,
                       only: Option<Tool>, k: nat, m0: seq<Message>, x0: seq<Execution>, x1: seq<Execution>)
    requires k < |calls| && Replied(behaviour, said, base, step, calls[..k], only, true, m0, x0)
    requires var e := Executed(behaviour, x0, step, calls[k].tool); x1 == x0 || (Allows(only, calls[k].tool) && x1 == x0 + [e])
    ensures Replied(behaviour, said, base, step, calls, only, false, m0, x1)
  {
    CallStep(behaviour, base, step, calls, only, k);
    TurnGrows(behaviour, base, step, calls, only, k);
    TurnGrows(behaviour, base, step, calls, only, k + 1);
    FlagsGrow(behaviour, base, step, calls, only, k);
  }

  /** One more call: answered, or the last thing that happens. */
  lemma ReplyStep(behaviour: nat -> Behaviour, said: seq<Message>, base: seq<Execution>, step: nat, calls: seq<ToolCall>,
                  only: Option<Tool>, k: nat, m0: seq<Message>, x0: seq<Execution>, answered: bool, m1: seq<Message>, x1: seq<Execution>)
    requires k < |calls| && Replied(behaviour, said, base, step, calls[..k], only, true, m0, x0)
    requires var e := Executed(behaviour, x0, step, calls[k].tool);
             var next := if Allows(only, calls[k].tool) then x0 + [e] else x0;
             && m1 == (if answered then m0 + [ToolResult(calls[k].id, Allows(only, calls[k].tool) && e.ok)] else m0)
             && (x1 == next || (!answered && x1 == x0))
    ensures answered ==> Replied(behaviour, said, base, step, calls[..k + 1], only, true, m1, x1)
    ensures !answered ==> Replied(behaviour, said, base, step, calls, only, false, m1, x1)
  {
    if answered {
      AnsweredStep(behaviour, said, base, step, calls, only, k, m0, x0, x1);
    } else {
      UnansweredStep(behaviour, said, base, step, calls, only, k, m0, x0, x1);
    }
  }

  /** The executions and the transcript are those of the first `n` turns. */
  ghost predicate IsRun(turn: nat -> seq<ToolCall>, behaviour: nat -> Behaviour, limit: nat, n: nat,
                        messages: seq<Message>, executions: seq<Execution>)
  {
    && executions == Unstopped(turn, behaviour, limit, n)
    && Assistants(messages) == Turns(turn, n)
    && Replies(messages) == UnstoppedFlags(turn, behaviour, limit, n)
  }

  /** They are a beginning of those, with at most the last turn not heard. */
  ghost predicate BeginsRun(turn: nat -> seq<ToolCall>, behaviour: nat -> Behaviour, limit: nat, n: nat,
                            messages: seq<Message>, executions: seq<Execution>)
  {
    && executions <= Unstopped(turn, behaviour, limit, n)
    && Assistants(messages) <= Turns(turn, n) && |Assistants(messages)| + 1 >= n
    && Replies(messages) <= UnstoppedFlags(turn, behaviour, limit, n)
  }

  lemma RunBegins(turn: nat -> seq<ToolCall>, behaviour: nat -> Behaviour, limit: nat, n: nat,
                  messages: seq<Message>, executions: seq<Execution>)
    requires IsRun(turn, behaviour, limit, n, messages, executions)
    ensures BeginsRun(turn, behaviour, limit, n, messages, executions)
  {}

  lemma RunBeginsNext(turn: nat -> seq<ToolCall>, behaviour: nat -> Behaviour, limit: nat, n: nat,
                      messages: seq<Message>, executions: seq<Execution>)
    requires IsRun(turn, behaviour, limit, n, messages, executions)
    ensures BeginsRun(turn, behaviour, limit, n + 1, messages, executions)
  {
    UnstoppedGrows(turn, behaviour, limit, n, n + 1);
    TurnsGrow(turn, n);
    UnstoppedFlagsGrow(turn, behaviour, limit, n);
  }

  lemma RunBeginsEither(turn: nat -> seq<ToolCall>, behaviour: nat -> Behaviour, limit: nat, n: nat, k: nat,
                        messages: seq<Message>, executions: seq<Execution>)
    requires IsRun(turn, behaviour, limit, n, messages, executions) && (k == n || k == n + 1)
    ensures BeginsRun(turn, behaviour, limit, k, messages, executions)
  {
    if k == n {
      RunBegins(turn, behaviour, limit, n, messages, executions);
    } else {
      RunBeginsNext(turn, behaviour, limit, n, messages, executions);
    }
  }

  lemma TurnsGrow(turn: nat -> seq<ToolCall>, n: nat)
    ensures Turns(turn, n) <= Turns(turn, n + 1)
  {}

  lemma UnstoppedFlagsGrow(turn: nat -> seq<ToolCall>, behaviour: nat -> Behaviour, limit: nat, n: nat)
    ensures UnstoppedFlags(turn, behaviour, limit, n) <= UnstoppedFlags(turn, behaviour, limit, n + 1)
  {}

  /** What is said beside the turns and the answers does not matter. */
  lemma StillRuns(turn: nat -> seq<ToolCall>, behaviour: nat -> Behaviour, limit: nat, n: nat,
                  before: seq<Message>, messages: seq<Message>, executions: seq<Execution>)
    requires IsRun(turn, behaviour, limit, n, before, executions)
    requires Assistants(messages) == Assistants(before) && Replies(messages) == Replies(before)
    ensures IsRun(turn, behaviour, limit, n, messages, executions)
  {}

  /** A turn that was answered, or begun to be, after the transcript `said`. */
  lemma TurnFollows(turn: nat -> seq<ToolCall>, behaviour: nat -> Behaviour, limit: nat, step: nat, m0: seq<Message>, x0: seq<Execution>,
                    said: seq<Message>, all: bool, m1: seq<Message>, x1: seq<Execution>)
    requires step > 0 && IsRun(turn, behaviour, limit, step - 1, m0, x0)
    requires Assistants(said) == Turns(turn, step) && Replies(said) == Replies(m0)
    requires Replied(behaviour, said, x0, step, turn(step), OnlyTool(x0, step, limit), all, m1, x1)
    ensures if all then IsRun(turn, behaviour, limit, step, m1, x1) else BeginsRun(turn, behaviour, limit, step, m1, x1)
  {}

  lemma SaidTurn(turn: nat -> seq<ToolCall>, step: nat, m0: seq<Message>)
    requires step > 0 && Assistants(m0) == Turns(turn, step - 1)
    ensures var said := m0 + [Assistant(turn(step))]; Assistants(said) == Turns(turn, step) && Replies(said) == Replies(m0)
  {
    Spoken(m0, Assistant(turn(step)));
  }

  lemma TurnReplied(turn: nat -> seq<ToolCall>, behaviour: nat -> Behaviour, limit: nat, step: nat, m0: seq<Message>, x0: seq<Execution>,
                    said: seq<Message>, all: bool, m1: seq<Message>, x1: seq<Execution>)
    requires step > 0 && IsRun(turn, behaviour, limit, step - 1, m0, x0) && said == m0 + [Assistant(turn(step))]
    requires Replied(behaviour, said, x0, step, turn(step), OnlyTool(x0, step, limit), all, m1, x1)
    ensures if all then IsRun(turn, behaviour, limit, step, m1, x1) else BeginsRun(turn, behaviour, limit, step, m1, x1)
    ensures m0 <= m1
  {
    SaidTurn(turn, step, m0);
    TurnFollows(turn, behaviour, limit, step, m0, x0, said, all, m1, x1);
  }

  /** An execution does what the tool's behaviour and the preview let it do: no more and no less. */
  ghost predicate DoneAs(behaviour: nat -> Behaviour, executions: seq<Execution>, i: nat)
    requires i < |executions|
  {
    var e := executions[i];
    var able := !e.tool.Unknown? && (e.tool == Finish ==> exists j :: 0 <= j < i && Starts(executions[j]));
    && (e.effect <==> able && behaviour(i) != Fails)
    && (e.ok <==> able && behaviour(i) == Succeeds)
  }

  lemma StartedIn(executions: seq<Execution>, i: nat)
    requires i <= |executions|
    ensures Started(executions[..i]) <==> exists j :: 0 <= j < i && Starts(executions[j])
  {
    if j :| 0 <= j < i && Starts(executions[j]) { assert Starts(executions[..i][j]); }
  }

  lemma {:induction false} AllDoneAs(behaviour: nat -> Behaviour, before: seq<Execution>, step: nat, tools: seq<Tool>)
    requires forall i :: 0 <= i < |before| ==> DoneAs(behaviour, before, i)
    ensures forall i :: 0 <= i < |ExecuteAll(behaviour, before, step, tools)| ==>
              DoneAs(behaviour, ExecuteAll(behaviour, before, step, tools), i)
  {
    if tools != [] {
      var init := tools[..|tools| - 1];
      AllDoneAs(behaviour, before, step, init);
      var done := ExecuteAll(behaviour, before, step, init);
      var all := ExecuteAll(behaviour, before, step, tools);
      forall i | 0 <= i < |all| ensures DoneAs(behaviour, all, i) {
        if i < |done| {
          assert DoneAs(behaviour, done, i);
          assert all[i] == done[i] && forall j :: 0 <= j < i ==> all[j] == done[j];
        } else {
          StartedIn(all, i);
          assert all[..i] == done;
        }
      }
    }
  }

  lemma {:induction false} UnstoppedDoneAs(turn: nat -> seq<ToolCall>, behaviour: nat -> Behaviour, limit: nat, n: nat)
    ensures forall i :: 0 <= i < |Unstopped(turn, behaviour, limit, n)| ==> DoneAs(behaviour, Unstopped(turn, behaviour, limit, n), i)
  {
    if n > 0 {
      var before := Unstopped(turn, behaviour, limit, n - 1);
      UnstoppedDoneAs(turn, behaviour, limit, n - 1);
      AllDoneAs(behaviour, before, n, ToolsOfTurn(turn, before, n, limit));
    }
  }

  /** The tools executed in one step, in order. */
  function ToolsIn(executions: seq<Execution>, step: nat): seq<Tool> {
    if executions == [] then []
    else
      var last := executions[|executions| - 1];
      ToolsIn(executions[..|executions| - 1], step) + if last.step == step then [last.tool] else []
  }

  lemma {:induction false} ToolsOfAll(behaviour: nat -> Behaviour, before: seq<Execution>, step: nat, tools: seq<Tool>, k: nat)
    ensures ToolsIn(ExecuteAll(behaviour, before, step, tools), k) == ToolsIn(before, k) + if k == step then tools else []
  {
    if tools == [] {
      assert ToolsIn(before, k) + [] == ToolsIn(before, k);
    } else {
      var init, last := tools[..|tools| - 1], tools[|tools| - 1];
      ToolsOfAll(behaviour, before, step, init, k);
      var done, all := ExecuteAll(behaviour, before, step, init), ExecuteAll(behaviour, before, step, tools);
      assert all[..|all| - 1] == done && tools == init + [last];
      if k == step { assert ToolsIn(before, k) + init + [last] == ToolsIn(before, k) + tools; }
    }
  }

  lemma {:induction false} StepsOfAll(behaviour: nat -> Behaviour, before: seq<Execution>, step: nat, tools: seq<Tool>)
    requires StepsUpTo(before, step)
    ensures StepsUpTo(ExecuteAll(behaviour, before, step, tools), step)
  {
    if tools != [] { StepsOfAll(behaviour, before, step, tools[..|tools| - 1]); }
  }

  lemma {:induction false} UnstoppedSteps(turn: nat -> seq<ToolCall>, behaviour: nat -> Behaviour, limit: nat, n: nat)
    ensures StepsUpTo(Unstopped(turn, behaviour, limit, n), n)
  {
    if n > 0 {
      var before := Unstopped(turn, behaviour, limit, n - 1);
      UnstoppedSteps(turn, behaviour, limit, n - 1);
      StepsOfAll(behaviour, before, n, ToolsOfTurn(turn, before, n, limit));
    }
  }

  /** In each step exactly the allowed calls of the model's turn are executed, in order. */
  lemma {:induction false} UnstoppedTools(turn: nat -> seq<ToolCall>, behaviour: nat -> Behaviour, limit: nat, n: nat, k: nat)
    requires 0 < k <= n
    ensures ToolsIn(Unstopped(turn, behaviour, limit, n), k) ==
            ToolsOfTurn(turn, Unstopped(turn, behaviour, limit, k - 1), k, limit)
  {
    var before := Unstopped(turn, behaviour, limit, n - 1);
    TurnTools(behaviour, before, n, ToolsOfTurn(turn, before, n, limit), k);
    if k < n {
      UnstoppedTools(turn, behaviour, limit, n - 1, k);
    } else {
      UnstoppedSteps(turn, behaviour, limit, n - 1);
      NoToolsLater(before, n);
    }
  }

  lemma {:induction false} NoToolsLater(executions: seq<Execution>, step: nat)
    requires step > 0 && StepsUpTo(executions, step - 1)
    ensures ToolsIn(executions, step) == []
  {
    if executions != [] { NoToolsLater(executions[..|executions| - 1], step); }
  }

  lemma TurnTools(behaviour: nat -> Behaviour, before: seq<Execution>, n: nat, tools: seq<Tool>, k: nat)
    ensures k != n ==> ToolsIn(ExecuteAll(behaviour, before, n, tools), k) == ToolsIn(before, k)
    ensures k == n && ToolsIn(before, n) == [] ==> ToolsIn(ExecuteAll(behaviour, before, n, tools), n) == tools
  {
    ToolsOfAll(behaviour, before, n, tools, k);
    EmptyConcat(tools);
    EmptyConcat(ToolsIn(before, k));
  }

  /** Before the last turn every call is executed. */
  lemma {:induction false} AllAllowed(calls: seq<ToolCall>)
    ensures |AllowedTools(calls, None)| == |calls| && forall i :: 0 <= i < |calls| ==> AllowedTools(calls, None)[i] == calls[i].tool
  {
    if calls != [] { AllAllowed(calls[..|calls| - 1]); }
  }

  /** In the last turn only the calls of the handoff tool are, each of them. */
  lemma {:induction false} OnlyHandoffAllowed(calls: seq<ToolCall>, tool: Tool)
    ensures forall i :: 0 <= i < |AllowedTools(calls, Some(tool))| ==> AllowedTools(calls, Some(tool))[i] == tool
    ensures |AllowedTools(calls, Some(tool))| == |CallsOf(calls, tool)|
  {
    if calls != [] {
      OnlyHandoffAllowed(calls[..|calls| - 1], tool);
      CallsOfStep(calls, tool);
    }
  }

  /** The positions of the calls of a tool. */
  function CallsOf(calls: seq<ToolCall>, tool: Tool): set<nat> { set i: nat | i < |calls| && calls[i].tool == tool }

  lemma CallsOfStep(calls: seq<ToolCall>, tool: Tool)
    requires calls != []
    ensures var n := |calls| - 1; |CallsOf(calls, tool)| == |CallsOf(calls[..n], tool)| + if calls[n].tool == tool then 1 else 0
  {
    var n := |calls| - 1;
    var front := calls[..n];
    forall i: nat ensures i in CallsOf(calls, tool) <==> i in CallsOf(front, tool) || (i == n && calls[n].tool == tool) {
      if i < n { assert front[i] == calls[i]; }
    }
    assert CallsOf(calls, tool) == CallsOf(front, tool) + if calls[n].tool == tool then {n} else {};
  }

  /** Turn `n` is the first in which a finish succeeds. */
  ghost predicate FirstFinish(turn: nat -> seq<ToolCall>, behaviour: nat -> Behaviour, limit: nat, n: nat) {
    0 < n <= limit && NoFinish(Unstopped(turn, behaviour, limit, n - 1)) && !NoFinish(Unstopped(turn, behaviour, limit, n))
  }

  lemma FinishFound(turn: nat -> seq<ToolCall>, behaviour: nat -> Behaviour, limit: nat, step: nat, executions: seq<Execution>)
    requires 0 < step <= limit && NoFinish(Unstopped(turn, behaviour, limit, step - 1))
    requires executions <= Unstopped(turn, behaviour, limit, step)
    requires EndsInFinish(executions)
    ensures FirstFinish(turn, behaviour, limit, step)
  {
    assert Finishes(Unstopped(turn, behaviour, limit, step)[|executions| - 1]);
  }

  lemma NeverFinished(turn: nat -> seq<ToolCall>, behaviour: nat -> Behaviour, limit: nat)
    requires NoFinish(Unstopped(turn, behaviour, limit, limit))
    ensures forall n :: !FirstFinish(turn, behaviour, limit, n)
  {
    forall n | 0 < n <= limit ensures NoFinish(Unstopped(turn, behaviour, limit, n)) {
      UnstoppedGrows(turn, behaviour, limit, n, limit);
      PrefixHasNoFinish(Unstopped(turn, behaviour, limit, n), Unstopped(turn, behaviour, limit, limit));
    }
  }

  /** There is one first turn at most. */
  lemma FinishedOnce(turn: nat -> seq<ToolCall>, behaviour: nat -> Behaviour, limit: nat, m: nat, n: nat)
    requires FirstFinish(turn, behaviour, limit, m) && FirstFinish(turn, behaviour, limit, n)
    ensures m == n
  {
    if m < n { FinishStays(turn, behaviour, limit, m, n - 1); }
    if n < m { FinishStays(turn, behaviour, limit, n, m - 1); }
  }

  lemma FinishStays(turn: nat -> seq<ToolCall>, behaviour: nat -> Behaviour, limit: nat, m: nat, n: nat)
    requires m <= n && !NoFinish(Unstopped(turn, behaviour, limit, m))
    ensures !NoFinish(Unstopped(turn, behaviour, limit, n))
  {
    UnstoppedGrows(turn, behaviour, limit, m, n);
    if NoFinish(Unstopped(turn, behaviour, limit, n)) {
      PrefixHasNoFinish(Unstopped(turn, behaviour, limit, m), Unstopped(turn, behaviour, limit, n));
    }
  }

  lemma PrefixHasNoFinish(a: seq<Execution>, b: seq<Execution>)
    requires a <= b && NoFinish(b)
    ensures NoFinish(a)
  {
    forall i | 0 <= i < |a| ensures !Finishes(a[i]) { assert a[i] == b[i]; }
  }

  predicate StepsUpTo(executions: seq<Execution>, step: nat) {
    forall i :: 0 <= i < |executions| ==> executions[i].step <= step
  }

  lemma AskedOneMore(asked: seq<seq<Message>>, messages: seq<Message>)
    requires AllAnswered(asked) && Unanswered(messages) == Some([])
    ensures AllAnswered(asked + [messages])
  {}

  class Agent {
    const turn: nat -> seq<ToolCall>
    const behaviour: nat -> Behaviour
    const breaks: nat -> bool
    var messages: seq<Message>
    var asked: seq<seq<Message>>
    var executions: seq<Execution>
    var previewStarted: bool
    var windowWarned: bool
    var finalWarned: bool
    var checks: nat

    constructor (turn: nat -> seq<ToolCall>, behaviour: nat -> Behaviour, breaks: nat -> bool)
      ensures messages == [SystemPrompt, UserPrompt] && asked == [] && executions == []
      ensures !previewStarted && !windowWarned && !finalWarned && checks == 0
      ensures this.turn == turn && this.behaviour == behaviour && this.breaks == breaks
    {
      this.turn, this.behaviour, this.breaks := turn, behaviour, breaks;
      messages, asked, executions, checks := [SystemPrompt, UserPrompt], [], [], 0;
      previewStarted, windowWarned, finalWarned := false, false, false;
    }

    /** No check made so far found the run broken. */
    ghost predicate Unbroken()
      reads this
    {
      forall j :: 0 <= j < checks ==> !breaks(j)
    }

    method Breaks() returns (b: bool)
      modifies this`checks
      ensures checks == old(checks) + 1 && b == breaks(old(checks))
      ensures Unbroken() <==> old(Unbroken()) && !b
    {
      b := breaks(checks);
      checks := checks + 1;
    }

    method Say(m: Message)
      modifies this`messages
      ensures messages == old(messages) + [m]
    {
      messages := messages + [m];
    }

    /** executeTool, within its try block. */
    method ExecuteTool(step: nat, tool: Tool) returns (e: Execution)
      requires previewStarted <==> Started(executions)
      modifies this`executions, this`previewStarted
      ensures e == Executed(behaviour, old(executions), step, tool) && executions == old(executions) + [e]
      ensures previewStarted == (old(previewStarted) || Starts(e))
      ensures Finishes(e) ==> old(previewStarted)
    {
      var behaves := behaviour(|executions|);
      var able := !tool.Unknown? && (tool == Finish ==> previewStarted);
      e := Execution(step, tool, able && behaves != Fails, able && behaves == Succeeds);
      if tool == StartPreview && behaves != Fails { previewStarted := true; }
      executions := executions + [e];
    }

    ghost predicate Faithful(n: nat, limit: nat)
      reads this
    {
      IsRun(turn, behaviour, limit, n, messages, executions) && AskedInTurn(turn, asked, messages)
    }

    ghost predicate FaithfulSoFar(n: nat, limit: nat)
      reads this
    {
      BeginsRun(turn, behaviour, limit, n, messages, executions) && AskedInTurn(turn, asked, messages)
    }

    /** The state between two turns of a run with this limit. */
    ghost predicate Between(step: nat, limit: nat)
      reads this
    {
      && |asked| == step && step <= limit
      && AllAnswered(asked)
      && Unanswered(messages) == Some([])
      && Warned(step, limit, WindowSteps(limit))
      && NoFinish(executions) && (previewStarted <==> Started(executions))
      && StepsUpTo(executions, step)
      && LastTurnHandsOff(executions, limit)
    }

    /** Each warning has been sent once if its time has come, and not before. */
    ghost predicate Warned(step: nat, limit: nat, window: nat)
      reads this
    {
      && (windowWarned <==> step > 0 && limit - step < window)
      && (finalWarned <==> step > 0 && limit - step < 2)
      && WindowWarnings(messages) == (if windowWarned then 1 else 0)
      && FinalWarnings(messages) == (if finalWarned then 1 else 0)
    }

    /** The executions of a run in progress: no finish yet, and the flag says whether a preview was started. */
    ghost predicate Working(step: nat, limit: nat, last: Option<Tool>)
      reads this
    {
      && (previewStarted <==> Started(executions))
      && StepsUpTo(executions, step)
      && (forall i :: 0 <= i < |executions| && executions[i].step == limit ==> last.Some? && executions[i].tool == last.value)
    }

    lemma ExecutionAdded(before: seq<Execution>, e: Execution, limit: nat)
      ensures Started(before + [e]) <==> Started(before) || Starts(e)
      ensures NoFinish(before + [e]) <==> NoFinish(before) && !Finishes(e)
      ensures StartedBefore(before + [e], limit) <==> StartedBefore(before, limit) || (Starts(e) && e.step < limit)
    {
      var all := before + [e];
      if Started(before) {
        var i :| 0 <= i < |before| && Starts(before[i]);
        assert Starts(all[i]);
      }
      if StartedBefore(before, limit) {
        var i :| 0 <= i < |before| && Starts(before[i]) && before[i].step < limit;
        assert Starts(all[i]);
      }
      assert all[|before|] == e;
      if NoFinish(all) {
        forall i | 0 <= i < |before| ensures !Finishes(before[i]) { assert !Finishes(all[i]); }
      }
    }

    /** One tool call: executed if it is allowed, and answered unless it ends the run. */
    method AnswerOne(step: nat, limit: nat, call: ToolCall, only: Option<Tool>) returns (end: Option<Outcome>)
      requires 0 < step <= limit && (only.Some? <==> step == limit)
      requires Awaits(messages, call.id) && NoFinish(executions) && Working(step, limit, only)
      modifies this`messages, this`executions, this`previewStarted, this`checks
      ensures Working(step, limit, only) && StartedBefore(executions, step) == old(StartedBefore(executions, step))
      ensures var next := if Allows(only, call.tool) then old(executions) + [Executed(behaviour, old(executions), step, call.tool)] else old(executions);
              executions == next || (end == Some(Interrupted) && executions == old(executions))
      ensures var ok := Allows(only, call.tool) && Executed(behaviour, old(executions), step, call.tool).ok;
              && messages == (if end.None? then old(messages) + [ToolResult(call.id, ok)] else old(messages))
              && (end.None? ==> NoFinish(executions) && !(call.tool == Finish && ok))
              && (end == Some(ModelFinish(step)) ==> call.tool == Finish && ok)
      ensures end.None? || end == Some(Interrupted) || end == Some(ModelFinish(step))
      ensures if end == Some(Interrupted) then !Unbroken() else Unbroken() == old(Unbroken())
      ensures end == Some(ModelFinish(step)) ==> EndsInFinish(executions)
    {
      var broke := Breaks();
      if broke { return Some(Interrupted); }
      var ok := false;
      ghost var before := executions;
      if only.None? || call.tool == only.value {
        var e := ExecuteTool(step, call.tool);
        ok := e.ok;
        ExecutionAdded(before, e, step);
        assert executions[..|executions| - 1] == before;
      }
      broke := Breaks();
      if broke { return Some(Interrupted); }
      if call.tool == Finish && ok { return Some(ModelFinish(step)); }
      Say(ToolResult(call.id, ok));
      return None;
    }

    /** The tool calls of one turn, answered one by one. `only` is the single tool of the last turn. */
    method Answer(step: nat, limit: nat, calls: seq<ToolCall>, only: Option<Tool>) returns (end: Option<Outcome>)
      requires 0 < step <= limit && (only.Some? <==> step == limit)
      requires Unanswered(messages) == Some(Ids(calls)) && NoFinish(executions) && Working(step, limit, only)
      modifies this`messages, this`executions, this`previewStarted, this`checks
      ensures Working(step, limit, only) && StartedBefore(executions, step) == old(StartedBefore(executions, step))
      ensures WindowWarnings(messages) == old(WindowWarnings(messages)) && FinalWarnings(messages) == old(FinalWarnings(messages))
      ensures end.None? ==> Unanswered(messages) == Some([]) && NoFinish(executions)
      ensures end.None? || end == Some(Interrupted) || end == Some(ModelFinish(step))
      ensures if end == Some(Interrupted) then !Unbroken() else Unbroken() == old(Unbroken())
      ensures Replied(behaviour, old(messages), old(executions), step, calls, only, end.None?, messages, executions)
      ensures end == Some(ModelFinish(step)) ==> EndsInFinish(executions)
    {
      end := None;
      assert Ids(calls)[0..] == Ids(calls);
      ghost var base, said := executions, messages;
      RepliedNothing(behaviour, said, base, step, only);
      assert calls[..0] == [];
      for k := 0 to |calls|
        invariant end.None? && Unanswered(messages) == Some(Ids(calls)[k..])
        invariant Working(step, limit, only) && NoFinish(executions)
        invariant Unbroken() == old(Unbroken())
        invariant StartedBefore(executions, step) == old(StartedBefore(executions, step))
        invariant WindowWarnings(messages) == old(WindowWarnings(messages)) && FinalWarnings(messages) == old(FinalWarnings(messages))
        invariant Replied(behaviour, said, base, step, calls[..k], only, true, messages, executions)
      {
        IdsAt(calls, k);
        ghost var before, executed := messages, executions;
        end := AnswerOne(step, limit, calls[k], only);
        ReplyStep(behaviour, said, base, step, calls, only, k, before, executed, end.None?, messages, executions);
        forall ok | messages == before + [ToolResult(calls[k].id, ok)]
          ensures WindowWarnings(messages) == WindowWarnings(before) && FinalWarnings(messages) == FinalWarnings(before)
          ensures Unanswered(messages) == Some(Ids(calls)[k..][1..])
        {
          Said(before, ToolResult(calls[k].id, ok));
        }
        if end.Some? { return; }
        assert Ids(calls)[k..][1..] == Ids(calls)[k + 1..];
      }
      assert calls[..|calls|] == calls;
    }

    method Prompt(m: Message)
      requires Unanswered(messages) == Some([]) && !m.Assistant? && !m.ToolResult?
      modifies this`messages
      ensures messages == old(messages) + [m] && Unanswered(messages) == Some([])
      ensures WindowWarnings(messages) == old(WindowWarnings(messages)) + if m.WindowWarning? then 1 else 0
      ensures FinalWarnings(messages) == old(FinalWarnings(messages)) + if m.FinalWarning? then 1 else 0
    {
      Said(messages, m);
      messages := messages + [m];
    }

    /** The warnings that are due before a turn. */
    method Warn(step: nat, limit: nat)
      requires 0 < step <= limit && Warned(step - 1, limit, WindowSteps(limit)) && Unanswered(messages) == Some([])
      modifies this`messages, this`windowWarned, this`finalWarned
      ensures Warned(step, limit, WindowSteps(limit)) && Unanswered(messages) == Some([])
      ensures messages == old(messages) + DueWarnings(step, limit)
    {
      ghost var before := messages;
      WarnOfWindow(step, limit, WindowSteps(limit));
      WarnOfEnd(step, limit);
      ConcatAssociates(before, WindowDue(step, limit, WindowSteps(limit)), FinalDue(step, limit));
    }

    method WarnOfWindow(step: nat, limit: nat, window: nat)
      requires 0 < step <= limit && Unanswered(messages) == Some([])
      requires (windowWarned <==> step > 1 && limit - step + 1 < window) && WindowWarnings(messages) == (if windowWarned then 1 else 0)
      modifies this`messages, this`windowWarned
      ensures (windowWarned <==> limit - step < window) && WindowWarnings(messages) == (if windowWarned then 1 else 0)
      ensures Unanswered(messages) == Some([]) && FinalWarnings(messages) == old(FinalWarnings(messages))
      ensures messages == old(messages) + WindowDue(step, limit, window)
    {
      var remaining := limit - step + 1;
      if !windowWarned && remaining <= window {
        windowWarned := true;
        Prompt(WindowWarning(remaining));
      } else {
        EmptyConcat(messages);
      }
    }

    method WarnOfEnd(step: nat, limit: nat)
      requires 0 < step <= limit && Unanswered(messages) == Some([])
      requires (finalWarned <==> step > 1 && limit - step + 1 < 2) && FinalWarnings(messages) == (if finalWarned then 1 else 0)
      modifies this`messages, this`finalWarned
      ensures (finalWarned <==> limit - step < 2) && FinalWarnings(messages) == (if finalWarned then 1 else 0)
      ensures Unanswered(messages) == Some([]) && WindowWarnings(messages) == old(WindowWarnings(messages))
      ensures messages == old(messages) + FinalDue(step, limit)
    {
      var remaining := limit - step + 1;
      if !finalWarned && remaining <= 2 {
        finalWarned := true;
        Prompt(FinalWarning(remaining));
      } else {
        EmptyConcat(messages);
      }
    }

    /** Whatever the model and the tools do, a run keeps these. */
    ghost predicate RunKept(limit: nat)
      reads this
    {
      && |asked| <= limit
      && AllAnswered(asked)
      && WindowWarnings(messages) <= 1 && FinalWarnings(messages) <= 1
      && LastTurnHandsOff(executions, limit)
    }

    lemma KeptBetween(step: nat, limit: nat)
      requires Between(step, limit)
      ensures RunKept(limit)
    {}

    /** The tool, if it is the only one, is what the last turn hands off with. */
    lemma OnlyOne(step: nat, limit: nat)
      requires 0 < step <= limit && StepsUpTo(executions, step - 1) && (previewStarted <==> Started(executions))
      ensures var only := OnlyTool(executions, step, limit);
              && Working(step, limit, only) && LastTurnHandsOff(executions, limit)
              && (only.Some? ==> only.value == Handoff(StartedBefore(executions, limit)))
    {
      EarlierOnly(executions, step);
    }

    /** The question of a turn: the warnings that are due, and the single tool if it is the last turn. */
    method Question(step: nat, limit: nat) returns (broke: bool, only: Option<Tool>)
      requires 0 < step <= limit && AllAnswered(asked) && Unanswered(messages) == Some([])
      requires Warned(step - 1, limit, WindowSteps(limit)) && (previewStarted <==> Started(executions))
      modifies this`messages, this`asked, this`windowWarned, this`finalWarned, this`checks
      ensures AllAnswered(asked) && WindowWarnings(messages) <= 1 && FinalWarnings(messages) <= 1
      ensures messages == old(messages) || messages == old(messages) + DueWarnings(step, limit)
      ensures asked == old(asked) || asked == old(asked) + [messages]
      ensures if broke then !Unbroken() else Unbroken() == old(Unbroken())
      ensures !broke ==>
                && messages == old(messages) + DueWarnings(step, limit) && asked == old(asked) + [messages]
                && Warned(step, limit, WindowSteps(limit)) && Unanswered(messages) == Some([])
                && only == OnlyTool(executions, step, limit)
    {
      only := None;
      broke := Breaks();
      if broke { return; }
      only := Pose(step, limit);
      broke := Breaks();
    }

    method Pose(step: nat, limit: nat) returns (only: Option<Tool>)
      requires 0 < step <= limit && AllAnswered(asked) && Unanswered(messages) == Some([])
      requires Warned(step - 1, limit, WindowSteps(limit)) && (previewStarted <==> Started(executions))
      modifies this`messages, this`asked, this`windowWarned, this`finalWarned
      ensures messages == old(messages) + DueWarnings(step, limit) && asked == old(asked) + [messages] && AllAnswered(asked)
      ensures Warned(step, limit, WindowSteps(limit)) && Unanswered(messages) == Some([])
      ensures only == OnlyTool(executions, step, limit)
    {
      Warn(step, limit);
      only := if step == limit then Some(Handoff(previewStarted)) else None;
      AskedOneMore(asked, messages);
      asked := asked + [messages];
    }

    /** The question, in terms of the model's turns. */
    method AskTurn(step: nat, limit: nat) returns (broke: bool, only: Option<Tool>)
      requires 0 < step <= limit && Between(step - 1, limit)
      requires AskedInTurn(turn, asked, messages) && Assistants(messages) == Turns(turn, step - 1)
      modifies this`messages, this`asked, this`windowWarned, this`finalWarned, this`checks
      ensures RunKept(limit) && step - 1 <= |asked| <= step && AskedInTurn(turn, asked, messages)
      ensures Assistants(messages) == old(Assistants(messages)) && Replies(messages) == old(Replies(messages))
      ensures if broke then !Unbroken() else Unbroken() == old(Unbroken())
      ensures !broke ==>
                && |asked| == step && Warned(step, limit, WindowSteps(limit)) && Unanswered(messages) == Some([])
                && Working(step, limit, only) && only == OnlyTool(executions, step, limit)
                && (only.Some? ==> only.value == Handoff(StartedBefore(executions, limit)))
    {
      ghost var before, questions := messages, asked;
      broke, only := Question(step, limit);
      OnlyOne(step, limit);
      QuestionSays(turn, step, limit, before, questions, messages, asked);
    }

    method Listen(calls: seq<ToolCall>)
      requires Unanswered(messages) == Some([])
      modifies this`messages
      ensures messages == old(messages) + [Assistant(calls)] && Unanswered(messages) == Some(Ids(calls))
      ensures Assistants(messages) == old(Assistants(messages)) + [calls] && Replies(messages) == old(Replies(messages))
      ensures WindowWarnings(messages) == old(WindowWarnings(messages)) && FinalWarnings(messages) == old(FinalWarnings(messages))
    {
      Said(messages, Assistant(calls));
      Spoken(messages, Assistant(calls));
      Say(Assistant(calls));
    }

    /** The model's turn and the answers to it. */
    method Exchange(step: nat, limit: nat, only: Option<Tool>) returns (end: Option<Outcome>, ghost said: seq<Message>)
      requires 0 < step <= limit && (only.Some? <==> step == limit)
      requires Unanswered(messages) == Some([]) && NoFinish(executions) && Working(step, limit, only)
      modifies this`messages, this`executions, this`previewStarted, this`checks
      ensures Working(step, limit, only) && StartedBefore(executions, step) == old(StartedBefore(executions, step))
      ensures WindowWarnings(messages) == old(WindowWarnings(messages)) && FinalWarnings(messages) == old(FinalWarnings(messages))
      ensures end.None? ==> Unanswered(messages) == Some([]) && NoFinish(executions)
      ensures if end == Some(Interrupted) then !Unbroken() else Unbroken() == old(Unbroken())
      ensures end.None? || end == Some(Interrupted) || end == Some(ModelFinish(step))
      ensures end == Some(ModelFinish(step)) ==> EndsInFinish(executions)
      ensures said == old(messages) + [Assistant(turn(step))]
      ensures Replied(behaviour, said, old(executions), step, turn(step), only, end.None?, messages, executions)
    {
      var calls := turn(step);
      Listen(calls);
      said := messages;
      end := Reply(step, limit, calls, only);
    }

    /** The exchange of a turn, and what it leaves between two turns. */
    method Hear(step: nat, limit: nat, only: Option<Tool>) returns (end: Option<Outcome>, ghost said: seq<Message>)
      requires 0 < step <= limit && |asked| == step && AllAnswered(asked) && Warned(step, limit, WindowSteps(limit))
      requires Unanswered(messages) == Some([]) && NoFinish(executions) && Working(step, limit, only)
      requires (only.Some? <==> step == limit) && (only.Some? ==> only.value == Handoff(StartedBefore(executions, limit)))
      modifies this`messages, this`executions, this`previewStarted, this`checks
      ensures RunKept(limit)
      ensures if end == Some(Interrupted) then !Unbroken() else Unbroken() == old(Unbroken())
      ensures end.None? ==> Between(step, limit)
      ensures end.None? || end == Some(Interrupted) || end == Some(ModelFinish(step))
      ensures end == Some(ModelFinish(step)) ==> Warned(step, limit, WindowSteps(limit)) && EndsInFinish(executions)
      ensures said == old(messages) + [Assistant(turn(step))]
      ensures Replied(behaviour, said, old(executions), step, turn(step), only, end.None?, messages, executions)
    {
      end, said := Exchange(step, limit, only);
      Settles(step, limit, only);
    }

    /** The question of a turn; when it broke, the run has gone no further than the turns before. */
    method Open(step: nat, limit: nat) returns (broke: bool, only: Option<Tool>)
      requires 0 < step <= limit && Between(step - 1, limit) && Faithful(step - 1, limit)
      modifies this`messages, this`asked, this`windowWarned, this`finalWarned, this`checks
      ensures RunKept(limit) && step - 1 <= |asked| <= step
      ensures if broke then !Unbroken() && FaithfulSoFar(|asked|, limit) else Unbroken() == old(Unbroken()) && Faithful(step - 1, limit)
      ensures !broke ==>
                && |asked| == step && Warned(step, limit, WindowSteps(limit)) && Unanswered(messages) == Some([])
                && Working(step, limit, only) && only == OnlyTool(executions, step, limit)
                && (only.Some? ==> only.value == Handoff(StartedBefore(executions, limit)))
    {
      ghost var before := messages;
      broke, only := AskTurn(step, limit);
      StillRuns(turn, behaviour, limit, step - 1, before, messages, executions);
      RunBeginsEither(turn, behaviour, limit, step - 1, |asked|, messages, executions);
    }

    /** The turn itself, in terms of the turns of the run. */
    method Take(step: nat, limit: nat, only: Option<Tool>) returns (end: Option<Outcome>)
      requires 0 < step <= limit && |asked| == step && AllAnswered(asked) && Warned(step, limit, WindowSteps(limit))
      requires Unanswered(messages) == Some([]) && NoFinish(executions) && Working(step, limit, only)
      requires only == OnlyTool(executions, step, limit) && (only.Some? ==> only.value == Handoff(StartedBefore(executions, limit)))
      requires Faithful(step - 1, limit)
      modifies this`messages, this`executions, this`previewStarted, this`checks
      ensures RunKept(limit)
      ensures if end.None? then Faithful(step, limit) else FaithfulSoFar(step, limit)
      ensures if end == Some(Interrupted) then !Unbroken() else Unbroken() == old(Unbroken())
      ensures end.None? ==> Between(step, limit)
      ensures end.None? || end == Some(Interrupted) || end == Some(ModelFinish(step))
      ensures end == Some(ModelFinish(step)) ==>
                Warned(step, limit, WindowSteps(limit)) && EndsInFinish(executions) && FirstFinish(turn, behaviour, limit, step)
    {
      ghost var m0, x0, said := messages, executions, [];
      end, said := Hear(step, limit, only);
      TurnReplied(turn, behaviour, limit, step, m0, x0, said, end.None?, messages, executions);
      AskedKept(turn, asked, m0, messages);
      if end == Some(ModelFinish(step)) { FinishFound(turn, behaviour, limit, step, executions); }
    }

    /** One turn: the question to the model, and the answers to its tool calls. */
    method Turn(step: nat, limit: nat) returns (end: Option<Outcome>)
      requires 0 < step <= limit && Between(step - 1, limit) && Faithful(step - 1, limit)
      modifies this
      ensures RunKept(limit) && step - 1 <= |asked| <= step
      ensures if end.None? then Faithful(step, limit) else FaithfulSoFar(|asked|, limit)
      ensures if end == Some(Interrupted) then !Unbroken() else Unbroken() == old(Unbroken())
      ensures end.None? ==> Between(step, limit)
      ensures end.None? || end == Some(Interrupted) || end == Some(ModelFinish(step))
      ensures end == Some(ModelFinish(step)) ==>
                && |asked| == step && Warned(step, limit, WindowSteps(limit)) && EndsInFinish(executions)
                && FirstFinish(turn, behaviour, limit, step)
    {
      var broke, only := Open(step, limit);
      if broke { return Some(Interrupted); }
      end := Take(step, limit, only);
    }

    /** A turn without tool calls is nudged on, the others are answered. */
    method Reply(step: nat, limit: nat, calls: seq<ToolCall>, only: Option<Tool>) returns (end: Option<Outcome>)
      requires 0 < step <= limit && (only.Some? <==> step == limit)
      requires Unanswered(messages) == Some(Ids(calls)) && NoFinish(executions) && Working(step, limit, only)
      modifies this`messages, this`executions, this`previewStarted, this`checks
      ensures Working(step, limit, only) && StartedBefore(executions, step) == old(StartedBefore(executions, step))
      ensures WindowWarnings(messages) == old(WindowWarnings(messages)) && FinalWarnings(messages) == old(FinalWarnings(messages))
      ensures end.None? ==> Unanswered(messages) == Some([]) && NoFinish(executions)
      ensures end.None? || end == Some(Interrupted) || end == Some(ModelFinish(step))
      ensures if end == Some(Interrupted) then !Unbroken() else Unbroken() == old(Unbroken())
      ensures Replied(behaviour, old(messages), old(executions), step, calls, only, end.None?, messages, executions)
      ensures end == Some(ModelFinish(step)) ==> EndsInFinish(executions)
    {
      if |calls| == 0 {
        RepliedNothing(behaviour, messages, executions, step, only);
        Said(messages, Nudge);
        Spoken(messages, Nudge);
        Say(Nudge);
        return None;
      }
      end := Answer(step, limit, calls, only);
    }

    lemma Settles(step: nat, limit: nat, only: Option<Tool>)
      requires |asked| == step <= limit && AllAnswered(asked)
      requires Warned(step, limit, WindowSteps(limit)) && Working(step, limit, only)
      requires only.Some? ==> only.value == Handoff(StartedBefore(executions, limit))
      ensures RunKept(limit)
      ensures Unanswered(messages) == Some([]) && NoFinish(executions) ==> Between(step, limit)
    {}

    lemma EarlierOnly(all: seq<Execution>, step: nat)
      requires step > 0 && StepsUpTo(all, step - 1)
      ensures StartedBefore(all, step) <==> Started(all)
    {}

    /**
     AgentRunner.run. At most `limit` questions are asked, each with every tool call before it answered
     once and in order. The assistant messages are the model's turns, the executions those of the turns
     taken up to the end, and the answers say what came of each call. The run ends with a finish exactly in
     the first turn in which one succeeds; when the steps run out it is handed off exactly if a preview was
     started; it is interrupted only if a check found it broken.
     */
    method Run(limit: nat) returns (end: Outcome)
      requires messages == [SystemPrompt, UserPrompt] && asked == [] && executions == [] && checks == 0
      requires !previewStarted && !windowWarned && !finalWarned
      modifies this
      ensures RunKept(limit) && FaithfulSoFar(|asked|, limit)
      ensures end.Interrupted? <==> !Unbroken()
      ensures !end.Interrupted? ==>
                (end.ModelFinish? <==> exists n :: FirstFinish(turn, behaviour, limit, n))
      ensures end.ModelFinish? ==>
                && end.steps == |asked| && FirstFinish(turn, behaviour, limit, end.steps)
                && EndsInFinish(executions)
      ensures end.BudgetHandoff? || end.StepLimitExceeded? ==>
                |asked| == limit && Faithful(limit, limit) && NoFinish(executions) && (end.BudgetHandoff? <==> Started(executions))
      ensures end.BudgetHandoff? ==> end.steps == limit
      ensures !end.Interrupted? ==>
                && WindowWarnings(messages) == (if limit - |asked| < WindowSteps(limit) && |asked| > 0 then 1 else 0)
                && FinalWarnings(messages) == (if limit - |asked| < 2 && |asked| > 0 then 1 else 0)
    {
      Opening();
      var ended := Converse(limit);
      if ended.Some? { return ended.value; }
      KeptBetween(limit, limit);
      NeverFinished(turn, behaviour, limit);
      RunBegins(turn, behaviour, limit, limit, messages, executions);
      var broke := Breaks();
      if broke { return Interrupted; }
      return if previewStarted then BudgetHandoff(limit) else StepLimitExceeded;
    }

    /** The loop over the turns; None when they ran out. */
    method Converse(limit: nat) returns (end: Option<Outcome>)
      requires Between(0, limit) && Faithful(0, limit) && Unbroken()
      modifies this
      ensures if end.None? then Between(limit, limit) && Faithful(limit, limit) && Unbroken() else FaithfulSoFar(|asked|, limit)
      ensures RunKept(limit)
      ensures end.None? || end == Some(Interrupted) || end == Some(ModelFinish(|asked|))
      ensures end.Some? ==> (end == Some(Interrupted) <==> !Unbroken())
      ensures end == Some(ModelFinish(|asked|)) ==>
                && 0 < |asked| && Warned(|asked|, limit, WindowSteps(limit)) && EndsInFinish(executions)
                && FirstFinish(turn, behaviour, limit, |asked|)
    {
      for step := 1 to limit + 1
        invariant Between(step - 1, limit) && Faithful(step - 1, limit) && Unbroken()
      {
        end := Turn(step, limit);
        if end.Some? { return; }
      }
      KeptBetween(limit, limit);
      return None;
    }

    lemma Opening()
      requires messages == [SystemPrompt, UserPrompt]
      ensures Unanswered(messages) == Some([]) && WindowWarnings(messages) == 0 && FinalWarnings(messages) == 0
      ensures Assistants(messages) == [] && Replies(messages) == []
    {
      Spoken([], SystemPrompt);
      Spoken([SystemPrompt], UserPrompt);
      Said([], SystemPrompt);
      Said([SystemPrompt], UserPrompt);
      assert messages == [] + [SystemPrompt] + [UserPrompt];
    }
  }
}
