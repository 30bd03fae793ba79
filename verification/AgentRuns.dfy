/** What holds over every run of the agent loop: budgets, the blocked streak, and paired transcripts. */
module AgentRuns {
  import opened Wrappers
  import opened ToolCalls
  import opened ToolTranscript
  import opened AgentLoop

  function Sum(numbers: seq<int>): int {
    if numbers == [] then 0 else Sum(numbers[..|numbers| - 1]) + numbers[|numbers| - 1]
  }

  function Max(a: int, b: int): int {
    if a >= b then a else b
  }

  // ----- Budgets -----

  /** At the head of the loop: every call made is paid for, and no prefix of the usage is over the budget. */
  ghost predicate WithinBudget(cfg: Config, s: State) {
    && |s.requests| == |s.usages| == s.turnCount - cfg.FirstTurnCount()
    && (s.requests != [] ==> s.turnCount <= cfg.TurnBound())
    && s.totalTokens == Sum(s.usages)
    && forall j :: 0 < j <= |s.usages| ==> Sum(s.usages[..j]) <= cfg.TokenBound()
  }

  /** The budgets of a whole run, whatever the services answered. */
  ghost predicate BudgetsKept(cfg: Config, s: State, ending: Ending) {
    && |s.requests| <= Max(0, cfg.TurnBound() - cfg.FirstTurnCount())
    && (ending == TurnsExceeded ==> |s.requests| == Max(0, cfg.TurnBound() - cfg.FirstTurnCount()))
    && |s.requests| <= |s.usages| + 1
    && (forall j :: 0 < j < |s.requests| ==> Sum(s.usages[..j]) <= cfg.TokenBound())
    && s.totalTokens == Sum(s.usages)
    && (ending == TokensExceeded <==> s.usages != [] && s.totalTokens > cfg.TokenBound())
  }

  lemma ReceiveBudget(cfg: Config, s: State, reply: Reply)
    requires s.requests != []
    requires WithinBudget(cfg, s.(requests := s.requests[..|s.requests| - 1], turnCount := s.turnCount - 1))
    requires s.turnCount <= cfg.TurnBound()
    ensures var (next, ending) := Receive(cfg, s, reply);
      if ending.None? then WithinBudget(cfg, next) else BudgetsKept(cfg, next, ending.value)
  {
    hide Act, Sum;
    var used := reply.inputTokens + reply.outputTokens;
    var usages := s.usages + [used];
    SumSnoc(s.usages, used);
    forall j | 0 < j <= |s.usages| ensures Sum(usages[..j]) <= cfg.TokenBound() {
      assert usages[..j] == s.usages[..j];
    }
    assert usages[..|usages|] == usages;
    var t := s.(totalTokens := s.totalTokens + used, usages := usages);
    if reply.toolCalls.Some? {
      ActFrame(cfg, t, reply.content, reply.toolCalls.value);
    }
    var (next, ending) := Receive(cfg, s, reply);
    assert next.turnCount == s.turnCount && next.totalTokens == s.totalTokens + used;
    assert next.requests == s.requests && next.usages == usages;
    assert ending == Some(TokensExceeded) <==> next.totalTokens > cfg.TokenBound();
    assert ending != Some(TurnsExceeded);
  }

  lemma SumSnoc(numbers: seq<int>, n: int)
    ensures Sum(numbers + [n]) == Sum(numbers) + n
  {
    assert (numbers + [n])[..|numbers|] == numbers;
  }

  lemma ActFrame(cfg: Config, s: State, content: string, raw: seq<ToolCall>)
    ensures var (next, ending) := Act(cfg, s, content, raw);
      && next.turnCount == s.turnCount && next.totalTokens == s.totalTokens
      && next.requests == s.requests && next.usages == s.usages
      && (ending.Some? ==> ending.value.Stopped?)
  {
  }

  /** What a turn sends, if it gets that far. */
  lemma TurnSends(cfg: Config, base: Option<string>, s: State) returns (t: State)
    ensures t.requests == s.requests || (t.requests != [] && t.requests[..|t.requests| - 1] == s.requests)
    ensures t == s.(turnCount := s.turnCount + 1, messages := t.messages, requests := t.requests)
    ensures var (next, ending) := Turn(cfg, base, s);
      || (s.turnCount >= cfg.TurnBound() && next == s && ending == Some(TurnsExceeded))
      || (s.turnCount < cfg.TurnBound() && next == t && (ending == Some(ContextThrew) || ending == Some(ModelThrew)))
      || (s.turnCount < cfg.TurnBound() && t.requests != s.requests
          && exists reply :: (next, ending) == Receive(cfg, t, reply))
  {
    hide Receive;
    t := s.(turnCount := s.turnCount + 1);
    var prompt := if !cfg.rebuildsContext || base.None? || s.messages == [] then None
                  else cfg.model.buildContext(t.turnCount, base.value);
    if cfg.rebuildsContext && base.Some? && s.messages != [] {
      if prompt.None? {
        return;
      }
      t := t.(messages := t.messages[0 := System(prompt.value)]);
    }
    t := t.(requests := t.requests + [Request(t.messages, t.turnKind, |t.completed|)]);
    assert t.requests[..|t.requests| - 1] == s.requests;
  }

  lemma TurnBudget(cfg: Config, base: Option<string>, s: State)
    requires WithinBudget(cfg, s)
    ensures var (next, ending) := Turn(cfg, base, s);
      if ending.None? then WithinBudget(cfg, next) else BudgetsKept(cfg, next, ending.value)
  {
    hide Receive, Sum, Turn;
    assert s.usages[..|s.usages|] == s.usages;
    var t := TurnSends(cfg, base, s);
    var (next, ending) := Turn(cfg, base, s);
    if reply :| s.turnCount < cfg.TurnBound() && t.requests != s.requests && (next, ending) == Receive(cfg, t, reply) {
      ReceiveBudget(cfg, t, reply);
    }
  }

  lemma {:induction false} RunBudget(cfg: Config, base: Option<string>, s: State)
    requires WithinBudget(cfg, s)
    ensures var (final, ending) := Run(cfg, base, s); BudgetsKept(cfg, final, ending)
    decreases cfg.TurnBound() - s.turnCount
  {
    hide Turn, WithinBudget, BudgetsKept;
    var (next, ending) := Turn(cfg, base, s);
    TurnBudget(cfg, base, s);
    RunStep(cfg, base, s);
    if ending.None? {
      TurnAdvances(cfg, base, s);
      RunBudget(cfg, base, next);
    }
  }

  lemma TurnAdvances(cfg: Config, base: Option<string>, s: State)
    ensures var (next, ending) := Turn(cfg, base, s);
      ending.None? ==> s.turnCount < cfg.TurnBound() && next.turnCount == s.turnCount + 1
  {
    hide RewriteAll, LatestUserContent, ExecuteToolCalls;
  }

  /**
   * Every run makes at most `maxTurns` less the initial count model calls, exactly that many when it ends for
   * want of turns, and no call at all once the summed usage is over the token budget.
   */
  lemma LoopBudgets(cfg: Config, input: seq<Message>)
    ensures var (final, ending) := Run(cfg, BasePrompt(input), Initial(cfg, input));
      BudgetsKept(cfg, final, ending)
  {
    RunBudget(cfg, BasePrompt(input), Initial(cfg, input));
  }

  /** The budgets of a run without limits of its own. */
  ghost predicate DefaultsKept(s: State, ending: Ending) {
    && |s.requests| <= 50
    && (ending == TurnsExceeded ==> |s.requests| == 50)
    && |s.requests| <= |s.usages| + 1
    && (forall j :: 0 < j < |s.requests| ==> Sum(s.usages[..j]) <= 200_000)
  }

  lemma DefaultsMean(cfg: Config, s: State, ending: Ending)
    requires cfg.maxTurns.None? && cfg.maxTotalTokens.None? && cfg.initialTurnCount.None?
    requires BudgetsKept(cfg, s, ending)
    ensures DefaultsKept(s, ending)
  {
  }

  /** Without limits of its own a run makes at most 50 model calls, and none once 200,000 tokens are spent. */
  lemma DefaultBudgets(cfg: Config, input: seq<Message>)
    requires cfg.maxTurns.None? && cfg.maxTotalTokens.None? && cfg.initialTurnCount.None?
    ensures var (final, ending) := Run(cfg, BasePrompt(input), Initial(cfg, input)); DefaultsKept(final, ending)
  {
    hide Run, BudgetsKept, DefaultsKept;
    var (final, ending) := Run(cfg, BasePrompt(input), Initial(cfg, input));
    LoopBudgets(cfg, input);
    DefaultsMean(cfg, final, ending);
  }

  lemma TurnAsksOnce(cfg: Config, base: Option<string>, s: State)
    ensures s.turnCount >= cfg.TurnBound() ==> Turn(cfg, base, s) == (s, Some(TurnsExceeded))
    ensures |s.requests| <= |Turn(cfg, base, s).0.requests| <= |s.requests| + 1
  {
    hide RewriteAll, LatestUserContent, ExecuteToolCalls;
  }

  /** From any state on, the run makes at most one model call a turn that is left. */
  lemma {:induction false} RunCallBound(cfg: Config, base: Option<string>, s: State)
    ensures |Run(cfg, base, s).0.requests| <= |s.requests| + Max(0, cfg.TurnBound() - s.turnCount)
    decreases cfg.TurnBound() - s.turnCount
  {
    hide Turn;
    var (next, ending) := Turn(cfg, base, s);
    TurnAsksOnce(cfg, base, s);
    RunStep(cfg, base, s);
    if ending.None? {
      TurnAdvances(cfg, base, s);
      RunCallBound(cfg, base, next);
    }
  }

  // ----- The streak -----

  ghost predicate StreakHeld(s: State) {
    && Calm(s.blocked)
    && BlockedSuffix(s.blocked) < 3
    && s.streak == BlockedSuffix(s.blocked)
  }

  ghost predicate StreakSettled(s: State, ending: Ending) {
    && s.streak == BlockedSuffix(s.blocked)
    && (ending == Stopped(StreakAborted) <==> !Calm(s.blocked))
    && (!Calm(s.blocked) ==> Calm(s.blocked[..|s.blocked| - 1]))
  }

  lemma ActStreak(cfg: Config, s: State, content: string, raw: seq<ToolCall>)
    requires StreakHeld(s)
    ensures var (next, ending) := Act(cfg, s, content, raw);
      if ending.None? then StreakHeld(next) else StreakSettled(next, ending.value)
  {
    hide Calm, BlockedSuffix, RunCalls;
    var calls := RewriteAll(cfg.services.heuristics, LatestUserContent(s.messages), raw);
    var user := LatestUserContent(s.messages);
    ExecutesRewritten(cfg.services, raw, s.messages, content, s.streak);
    var recorded := Corrected(calls, calls, Recorrected(cfg.services.heuristics, user, calls));
    StreakExact(cfg.services, calls, s.messages + [Assistant(content, Some(recorded))], s.blocked);
  }

  lemma TurnStreak(cfg: Config, base: Option<string>, s: State)
    requires StreakHeld(s)
    ensures var (next, ending) := Turn(cfg, base, s);
      if ending.None? then StreakHeld(next) else StreakSettled(next, ending.value)
  {
    hide Act, Calm, BlockedSuffix;
    if s.turnCount < cfg.TurnBound() {
      var t := s.(turnCount := s.turnCount + 1);
      if cfg.rebuildsContext && base.Some? && s.messages != [] {
        var prompt := cfg.model.buildContext(t.turnCount, base.value);
        if prompt.Some? {
          t := t.(messages := t.messages[0 := System(prompt.value)]);
        }
      }
      var reply := cfg.model.chat(t.messages, t.turnKind);
      if reply.Some? && reply.value.toolCalls.Some? {
        var used := reply.value.inputTokens + reply.value.outputTokens;
        t := t.(requests := t.requests + [Request(t.messages, t.turnKind, |t.completed|)],
                totalTokens := t.totalTokens + used, usages := t.usages + [used]);
        ActStreak(cfg, t, reply.value.content, reply.value.toolCalls.value);
      }
    }
  }

  lemma {:induction false} RunStreak(cfg: Config, base: Option<string>, s: State)
    requires StreakHeld(s)
    ensures var (final, ending) := Run(cfg, base, s); StreakSettled(final, ending)
    decreases cfg.TurnBound() - s.turnCount
  {
    hide Turn, StreakHeld, StreakSettled;
    var (next, ending) := Turn(cfg, base, s);
    TurnStreak(cfg, base, s);
    RunStep(cfg, base, s);
    if ending.None? {
      TurnAdvances(cfg, base, s);
      RunStreak(cfg, base, next);
    }
  }

  /**
   * The carried counter is the length of the blocked suffix of all tool results, across turns, and the loop
   * aborts on its account exactly when the last result is the first third blocked one in a row.
   */
  lemma LoopStreak(cfg: Config, input: seq<Message>)
    ensures var (final, ending) := Run(cfg, BasePrompt(input), Initial(cfg, input));
      StreakSettled(final, ending)
  {
    RunStreak(cfg, BasePrompt(input), Initial(cfg, input));
  }

  // ----- The transcript -----

  /** The input, save that a rebuilt system prompt may stand for the one it began with. */
  predicate Extends(input: seq<Message>, messages: seq<Message>) {
    && |input| <= |messages|
    && (forall k :: 0 < k < |input| ==> messages[k] == input[k])
    && (input != [] ==> messages[0] == input[0] || (messages[0].System? && input[0].System?))
  }

  /** Past the input there are complete blocks only, and they record the calls completed by then. */
  ghost predicate WellFormed(input: seq<Message>, messages: seq<Message>, completed: seq<ToolCall>) {
    && Extends(input, messages)
    && Paired(messages[|input|..])
    && RecordedCalls(messages[|input|..]) == completed
  }

  /** The router echoes ids, and in each reply an id names one call. */
  ghost predicate Dependable(cfg: Config) {
    && Echoes(cfg.services)
    && forall messages, kind {:trigger cfg.model.chat(messages, kind)} ::
         var reply := cfg.model.chat(messages, kind);
         reply.Some? && reply.value.toolCalls.Some? ==> IdsNameCalls(reply.value.toolCalls.value)
  }

  /** The user's turn lasts until the first tool call is completed. */
  function KindAfter(completed: nat): TurnKind {
    if completed == 0 then UserTurn else ToolResume
  }

  /** The request's transcript is well formed, with the calls that were completed when it was made. */
  ghost predicate Asked(input: seq<Message>, request: Request, completed: seq<ToolCall>) {
    && request.completedBefore <= |completed|
    && request.turnKind == KindAfter(request.completedBefore)
    && WellFormed(input, request.messages, completed[..request.completedBefore])
  }

  ghost predicate RequestsPaired(input: seq<Message>, s: State) {
    forall i :: 0 <= i < |s.requests| ==> Asked(input, s.requests[i], s.completed)
  }

  lemma AskedLater(input: seq<Message>, request: Request, completed: seq<ToolCall>, more: seq<ToolCall>)
    requires Asked(input, request, completed)
    ensures Asked(input, request, completed + more)
  {
    hide WellFormed;
    var n := request.completedBefore;
    assert (completed + more)[..n] == completed[..n];
  }

  lemma RequestsLater(input: seq<Message>, s: State, t: State, more: seq<ToolCall>)
    requires RequestsPaired(input, s) && t.requests == s.requests && t.completed == s.completed + more
    ensures RequestsPaired(input, t)
  {
    hide Asked;
    forall i | 0 <= i < |t.requests| ensures Asked(input, t.requests[i], t.completed) {
      AskedLater(input, s.requests[i], s.completed, more);
    }
  }

  lemma ExtendsAppend(input: seq<Message>, messages: seq<Message>, block: seq<Message>)
    requires Extends(input, messages)
    ensures |input| <= |messages| && Extends(input, messages + block)
    ensures (messages + block)[|input|..] == messages[|input|..] + block
  {
  }

  /** A completed batch adds one complete block, which records exactly the calls that were executed. */
  lemma BlockAdded(
    cfg: Config, input: seq<Message>, s: State, content: string, calls: seq<ToolCall>, batch: Batch)
    requires WellFormed(input, s.messages, s.completed) && calls != []
    requires s.messages + [Assistant(content, Some(calls))] <= batch.messages
    requires batch.completed == calls
    requires AnswersAll(calls, batch.messages[|s.messages| + 1..])
    ensures WellFormed(input, batch.messages, s.completed + calls)
  {
    hide Paired, RecordedCalls, AnswersAll, Extends;
    var results := batch.messages[|s.messages| + 1..];
    var block := [Assistant(content, Some(calls))] + results;
    assert batch.messages == s.messages + block;
    ExtendsAppend(input, s.messages, block);
    var past := s.messages[|input|..];
    BlockPaired(content, calls, results);
    PairedAppend(past, block);
    RecordedAppend(past, block);
  }

  lemma ActPaired(cfg: Config, input: seq<Message>, s: State, content: string, raw: seq<ToolCall>)
    requires Echoes(cfg.services) && IdsNameCalls(raw) && raw != []
    requires WellFormed(input, s.messages, s.completed) && RequestsPaired(input, s)
    requires s.turnKind == KindAfter(|s.completed|)
    ensures var (next, ending) := Act(cfg, s, content, raw);
      && RequestsPaired(input, next)
      && (ending.None? ==>
            WellFormed(input, next.messages, next.completed) && next.turnKind == KindAfter(|next.completed|))
  {
    hide WellFormed, RunCalls, AnswersAll, Echoes, IdsNameCalls, RequestsPaired, ExecuteToolCalls, Corrected;
    var user := LatestUserContent(s.messages);
    var calls := RewriteAll(cfg.services.heuristics, user, raw);
    ExecutesRewritten(cfg.services, raw, s.messages, content, s.streak);
    RecordedAsExecuted(cfg.services.heuristics, user, raw);
    var started := s.messages + [Assistant(content, Some(calls))];
    BatchAnswers(cfg.services, calls, started, s.streak);
    var batch := RunCalls(cfg.services, calls, started, s.streak);
    var (next, ending) := Act(cfg, s, content, raw);
    RequestsLater(input, s, next, batch.completed);
    if ending.None? {
      BlockAdded(cfg, input, s, content, calls, batch);
    }
  }

  lemma AskPaired(cfg: Config, input: seq<Message>, s: State)
    requires Dependable(cfg)
    requires WellFormed(input, s.messages, s.completed) && RequestsPaired(input, s)
    requires s.turnKind == KindAfter(|s.completed|)
    ensures var (next, ending) := Ask(cfg, s);
      && RequestsPaired(input, next)
      && (ending.None? ==>
            WellFormed(input, next.messages, next.completed) && next.turnKind == KindAfter(|next.completed|))
  {
    hide Act, WellFormed, Echoes, IdsNameCalls;
    var t := s.(requests := s.requests + [Request(s.messages, s.turnKind, |s.completed|)]);
    assert s.completed[..|s.completed|] == s.completed;
    assert Asked(input, Request(s.messages, s.turnKind, |s.completed|), s.completed);
    assert RequestsPaired(input, t);
    var reply := cfg.model.chat(s.messages, s.turnKind);
    if reply.Some? {
      var used := reply.value.inputTokens + reply.value.outputTokens;
      var u := t.(totalTokens := t.totalTokens + used, usages := t.usages + [used]);
      assert u.completed + [] == u.completed;
      RequestsLater(input, t, u, []);
      if reply.value.toolCalls.Some? && reply.value.toolCalls.value != [] {
        ActPaired(cfg, input, u, reply.value.content, reply.value.toolCalls.value);
      }
    }
  }

  lemma TurnPaired(cfg: Config, input: seq<Message>, s: State)
    requires Dependable(cfg)
    requires WellFormed(input, s.messages, s.completed) && RequestsPaired(input, s)
    requires s.turnKind == KindAfter(|s.completed|)
    ensures var (next, ending) := Turn(cfg, BasePrompt(input), s);
      && RequestsPaired(input, next)
      && (ending.None? ==>
            WellFormed(input, next.messages, next.completed) && next.turnKind == KindAfter(|next.completed|))
  {
    hide Ask, Paired, RecordedCalls, Dependable, Asked;
    var base := BasePrompt(input);
    if s.turnCount < cfg.TurnBound() {
      var t := s.(turnCount := s.turnCount + 1);
      if cfg.rebuildsContext && base.Some? && s.messages != [] {
        var prompt := cfg.model.buildContext(t.turnCount, base.value);
        if prompt.Some? {
          t := t.(messages := t.messages[0 := System(prompt.value)]);
          assert t.messages[|input|..] == s.messages[|input|..];
        }
      }
      AskPaired(cfg, input, t);
    }
  }

  lemma {:induction false} RunPaired(cfg: Config, input: seq<Message>, s: State)
    requires Dependable(cfg)
    requires WellFormed(input, s.messages, s.completed) && RequestsPaired(input, s)
    requires s.turnKind == KindAfter(|s.completed|)
    ensures var (final, ending) := Run(cfg, BasePrompt(input), s);
      RequestsPaired(input, final)
    decreases cfg.TurnBound() - s.turnCount
  {
    hide Turn, WellFormed, RequestsPaired, Dependable;
    var (next, ending) := Turn(cfg, BasePrompt(input), s);
    TurnPaired(cfg, input, s);
    RunStep(cfg, BasePrompt(input), s);
    if ending.None? {
      TurnAdvances(cfg, BasePrompt(input), s);
      RunPaired(cfg, input, next);
    }
  }

  /**
   * At every model call of every run, the turn is the user's until a tool call is completed, the transcript past
   * the input consists of complete blocks - one assistant message with its calls, then their results in order -
   * and the calls it records are exactly the calls executed so far.
   */
  lemma LoopTranscript(cfg: Config, input: seq<Message>)
    requires Dependable(cfg)
    ensures var (final, ending) := Run(cfg, BasePrompt(input), Initial(cfg, input));
      RequestsPaired(input, final)
  {
    assert input[|input|..] == [];
    RunPaired(cfg, input, Initial(cfg, input));
  }

  // ----- Raw tool output -----

  lemma ActHidden(cfg: Config, other: Services, s: State, content: string, raw: seq<ToolCall>)
    requires SameFaces(cfg.services, other)
    ensures Act(cfg, s, content, raw) == Act(cfg.(services := other), s, content, raw)
  {
    var calls := RewriteAll(cfg.services.heuristics, LatestUserContent(s.messages), raw);
    assert cfg.services.heuristics == other.heuristics;
    hide RunCalls, RewriteAll, LatestUserContent, SameFaces;
    ExecutesRewritten(cfg.services, raw, s.messages, content, s.streak);
    ExecutesRewritten(other, raw, s.messages, content, s.streak);
    var recorded := Corrected(calls, calls, Recorrected(other.heuristics, LatestUserContent(s.messages), calls));
    RawOutputHidden(cfg.services, other, calls, s.messages + [Assistant(content, Some(recorded))], s.streak);
  }

  lemma TurnHidden(cfg: Config, other: Services, base: Option<string>, s: State)
    requires SameFaces(cfg.services, other)
    ensures Turn(cfg, base, s) == Turn(cfg.(services := other), base, s)
  {
    hide Act, SameFaces;
    forall t: State, content, raw ensures Act(cfg, t, content, raw) == Act(cfg.(services := other), t, content, raw) {
      ActHidden(cfg, other, t, content, raw);
    }
  }

  /**
   * No run of the loop depends on what scanning and redacting take out of a tool's output: with another router
   * of the same faces the model sees the same transcripts, the same calls are made, and the run ends the same way.
   */
  lemma {:induction false} RunsSeeNoRawOutput(cfg: Config, other: Services, base: Option<string>, s: State)
    requires SameFaces(cfg.services, other)
    ensures Run(cfg, base, s) == Run(cfg.(services := other), base, s)
    decreases cfg.TurnBound() - s.turnCount
  {
    hide Turn, SameFaces;
    var blind := cfg.(services := other);
    var (next, ending) := Turn(cfg, base, s);
    TurnHidden(cfg, other, base, s);
    RunStep(cfg, base, s);
    RunStep(blind, base, s);
    if ending.None? {
      TurnAdvances(cfg, base, s);
      RunsSeeNoRawOutput(cfg, other, base, next);
    }
  }
}
