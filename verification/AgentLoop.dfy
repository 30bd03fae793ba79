/** The agent loop: turn and token budgets, transcript growth, and the streak carried across turns. */
module AgentLoop {
  import opened Wrappers
  import opened ToolCalls
  import opened ToolTranscript

  const DEFAULT_MAX_TURNS := 50
  const DEFAULT_MAX_TOTAL_TOKENS := 200_000

  datatype TurnKind = UserTurn | ToolResume

  /** `wantsTools` is the finish reason "tool_calls". */
  datatype Reply = Reply(
    content: string, wantsTools: bool, toolCalls: Option<seq<ToolCall>>, inputTokens: int, outputTokens: int)

  /** The language model with its request assembly, and the context manager; None stands for an exception. */
  datatype Model = Model(
    chat: (seq<Message>, TurnKind) -> Option<Reply>,
    buildContext: (int, string) -> Option<string>
  )

  datatype Config = Config(
    services: Services, model: Model, rebuildsContext: bool,
    maxTurns: Option<int>, maxTotalTokens: Option<int>, initialTurnCount: Option<int>)
  {
    function TurnBound(): int {
      if maxTurns.Some? then maxTurns.value else DEFAULT_MAX_TURNS
    }

    function TokenBound(): int {
      if maxTotalTokens.Some? then maxTotalTokens.value else DEFAULT_MAX_TOTAL_TOKENS
    }

    function FirstTurnCount(): int {
      if initialTurnCount.Some? then initialTurnCount.value else 0
    }
  }

  datatype Ending =
    | Answered(content: string)
    | TurnsExceeded
    | TokensExceeded
    | ContextThrew
    | ModelThrew
    | NoToolCalls
    | Stopped(stop: Stop)

  /** A model call in the run log: transcript, kind of turn, and how many tool calls were completed before it. */
  datatype Request = Request(messages: seq<Message>, turnKind: TurnKind, completedBefore: nat)

  /**
   * The loop's variables, and what its run log has recorded: each model call, the tokens
   * of each reply, the completed tool calls and whether each one's output was blocked.
   */
  datatype State = State(
    turnCount: int, totalTokens: int, turnKind: TurnKind, streak: nat, messages: seq<Message>,
    requests: seq<Request>, usages: seq<int>, completed: seq<ToolCall>, blocked: seq<bool>)

  function BasePrompt(input: seq<Message>): Option<string> {
    if input != [] && input[0].System? then Some(input[0].content) else None
  }

  function Initial(cfg: Config, input: seq<Message>): State {
    State(cfg.FirstTurnCount(), 0, UserTurn, 0, input, [], [], [], [])
  }

  /** Executes the calls of a reply; the assistant message is already part of the transcript by then. */
  function Act(cfg: Config, s: State, content: string, raw: seq<ToolCall>): (State, Option<Ending>) {
    var calls := RewriteAll(cfg.services.heuristics, LatestUserContent(s.messages), raw);
    var batch := ExecuteToolCalls(cfg.services, calls, s.messages + [Assistant(content, Some(calls))], s.streak);
    (s.(turnKind := ToolResume, messages := batch.messages, streak := batch.streak,
        completed := s.completed + batch.completed, blocked := s.blocked + batch.blocked),
     if batch.stop.Some? then Some(Stopped(batch.stop.value)) else None)
  }

  function Receive(cfg: Config, s: State, reply: Reply): (State, Option<Ending>) {
    var used := reply.inputTokens + reply.outputTokens;
    var s := s.(totalTokens := s.totalTokens + used, usages := s.usages + [used]);
    if s.totalTokens > cfg.TokenBound() then (s, Some(TokensExceeded))
    else if !reply.wantsTools then (s, Some(Answered(reply.content)))
    else if reply.toolCalls.None? || reply.toolCalls.value == [] then (s, Some(NoToolCalls))
    else Act(cfg, s, reply.content, reply.toolCalls.value)
  }

  function Ask(cfg: Config, s: State): (State, Option<Ending>) {
    var reply := cfg.model.chat(s.messages, s.turnKind);
    var s := s.(requests := s.requests + [Request(s.messages, s.turnKind, |s.completed|)]);
    if reply.None? then (s, Some(ModelThrew)) else Receive(cfg, s, reply.value)
  }

  /** One turn; None when the loop goes on. */
  function Turn(cfg: Config, base: Option<string>, s: State): (State, Option<Ending>) {
    if s.turnCount >= cfg.TurnBound() then (s, Some(TurnsExceeded))
    else
      var s := s.(turnCount := s.turnCount + 1);
      if !cfg.rebuildsContext || base.None? || s.messages == [] then Ask(cfg, s)
      else
        var prompt := cfg.model.buildContext(s.turnCount, base.value);
        if prompt.None? then (s, Some(ContextThrew))
        else Ask(cfg, s.(messages := s.messages[0 := System(prompt.value)]))
  }

  function Run(cfg: Config, base: Option<string>, s: State): (State, Ending)
    decreases cfg.TurnBound() - s.turnCount
  {
    var (next, ending) := Turn(cfg, base, s);
    if ending.Some? then (next, ending.value) else Run(cfg, base, next)
  }

  lemma RunStep(cfg: Config, base: Option<string>, s: State)
    ensures var (next, ending) := Turn(cfg, base, s);
      Run(cfg, base, s) == if ending.Some? then (next, ending.value) else Run(cfg, base, next)
  {
    hide Turn;
  }

  method RunAgentLoop(cfg: Config, input: seq<Message>) returns (final: State, ending: Ending)
    ensures (final, ending) == Run(cfg, BasePrompt(input), Initial(cfg, input))
  {
    hide Run, RewriteAll, LatestUserContent, ExecuteToolCalls;
    var transcript := new Transcript(input);
    var base := BasePrompt(input);
    var maxTurns, maxTotalTokens := cfg.TurnBound(), cfg.TokenBound();
    var turnCount, totalTokens, turnKind, streak := cfg.FirstTurnCount(), 0, UserTurn, 0;
    var requests: seq<Request>, usages: seq<int> := [], [];
    var completed: seq<ToolCall>, blocked: seq<bool> := [], [];
    ghost var whole := Run(cfg, base, Initial(cfg, input));
    while true
      invariant base.Some? ==> transcript.messages != []
      invariant whole == Run(cfg, base, State(turnCount, totalTokens, turnKind, streak, transcript.messages,
                                              requests, usages, completed, blocked))
      decreases maxTurns - turnCount
    {
      ghost var s := State(turnCount, totalTokens, turnKind, streak, transcript.messages,
                           requests, usages, completed, blocked);
      RunStep(cfg, base, s);
      if turnCount >= maxTurns {
        return State(turnCount, totalTokens, turnKind, streak, transcript.messages,
                     requests, usages, completed, blocked), TurnsExceeded;
      }
      turnCount := turnCount + 1;
      if cfg.rebuildsContext && base.Some? {
        var prompt := cfg.model.buildContext(turnCount, base.value);
        if prompt.None? {
          return State(turnCount, totalTokens, turnKind, streak, transcript.messages,
                       requests, usages, completed, blocked), ContextThrew;
        }
        transcript.messages := transcript.messages[0 := System(prompt.value)];
      }
      requests := requests + [Request(transcript.messages, turnKind, |completed|)];
      var response := cfg.model.chat(transcript.messages, turnKind);
      if response.None? {
        return State(turnCount, totalTokens, turnKind, streak, transcript.messages,
                     requests, usages, completed, blocked), ModelThrew;
      }
      var reply := response.value;
      totalTokens := totalTokens + (reply.inputTokens + reply.outputTokens);
      usages := usages + [reply.inputTokens + reply.outputTokens];
      if totalTokens > maxTotalTokens {
        return State(turnCount, totalTokens, turnKind, streak, transcript.messages,
                     requests, usages, completed, blocked), TokensExceeded;
      }
      if !reply.wantsTools {
        return State(turnCount, totalTokens, turnKind, streak, transcript.messages,
                     requests, usages, completed, blocked), Answered(reply.content);
      }
      if reply.toolCalls.None? || |reply.toolCalls.value| == 0 {
        return State(turnCount, totalTokens, turnKind, streak, transcript.messages,
                     requests, usages, completed, blocked), NoToolCalls;
      }
      var calls := RewriteAll(cfg.services.heuristics, LatestUserContent(transcript.messages), reply.toolCalls.value);
      transcript.messages := transcript.messages + [Assistant(reply.content, Some(calls))];
      ExecuteGrows(cfg.services, calls, transcript.messages, streak);
      var done, outputs, stop;
      streak, done, outputs, stop := Execute(cfg.services, transcript, calls, streak);
      completed, blocked, turnKind := completed + done, blocked + outputs, ToolResume;
      if stop.Some? {
        return State(turnCount, totalTokens, turnKind, streak, transcript.messages,
                     requests, usages, completed, blocked), Stopped(stop.value);
      }
    }
  }
}
