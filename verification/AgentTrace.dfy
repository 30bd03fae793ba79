/** Every run of the agent loop, accounted for request by request from what model, context and services answered. */
module AgentTrace {
  import opened Wrappers
  import opened ToolCalls
  import opened ToolTranscript
  import opened ToolBatch
  import opened AgentLoop
  import opened AgentRuns

  function RawCalls(reply: Reply): seq<ToolCall> {
    if reply.toolCalls.Some? then reply.toolCalls.value else []
  }

  predicate WantsMore(reply: Reply) {
    reply.wantsTools && RawCalls(reply) != []
  }

  function ReplyTo(cfg: Config, request: Request): Option<Reply> {
    cfg.model.chat(request.messages, request.turnKind)
  }

  /** The calls of a reply as they are executed. */
  function CallsOf(cfg: Config, request: Request, reply: Reply): seq<ToolCall> {
    RewriteAll(cfg.services.heuristics, LatestUserContent(request.messages), RawCalls(reply))
  }

  /** The transcript with the reply's own content and its calls as they are recorded. */
  function Started(cfg: Config, request: Request, reply: Reply): seq<Message> {
    var calls := CallsOf(cfg, request, reply);
    var ids := Recorrected(cfg.services.heuristics, LatestUserContent(request.messages), calls);
    request.messages + [Assistant(reply.content, Some(Corrected(calls, calls, ids)))]
  }

  /** After a request its reply's calls, from the first on, gave the results entered, and stopped as said. */
  ghost predicate Acted(
    cfg: Config, request: Request, reply: Reply, after: seq<Message>, completed: seq<ToolCall>, blocked: seq<bool>,
    stop: Option<Stop>)
  {
    && request.completedBefore <= |completed| == |blocked|
    && Explained(cfg.services, CallsOf(cfg, request, reply), Started(cfg, request, reply), after,
                 blocked[request.completedBefore..], stop)
    && completed[request.completedBefore..]
       == CallsOf(cfg, request, reply)[..|blocked| - request.completedBefore]
  }

  /** The transcript as it goes out in a turn: with a new system prompt if the context is rebuilt. */
  ghost predicate HeadBuilt(
    cfg: Config, base: Option<string>, turn: int, transcript: seq<Message>, messages: seq<Message>)
  {
    if cfg.rebuildsContext && base.Some? && transcript != [] then
      var prompt := cfg.model.buildContext(turn, base.value);
      prompt.Some? && messages == transcript[0 := System(prompt.value)]
    else messages == transcript
  }

  /** A request leads to the next: its reply's calls were all done, and the transcript they left goes out. */
  ghost predicate LedTo(
    cfg: Config, base: Option<string>, turn: int, request: Request, next: Request,
    completed: seq<ToolCall>, blocked: seq<bool>)
  {
    && ReplyTo(cfg, request).Some? && WantsMore(ReplyTo(cfg, request).value)
    && next.turnKind == ToolResume
    && next.completedBefore <= |completed| == |blocked|
    && exists transcript ::
         && Acted(cfg, request, ReplyTo(cfg, request).value, transcript,
                  completed[..next.completedBefore], blocked[..next.completedBefore], None)
         && HeadBuilt(cfg, base, turn, transcript, next.messages)
  }

  ghost predicate Traced(cfg: Config, base: Option<string>, input: seq<Message>, s: State) {
    && |s.usages| <= |s.requests| <= |s.usages| + 1 && |s.completed| == |s.blocked|
    && (forall k :: 0 <= k < |s.usages| ==>
          Paid(cfg, s.requests[k], s.usages[k]))
    && (s.requests != [] ==>
          && s.requests[0].turnKind == UserTurn && s.requests[0].completedBefore == 0
          && HeadBuilt(cfg, base, cfg.FirstTurnCount() + 1, input, s.requests[0].messages))
    && (forall k :: 0 <= k < |s.requests| - 1 ==>
          LedTo(cfg, base, cfg.FirstTurnCount() + k + 2, s.requests[k], s.requests[k + 1], s.completed, s.blocked))
  }

  /** The usage noted for a request is that of the model's reply to it. */
  ghost predicate Paid(cfg: Config, request: Request, usage: int) {
    var reply := ReplyTo(cfg, request);
    reply.Some? && usage == reply.value.inputTokens + reply.value.outputTokens
  }

  /** Nothing stands in the way of another turn: none has been made, or the calls of the last reply are all done. */
  ghost predicate Ongoing(cfg: Config, input: seq<Message>, s: State) {
    && |s.requests| == |s.usages|
    && if s.requests == [] then s.messages == input && s.completed == []
       else
         var last := s.requests[|s.requests| - 1];
         && ReplyTo(cfg, last).Some? && WantsMore(ReplyTo(cfg, last).value)
         && Acted(cfg, last, ReplyTo(cfg, last).value, s.messages, s.completed, s.blocked, None)
  }

  ghost predicate AtHead(cfg: Config, base: Option<string>, input: seq<Message>, s: State) {
    && Traced(cfg, base, input, s) && Ongoing(cfg, input, s)
    && s.turnCount - cfg.FirstTurnCount() == |s.requests|
    && s.turnKind == (if s.requests == [] then UserTurn else ToolResume)
  }

  /** Each ending, from the model's reply to the last request. */
  ghost predicate EndsFor(cfg: Config, base: Option<string>, input: seq<Message>, s: State, ending: Ending) {
    var turns := s.turnCount - cfg.FirstTurnCount();
    match ending
    case TurnsExceeded => s.turnCount >= cfg.TurnBound() && turns == |s.requests| && Ongoing(cfg, input, s)
    case ContextThrew =>
      && turns == |s.requests| + 1 && Ongoing(cfg, input, s)
      && cfg.rebuildsContext && base.Some? && cfg.model.buildContext(s.turnCount, base.value).None?
    case ModelThrew => turns == |s.requests| > 0 && ReplyTo(cfg, s.requests[|s.requests| - 1]).None?
    case _ =>
      && turns == |s.requests| == |s.usages| > 0
      && var last := s.requests[|s.requests| - 1];
      && ReplyTo(cfg, last).Some?
      && var reply := ReplyTo(cfg, last).value;
      && (s.totalTokens > cfg.TokenBound() <==> ending == TokensExceeded)
      && match ending
         case Answered(content) => !reply.wantsTools && content == reply.content
         case NoToolCalls => reply.wantsTools && RawCalls(reply) == []
         case Stopped(stop) =>
           WantsMore(reply) && Acted(cfg, last, reply, s.messages, s.completed, s.blocked, Some(stop))
         case _ => true
  }

  // ----- One turn -----

  lemma ActExplained(cfg: Config, s: State, request: Request, reply: Reply)
    requires s.messages == request.messages && |s.completed| == |s.blocked| == request.completedBefore
    requires RawCalls(reply) != []
    ensures var (next, ending) := Act(cfg, s, reply.content, RawCalls(reply));
      && s.completed <= next.completed && s.blocked <= next.blocked
      && (ending.Some? ==> ending.value.Stopped?)
      && Acted(cfg, request, reply, next.messages, next.completed, next.blocked,
               if ending.Some? then Some(ending.value.stop) else None)
  {
    hide RunCalls, Explained, RewriteAll, LatestUserContent;
    var calls, user := CallsOf(cfg, request, reply), LatestUserContent(s.messages);
    ExecutesRewritten(cfg.services, RawCalls(reply), s.messages, reply.content, s.streak);
    BatchExplained(cfg.services, calls, Started(cfg, request, reply), s.streak);
    var batch := RunCalls(cfg.services, calls, Started(cfg, request, reply), s.streak);
    var n := request.completedBefore;
    assert (s.blocked + batch.blocked)[n..] == batch.blocked && (s.completed + batch.completed)[n..] == batch.completed;
    BatchSizes(cfg.services, calls, Started(cfg, request, reply), batch);
  }

  lemma LedLater(
    cfg: Config, base: Option<string>, turn: int, request: Request, next: Request,
    completed: seq<ToolCall>, blocked: seq<bool>, more: seq<ToolCall>, moreBlocked: seq<bool>)
    requires LedTo(cfg, base, turn, request, next, completed, blocked) && |more| == |moreBlocked|
    ensures LedTo(cfg, base, turn, request, next, completed + more, blocked + moreBlocked)
  {
    hide Acted, HeadBuilt, WantsMore;
    var n := next.completedBefore;
    assert (completed + more)[..n] == completed[..n] && (blocked + moreBlocked)[..n] == blocked[..n];
  }

  lemma TracedLater(cfg: Config, base: Option<string>, input: seq<Message>, s: State, t: State)
    requires Traced(cfg, base, input, s)
    requires t.requests == s.requests && t.usages == s.usages
    requires s.completed <= t.completed && s.blocked <= t.blocked && |t.completed| == |t.blocked|
    ensures Traced(cfg, base, input, t)
  {
    hide LedTo, HeadBuilt, Paid;
    var more, moreBlocked := t.completed[|s.completed|..], t.blocked[|s.blocked|..];
    assert t.completed == s.completed + more && t.blocked == s.blocked + moreBlocked;
    forall k | 0 <= k < |t.requests| - 1
      ensures LedTo(cfg, base, cfg.FirstTurnCount() + k + 2, t.requests[k], t.requests[k + 1], t.completed, t.blocked)
    {
      LedLater(cfg, base, cfg.FirstTurnCount() + k + 2, s.requests[k], s.requests[k + 1], s.completed, s.blocked,
               more, moreBlocked);
    }
  }

  /** The request of a turn is the next link of the trace. */
  lemma RequestTraced(cfg: Config, base: Option<string>, input: seq<Message>, s: State, messages: seq<Message>)
    requires AtHead(cfg, base, input, s) && HeadBuilt(cfg, base, s.turnCount + 1, s.messages, messages)
    ensures Traced(cfg, base, input, s.(requests := s.requests + [Request(messages, s.turnKind, |s.completed|)]))
  {
    hide HeadBuilt, Paid, Acted, WantsMore;
    var next := Request(messages, s.turnKind, |s.completed|);
    var t := s.(requests := s.requests + [next]);
    var n := |s.requests|;
    if n > 0 {
      var last := s.requests[n - 1];
      assert s.completed[..|s.completed|] == s.completed && s.blocked[..|s.completed|] == s.blocked;
      assert LedTo(cfg, base, s.turnCount + 1, last, next, s.completed, s.blocked);
    }
    hide LedTo;
    forall k | 0 <= k < |t.requests| - 1
      ensures LedTo(cfg, base, cfg.FirstTurnCount() + k + 2, t.requests[k], t.requests[k + 1], t.completed, t.blocked)
    {
      if k < n - 1 {
        assert t.requests[k] == s.requests[k] && t.requests[k + 1] == s.requests[k + 1];
      }
    }
  }

  lemma ReceiveTraced(cfg: Config, base: Option<string>, input: seq<Message>, s: State, reply: Reply)
    requires Traced(cfg, base, input, s) && |s.requests| == |s.usages| + 1
    requires s.turnCount - cfg.FirstTurnCount() == |s.requests|
    requires var last := s.requests[|s.requests| - 1];
      last.messages == s.messages && last.completedBefore == |s.completed| && ReplyTo(cfg, last) == Some(reply)
    ensures var (next, ending) := Receive(cfg, s, reply);
      if ending.None? then AtHead(cfg, base, input, next)
      else Traced(cfg, base, input, next) && EndsFor(cfg, base, input, next, ending.value)
  {
    hide Traced, AtHead, Act, Paid;
    var last := s.requests[|s.requests| - 1];
    var used := reply.inputTokens + reply.outputTokens;
    var t := s.(totalTokens := s.totalTokens + used, usages := s.usages + [used]);
    UsageTraced(cfg, base, input, s, reply);
    if WantsMore(reply) && t.totalTokens <= cfg.TokenBound() {
      ActTraced(cfg, base, input, t, reply);
    }
  }

  lemma UsageTraced(cfg: Config, base: Option<string>, input: seq<Message>, s: State, reply: Reply)
    requires Traced(cfg, base, input, s) && |s.requests| == |s.usages| + 1
    requires ReplyTo(cfg, s.requests[|s.requests| - 1]) == Some(reply)
    ensures var used := reply.inputTokens + reply.outputTokens;
      Traced(cfg, base, input, s.(totalTokens := s.totalTokens + used, usages := s.usages + [used]))
  {
    hide LedTo, HeadBuilt;
  }

  lemma ActTraced(cfg: Config, base: Option<string>, input: seq<Message>, s: State, reply: Reply)
    requires Traced(cfg, base, input, s) && |s.requests| == |s.usages| > 0 && WantsMore(reply)
    requires s.turnCount - cfg.FirstTurnCount() == |s.requests| && s.totalTokens <= cfg.TokenBound()
    requires var last := s.requests[|s.requests| - 1];
      last.messages == s.messages && last.completedBefore == |s.completed| && ReplyTo(cfg, last) == Some(reply)
    ensures var (next, ending) := Act(cfg, s, reply.content, RawCalls(reply));
      if ending.None? then AtHead(cfg, base, input, next)
      else Traced(cfg, base, input, next) && EndsFor(cfg, base, input, next, ending.value)
  {
    hide Traced, Acted, Act, AtHead, EndsFor, ReplyTo;
    var last := s.requests[|s.requests| - 1];
    TracedSizes(cfg, base, input, s);
    assert RawCalls(reply) != [];
    hide WantsMore, RawCalls;
    var (next, ending) := Act(cfg, s, reply.content, RawCalls(reply));
    ActExplained(cfg, s, last, reply);
    ActFrame(cfg, s, reply.content, RawCalls(reply));
    ActSizes(cfg, s, last, reply);
    ActResumes(cfg, s, reply.content, RawCalls(reply));
    TracedLater(cfg, base, input, s, next);
    if ending.None? {
      Heads(cfg, base, input, next, reply);
    } else {
      Stops(cfg, base, input, next, reply, ending.value.stop);
    }
  }

  lemma TracedSizes(cfg: Config, base: Option<string>, input: seq<Message>, s: State)
    requires Traced(cfg, base, input, s)
    ensures |s.completed| == |s.blocked|
  {
    hide LedTo, HeadBuilt, Paid;
  }

  lemma Heads(cfg: Config, base: Option<string>, input: seq<Message>, s: State, reply: Reply)
    requires Traced(cfg, base, input, s) && |s.requests| == |s.usages| > 0 && WantsMore(reply)
    requires s.turnCount - cfg.FirstTurnCount() == |s.requests| && s.turnKind == ToolResume
    requires ReplyTo(cfg, s.requests[|s.requests| - 1]) == Some(reply)
    requires Acted(cfg, s.requests[|s.requests| - 1], reply, s.messages, s.completed, s.blocked, None)
    ensures AtHead(cfg, base, input, s)
  {
    hide Traced, Acted, ReplyTo, WantsMore;
  }

  lemma Stops(cfg: Config, base: Option<string>, input: seq<Message>, s: State, reply: Reply, stop: Stop)
    requires |s.requests| == |s.usages| > 0 && WantsMore(reply) && s.totalTokens <= cfg.TokenBound()
    requires s.turnCount - cfg.FirstTurnCount() == |s.requests|
    requires ReplyTo(cfg, s.requests[|s.requests| - 1]) == Some(reply)
    requires Acted(cfg, s.requests[|s.requests| - 1], reply, s.messages, s.completed, s.blocked, Some(stop))
    ensures EndsFor(cfg, base, input, s, Stopped(stop))
  {
    hide Acted, ReplyTo, WantsMore;
  }

  lemma ActResumes(cfg: Config, s: State, content: string, raw: seq<ToolCall>)
    ensures Act(cfg, s, content, raw).0.turnKind == ToolResume
  {
    hide RewriteAll, LatestUserContent, ExecuteToolCalls;
  }

  lemma ActSizes(cfg: Config, s: State, request: Request, reply: Reply)
    requires s.messages == request.messages && |s.completed| == |s.blocked| == request.completedBefore
    requires RawCalls(reply) != []
    ensures var next := Act(cfg, s, reply.content, RawCalls(reply)).0; |next.completed| == |next.blocked|
  {
    hide Explained, Act;
    ActExplained(cfg, s, request, reply);
  }

  lemma TurnTraced(cfg: Config, base: Option<string>, input: seq<Message>, s: State)
    requires AtHead(cfg, base, input, s)
    ensures var (next, ending) := Turn(cfg, base, s);
      if ending.None? then AtHead(cfg, base, input, next)
      else Traced(cfg, base, input, next) && EndsFor(cfg, base, input, next, ending.value)
  {
    hide Receive, Traced, Acted, LedTo;
    if s.turnCount < cfg.TurnBound() {
      var rebuilds := cfg.rebuildsContext && base.Some? && s.messages != [];
      var prompt := if rebuilds then cfg.model.buildContext(s.turnCount + 1, base.value) else None;
      if rebuilds && prompt.None? {
        SameTrace(cfg, base, input, s, s.turnCount + 1, s.messages);
      } else {
        var messages := if rebuilds then s.messages[0 := System(prompt.value)] else s.messages;
        RequestTraced(cfg, base, input, s, messages);
        var t := s.(requests := s.requests + [Request(messages, s.turnKind, |s.completed|)]);
        SameTrace(cfg, base, input, t, s.turnCount + 1, messages);
        var u := t.(turnCount := s.turnCount + 1, messages := messages);
        var reply := cfg.model.chat(messages, s.turnKind);
        if reply.Some? {
          ReceiveTraced(cfg, base, input, u, reply.value);
        }
      }
    }
  }

  lemma SameTrace(cfg: Config, base: Option<string>, input: seq<Message>, s: State, turn: int, messages: seq<Message>)
    requires Traced(cfg, base, input, s)
    ensures Traced(cfg, base, input, s.(turnCount := turn, messages := messages))
  {
    hide LedTo, HeadBuilt, Paid;
  }

  lemma {:induction false} RunTraced(cfg: Config, base: Option<string>, input: seq<Message>, s: State)
    requires AtHead(cfg, base, input, s)
    ensures var (final, ending) := Run(cfg, base, s);
      Traced(cfg, base, input, final) && EndsFor(cfg, base, input, final, ending)
    decreases cfg.TurnBound() - s.turnCount
  {
    hide Turn, AtHead, Traced, EndsFor;
    var (next, ending) := Turn(cfg, base, s);
    TurnTraced(cfg, base, input, s);
    RunStep(cfg, base, s);
    if ending.None? {
      TurnAdvances(cfg, base, s);
      RunTraced(cfg, base, input, next);
    }
  }

  /**
   * Every run is the chain of requests that its services make of the input: each request carries the transcript that
   * the calls of the reply before it left, each result is explained by router, scanner and redactor, each usage is
   * that of the model's reply, and the ending is the one that the reply to the last request calls for.
   */
  lemma RunsAreTraced(cfg: Config, input: seq<Message>)
    ensures var (final, ending) := Run(cfg, BasePrompt(input), Initial(cfg, input));
      Traced(cfg, BasePrompt(input), input, final) && EndsFor(cfg, BasePrompt(input), input, final, ending)
  {
    RunTraced(cfg, BasePrompt(input), input, Initial(cfg, input));
  }

  /** The reply to the last request, if one was made and the model answered. */
  function LastReply(cfg: Config, s: State): Option<Reply> {
    if s.requests == [] then None else ReplyTo(cfg, s.requests[|s.requests| - 1])
  }

  /** What a run ends with is decided by the model's last reply and the tokens spent, in both directions. */
  lemma EndingIff(cfg: Config, input: seq<Message>, content: string)
    ensures var (final, ending) := Run(cfg, BasePrompt(input), Initial(cfg, input));
      var reply, spent := LastReply(cfg, final), Sum(final.usages);
      && (ending == Answered(content) <==>
            reply.Some? && spent <= cfg.TokenBound() && !reply.value.wantsTools && content == reply.value.content)
      && (ending == NoToolCalls <==>
            reply.Some? && spent <= cfg.TokenBound() && reply.value.wantsTools && RawCalls(reply.value) == [])
      && (ending == TokensExceeded <==> reply.Some? && spent > cfg.TokenBound())
      && (ending == ModelThrew <==> final.requests != [] && reply.None?)
      && (ending == ContextThrew <==> final.turnCount - cfg.FirstTurnCount() > |final.requests|)
  {
    var (final, ending) := Run(cfg, BasePrompt(input), Initial(cfg, input));
    RunsAreTraced(cfg, input);
    LoopBudgets(cfg, input);
    hide Run, Traced, Acted, Sum, Max;
  }
}
