/** The agent loop's tool calls: rewriting, recording in the transcript, execution and the blocked streak. */
module ToolCalls {
  import Json
  import opened Wrappers

  /** An argument is a parsed JSON value, or a member inherited from the alias table's prototype. */
  datatype Argument = Plain(value: Json.Value) | Inherited(member: string)

  datatype ToolCall = ToolCall(id: string, name: string, arguments: map<string, Argument>)

  datatype Message =
    | System(content: string)
    | User(content: string)
    | Assistant(content: string, toolCalls: Option<seq<ToolCall>>)
    | Tool(toolCallId: string, name: string, content: string)

  datatype Assignment = Assignment(assistantName: string, userName: string)

  /** The text heuristics of the identity guard, as arbitrary functions. */
  datatype Heuristics = Heuristics(
    assignmentIn: string -> Option<Assignment>,
    attributesAssistantNameToUser: (string, string) -> bool
  )

  datatype ToolResult = ToolResult(toolCallId: string, content: string)

  datatype Scan = Scan(sanitized: string, blockedThreat: bool)

  /**
   * Verifier, router, scanner, redactor and meta verifier. The router answers by the transcript so far,
   * which grows with every call, so that any run of a router with a memory is a run of one of these;
   * None stands for an exception.
   */
  datatype Services = Services(
    heuristics: Heuristics,
    allows: ToolCall -> bool,
    refusal: ToolCall -> string,
    execute: (seq<Message>, ToolCall) -> Option<ToolResult>,
    trustsOutputOf: ToolCall -> bool,
    scan: (ToolCall, bool, string) -> Scan,
    redact: string -> string,
    metaHolds: (ToolCall, string, bool, bool) -> bool
  )

  // ----- Rewriting a call -----

  function ShortToolName(name: string): string {
    if name == "" then ""
    else if name[|name| - 1] == '/' then ""
    else ShortToolName(name[..|name| - 1]) + [name[|name| - 1]]
  }

  const OBJECT_MEMBERS: set<string> := {
    "constructor", "hasOwnProperty", "isPrototypeOf", "propertyIsEnumerable", "toLocaleString", "toString",
    "valueOf", "__defineGetter__", "__defineSetter__", "__lookupGetter__", "__lookupSetter__", "__proto__"
  }

  /** Looking a tier up in the alias table, an object literal with the usual prototype. */
  function CanonicalTier(tier: string): Option<Argument> {
    if tier == "short" then Some(Plain(Json.Str("working")))
    else if tier == "long" then Some(Plain(Json.Str("semantic")))
    else if tier in OBJECT_MEMBERS then Some(Inherited(tier))
    else None
  }

  predicate StoresMemory(call: ToolCall) {
    ShortToolName(call.name) == "memory_store"
  }

  function TextArgument(call: ToolCall, key: string): Option<string> {
    if key in call.arguments && call.arguments[key].Plain? && call.arguments[key].value.Str?
    then Some(call.arguments[key].value.s)
    else None
  }

  predicate TierRewritten(call: ToolCall) {
    StoresMemory(call) && TextArgument(call, "tier").Some? && CanonicalTier(TextArgument(call, "tier").value).Some?
  }

  function NormalizeTier(call: ToolCall): ToolCall {
    if TierRewritten(call)
    then call.(arguments := call.arguments["tier" := CanonicalTier(TextArgument(call, "tier").value).value])
    else call
  }

  function LatestUserContent(messages: seq<Message>): Option<string> {
    if messages == [] then None
    else if messages[|messages| - 1].User? then Some(messages[|messages| - 1].content)
    else LatestUserContent(messages[..|messages| - 1])
  }

  function IdentityNote(names: Assignment): string {
    "助手身份：用户指定 Quilin Agent 为" + names.assistantName + "。用户称呼偏好：用户希望被称呼为" + names.userName + "。"
  }

  predicate IdentityRewritten(h: Heuristics, user: Option<string>, call: ToolCall) {
    && StoresMemory(call)
    && TextArgument(call, "content").Some?
    && user.Some?
    && h.assignmentIn(user.value).Some?
    && h.attributesAssistantNameToUser(
         TextArgument(call, "content").value, h.assignmentIn(user.value).value.assistantName)
  }

  function CorrectIdentity(h: Heuristics, user: Option<string>, call: ToolCall): ToolCall {
    if IdentityRewritten(h, user, call)
    then
      var note := IdentityNote(h.assignmentIn(user.value).value);
      call.(arguments := call.arguments["content" := Plain(Json.Str(note))])
    else call
  }

  function Rewrite(h: Heuristics, user: Option<string>, call: ToolCall): ToolCall {
    CorrectIdentity(h, user, NormalizeTier(call))
  }

  /** Both rewritings are idempotent together, and neither touches the id, the name or another argument. */
  lemma RewriteIdempotent(h: Heuristics, user: Option<string>, call: ToolCall)
    ensures var once := Rewrite(h, user, call);
      && !TierRewritten(once)
      && Rewrite(h, user, once) == once
      && once.id == call.id && once.name == call.name
      && once.arguments - {"tier", "content"} == call.arguments - {"tier", "content"}
  {
    var normal := NormalizeTier(call);
    assert "tier" in OBJECT_MEMBERS ==> false;
    assert !TierRewritten(normal) by {
      if TierRewritten(call) {
        assert "tier" in normal.arguments;
      }
    }
    var once := CorrectIdentity(h, user, normal);
    assert TextArgument(once, "tier") == TextArgument(normal, "tier");
    if IdentityRewritten(h, user, normal) {
      assert once.arguments["content" := once.arguments["content"]] == once.arguments;
    }
  }

  function NormalizeTiers(calls: seq<ToolCall>): (r: seq<ToolCall>)
    ensures |r| == |calls|
    ensures forall k :: 0 <= k < |calls| ==> r[k] == NormalizeTier(calls[k])
  {
    seq(|calls|, k requires 0 <= k < |calls| => NormalizeTier(calls[k]))
  }

  function CorrectIdentities(h: Heuristics, user: Option<string>, calls: seq<ToolCall>): (r: seq<ToolCall>)
    ensures |r| == |calls|
    ensures forall k :: 0 <= k < |calls| ==> r[k] == CorrectIdentity(h, user, calls[k])
  {
    seq(|calls|, k requires 0 <= k < |calls| => CorrectIdentity(h, user, calls[k]))
  }

  function RewriteAll(h: Heuristics, user: Option<string>, calls: seq<ToolCall>): (r: seq<ToolCall>)
    ensures |r| == |calls|
    ensures forall k :: 0 <= k < |calls| ==> r[k] == Rewrite(h, user, calls[k])
  {
    CorrectIdentities(h, user, NormalizeTiers(calls))
  }

  /** The ids of the calls a pass rewrites, in order: the ids of its corrections. */
  function IdsWhere(p: ToolCall -> bool, calls: seq<ToolCall>): (ids: seq<string>)
    ensures forall id <- ids :: exists k :: 0 <= k < |calls| && p(calls[k]) && calls[k].id == id
    ensures forall k :: 0 <= k < |calls| && p(calls[k]) ==> calls[k].id in ids
  {
    if calls == [] then []
    else
      var rest := IdsWhere(p, calls[1..]);
      assert calls == [calls[0]] + calls[1..];
      if p(calls[0]) then [calls[0].id] + rest else rest
  }

  // ----- Recording corrections in the transcript -----

  predicate HasId(calls: seq<ToolCall>, id: string) {
    exists k :: 0 <= k < |calls| && calls[k].id == id
  }

  predicate Carries(message: Message, id: string) {
    message.Assistant? && message.toolCalls.Some? && HasId(message.toolCalls.value, id)
  }

  function Patch(calls: seq<ToolCall>, updated: ToolCall): (r: seq<ToolCall>)
    ensures |r| == |calls|
    ensures forall k :: 0 <= k < |calls| ==> r[k] == if calls[k].id == updated.id then updated else calls[k]
  {
    seq(|calls|, k requires 0 <= k < |calls| => if calls[k].id == updated.id then updated else calls[k])
  }

  function WithPatch(message: Message, updated: ToolCall): Message
    requires Carries(message, updated.id)
  {
    message.(toolCalls := Some(Patch(message.toolCalls.value, updated)))
  }

  /** Only the last assistant message carrying the id changes. */
  function Replaced(messages: seq<Message>, updated: ToolCall): seq<Message>
    decreases |messages|
  {
    if messages == [] then []
    else
      var last := messages[|messages| - 1];
      if Carries(last, updated.id)
      then messages[..|messages| - 1] + [WithPatch(last, updated)]
      else Replaced(messages[..|messages| - 1], updated) + [last]
  }

  /** The last carrier is rewritten in place and every other message stays as it was. */
  lemma {:induction false} ReplacedAt(messages: seq<Message>, updated: ToolCall, index: nat)
    requires index < |messages| && Carries(messages[index], updated.id)
    requires forall j :: index < j < |messages| ==> !Carries(messages[j], updated.id)
    ensures Replaced(messages, updated) == messages[index := WithPatch(messages[index], updated)]
    decreases |messages|
  {
    hide Carries, WithPatch;
    var init := messages[..|messages| - 1];
    if index < |messages| - 1 {
      ReplacedAt(init, updated, index);
    }
  }

  lemma {:induction false} ReplacedNowhere(messages: seq<Message>, updated: ToolCall)
    requires forall j :: 0 <= j < |messages| ==> !Carries(messages[j], updated.id)
    ensures Replaced(messages, updated) == messages
    decreases |messages|
  {
    hide Carries, WithPatch;
    if messages != [] {
      ReplacedNowhere(messages[..|messages| - 1], updated);
    }
  }

  function FirstWithId(calls: seq<ToolCall>, id: string): (r: Option<ToolCall>)
    ensures r.Some? ==> r.value in calls && r.value.id == id
    ensures r.None? ==> forall call <- calls :: call.id != id
  {
    if calls == [] then None
    else if calls[0].id == id then Some(calls[0])
    else FirstWithId(calls[1..], id)
  }

  function ApplyCorrections(messages: seq<Message>, calls: seq<ToolCall>, ids: seq<string>): seq<Message>
    decreases |ids|
  {
    if ids == [] then messages
    else
      var found := FirstWithId(calls, ids[0]);
      ApplyCorrections(if found.Some? then Replaced(messages, found.value) else messages, calls, ids[1..])
  }

  class Transcript {
    var messages: seq<Message>

    constructor (messages: seq<Message>)
      ensures this.messages == messages
    {
      this.messages := messages;
    }

    method ReplaceAssistantToolCall(updated: ToolCall)
      modifies this
      ensures messages == Replaced(old(messages), updated)
    {
      hide Replaced, Carries;
      var index := |messages| - 1;
      while index >= 0
        invariant -1 <= index < |messages|
        invariant messages == old(messages)
        invariant forall j :: index < j < |messages| ==> !Carries(messages[j], updated.id)
      {
        if Carries(messages[index], updated.id) {
          ReplacedAt(messages, updated, index);
          messages := messages[index := WithPatch(messages[index], updated)];
          return;
        }
        index := index - 1;
      }
      ReplacedNowhere(messages, updated);
    }

    method ApplyAll(calls: seq<ToolCall>, ids: seq<string>)
      modifies this
      ensures messages == ApplyCorrections(old(messages), calls, ids)
    {
      var k := 0;
      while k < |ids|
        invariant 0 <= k <= |ids|
        invariant ApplyCorrections(old(messages), calls, ids) == ApplyCorrections(messages, calls, ids[k..])
      {
        var found := FirstWithId(calls, ids[k]);
        assert ids[k..][1..] == ids[k + 1..];
        if found.Some? {
          ReplaceAssistantToolCall(found.value);
        }
        k := k + 1;
      }
    }
  }

  /** What the recorded calls of a message become once the given ids are corrected. */
  function Corrected(recorded: seq<ToolCall>, calls: seq<ToolCall>, ids: seq<string>): (r: seq<ToolCall>)
    ensures |r| == |recorded|
  {
    seq(|recorded|, k requires 0 <= k < |recorded| =>
      if recorded[k].id in ids && FirstWithId(calls, recorded[k].id).Some?
      then FirstWithId(calls, recorded[k].id).value
      else recorded[k])
  }

  lemma {:induction false} CorrectionsPatchLast(
    before: seq<Message>, content: string, recorded: seq<ToolCall>, calls: seq<ToolCall>, ids: seq<string>)
    requires forall k :: 0 <= k < |ids| ==> HasId(recorded, ids[k])
    ensures ApplyCorrections(before + [Assistant(content, Some(recorded))], calls, ids)
         == before + [Assistant(content, Some(Corrected(recorded, calls, ids)))]
    decreases |ids|
  {
    var messages := before + [Assistant(content, Some(recorded))];
    if ids == [] {
      assert Corrected(recorded, calls, ids) == recorded;
    } else {
      var found := FirstWithId(calls, ids[0]);
      if found.None? {
        CorrectionsPatchLast(before, content, recorded, calls, ids[1..]);
        assert Corrected(recorded, calls, ids[1..]) == Corrected(recorded, calls, ids);
      } else {
        var patched := Patch(recorded, found.value);
        assert messages[..|messages| - 1] == before;
        assert HasId(recorded, ids[0]);
        assert Replaced(messages, found.value) == before + [Assistant(content, Some(patched))];
        forall j | 0 <= j < |ids| - 1 ensures HasId(patched, ids[1..][j]) {
          assert HasId(recorded, ids[j + 1]);
          var k :| 0 <= k < |recorded| && recorded[k].id == ids[j + 1];
          assert patched[k].id == ids[j + 1];
        }
        CorrectionsPatchLast(before, content, patched, calls, ids[1..]);
        assert Corrected(patched, calls, ids[1..]) == Corrected(recorded, calls, ids);
      }
    }
  }

  // ----- Executing the calls -----

  datatype Stop = RouterThrew | MetaViolated | StreakAborted

  datatype Step = Appended(message: Message, blocked: bool) | Threw(stop: Stop)

  /** One call: verified, executed or refused, scanned, redacted and checked by the meta verifier. */
  function Process(sv: Services, messages: seq<Message>, call: ToolCall): Step {
    var allowed := sv.allows(call);
    var result := if allowed then sv.execute(messages, call) else Some(ToolResult(call.id, sv.refusal(call)));
    if result.None? then Threw(RouterThrew)
    else
      var candidate := allowed && sv.trustsOutputOf(call);
      var scan := sv.scan(call, candidate, result.value.content);
      var content := sv.redact(scan.sanitized);
      if !sv.metaHolds(call, content, candidate && !scan.blockedThreat, scan.blockedThreat)
      then Threw(MetaViolated)
      else Appended(Tool(result.value.toolCallId, call.name, content), !allowed || scan.blockedThreat)
  }

  /** The transcript after a batch of calls, the streak, which calls were completed and how, and why it stopped. */
  datatype Batch = Batch(
    messages: seq<Message>, streak: nat, completed: seq<ToolCall>, blocked: seq<bool>, stop: Option<Stop>)

  function RunCalls(sv: Services, calls: seq<ToolCall>, messages: seq<Message>, streak: nat): Batch
    decreases |calls|
  {
    if calls == [] then Batch(messages, streak, [], [], None)
    else
      match Process(sv, messages, calls[0])
      case Threw(stop) => Batch(messages, streak, [], [], Some(stop))
      case Appended(message, blocked) =>
        var next := if blocked then streak + 1 else 0;
        if next >= 3 then Batch(messages + [message], next, [calls[0]], [blocked], Some(StreakAborted))
        else
          var rest := RunCalls(sv, calls[1..], messages + [message], next);
          rest.(completed := [calls[0]] + rest.completed, blocked := [blocked] + rest.blocked)
  }

  function ExecuteToolCalls(sv: Services, toolCalls: seq<ToolCall>, messages: seq<Message>, streak: nat): Batch {
    var normal := NormalizeTiers(toolCalls);
    var tiered := ApplyCorrections(messages, normal, IdsWhere(TierRewritten, toolCalls));
    var user := LatestUserContent(tiered);
    var calls := CorrectIdentities(sv.heuristics, user, normal);
    var corrected := IdsWhere(call => IdentityRewritten(sv.heuristics, user, call), normal);
    RunCalls(sv, calls, ApplyCorrections(tiered, calls, corrected), streak)
  }

  /** The batch that a part already done and the outcome of the rest make together. */
  function Resumed(completed: seq<ToolCall>, blocked: seq<bool>, rest: Batch): Batch {
    rest.(completed := completed + rest.completed, blocked := blocked + rest.blocked)
  }

  lemma ResumedTwice(
    completed: seq<ToolCall>, blocked: seq<bool>, call: ToolCall, wasBlocked: bool, rest: Batch)
    ensures Resumed(completed, blocked, Resumed([call], [wasBlocked], rest))
         == Resumed(completed + [call], blocked + [wasBlocked], rest)
  {
    assert completed + ([call] + rest.completed) == completed + [call] + rest.completed;
    assert blocked + ([wasBlocked] + rest.blocked) == blocked + [wasBlocked] + rest.blocked;
  }

  lemma RunCallsStep(
    sv: Services, calls: seq<ToolCall>, messages: seq<Message>, streak: nat, message: Message, blocked: bool)
    requires calls != [] && Process(sv, messages, calls[0]) == Appended(message, blocked)
    requires var next := if blocked then streak + 1 else 0; next < 3
    ensures RunCalls(sv, calls, messages, streak)
         == Resumed([calls[0]], [blocked],
                    RunCalls(sv, calls[1..], messages + [message], if blocked then streak + 1 else 0))
  {
    hide Process;
  }

  method RunAll(sv: Services, transcript: Transcript, calls: seq<ToolCall>, carried: nat)
    returns (streak: nat, completed: seq<ToolCall>, blocked: seq<bool>, stop: Option<Stop>)
    modifies transcript
    ensures RunCalls(sv, calls, old(transcript.messages), carried)
         == Batch(transcript.messages, streak, completed, blocked, stop)
  {
    hide Process;
    streak, completed, blocked, stop := carried, [], [], None;
    ghost var whole := RunCalls(sv, calls, transcript.messages, streak);
    assert calls[0..] == calls;
    var k := 0;
    while k < |calls|
      invariant 0 <= k <= |calls|
      invariant stop == None
      invariant whole == Resumed(completed, blocked, RunCalls(sv, calls[k..], transcript.messages, streak))
    {
      assert calls[k..][1..] == calls[k + 1..];
      match Process(sv, transcript.messages, calls[k]) {
        case Threw(why) =>
          stop := Some(why);
          assert completed + [] == completed && blocked + [] == blocked;
          return;
        case Appended(message, wasBlocked) =>
          ghost var before := transcript.messages;
          var next := if wasBlocked then streak + 1 else 0;
          transcript.messages := transcript.messages + [message];
          if next >= 3 {
            streak, completed, blocked := next, completed + [calls[k]], blocked + [wasBlocked];
            stop := Some(StreakAborted);
            return;
          }
          RunCallsStep(sv, calls[k..], before, streak, message, wasBlocked);
          ResumedTwice(completed, blocked, calls[k], wasBlocked,
                       RunCalls(sv, calls[k + 1..], transcript.messages, next));
          streak, completed, blocked := next, completed + [calls[k]], blocked + [wasBlocked];
      }
      k := k + 1;
    }
    assert completed + [] == completed && blocked + [] == blocked;
  }

  method Execute(sv: Services, transcript: Transcript, toolCalls: seq<ToolCall>, carried: nat)
    returns (streak: nat, completed: seq<ToolCall>, blocked: seq<bool>, stop: Option<Stop>)
    modifies transcript
    ensures ExecuteToolCalls(sv, toolCalls, old(transcript.messages), carried)
         == Batch(transcript.messages, streak, completed, blocked, stop)
  {
    hide RunCalls, ApplyCorrections, IdsWhere, LatestUserContent, IdentityRewritten, TierRewritten;
    hide CorrectIdentity, NormalizeTier;
    var normal := NormalizeTiers(toolCalls);
    transcript.ApplyAll(normal, IdsWhere(TierRewritten, toolCalls));
    var user := LatestUserContent(transcript.messages);
    var calls := CorrectIdentities(sv.heuristics, user, normal);
    transcript.ApplyAll(calls, IdsWhere(call => IdentityRewritten(sv.heuristics, user, call), normal));
    streak, completed, blocked, stop := RunAll(sv, transcript, calls, carried);
  }
}
