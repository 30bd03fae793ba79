/** What the agent loop's tool calls leave behind: paired results, recorded calls and the blocked streak. */
module ToolTranscript {
  import opened Wrappers
  import opened ToolCalls

  // ----- Recorded calls against executed calls -----

  lemma {:induction false} ShortNameOfPlain(name: string)
    requires '/' !in name
    ensures ShortToolName(name) == name
  {
    if name != "" {
      ShortNameOfPlain(name[..|name| - 1]);
    }
  }

  lemma {:induction false} ShortNameOfScoped(scope: string, name: string)
    requires '/' !in name
    ensures ShortToolName(scope + "/" + name) == name
    decreases |name|
  {
    var whole := scope + "/" + name;
    if name == "" {
      assert whole == scope + "/";
    } else {
      assert whole[..|whole| - 1] == scope + "/" + name[..|name| - 1];
      ShortNameOfScoped(scope, name[..|name| - 1]);
    }
  }

  /** The name is that of the tool, alone or under some scope. */
  ghost predicate Names(name: string, tool: string) {
    name == tool || exists scope: string :: name == scope + "/" + tool
  }

  lemma {:induction false} ShortNameIff(name: string, tool: string)
    requires '/' !in tool
    ensures ShortToolName(name) == tool <==> Names(name, tool)
  {
    if name == tool {
      ShortNameOfPlain(name);
    } else if scope: string :| name == scope + "/" + tool {
      ShortNameOfScoped(scope, tool);
    }
    ShortNameIsEnd(name);
    var n := |name| - |ShortToolName(name)|;
    if ShortToolName(name) == tool {
      if n > 0 {
        assert name == name[..n - 1] + "/" + tool;
      } else {
        assert name == name[0..] == tool;
      }
    }
  }

  lemma {:induction false} ShortNameIsEnd(name: string)
    ensures var short := ShortToolName(name);
      && |short| <= |name| && name[|name| - |short|..] == short
      && (|short| < |name| ==> name[|name| - |short| - 1] == '/')
  {
    if name != "" && name[|name| - 1] != '/' {
      ShortNameIsEnd(name[..|name| - 1]);
    }
  }

  /** A text argument of a call. */
  predicate HasText(call: ToolCall, key: string, text: string) {
    key in call.arguments && call.arguments[key] == Plain(Json.Str(text))
  }

  /** The user named both, and the content stored gives the assistant's name to the user. */
  ghost predicate Misattributed(
    h: Heuristics, user: Option<string>, call: ToolCall, names: Assignment, text: string, said: string)
  {
    && Names(call.name, "memory_store") && HasText(call, "content", text)
    && user == Some(said) && h.assignmentIn(said) == Some(names)
    && h.attributesAssistantNameToUser(text, names.assistantName)
  }

  /** A memory store's two legacy tiers get their names; any other tier that is no member of an object stays. */
  lemma TierIs(h: Heuristics, user: Option<string>, call: ToolCall, tier: string)
    requires HasText(call, "tier", tier)
    ensures var once := Rewrite(h, user, call);
      if Names(call.name, "memory_store") && tier == "short" then HasText(once, "tier", "working")
      else if Names(call.name, "memory_store") && tier == "long" then HasText(once, "tier", "semantic")
      else if Names(call.name, "memory_store") && tier in OBJECT_MEMBERS then once.arguments["tier"] == Inherited(tier)
      else HasText(once, "tier", tier)
  {
    hide ShortToolName, IdentityNote, Names, IdentityRewritten;
    ShortNameIff(call.name, "memory_store");
    var normal := NormalizeTier(call);
    assert "short" !in OBJECT_MEMBERS && "long" !in OBJECT_MEMBERS;
    assert TextArgument(call, "tier") == Some(tier);
    assert "tier" in Rewrite(h, user, call).arguments && "tier" in normal.arguments;
    assert Rewrite(h, user, call).arguments["tier"] == normal.arguments["tier"];
  }

  /** A content that gives the assistant's name to the user becomes the note of both names, and no other changes. */
  lemma ContentIs(h: Heuristics, user: Option<string>, call: ToolCall)
    ensures forall names, text, said :: Misattributed(h, user, call, names, text, said) ==>
              HasText(Rewrite(h, user, call), "content", NoteOf(names))
    ensures (forall names, text, said :: !Misattributed(h, user, call, names, text, said)) ==>
              Rewrite(h, user, call) == NormalizeTier(call)
    ensures !Names(call.name, "memory_store") ==> Rewrite(h, user, call) == call
  {
    hide ShortToolName, Names, IdentityNote, NoteOf;
    ShortNameIff(call.name, "memory_store");
    var normal := NormalizeTier(call);
    assert TextArgument(normal, "content") == TextArgument(call, "content");
    assert normal.name == call.name;
    forall names ensures IdentityNote(names) == NoteOf(names) {
      NoteIs(names);
    }
    if IdentityRewritten(h, user, normal) {
      assert Misattributed(h, user, call, h.assignmentIn(user.value).value,
                           TextArgument(call, "content").value, user.value);
    }
  }

  ghost function NoteOf(names: Assignment): string {
    "助手身份：用户指定 Quilin Agent 为" + names.assistantName
    + "。用户称呼偏好：用户希望被称呼为" + names.userName + "。"
  }

  lemma NoteIs(names: Assignment)
    ensures IdentityNote(names) == NoteOf(names)
  {
  }

  function Recorrected(h: Heuristics, user: Option<string>, calls: seq<ToolCall>): seq<string> {
    IdsWhere(call => IdentityRewritten(h, user, call), calls)
  }

  /** Rewriting calls that the loop has already rewritten changes none of them. */
  lemma RewrittenStay(h: Heuristics, user: Option<string>, raw: seq<ToolCall>)
    ensures var calls := RewriteAll(h, user, raw);
      && NormalizeTiers(calls) == calls
      && CorrectIdentities(h, user, calls) == calls
      && IdsWhere(TierRewritten, calls) == []
  {
    var calls := RewriteAll(h, user, raw);
    var ids := IdsWhere(TierRewritten, calls);
    assert ids != [] ==> ids[0] in ids;
    forall k | 0 <= k < |raw|
      ensures !TierRewritten(calls[k]) && Rewrite(h, user, calls[k]) == calls[k]
    {
      RewriteIdempotent(h, user, raw[k]);
    }
  }

  lemma LatestUserSkips(messages: seq<Message>, last: Message)
    requires !last.User?
    ensures LatestUserContent(messages + [last]) == LatestUserContent(messages)
  {
    assert (messages + [last])[..|messages|] == messages;
  }

  /** The second rewriting leaves the executed calls alone; it only re-records the corrected ones. */
  lemma ExecutesRewritten(
    sv: Services, raw: seq<ToolCall>, before: seq<Message>, content: string, streak: nat)
    ensures var user := LatestUserContent(before);
      var calls := RewriteAll(sv.heuristics, user, raw);
      var recorded := Corrected(calls, calls, Recorrected(sv.heuristics, user, calls));
      ExecuteToolCalls(sv, calls, before + [Assistant(content, Some(calls))], streak)
      == RunCalls(sv, calls, before + [Assistant(content, Some(recorded))], streak)
  {
    hide RunCalls, IdentityRewritten, Rewrite;
    var user := LatestUserContent(before);
    var calls := RewriteAll(sv.heuristics, user, raw);
    RewrittenStay(sv.heuristics, user, raw);
    var message := Assistant(content, Some(calls));
    LatestUserSkips(before, message);
    var ids := Recorrected(sv.heuristics, user, calls);
    forall j | 0 <= j < |ids| ensures HasId(calls, ids[j]) {
      assert ids[j] in ids;
    }
    CorrectionsPatchLast(before, content, calls, calls, ids);
  }

  /** The transcript records the executed calls exactly when no other call shares a corrected call's id. */
  lemma RecordedIsExecutedIff(h: Heuristics, user: Option<string>, calls: seq<ToolCall>)
    ensures var ids := Recorrected(h, user, calls);
      Corrected(calls, calls, ids) == calls
      <==> forall k :: 0 <= k < |calls| && calls[k].id in ids ==> FirstWithId(calls, calls[k].id) == Some(calls[k])
  {
    hide Recorrected;
    var ids := Recorrected(h, user, calls);
    var recorded := Corrected(calls, calls, ids);
    forall k | 0 <= k < |calls| && calls[k].id in ids
      ensures recorded[k] == FirstWithId(calls, calls[k].id).value
    {
      assert FirstWithId(calls, calls[k].id).Some?;
    }
    if forall k :: 0 <= k < |calls| && calls[k].id in ids ==> FirstWithId(calls, calls[k].id) == Some(calls[k]) {
      assert forall k :: 0 <= k < |calls| ==> recorded[k] == calls[k];
      assert recorded == calls;
    }
  }

  /** Calls that share an id are the same call, in particular when the ids are distinct. */
  predicate IdsNameCalls(calls: seq<ToolCall>) {
    forall i, j :: 0 <= i < |calls| && 0 <= j < |calls| && calls[i].id == calls[j].id ==> calls[i] == calls[j]
  }

  lemma RecordedAsExecuted(h: Heuristics, user: Option<string>, raw: seq<ToolCall>)
    requires IdsNameCalls(raw)
    ensures var calls := RewriteAll(h, user, raw);
      Corrected(calls, calls, Recorrected(h, user, calls)) == calls
  {
    hide IdentityRewritten, Recorrected;
    var calls := RewriteAll(h, user, raw);
    forall k | 0 <= k < |raw| ensures calls[k].id == raw[k].id {
      RewriteIdempotent(h, user, raw[k]);
    }
    assert IdsNameCalls(calls);
    forall k | 0 <= k < |calls| ensures FirstWithId(calls, calls[k].id) == Some(calls[k]) {
      var first := FirstWithId(calls, calls[k].id);
      assert first.Some?;
      var i :| 0 <= i < |calls| && calls[i] == first.value;
    }
    RecordedIsExecutedIff(h, user, calls);
  }

  const USER_TEXT := "你叫小明，我叫用户叫小明"
  const ASSISTANT_NAME := "小明"
  const USER_NAME := "用户叫小明"

  /**
   * For a user who writes that the assistant is called 小明 and they themselves 用户叫小明, two calls under one
   * id, the first of which stores the corrected note: the transcript then records the first call twice.
   */
  lemma SharedIdMisrecords(h: Heuristics)
    requires h.assignmentIn(USER_TEXT) == Some(Assignment(ASSISTANT_NAME, USER_NAME))
    requires forall before, after {:trigger before + USER_NAME + after} ::
               h.attributesAssistantNameToUser(before + USER_NAME + after, ASSISTANT_NAME)
    ensures
      var note := Plain(Json.Str(IdentityNote(Assignment(ASSISTANT_NAME, USER_NAME))));
      var store := ToolCall("call-1", "memory_store", map["content" := note]);
      var other := ToolCall("call-1", "file_read", map[]);
      var calls := RewriteAll(h, Some(USER_TEXT), [store, other]);
      && calls == [store, other]
      && Corrected(calls, calls, Recorrected(h, Some(USER_TEXT), calls)) == [store, store]
  {
    var names := Assignment(ASSISTANT_NAME, USER_NAME);
    var before := "助手身份：用户指定 Quilin Agent 为" + names.assistantName + "。用户称呼偏好：用户希望被称呼为";
    assert IdentityNote(names) == before + USER_NAME + "。";
    hide IdentityNote;
    NotedTwice(h, USER_TEXT);
  }

  lemma NotedTwice(h: Heuristics, user: string)
    requires h.assignmentIn(user).Some?
    requires h.attributesAssistantNameToUser(
               IdentityNote(h.assignmentIn(user).value), h.assignmentIn(user).value.assistantName)
    ensures
      var note := Plain(Json.Str(IdentityNote(h.assignmentIn(user).value)));
      var store := ToolCall("call-1", "memory_store", map["content" := note]);
      var other := ToolCall("call-1", "file_read", map[]);
      var calls := RewriteAll(h, Some(user), [store, other]);
      && calls == [store, other]
      && Corrected(calls, calls, Recorrected(h, Some(user), calls)) == [store, store]
  {
    hide IdentityNote;
    ShortNameOfPlain("memory_store");
    ShortNameOfPlain("file_read");
    var note := Plain(Json.Str(IdentityNote(h.assignmentIn(user).value)));
    var store := ToolCall("call-1", "memory_store", map["content" := note]);
    var other := ToolCall("call-1", "file_read", map[]);
    assert store.arguments["content" := note] == store.arguments;
    assert NormalizeTier(store) == store && NormalizeTier(other) == other;
    assert CorrectIdentity(h, Some(user), store) == store && CorrectIdentity(h, Some(user), other) == other;
    assert IdentityRewritten(h, Some(user), store);
    hide IdentityRewritten, CorrectIdentity, NormalizeTier, ShortToolName;
    FirstRecordedTwice(h, Some(user), store, other);
  }

  /** Of two calls under one id that rewriting leaves alone, the first one corrected, only the first is recorded. */
  lemma FirstRecordedTwice(h: Heuristics, user: Option<string>, first: ToolCall, second: ToolCall)
    requires first.id == second.id && IdentityRewritten(h, user, first)
    requires Rewrite(h, user, first) == first && Rewrite(h, user, second) == second
    ensures var calls := RewriteAll(h, user, [first, second]);
      calls == [first, second] && Corrected(calls, calls, Recorrected(h, user, calls)) == [first, first]
  {
    hide Rewrite, IdentityRewritten;
    var calls := RewriteAll(h, user, [first, second]);
    assert calls == [first, second];
    assert calls[0].id in Recorrected(h, user, calls);
  }

  lemma {:induction false} ReplacedLength(messages: seq<Message>, updated: ToolCall)
    ensures |Replaced(messages, updated)| == |messages|
    decreases |messages|
  {
    if messages != [] && !Carries(messages[|messages| - 1], updated.id) {
      ReplacedLength(messages[..|messages| - 1], updated);
    }
  }

  lemma {:induction false} CorrectionsLength(messages: seq<Message>, calls: seq<ToolCall>, ids: seq<string>)
    ensures |ApplyCorrections(messages, calls, ids)| == |messages|
    decreases |ids|
  {
    if ids != [] {
      var found := FirstWithId(calls, ids[0]);
      if found.Some? {
        ReplacedLength(messages, found.value);
      }
      CorrectionsLength(if found.Some? then Replaced(messages, found.value) else messages, calls, ids[1..]);
    }
  }

  lemma {:induction false} RunCallsGrows(sv: Services, calls: seq<ToolCall>, messages: seq<Message>, streak: nat)
    ensures messages <= RunCalls(sv, calls, messages, streak).messages
    decreases |calls|
  {
    hide Process;
    if calls != [] && Process(sv, messages, calls[0]).Appended? {
      var Appended(message, blocked) := Process(sv, messages, calls[0]);
      RunCallsGrows(sv, calls[1..], messages + [message], if blocked then streak + 1 else 0);
    }
  }

  /** Executing calls never shortens the transcript. */
  lemma ExecuteGrows(sv: Services, calls: seq<ToolCall>, messages: seq<Message>, streak: nat)
    ensures |ExecuteToolCalls(sv, calls, messages, streak).messages| >= |messages|
  {
    hide RunCalls, ApplyCorrections, IdentityRewritten;
    var normal := NormalizeTiers(calls);
    var tiered := ApplyCorrections(messages, normal, IdsWhere(TierRewritten, calls));
    var user := LatestUserContent(tiered);
    var final := CorrectIdentities(sv.heuristics, user, normal);
    var ids := IdsWhere(call => IdentityRewritten(sv.heuristics, user, call), normal);
    CorrectionsLength(messages, normal, IdsWhere(TierRewritten, calls));
    CorrectionsLength(tiered, final, ids);
    RunCallsGrows(sv, final, ApplyCorrections(tiered, final, ids), streak);
  }

  // ----- One call -----

  /** A refused call never reaches the router: whatever the router would answer, the outcome is the same. */
  lemma RefusedNeverRuns(
    sv: Services, other: (seq<Message>, ToolCall) -> Option<ToolResult>, messages: seq<Message>, call: ToolCall)
    requires !sv.allows(call)
    ensures Process(sv, messages, call) == Process(sv.(execute := other), messages, call)
    ensures Process(sv, messages, call) != Threw(RouterThrew)
    ensures Process(sv, messages, call).Appended? ==> Process(sv, messages, call).blocked
  {
  }

  /** What the router's output for an allowed call looks like once scanned and redacted, and if it was a threat. */
  function Face(sv: Services, messages: seq<Message>, call: ToolCall): Option<(string, string, bool)> {
    var result := sv.execute(messages, call);
    if result.None? then None
    else
      var scan := sv.scan(call, sv.trustsOutputOf(call), result.value.content);
      Some((result.value.toolCallId, sv.redact(scan.sanitized), scan.blockedThreat))
  }

  /** Two routers that differ only in what scanning and redacting take away, and in refused calls. */
  ghost predicate SameFaces(sv: Services, other: Services) {
    && other == sv.(execute := other.execute)
    && forall messages, call :: sv.allows(call) ==> Face(sv, messages, call) == Face(other, messages, call)
  }

  /** The raw output of a tool reaches neither transcript, streak nor outcome of a batch, only its scanned face does. */
  lemma {:induction false} RawOutputHidden(
    sv: Services, other: Services, calls: seq<ToolCall>, messages: seq<Message>, streak: nat)
    requires SameFaces(sv, other)
    ensures RunCalls(sv, calls, messages, streak) == RunCalls(other, calls, messages, streak)
    decreases |calls|
  {
    if calls != [] {
      ProcessHidden(sv, other, messages, calls[0]);
      hide SameFaces, Process;
      match Process(sv, messages, calls[0]) {
        case Threw(_) =>
        case Appended(message, blocked) =>
          RawOutputHidden(sv, other, calls[1..], messages + [message], if blocked then streak + 1 else 0);
      }
    }
  }

  lemma ProcessHidden(sv: Services, other: Services, messages: seq<Message>, call: ToolCall)
    requires SameFaces(sv, other)
    ensures Process(sv, messages, call) == Process(other, messages, call)
  {
    if sv.allows(call) {
      assert Face(sv, messages, call) == Face(other, messages, call);
    }
  }

  /** The user text the guard reads is that of the last user message. */
  lemma {:induction false} LatestUserIs(messages: seq<Message>, i: nat)
    requires i < |messages| && messages[i].User?
    requires forall k :: i < k < |messages| ==> !messages[k].User?
    ensures LatestUserContent(messages) == Some(messages[i].content)
    decreases |messages|
  {
    if i < |messages| - 1 {
      LatestUserIs(messages[..|messages| - 1], i);
    }
  }

  lemma {:induction false} NoUserIff(messages: seq<Message>)
    ensures LatestUserContent(messages).None? <==> forall k :: 0 <= k < |messages| ==> !messages[k].User?
    decreases |messages|
  {
    if messages != [] {
      NoUserIff(messages[..|messages| - 1]);
    }
  }

  // ----- Calls and their results -----

  ghost predicate Echoes(sv: Services) {
    forall messages, call {:trigger sv.execute(messages, call)} ::
      sv.execute(messages, call).Some? ==> sv.execute(messages, call).value.toolCallId == call.id
  }

  predicate Answers(call: ToolCall, message: Message) {
    message.Tool? && message.toolCallId == call.id && message.name == call.name
  }

  predicate AnswersAll(calls: seq<ToolCall>, results: seq<Message>) {
    |results| == |calls| && forall k :: 0 <= k < |calls| ==> Answers(calls[k], results[k])
  }

  /** A concatenation of complete blocks: a message with calls, then their results in the same order. */
  predicate Paired(messages: seq<Message>)
    decreases |messages|
  {
    messages == [] ||
    (&& messages[0].Assistant?
     && messages[0].toolCalls.Some?
     && var calls := messages[0].toolCalls.value;
     && 0 < |calls| < |messages|
     && AnswersAll(calls, messages[1..1 + |calls|])
     && Paired(messages[1 + |calls|..]))
  }

  /** All calls that the assistant messages record, in order. */
  function RecordedCalls(messages: seq<Message>): seq<ToolCall> {
    if messages == [] then []
    else
      (if messages[0].Assistant? && messages[0].toolCalls.Some? then messages[0].toolCalls.value else [])
      + RecordedCalls(messages[1..])
  }

  lemma Associative<T>(a: seq<T>, b: seq<T>, c: seq<T>)
    ensures a + (b + c) == a + b + c
  {
  }

  lemma {:induction false} RecordedAppend(a: seq<Message>, b: seq<Message>)
    ensures RecordedCalls(a + b) == RecordedCalls(a) + RecordedCalls(b)
  {
    if a == [] {
      assert a + b == b;
    } else {
      RecordedAppend(a[1..], b);
      assert (a + b)[1..] == a[1..] + b && (a + b)[0] == a[0];
      Associative(if a[0].Assistant? && a[0].toolCalls.Some? then a[0].toolCalls.value else [],
                  RecordedCalls(a[1..]), RecordedCalls(b));
    }
  }

  lemma {:induction false} ResultsRecordNothing(calls: seq<ToolCall>, results: seq<Message>)
    requires AnswersAll(calls, results)
    ensures RecordedCalls(results) == []
  {
    if results != [] {
      assert Answers(calls[0], results[0]);
      ResultsRecordNothing(calls[1..], results[1..]);
    }
  }

  lemma {:induction false} PairedAppend(a: seq<Message>, b: seq<Message>)
    requires Paired(a) && Paired(b)
    ensures Paired(a + b)
    decreases |a|
  {
    if a == [] {
      assert a + b == b;
    } else {
      hide AnswersAll;
      var n := 1 + |a[0].toolCalls.value|;
      PairedAppend(a[n..], b);
      assert (a + b)[n..] == a[n..] + b;
      assert (a + b)[1..n] == a[1..n] && (a + b)[0] == a[0];
    }
  }

  lemma BlockPaired(content: string, calls: seq<ToolCall>, results: seq<Message>)
    requires calls != [] && AnswersAll(calls, results)
    ensures Paired([Assistant(content, Some(calls))] + results)
    ensures RecordedCalls([Assistant(content, Some(calls))] + results) == calls
  {
    var block := [Assistant(content, Some(calls))] + results;
    assert block[1..] == results;
    assert block[1..1 + |calls|] == results && block[1 + |calls|..] == [];
    ResultsRecordNothing(calls, results);
  }

  lemma AnswersCons(call: ToolCall, calls: seq<ToolCall>, message: Message, results: seq<Message>)
    requires Answers(call, message) && AnswersAll(calls, results)
    ensures AnswersAll([call] + calls, [message] + results)
  {
    hide Answers;
  }

  lemma RunCallsAborts(
    sv: Services, calls: seq<ToolCall>, messages: seq<Message>, streak: nat, message: Message, blocked: bool)
    requires calls != [] && Process(sv, messages, calls[0]) == Appended(message, blocked)
    ensures var next := if blocked then streak + 1 else 0;
      next >= 3 ==> RunCalls(sv, calls, messages, streak)
                    == Batch(messages + [message], next, [calls[0]], [blocked], Some(StreakAborted))
  {
    hide Process;
  }

  /** A batch completes a prefix of the calls, answers each of them in order, and all of them unless it stops. */
  lemma {:induction false} BatchAnswers(sv: Services, calls: seq<ToolCall>, messages: seq<Message>, streak: nat)
    requires Echoes(sv)
    ensures var batch := RunCalls(sv, calls, messages, streak);
      && messages <= batch.messages
      && batch.completed <= calls
      && |batch.blocked| == |batch.completed|
      && AnswersAll(batch.completed, batch.messages[|messages|..])
      && (batch.stop.None? ==> batch.completed == calls)
    decreases |calls|
  {
    hide Process, Answers, AnswersAll, Echoes, RunCalls;
    AnswersNone();
    if calls == [] || Process(sv, messages, calls[0]).Threw? {
      RunCallsEnds(sv, calls, messages, streak);
      assert messages[|messages|..] == [];
    } else {
      var Appended(message, blocked) := Process(sv, messages, calls[0]);
      var next := if blocked then streak + 1 else 0;
      ProcessAnswers(sv, messages, calls[0]);
      AnswersCons(calls[0], [], message, []);
      assert (messages + [message])[|messages|..] == [message] + [] && [calls[0]] + [] == [calls[0]];
      RunCallsAborts(sv, calls, messages, streak, message, blocked);
      if next < 3 {
        RunCallsStep(sv, calls, messages, streak, message, blocked);
        var rest := RunCalls(sv, calls[1..], messages + [message], next);
        BatchAnswers(sv, calls[1..], messages + [message], next);
        var results := rest.messages[|messages| + 1..];
        assert rest.messages[|messages|..] == [message] + results;
        assert calls == [calls[0]] + calls[1..];
        AnswersCons(calls[0], rest.completed, message, results);
      }
    }
  }

  lemma AnswersNone()
    ensures AnswersAll([], [])
  {
  }

  lemma ProcessAnswers(sv: Services, messages: seq<Message>, call: ToolCall)
    requires Echoes(sv)
    ensures Process(sv, messages, call).Appended? ==> Answers(call, Process(sv, messages, call).message)
  {
  }

  lemma RunCallsEnds(sv: Services, calls: seq<ToolCall>, messages: seq<Message>, streak: nat)
    requires calls == [] || Process(sv, messages, calls[0]).Threw?
    ensures var batch := RunCalls(sv, calls, messages, streak);
      && batch.messages == messages && batch.completed == [] && batch.blocked == []
      && (batch.stop.None? ==> calls == [])
  {
    hide Process;
  }

  // ----- The blocked streak -----

  /** The length of the longest blocked suffix. */
  function BlockedSuffix(blocked: seq<bool>): nat {
    if blocked == [] || !blocked[|blocked| - 1] then 0 else 1 + BlockedSuffix(blocked[..|blocked| - 1])
  }

  /** No three results in a row were blocked. */
  predicate Calm(blocked: seq<bool>) {
    forall i :: 0 <= i && i + 2 < |blocked| ==> !(blocked[i] && blocked[i + 1] && blocked[i + 2])
  }

  lemma CalmStep(blocked: seq<bool>, wasBlocked: bool)
    requires Calm(blocked) && BlockedSuffix(blocked) < 3
    ensures var next := if wasBlocked then BlockedSuffix(blocked) + 1 else 0;
      && BlockedSuffix(blocked + [wasBlocked]) == next
      && (Calm(blocked + [wasBlocked]) <==> next < 3)
  {
    var all, n := blocked + [wasBlocked], |blocked|;
    assert all[..n] == blocked;
    if n >= 1 {
      assert blocked[n - 1] ==> BlockedSuffix(blocked) == 1 + BlockedSuffix(blocked[..n - 1]);
      if n >= 2 && blocked[n - 1] {
        assert blocked[..n - 1][n - 2] == blocked[n - 2];
        assert blocked[n - 2] ==> BlockedSuffix(blocked[..n - 1]) == 1 + BlockedSuffix(blocked[..n - 1][..n - 2]);
      }
    }
    if wasBlocked && n >= 2 && blocked[n - 1] && blocked[n - 2] {
      assert all[n - 2] && all[n - 1] && all[n];
    }
  }

  /**
   * The carried counter is the length of the blocked suffix over all turns, and a batch aborts at exactly
   * the first third blocked result in a row.
   */
  lemma {:induction false} StreakExact(
    sv: Services, calls: seq<ToolCall>, messages: seq<Message>, earlier: seq<bool>)
    requires Calm(earlier) && BlockedSuffix(earlier) < 3
    ensures var batch := RunCalls(sv, calls, messages, BlockedSuffix(earlier));
      var all := earlier + batch.blocked;
      && batch.streak == BlockedSuffix(all)
      && (Calm(all) <==> batch.streak < 3)
      && (batch.stop == Some(StreakAborted) <==> !Calm(all))
      && (!Calm(all) ==> batch.blocked != [] && Calm(all[..|all| - 1]))
    decreases |calls|
  {
    var batch := RunCalls(sv, calls, messages, BlockedSuffix(earlier));
    hide Calm, BlockedSuffix;
    if calls == [] || Process(sv, messages, calls[0]).Threw? {
      assert batch.stop != Some(StreakAborted);
      assert earlier + batch.blocked == earlier;
    } else {
      var Appended(message, blocked) := Process(sv, messages, calls[0]);
      hide Process;
      CalmStep(earlier, blocked);
      var next := if blocked then BlockedSuffix(earlier) + 1 else 0;
      assert (earlier + [blocked])[..|earlier|] == earlier;
      if next < 3 {
        RunCallsStep(sv, calls, messages, BlockedSuffix(earlier), message, blocked);
        StreakExact(sv, calls[1..], messages + [message], earlier + [blocked]);
        var rest := RunCalls(sv, calls[1..], messages + [message], next);
        assert earlier + ([blocked] + rest.blocked) == earlier + [blocked] + rest.blocked;
      } else {
        assert earlier + batch.blocked == earlier + [blocked];
      }
    }
  }
}
