/** What each command of the backend worker does and answers, from its fields. */
module WorkerCommands {
  import opened Wrappers
  import opened StatefulWorker
  import opened StatefulWorkerRuns
  import Json

  // ----- Reading fields -----

  predicate Letter(c: char) {
    'a' <= c <= 'z' || 'A' <= c <= 'Z'
  }

  predicate LetterOrDigit(c: char) {
    Letter(c) || '0' <= c <= '9' || c == '_'
  }

  predicate PythonSpaceCode(code: int) {
    || 9 <= code <= 13 || 28 <= code <= 32 || code == 133 || code == 160 || code == 5760 || 8192 <= code <= 8202
    || code == 8232 || code == 8233 || code == 8239 || code == 8287 || code == 12288
  }

  /** The worker skips a line exactly if it has no characters but Python's white space. */
  lemma SkippedIff(line: string)
    ensures Blank(line) <==> forall c <- line :: PythonSpaceCode(c as int)
  {
    forall c <- line ensures IsPythonSpace(c) <==> PythonSpaceCode(c as int) {
    }
  }

  /** Identifiers begin with a letter and go on with letters, digits and underscores; one line break may follow. */
  ghost predicate Identifies(name: string) {
    exists word: string :: (name == word || name == word + "\n") && PlainWord(word)
  }

  predicate PlainWord(word: string) {
    word != "" && Letter(word[0]) && forall k :: 0 <= k < |word| ==> LetterOrDigit(word[k])
  }

  lemma IdentifierIff(name: string)
    ensures ValidIdentifier(name) <==> Identifies(name)
  {
    hide PlainWord;
    var body := if name != "" && name[|name| - 1] == '\n' then name[..|name| - 1] else name;
    WordIs(body);
    if ValidIdentifier(name) {
      assert name == body || name == body + "\n";
    }
    if word: string :| (name == word || name == word + "\n") && PlainWord(word) {
      WordEndsInInk(word);
      assert word == body;
    }
  }

  lemma WordIs(word: string)
    ensures PlainWord(word) <==> IsWord(word) && word[0] != '_'
  {
    assert forall c :: IsWordCharacter(c) <==> LetterOrDigit(c);
  }

  lemma WordEndsInInk(word: string)
    requires PlainWord(word)
    ensures word != "" && word[|word| - 1] != '\n' && word[0] != '_'
  {
  }

  /** The values that count as false. */
  lemma TruthyIff(v: Json.Value)
    ensures Truthy(v) <==>
              v !in {Json.Null, Json.Number(0), Json.Bool(false), Json.Str(""), Json.Arr([]), Json.Obj(map[])}
  {
  }

  /** A field that is absent, no string, or a string of white space. */
  predicate NoText(fields: map<string, Json.Value>, key: string) {
    key !in fields || !fields[key].Str? || Blank(fields[key].s)
  }

  predicate NoTexts(fields: map<string, Json.Value>, key: string) {
    || key !in fields || !fields[key].Arr?
    || exists k :: 0 <= k < |fields[key].items| && !fields[key].items[k].Str?
  }

  // ----- What is done -----

  lemma ObeyIs<B>(w: World<B>, s: State<B>, command: map<string, Json.Value>)
    ensures NoText(command, "type") ==>
              Obey(w, s, command) == (s, Failed(Failure("tool_args_invalid", "type" + " must be a string")))
    ensures !NoText(command, "type") ==>
              Obey(w, s, command)
              == if command["type"].s == "init_task" then AfterInit(w, s, command)
                 else if command["type"].s == "call_tool" then AfterCall(w, s, command)
                 else if command["type"].s == "snapshot" then (s, TakeSnapshot(w, s))
                 else if command["type"].s == "close" then (New(), Success(Closed))
                 else (s, Failed(Failure("tool_args_invalid", "Unsupported command type: " + command["type"].s)))
    ensures TakeSnapshot(w, s)
         == if s.initialized then Success(Snapshot(s.taskId, w.snapshot(s.instances)))
            else Failed(Failure("tool_runtime_error", "BFCL worker has not received init_task"))
  {
    hide AfterInit, AfterCall, Blank;
  }

  /** A start is refused for the first of its fields that is wrong, and then changes nothing. */
  lemma InitRefused<B>(w: World<B>, s: State<B>, command: map<string, Json.Value>)
    ensures NoText(command, "task_id") ==>
              AfterInit(w, s, command) == (s, Failed(Failure("tool_args_invalid", "task_id" + " must be a string")))
    ensures !NoText(command, "task_id") && NoTexts(command, "involved_classes") ==>
              AfterInit(w, s, command)
              == (s, Failed(Failure("tool_args_invalid", "involved_classes" + " must be a string list")))
    ensures !NoText(command, "task_id") && !NoTexts(command, "involved_classes")
            && "initial_config" in command && !command["initial_config"].Obj? ==>
              AfterInit(w, s, command)
              == (s, Failed(Failure("tool_args_invalid", "initial_config" + " must be an object")))
  {
    hide Blank, CreateAll, Mapped, Truthy;
  }

  /** The report of a creation that did not succeed. */
  ghost predicate Reports<B>(creation: Creation<B>, failure: Failure) {
    match creation
    case Created(_) => false
    case Unusable(message) => failure == Failure("backend_class_not_found", message)
    case Crashed(message) => failure == Failure("tool_runtime_error", message)
  }

  /** The classes created in order, each with the configuration given, up to the first that could not be. */
  ghost predicate CreatedUpTo<B>(
    w: World<B>, names: seq<string>, config: map<string, Json.Value>, longContext: bool, n: nat,
    instances: map<string, B>)
  {
    && n <= |names| && instances.Keys == (set k | 0 <= k < n :: names[k])
    && forall k :: 0 <= k < n ==> w.create(names[k], config, longContext) == Created(instances[names[k]])
  }

  lemma {:induction false} CreateAllIs<B>(
    w: World<B>, names: seq<string>, config: map<string, Json.Value>, longContext: bool, n: nat, s: State<B>)
    returns (done: nat)
    requires n <= |names| && CreatedUpTo(w, names, config, longContext, n, s.instances)
    ensures done <= |names|
    ensures var (t, failure) := CreateAll(w, names[n..], config, longContext, s);
      && CreatedUpTo(w, names, config, longContext, done, t.instances)
      && t == s.(classes := t.classes, instances := t.instances)
      && (failure.None? <==> done == |names|)
      && (failure.Some? ==> done < |names| && Reports(w.create(names[done], config, longContext), failure.value))
    decreases |names| - n
  {
    hide CreatedUpTo;
    done := n;
    if n < |names| {
      assert names[n..][0] == names[n] && names[n..][1..] == names[n + 1..];
      match w.create(names[n], config, longContext) {
        case Created(backend) =>
          var next := s.(classes := if names[n] in s.instances then s.classes else s.classes + [names[n]],
                         instances := s.instances[names[n] := backend]);
          OneMore(w, names, config, longContext, n, s.instances, backend);
          done := CreateAllIs(w, names, config, longContext, n + 1, next);
        case _ =>
      }
    }
  }

  lemma OneMore<B>(
    w: World<B>, names: seq<string>, config: map<string, Json.Value>, longContext: bool, n: nat,
    instances: map<string, B>, backend: B)
    requires CreatedUpTo(w, names, config, longContext, n, instances) && n < |names|
    requires w.create(names[n], config, longContext) == Created(backend)
    ensures CreatedUpTo(w, names, config, longContext, n + 1, instances[names[n] := backend])
  {
    assert (set k | 0 <= k < n + 1 :: names[k]) == (set k | 0 <= k < n :: names[k]) + {names[n]};
  }

  /** Whether the creation is asked for the long context. */
  ghost predicate AsksLong(command: map<string, Json.Value>) {
    && "long_context" in command
    && command["long_context"]
       !in {Json.Null, Json.Number(0), Json.Bool(false), Json.Str(""), Json.Arr([]), Json.Obj(map[])}
  }

  /**
   * A start whose fields are right creates its classes in order with its own configuration. If all could be made, it
   * is ready with exactly them, its tables in step; otherwise it reports the first failure and keeps those before.
   */
  lemma InitDone<B>(w: World<B>, s: State<B>, command: map<string, Json.Value>, names: seq<string>) returns (done: nat)
    requires !NoText(command, "task_id") && !NoTexts(command, "involved_classes")
    requires "initial_config" in command ==> command["initial_config"].Obj?
    requires |names| == |command["involved_classes"].items|
    requires forall k :: 0 <= k < |names| ==> command["involved_classes"].items[k] == Json.Str(names[k])
    ensures var (t, body) := AfterInit(w, s, command);
      var config := if "initial_config" in command then command["initial_config"].fields else map[];
      && t.taskId == Some(command["task_id"].s)
      && CreatedUpTo(w, names, config, AsksLong(command), done, t.instances)
      && (done == |names| ==>
            t.initialized && MapsMethods(w, t) && body == Success(Ready(command["task_id"].s, t.instances.Keys)))
      && (done < |names| ==>
            && t.initialized == s.initialized && t.methodToClass == map[] && t.ambiguousMethods == map[]
            && body.Failed? && Reports(w.create(names[done], config, AsksLong(command)), body.failure))
  {
    var config := if "initial_config" in command then command["initial_config"].fields else map[];
    var cleared: State<B> := State(Some(command["task_id"].s), [], map[], map[], map[], s.initialized);
    assert RequireStrings(Get(command, "involved_classes"), "involved_classes").value == names;
    assert AsksLong(command) <==> "long_context" in command && Truthy(command["long_context"]) by {
      if "long_context" in command {
        TruthyIff(command["long_context"]);
      }
    }
    done := CreateAllIs(w, names, config, AsksLong(command), 0, cleared);
    assert names[0..] == names;
    var (created, failure) := CreateAll(w, names, config, AsksLong(command), cleared);
    MappedMaps(w, created);
    MapsStarted(w, Mapped(w, created));
    hide CreateAll, Mapped, MapsMethods, CreatedUpTo, Truthy, AsksLong, Blank, Reports;
    MappedIs(w, created);
  }

  lemma MapsStarted<B>(w: World<B>, s: State<B>)
    requires MapsMethods(w, s)
    ensures MapsMethods(w, s.(initialized := true))
  {
  }

  lemma MappedIs<B>(w: World<B>, s: State<B>)
    ensures Mapped(w, s).taskId == s.taskId && Mapped(w, s).instances == s.instances
  {
    hide Owners, AllNames;
  }

  /** A call is refused for the first thing that is wrong with it, and then reaches no backend. */
  lemma CallRefused<B>(w: World<B>, s: State<B>, command: map<string, Json.Value>)
    ensures !s.initialized ==>
              AfterCall(w, s, command)
              == (s, Failed(Failure("tool_runtime_error", "BFCL worker has not received init_task")))
    ensures s.initialized && ("call" !in command || !command["call"].Obj?) ==>
              AfterCall(w, s, command) == (s, Failed(Failure("tool_args_invalid", "call" + " must be an object")))
    ensures s.initialized && "call" in command && command["call"].Obj? ==>
              var call := command["call"].fields;
              && (NoText(call, "function") ==>
                    AfterCall(w, s, command)
                    == (s, Failed(Failure("tool_args_invalid", "call.function" + " must be a string"))))
              && (!NoText(call, "function") && "arguments" in call && !call["arguments"].Obj? ==>
                    AfterCall(w, s, command)
                    == (s, Failed(Failure("tool_args_invalid", "call.arguments" + " must be an object"))))
              && (!NoText(call, "function") && ("arguments" in call ==> call["arguments"].Obj?)
                  && Resolve(w, s, call["function"].s).Failed? ==>
                    AfterCall(w, s, command) == (s, Failed(Resolve(w, s, call["function"].s).failure)))
  {
    hide Blank, Resolve, AfterInvoke;
  }

  /** A call that resolves runs the method on its class's instance with the arguments given, if any. */
  lemma CallReaches<B>(w: World<B>, s: State<B>, command: map<string, Json.Value>)
    requires Inv(w, s) && s.initialized && "call" in command && command["call"].Obj?
    requires var call := command["call"].fields;
      && !NoText(call, "function") && ("arguments" in call ==> call["arguments"].Obj?)
      && Resolve(w, s, call["function"].s).Success?
    ensures var call := command["call"].fields;
      var (className, methodName) := Resolve(w, s, call["function"].s).value;
      && className in s.instances
      && var called := w.call(s.instances[className], methodName,
                              if "arguments" in call then call["arguments"].fields else map[]);
      var (t, body) := AfterCall(w, s, command);
      && t == s.(instances := s.instances[className := called.backend])
      && match called
         case Value(_, value) => body == Success(Returned(className, methodName, value, w.snapshot(t.instances)))
         case TypeError(_, message) => body == Failed(Failure("tool_args_invalid", message))
         case Raised(_, message) => body == Failed(Failure("tool_runtime_error", message))
  {
    hide Blank, Resolve;
    ResolvedIsActive(w, s, command["call"].fields["function"].s);
  }

  // ----- Names -----

  /** A name with two dots or more is refused. */
  lemma PathRefused<B>(w: World<B>, s: State<B>, a: string, b: string, c: string)
    ensures var name := a + "." + b + "." + c;
      Resolve(w, s, name) == Failed(Failure("eval_security_violation", "Invalid tool function path: " + name))
  {
    hide ValidIdentifier;
    var name := a + "." + b + "." + c;
    SplitDots(a, b + "." + c);
    SplitDots(b, c);
    assert name == a + "." + (b + "." + c);
  }

  lemma {:induction false} SplitDots(a: string, b: string)
    ensures |Split(a + "." + b)| >= 1 + |Split(b)|
  {
    var all := a + "." + b;
    if a == "" {
      assert all[1..] == b;
    } else {
      assert all[1..] == a[1..] + "." + b;
      SplitDots(a[1..], b);
    }
  }

  /** The words that no method may be called by. */
  predicate Forbidden(m: string) {
    || m == "kill" || m == "exit" || m == "quit" || m == "remove" || m == "unlink"
    || m == "popen" || m == "Popen" || m == "run"
  }

  /** A qualified name is refused for the method's spelling, then the class's, then for want of either. */
  lemma QualifiedIs<B>(w: World<B>, s: State<B>, c: string, m: string)
    requires '.' !in c && '.' !in m
    ensures Resolve(w, s, c + "." + m)
         == if !Identifies(m) then Failed(Failure("eval_security_violation", "Invalid method identifier: " + m))
            else if Forbidden(m) then
              Failed(Failure("eval_security_violation", "Method " + m + " is blocked by the BFCL worker policy"))
            else if !Identifies(c) then Failed(Failure("eval_security_violation", "Invalid class identifier: " + c))
            else if c !in s.instances then
              Failed(Failure("backend_class_not_found", "Backend class is not active for this task: " + c))
            else if !w.callable(c, m) then
              Failed(Failure("tool_method_not_found", "Tool method not found: " + c + "." + m))
            else Success((c, m))
  {
    hide ValidIdentifier, Identifies, Split;
    SplitQualified(c, m);
    IdentifierIff(c);
    IdentifierIff(m);
  }

  /** So is a bare name; a right one is looked up among the methods with one owner and with several. */
  lemma BareIs<B>(w: World<B>, s: State<B>, m: string)
    requires '.' !in m
    ensures Resolve(w, s, m)
         == if !Identifies(m) then Failed(Failure("eval_security_violation", "Invalid method identifier: " + m))
            else if Forbidden(m) then
              Failed(Failure("eval_security_violation", "Method " + m + " is blocked by the BFCL worker policy"))
            else if m in s.methodToClass then Success((s.methodToClass[m], m))
            else if m in s.ambiguousMethods then
              Failed(Failure("ambiguous_method", "Ambiguous tool method " + m + "; use a qualified name"))
            else Failed(Failure("tool_method_not_found", "Tool method not found: " + m))
  {
    hide ValidIdentifier, Identifies, Split;
    SplitPlain(m);
    IdentifierIff(m);
  }

  // ----- Which class owns a method -----

  /** A class offers the names it lists that do not begin with an underscore and can be called. */
  lemma {:induction false} OwnersAre<B>(w: World<B>, classes: seq<string>, m: string)
    ensures forall c :: c in Owners(w, classes, m) <==>
              c in classes && m in w.dir(c) && (m == "" || m[0] != '_') && w.callable(c, m)
    ensures (forall j, k :: 0 <= j < k < |classes| ==> classes[j] != classes[k]) ==>
              InOrderOf(Owners(w, classes, m), classes)
    decreases |classes|
  {
    assert m != "" ==> ("_" <= m <==> m[0] == '_');
    if classes != [] {
      var init, last := classes[..|classes| - 1], classes[|classes| - 1];
      OwnersAre(w, init, m);
      assert classes == init + [last];
      if forall j, k :: 0 <= j < k < |classes| ==> classes[j] != classes[k] {
        InOrderLater(Owners(w, init, m), init, last);
      }
    }
  }

  /** The one list takes its entries from the other, in the order they have there. */
  ghost predicate InOrderOf(some: seq<string>, all: seq<string>) {
    forall j, k :: 0 <= j < k < |some| ==> Before(some[j], some[k], all)
  }

  ghost predicate Before(a: string, b: string, all: seq<string>) {
    exists i, j :: 0 <= i < j < |all| && all[i] == a && all[j] == b
  }

  lemma InOrderLater(some: seq<string>, all: seq<string>, last: string)
    requires InOrderOf(some, all) && forall x :: x in some ==> x in all
    ensures InOrderOf(some, all + [last]) && InOrderOf(some + [last], all + [last])
  {
    forall j, k | 0 <= j < k < |some| ensures Before(some[j], some[k], all + [last]) {
      assert Before(some[j], some[k], all);
      var i, i' :| 0 <= i < i' < |all| && all[i] == some[j] && all[i'] == some[k];
      assert (all + [last])[i] == some[j] && (all + [last])[i'] == some[k];
    }
    forall j | 0 <= j < |some| ensures Before(some[j], last, all + [last]) {
      assert some[j] in some;
      var i :| 0 <= i < |all| && all[i] == some[j];
      assert (all + [last])[i] == some[j] && (all + [last])[|all|] == last;
    }
  }
}
