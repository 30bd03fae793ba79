/** Every run of the backend worker: which names resolve, what is answered, and what a failed start leaves. */
module StatefulWorkerRuns {
  import opened Wrappers
  import opened StatefulWorker

  // ----- Names -----

  lemma {:induction false} SplitPlain(name: string)
    ensures '.' !in name <==> Split(name) == [name]
    ensures '.' !in name <==> |Split(name)| == 1
  {
    if name != "" {
      SplitPlain(name[1..]);
      assert name == [name[0]] + name[1..];
    }
  }

  lemma {:induction false} SplitQualified(className: string, methodName: string)
    requires '.' !in className && '.' !in methodName
    ensures Split(className + "." + methodName) == [className, methodName]
  {
    var name := className + "." + methodName;
    if className == "" {
      assert name[1..] == methodName;
      SplitPlain(methodName);
    } else {
      assert name[1..] == className[1..] + "." + methodName;
      SplitQualified(className[1..], methodName);
      assert className[0] in className && className == [className[0]] + className[1..];
      assert name[0] == className[0] != '.';
    }
  }

  predicate Callable(methodName: string) {
    ValidIdentifier(methodName) && methodName !in FORBIDDEN_METHOD_NAMES
  }

  lemma IdentifierHasNoDot(name: string)
    requires ValidIdentifier(name)
    ensures '.' !in name
  {
    var body := if name[|name| - 1] == '\n' then name[..|name| - 1] else name;
    forall k | 0 <= k < |name| ensures name[k] != '.' {
      assert k < |body| ==> name[k] == body[k] && IsWordCharacter(body[k]);
    }
  }

  /**
   * With the method table in step with the instances, a bare name resolves exactly when one active class
   * offers it, is reported ambiguous exactly when several do, and missing exactly when none does.
   */
  lemma BareNameIff<B>(w: World<B>, s: State<B>, methodName: string)
    requires MapsMethods(w, s) && Callable(methodName)
    ensures var owners := Owners(w, s.classes, methodName);
      match Resolve(w, s, methodName)
      case Success((className, resolved)) => owners == [className] && resolved == methodName
      case Failed(failure) =>
        if |owners| > 1 then failure.errorType == AMBIGUOUS_METHOD
        else owners == [] && failure.errorType == TOOL_METHOD_NOT_FOUND
  {
    hide Owners, ValidIdentifier, Split;
    IdentifierHasNoDot(methodName);
    SplitPlain(methodName);
    assert AMBIGUOUS_METHOD != TOOL_METHOD_NOT_FOUND;
  }

  /** Every class that offers a method can be reached by its qualified name, ambiguous or not. */
  lemma QualifiedReachesEveryOwner<B>(w: World<B>, s: State<B>, className: string, methodName: string)
    requires Callable(methodName) && ValidIdentifier(className)
    requires forall c :: c in s.classes ==> c in s.instances
    requires className in Owners(w, s.classes, methodName)
    ensures Resolve(w, s, className + "." + methodName) == Success((className, methodName))
  {
    hide ValidIdentifier, Split;
    IdentifierHasNoDot(className);
    IdentifierHasNoDot(methodName);
    SplitQualified(className, methodName);
    assert Public(w, className, methodName);
  }

  // ----- What every command keeps -----

  ghost predicate Inv<B>(w: World<B>, s: State<B>) {
    && (forall c :: c in s.classes <==> c in s.instances)
    && (forall j, k :: 0 <= j < k < |s.classes| ==> s.classes[j] != s.classes[k])
    && (MapsMethods(w, s) || (s.methodToClass == map[] && s.ambiguousMethods == map[]))
  }

  lemma MappedMaps<B>(w: World<B>, s: State<B>)
    ensures MapsMethods(w, Mapped(w, s))
  {
    hide Owners, AllNames;
    forall m ensures |Owners(w, s.classes, m)| > 0 ==> m in AllNames(w, s.classes) {
      OwnedIsNamed(w, s.classes, m);
    }
  }

  lemma {:induction false} CreateAllKeeps<B>(
    w: World<B>, names: seq<string>, config: map<string, Json.Value>, longContext: bool, s: State<B>)
    requires forall c :: c in s.classes <==> c in s.instances
    requires forall j, k :: 0 <= j < k < |s.classes| ==> s.classes[j] != s.classes[k]
    ensures var (t, failure) := CreateAll(w, names, config, longContext, s);
      && (forall c :: c in t.classes <==> c in t.instances)
      && (forall j, k :: 0 <= j < k < |t.classes| ==> t.classes[j] != t.classes[k])
      && t.methodToClass == s.methodToClass && t.ambiguousMethods == s.ambiguousMethods
      && t.initialized == s.initialized && s.classes <= t.classes
    decreases |names|
  {
    if names != [] {
      match Create(w, names[0], config, longContext) {
        case Failed(failure) =>
        case Success(backend) =>
          var next := s.(classes := if names[0] in s.instances then s.classes else s.classes + [names[0]],
                         instances := s.instances[names[0] := backend]);
          CreateAllKeeps(w, names[1..], config, longContext, next);
      }
    }
  }

  lemma InitKeeps<B>(w: World<B>, s: State<B>, command: map<string, Json.Value>)
    requires Inv(w, s)
    ensures Inv(w, AfterInit(w, s, command).0)
  {
    hide MapsMethods, Mapped, CreateAll, Truthy;
    var taskId := RequireString(Get(command, "task_id"), "task_id");
    var names := RequireStrings(Get(command, "involved_classes"), "involved_classes");
    var config := RequireMapping(Default(command, "initial_config"), "initial_config");
    if taskId.Success? && names.Success? && config.Success? {
      var longContext := "long_context" in command && Truthy(command["long_context"]);
      var cleared := State(Some(taskId.value), [], map[], map[], map[], s.initialized);
      CreateAllKeeps(w, names.value, config.value, longContext, cleared);
      var created := CreateAll(w, names.value, config.value, longContext, cleared).0;
      MappedMaps(w, created);
      MappedKeeps(w, created);
      MapsIgnoresFlag(w, Mapped(w, created), true);
    }
  }

  lemma MapsIgnoresFlag<B>(w: World<B>, s: State<B>, flag: bool)
    ensures MapsMethods(w, s) == MapsMethods(w, s.(initialized := flag))
  {
  }

  lemma MapsIgnoresBackends<B>(w: World<B>, s: State<B>, instances: map<string, B>)
    ensures MapsMethods(w, s) == MapsMethods(w, s.(instances := instances))
  {
  }

  /** In a state the worker can reach, a name never resolves to a class that is not active. */
  lemma ResolvedIsActive<B>(w: World<B>, s: State<B>, name: string)
    requires Inv(w, s)
    ensures Resolve(w, s, name).Success? ==> Resolve(w, s, name).value.0 in s.instances
  {
    hide Split, ValidIdentifier;
    var parts := Split(name);
    var methodName := parts[|parts| - 1];
    if methodName in s.methodToClass {
      var owners := Owners(w, s.classes, methodName);
      assert owners[0] in owners;
    }
  }

  lemma CallKeeps<B>(w: World<B>, s: State<B>, command: map<string, Json.Value>)
    requires Inv(w, s)
    ensures Inv(w, AfterCall(w, s, command).0)
  {
    hide MapsMethods, Resolve, RequireString, RequireMapping;
    var t := AfterCall(w, s, command).0;
    MapsIgnoresBackends(w, s, t.instances);
    forall name ensures Resolve(w, s, name).Success? ==> Resolve(w, s, name).value.0 in s.instances {
      ResolvedIsActive(w, s, name);
    }
    assert t == s.(instances := t.instances);
  }

  lemma NewInv<B>(w: World<B>)
    ensures Inv(w, New())
  {
  }

  lemma LineKeeps<B>(w: World<B>, s: State<B>, line: string)
    requires Inv(w, s)
    ensures Inv(w, AfterLine(w, s, line).0)
  {
    hide Inv, AfterInit, AfterCall, TakeSnapshot;
    NewInv(w);
    if w.loads(line).Success? && w.loads(line).value.Obj? {
      InitKeeps(w, s, w.loads(line).value.fields);
      CallKeeps(w, s, w.loads(line).value.fields);
    }
  }

  // ----- Serving a stream of lines -----

  /** The lines that the loop does not skip. */
  function NonBlank(lines: seq<string>): seq<string> {
    if lines == [] then []
    else
      var last := lines[|lines| - 1];
      NonBlank(lines[..|lines| - 1]) + if Blank(last) then [] else [last]
  }

  /** The state after the lines read, the responses written, and whether the worker still runs. */
  function Serve<B>(w: World<B>, lines: seq<string>): (State<B>, seq<Response>, bool) {
    if lines == [] then (New(), [], true)
    else
      var (s, responses, running) := Serve(w, lines[..|lines| - 1]);
      if !running || Blank(lines[|lines| - 1]) then (s, responses, running)
      else
        var (t, response, keep) := AfterLine(w, s, lines[|lines| - 1]);
        (t, responses + [response], keep)
  }

  /** Blank lines are as if they had not been sent. */
  lemma {:induction false} ServeSkipsBlank<B>(w: World<B>, lines: seq<string>)
    ensures Serve(w, lines) == Serve(w, NonBlank(lines))
    ensures forall k :: 0 <= k < |NonBlank(lines)| ==> !Blank(NonBlank(lines)[k])
    decreases |lines|
  {
    hide AfterLine, Blank;
    if lines != [] {
      ServeSkipsBlank(w, lines[..|lines| - 1]);
      var kept := NonBlank(lines[..|lines| - 1]);
      if !Blank(lines[|lines| - 1]) {
        var all := NonBlank(lines);
        assert all == kept + [lines[|lines| - 1]];
        assert all[..|all| - 1] == kept && all[|all| - 1] == lines[|lines| - 1];
      } else {
        assert NonBlank(lines) == kept;
      }
    }
  }

  /** Where the loop stands after lines that are not blank. */
  ghost predicate InOrder<B>(w: World<B>, lines: seq<string>, responses: seq<Response>, running: bool) {
    && |responses| <= |lines|
    && (forall k :: 0 <= k < |responses| ==> responses[k].id == LineId(w, lines[k]))
    && (running ==> |responses| == |lines|)
    && (running <==> forall k :: 0 <= k < |lines| ==> !Closes(w, lines[k]))
    && (!running ==> responses != [] && Closes(w, lines[|responses| - 1])
                     && forall k :: 0 <= k < |responses| - 1 ==> !Closes(w, lines[k]))
  }

  lemma {:induction false} ServesNonBlank<B>(w: World<B>, lines: seq<string>)
    requires forall k :: 0 <= k < |lines| ==> !Blank(lines[k])
    ensures var (s, responses, running) := Serve(w, lines);
      Inv(w, s) && InOrder(w, lines, responses, running)
    decreases |lines|
  {
    hide Inv, AfterLine, Closes, LineId, Blank;
    if lines == [] {
      NewInv(w);
    } else {
      var before, line := lines[..|lines| - 1], lines[|lines| - 1];
      ServesNonBlank(w, before);
      var (s, responses, running) := Serve(w, before);
      assert lines == before + [line];
      if running {
        LineKeeps(w, s, line);
        AnswersLine(w, s, line);
      }
    }
  }

  /**
   * For any input, the worker answers exactly the lines that are not blank, one response each, in order and
   * under the line's own id, until the first close command, which it answers as the last; its invariant holds
   * throughout.
   */
  lemma ServesInOrder<B>(w: World<B>, lines: seq<string>)
    ensures var (s, responses, running) := Serve(w, lines);
      Inv(w, s) && InOrder(w, NonBlank(lines), responses, running)
  {
    hide Inv, InOrder, Serve, Blank;
    ServeSkipsBlank(w, lines);
    ServesNonBlank(w, NonBlank(lines));
  }

  /** What a command does and answers does not depend on its id, which comes back as it was sent. */
  lemma AnswerIgnoresId<B>(w: World<B>, s: State<B>, command: map<string, Json.Value>, id: Json.Value)
    ensures Obey(w, s, command["id" := id]) == Obey(w, s, command)
    ensures IdOf(command["id" := id]) == if id.Null? then None else Some(id)
  {
    hide CreateAll, Resolve, AfterInvoke, Truthy, Blank;
  }

  // ----- A failed start -----

  /** The three fields that are checked before anything is touched. */
  predicate HeaderAccepted(command: map<string, Json.Value>) {
    && RequireString(Get(command, "task_id"), "task_id").Success?
    && RequireStrings(Get(command, "involved_classes"), "involved_classes").Success?
    && RequireMapping(Default(command, "initial_config"), "initial_config").Success?
  }

  /**
   * After a start that fails, the worker still takes commands exactly when it did before. A rejected header
   * changes nothing; a failed creation leaves the instances made so far, and no bare name resolves any more.
   */
  lemma FailedStartIff<B>(w: World<B>, s: State<B>, command: map<string, Json.Value>)
    requires Inv(w, s)
    requires AfterInit(w, s, command).1.Failed?
    ensures var t := AfterInit(w, s, command).0;
      && (TakeSnapshot(w, t).Success? <==> s.initialized)
      && (!HeaderAccepted(command) ==> t == s)
      && (HeaderAccepted(command) ==> t.methodToClass == map[] && t.ambiguousMethods == map[])
  {
    hide CreateAll, Truthy, Mapped, MapsMethods;
    if HeaderAccepted(command) {
      var names := RequireStrings(Get(command, "involved_classes"), "involved_classes").value;
      var config := RequireMapping(Default(command, "initial_config"), "initial_config").value;
      var longContext := "long_context" in command && Truthy(command["long_context"]);
      CreateAllKeeps(w, names, config, longContext,
                     State(Some(Get(command, "task_id").s), [], map[], map[], map[], s.initialized));
    }
  }

  /** Such a worker misses a method by its bare name and still finds it by the qualified name of each owner. */
  lemma FailedStartResolves<B>(w: World<B>, s: State<B>, command: map<string, Json.Value>, methodName: string)
    requires Inv(w, s) && HeaderAccepted(command) && AfterInit(w, s, command).1.Failed?
    requires Callable(methodName)
    ensures var t := AfterInit(w, s, command).0;
      && Resolve(w, t, methodName).Failed? && Resolve(w, t, methodName).failure.errorType == TOOL_METHOD_NOT_FOUND
      && forall c :: ValidIdentifier(c) && c in Owners(w, t.classes, methodName) ==>
           Resolve(w, t, c + "." + methodName) == Success((c, methodName))
  {
    hide AfterInit, HeaderAccepted, ValidIdentifier, Split, MapsMethods, Owners;
    var t := AfterInit(w, s, command).0;
    InitKeeps(w, s, command);
    FailedStartIff(w, s, command);
    IdentifierHasNoDot(methodName);
    SplitPlain(methodName);
    forall c | ValidIdentifier(c) && c in Owners(w, t.classes, methodName)
      ensures Resolve(w, t, c + "." + methodName) == Success((c, methodName))
    {
      QualifiedReachesEveryOwner(w, t, c, methodName);
    }
  }

  // ----- Empty error messages -----

  /** The call that a command makes on a backend, if it gets that far. */
  function BackendCall<B>(w: World<B>, s: State<B>, command: map<string, Json.Value>): Option<Called<B>> {
    var call := RequireMapping(Get(command, "call"), "call");
    if Get(command, "type") != Json.Str("call_tool") || !s.initialized || call.Failed? then None
    else
      var name := RequireString(Get(call.value, "function"), "call.function");
      var arguments := RequireMapping(Default(call.value, "arguments"), "call.arguments");
      if name.Failed? || arguments.Failed? || Resolve(w, s, name.value).Failed? then None
      else
        var (className, methodName) := Resolve(w, s, name.value).value;
        if className !in s.instances then None
        else Some(w.call(s.instances[className], methodName, arguments.value))
  }

  lemma NamesAreInk()
    ensures !Blank("call_tool") && !Blank("init_task")
  {
    assert !IsPythonSpace("call_tool"[0]) && !IsPythonSpace("init_task"[0]);
  }

  /** A call changes at most the backend it reached, which it leaves as the method left it, error or not. */
  lemma CallChangesOne<B>(w: World<B>, s: State<B>, command: map<string, Json.Value>)
    requires Inv(w, s) && Get(command, "type") == Json.Str("call_tool")
    ensures var t := Obey(w, s, command).0;
      match BackendCall(w, s, command)
      case None => t == s && Obey(w, s, command).1.Failed?
      case Some(called) =>
        exists className :: className in s.instances && t == s.(instances := s.instances[className := called.backend])
  {
    hide Resolve, Blank, RequireMapping;
    NamesAreInk();
    var call := RequireMapping(Get(command, "call"), "call");
    if call.Success? {
      var name := RequireString(Get(call.value, "function"), "call.function");
      if name.Success? {
        ResolvedIsActive(w, s, name.value);
      }
    }
  }

  /** The failure of the creation that ends an init command, if the command gets that far and one fails. */
  function CreationFailure<B>(w: World<B>, s: State<B>, command: map<string, Json.Value>): Option<Failure> {
    if Get(command, "type") != Json.Str("init_task") || !HeaderAccepted(command) then None
    else
      CreateAll(w, RequireStrings(Get(command, "involved_classes"), "involved_classes").value,
                RequireMapping(Default(command, "initial_config"), "initial_config").value,
                "long_context" in command && Truthy(command["long_context"]),
                State(Some(Get(command, "task_id").s), [], map[], map[], map[], s.initialized)).1
  }

  lemma InitFailure<B>(w: World<B>, s: State<B>, command: map<string, Json.Value>)
    requires Get(command, "type") == Json.Str("init_task")
    ensures var body := AfterInit(w, s, command).1;
      body.Failed? && body.failure.message == "" <==>
      CreationFailure(w, s, command).Some? && CreationFailure(w, s, command).value.message == ""
  {
    hide CreateAll, Truthy, Blank, Mapped;
  }

  lemma ResolveExplained<B>(w: World<B>, s: State<B>, name: string)
    ensures Resolve(w, s, name).Failed? ==> Resolve(w, s, name).failure.message != ""
  {
    hide Split, ValidIdentifier;
  }

  lemma CallFailure<B>(w: World<B>, s: State<B>, command: map<string, Json.Value>)
    requires Get(command, "type") == Json.Str("call_tool")
    ensures var body := AfterCall(w, s, command).1;
      body.Failed? && body.failure.message == "" <==>
      var called := BackendCall(w, s, command);
      called.Some? && !called.value.Value? && called.value.message == ""
  {
    hide Resolve, Blank;
    forall name ensures Resolve(w, s, name).Failed? ==> Resolve(w, s, name).failure.message != "" {
      ResolveExplained(w, s, name);
    }
  }

  /** A backend raises with an empty text while the command calls one of its methods, or while it is created. */
  predicate RaisesEmpty<B>(w: World<B>, s: State<B>, command: map<string, Json.Value>) {
    var called, creation := BackendCall(w, s, command), CreationFailure(w, s, command);
    || (called.Some? && !called.value.Value? && called.value.message == "")
    || (creation.Some? && creation.value.message == "")
  }

  /**
   * An error report has an empty message exactly when a backend method raised with one, or a backend could not
   * be created and the exception, such as a bare assertion in its second `_load_scenario`, had an empty text.
   */
  lemma EmptyMessageIff<B>(w: World<B>, s: State<B>, command: map<string, Json.Value>)
    ensures var body := Obey(w, s, command).1;
      body.Failed? && body.failure.message == "" <==> RaisesEmpty(w, s, command)
  {
    hide AfterInit, AfterCall, CreationFailure, BackendCall, Blank;
    NamesAreInk();
    assert BackendCall(w, s, command).Some? ==> Get(command, "type") == Json.Str("call_tool") by {
      OnlyTheirType(w, s, command);
    }
    assert CreationFailure(w, s, command).Some? ==> Get(command, "type") == Json.Str("init_task") by {
      OnlyTheirType(w, s, command);
    }
    if Get(command, "type") == Json.Str("init_task") {
      InitFailure(w, s, command);
    } else if Get(command, "type") == Json.Str("call_tool") {
      CallFailure(w, s, command);
    }
  }

  lemma OnlyTheirType<B>(w: World<B>, s: State<B>, command: map<string, Json.Value>)
    ensures BackendCall(w, s, command).Some? ==> Get(command, "type") == Json.Str("call_tool")
    ensures CreationFailure(w, s, command).Some? ==> Get(command, "type") == Json.Str("init_task")
  {
    hide CreateAll, Resolve;
  }

  /** Every error report names its type, so the session can read it exactly when its message is not empty. */
  lemma ErrorsAreTyped<B>(w: World<B>, s: State<B>, command: map<string, Json.Value>)
    ensures Obey(w, s, command).1.Failed? ==> Obey(w, s, command).1.failure.errorType != ""
  {
    hide AfterInit, AfterCall, Blank;
    InitTyped(w, s, command);
    CallTyped(w, s, command);
  }

  lemma {:induction false} CreateAllTyped<B>(
    w: World<B>, names: seq<string>, config: map<string, Json.Value>, longContext: bool, s: State<B>)
    ensures var failure := CreateAll(w, names, config, longContext, s).1;
      failure.Some? ==> failure.value.errorType != ""
    decreases |names|
  {
    if names != [] {
      match Create(w, names[0], config, longContext) {
        case Failed(failure) =>
        case Success(backend) =>
          CreateAllTyped(w, names[1..], config, longContext,
                         s.(classes := if names[0] in s.instances then s.classes else s.classes + [names[0]],
                            instances := s.instances[names[0] := backend]));
      }
    }
  }

  lemma InitTyped<B>(w: World<B>, s: State<B>, command: map<string, Json.Value>)
    ensures AfterInit(w, s, command).1.Failed? ==> AfterInit(w, s, command).1.failure.errorType != ""
  {
    hide CreateAll, Truthy, Blank, Mapped;
    if HeaderAccepted(command) {
      CreateAllTyped(w, RequireStrings(Get(command, "involved_classes"), "involved_classes").value,
                     RequireMapping(Default(command, "initial_config"), "initial_config").value,
                     "long_context" in command && Truthy(command["long_context"]),
                     State(Some(Get(command, "task_id").s), [], map[], map[], map[], s.initialized));
    }
  }

  lemma CallTyped<B>(w: World<B>, s: State<B>, command: map<string, Json.Value>)
    ensures AfterCall(w, s, command).1.Failed? ==> AfterCall(w, s, command).1.failure.errorType != ""
  {
    hide Split, ValidIdentifier, Blank;
  }
}
