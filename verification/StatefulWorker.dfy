/** The benchmark's backend worker: one command a line, one response a command. */
module StatefulWorker {
  import Json
  import opened Wrappers

  datatype Failure = Failure(errorType: string, message: string)

  datatype Outcome<+T> = Success(value: T) | Failed(failure: Failure)

  datatype Body =
    | Ready(taskId: string, classes: set<string>)
    | Returned(className: string, methodName: string, value: Json.Value, state: Json.Value)
    | Snapshot(currentTask: Option<string>, state: Json.Value)
    | Closed
    | Error(failure: Failure)

  /** A message to the client; `id` is absent when the command had none. */
  datatype Response = Response(id: Option<Json.Value>, body: Body)

  datatype Called<+B> =
    | Value(backend: B, value: Json.Value)
    | TypeError(backend: B, message: string)
    | Raised(backend: B, message: string)

  /** Setting up a backend: `Unusable` is a reported class error, `Crashed` any other exception and its text. */
  datatype Creation<+B> = Created(backend: B) | Unusable(message: string) | Crashed(message: string)

  /** Python's JSON reader, the backend classes and their snapshots. `dir` lists a class's attribute names. */
  datatype World<!B> = World(
    loads: string -> Outcome<Json.Value>,
    dir: string -> seq<string>,
    callable: (string, string) -> bool,
    create: (string, map<string, Json.Value>, bool) -> Creation<B>,
    call: (B, string, map<string, Json.Value>) -> Called<B>,
    snapshot: (map<string, B>) -> Json.Value)

  /** The worker's fields; `classes` is the insertion order of `instances`. */
  datatype State<!B> = State(
    taskId: Option<string>, classes: seq<string>, instances: map<string, B>,
    methodToClass: map<string, string>, ambiguousMethods: map<string, seq<string>>, initialized: bool)

  function New<B>(): State<B> {
    State(None, [], map[], map[], map[], false)
  }

  const BACKEND_CLASS_NOT_FOUND := "backend_class_not_found"
  const TOOL_METHOD_NOT_FOUND := "tool_method_not_found"
  const AMBIGUOUS_METHOD := "ambiguous_method"
  const TOOL_ARGS_INVALID := "tool_args_invalid"
  const TOOL_RUNTIME := "tool_runtime_error"
  const EVAL_SECURITY := "eval_security_violation"

  const FORBIDDEN_METHOD_NAMES: set<string> := {"kill", "exit", "quit", "remove", "unlink", "popen", "Popen", "run"}

  // ----- Reading a command -----

  predicate IsPythonSpace(c: char) {
    || '\t' <= c <= '\r' || '\U{1C}' <= c <= ' ' || c == '\U{85}' || c == '\U{A0}' || c == '\U{1680}'
    || '\U{2000}' <= c <= '\U{200A}' || c == '\U{2028}' || c == '\U{2029}' || c == '\U{202F}'
    || c == '\U{205F}' || c == '\U{3000}'
  }

  predicate Blank(s: string) {
    forall k :: 0 <= k < |s| ==> IsPythonSpace(s[k])
  }

  function Get(fields: map<string, Json.Value>, key: string): Json.Value {
    if key in fields then fields[key] else Json.Null
  }

  function RequireString(v: Json.Value, what: string): Outcome<string> {
    if v.Str? && !Blank(v.s) then Success(v.s) else Failed(Failure(TOOL_ARGS_INVALID, what + " must be a string"))
  }

  function RequireMapping(v: Json.Value, what: string): Outcome<map<string, Json.Value>> {
    if v.Obj? then Success(v.fields) else Failed(Failure(TOOL_ARGS_INVALID, what + " must be an object"))
  }

  function RequireStrings(v: Json.Value, what: string): Outcome<seq<string>> {
    if v.Arr? && forall k :: 0 <= k < |v.items| ==> v.items[k].Str?
    then Success(seq(|v.items|, k requires 0 <= k < |v.items| && v.items[k].Str? => v.items[k].s))
    else Failed(Failure(TOOL_ARGS_INVALID, what + " must be a string list"))
  }

  function Default(fields: map<string, Json.Value>, key: string): Json.Value {
    if key in fields then fields[key] else Json.Obj(map[])
  }

  /** Python's `bool`; a rounded numeral is taken to be other than zero. */
  predicate Truthy(v: Json.Value) {
    match v
    case Null => false
    case Number(n) => n != 0
    case Rounded(_) => true
    case Bool(b) => b
    case Str(s) => s != ""
    case Arr(items) => items != []
    case Obj(fields) => fields != map[]
  }

  // ----- Which class owns a method -----

  predicate Public<B>(w: World<B>, className: string, methodName: string) {
    methodName in w.dir(className) && !("_" <= methodName) && w.callable(className, methodName)
  }

  /** The active classes that offer a method, in the order of activation. */
  function Owners<B>(w: World<B>, classes: seq<string>, methodName: string): (owners: seq<string>)
    ensures forall c :: c in owners <==> c in classes && Public(w, c, methodName)
  {
    if classes == [] then []
    else
      var before, last := Owners(w, classes[..|classes| - 1], methodName), classes[|classes| - 1];
      assert classes == classes[..|classes| - 1] + [last];
      if Public(w, last, methodName) then before + [last] else before
  }

  function AllNames<B>(w: World<B>, classes: seq<string>): set<string> {
    if classes == [] then {}
    else AllNames(w, classes[..|classes| - 1]) + Elements(w.dir(classes[|classes| - 1]))
  }

  function Elements(names: seq<string>): set<string> {
    set m | m in names
  }

  ghost predicate MapsMethods<B>(w: World<B>, s: State<B>) {
    && (forall m :: m in s.methodToClass <==> |Owners(w, s.classes, m)| == 1)
    && (forall m :: m in s.methodToClass ==> s.methodToClass[m] == Owners(w, s.classes, m)[0])
    && (forall m :: m in s.ambiguousMethods <==> |Owners(w, s.classes, m)| > 1)
    && (forall m :: m in s.ambiguousMethods ==> s.ambiguousMethods[m] == Owners(w, s.classes, m))
  }

  // ----- Resolving a name -----

  /** `$` also matches before a final line break. */
  predicate IsIdentifier(name: string) {
    IsWord(if name != "" && name[|name| - 1] == '\n' then name[..|name| - 1] else name)
  }

  predicate IsWord(s: string) {
    s != "" && !('0' <= s[0] <= '9') && forall k :: 0 <= k < |s| ==> IsWordCharacter(s[k])
  }

  predicate IsWordCharacter(c: char) {
    'A' <= c <= 'Z' || 'a' <= c <= 'z' || '0' <= c <= '9' || c == '_'
  }

  predicate ValidIdentifier(name: string) {
    IsIdentifier(name) && !("_" <= name)
  }

  function Split(name: string): (parts: seq<string>)
    ensures |parts| > 0
  {
    if name == "" then [""]
    else
      var rest := Split(name[1..]);
      if name[0] == '.' then [""] + rest else [[name[0]] + rest[0]] + rest[1..]
  }

  function Resolve<B>(w: World<B>, s: State<B>, name: string): Outcome<(string, string)> {
    var parts := Split(name);
    if |parts| > 2 then Failed(Failure(EVAL_SECURITY, "Invalid tool function path: " + name))
    else
      var methodName := parts[|parts| - 1];
      if !ValidIdentifier(methodName) then Failed(Failure(EVAL_SECURITY, "Invalid method identifier: " + methodName))
      else if methodName in FORBIDDEN_METHOD_NAMES then
        Failed(Failure(EVAL_SECURITY, "Method " + methodName + " is blocked by the BFCL worker policy"))
      else if |parts| == 2 then
        var className := parts[0];
        if !ValidIdentifier(className) then Failed(Failure(EVAL_SECURITY, "Invalid class identifier: " + className))
        else if className !in s.instances then
          Failed(Failure(BACKEND_CLASS_NOT_FOUND, "Backend class is not active for this task: " + className))
        else if !w.callable(className, methodName) then
          Failed(Failure(TOOL_METHOD_NOT_FOUND, "Tool method not found: " + name))
        else Success((className, methodName))
      else if methodName in s.methodToClass then Success((s.methodToClass[methodName], methodName))
      else if methodName in s.ambiguousMethods then
        Failed(Failure(AMBIGUOUS_METHOD, "Ambiguous tool method " + methodName + "; use a qualified name"))
      else Failed(Failure(TOOL_METHOD_NOT_FOUND, "Tool method not found: " + methodName))
  }

  // ----- The commands -----

  function Create<B>(
    w: World<B>, className: string, config: map<string, Json.Value>, longContext: bool): Outcome<B>
  {
    match w.create(className, config, longContext)
    case Created(backend) => Success(backend)
    case Unusable(message) => Failed(Failure(BACKEND_CLASS_NOT_FOUND, message))
    case Crashed(message) => Failed(Failure(TOOL_RUNTIME, message))
  }

  /** Creates the instances one after another, up to the first failure. */
  function CreateAll<B>(
    w: World<B>, names: seq<string>, config: map<string, Json.Value>, longContext: bool, s: State<B>)
    : (State<B>, Option<Failure>)
    decreases |names|
  {
    if names == [] then (s, None)
    else
      match Create(w, names[0], config, longContext)
      case Failed(failure) => (s, Some(failure))
      case Success(backend) =>
        CreateAll(w, names[1..], config, longContext,
                  s.(classes := if names[0] in s.instances then s.classes else s.classes + [names[0]],
                     instances := s.instances[names[0] := backend]))
  }

  function Mapped<B>(w: World<B>, s: State<B>): State<B> {
    var names := AllNames(w, s.classes);
    s.(methodToClass := map m | m in names && |Owners(w, s.classes, m)| == 1 :: Owners(w, s.classes, m)[0],
       ambiguousMethods := map m | m in names && |Owners(w, s.classes, m)| > 1 :: Owners(w, s.classes, m))
  }

  function AfterInit<B>(w: World<B>, s: State<B>, command: map<string, Json.Value>): (State<B>, Outcome<Body>) {
    var taskId := RequireString(Get(command, "task_id"), "task_id");
    if taskId.Failed? then (s, Failed(taskId.failure))
    else
      var names := RequireStrings(Get(command, "involved_classes"), "involved_classes");
      if names.Failed? then (s, Failed(names.failure))
      else
        var config := RequireMapping(Default(command, "initial_config"), "initial_config");
        if config.Failed? then (s, Failed(config.failure))
        else
          var longContext := "long_context" in command && Truthy(command["long_context"]);
          var cleared := State(Some(taskId.value), [], map[], map[], map[], s.initialized);
          var (created, failure) := CreateAll(w, names.value, config.value, longContext, cleared);
          if failure.Some? then (created, Failed(failure.value))
          else
            (Mapped(w, created).(initialized := true), Success(Ready(taskId.value, created.instances.Keys)))
  }

  const NOT_INITIALIZED := Failure(TOOL_RUNTIME, "BFCL worker has not received init_task")

  function AfterCall<B>(w: World<B>, s: State<B>, command: map<string, Json.Value>): (State<B>, Outcome<Body>) {
    if !s.initialized then (s, Failed(NOT_INITIALIZED))
    else
      var call := RequireMapping(Get(command, "call"), "call");
      if call.Failed? then (s, Failed(call.failure))
      else
        var name := RequireString(Get(call.value, "function"), "call.function");
        if name.Failed? then (s, Failed(name.failure))
        else
          var arguments := RequireMapping(Default(call.value, "arguments"), "call.arguments");
          if arguments.Failed? then (s, Failed(arguments.failure))
          else
            var resolved := Resolve(w, s, name.value);
            if resolved.Failed? then (s, Failed(resolved.failure))
            else
              AfterInvoke(w, s, resolved.value.0, resolved.value.1, arguments.value)
  }

  function AfterInvoke<B>(
    w: World<B>, s: State<B>, className: string, methodName: string, arguments: map<string, Json.Value>)
    : (State<B>, Outcome<Body>)
  {
    if className !in s.instances then (s, Failed(Failure(TOOL_RUNTIME, "'" + className + "'")))
    else
      match w.call(s.instances[className], methodName, arguments)
      case TypeError(backend, message) =>
        (s.(instances := s.instances[className := backend]), Failed(Failure(TOOL_ARGS_INVALID, message)))
      case Raised(backend, message) =>
        (s.(instances := s.instances[className := backend]), Failed(Failure(TOOL_RUNTIME, message)))
      case Value(backend, value) =>
        var t := s.(instances := s.instances[className := backend]);
        (t, Success(Returned(className, methodName, value, w.snapshot(t.instances))))
  }

  function TakeSnapshot<B>(w: World<B>, s: State<B>): Outcome<Body> {
    if !s.initialized then Failed(NOT_INITIALIZED) else Success(Snapshot(s.taskId, w.snapshot(s.instances)))
  }

  /** The new state and the body of the response to a command object. */
  function Obey<B>(w: World<B>, s: State<B>, command: map<string, Json.Value>): (State<B>, Outcome<Body>) {
    var kind := RequireString(Get(command, "type"), "type");
    if kind.Failed? then (s, Failed(kind.failure))
    else if kind.value == "init_task" then AfterInit(w, s, command)
    else if kind.value == "call_tool" then AfterCall(w, s, command)
    else if kind.value == "snapshot" then (s, TakeSnapshot(w, s))
    else if kind.value == "close" then (New(), Success(Closed))
    else (s, Failed(Failure(TOOL_ARGS_INVALID, "Unsupported command type: " + kind.value)))
  }

  function IdOf(command: map<string, Json.Value>): Option<Json.Value> {
    if Get(command, "id").Null? then None else Some(Get(command, "id"))
  }

  /** The new state, the one response written, and whether the worker keeps running. */
  function AfterLine<B>(w: World<B>, s: State<B>, line: string): (State<B>, Response, bool) {
    var loaded := w.loads(line);
    if loaded.Failed? then (s, Response(None, Error(Failure(TOOL_RUNTIME, loaded.failure.message))), true)
    else if !loaded.value.Obj? then
      (s, Response(None, Error(Failure(TOOL_ARGS_INVALID, "Command must be an object"))), true)
    else
      var command := loaded.value.fields;
      var (t, body) := Obey(w, s, command);
      match body
      case Failed(failure) => (t, Response(IdOf(command), Error(failure)), true)
      case Success(value) => (t, Response(IdOf(command), value), Get(command, "type") != Json.Str("close"))
  }

  /** The id that a line asks to have echoed. */
  function LineId<B>(w: World<B>, line: string): Option<Json.Value> {
    if w.loads(line).Success? && w.loads(line).value.Obj? then IdOf(w.loads(line).value.fields) else None
  }

  predicate Closes<B>(w: World<B>, line: string) {
    && w.loads(line).Success?
    && w.loads(line).value.Obj?
    && Get(w.loads(line).value.fields, "type") == Json.Str("close")
  }

  /** Every line is answered under its own id, and only a close command ends the loop. */
  lemma AnswersLine<B>(w: World<B>, s: State<B>, line: string)
    ensures var (t, response, keep) := AfterLine(w, s, line);
      response.id == LineId(w, line) && (keep <==> !Closes(w, line))
  {
    hide AfterInit, AfterCall, TakeSnapshot;
    assert Blank("close") ==> IsPythonSpace("close"[0]);
  }

  /** The same backends are active, and two of them never changed together. */
  ghost predicate AtMostOneDiffers<B>(before: map<string, B>, after: map<string, B>) {
    && before.Keys == after.Keys
    && forall c, d :: c in before && d in before && before[c] != after[c] && before[d] != after[d] ==> c == d
  }

  // ----- The worker object -----

  class BfclStatefulWorker<!B> {
    const world: World<B>
    var taskId: Option<string>
    var classes: seq<string>
    var instances: map<string, B>
    var methodToClass: map<string, string>
    var ambiguousMethods: map<string, seq<string>>
    var initialized: bool

    function View(): State<B>
      reads this
    {
      State(taskId, classes, instances, methodToClass, ambiguousMethods, initialized)
    }

    constructor (world: World<B>)
      ensures View() == New() && this.world == world
    {
      this.world := world;
      taskId, classes, instances, methodToClass, ambiguousMethods, initialized := None, [], map[], map[], map[], false;
    }

    method RefreshMethodMapping()
      requires forall c :: DirDistinct(world, c)
      modifies this
      ensures View() == Mapped(world, old(View()))
    {
      hide Owners, AllNames;
      var owners := CollectOwners(world, classes);
      ambiguousMethods := map m | m in owners && |owners[m]| > 1 :: owners[m];
      methodToClass := map m | m in owners && |owners[m]| == 1 :: owners[m][0];
      forall m ensures m in owners ==> m in AllNames(world, classes) {
        OwnedIsNamed(world, classes, m);
      }
      ghost var mapped := Mapped(world, View());
      assert ambiguousMethods == mapped.ambiguousMethods;
      assert methodToClass == mapped.methodToClass;
    }

    method InitTask(command: map<string, Json.Value>) returns (body: Outcome<Body>)
      requires forall c :: DirDistinct(world, c)
      modifies this
      ensures (View(), body) == AfterInit(world, old(View()), command)
    {
      hide Mapped, Truthy, RequireStrings, Blank, Create, DirDistinct;
      var id := RequireString(Get(command, "task_id"), "task_id");
      if id.Failed? { return Failed(id.failure); }
      var names := RequireStrings(Get(command, "involved_classes"), "involved_classes");
      if names.Failed? { return Failed(names.failure); }
      var config := RequireMapping(Default(command, "initial_config"), "initial_config");
      if config.Failed? { return Failed(config.failure); }
      var longContext := "long_context" in command && Truthy(command["long_context"]);

      classes, instances, methodToClass, ambiguousMethods := [], map[], map[], map[];
      taskId := Some(id.value);
      ghost var cleared := View();
      var k := 0;
      assert names.value[0..] == names.value;
      while k < |names.value|
        invariant 0 <= k <= |names.value|
        invariant CreateAll(world, names.value, config.value, longContext, cleared)
               == CreateAll(world, names.value[k..], config.value, longContext, View())
      {
        var className := names.value[k];
        assert names.value[k..][1..] == names.value[k + 1..];
        match Create(world, className, config.value, longContext) {
          case Failed(failure) =>
            return Failed(failure);
          case Success(backend) =>
            classes := if className in instances then classes else classes + [className];
            instances := instances[className := backend];
        }
        k := k + 1;
      }
      ghost var created := View();
      RefreshMethodMapping();
      assert View() == Mapped(world, created);
      MappedKeeps(world, created);
      initialized := true;
      return Success(Ready(id.value, instances.Keys));
    }

    method ResolveMethod(functionName: string) returns (resolved: Outcome<(string, string)>)
      ensures resolved == Resolve(world, View(), functionName)
    {
      hide Split, ValidIdentifier;
      var parts := Split(functionName);
      if |parts| > 2 {
        return Failed(Failure(EVAL_SECURITY, "Invalid tool function path: " + functionName));
      }
      var methodName := parts[|parts| - 1];
      if !ValidIdentifier(methodName) {
        return Failed(Failure(EVAL_SECURITY, "Invalid method identifier: " + methodName));
      }
      if methodName in FORBIDDEN_METHOD_NAMES {
        return Failed(Failure(EVAL_SECURITY, "Method " + methodName + " is blocked by the BFCL worker policy"));
      }
      if |parts| == 2 {
        var className := parts[0];
        if !ValidIdentifier(className) {
          return Failed(Failure(EVAL_SECURITY, "Invalid class identifier: " + className));
        }
        if className !in instances {
          return Failed(Failure(BACKEND_CLASS_NOT_FOUND, "Backend class is not active for this task: " + className));
        }
        if !world.callable(className, methodName) {
          return Failed(Failure(TOOL_METHOD_NOT_FOUND, "Tool method not found: " + functionName));
        }
        return Success((className, methodName));
      }
      if methodName in methodToClass {
        return Success((methodToClass[methodName], methodName));
      }
      if methodName in ambiguousMethods {
        return Failed(Failure(AMBIGUOUS_METHOD, "Ambiguous tool method " + methodName + "; use a qualified name"));
      }
      return Failed(Failure(TOOL_METHOD_NOT_FOUND, "Tool method not found: " + methodName));
    }

    method CallTool(command: map<string, Json.Value>) returns (body: Outcome<Body>)
      modifies this
      ensures (View(), body) == AfterCall(world, old(View()), command)
      // A call changes at most one backend and none of the tables, and reports the state it leaves.
      ensures View() == old(View()).(instances := instances) && AtMostOneDiffers(old(instances), instances)
      ensures body.Success? ==>
                && old(initialized) && body.value.Returned?
                && body.value.className in instances && body.value.state == world.snapshot(instances)
      ensures !old(initialized) ==> instances == old(instances)
    {
      hide Blank, Resolve;
      if !initialized { return Failed(NOT_INITIALIZED); }
      var call := RequireMapping(Get(command, "call"), "call");
      if call.Failed? { return Failed(call.failure); }
      var name := RequireString(Get(call.value, "function"), "call.function");
      if name.Failed? { return Failed(name.failure); }
      var arguments := RequireMapping(Default(call.value, "arguments"), "call.arguments");
      if arguments.Failed? { return Failed(arguments.failure); }
      var resolved := ResolveMethod(name.value);
      if resolved.Failed? { return Failed(resolved.failure); }
      var (className, methodName) := resolved.value;
      if className !in instances {
        return Failed(Failure(TOOL_RUNTIME, "'" + className + "'"));
      }
      var called := world.call(instances[className], methodName, arguments.value);
      instances := instances[className := called.backend];
      match called {
        case TypeError(_, message) => return Failed(Failure(TOOL_ARGS_INVALID, message));
        case Raised(_, message) => return Failed(Failure(TOOL_RUNTIME, message));
        case Value(_, value) => return Success(Returned(className, methodName, value, world.snapshot(instances)));
      }
    }

    method Close() returns (body: Body)
      modifies this
      ensures View() == New() && body == Closed
    {
      taskId, classes, instances, methodToClass, ambiguousMethods, initialized := None, [], map[], map[], map[], false;
      return Closed;
    }

    method HandleLine(line: string) returns (response: Response, keepRunning: bool)
      requires forall c :: DirDistinct(world, c)
      modifies this
      ensures (View(), response, keepRunning) == AfterLine(world, old(View()), line)
      // One response, under the line's own id; only a close command ends the loop, and it forgets everything.
      ensures response.id == LineId(world, line)
      ensures keepRunning <==> !Closes(world, line)
      ensures !keepRunning ==> View() == New() && response.body == Closed
    {
      AnswersLine(world, View(), line);
      hide AfterInit, AfterCall, Blank, DirDistinct;
      var loaded := world.loads(line);
      if loaded.Failed? {
        return Response(None, Error(Failure(TOOL_RUNTIME, loaded.failure.message))), true;
      }
      if !loaded.value.Obj? {
        return Response(None, Error(Failure(TOOL_ARGS_INVALID, "Command must be an object"))), true;
      }
      var command := loaded.value.fields;
      var kind := RequireString(Get(command, "type"), "type");
      if kind.Failed? {
        return Response(IdOf(command), Error(kind.failure)), true;
      }
      var body;
      if kind.value == "init_task" {
        body := InitTask(command);
      } else if kind.value == "call_tool" {
        body := CallTool(command);
      } else if kind.value == "snapshot" {
        body := TakeSnapshot(world, View());
      } else if kind.value == "close" {
        var closed := Close();
        body := Success(closed);
      } else {
        body := Failed(Failure(TOOL_ARGS_INVALID, "Unsupported command type: " + kind.value));
      }
      match body {
        case Failed(failure) => return Response(IdOf(command), Error(failure)), true;
        case Success(value) => return Response(IdOf(command), value), kind.value != "close";
      }
    }
  }

  /** The inner loop: a class joins the owners of each public method that its listing names. */
  method AddOwner<B>(w: World<B>, className: string, before: map<string, seq<string>>)
    returns (owners: map<string, seq<string>>)
    requires DirDistinct(w, className)
    requires forall m :: m in before ==> before[m] != []
    ensures forall m :: Listed(owners, m) == Extended(before, m, className, Public(w, className, m))
    ensures forall m :: m in owners ==> owners[m] != []
  {
    hide DirDistinct;
    owners := before;
    var names := w.dir(className);
    var j := 0;
    while j < |names|
      invariant 0 <= j <= |names|
      invariant forall m ::
          Listed(owners, m) == Extended(before, m, className, m in names[..j] && Offers(w, className, m))
      invariant forall m :: m in owners ==> owners[m] != []
    {
      var name := names[j];
      assert names[..j + 1] == names[..j] + [name];
      assert name !in names[..j] by { DirNew(w, className, j); }
      if Offers(w, className, name) {
        owners := owners[name := Listed(owners, name) + [className]];
      }
      j := j + 1;
    }
    assert names[..j] == names;
  }

  /** The dictionary of owners that the nested loops fill. */
  method CollectOwners<B>(w: World<B>, classes: seq<string>) returns (owners: map<string, seq<string>>)
    requires forall c :: DirDistinct(w, c)
    ensures forall m :: m in owners <==> |Owners(w, classes, m)| > 0
    ensures forall m :: m in owners ==> owners[m] == Owners(w, classes, m)
  {
    hide Public;
    owners := map[];
    var i := 0;
    while i < |classes|
      invariant 0 <= i <= |classes|
      invariant forall m :: Listed(owners, m) == Owners(w, classes[..i], m)
      invariant forall m :: m in owners ==> owners[m] != []
    {
      owners := AddOwner(w, classes[i], owners);
      assert classes[..i + 1][..i] == classes[..i];
      i := i + 1;
    }
    assert classes[..i] == classes;
    assert forall m :: Listed(owners, m) == Owners(w, classes, m);
  }

  function Listed(owners: map<string, seq<string>>, m: string): seq<string> {
    if m in owners then owners[m] else []
  }

  function Extended(owners: map<string, seq<string>>, m: string, className: string, offered: bool): seq<string> {
    if offered then Listed(owners, m) + [className] else Listed(owners, m)
  }

  predicate Offers<B>(w: World<B>, className: string, methodName: string) {
    !("_" <= methodName) && w.callable(className, methodName)
  }

  ghost predicate DirDistinct<B>(w: World<B>, className: string) {
    forall j, k :: 0 <= j < k < |w.dir(className)| ==> w.dir(className)[j] != w.dir(className)[k]
  }

  lemma DirNew<B>(w: World<B>, className: string, j: nat)
    requires DirDistinct(w, className) && j < |w.dir(className)|
    ensures w.dir(className)[j] !in w.dir(className)[..j]
  {
  }

  lemma MappedKeeps<B>(w: World<B>, s: State<B>)
    ensures Mapped(w, s).instances == s.instances && Mapped(w, s).taskId == s.taskId
    ensures Mapped(w, s).classes == s.classes
  {
  }

  lemma {:induction false} OwnedIsNamed<B>(w: World<B>, classes: seq<string>, m: string)
    ensures |Owners(w, classes, m)| > 0 ==> m in AllNames(w, classes)
    decreases |classes|
  {
    if classes != [] {
      OwnedIsNamed(w, classes[..|classes| - 1], m);
    }
  }
}
