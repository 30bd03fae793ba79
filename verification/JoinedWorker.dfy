/** The benchmark's own worker behind the session's pipes. */
module JoinedWorker {
  import P = WorkerProtocol
  import R = StatefulRuntime
  import opened StatefulWorker
  import opened StatefulWorkerRuns
  import opened Wrappers

  /**
   * What the two ends write and read. `fields` is the object of a command as the session's caller gave it,
   * `write` the line sent for an object, and `payload` the fields of a response that the session passes on.
   */
  datatype Ends<!B> = Ends(
    world: World<B>,
    fields: string -> map<string, Json.Value>,
    write: map<string, Json.Value> -> string,
    payload: Body -> string,
    maxOutputBytes: nat,
    encode: R.Incoming -> string,
    decode: string -> Option<R.Incoming>)

  /** The worker reads what the session wrote. */
  ghost predicate Agree<B(!new)>(ends: Ends<B>) {
    forall fields :: ends.world.loads(ends.write(fields)) == Success(Json.Obj(fields)) && !Blank(ends.write(fields))
  }

  /** Command k as it goes out, with its id. */
  function Command<B>(ends: Ends<B>, sent: seq<string>, k: nat): map<string, Json.Value>
    requires k < |sent|
  {
    ends.fields(sent[k])["id" := Json.Str(P.Id(k))]
  }

  /** The worker's input for the commands sent. */
  function Lines<B>(ends: Ends<B>, sent: seq<string>): (lines: seq<string>)
    ensures |lines| == |sent|
    ensures forall k :: 0 <= k < |sent| ==> lines[k] == ends.write(Command(ends, sent, k))
  {
    seq(|sent|, k requires 0 <= k < |sent| => ends.write(Command(ends, sent, k)))
  }

  function Kind(body: Body): string {
    match body
    case Ready(_, _) => "ready"
    case Returned(_, _, _, _) => "result"
    case Snapshot(_, _) => "snapshot"
    case Closed => "closed"
    case Error(_) => "error"
  }

  function Answer<B>(ends: Ends<B>, body: Body, stop: bool): P.Answer {
    var failure := if body.Error? then body.failure else Failure("", "");
    P.Answer(Kind(body), failure.message, failure.errorType, ends.payload(body), stop)
  }

  /** A response as the session reads it. */
  function Seen<B>(ends: Ends<B>, response: Response): R.Incoming {
    var a := Answer(ends, response.body, false);
    var id :=
      match response.id
      case None => R.NoId
      case Some(Str(s)) => R.TextId(s)
      case Some(_) => R.OtherId;
    R.Incoming(a.kind, id, a.message, a.errorType, a.payload)
  }

  function Addressed(a: P.Answer, id: string): R.Incoming {
    R.Incoming(a.kind, R.TextId(id), a.message, a.errorType, a.payload)
  }

  /** One command through the worker's own line handler. */
  function Step<B>(ends: Ends<B>, s: State<B>, command: string): (State<B>, P.Answer) {
    var (t, response, keep) := AfterLine(ends.world, s, ends.write(ends.fields(command)));
    (t, Answer(ends, response.body, !keep))
  }

  function EnvOf<B>(ends: Ends<B>): P.Env<State<B>> {
    P.Env(ends.maxOutputBytes, New(), (s, command) => Step(ends, s, command), ends.encode, ends.decode)
  }

  /** The line handler answers command k, sent under its id, with the worker's answer under that id. */
  lemma StepAnswers<B(!new)>(ends: Ends<B>, sent: seq<string>, k: nat, s: State<B>)
    requires Agree(ends) && k < |sent|
    ensures var after, step := AfterLine(ends.world, s, Lines(ends, sent)[k]), Step(ends, s, sent[k]);
      after.0 == step.0 && after.2 == !step.1.stop && Seen(ends, after.1) == Addressed(step.1, P.Id(k))
  {
    var plain := ends.fields(sent[k]);
    AnswerIgnoresId(ends.world, s, plain, Json.Str(P.Id(k)));
    assert Lines(ends, sent)[k] == ends.write(Command(ends, sent, k));
    assert ends.world.loads(ends.write(plain)) == Success(Json.Obj(plain));
    assert ends.world.loads(ends.write(Command(ends, sent, k))) == Success(Json.Obj(Command(ends, sent, k)));
    hide Agree, Obey, P.Id;
  }

  lemma ServeNext<B>(w: World<B>, lines: seq<string>)
    requires lines != [] && !Blank(lines[|lines| - 1])
    ensures var before := Serve(w, lines[..|lines| - 1]);
      before.2 ==>
        var after := AfterLine(w, before.0, lines[|lines| - 1]);
        Serve(w, lines) == (after.0, before.1 + [after.1], after.2)
  {
    hide AfterLine, Blank;
  }

  lemma WorkerNext<B>(ends: Ends<B>, sent: seq<string>, k: nat)
    requires k < |sent|
    ensures var env := EnvOf(ends);
      var step := Step(ends, P.WorkerAfter(env, sent, k), sent[k]);
      && P.WorkerAfter(env, sent, k + 1) == step.0 && P.AnswerTo(env, sent, k) == step.1
      && P.Reply(env, sent, k) == Addressed(step.1, P.Id(k))
  {
    hide Step;
  }

  /** The responses are the replies of the protocol's worker to the first commands. */
  ghost predicate AreReplies<B>(ends: Ends<B>, sent: seq<string>, responses: seq<Response>, n: nat) {
    && |responses| == n <= |sent|
    && forall k | 0 <= k < n :: Seen(ends, responses[k]) == P.Reply(EnvOf(ends), sent, k)
  }

  lemma AreRepliesSnoc<B>(ends: Ends<B>, sent: seq<string>, responses: seq<Response>, n: nat, response: Response)
    requires AreReplies(ends, sent, responses, n) && n < |sent|
    requires Seen(ends, response) == P.Reply(EnvOf(ends), sent, n)
    ensures AreReplies(ends, sent, responses + [response], n + 1)
  {
    hide Seen, P.Reply, EnvOf;
  }

  /** No command but the last of the first n stops the worker. */
  ghost predicate Uninterrupted<B>(ends: Ends<B>, sent: seq<string>, n: nat)
    requires n <= |sent|
  {
    forall i | 0 <= i < n - 1 :: !P.AnswerTo(EnvOf(ends), sent, i).stop
  }

  lemma StillUninterrupted<B>(ends: Ends<B>, sent: seq<string>, n: nat)
    requires 0 < n <= |sent| && Uninterrupted(ends, sent, n)
    ensures Uninterrupted(ends, sent, n - 1) && (n > 1 ==> !P.AnswerTo(EnvOf(ends), sent, n - 2).stop)
  {
    hide P.AnswerTo, EnvOf;
  }

  /** As long as no command but the last stops it, the worker answers each in turn. */
  lemma {:induction false} ServesReplies<B(!new)>(ends: Ends<B>, sent: seq<string>, n: nat)
    requires Agree(ends) && n <= |sent| && Uninterrupted(ends, sent, n)
    ensures var served := Serve(ends.world, Lines(ends, sent)[..n]);
      && served.0 == P.WorkerAfter(EnvOf(ends), sent, n)
      && AreReplies(ends, sent, served.1, n)
      && (served.2 <==> n == 0 || !P.AnswerTo(EnvOf(ends), sent, n - 1).stop)
  {
    hide Agree, AfterLine, Seen, Step, Blank, Serve, Lines, EnvOf, AreReplies, Uninterrupted;
    hide P.WorkerAfter, P.AnswerTo, P.Reply, P.Id, Addressed;
    var lines := Lines(ends, sent);
    if n == 0 {
      ServesNone(ends, sent);
    } else {
      LineHasInk(ends, sent, n - 1);
      StillUninterrupted(ends, sent, n);
      ServesReplies(ends, sent, n - 1);
      assert lines[..n][..n - 1] == lines[..n - 1] && lines[..n][n - 1] == lines[n - 1];
      ServeNext(ends.world, lines[..n]);
      var served := Serve(ends.world, lines[..n - 1]);
      WorkerNext(ends, sent, n - 1);
      StepAnswers(ends, sent, n - 1, served.0);
      AreRepliesSnoc(ends, sent, served.1, n - 1, AfterLine(ends.world, served.0, lines[n - 1]).1);
    }
  }

  lemma LineHasInk<B(!new)>(ends: Ends<B>, sent: seq<string>, k: nat)
    requires Agree(ends) && k < |sent|
    ensures !Blank(Lines(ends, sent)[k])
  {
  }

  lemma ServesNone<B>(ends: Ends<B>, sent: seq<string>)
    ensures Serve(ends.world, Lines(ends, sent)[..0]) == (New(), [], true)
    ensures P.WorkerAfter(EnvOf(ends), sent, 0) == New() && AreReplies(ends, sent, [], 0)
  {
  }

  /** More input leaves the responses written so far. */
  lemma {:induction false} ServePrefix<B>(w: World<B>, lines: seq<string>, n: nat)
    requires n <= |lines|
    ensures Serve(w, lines[..n]).1 <= Serve(w, lines).1
    decreases |lines|
  {
    hide AfterLine, Blank;
    if n == |lines| {
      assert lines[..n] == lines;
    } else {
      ServePrefix(w, lines[..|lines| - 1], n);
      assert lines[..|lines| - 1][..n] == lines[..n];
    }
  }

  /** What settles a request is a local failure, or what the worker's response to its command line calls for. */
  ghost predicate FromWorker<B>(ends: Ends<B>, sent: seq<string>, entry: (string, R.Settlement)) {
    var responses := Serve(ends.world, Lines(ends, sent)).1;
    exists i | 0 <= i < |sent| ::
      entry.0 == P.Id(i) && (P.Local(entry.1) || (i < |responses| && CallsFor(Seen(ends, responses[i]), entry)))
  }

  predicate CallsFor(m: R.Incoming, entry: (string, R.Settlement)) {
    && m.id == R.TextId(entry.0)
    && match entry.1
       case Resolved(n) => n == m && m.kind != "error"
       case Rejected(failure) =>
         && m.kind == "error" && failure == R.WorkerReported(m.errorType, m.message)
         && m.errorType != "" && m.message != ""
  }

  lemma AccountedFor<B(!new)>(ends: Ends<B>, sys: P.System<State<B>>, entry: (string, R.Settlement))
    requires Agree(ends) && sys.taken <= |sys.sent| && P.Accounts(EnvOf(ends), sys, entry)
    ensures FromWorker(ends, sys.sent, entry)
  {
    var env, sent := EnvOf(ends), sys.sent;
    var i :| && 0 <= i < |sent| && entry.0 == P.Id(i) && P.Justified(env, sent, i, entry.1)
             && (P.Local(entry.1) || (i < sys.taken && forall j | 0 <= j < i :: !P.AnswerTo(env, sent, j).stop));
    if !P.Local(entry.1) {
      var responses := Serve(ends.world, Lines(ends, sent)).1;
      RightCall(ends, sent, i, entry);
      assert Uninterrupted(ends, sent, i + 1);
      hide Seen, Serve, Agree, CallsFor, P.Justified, P.Reply, P.WorkerAfter, P.AnswerTo, Uninterrupted;
      ServesReplies(ends, sent, i + 1);
      ServePrefix(ends.world, Lines(ends, sent), i + 1);
      assert responses[i] == Serve(ends.world, Lines(ends, sent)[..i + 1]).1[i];
    }
  }

  lemma RightCall<B>(ends: Ends<B>, sent: seq<string>, i: nat, entry: (string, R.Settlement))
    requires i < |sent| && entry.0 == P.Id(i) && P.Justified(EnvOf(ends), sent, i, entry.1) && !P.Local(entry.1)
    ensures CallsFor(P.Reply(EnvOf(ends), sent, i), entry)
  {
    hide P.AnswerTo, EnvOf, P.Id;
  }

  /**
   * In every run of the session against this worker, whatever is cut, delayed, killed or timed out, a request is
   * settled at most once, never while pending, and by its own response alone or a local failure.
   */
  lemma JoinedRun<B(!new)>(ends: Ends<B>, sys: P.System<State<B>>, events: seq<P.Event>)
    requires Agree(ends) && P.Codec(EnvOf(ends)) && P.Reachable(EnvOf(ends), sys, events)
    ensures forall j, k | 0 <= j < k < |sys.session.settled| :: sys.session.settled[j].0 != sys.session.settled[k].0
    ensures forall k | 0 <= k < |sys.session.settled| ::
              sys.session.settled[k].0 !in sys.session.pending && FromWorker(ends, sys.sent, sys.session.settled[k])
  {
    hide Agree, P.Codec, P.Reachable, P.Accounts, FromWorker;
    P.EveryRun(EnvOf(ends), sys, events);
    P.TakenIsSent(EnvOf(ends), sys, events);
    forall k | 0 <= k < |sys.session.settled| ensures FromWorker(ends, sys.sent, sys.session.settled[k]) {
      AccountedFor(ends, sys, sys.session.settled[k]);
    }
  }

  /** The session cannot read the answer exactly when a backend raised with an empty text. */
  lemma UnreadableIff<B(!new)>(ends: Ends<B>, sent: seq<string>, i: nat)
    requires Agree(ends) && i < |sent|
    ensures R.Unreadable(P.Reply(EnvOf(ends), sent, i))
       <==> RaisesEmpty(ends.world, P.WorkerAfter(EnvOf(ends), sent, i), Command(ends, sent, i))
  {
    hide Agree, Obey, RaisesEmpty, Step, Command, Lines, EnvOf, AfterLine, P.Id, P.WorkerAfter, P.AnswerTo, P.Reply;
    var s, command := P.WorkerAfter(EnvOf(ends), sent, i), Command(ends, sent, i);
    WorkerNext(ends, sent, i);
    StepAnswers(ends, sent, i, s);
    LineIsCommand(ends, sent, i);
    AnsweredBody(ends, s, command);
    EmptyMessageIff(ends.world, s, command);
    ErrorsAreTyped(ends.world, s, command);
    NoErrorBody(ends.world, s, command);
  }

  lemma LineIsCommand<B(!new)>(ends: Ends<B>, sent: seq<string>, k: nat)
    requires Agree(ends) && k < |sent|
    ensures var command := Command(ends, sent, k);
      Lines(ends, sent)[k] == ends.write(command) && ends.world.loads(ends.write(command)) == Success(Json.Obj(command))
  {
  }

  lemma AnsweredBody<B(!new)>(ends: Ends<B>, s: State<B>, command: map<string, Json.Value>)
    requires ends.world.loads(ends.write(command)) == Success(Json.Obj(command))
    ensures var body := Obey(ends.world, s, command).1;
      AfterLine(ends.world, s, ends.write(command)).1
      == Response(IdOf(command), if body.Failed? then Error(body.failure) else body.value)
  {
    hide Obey;
  }

  lemma NoErrorBody<B>(w: World<B>, s: State<B>, command: map<string, Json.Value>)
    ensures Obey(w, s, command).1.Success? ==> !Obey(w, s, command).1.value.Error?
  {
    hide Resolve, CreateAll, Mapped, Truthy, Blank;
  }

  /** A request is lost, neither pending nor settled, only if a backend raised with an empty text while serving it. */
  lemma LostOnlyByEmptyText<B(!new)>(ends: Ends<B>, sys: P.System<State<B>>, events: seq<P.Event>, i: nat)
    requires Agree(ends) && P.Codec(EnvOf(ends)) && P.Reachable(EnvOf(ends), sys, events) && i < |sys.sent|
    requires !P.IsPending(sys.session, i) && !P.IsSettled(sys.session, i)
    ensures RaisesEmpty(ends.world, P.WorkerAfter(EnvOf(ends), sys.sent, i), Command(ends, sys.sent, i))
  {
    hide Agree, P.Codec, P.Reachable, RaisesEmpty, P.IsPending, P.IsSettled;
    P.LostWasUnreadable(EnvOf(ends), sys, events, i);
    UnreadableIff(ends, sys.sent, i);
  }
}
