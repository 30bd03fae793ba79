/**
 The session and the worker joined by two pipes, under every interleaving of
 commands, worker steps, deliveries of arbitrary chunks, timeouts and crashes.
 */
module WorkerProtocol {
  import opened Text
  import opened Wrappers
  import opened StatefulRuntime

  /** What the worker answers, before the command's id is attached; `stop` ends its loop. */
  datatype Answer = Answer(kind: string, message: string, errorType: string, payload: string, stop: bool)

  /** `step` is the worker's handling of one command; `encode` and `decode` are JSON on one line. */
  datatype Env<!W> = Env(
    maxOutputBytes: nat,
    start: W,
    step: (W, string) -> (W, Answer),
    encode: Incoming -> string,
    decode: string -> Option<Incoming>)

  /** One message is one non-blank line, and reading it back gives the message. */
  ghost predicate Codec<W>(env: Env<W>) {
    forall m :: env.decode(env.encode(m)) == Some(m) && '\n' !in env.encode(m) && Trim(env.encode(m)) != ""
  }

  function ConfigOf<W>(env: Env<W>): Config {
    Config(env.maxOutputBytes, env.decode)
  }

  /**
   `sent` lists the commands written to the worker; the i-th one (from 0) carries id i + 1.
   The worker has handled the first `taken` of them; `wire` is output not yet delivered.
   */
  datatype System<!W> = System(
    session: Session,
    sent: seq<string>,
    taken: nat,
    worker: W,
    running: bool,
    wire: string)

  datatype Event =
    | SendCommand(command: string)
    | Work
    | Die(written: nat)
    | Deliver(bytes: nat)
    | Stderr(bytes: nat)
    | Expiry(id: string)
    | IdleExpiry
    | Broken
    | Closed
    | CloseDone

  function Id(i: nat): string {
    Decimal(i + 1)
  }

  function WorkerAfter<W>(env: Env<W>, sent: seq<string>, n: nat): W
    requires n <= |sent|
  {
    if n == 0 then env.start else env.step(WorkerAfter(env, sent, n - 1), sent[n - 1]).0
  }

  /** The worker's answer to command i in the state reached by folding the earlier commands. */
  function AnswerTo<W>(env: Env<W>, sent: seq<string>, i: nat): Answer
    requires i < |sent|
  {
    env.step(WorkerAfter(env, sent, i), sent[i]).1
  }

  function Reply<W>(env: Env<W>, sent: seq<string>, i: nat): Incoming
    requires i < |sent|
  {
    var a := AnswerTo(env, sent, i);
    Incoming(a.kind, TextId(Id(i)), a.message, a.errorType, a.payload)
  }

  const GREETING := Incoming("ready", NoId, "", "", "")

  /** Everything the worker writes while it handles the first n commands. */
  function Output<W>(env: Env<W>, sent: seq<string>, n: nat): (lines: seq<string>)
    requires n <= |sent|
    ensures |lines| == n + 1
  {
    if n == 0 then [env.encode(GREETING)]
    else Output(env, sent, n - 1) + [env.encode(Reply(env, sent, n - 1))]
  }

  function Start<W>(env: Env<W>): System<W> {
    System(FRESH, [], 0, env.start, true, env.encode(GREETING) + "\n")
  }

  predicate Enabled<W>(env: Env<W>, sys: System<W>, event: Event) {
    match event
    case Work => sys.running && sys.taken < |sys.sent|
    case Die(written) =>
      && sys.running
      && (if sys.taken < |sys.sent|
          then written <= |env.encode(Reply(env, sys.sent, sys.taken))| else written == 0)
    case Deliver(bytes) => bytes <= |sys.wire|
    case Expiry(id) => id in sys.session.timers
    case _ => true
  }

  function Next<W>(env: Env<W>, sys: System<W>, event: Event): System<W>
    requires Enabled(env, sys, event)
  {
    match event
    case SendCommand(command) =>
      sys.(session := Send(sys.session),
           sent := if sys.session.terminal.Some? || sys.session.closed then sys.sent else sys.sent + [command])
    case Work =>
      var (worker, answer) := env.step(sys.worker, sys.sent[sys.taken]);
      sys.(worker := worker, taken := sys.taken + 1, running := !answer.stop,
           wire := sys.wire
                   + env.encode(Incoming(answer.kind, TextId(Id(sys.taken)),
                                         answer.message, answer.errorType, answer.payload))
                   + "\n")
    case Die(written) =>
      sys.(running := false,
           wire := sys.wire + if written == 0 then "" else env.encode(Reply(env, sys.sent, sys.taken))[..written])
    case Deliver(bytes) =>
      sys.(session := Feed(ConfigOf(env), sys.session, sys.wire[..bytes]), wire := sys.wire[bytes..])
    case Stderr(bytes) => sys.(session := FeedStderr(ConfigOf(env), sys.session, bytes))
    case Expiry(id) => sys.(session := Expire(sys.session, id))
    case IdleExpiry => sys.(session := Idle(sys.session))
    case Broken => sys.(session := RejectAll(sys.session, ChildError))
    case Closed => sys.(session := ChildClosed(sys.session))
    case CloseDone => sys.(session := FinishClose(sys.session))
  }

  /** Some run of enabled events leads from the start to the state. */
  ghost predicate Reachable<W(!new)>(env: Env<W>, sys: System<W>, events: seq<Event>)
    decreases |events|
  {
    if events == [] then sys == Start(env)
    else
      var n := |events| - 1;
      exists before: System<W> ::
        Reachable(env, before, events[..n]) && Enabled(env, before, events[n]) && sys == Next(env, before, events[n])
  }

  // ----- The invariant ----------------------------------------------------------

  /** The settlement is what the worker's own answer to command i calls for, or a local failure. */
  predicate Justified<W>(env: Env<W>, sent: seq<string>, i: nat, outcome: Settlement)
    requires i < |sent|
  {
    var reply := Reply(env, sent, i);
    match outcome
    case Resolved(m) => m == reply && m.kind != "error"
    case Rejected(WorkerReported(errorType, message)) =>
      reply.kind == "error" && reply.errorType == errorType != "" && reply.message == message != ""
    case _ => true
  }

  predicate IsPending(s: Session, i: nat) {
    Id(i) in s.pending
  }

  predicate IsSettled(s: Session, i: nat) {
    exists k | 0 <= k < |s.settled| :: s.settled[k].0 == Id(i)
  }

  ghost predicate Distinct<T>(xs: seq<T>) {
    forall i, j | 0 <= i < j < |xs| :: xs[i] != xs[j]
  }

  /** Ids are fresh: the commands sent so far carry exactly the ids below the next one. */
  ghost predicate FreshIds(s: Session, n: nat) {
    && s.nextId == n + 1
    && (forall x | x in s.pending :: exists i | 0 <= i < n :: x == Id(i))
    && Distinct(s.pending)
    && s.timers <= (set x | x in s.pending)
  }

  ghost predicate Explained<W>(env: Env<W>, sent: seq<string>, entry: (string, Settlement)) {
    exists i | 0 <= i < |sent| :: entry.0 == Id(i) && Justified(env, sent, i, entry.1)
  }

  /** Settlements are final, single and justified. */
  ghost predicate SettledOnce<W>(env: Env<W>, sent: seq<string>, s: Session) {
    && (forall j, k | 0 <= j < k < |s.settled| :: s.settled[j].0 != s.settled[k].0)
    && (forall k | 0 <= k < |s.settled| :: s.settled[k].0 !in s.pending)
    && (forall k | 0 <= k < |s.settled| :: Explained(env, sent, s.settled[k]))
  }

  /** A request that is neither pending nor settled was answered by an unreadable error report. */
  ghost predicate NoneLost<W>(env: Env<W>, sent: seq<string>, s: Session) {
    forall i | 0 <= i < |sent| :: IsPending(s, i) || IsSettled(s, i) || Unreadable(Reply(env, sent, i))
  }

  ghost predicate SessionInv<W>(env: Env<W>, sent: seq<string>, s: Session) {
    && FreshIds(s, |sent|)
    && SettledOnce(env, sent, s)
    && NoneLost(env, sent, s)
    && (s.terminal.Some? ==> s.pending == [])
    && (s.stdoutBytes > env.maxOutputBytes ==> s.terminal.Some?)
  }

  // ----- Each session step keeps the invariant ------------------------------------

  lemma {:induction false} WithoutDistinct(ids: seq<string>, id: string)
    requires Distinct(ids)
    ensures Distinct(Without(ids, id))
  {
    if ids != [] {
      assert forall j | 0 < j < |ids| :: ids[j] != ids[0];
      assert ids[0] !in ids[1..];
      WithoutDistinct(ids[1..], id);
    }
  }

  lemma RejectAllSettled<W>(env: Env<W>, sent: seq<string>, s: Session, failure: Failure)
    requires FreshIds(s, |sent|) && SettledOnce(env, sent, s) && !failure.WorkerReported?
    ensures SettledOnce(env, sent, RejectAll(s, failure))
  {
    hide Reply;
    var s', n := RejectAll(s, failure), |s.settled|;
    assert forall k | n <= k < |s'.settled| :: s'.settled[k] == (s.pending[k - n], Rejected(failure));
    assert forall k | 0 <= k < n :: s'.settled[k] == s.settled[k];
    forall k | 0 <= k < |s'.settled| ensures Explained(env, sent, s'.settled[k]) {
      if k >= n {
        assert s.pending[k - n] in s.pending;
        var i :| 0 <= i < |sent| && s.pending[k - n] == Id(i);
        assert Justified(env, sent, i, s'.settled[k].1);
      } else {
        assert Explained(env, sent, s.settled[k]);
      }
    }
    hide Explained;
    forall j, k | 0 <= j < k < |s'.settled| ensures s'.settled[j].0 != s'.settled[k].0 {
      if j < n <= k {
        assert s.settled[j].0 !in s.pending && s.pending[k - n] in s.pending;
      }
    }
  }

  lemma RejectAllNone<W>(env: Env<W>, sent: seq<string>, s: Session, failure: Failure)
    requires NoneLost(env, sent, s)
    ensures NoneLost(env, sent, RejectAll(s, failure))
  {
    hide Reply;
    var s', n := RejectAll(s, failure), |s.settled|;
    forall i | 0 <= i < |sent| ensures IsPending(s', i) || IsSettled(s', i) || Unreadable(Reply(env, sent, i)) {
      if IsPending(s, i) {
        var j :| 0 <= j < |s.pending| && s.pending[j] == Id(i);
        assert s'.settled[n + j].0 == Id(i);
      } else if IsSettled(s, i) {
        var k :| 0 <= k < |s.settled| && s.settled[k].0 == Id(i);
        assert s'.settled[k] == s.settled[k];
      }
    }
  }

  lemma RejectAllInv<W>(env: Env<W>, sent: seq<string>, s: Session, failure: Failure)
    requires SessionInv(env, sent, s) && !failure.WorkerReported?
    ensures SessionInv(env, sent, RejectAll(s, failure))
  {
    hide SettledOnce, NoneLost;
    RejectAllSettled(env, sent, s, failure);
    RejectAllNone(env, sent, s, failure);
  }

  lemma FailTerminalInv<W>(env: Env<W>, sent: seq<string>, s: Session, failure: Failure)
    requires FreshIds(s, |sent|) && SettledOnce(env, sent, s) && NoneLost(env, sent, s)
    requires !failure.WorkerReported?
    ensures SessionInv(env, sent, Kill(FailTerminal(s, failure)))
  {
    var calm := s.(terminal := None, stdoutBytes := 0);
    assert forall i | 0 <= i < |sent| :: IsPending(s, i) == IsPending(calm, i) && IsSettled(s, i) == IsSettled(calm, i);
    RejectAllInv(env, sent, calm, failure);
    var s' := Kill(FailTerminal(s, failure));
    var t := RejectAll(calm, failure);
    assert s'.settled == t.settled && s'.pending == t.pending && s'.timers == t.timers;
    assert forall i | 0 <= i < |sent| :: IsPending(s', i) == IsPending(t, i) && IsSettled(s', i) == IsSettled(t, i);
  }

  /** Removing a request from the pending map and settling it as justified keeps everything. */
  lemma SettleInv<W>(env: Env<W>, sent: seq<string>, s: Session, i: nat, outcome: Settlement)
    requires SessionInv(env, sent, s) && i < |sent| && IsPending(s, i) && Justified(env, sent, i, outcome)
    ensures SessionInv(env, sent, Settle(s, Id(i)).(settled := s.settled + [(Id(i), outcome)]))
  {
    var s' := Settle(s, Id(i)).(settled := s.settled + [(Id(i), outcome)]);
    WithoutDistinct(s.pending, Id(i));
    var n := |s.settled|;
    assert s'.settled[n] == (Id(i), outcome);
    assert forall k | 0 <= k < n :: s'.settled[k] == s.settled[k];
    forall j | 0 <= j < |sent| ensures IsPending(s', j) || IsSettled(s', j) || Unreadable(Reply(env, sent, j)) {
      if IsSettled(s, j) {
        var k :| 0 <= k < n && s.settled[k].0 == Id(j);
        assert s'.settled[k].0 == Id(j);
      } else if IsPending(s, j) && Id(j) == Id(i) {
        assert s'.settled[n].0 == Id(j);
      }
    }
  }

  lemma LoseInv<W>(env: Env<W>, sent: seq<string>, s: Session, i: nat)
    requires SessionInv(env, sent, s) && i < |sent| && IsPending(s, i) && Unreadable(Reply(env, sent, i))
    ensures SessionInv(env, sent, Settle(s, Id(i)))
  {
    var s' := Settle(s, Id(i));
    WithoutDistinct(s.pending, Id(i));
    forall j | 0 <= j < |sent| ensures IsPending(s', j) || IsSettled(s', j) || Unreadable(Reply(env, sent, j)) {
      if Id(j) == Id(i) {
        assert Text.Value(Id(j)) == j + 1;
      } else {
        assert IsSettled(s, j) ==> IsSettled(s', j);
      }
    }
  }

  /** A step that touches no request keeps the invariant. */
  lemma SameRequests<W>(env: Env<W>, sent: seq<string>, s: Session, s': Session)
    requires SessionInv(env, sent, s)
    requires s'.pending == s.pending && s'.settled == s.settled && s'.nextId == s.nextId && s'.timers <= s.timers
    requires s'.terminal == s.terminal
    requires s'.stdoutBytes <= env.maxOutputBytes || s'.stdoutBytes == s.stdoutBytes
    ensures SessionInv(env, sent, s')
  {
    assert forall i | 0 <= i < |sent| :: IsPending(s', i) == IsPending(s, i) && IsSettled(s', i) == IsSettled(s, i);
  }

  lemma GreetingInv<W>(env: Env<W>, sent: seq<string>, s: Session)
    requires SessionInv(env, sent, s)
    ensures SessionInv(env, sent, HandleMessage(s, GREETING))
  {
    SameRequests(env, sent, s, HandleMessage(s, GREETING));
  }

  lemma ReplyInv<W>(env: Env<W>, sent: seq<string>, s: Session, i: nat)
    requires SessionInv(env, sent, s) && i < |sent|
    ensures SessionInv(env, sent, HandleMessage(s, Reply(env, sent, i)))
  {
    hide SessionInv;
    var m := Reply(env, sent, i);
    if m.id.id in s.pending {
      if Unreadable(m) {
        LoseInv(env, sent, s, i);
      } else {
        var outcome := if m.kind == "error" then Rejected(WorkerReported(m.errorType, m.message)) else Resolved(m);
        SettleInv(env, sent, s, i, outcome);
      }
    }
  }

  lemma {:induction false} WorkerAfterPrefix<W>(env: Env<W>, sent: seq<string>, more: seq<string>, n: nat)
    requires n <= |sent|
    ensures WorkerAfter(env, sent + more, n) == WorkerAfter(env, sent, n)
  {
    if n > 0 {
      WorkerAfterPrefix(env, sent, more, n - 1);
    }
  }

  /** Later commands change no earlier answer. */
  lemma ReplyPrefix<W>(env: Env<W>, sent: seq<string>, more: seq<string>, i: nat)
    requires i < |sent|
    ensures Reply(env, sent + more, i) == Reply(env, sent, i)
  {
    WorkerAfterPrefix(env, sent, more, i);
  }

  lemma {:induction false} OutputPrefix<W>(env: Env<W>, sent: seq<string>, more: seq<string>, n: nat)
    requires n <= |sent|
    ensures Output(env, sent + more, n) == Output(env, sent, n)
  {
    if n > 0 {
      OutputPrefix(env, sent, more, n - 1);
      ReplyPrefix(env, sent, more, n - 1);
    }
  }

  /** A longer command list justifies every earlier settlement as before. */
  lemma JustifiedPrefix<W>(env: Env<W>, sent: seq<string>, more: seq<string>, i: nat, outcome: Settlement)
    requires i < |sent| && Justified(env, sent, i, outcome)
    ensures Justified(env, sent + more, i, outcome)
  {
    ReplyPrefix(env, sent, more, i);
  }

  lemma SendFresh(s: Session, n: nat)
    requires FreshIds(s, n) && s.terminal.None? && !s.closed
    ensures FreshIds(Send(s), n + 1) && Send(s).pending == s.pending + [Id(n)] && Id(n) !in s.pending
  {
    assert Text.Value(Id(n)) == n + 1;
    var s' := Send(s);
    assert Id(n) !in s.pending;
    assert forall i | 0 <= i < |s.pending| :: s'.pending[i] == s.pending[i] && s.pending[i] in s.pending;
    forall x | x in s'.pending ensures exists i | 0 <= i < n + 1 :: x == Id(i) {
      if x in s.pending {
        var i :| 0 <= i < n && x == Id(i);
        assert 0 <= i < n + 1;
      } else {
        assert x == Id(n);
      }
    }
  }

  lemma SendSettled<W>(env: Env<W>, sent: seq<string>, s: Session, command: string)
    requires SettledOnce(env, sent, s) && Send(s).pending == s.pending + [Id(|sent|)] && Send(s).settled == s.settled
    ensures SettledOnce(env, sent + [command], Send(s))
  {
    var s', n := Send(s), |sent|;
    forall k | 0 <= k < |s'.settled|
      ensures s'.settled[k].0 !in s'.pending
      ensures Explained(env, sent + [command], s'.settled[k])
    {
      assert Explained(env, sent, s.settled[k]);
      var i :| 0 <= i < n && s.settled[k].0 == Id(i) && Justified(env, sent, i, s.settled[k].1);
      JustifiedPrefix(env, sent, [command], i, s.settled[k].1);
      assert Text.Value(Id(i)) == i + 1;
    }
  }

  lemma SendInv<W>(env: Env<W>, sent: seq<string>, s: Session, command: string)
    requires SessionInv(env, sent, s) && s.terminal.None? && !s.closed
    ensures SessionInv(env, sent + [command], Send(s))
  {
    hide FreshIds, SettledOnce;
    var s', sent', n := Send(s), sent + [command], |sent|;
    SendFresh(s, n);
    SendSettled(env, sent, s, command);
    forall i | 0 <= i < |sent'| ensures IsPending(s', i) || IsSettled(s', i) || Unreadable(Reply(env, sent', i)) {
      if i < n {
        ReplyPrefix(env, sent, [command], i);
        assert IsPending(s, i) ==> IsPending(s', i);
        assert IsSettled(s, i) ==> IsSettled(s', i);
      } else {
        assert s'.pending[|s.pending|] == Id(n);
      }
    }
  }

  // ----- Lines on the wire ------------------------------------------------------------

  /** The text is what the worker writes, from line `handled` on, for the commands sent so far. */
  ghost predicate Aligned<W>(env: Env<W>, sent: seq<string>, text: string, handled: nat) {
    handled <= |sent| + 1 && text == Unlines(Output(env, sent, |sent|)[handled..])
  }

  lemma {:induction false} UnlinesAppend(a: seq<string>, b: seq<string>)
    ensures Unlines(a + b) == Unlines(a) + Unlines(b)
  {
    if a == [] {
      assert a + b == b;
    } else {
      assert (a + b)[1..] == a[1..] + b;
      UnlinesAppend(a[1..], b);
    }
  }

  lemma {:induction false} OutputLines<W>(env: Env<W>, sent: seq<string>, n: nat, i: nat)
    requires i <= n <= |sent|
    ensures Output(env, sent, n)[i] == env.encode(if i == 0 then GREETING else Reply(env, sent, i - 1))
  {
    if i < n {
      OutputLines(env, sent, n - 1, i);
    }
  }

  lemma {:induction false} NewlineAt(line: string, rest: string)
    requires '\n' !in line
    ensures NewlineIndex(line + "\n" + rest) == |line|
  {
    var w := line + "\n" + rest;
    if line != "" {
      assert line[0] in line;
      assert w[1..] == line[1..] + "\n" + rest;
      NewlineAt(line[1..], rest);
    }
  }

  /** The first complete line of an aligned text is the next line the worker wrote. */
  lemma AlignedLine<W>(env: Env<W>, sent: seq<string>, buffer: string, wire: string, handled: nat)
    requires Codec(env) && Aligned(env, sent, buffer + wire, handled) && NewlineIndex(buffer) != -1
    ensures handled <= |sent|
    ensures buffer[..NewlineIndex(buffer)]
         == env.encode(if handled == 0 then GREETING else Reply(env, sent, handled - 1))
    ensures Aligned(env, sent, buffer[NewlineIndex(buffer) + 1..] + wire, handled + 1)
  {
    hide NewlineIndex, Output, Reply;
    var lines, k := Output(env, sent, |sent|), NewlineIndex(buffer);
    var text := buffer + wire;
    NewlineAppend(buffer, wire);
    assert handled < |lines|;
    var line, rest := lines[handled], Unlines(lines[handled + 1..]);
    OutputLines(env, sent, |sent|, handled);
    assert lines[handled..][0] == line && lines[handled..][1..] == lines[handled + 1..];
    assert text == line + "\n" + rest;
    NewlineAt(line, rest);
    assert k == |line|;
    assert buffer[..k] == text[..k] == line;
    assert buffer[k + 1..] + wire == text[k + 1..] == rest;
  }

  lemma CodecReads<W>(env: Env<W>, m: Incoming)
    requires Codec(env)
    ensures env.decode(env.encode(m)) == Some(m) && Trim(env.encode(m)) != ""
  {
  }

  lemma MessageFrame(s: Session, m: Incoming)
    ensures HandleMessage(s, m).buffer == s.buffer && HandleMessage(s, m).stdoutBytes == s.stdoutBytes
  {
  }

  /** Draining an aligned buffer handles the worker's own replies, in order, and keeps the invariant. */
  lemma {:induction false} DrainInv<W>(env: Env<W>, sent: seq<string>, s: Session, wire: string, handled: nat)
    returns (handled': nat)
    requires Codec(env) && SessionInv(env, sent, s) && Aligned(env, sent, s.buffer + wire, handled)
    requires s.stdoutBytes <= env.maxOutputBytes
    ensures SessionInv(env, sent, Drain(ConfigOf(env), s))
    ensures Aligned(env, sent, Drain(ConfigOf(env), s).buffer + wire, handled')
    decreases |s.buffer|
  {
    hide SessionInv, Aligned, HandleMessage, Codec, Reply, NewlineIndex;
    var c, k := ConfigOf(env), NewlineIndex(s.buffer);
    handled' := handled;
    if k != -1 {
      AlignedLine(env, sent, s.buffer, wire, handled);
      var line, cut := s.buffer[..k], s.(buffer := s.buffer[k + 1..]);
      var m := if handled == 0 then GREETING else Reply(env, sent, handled - 1);
      CodecReads(env, m);
      SameRequests(env, sent, s, cut);
      if handled == 0 {
        GreetingInv(env, sent, cut);
      } else {
        ReplyInv(env, sent, cut, handled - 1);
      }
      DrainLineBuffer(c, s);
      MessageFrame(cut, m);
      var next := DrainLine(c, s);
      assert next == HandleMessage(cut, m);
      handled' := handled + 1;
      if !DrainLineThrows(c, s) {
        handled' := DrainInv(env, sent, next, wire, handled + 1);
      }
    }
  }

  // ----- Whole runs -----------------------------------------------------------------

  /** What the worker has yet to write if it handles every command sent. */
  function Unwritten<W>(env: Env<W>, sys: System<W>): string
    requires sys.taken <= |sys.sent|
  {
    Unlines(Output(env, sys.sent, |sys.sent|)[sys.taken + 1..])
  }

  /** Of the answer after those given, if any, at least the line's end was never written. */
  ghost predicate Withheld<W>(env: Env<W>, sent: seq<string>, taken: nat, missing: string)
    requires taken <= |sent|
  {
    taken < |sent| ==> |missing| > |Unlines(Output(env, sent, |sent|)[taken + 2..])|
  }

  /** Together with `missing`, the undrained and undelivered text is the worker's output from line `handled` on. */
  ghost predicate WireAt<W>(env: Env<W>, sys: System<W>, missing: string, handled: nat)
    requires sys.taken <= |sys.sent|
  {
    && Aligned(env, sys.sent, sys.session.buffer + (sys.wire + missing), handled)
    && if sys.running then missing == Unwritten(env, sys) else Withheld(env, sys.sent, sys.taken, missing)
  }

  predicate Local(outcome: Settlement) {
    outcome.Rejected? && !outcome.failure.WorkerReported?
  }

  /** What was not settled locally is one of the first n requests. */
  ghost predicate Answered(settled: seq<(string, Settlement)>, n: nat) {
    forall k | 0 <= k < |settled| && !Local(settled[k].1) :: exists i | 0 <= i < n :: settled[k].0 == Id(i)
  }

  /** Only the last command taken can have stopped the worker. */
  ghost predicate Unstopped<W>(env: Env<W>, sent: seq<string>, taken: nat, running: bool)
    requires taken <= |sent|
  {
    forall i | 0 <= i < taken && AnswerTo(env, sent, i).stop :: i + 1 == taken && !running
  }

  ghost predicate Inv<W>(env: Env<W>, sys: System<W>) {
    && SessionInv(env, sys.sent, sys.session)
    && sys.taken <= |sys.sent|
    && Answered(sys.session.settled, sys.taken)
    && Unstopped(env, sys.sent, sys.taken, sys.running)
    && (sys.running ==> sys.worker == WorkerAfter(env, sys.sent, sys.taken))
    && (sys.session.stdoutBytes <= env.maxOutputBytes ==>
          exists missing, handled: nat :: WireAt(env, sys, missing, handled))
  }

  lemma StartInv<W>(env: Env<W>)
    ensures Inv(env, Start(env))
  {
    var sys := Start(env);
    var lines := Output(env, [], 0);
    assert lines[0..] == lines && lines[1..] == [];
    assert WireAt(env, sys, "", 0) by {
      assert Unlines(lines) == env.encode(GREETING) + "\n" + "";
      assert "" + (sys.wire + "") == sys.wire;
    }
  }

  /** Whatever is settled on the way is settled without the worker. */
  ghost predicate LocallySettled(before: Session, after: Session) {
    before.settled <= after.settled
    && forall k | |before.settled| <= k < |after.settled| :: Local(after.settled[k].1)
  }

  lemma StillAnswered(before: Session, after: Session, n: nat)
    requires Answered(before.settled, n) && LocallySettled(before, after)
    ensures Answered(after.settled, n)
  {
    forall k | 0 <= k < |after.settled| && !Local(after.settled[k].1)
      ensures exists i | 0 <= i < n :: after.settled[k].0 == Id(i)
    {
      assert after.settled[k] == before.settled[k];
    }
  }

  lemma MoreAnswered(settled: seq<(string, Settlement)>, n: nat)
    requires Answered(settled, n)
    ensures Answered(settled, n + 1)
  {
    forall k | 0 <= k < |settled| && !Local(settled[k].1) ensures exists i | 0 <= i < n + 1 :: settled[k].0 == Id(i) {
      var i :| 0 <= i < n && settled[k].0 == Id(i);
      assert 0 <= i < n + 1;
    }
  }

  /** A step that leaves buffer, bytes and worker alone keeps the wire as it was. */
  lemma SameWire<W>(env: Env<W>, sys: System<W>, session: Session)
    requires Inv(env, sys) && SessionInv(env, sys.sent, session)
    requires session.buffer == sys.session.buffer && session.stdoutBytes == sys.session.stdoutBytes
    requires LocallySettled(sys.session, session)
    ensures Inv(env, sys.(session := session))
  {
    StillAnswered(sys.session, session, sys.taken);
    hide SessionInv, Aligned, Output, Unlines, WorkerAfter, Answered, Unstopped;
    var sys' := sys.(session := session);
    if session.stdoutBytes <= env.maxOutputBytes {
      var missing: string, handled: nat :| WireAt(env, sys, missing, handled);
      assert WireAt(env, sys', missing, handled);
    }
  }

  lemma SendOutput<W>(env: Env<W>, sent: seq<string>, command: string, from: nat)
    requires from <= |sent| + 1
    ensures Unlines(Output(env, sent + [command], |sent| + 1)[from..])
         == Unlines(Output(env, sent, |sent|)[from..]) + (env.encode(Reply(env, sent + [command], |sent|)) + "\n")
  {
    var n := |sent|;
    var lines, line := Output(env, sent, n), env.encode(Reply(env, sent + [command], n));
    OutputPrefix(env, sent, [command], n);
    assert Output(env, sent + [command], n + 1) == lines + [line];
    assert (lines + [line])[from..] == lines[from..] + [line];
    UnlinesAppend(lines[from..], [line]);
    assert Unlines([line]) == line + "\n" + "";
  }

  lemma NoLines()
    ensures Unlines([]) == ""
  {
  }

  lemma SendWithheld<W>(env: Env<W>, sent: seq<string>, taken: nat, command: string, missing: string)
    requires taken <= |sent| && Withheld(env, sent, taken, missing)
    ensures Withheld(env, sent + [command], taken,
                     missing + (env.encode(Reply(env, sent + [command], |sent|)) + "\n"))
  {
    hide Unlines, Output, Reply;
    if taken < |sent| {
      SendOutput(env, sent, command, taken + 2);
    } else {
      assert Output(env, sent + [command], |sent| + 1)[taken + 2..] == [];
      NoLines();
    }
  }

  lemma UnstoppedPrefix<W>(env: Env<W>, sent: seq<string>, more: seq<string>, taken: nat, running: bool)
    requires taken <= |sent| && Unstopped(env, sent, taken, running)
    ensures Unstopped(env, sent + more, taken, running)
  {
    hide WorkerAfter;
    forall i | 0 <= i < taken ensures AnswerTo(env, sent + more, i) == AnswerTo(env, sent, i) {
      WorkerAfterPrefix(env, sent, more, i);
    }
  }

  lemma SendWire<W>(env: Env<W>, sys: System<W>, command: string, missing: string, handled: nat)
    requires sys.taken <= |sys.sent| && WireAt(env, sys, missing, handled)
    requires sys.session.terminal.None? && !sys.session.closed
    ensures var sys' := Next(env, sys, SendCommand(command));
      WireAt(env, sys', missing + (env.encode(Reply(env, sys'.sent, |sys.sent|)) + "\n"), handled)
  {
    hide Unlines, Output, Reply;
    var sys', n := Next(env, sys, SendCommand(command)), |sys.sent|;
    var more := env.encode(Reply(env, sys'.sent, n)) + "\n";
    SendOutput(env, sys.sent, command, handled);
    assert sys.session.buffer + (sys.wire + (missing + more)) == (sys.session.buffer + (sys.wire + missing)) + more;
    if sys.running {
      SendOutput(env, sys.sent, command, sys.taken + 1);
    } else {
      SendWithheld(env, sys.sent, sys.taken, command, missing);
    }
  }

  lemma SendStep<W>(env: Env<W>, sys: System<W>, command: string)
    requires Inv(env, sys)
    ensures Inv(env, Next(env, sys, SendCommand(command)))
  {
    hide SessionInv, WireAt, Unlines, Output, Reply, WorkerAfter, Answered, Unstopped;
    var sys' := Next(env, sys, SendCommand(command));
    if sys.session.terminal.None? && !sys.session.closed {
      SendInv(env, sys.sent, sys.session, command);
      WorkerAfterPrefix(env, sys.sent, [command], sys.taken);
      UnstoppedPrefix(env, sys.sent, [command], sys.taken, sys.running);
      if sys.session.stdoutBytes <= env.maxOutputBytes {
        var missing: string, handled: nat :| WireAt(env, sys, missing, handled);
        SendWire(env, sys, command, missing, handled);
      }
    }
  }

  /** The next line of the unwritten output is the worker's answer to the command it takes. */
  lemma UnwrittenNext<W>(env: Env<W>, sys: System<W>)
    requires sys.taken < |sys.sent|
    ensures Unwritten(env, sys)
         == env.encode(Reply(env, sys.sent, sys.taken)) + "\n" + Unwritten(env, sys.(taken := sys.taken + 1))
  {
    var lines := Output(env, sys.sent, |sys.sent|);
    OutputLines(env, sys.sent, |sys.sent|, sys.taken + 1);
    var rest := lines[sys.taken + 1..];
    assert rest[0] == lines[sys.taken + 1] && rest[1..] == lines[sys.taken + 2..];
  }

  lemma WorkStops<W>(env: Env<W>, sys: System<W>)
    requires Inv(env, sys) && Enabled(env, sys, Work)
    ensures var sys' := Next(env, sys, Work); Unstopped(env, sys'.sent, sys'.taken, sys'.running)
  {
    hide SessionInv, WireAt, WorkerAfter, Answered;
  }

  lemma WorkWire<W>(env: Env<W>, sys: System<W>, missing: string, handled: nat)
    requires Inv(env, sys) && Enabled(env, sys, Work) && WireAt(env, sys, missing, handled)
    ensures var sys' := Next(env, sys, Work); WireAt(env, sys', Unwritten(env, sys'), handled)
  {
    hide SessionInv, Aligned, Answered, Unstopped, Output, Unlines, WorkerAfter;
    var sys' := Next(env, sys, Work);
    var line, left := env.encode(Reply(env, sys.sent, sys.taken)), Unwritten(env, sys');
    assert sys'.wire == sys.wire + line + "\n";
    UnwrittenNext(env, sys);
    assert sys'.wire + left == sys.wire + missing;
    if sys'.taken < |sys'.sent| {
      UnwrittenNext(env, sys');
    }
  }

  lemma WorkStep<W>(env: Env<W>, sys: System<W>)
    requires Inv(env, sys) && Enabled(env, sys, Work)
    ensures Inv(env, Next(env, sys, Work))
  {
    WorkStops(env, sys);
    MoreAnswered(sys.session.settled, sys.taken);
    if sys.session.stdoutBytes <= env.maxOutputBytes {
      var missing: string, handled: nat :| WireAt(env, sys, missing, handled);
      WorkWire(env, sys, missing, handled);
    }
    hide SessionInv, Answered, Unstopped, WireAt;
  }

  lemma DieStep<W>(env: Env<W>, sys: System<W>, written: nat)
    requires Inv(env, sys) && Enabled(env, sys, Die(written))
    ensures Inv(env, Next(env, sys, Die(written)))
  {
    hide SessionInv, Answered, Output, Unlines, WorkerAfter, Aligned;
    var sys' := Next(env, sys, Die(written));
    if sys.session.stdoutBytes <= env.maxOutputBytes {
      var missing: string, handled: nat :| WireAt(env, sys, missing, handled);
      if sys.taken < |sys.sent| {
        UnwrittenNext(env, sys);
      }
      assert sys'.wire + missing[written..] == sys.wire + missing;
      assert WireAt(env, sys', missing[written..], handled);
    }
  }

  /** Lines that are not complete are not beyond what the worker wrote. */
  lemma AlignedBound<W>(env: Env<W>, sent: seq<string>, text: string, handled: nat, taken: nat)
    requires taken <= |sent| && Aligned(env, sent, text, handled) && Withheld(env, sent, taken, text)
    ensures handled <= taken + 1
  {
    hide Unlines, Output;
    var lines := Output(env, sent, |sent|);
    if handled > taken + 1 {
      assert lines[taken + 2..] == lines[taken + 2..handled] + lines[handled..];
      UnlinesAppend(lines[taken + 2..handled], lines[handled..]);
    }
  }

  lemma WithheldMore<W>(env: Env<W>, sent: seq<string>, taken: nat, missing: string, more: string)
    requires taken <= |sent| && Withheld(env, sent, taken, missing)
    ensures Withheld(env, sent, taken, more + missing)
  {
  }

  /** Handling the worker's answer to command i settles, if anything, request i. */
  lemma ReplyAnswers<W>(env: Env<W>, sent: seq<string>, s: Session, i: nat, n: nat)
    requires i < |sent| && i < n && Answered(s.settled, n)
    ensures Answered(HandleMessage(s, Reply(env, sent, i)).settled, n)
  {
    var s' := HandleMessage(s, Reply(env, sent, i));
    forall k | 0 <= k < |s'.settled| && !Local(s'.settled[k].1)
      ensures exists j | 0 <= j < n :: s'.settled[k].0 == Id(j)
    {
      if k < |s.settled| {
        assert s'.settled[k] == s.settled[k];
      } else {
        assert s'.settled[k].0 == Id(i);
      }
    }
  }

  /** Draining settles only requests that the worker has answered. */
  lemma {:induction false} DrainAnswers<W>(
    env: Env<W>, sent: seq<string>, s: Session, wire: string, handled: nat, taken: nat)
    requires Codec(env) && Aligned(env, sent, s.buffer + wire, handled) && Answered(s.settled, taken)
    requires taken <= |sent| && Withheld(env, sent, taken, wire)
    ensures Answered(Drain(ConfigOf(env), s).settled, taken)
    decreases |s.buffer|
  {
    hide Aligned, HandleMessage, Codec, Reply, NewlineIndex, Answered, Withheld;
    var c, k := ConfigOf(env), NewlineIndex(s.buffer);
    if k != -1 {
      AlignedLine(env, sent, s.buffer, wire, handled);
      var line, cut := s.buffer[..k], s.(buffer := s.buffer[k + 1..]);
      WithheldMore(env, sent, taken, wire, cut.buffer);
      AlignedBound(env, sent, cut.buffer + wire, handled + 1, taken);
      var m := if handled == 0 then GREETING else Reply(env, sent, handled - 1);
      CodecReads(env, m);
      if handled > 0 {
        ReplyAnswers(env, sent, cut, handled - 1, taken);
      }
      GreetingSettles(cut);
      DrainLineBuffer(c, s);
      MessageFrame(cut, m);
      var next := DrainLine(c, s);
      assert next == HandleMessage(cut, m);
      if !DrainLineThrows(c, s) {
        DrainAnswers(env, sent, next, wire, handled + 1, taken);
      }
    }
  }

  lemma GreetingSettles(s: Session)
    ensures HandleMessage(s, GREETING).settled == s.settled
  {
  }

  lemma MissingWithheld<W>(env: Env<W>, sys: System<W>, missing: string, handled: nat, more: string)
    requires sys.taken <= |sys.sent| && WireAt(env, sys, missing, handled)
    ensures Withheld(env, sys.sent, sys.taken, more + missing)
  {
    hide Aligned;
    if sys.running && sys.taken < |sys.sent| {
      UnwrittenNext(env, sys);
    }
  }

  lemma DeliverStep<W>(env: Env<W>, sys: System<W>, bytes: nat)
    requires Codec(env) && Inv(env, sys) && Enabled(env, sys, Deliver(bytes))
    ensures Inv(env, Next(env, sys, Deliver(bytes)))
  {
    hide SessionInv, Drain, FailTerminal, Aligned, Codec, Output, WorkerAfter, Answered, Unstopped, Withheld;
    var sys', s := Next(env, sys, Deliver(bytes)), sys.session;
    var received := Received(s, sys.wire[..bytes]);
    if received.stdoutBytes > env.maxOutputBytes {
      OverflowInv(env, sys.sent, s, s.stdoutBytes + bytes);
      FailSettles(s.(stdoutBytes := s.stdoutBytes + bytes), OutputLimit);
      StillAnswered(s, sys'.session, sys.taken);
    } else {
      var missing: string, handled: nat :| WireAt(env, sys, missing, handled);
      SameRequests(env, sys.sent, s, received);
      assert received.buffer + (sys.wire[bytes..] + missing) == s.buffer + (sys.wire + missing);
      var handled' := DrainInv(env, sys.sent, received, sys.wire[bytes..] + missing, handled);
      MissingWithheld(env, sys, missing, handled, sys.wire[bytes..]);
      DrainAnswers(env, sys.sent, received, sys.wire[bytes..] + missing, handled, sys.taken);
      assert WireAt(env, sys', missing, handled');
    }
  }

  lemma RejectSettles(s: Session, failure: Failure)
    requires !failure.WorkerReported?
    ensures LocallySettled(s, RejectAll(s, failure))
  {
  }

  lemma FailSettles(s: Session, failure: Failure)
    requires !failure.WorkerReported?
    ensures LocallySettled(s, Kill(FailTerminal(s, failure)))
  {
  }

  lemma OverflowInv<W>(env: Env<W>, sent: seq<string>, s: Session, bytes: nat)
    requires SessionInv(env, sent, s) && bytes > env.maxOutputBytes
    ensures var s' := Kill(FailTerminal(s.(stdoutBytes := bytes), OutputLimit));
            SessionInv(env, sent, s') && s'.stdoutBytes == bytes
  {
    var t := s.(stdoutBytes := bytes);
    assert forall i | 0 <= i < |sent| :: IsPending(t, i) == IsPending(s, i) && IsSettled(t, i) == IsSettled(s, i);
    FailTerminalInv(env, sent, t, OutputLimit);
  }

  lemma LocalSettles<W>(env: Env<W>, sys: System<W>, event: Event)
    requires Enabled(env, sys, event)
    requires event.Stderr? || event.Expiry? || event.IdleExpiry? || event.Broken? || event.Closed? || event.CloseDone?
    ensures LocallySettled(sys.session, Next(env, sys, event).session)
  {
  }

  lemma LocalKeeps<W>(env: Env<W>, sys: System<W>, event: Event)
    requires SessionInv(env, sys.sent, sys.session) && Enabled(env, sys, event)
    requires event.Stderr? || event.Expiry? || event.IdleExpiry? || event.Broken? || event.Closed? || event.CloseDone?
    ensures SessionInv(env, sys.sent, Next(env, sys, event).session)
  {
    hide SessionInv, SettledOnce, NoneLost;
    var s, sent := sys.session, sys.sent;
    var s' := Next(env, sys, event).session;
    match event
    case Stderr(bytes) =>
      var t := s.(stderrBytes := s.stderrBytes + bytes);
      SameRequests(env, sent, s, t);
      StderrInv(env, sent, t);
    case Expiry(id) =>
      ExpiryInv(env, sent, s, id);
    case IdleExpiry =>
      RejectAllInv(env, sent, s, IdleTimeout);
      SameRequests(env, sent, RejectAll(s, IdleTimeout), s');
    case Broken =>
      RejectAllInv(env, sent, s, ChildError);
    case Closed =>
      SameRequests(env, sent, s, Cleanup(s));
      RejectAllInv(env, sent, Cleanup(s), WorkerExit);
    case CloseDone =>
      SameRequests(env, sent, s, s');
  }

  lemma LocalFrame<W>(env: Env<W>, sys: System<W>, event: Event)
    requires Enabled(env, sys, event)
    requires event.Stderr? || event.Expiry? || event.IdleExpiry? || event.Broken? || event.Closed? || event.CloseDone?
    ensures var sys' := Next(env, sys, event);
      && sys' == sys.(session := sys'.session)
      && sys'.session.buffer == sys.session.buffer && sys'.session.stdoutBytes == sys.session.stdoutBytes
  {
  }

  lemma LocalStep<W>(env: Env<W>, sys: System<W>, event: Event)
    requires Inv(env, sys) && Enabled(env, sys, event)
    requires event.Stderr? || event.Expiry? || event.IdleExpiry? || event.Broken? || event.Closed? || event.CloseDone?
    ensures Inv(env, Next(env, sys, event))
  {
    LocalFrame(env, sys, event);
    LocalSettles(env, sys, event);
    assert SessionInv(env, sys.sent, sys.session);
    hide Inv, SessionInv, LocallySettled, Next;
    LocalKeeps(env, sys, event);
    SameWire(env, sys, Next(env, sys, event).session);
  }

  lemma StderrInv<W>(env: Env<W>, sent: seq<string>, s: Session)
    requires SessionInv(env, sent, s)
    ensures SessionInv(env, sent, Kill(FailTerminal(s, OutputLimit)))
  {
    FailTerminalInv(env, sent, s, OutputLimit);
  }

  lemma ExpiryInv<W>(env: Env<W>, sent: seq<string>, s: Session, id: string)
    requires SessionInv(env, sent, s) && id in s.timers
    ensures SessionInv(env, sent, Expire(s, id))
  {
    assert id in s.pending;
    var i :| 0 <= i < |sent| && id == Id(i);
    var t := Settle(s, id).(settled := s.settled + [(id, Rejected(CommandTimeout))]);
    SettleInv(env, sent, s, i, Rejected(CommandTimeout));
    SameRequests(env, sent, t, Expire(s, id));
  }

  lemma StepInv<W>(env: Env<W>, sys: System<W>, event: Event)
    requires Codec(env) && Inv(env, sys) && Enabled(env, sys, event)
    ensures Inv(env, Next(env, sys, event))
  {
    match event
    case SendCommand(command) => SendStep(env, sys, command);
    case Work => WorkStep(env, sys);
    case Die(written) => DieStep(env, sys, written);
    case Deliver(bytes) => DeliverStep(env, sys, bytes);
    case _ => LocalStep(env, sys, event);
  }

  lemma {:induction false} ReachableInv<W(!new)>(env: Env<W>, sys: System<W>, events: seq<Event>)
    requires Codec(env) && Reachable(env, sys, events)
    ensures Inv(env, sys)
    decreases |events|
  {
    if events == [] {
      StartInv(env);
    } else {
      var n := |events| - 1;
      var before: System<W> :|
        Reachable(env, before, events[..n]) && Enabled(env, before, events[n]) && sys == Next(env, before, events[n]);
      ReachableInv(env, before, events[..n]);
      StepInv(env, before, events[n]);
    }
  }

  /**
   The settlement belongs to a command sent: it is a local failure, or what the answer calls for that the worker
   gave to that command, in the state its predecessors left, before any other command stopped it.
   */
  ghost predicate Accounts<W>(env: Env<W>, sys: System<W>, entry: (string, Settlement)) {
    exists i | 0 <= i < |sys.sent| ::
      && entry.0 == Id(i)
      && Justified(env, sys.sent, i, entry.1)
      && (Local(entry.1) || (i < sys.taken && forall j | 0 <= j < i :: !AnswerTo(env, sys.sent, j).stop))
  }

  lemma AccountsFor<W>(env: Env<W>, sys: System<W>, k: nat)
    requires Inv(env, sys) && k < |sys.session.settled|
    ensures Accounts(env, sys, sys.session.settled[k])
  {
    var entry := sys.session.settled[k];
    assert Explained(env, sys.sent, entry);
    var i :| 0 <= i < |sys.sent| && entry.0 == Id(i) && Justified(env, sys.sent, i, entry.1);
    if !Local(entry.1) {
      var j :| 0 <= j < sys.taken && entry.0 == Id(j);
      assert Text.Value(Id(i)) == i + 1 && Text.Value(Id(j)) == j + 1;
    }
  }

  /**
   Safety of every run: ids are fresh, a request settles at most once and never while pending, what settles it
   is accounted for, and after a terminal error nothing is pending.
   */
  lemma EveryRun<W(!new)>(env: Env<W>, sys: System<W>, events: seq<Event>)
    requires Codec(env) && Reachable(env, sys, events)
    ensures sys.session.nextId == |sys.sent| + 1
    ensures forall j, k | 0 <= j < k < |sys.session.settled| :: sys.session.settled[j].0 != sys.session.settled[k].0
    ensures forall k | 0 <= k < |sys.session.settled| ::
              sys.session.settled[k].0 !in sys.session.pending && Accounts(env, sys, sys.session.settled[k])
    ensures sys.session.terminal.Some? ==> sys.session.pending == []
  {
    ReachableInv(env, sys, events);
    forall k | 0 <= k < |sys.session.settled| ensures Accounts(env, sys, sys.session.settled[k]) {
      AccountsFor(env, sys, k);
    }
  }

  lemma TakenIsSent<W(!new)>(env: Env<W>, sys: System<W>, events: seq<Event>)
    requires Codec(env) && Reachable(env, sys, events)
    ensures sys.taken <= |sys.sent|
  {
    ReachableInv(env, sys, events);
  }

  /** Only an unreadable error report can leave a request neither pending nor settled. */
  lemma LostWasUnreadable<W(!new)>(env: Env<W>, sys: System<W>, events: seq<Event>, i: nat)
    requires Codec(env) && Reachable(env, sys, events) && i < |sys.sent|
    requires !IsPending(sys.session, i) && !IsSettled(sys.session, i)
    ensures Unreadable(Reply(env, sys.sent, i))
  {
    ReachableInv(env, sys, events);
  }

  /** With readable error reports, every request is pending or settled, and never both. */
  lemma {:induction false} PendingOrSettled<W(!new)>(env: Env<W>, sys: System<W>, events: seq<Event>, i: nat)
    requires Codec(env) && Reachable(env, sys, events) && i < |sys.sent|
    requires forall j | 0 <= j < |sys.sent| :: !Unreadable(Reply(env, sys.sent, j))
    ensures IsPending(sys.session, i) != IsSettled(sys.session, i)
  {
    ReachableInv(env, sys, events);
    assert !Unreadable(Reply(env, sys.sent, i));
  }

  /** A delivery that takes a request off the pending map settles it exactly when the report is readable. */
  lemma RemovalSettles(s: Session, m: Incoming)
    requires m.id.TextId? && m.id.id in s.pending && Distinct(s.pending)
    requires forall k | 0 <= k < |s.settled| :: s.settled[k].0 !in s.pending
    ensures m.id.id !in HandleMessage(s, m).pending
    ensures (exists k | 0 <= k < |HandleMessage(s, m).settled| :: HandleMessage(s, m).settled[k].0 == m.id.id)
       <==> !Unreadable(m)
  {
    var s', n := HandleMessage(s, m), |s.settled|;
    if !Unreadable(m) {
      assert s'.settled[n].0 == m.id.id;
    }
  }

  /** Draining a greeting and an unreadable report of the only pending request. */
  lemma DrainUnreadable<W>(env: Env<W>, s: Session, command: string)
    requires Codec(env) && Unreadable(Reply(env, [command], 0)) && s.pending == [Id(0)]
    requires s.buffer == env.encode(GREETING) + "\n" + env.encode(Reply(env, [command], 0)) + "\n"
    ensures Drain(ConfigOf(env), s).pending == [] && Drain(ConfigOf(env), s).settled == s.settled
  {
    hide Drain;
    var greeting, line := env.encode(GREETING), env.encode(Reply(env, [command], 0));
    assert s.buffer == greeting + "\n" + (line + "\n");
    DrainNext(env, s, GREETING, line + "\n");
    var t := HandleMessage(s.(buffer := line + "\n"), GREETING);
    assert t.buffer == line + "\n" + "";
    DrainNext(env, t, Reply(env, [command], 0), "");
    assert Without([Id(0)], Id(0)) == Without([Id(0)][1..], Id(0)) == [];
  }

  /** Draining one encoded message off the front of the buffer. */
  lemma DrainNext<W>(env: Env<W>, s: Session, m: Incoming, rest: string)
    requires Codec(env) && s.buffer == env.encode(m) + "\n" + rest
    ensures var s' := HandleMessage(s.(buffer := rest), m);
            Drain(ConfigOf(env), s) == if Throws(s, m) then s' else Drain(ConfigOf(env), s')
  {
    var line := env.encode(m);
    NewlineAt(line, rest);
    assert s.buffer[..|line|] == line && s.buffer[|line| + 1..] == rest;
  }

  /** One command sent and handled, nothing delivered. */
  function Handled<W>(env: Env<W>, command: string): System<W> {
    var (worker, answer) := env.step(env.start, command);
    System(Send(FRESH), [command], 1, worker, !answer.stop,
           env.encode(GREETING) + "\n" + env.encode(Reply(env, [command], 0)) + "\n")
  }

  lemma HandledReachable<W(!new)>(env: Env<W>, command: string)
    ensures Reachable(env, Handled(env, command), [SendCommand(command), Work])
  {
    var sys0 := Start(env);
    ReachOne(env, sys0, [], SendCommand(command));
    var sys1 := Next(env, sys0, SendCommand(command));
    assert [] + [command] == [command];
    assert sys1.sent == [command] && sys1.worker == env.start;
    assert [] + [SendCommand(command)] == [SendCommand(command)];
    ReachOne(env, sys1, [SendCommand(command)], Work);
    assert [SendCommand(command)] + [Work] == [SendCommand(command), Work];
    assert Next(env, sys1, Work) == Handled(env, command);
  }

  /** An unreadable report leaves its request neither pending nor settled. */
  lemma UnreadableLosesRequest<W(!new)>(env: Env<W>, command: string) returns (sys: System<W>, events: seq<Event>)
    requires Codec(env) && Unreadable(Reply(env, [command], 0))
    requires |env.encode(GREETING)| + |env.encode(Reply(env, [command], 0))| + 2 <= env.maxOutputBytes
    ensures Reachable(env, sys, events) && sys.sent == [command]
    ensures !IsPending(sys.session, 0) && !IsSettled(sys.session, 0)
  {
    hide Drain, Reply, Reachable, HandleMessage, FailTerminal, Decimal, Unreadable;
    var before := Handled(env, command);
    HandledReachable(env, command);
    var deliver := Deliver(|before.wire|);
    sys := Next(env, before, deliver);
    events := [SendCommand(command), Work] + [deliver];
    ReachOne(env, before, [SendCommand(command), Work], deliver);
    var received := Received(before.session, before.wire[..|before.wire|]);
    assert received.buffer == before.wire;
    assert received.pending == [Id(0)];
    DrainUnreadable(env, received, command);
    assert sys.session == Drain(ConfigOf(env), received);
  }

  lemma ReachOne<W(!new)>(env: Env<W>, sys: System<W>, events: seq<Event>, event: Event)
    requires Reachable(env, sys, events) && Enabled(env, sys, event)
    ensures Reachable(env, Next(env, sys, event), events + [event])
  {
    assert (events + [event])[..|events|] == events;
  }
}
