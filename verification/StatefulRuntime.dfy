/**
 The client side of the stateful worker protocol: pending requests, the stdout
 line reassembler, timeouts and terminal failures.
 */
module StatefulRuntime {
  import opened Text
  import opened Wrappers

  datatype IdField = NoId | TextId(id: string) | OtherId

  /** A JSON object read from the worker; `payload` stands for the fields the session only passes on. */
  datatype Incoming = Incoming(kind: string, id: IdField, message: string, errorType: string, payload: string)

  datatype Failure =
    | CommandTimeout
    | IdleTimeout
    | OutputLimit
    | ProtocolError
    | WorkerExit
    | ChildError
    | WorkerReported(errorType: string, message: string)

  datatype Settlement = Resolved(message: Incoming) | Rejected(failure: Failure)

  datatype Startup = Waiting | Ready | Failed

  /** `decode` is JSON parsing restricted to objects. */
  datatype Config = Config(maxOutputBytes: nat, decode: string -> Option<Incoming>)

  /**
   `pending` lists the keys of the pending map in insertion order, `timers` the requests whose
   timeout is armed, and `settled` every settlement of a request's promise in the order made.
   */
  datatype Session = Session(
    buffer: string,
    stdoutBytes: nat,
    stderrBytes: nat,
    nextId: nat,
    pending: seq<string>,
    timers: set<string>,
    terminal: Option<Failure>,
    startup: Startup,
    closed: bool,
    killed: bool,
    settled: seq<(string, Settlement)>)

  const FRESH := Session("", 0, 0, 1, [], {}, None, Waiting, false, false, [])

  function Without(ids: seq<string>, id: string): (kept: seq<string>)
    ensures forall x :: x in kept <==> x in ids && x != id
  {
    if ids == [] then []
    else (if ids[0] == id then [] else [ids[0]]) + Without(ids[1..], id)
  }

  function Rejections(ids: seq<string>, failure: Failure): (all: seq<(string, Settlement)>)
    ensures |all| == |ids| && forall i | 0 <= i < |ids| :: all[i] == (ids[i], Rejected(failure))
  {
    seq(|ids|, i requires 0 <= i < |ids| => (ids[i], Rejected(failure)))
  }

  // ----- What each step does to a session ------------------------------------

  function RejectAll(s: Session, failure: Failure): Session {
    s.(startup := if s.startup.Waiting? then Failed else s.startup,
       settled := s.settled + Rejections(s.pending, failure),
       timers := s.timers - (set id | id in s.pending),
       pending := [])
  }

  function FailTerminal(s: Session, failure: Failure): Session {
    RejectAll(s.(terminal := if s.terminal.Some? then s.terminal else Some(failure)), failure)
  }

  function Kill(s: Session): Session {
    s.(killed := true)
  }

  /** A command gets the next id and becomes pending, unless the session has failed or is closed. */
  function Send(s: Session): Session {
    if s.terminal.Some? || s.closed then s
    else
      var id := Decimal(s.nextId);
      s.(nextId := s.nextId + 1, pending := s.pending + [id], timers := s.timers + {id})
  }

  function Settle(s: Session, id: string): Session {
    s.(pending := Without(s.pending, id), timers := s.timers - {id})
  }

  /** An error report without a message or a type, which the session cannot turn into a rejection. */
  predicate Unreadable(m: Incoming) {
    m.kind == "error" && (m.message == "" || m.errorType == "")
  }

  function HandleMessage(s: Session, m: Incoming): Session {
    if m.kind == "ready" && m.id.NoId? then
      s.(startup := if s.startup.Waiting? then Ready else s.startup)
    else if !m.id.TextId? || m.id.id !in s.pending then s
    else
      var s' := Settle(s, m.id.id);
      if Unreadable(m) then s'
      else
        var outcome := if m.kind == "error" then Rejected(WorkerReported(m.errorType, m.message)) else Resolved(m);
        s'.(settled := s.settled + [(m.id.id, outcome)])
  }

  /** Handling the message throws after its request has left the pending map. */
  predicate Throws(s: Session, m: Incoming) {
    m.id.TextId? && m.id.id in s.pending && Unreadable(m)
  }

  function HandleLine(c: Config, s: Session, line: string): Session {
    var m := c.decode(line);
    if m.None? then Kill(FailTerminal(s, ProtocolError)) else HandleMessage(s, m.value)
  }

  predicate LineThrows(c: Config, s: Session, line: string) {
    var m := c.decode(line);
    m.Some? && Throws(s, m.value)
  }

  function NewlineIndex(w: string): (k: int)
    ensures k == -1 ==> '\n' !in w
    ensures k != -1 ==> 0 <= k < |w| && w[k] == '\n' && '\n' !in w[..k]
  {
    if w == "" then -1
    else if w[0] == '\n' then 0
    else
      var k := NewlineIndex(w[1..]);
      assert k != -1 ==> w[..k + 1] == [w[0]] + w[1..][..k];
      if k == -1 then -1 else k + 1
  }

  /** One turn of the draining loop: takes the first line off the buffer and handles it unless blank. */
  function DrainLine(c: Config, s: Session): Session
    requires NewlineIndex(s.buffer) != -1
  {
    var k := NewlineIndex(s.buffer);
    var s' := s.(buffer := s.buffer[k + 1..]);
    if Trim(s.buffer[..k]) == "" then s' else HandleLine(c, s', s.buffer[..k])
  }

  predicate DrainLineThrows(c: Config, s: Session)
    requires NewlineIndex(s.buffer) != -1
  {
    var k := NewlineIndex(s.buffer);
    Trim(s.buffer[..k]) != "" && LineThrows(c, s, s.buffer[..k])
  }

  lemma DrainLineBuffer(c: Config, s: Session)
    requires NewlineIndex(s.buffer) != -1
    ensures DrainLine(c, s).buffer == s.buffer[NewlineIndex(s.buffer) + 1..]
  {
  }

  /** Handles the complete lines of the buffer in order, stopping after one that throws. */
  function Drain(c: Config, s: Session): Session
    decreases |s.buffer|
  {
    if NewlineIndex(s.buffer) == -1 then s
    else if DrainLineThrows(c, s) then DrainLine(c, s)
    else
      DrainLineBuffer(c, s);
      Drain(c, DrainLine(c, s))
  }

  /** A chunk of ASCII output: one byte a character. */
  function Feed(c: Config, s: Session, chunk: string): Session {
    var s' := s.(stdoutBytes := s.stdoutBytes + |chunk|);
    if s'.stdoutBytes > c.maxOutputBytes then Kill(FailTerminal(s', OutputLimit))
    else Drain(c, s'.(buffer := s.buffer + chunk))
  }

  function FeedStderr(c: Config, s: Session, bytes: nat): Session {
    var s' := s.(stderrBytes := s.stderrBytes + bytes);
    if s'.stderrBytes > c.maxOutputBytes then Kill(FailTerminal(s', OutputLimit)) else s'
  }

  function Expire(s: Session, id: string): Session {
    Kill(Settle(s, id)).(settled := s.settled + [(id, Rejected(CommandTimeout))])
  }

  function Idle(s: Session): Session {
    Kill(RejectAll(s, IdleTimeout))
  }

  function Cleanup(s: Session): Session {
    s.(timers := s.timers - (set id | id in s.pending))
  }

  function ChildClosed(s: Session): Session {
    var s' := Cleanup(s);
    if s.closed then s' else RejectAll(s', WorkerExit)
  }

  function FinishClose(s: Session): Session {
    Kill(Cleanup(s.(closed := true)))
  }

  // ----- Chunking ------------------------------------------------------------

  /** Some complete line of the buffer other than the last one throws. */
  predicate Interrupted(c: Config, s: Session)
    decreases |s.buffer|
  {
    if NewlineIndex(s.buffer) == -1 then false
    else
      DrainLineBuffer(c, s);
      var s' := DrainLine(c, s);
      if DrainLineThrows(c, s) then '\n' in s'.buffer else Interrupted(c, s')
  }

  lemma {:induction false} InterruptedLeavesLines(c: Config, s: Session)
    ensures Interrupted(c, s) <==> '\n' in Drain(c, s).buffer
    ensures Drain(c, s).stdoutBytes == s.stdoutBytes
    decreases |s.buffer|
  {
    if NewlineIndex(s.buffer) != -1 && !DrainLineThrows(c, s) {
      DrainLineBuffer(c, s);
      InterruptedLeavesLines(c, DrainLine(c, s));
    }
  }

  lemma NewlineAppend(a: string, b: string)
    requires NewlineIndex(a) != -1
    ensures NewlineIndex(a + b) == NewlineIndex(a)
  {
    if a[0] != '\n' {
      assert (a + b)[1..] == a[1..] + b;
      NewlineAppend(a[1..], b);
    }
  }

  /** Handling a line neither reads nor changes the buffer and the byte count. */
  lemma HandleLineFrame(c: Config, s: Session, line: string, buffer: string, bytes: nat)
    ensures HandleLine(c, s.(buffer := buffer, stdoutBytes := bytes), line)
         == HandleLine(c, s, line).(buffer := buffer, stdoutBytes := bytes)
    ensures LineThrows(c, s.(buffer := buffer, stdoutBytes := bytes), line) == LineThrows(c, s, line)
  {
  }

  /** Text after the first line of the buffer does not affect how that line is handled. */
  lemma DrainLineAppend(c: Config, s: Session, b: string, bytes: nat)
    requires NewlineIndex(s.buffer) != -1
    ensures var s' := s.(buffer := s.buffer + b, stdoutBytes := bytes);
            && NewlineIndex(s'.buffer) != -1
            && DrainLineThrows(c, s') == DrainLineThrows(c, s)
            && DrainLine(c, s') == DrainLine(c, s).(buffer := DrainLine(c, s).buffer + b, stdoutBytes := bytes)
  {
    hide HandleLine, LineThrows, Trim;
    var s', k := s.(buffer := s.buffer + b, stdoutBytes := bytes), NewlineIndex(s.buffer);
    NewlineAppend(s.buffer, b);
    var line := s.buffer[..k];
    assert s'.buffer[..k] == line;
    assert s'.buffer[k + 1..] == s.buffer[k + 1..] + b;
    HandleLineFrame(c, s, line, s.buffer[k + 1..], s.stdoutBytes);
    HandleLineFrame(c, s, line, s.buffer[k + 1..] + b, bytes);
    HandleLineFrame(c, s, line, s.buffer + b, bytes);
  }

  /** Draining in two goes is draining in one, unless the first go was cut short with lines left over. */
  lemma {:induction false} DrainAppend(c: Config, s: Session, b: string, bytes: nat)
    requires !Interrupted(c, s.(buffer := s.buffer + b, stdoutBytes := bytes))
    ensures !Interrupted(c, s)
    ensures var mid := Drain(c, s);
            && !Interrupted(c, mid.(buffer := mid.buffer + b, stdoutBytes := bytes))
            && Drain(c, mid.(buffer := mid.buffer + b, stdoutBytes := bytes))
            == Drain(c, s.(buffer := s.buffer + b, stdoutBytes := bytes))
    decreases |s.buffer|
  {
    hide DrainLine, DrainLineThrows;
    if NewlineIndex(s.buffer) != -1 {
      DrainLineAppend(c, s, b, bytes);
      DrainLineBuffer(c, s);
      var rest := DrainLine(c, s);
      if DrainLineThrows(c, s) {
        assert '\n' !in rest.buffer + b;
        assert NewlineIndex(rest.buffer + b) == -1;
      } else {
        DrainAppend(c, rest, b, bytes);
      }
    }
  }

  function Concat(chunks: seq<string>): string {
    if chunks == [] then "" else chunks[0] + Concat(chunks[1..])
  }

  function FeedAll(c: Config, s: Session, chunks: seq<string>): Session
    decreases chunks
  {
    if chunks == [] then s else FeedAll(c, Feed(c, s, chunks[0]), chunks[1..])
  }

  /** The session about to drain its buffer after receiving w. */
  function Received(s: Session, w: string): Session {
    s.(stdoutBytes := s.stdoutBytes + |w|, buffer := s.buffer + w)
  }

  lemma FeedTwo(c: Config, s: Session, a: string, b: string)
    requires s.stdoutBytes + |a + b| <= c.maxOutputBytes
    requires !Interrupted(c, Received(s, a + b))
    ensures Feed(c, Feed(c, s, a), b) == Feed(c, s, a + b)
    ensures !Interrupted(c, Received(Feed(c, s, a), b))
    ensures Feed(c, s, a).stdoutBytes == s.stdoutBytes + |a|
  {
    hide Interrupted, Drain;
    var bytes := s.stdoutBytes + |a + b|;
    assert s.buffer + (a + b) == Received(s, a).buffer + b;
    DrainAppend(c, Received(s, a), b, bytes);
    InterruptedLeavesLines(c, Received(s, a));
  }

  /** However an uninterrupted stream is cut into chunks, feeding them is feeding it whole. */
  lemma {:induction false} ChunkingInvariant(c: Config, s: Session, chunks: seq<string>)
    requires s.stdoutBytes + |Concat(chunks)| <= c.maxOutputBytes
    requires !Interrupted(c, Received(s, Concat(chunks))) && '\n' !in s.buffer
    ensures FeedAll(c, s, chunks) == Feed(c, s, Concat(chunks))
    decreases chunks
  {
    hide Interrupted;
    if chunks == [] {
      assert s.buffer + "" == s.buffer;
      assert NewlineIndex(s.buffer) == -1;
    } else {
      FeedTwo(c, s, chunks[0], Concat(chunks[1..]));
      assert chunks[0] + Concat(chunks[1..]) == Concat(chunks);
      InterruptedPrefix(c, s, chunks[0], Concat(chunks[1..]));
      ChunkingInvariant(c, Feed(c, s, chunks[0]), chunks[1..]);
    }
  }

  lemma InterruptedPrefix(c: Config, s: Session, a: string, b: string)
    requires s.stdoutBytes + |a + b| <= c.maxOutputBytes
    requires !Interrupted(c, Received(s, a + b))
    ensures '\n' !in Feed(c, s, a).buffer
  {
    hide Interrupted, Drain;
    assert s.buffer + (a + b) == Received(s, a).buffer + b;
    DrainAppend(c, Received(s, a), b, s.stdoutBytes + |a + b|);
    InterruptedLeavesLines(c, Received(s, a));
  }

  function Singles(w: string): seq<string> {
    if w == "" then [] else [[w[0]]] + Singles(w[1..])
  }

  lemma {:induction false} ConcatSingles(w: string)
    ensures Concat(Singles(w)) == w
  {
    if w != "" {
      ConcatSingles(w[1..]);
      assert Singles(w)[1..] == Singles(w[1..]);
    }
  }

  /** Fed one character at a time, the session never keeps an unhandled line. */
  lemma {:induction false} SinglesKeepNoLine(c: Config, s: Session, w: string)
    requires s.stdoutBytes + |w| <= c.maxOutputBytes && '\n' !in s.buffer
    ensures '\n' !in FeedAll(c, s, Singles(w)).buffer
    decreases w
  {
    hide Drain, DrainLine, DrainLineThrows;
    if w != "" {
      var next := Received(s, [w[0]]);
      assert Singles(w)[0] == [w[0]] && Singles(w)[1..] == Singles(w[1..]);
      assert !Interrupted(c, next) by {
        if NewlineIndex(next.buffer) != -1 {
          DrainLineBuffer(c, next);
          assert DrainLine(c, next).buffer == "";
          assert NewlineIndex("") == -1;
        }
      }
      InterruptedLeavesLines(c, next);
      SinglesKeepNoLine(c, Feed(c, s, [w[0]]), w[1..]);
    }
  }

  /** Every way of cutting w gives the same session. */
  ghost predicate ChunkingFree(c: Config, s: Session, w: string) {
    forall chunks | Concat(chunks) == w :: FeedAll(c, s, chunks) == Feed(c, s, w)
  }

  lemma WholeKeepsLine(c: Config, s: Session, w: string)
    requires s.stdoutBytes + |w| <= c.maxOutputBytes && Interrupted(c, Received(s, w))
    ensures '\n' in Feed(c, s, w).buffer
  {
    InterruptedLeavesLines(c, Received(s, w));
  }

  /** Chunking is invisible exactly when no line but the last complete one throws. */
  lemma ChunkingFreeIff(c: Config, s: Session, w: string)
    requires s.stdoutBytes + |w| <= c.maxOutputBytes && '\n' !in s.buffer
    ensures ChunkingFree(c, s, w) <==> !Interrupted(c, Received(s, w))
  {
    hide Drain, Interrupted, Feed;
    if Interrupted(c, Received(s, w)) {
      ConcatSingles(w);
      SinglesKeepNoLine(c, s, w);
      WholeKeepsLine(c, s, w);
    } else {
      forall chunks | Concat(chunks) == w ensures FeedAll(c, s, chunks) == Feed(c, s, w) {
        ChunkingInvariant(c, s, chunks);
      }
    }
  }

  // ----- Which lines are handled ------------------------------------------------

  function CompleteLines(w: string): seq<string>
    decreases |w|
  {
    var k := NewlineIndex(w);
    if k == -1 then [] else [w[..k]] + CompleteLines(w[k + 1..])
  }

  function Remainder(w: string): (rest: string)
    ensures '\n' !in rest
    decreases |w|
  {
    var k := NewlineIndex(w);
    if k == -1 then w else Remainder(w[k + 1..])
  }

  function Unlines(lines: seq<string>): string {
    if lines == [] then "" else lines[0] + "\n" + Unlines(lines[1..])
  }

  lemma Regroup(line: string, more: string, rest: string)
    ensures (line + "\n" + more) + rest == line + "\n" + (more + rest)
  {
  }

  lemma UnlinesCons(line: string, more: seq<string>)
    ensures Unlines([line] + more) == line + "\n" + Unlines(more)
  {
    assert ([line] + more)[1..] == more;
  }

  lemma CutAtNewline(w: string, k: nat)
    requires k < |w| && w[k] == '\n'
    ensures w[..k] + "\n" + w[k + 1..] == w
  {
  }

  /** The complete lines and the remainder are the whole text. */
  lemma {:induction false} LinesRestore(w: string)
    ensures Unlines(CompleteLines(w)) + Remainder(w) == w
    ensures forall i | 0 <= i < |CompleteLines(w)| :: '\n' !in CompleteLines(w)[i]
    decreases |w|
  {
    assert Unlines([]) == "";
    hide NewlineIndex, Unlines;
    var k := NewlineIndex(w);
    if k != -1 {
      var line, more, rest := w[..k], CompleteLines(w[k + 1..]), Remainder(w[k + 1..]);
      LinesRestore(w[k + 1..]);
      UnlinesCons(line, more);
      Regroup(line, Unlines(more), rest);
      CutAtNewline(w, k);
    }
  }

  function NonBlank(lines: seq<string>): seq<string> {
    if lines == [] then []
    else (if Trim(lines[0]) == "" then [] else [lines[0]]) + NonBlank(lines[1..])
  }

  function HandleAll(c: Config, s: Session, lines: seq<string>): Session
    decreases lines
  {
    if lines == [] then s else HandleAll(c, HandleLine(c, s, lines[0]), lines[1..])
  }

  lemma {:induction false} HandleAllFrame(c: Config, s: Session, lines: seq<string>, buffer: string)
    ensures HandleAll(c, s.(buffer := buffer), lines) == HandleAll(c, s, lines).(buffer := buffer)
    decreases lines
  {
    hide HandleLine;
    if lines != [] {
      HandleLineFrame(c, s, lines[0], buffer, s.stdoutBytes);
      HandleLineFrame(c, s, lines[0], s.buffer, s.stdoutBytes);
      HandleAllFrame(c, HandleLine(c, s, lines[0]), lines[1..], buffer);
    }
  }

  lemma NonBlankCons(line: string, more: seq<string>)
    ensures NonBlank([line] + more) == if Trim(line) == "" then NonBlank(more) else [line] + NonBlank(more)
  {
    assert ([line] + more)[1..] == more;
  }

  /** Draining a line is handling it unless it is blank, with the line off the buffer. */
  lemma DrainLineHandles(c: Config, s: Session)
    requires NewlineIndex(s.buffer) != -1
    ensures var k := NewlineIndex(s.buffer);
      var line := s.buffer[..k];
      DrainLine(c, s) == (if Trim(line) == "" then s else HandleLine(c, s, line)).(buffer := s.buffer[k + 1..])
  {
    hide HandleLine, Trim, NewlineIndex;
    var k := NewlineIndex(s.buffer);
    HandleLineFrame(c, s, s.buffer[..k], s.buffer[k + 1..], s.stdoutBytes);
    HandleLineFrame(c, s, s.buffer[..k], s.buffer, s.stdoutBytes);
  }

  lemma HandleAllCons(c: Config, s: Session, line: string, more: seq<string>)
    ensures HandleAll(c, s, [line] + more) == HandleAll(c, HandleLine(c, s, line), more)
  {
    hide HandleLine;
    assert ([line] + more)[1..] == more;
  }

  lemma NothingToDrain(c: Config, s: Session)
    requires NewlineIndex(s.buffer) == -1
    ensures Drain(c, s) == s && NonBlank(CompleteLines(s.buffer)) == [] && Remainder(s.buffer) == s.buffer
    ensures HandleAll(c, s, []) == s
  {
  }

  lemma LinesUnfold(w: string)
    requires NewlineIndex(w) != -1
    ensures var k := NewlineIndex(w);
      CompleteLines(w) == [w[..k]] + CompleteLines(w[k + 1..]) && Remainder(w) == Remainder(w[k + 1..])
  {
    hide NewlineIndex;
  }

  lemma DrainUnfolds(c: Config, s: Session)
    requires NewlineIndex(s.buffer) != -1 && !Interrupted(c, s)
    ensures var rest := s.buffer[NewlineIndex(s.buffer) + 1..];
      if DrainLineThrows(c, s) then Drain(c, s) == DrainLine(c, s) && NewlineIndex(rest) == -1
      else Drain(c, s) == Drain(c, DrainLine(c, s)) && !Interrupted(c, DrainLine(c, s))
  {
    hide DrainLine, DrainLineThrows, NewlineIndex;
    DrainLineBuffer(c, s);
  }

  /** An uninterrupted drain handles exactly the non-blank complete lines, in order, and keeps the rest. */
  lemma {:induction false} DrainHandlesLines(c: Config, s: Session)
    requires !Interrupted(c, s)
    ensures Drain(c, s) == HandleAll(c, s, NonBlank(CompleteLines(s.buffer))).(buffer := Remainder(s.buffer))
    decreases |s.buffer|
  {
    hide Drain, DrainLine, DrainLineThrows, Interrupted, HandleLine, NewlineIndex, Trim;
    hide HandleAll, NonBlank, CompleteLines, Remainder;
    if NewlineIndex(s.buffer) == -1 {
      NothingToDrain(c, s);
    } else {
      var k := NewlineIndex(s.buffer);
      var line, rest := s.buffer[..k], s.buffer[k + 1..];
      var lines := NonBlank(CompleteLines(rest));
      var handled := if Trim(line) == "" then s else HandleLine(c, s, line);
      LinesUnfold(s.buffer);
      DrainUnfolds(c, s);
      DrainLineHandles(c, s);
      NonBlankCons(line, CompleteLines(rest));
      HandleAllCons(c, s, line, lines);
      HandleAllFrame(c, handled, lines, rest);
      var next := handled.(buffer := rest);
      if DrainLineThrows(c, s) {
        NothingToDrain(c, next);
      } else {
        DrainHandlesLines(c, next);
      }
    }
  }
}
