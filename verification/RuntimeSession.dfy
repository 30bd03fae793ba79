/** The session object, updated in place; `View` is its state as a value. */
module RuntimeSession {
  import opened Text
  import opened Wrappers
  import opened StatefulRuntime

  /** Whatever waited is rejected, once each and in order, and its timer is cleared; nothing else settles. */
  ghost predicate RejectsAll(before: Session, after: Session, failure: Failure) {
    && after.pending == []
    && (forall id :: id in before.pending ==> id !in after.timers)
    && before.settled <= after.settled
    && |after.settled| == |before.settled| + |before.pending|
    && forall k :: 0 <= k < |before.pending| ==>
         after.settled[|before.settled| + k] == (before.pending[k], Rejected(failure))
  }

  /** The worker's first word: ready, without an id. */
  ghost predicate Greets(message: Option<Incoming>) {
    message.Some? && message.value.kind == "ready" && message.value.id.NoId?
  }

  /** The other requests keep waiting with their timers, and nothing is settled but, at most once, this one. */
  ghost predicate TouchesOnly(before: Session, after: Session, id: string) {
    && (forall x :: x != id ==> (x in after.pending <==> x in before.pending))
    && (forall x :: x != id ==> (x in after.timers <==> x in before.timers))
    && before.settled <= after.settled
    && |after.settled| <= |before.settled| + 1
    && forall k :: |before.settled| <= k < |after.settled| ==> after.settled[k].0 == id
  }

  /** A request leaves the pending map and nothing settles: its caller waits for ever. */
  ghost predicate Loses(before: Session, after: Session) {
    && after.settled == before.settled
    && exists id :: id in before.pending && id !in after.pending
  }

  lemma RejectAllRejects(s: Session, failure: Failure)
    ensures RejectsAll(s, RejectAll(s, failure), failure) && RejectsAll(s, Kill(FailTerminal(s, failure)), failure)
  {
  }

  lemma FeedFacts(c: Config, s: Session, chunk: string)
    ensures var t := Feed(c, s, chunk);
      && t.stdoutBytes == s.stdoutBytes + |chunk|
      && (t.stdoutBytes > c.maxOutputBytes ==>
            t.terminal.Some? && t.killed && t.buffer == s.buffer && RejectsAll(s, t, OutputLimit))
  {
    hide Drain, RejectAll, RejectsAll;
    InterruptedLeavesLines(c, s.(stdoutBytes := s.stdoutBytes + |chunk|, buffer := s.buffer + chunk));
    CounterRejects(s, s.stdoutBytes + |chunk|);
  }

  lemma CounterRejects(s: Session, bytes: nat)
    ensures var t := Kill(FailTerminal(s.(stdoutBytes := bytes), OutputLimit));
      RejectsAll(s, t, OutputLimit) && t.stdoutBytes == bytes && t.buffer == s.buffer && t.terminal.Some? && t.killed
  {
    RejectAllRejects(s.(stdoutBytes := bytes), OutputLimit);
  }

  /** Draining a line is handling it, unless it is blank, with the rest left in the buffer. */
  lemma LineDrained(c: Config, s: Session)
    requires NewlineIndex(s.buffer) != -1
    ensures var k := NewlineIndex(s.buffer);
      var line, rest := s.buffer[..k], s.(buffer := s.buffer[k + 1..]);
      && DrainLine(c, s) == (if |Trim(line)| > 0 then HandleLine(c, rest, line) else rest)
      && DrainLineThrows(c, s) == (|Trim(line)| > 0 && LineThrows(c, rest, line))
      && Drain(c, s) == if DrainLineThrows(c, s) then DrainLine(c, s) else Drain(c, DrainLine(c, s))
  {
    hide HandleLine, Trim, NewlineIndex, LineThrows;
    var k := NewlineIndex(s.buffer);
    HandleLineFrame(c, s, s.buffer[..k], s.buffer[k + 1..], s.stdoutBytes);
    DrainLineBuffer(c, s);
  }

  class BfclStatefulRuntimeSession {
    const config: Config
    var stdoutBuffer: string
    var stdoutBytes: nat
    var stderrBytes: nat
    var nextId: nat
    var pending: seq<string>
    var timers: set<string>
    var terminalError: Option<Failure>
    var startup: Startup
    var closed: bool
    var killed: bool
    var settled: seq<(string, Settlement)>

    function View(): Session
      reads this
    {
      Session(stdoutBuffer, stdoutBytes, stderrBytes, nextId, pending, timers,
              terminalError, startup, closed, killed, settled)
    }

    constructor (config: Config)
      ensures View() == FRESH && this.config == config
    {
      this.config := config;
      stdoutBuffer, stdoutBytes, stderrBytes, nextId := "", 0, 0, 1;
      pending, timers, terminalError, startup := [], {}, None, Waiting;
      closed, killed, settled := false, false, [];
    }

    /** Returns the id of the request, or None when the command is refused at once. */
    method SendCommand() returns (id: Option<string>)
      modifies this
      ensures View() == Send(old(View()))
      ensures id.Some? <==> old(terminalError).None? && !old(closed)
      ensures id.Some? ==>
                && id.value == Decimal(old(nextId)) && pending == old(pending) + [id.value] && id.value in timers
                && settled == old(settled)
    {
      if terminalError.Some? || closed {
        return None;
      }
      var next := Decimal(nextId);
      nextId := nextId + 1;
      timers := timers + {next};
      pending := pending + [next];
      return Some(next);
    }

    method RejectAllPending(failure: Failure)
      modifies this
      ensures View() == RejectAll(old(View()), failure)
      ensures RejectsAll(old(View()), View(), failure) && terminalError == old(terminalError)
      ensures startup == if old(startup).Waiting? then Failed else old(startup)
    {
      if startup.Waiting? {
        startup := Failed;
      }
      ghost var before := pending;
      ghost var done := 0;
      assert before[..0] == [];
      while pending != []
        invariant done <= |before| && pending == before[done..]
        invariant settled == old(settled) + Rejections(before[..done], failure)
        invariant timers == old(timers) - (set id | id in before[..done])
        invariant stdoutBuffer == old(stdoutBuffer) && stdoutBytes == old(stdoutBytes)
        invariant stderrBytes == old(stderrBytes) && nextId == old(nextId)
        invariant terminalError == old(terminalError) && closed == old(closed) && killed == old(killed)
        invariant startup == RejectAll(old(View()), failure).startup
        decreases |pending|
      {
        var id := pending[0];
        assert before[..done + 1] == before[..done] + [id];
        timers := timers - {id};
        settled := settled + [(id, Rejected(failure))];
        pending := pending[1..];
        done := done + 1;
      }
      assert before[..done] == before;
    }

    method Fail(failure: Failure)
      modifies this
      ensures View() == FailTerminal(old(View()), failure)
      // The first failure sticks, and from here on every command is refused.
      ensures old(terminalError).Some? ==> terminalError == old(terminalError)
      ensures old(terminalError).None? ==> terminalError == Some(failure)
      ensures RejectsAll(old(View()), View(), failure) && Send(View()) == View()
    {
      if terminalError.None? {
        terminalError := Some(failure);
      }
      RejectAllPending(failure);
    }

    method HandleWorkerLine(line: string) returns (threw: bool)
      modifies this
      ensures View() == HandleLine(config, old(View()), line)
      ensures threw == LineThrows(config, old(View()), line)
      // An object touches at most the request it names, and loses that request exactly when handling it throws.
      ensures config.decode(line).Some? ==>
                && terminalError == old(terminalError) && killed == old(killed)
                && (config.decode(line).value.id.TextId? ==>
                      TouchesOnly(old(View()), View(), config.decode(line).value.id.id))
                && (!config.decode(line).value.id.TextId? ==> pending == old(pending) && settled == old(settled))
                && (threw <==> Loses(old(View()), View()))
      // A start that still waits succeeds with the greeting, and no other object bears on it.
      ensures config.decode(line).Some? ==>
                startup == if Greets(config.decode(line)) && old(startup).Waiting? then Ready else old(startup)
      // Anything else ends the session.
      ensures config.decode(line).None? ==>
                !threw && terminalError.Some? && killed && RejectsAll(old(View()), View(), ProtocolError)
    {
      var message := config.decode(line);
      if message.None? {
        Fail(ProtocolError);
        killed := true;
        return false;
      }
      var m := message.value;
      if m.kind == "ready" && m.id.NoId? {
        if startup.Waiting? {
          startup := Ready;
        }
        return false;
      }
      if !m.id.TextId? || m.id.id !in pending {
        return false;
      }
      timers := timers - {m.id.id};
      pending := Without(pending, m.id.id);
      if m.kind == "error" {
        if m.message == "" || m.errorType == "" {
          return true;
        }
        settled := settled + [(m.id.id, Rejected(WorkerReported(m.errorType, m.message)))];
        return false;
      }
      settled := settled + [(m.id.id, Resolved(m))];
      return false;
    }

    method HandleStdout(chunk: string)
      modifies this
      ensures View() == Feed(config, old(View()), chunk)
      // Beyond the limit nothing more is read and the session is over.
      ensures stdoutBytes == old(stdoutBytes) + |chunk|
      ensures stdoutBytes > config.maxOutputBytes ==>
                terminalError.Some? && killed && stdoutBuffer == old(stdoutBuffer)
                && RejectsAll(old(View()), View(), OutputLimit)
    {
      FeedFacts(config, View(), chunk);
      hide HandleLine, LineThrows, FailTerminal, Trim, NewlineIndex, RejectsAll, TouchesOnly, Loses, Greets;
      hide DrainLine, DrainLineThrows;
      stdoutBytes := stdoutBytes + |chunk|;
      if stdoutBytes > config.maxOutputBytes {
        Fail(OutputLimit);
        killed := true;
        return;
      }
      stdoutBuffer := stdoutBuffer + chunk;
      ghost var received := View();
      while NewlineIndex(stdoutBuffer) != -1
        invariant Drain(config, View()) == Drain(config, received)
        decreases |stdoutBuffer|
      {
        ghost var before := View();
        DrainLineBuffer(config, before);
        var newlineIndex := NewlineIndex(stdoutBuffer);
        var line := stdoutBuffer[..newlineIndex];
        stdoutBuffer := stdoutBuffer[newlineIndex + 1..];
        assert View() == before.(buffer := before.buffer[newlineIndex + 1..]);
        LineDrained(config, before);
        if |Trim(line)| > 0 {
          var threw := HandleWorkerLine(line);
          assert View() == DrainLine(config, before);
          if threw {
            return;
          }
        }
      }
    }

    method HandleStderr(bytes: nat)
      modifies this
      ensures View() == FeedStderr(config, old(View()), bytes)
      // Within the limit the requests do not notice; beyond it the session is over.
      ensures stderrBytes <= config.maxOutputBytes ==> View() == old(View()).(stderrBytes := stderrBytes)
      ensures stderrBytes > config.maxOutputBytes ==>
                terminalError.Some? && killed && RejectsAll(old(View()), View(), OutputLimit)
      ensures stderrBytes == old(stderrBytes) + bytes && stdoutBytes == old(stdoutBytes)
    {
      stderrBytes := stderrBytes + bytes;
      if stderrBytes > config.maxOutputBytes {
        Fail(OutputLimit);
        killed := true;
      }
    }

    method OnCommandTimeout(id: string)
      modifies this
      ensures View() == Expire(old(View()), id)
      // Only this request is rejected; the child dies, but the session has no terminal error and takes commands.
      ensures settled == old(settled) + [(id, Rejected(CommandTimeout))] && TouchesOnly(old(View()), View(), id)
      ensures id !in pending && id !in timers && killed
      ensures terminalError == old(terminalError) && closed == old(closed) && nextId == old(nextId)
    {
      timers := timers - {id};
      pending := Without(pending, id);
      killed := true;
      settled := settled + [(id, Rejected(CommandTimeout))];
    }

    method OnIdleTimeout()
      modifies this
      ensures View() == Idle(old(View()))
      // Everything pending is rejected and the child dies, again without a terminal error.
      ensures RejectsAll(old(View()), View(), IdleTimeout) && killed
      ensures terminalError == old(terminalError) && closed == old(closed) && nextId == old(nextId)
    {
      RejectAllPending(IdleTimeout);
      killed := true;
    }

    method OnChildClosed()
      modifies this
      ensures View() == ChildClosed(old(View()))
      // Unless the session was closed, whatever waits is rejected; there is no terminal error either way.
      ensures old(closed) ==> pending == old(pending) && settled == old(settled) && startup == old(startup)
      ensures !old(closed) ==> RejectsAll(old(View()), View(), WorkerExit)
      ensures terminalError == old(terminalError)
    {
      timers := timers - (set id | id in pending);
      if !closed {
        RejectAllPending(WorkerExit);
      }
    }
  }
}
