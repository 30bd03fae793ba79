/** The life of a session over every run: how its start went, what it blames, its timers, and its end. */
module WorkerLife {
  import opened Wrappers
  import opened StatefulRuntime
  import opened WorkerProtocol
  import opened Text

  /** A greeting is handled, or everything that waits is rejected for a reason, for good or just this time. */
  datatype Sign = Greeted | GaveUp(reason: Failure, lasting: bool)

  /** The lines that draining handles, in order. */
  function HandledLines(c: Config, s: Session): seq<string>
    decreases |s.buffer|
  {
    var k := NewlineIndex(s.buffer);
    if k == -1 then []
    else
      DrainLineBuffer(c, s);
      (if Trim(s.buffer[..k]) == "" then [] else [s.buffer[..k]])
      + if DrainLineThrows(c, s) then [] else HandledLines(c, DrainLine(c, s))
  }

  function LineSigns(c: Config, line: string): seq<Sign> {
    match c.decode(line)
    case None => [GaveUp(ProtocolError, true)]
    case Some(m) => if m.kind == "ready" && m.id.NoId? then [Greeted] else []
  }

  function SignsIn(c: Config, lines: seq<string>): seq<Sign> {
    if lines == [] then [] else LineSigns(c, lines[0]) + SignsIn(c, lines[1..])
  }

  /** The signs in an event that happens to a system. */
  function EventSigns<W>(env: Env<W>, sys: System<W>, event: Event): seq<Sign>
    requires Enabled(env, sys, event)
  {
    match event
    case Deliver(bytes) =>
      if sys.session.stdoutBytes + bytes > env.maxOutputBytes then [GaveUp(OutputLimit, true)]
      else SignsIn(ConfigOf(env), HandledLines(ConfigOf(env), Received(sys.session, sys.wire[..bytes])))
    case Stderr(bytes) =>
      if sys.session.stderrBytes + bytes > env.maxOutputBytes then [GaveUp(OutputLimit, true)] else []
    case IdleExpiry => [GaveUp(IdleTimeout, false)]
    case Broken => [GaveUp(ChildError, false)]
    case Closed => if sys.session.closed then [] else [GaveUp(WorkerExit, false)]
    case _ => []
  }

  /** The system that a run of events leads to. */
  function Play<W>(env: Env<W>, events: seq<Event>): Option<System<W>>
    decreases |events|
  {
    if events == [] then Some(WorkerProtocol.Start(env))
    else
      var before := Play(env, events[..|events| - 1]);
      if before.None? || !Enabled(env, before.value, events[|events| - 1]) then None
      else Some(Next(env, before.value, events[|events| - 1]))
  }

  /** All signs of a run, in order. */
  function Signs<W>(env: Env<W>, events: seq<Event>): seq<Sign>
    decreases |events|
  {
    if events == [] then []
    else
      var before := Play(env, events[..|events| - 1]);
      Signs(env, events[..|events| - 1])
      + if before.None? || !Enabled(env, before.value, events[|events| - 1]) then []
        else EventSigns(env, before.value, events[|events| - 1])
  }

  lemma {:induction false} PlayIs<W(!new)>(env: Env<W>, sys: System<W>, events: seq<Event>)
    ensures Reachable(env, sys, events) <==> Play(env, events) == Some(sys)
    decreases |events|
  {
    if events != [] {
      hide Enabled, Next;
      var n := |events| - 1;
      forall before: System<W> ensures Reachable(env, before, events[..n]) <==> Play(env, events[..n]) == Some(before) {
        PlayIs(env, before, events[..n]);
      }
    }
  }

  /** The first reason to fail for good. */
  function FirstLasting(signs: seq<Sign>): Option<Failure> {
    if signs == [] then None
    else if signs[0].GaveUp? && signs[0].lasting then Some(signs[0].reason)
    else FirstLasting(signs[1..])
  }

  /** A rejection is the worker's own report, or its request's timeout, or one of the signs says why. */
  predicate Blames(signs: seq<Sign>, events: seq<Event>, entry: (string, Settlement)) {
    match entry.1
    case Resolved(_) => true
    case Rejected(reason) =>
      || reason.WorkerReported?
      || (reason.CommandTimeout? && Event.Expiry(entry.0) in events)
      || GaveUp(reason, true) in signs || GaveUp(reason, false) in signs
  }

  ghost predicate AllBlame(signs: seq<Sign>, events: seq<Event>, entries: seq<(string, Settlement)>) {
    forall k :: 0 <= k < |entries| ==> Blames(signs, events, entries[k])
  }

  /** What the signs so far have made of a startup. */
  ghost predicate Decided(before: Startup, signs: seq<Sign>, after: Startup) {
    if !before.Waiting? || signs == [] then after == before
    else after == if signs[0].Greeted? then StatefulRuntime.Ready else StatefulRuntime.Failed
  }

  predicate Kills(event: Event) {
    event.Expiry? || event.IdleExpiry? || event.CloseDone?
  }

  /** One session leads to the other with these signs and events in between. */
  ghost predicate Follows(s: Session, signs: seq<Sign>, events: seq<Event>, s': Session) {
    && Decided(s.startup, signs, s'.startup)
    && s'.terminal == (if s.terminal.Some? then s.terminal else FirstLasting(signs))
    && s.settled <= s'.settled
    && AllBlame(signs, events, s'.settled[|s.settled|..])
    && (s'.closed <==> s.closed || CloseDone in events)
    && (s'.killed <==> s.killed || FirstLasting(signs).Some? || exists event <- events :: Kills(event))
  }

  lemma {:induction false} FirstLastingAppend(first: seq<Sign>, second: seq<Sign>)
    ensures FirstLasting(first + second)
         == if FirstLasting(first).Some? then FirstLasting(first) else FirstLasting(second)
  {
    if first == [] {
      assert first + second == second;
    } else {
      assert (first + second)[1..] == first[1..] + second;
      FirstLastingAppend(first[1..], second);
    }
  }

  lemma BlameAppend(
      first: seq<Sign>, x: seq<Event>, a: seq<(string, Settlement)>,
      second: seq<Sign>, y: seq<Event>, b: seq<(string, Settlement)>)
    requires AllBlame(first, x, a) && AllBlame(second, y, b)
    ensures AllBlame(first + second, x + y, a + b)
  {
    forall k | 0 <= k < |a + b| ensures Blames(first + second, x + y, (a + b)[k]) {
      assert (a + b)[k] == if k < |a| then a[k] else b[k - |a|];
      assert if k < |a| then Blames(first, x, a[k]) else Blames(second, y, b[k - |a|]);
    }
  }

  lemma FollowsAppend(
      s: Session, first: seq<Sign>, x: seq<Event>, t: Session, second: seq<Sign>, y: seq<Event>, u: Session)
    requires Follows(s, first, x, t) && Follows(t, second, y, u)
    ensures Follows(s, first + second, x + y, u)
  {
    hide Blames, AllBlame;
    hide FirstLasting, Kills;
    FirstLastingAppend(first, second);
    BlameAppend(first, x, t.settled[|s.settled|..], second, y, u.settled[|t.settled|..]);
    assert u.settled[|s.settled|..] == t.settled[|s.settled|..] + u.settled[|t.settled|..];
  }

  lemma OneSign(sign: Sign)
    ensures FirstLasting([sign]) == if sign.GaveUp? && sign.lasting then Some(sign.reason) else None
    ensures sign in [sign]
  {
    assert [sign][1..] == [];
  }

  lemma LineFollows(c: Config, s: Session, line: string)
    ensures Follows(s, LineSigns(c, line), [], HandleLine(c, s, line))
  {
    hide Without;
    OneSign(Greeted);
    OneSign(GaveUp(ProtocolError, true));
  }

  lemma DrainLineFollows(c: Config, s: Session)
    requires NewlineIndex(s.buffer) != -1
    ensures var line := s.buffer[..NewlineIndex(s.buffer)];
      Follows(s, if Trim(line) == "" then [] else LineSigns(c, line), [], DrainLine(c, s))
  {
    hide HandleLine, LineSigns, Trim, NewlineIndex;
    DrainLineHandles(c, s);
    LineFollows(c, s, s.buffer[..NewlineIndex(s.buffer)]);
    NothingFollows(s);
  }

  lemma SignsAppend(c: Config, line: string, lines: seq<string>)
    ensures SignsIn(c, [line] + lines) == LineSigns(c, line) + SignsIn(c, lines)
    ensures SignsIn(c, []) == []
  {
    assert ([line] + lines)[1..] == lines;
  }

  lemma {:induction false} DrainFollows(c: Config, s: Session)
    ensures Follows(s, SignsIn(c, HandledLines(c, s)), [], Drain(c, s))
    decreases |s.buffer|
  {
    hide DrainLine, DrainLineThrows, NewlineIndex, Trim, LineSigns, SignsIn, Follows;
    var k := NewlineIndex(s.buffer);
    if k == -1 {
      SignsAppend(c, "", []);
      NothingFollows(s);
    } else {
      var line, next := s.buffer[..k], DrainLine(c, s);
      var rest := if DrainLineThrows(c, s) then [] else HandledLines(c, next);
      DrainLineBuffer(c, s);
      DrainLineFollows(c, s);
      SignsAppend(c, line, rest);
      if DrainLineThrows(c, s) {
        NothingFollows(next);
      } else {
        DrainFollows(c, next);
      }
      var own := if Trim(line) == "" then [] else LineSigns(c, line);
      FollowsAppend(s, own, [], next, SignsIn(c, rest), [], Drain(c, s));
      var none: seq<Event> := [];
      assert none + none == none;
      assert [] + SignsIn(c, rest) == SignsIn(c, rest) && [] + rest == rest;
      assert HandledLines(c, s) == (if Trim(line) == "" then [] else [line]) + rest;
    }
  }

  lemma NothingFollows(s: Session)
    ensures Follows(s, [], [], s)
  {
  }

  lemma RejectAllFollows(s: Session, sign: Sign)
    requires sign.GaveUp?
    ensures var t := RejectAll(s, sign.reason);
      Follows(s, [sign], [], if sign.lasting then Kill(FailTerminal(s, sign.reason)) else t)
  {
    OneSign(sign);
  }

  lemma QuietFollows(s: Session, signs: seq<Sign>, event: Event, s': Session)
    requires Follows(s, signs, [], s') && !Kills(event) && !event.CloseDone?
    ensures Follows(s, signs, [event], s')
  {
  }

  lemma SameFollows(s: Session, event: Event, s': Session)
    requires !Kills(event) && !event.CloseDone?
    requires s'.startup == s.startup && s'.terminal == s.terminal && s'.settled == s.settled
    requires s'.closed == s.closed && s'.killed == s.killed
    ensures Follows(s, [], [event], s')
  {
  }

  lemma KillFollows(s: Session, id: string)
    ensures Follows(s, [], [IdleExpiry], Kill(s))
    ensures Follows(s, [], [CloseDone], FinishClose(s))
    ensures Follows(s, [], [Event.Expiry(id)], Expire(s, id))
  {
    hide Without;
    assert IdleExpiry in [IdleExpiry] && CloseDone in [CloseDone] && Event.Expiry(id) in [Event.Expiry(id)];
    assert Expire(s, id).settled == s.settled + [(id, Rejected(CommandTimeout))];
  }

  lemma IdleFollows(s: Session)
    ensures Follows(s, [GaveUp(IdleTimeout, false)], [IdleExpiry], Idle(s))
  {
    hide Follows, RejectAll;
    var sign := GaveUp(IdleTimeout, false);
    RejectAllFollows(s, sign);
    KillFollows(RejectAll(s, IdleTimeout), "");
    FollowsAppend(s, [sign], [], RejectAll(s, IdleTimeout), [], [IdleExpiry], Idle(s));
    assert [sign] + [] == [sign] && [] + [IdleExpiry] == [IdleExpiry];
  }

  /** Dropping the timers first makes no difference to what follows. */
  lemma ClosedFollows(s: Session)
    ensures Follows(s, if s.closed then [] else [GaveUp(WorkerExit, false)], [Event.Closed], ChildClosed(s))
  {
    hide Follows, RejectAll;
    var sign := GaveUp(WorkerExit, false);
    SameFollows(s, Event.Closed, Cleanup(s));
    if !s.closed {
      RejectAllFollows(Cleanup(s), sign);
      FollowsAppend(s, [], [Event.Closed], Cleanup(s), [sign], [], ChildClosed(s));
      assert [] + [sign] == [sign] && [Event.Closed] + [] == [Event.Closed];
    }
  }

  lemma OutputFollows<W>(env: Env<W>, sys: System<W>, event: Event)
    requires Enabled(env, sys, event) && (event.Deliver? || event.Stderr?)
    ensures Follows(sys.session, EventSigns(env, sys, event), [], Next(env, sys, event).session)
  {
    hide Drain, HandledLines, SignsIn, Follows, RejectAll;
    var s, sign := sys.session, GaveUp(OutputLimit, true);
    CountersFollow(s, s.stdoutBytes + event.bytes, s.stderrBytes, sign);
    CountersFollow(s, s.stdoutBytes, s.stderrBytes + event.bytes, sign);
    if event.Deliver? {
      var c, received := ConfigOf(env), Received(s, sys.wire[..event.bytes]);
      DrainFollows(c, received);
      ReceivedFollows(s, sys.wire[..event.bytes], SignsIn(c, HandledLines(c, received)), Drain(c, received));
    }
  }

  lemma CountersFollow(s: Session, stdoutBytes: nat, stderrBytes: nat, sign: Sign)
    requires sign.GaveUp? && sign.lasting
    ensures var t := s.(stdoutBytes := stdoutBytes, stderrBytes := stderrBytes);
      Follows(s, [sign], [], Kill(FailTerminal(t, sign.reason))) && Follows(s, [], [], t)
  {
    OneSign(sign);
  }

  lemma ReceivedFollows(s: Session, chunk: string, signs: seq<Sign>, t: Session)
    requires Follows(Received(s, chunk), signs, [], t)
    ensures Follows(s, signs, [], t)
  {
  }

  lemma EventFollows<W>(env: Env<W>, sys: System<W>, event: Event)
    requires Enabled(env, sys, event)
    ensures Follows(sys.session, EventSigns(env, sys, event), [event], Next(env, sys, event).session)
  {
    hide Drain, HandledLines, SignsIn, Follows, RejectAll, Feed, FeedStderr, ChildClosed, Idle, FinishClose, Expire;
    var s := sys.session;
    match event
    case Deliver(_) =>
      OutputFollows(env, sys, event);
      QuietFollows(s, EventSigns(env, sys, event), event, Next(env, sys, event).session);
    case Stderr(_) =>
      OutputFollows(env, sys, event);
      QuietFollows(s, EventSigns(env, sys, event), event, Next(env, sys, event).session);
    case IdleExpiry => IdleFollows(s);
    case Broken =>
      RejectAllFollows(s, GaveUp(ChildError, false));
      QuietFollows(s, [GaveUp(ChildError, false)], event, RejectAll(s, ChildError));
    case Closed => ClosedFollows(s);
    case Expiry(id) => KillFollows(s, id);
    case CloseDone => KillFollows(s, "");
    case _ => SameFollows(s, event, Next(env, sys, event).session);
  }

  /**
   * Over every run, the start has succeeded exactly if the first sign was a greeting, failed exactly if it was a
   * rejection of everything, and waits exactly if there was neither.
   */
  lemma StartupIs<W(!new)>(env: Env<W>, sys: System<W>, events: seq<Event>)
    requires Reachable(env, sys, events)
    ensures var signs := Signs(env, events);
      && (sys.session.startup.Waiting? <==> signs == [])
      && (sys.session.startup.Ready? <==> signs != [] && signs[0].Greeted?)
      && (sys.session.startup.Failed? <==> signs != [] && signs[0].GaveUp?)
  {
    hide Reachable, Signs, FirstLasting, AllBlame;
    RunFollows(env, sys, events);
  }

  /**
   * Over every run, the session has failed for good exactly with the first lasting reason, it is closed exactly
   * after a close, its child is killed exactly if it has failed so or some timeout or close was due, and every
   * rejection that the worker did not report has its request's timeout or a reason among the signs.
   */
  lemma EndIs<W(!new)>(env: Env<W>, sys: System<W>, events: seq<Event>)
    requires Reachable(env, sys, events)
    ensures sys.session.terminal == FirstLasting(Signs(env, events))
    ensures sys.session.closed <==> CloseDone in events
    ensures sys.session.killed <==> sys.session.terminal.Some? || exists event <- events :: Kills(event)
    ensures AllBlame(Signs(env, events), events, sys.session.settled)
  {
    hide Reachable, Signs, FirstLasting, AllBlame;
    RunFollows(env, sys, events);
  }

  lemma {:induction false} RunFollows<W(!new)>(env: Env<W>, sys: System<W>, events: seq<Event>)
    requires Reachable(env, sys, events)
    ensures Follows(WorkerProtocol.Start(env).session, Signs(env, events), events, sys.session)
    decreases |events|
  {
    hide Enabled, Next, EventSigns, Follows, WorkerProtocol.Start;
    PlayIs(env, sys, events);
    if events == [] {
      NothingFollows(sys.session);
    } else {
      var n := |events| - 1;
      var before := Play(env, events[..n]).value;
      PlayIs(env, before, events[..n]);
      RunFollows(env, before, events[..n]);
      EventFollows(env, before, events[n]);
      FollowsAppend(WorkerProtocol.Start(env).session, Signs(env, events[..n]), events[..n],
                    before.session, EventSigns(env, before, events[n]), [events[n]], sys.session);
      assert events == events[..n] + [events[n]];
    }
  }

  lemma {:induction false} PlayPrefix<W>(env: Env<W>, events: seq<Event>, more: seq<Event>)
    requires Play(env, events + more).Some?
    ensures Play(env, events).Some? && Signs(env, events) <= Signs(env, events + more)
    decreases |more|
  {
    hide Enabled, Next, EventSigns;
    if more == [] {
      assert events + more == events;
    } else {
      assert (events + more)[..|events + more| - 1] == events + more[..|more| - 1];
      PlayPrefix(env, events, more[..|more| - 1]);
    }
  }

  /** Once decided, it stays: whatever happens later, a start that succeeded or failed has succeeded or failed. */
  lemma StartupIsFinal<W(!new)>(env: Env<W>, sys: System<W>, events: seq<Event>, later: System<W>, more: seq<Event>)
    requires Reachable(env, sys, events) && Reachable(env, later, events + more)
    requires !sys.session.startup.Waiting?
    ensures later.session.startup == sys.session.startup
  {
    hide Reachable, Play, Signs;
    PlayIs(env, sys, events);
    PlayIs(env, later, events + more);
    StartupIs(env, sys, events);
    StartupIs(env, later, events + more);
    PlayPrefix(env, events, more);
  }

  // ----- Timers -----

  /** Every request that waits has its timeout armed. */
  ghost predicate Timed(s: Session) {
    forall id :: id in s.pending ==> id in s.timers
  }

  lemma LineKeepsTimers(c: Config, s: Session, line: string)
    ensures Timed(s) ==> Timed(HandleLine(c, s, line))
  {
  }

  lemma {:induction false} DrainKeepsTimers(c: Config, s: Session)
    ensures Timed(s) ==> Timed(Drain(c, s))
    decreases |s.buffer|
  {
    hide HandleLine, DrainLine, DrainLineThrows, NewlineIndex, Trim;
    if NewlineIndex(s.buffer) != -1 {
      var line := s.buffer[..NewlineIndex(s.buffer)];
      DrainLineBuffer(c, s);
      DrainLineHandles(c, s);
      LineKeepsTimers(c, s, line);
      if !DrainLineThrows(c, s) {
        DrainKeepsTimers(c, DrainLine(c, s));
      }
    }
  }

  lemma EventKeepsTimers<W>(env: Env<W>, sys: System<W>, event: Event)
    requires Enabled(env, sys, event) && !event.Closed? && !event.CloseDone?
    ensures Timed(sys.session) ==> Timed(Next(env, sys, event).session)
  {
    hide Drain, Decimal;
    if event.Deliver? {
      DrainKeepsTimers(ConfigOf(env), Received(sys.session, sys.wire[..event.bytes]));
    }
  }

  /** In every run, until the child or the session closes, no request waits without a timer. */
  lemma {:induction false} NoneWaitsUntimed<W(!new)>(env: Env<W>, sys: System<W>, events: seq<Event>)
    requires Reachable(env, sys, events)
    ensures (forall k :: 0 <= k < |events| ==> !events[k].Closed? && !events[k].CloseDone?) ==> Timed(sys.session)
    decreases |events|
  {
    hide Enabled, Next, Timed;
    if events == [] {
      FreshTimers(env);
    } else {
      var n := |events| - 1;
      var before: System<W> :|
        Reachable(env, before, events[..n]) && Enabled(env, before, events[n]) && sys == Next(env, before, events[n]);
      NoneWaitsUntimed(env, before, events[..n]);
      if !events[n].Closed? && !events[n].CloseDone? {
        EventKeepsTimers(env, before, events[n]);
      }
    }
  }

  lemma FreshTimers<W>(env: Env<W>)
    ensures Timed(WorkerProtocol.Start(env).session)
  {
  }

  // ----- What interrupts draining -----

  /** Handling a message throws exactly if its request stops waiting and is left unsettled. */
  lemma ThrowsIff(s: Session, m: Incoming)
    ensures var s' := HandleMessage(s, m);
      Throws(s, m) <==> s'.pending != s.pending && s'.settled == s.settled
  {
    if m.id.TextId? && m.id.id in s.pending {
      assert m.id.id !in Settle(s, m.id.id).pending;
    }
  }
}
