/** When the fetch lock excludes: the invariant behind it, and the assumptions it cannot do without. */
module FetchLockExclusion {
  import opened Wrappers
  import opened FetchLock

  // ----- Why it holds ---------------------------------------------------------------

  /** A process behind a lock has the path lead to its file, and the file looks fresh. */
  ghost predicate OwnersInPlace(s: State) {
    forall p, nonce | Owns(PhaseOf(s, p), nonce) ::
      && s.file.Some?
      && s.file.value.nonce == nonce && s.file.value.owner == p
      && (s.file.value.written <==> !PhaseOf(s, p).Creating?)
      && s.now - Freshness(s.file.value) <= STALE_MS
  }

  /** A file without a body is still being created; without crashes of owners every file has its owner. */
  ghost predicate FilesExplained(c: Assumptions, s: State) {
    s.file.Some? ==>
      && s.file.value.nonce < s.nextNonce
      && Freshness(s.file.value) <= s.now
      && (!s.file.value.written || !c.crashWhileOwning ==> Owns(PhaseOf(s, s.file.value.owner), s.file.value.nonce))
  }

  /** A condemned lock has a known nonce that nobody stands behind, now or ever again. */
  ghost predicate CondemnedAreDead(c: Assumptions, s: State) {
    && (forall p | PhaseOf(s, p).Condemning? ::
          && c.crashWhileOwning
          && PhaseOf(s, p).seen.Some? && PhaseOf(s, p).seen.value < s.nextNonce
          && forall q :: !Owns(PhaseOf(s, q), PhaseOf(s, p).seen.value))
    && (forall p | PhaseOf(s, p).Unlinking? :: PhaseOf(s, p).own)
  }

  ghost predicate Inv(c: Assumptions, s: State) {
    OwnersInPlace(s) && FilesExplained(c, s) && CondemnedAreDead(c, s)
  }

  /** The process a step belongs to; a tick belongs to none. */
  function Actor(e: Event): Option<nat> {
    if e.Tick? then None else Some(e.pid)
  }

  lemma OthersKeepPhase(c: Assumptions, s: State, e: Event)
    requires Enabled(c, s, e)
    ensures forall q: nat | Actor(e) != Some(q) :: PhaseOf(Next(c, s, e), q) == PhaseOf(s, q)
  {
  }

  /** Steps that a process takes towards or with its own lock. */
  lemma OwnStepInv(c: Assumptions, s: State, e: Event)
    requires Sound(c) && Inv(c, s) && Enabled(c, s, e)
    requires e.Create? || e.WriteBody? || e.FailWrite? || e.Heartbeat? || e.Finish?
    ensures Inv(c, Next(c, s, e))
  {
    OthersKeepPhase(c, s, e);
    match e
    case Create(p) =>
    case WriteBody(p) => assert Owns(PhaseOf(s, p), PhaseOf(s, p).nonce);
    case FailWrite(p) => assert Owns(PhaseOf(s, p), PhaseOf(s, p).nonce);
    case Heartbeat(p) =>
    case Finish(p) => assert Owns(PhaseOf(s, p), PhaseOf(s, p).nonce);
  }

  /** Steps that remove a lock: its owner's release, or a takeover. */
  lemma RemovalStepInv(c: Assumptions, s: State, e: Event)
    requires Sound(c) && Inv(c, s) && Enabled(c, s, e)
    requires e.Release? || e.Match? || e.Unlink?
    ensures Inv(c, Next(c, s, e))
  {
    OthersKeepPhase(c, s, e);
    match e
    case Release(p) =>
      assert PhaseOf(s, p).Leaving? ==> Owns(PhaseOf(s, p), PhaseOf(s, p).nonce);
      assert PhaseOf(s, p).Condemning? ==>
          forall q: nat, n: nat | Owns(PhaseOf(s, q), n) :: n != PhaseOf(s, p).seen.value;
    case Match(p) =>
      assert PhaseOf(s, p).Leaving?;
      assert Owns(PhaseOf(s, p), PhaseOf(s, p).nonce);
    case Unlink(p) => assert Owns(PhaseOf(s, p), PhaseOf(s, p).nonce);
  }

  lemma StepInv(c: Assumptions, s: State, e: Event)
    requires Sound(c) && Inv(c, s) && Enabled(c, s, e)
    ensures Inv(c, Next(c, s, e))
  {
    if e.Create? || e.WriteBody? || e.FailWrite? || e.Heartbeat? || e.Finish? {
      OwnStepInv(c, s, e);
    } else if e.Release? || e.Match? || e.Unlink? {
      RemovalStepInv(c, s, e);
    } else {
      OthersKeepPhase(c, s, e);
    }
  }

  lemma {:induction false} RunInv(c: Assumptions, s: State, events: seq<Event>)
    requires Sound(c) && Inv(c, s) && ValidRun(c, s, events)
    ensures Inv(c, Run(c, s, events))
    decreases events
  {
    if events != [] {
      StepInv(c, s, events[0]);
      RunInv(c, Next(c, s, events[0]), events[1..]);
    }
  }

  lemma InvExclusive(c: Assumptions, s: State)
    requires Inv(c, s)
    ensures Exclusive(s)
  {
    forall p | PhaseOf(s, p).Holding?
      ensures s.file.Some? && s.file.value.owner == p && Carries(s, PhaseOf(s, p).nonce)
    {
      assert Owns(PhaseOf(s, p), PhaseOf(s, p).nonce);
    }
  }

  /** While an owner stands behind its lock, no step of another process removes or replaces the file. */
  lemma LiveLockUntouched(c: Assumptions, s: State, e: Event, p: nat, nonce: nat)
    requires Sound(c) && Inv(c, s) && Enabled(c, s, e)
    requires Owns(PhaseOf(s, p), nonce) && Owns(PhaseOf(Next(c, s, e), p), nonce)
    ensures s.file.Some? && Next(c, s, e).file.Some?
    ensures s.file.value.nonce == Next(c, s, e).file.value.nonce == nonce
    ensures Next(c, s, e).file.value.owner == p
  {
    StepInv(c, s, e);
  }

  /**
   * An idle process condemns the lock exactly when both of its times are more than half an hour back, or its
   * body names a process that is dead; otherwise it leaves everything as it is.
   */
  lemma TakeoverIff(c: Assumptions, s: State, p: nat)
    requires PhaseOf(s, p).Idle?
    ensures var silent := s.file.Some? && s.now - s.file.value.mtime > 1_800_000
                                       && s.now - s.file.value.createdAt > 1_800_000;
      var orphan := s.file.Some? && s.file.value.written && PhaseOf(s, s.file.value.owner).Crashed?;
      var after := Next(c, s, Inspect(p));
      && (PhaseOf(after, p).Condemning? <==> silent || orphan)
      && (!(silent || orphan) ==> after == s)
  {
  }

  /** A process that takes over a dead or silent lock and meets nobody on the way ends up holding its own. */
  lemma TakeoverSucceeds(c: Assumptions, s: State, p: nat)
    requires c.atomicRelease && PhaseOf(s, p).Idle? && s.file.Some? && LooksStale(s, s.file.value)
    ensures var events := [Inspect(p), Release(p), Create(p), WriteBody(p)];
      && ValidRun(c, s, events)
      && var after := Run(c, s, events);
         PhaseOf(after, p) == Holding(s.nextNonce) && Carries(after, s.nextNonce)
  {
    var events := [Inspect(p), Release(p), Create(p), WriteBody(p)];
    var s1 := Next(c, s, events[0]);
    var s2 := Next(c, s1, events[1]);
    var s3 := Next(c, s2, events[2]);
    var s4 := Next(c, s3, events[3]);
    assert PhaseOf(s1, p).Condemning? && s2.file.None? && PhaseOf(s2, p).Idle?;
    ChainRun(c, [s, s1, s2, s3, s4], events);
  }

  // ----- Why nothing weaker will do -----------------------------------------------------

  lemma {:induction false} RunAppend(c: Assumptions, s: State, a: seq<Event>, b: seq<Event>)
    requires ValidRun(c, s, a) && ValidRun(c, Run(c, s, a), b)
    ensures ValidRun(c, s, a + b) && Run(c, s, a + b) == Run(c, Run(c, s, a), b)
    decreases a
  {
    if a == [] {
      assert a + b == b;
    } else {
      assert (a + b)[1..] == a[1..] + b;
      RunAppend(c, Next(c, s, a[0]), a[1..], b);
    }
  }

  function Ticks(n: nat): (events: seq<Event>)
    ensures |events| == n
  {
    if n == 0 then [] else [Tick] + Ticks(n - 1)
  }

  /** Time passes freely over a lock whose owner is gone. */
  lemma {:induction false} TicksRun(c: Assumptions, s: State, n: nat)
    requires s.file.Some? && PhaseOf(s, s.file.value.owner).Crashed?
    ensures ValidRun(c, s, Ticks(n)) && Run(c, s, Ticks(n)) == s.(now := s.now + n)
    decreases n
  {
    if n > 0 {
      TicksRun(c, s.(now := s.now + 1), n - 1);
      assert Ticks(n)[1..] == Ticks(n - 1);
    }
  }

  /**
   A lock abandoned before its body is written is removed without being read again: two processes that
   both find it stale remove one after the other, the second one the lock the first has just taken.
   */
  lemma TornLockBreaksExclusion(c: Assumptions)
    requires c.crashWhileCreating
    ensures !AlwaysExclusive(c)
  {
    var torn := [Create(0), Crash(0)];
    var s := Run(c, START, torn);
    assert torn[1..] == [Crash(0)] && torn[1..][1..] == [];
    TicksRun(c, s, STALE_MS + 1);
    RunAppend(c, START, torn, Ticks(STALE_MS + 1));
    var late := Run(c, START, torn + Ticks(STALE_MS + 1));
    var remove1 := if c.atomicRelease then Release(1) else Match(1);
    var remove2 := if c.atomicRelease then Release(2) else Match(2);
    var race := [Inspect(1), Inspect(2), remove1, Create(1), WriteBody(1), remove2, Create(2), WriteBody(2)];
    Race(c, late, race);
    RunAppend(c, START, torn + Ticks(STALE_MS + 1), race);
  }

  /** A chain of states, each the next of the one before, is a run. */
  lemma {:induction false} ChainRun(c: Assumptions, states: seq<State>, events: seq<Event>)
    requires |states| == |events| + 1
    requires forall i | 0 <= i < |events| ::
               Enabled(c, states[i], events[i]) && states[i + 1] == Next(c, states[i], events[i])
    ensures ValidRun(c, states[0], events) && Run(c, states[0], events) == states[|events|]
    decreases events
  {
    if events != [] {
      ChainRun(c, states[1..], events[1..]);
    }
  }

  lemma Race(c: Assumptions, s0: State, race: seq<Event>)
    requires race == [Inspect(1), Inspect(2), if c.atomicRelease then Release(1) else Match(1), Create(1), WriteBody(1),
                      if c.atomicRelease then Release(2) else Match(2), Create(2), WriteBody(2)]
    requires s0.file.Some? && !s0.file.value.written && LooksStale(s0, s0.file.value)
    requires PhaseOf(s0, 1).Idle? && PhaseOf(s0, 2).Idle?
    ensures ValidRun(c, s0, race) && !Exclusive(Run(c, s0, race))
  {
    var first, second := race[..4], race[4..];
    assert race == first + second;
    var s4 := FirstTakesOver(c, s0, first);
    SecondTakesOver(c, s4, second);
    RunAppend(c, s0, first, second);
  }

  /** Both condemn the lock, then the first removes it and creates its own. */
  lemma FirstTakesOver(c: Assumptions, s0: State, race: seq<Event>) returns (s4: State)
    requires race == [Inspect(1), Inspect(2), if c.atomicRelease then Release(1) else Match(1), Create(1)]
    requires s0.file.Some? && !s0.file.value.written && LooksStale(s0, s0.file.value)
    requires PhaseOf(s0, 1).Idle? && PhaseOf(s0, 2).Idle?
    ensures ValidRun(c, s0, race) && Run(c, s0, race) == s4
    ensures PhaseOf(s4, 1).Creating? && PhaseOf(s4, 2) == Condemning(None)
  {
    var s1 := Next(c, s0, race[0]);
    var s2 := Next(c, s1, race[1]);
    var s3 := Next(c, s2, race[2]);
    s4 := Next(c, s3, race[3]);
    ChainRun(c, [s0, s1, s2, s3, s4], race);
  }

  /** The second removes whatever is there, without reading it again, and also takes the lock. */
  lemma SecondTakesOver(c: Assumptions, s0: State, race: seq<Event>)
    requires race == [WriteBody(1), if c.atomicRelease then Release(2) else Match(2), Create(2), WriteBody(2)]
    requires PhaseOf(s0, 1).Creating? && PhaseOf(s0, 2) == Condemning(None)
    ensures ValidRun(c, s0, race) && !Exclusive(Run(c, s0, race))
  {
    var s1 := Next(c, s0, race[0]);
    var s2 := Next(c, s1, race[1]);
    var s3 := Next(c, s2, race[2]);
    var s4 := Next(c, s3, race[3]);
    assert PhaseOf(s4, 1).Holding? && PhaseOf(s4, 2).Holding?;
    ChainRun(c, [s0, s1, s2, s3, s4], race);
  }

  /** Without an atomic check-and-remove, two processes that both recognise a dead owner's lock do the same. */
  lemma SplitReleaseBreaksExclusion(c: Assumptions)
    requires c.crashWhileOwning && !c.atomicRelease
    ensures !AlwaysExclusive(c)
  {
    hide ValidRun, Run, Exclusive;
    var early := [Create(0), WriteBody(0), Crash(0)];
    var s1 := Next(c, START, early[0]);
    var s2 := Next(c, s1, early[1]);
    var s3 := Next(c, s2, early[2]);
    ChainRun(c, [START, s1, s2, s3], early);
    assert s3 == State(0, 1, Some(LockFile(0, 0, true, 0, 0)), map[0 := Crashed]);
    var checks := [Inspect(1), Inspect(2), Match(1), Match(2)];
    BothCheck(c, s3, checks);
    RunAppend(c, START, early, checks);
    var removals := [Unlink(1), Create(1), WriteBody(1), Unlink(2), Create(2), WriteBody(2)];
    BothRemove(c, Run(c, s3, checks), removals);
    RunAppend(c, START, early + checks, removals);
  }

  lemma BothCheck(c: Assumptions, s0: State, events: seq<Event>)
    requires !c.atomicRelease && s0 == State(0, 1, Some(LockFile(0, 0, true, 0, 0)), map[0 := Crashed])
    requires events == [Inspect(1), Inspect(2), Match(1), Match(2)]
    ensures ValidRun(c, s0, events)
    ensures Run(c, s0, events)
         == State(0, 1, s0.file, map[0 := Crashed, 1 := Unlinking(0, false), 2 := Unlinking(0, false)])
  {
    hide ValidRun, Run;
    var s1 := State(0, 1, s0.file, map[0 := Crashed, 1 := Condemning(Some(0))]);
    var s2 := State(0, 1, s0.file, map[0 := Crashed, 1 := Condemning(Some(0)), 2 := Condemning(Some(0))]);
    var s3 := State(0, 1, s0.file, map[0 := Crashed, 1 := Unlinking(0, false), 2 := Condemning(Some(0))]);
    var s4 := State(0, 1, s0.file, map[0 := Crashed, 1 := Unlinking(0, false), 2 := Unlinking(0, false)]);
    assert s1 == Next(c, s0, events[0]) && s2 == Next(c, s1, events[1]);
    assert s3 == Next(c, s2, events[2]) && s4 == Next(c, s3, events[3]);
    ChainRun(c, [s0, s1, s2, s3, s4], events);
  }

  lemma BothRemove(c: Assumptions, s0: State, events: seq<Event>)
    requires s0.phases == map[0 := Crashed, 1 := Unlinking(0, false), 2 := Unlinking(0, false)]
    requires events == [Unlink(1), Create(1), WriteBody(1), Unlink(2), Create(2), WriteBody(2)]
    ensures ValidRun(c, s0, events) && !Exclusive(Run(c, s0, events))
  {
    hide ValidRun, Run;
    var s1 := Next(c, s0, events[0]);
    var s2 := Next(c, s1, events[1]);
    var s3 := Next(c, s2, events[2]);
    var s4 := Next(c, s3, events[3]);
    var s5 := Next(c, s4, events[4]);
    var s6 := Next(c, s5, events[5]);
    assert PhaseOf(s6, 1).Holding? && PhaseOf(s6, 2).Holding?;
    ChainRun(c, [s0, s1, s2, s3, s4, s5, s6], events);
  }

  /** The lock excludes in every run exactly under these assumptions. */
  lemma ExclusiveIffSound(c: Assumptions)
    ensures AlwaysExclusive(c) <==> Sound(c)
  {
    if c.crashWhileCreating {
      TornLockBreaksExclusion(c);
    } else if c.crashWhileOwning && !c.atomicRelease {
      SplitReleaseBreaksExclusion(c);
    } else {
      forall events | ValidRun(c, START, events) ensures Exclusive(Run(c, START, events)) {
        RunInv(c, START, events);
        InvExclusive(c, Run(c, START, events));
      }
    }
  }
}
