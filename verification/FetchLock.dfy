/**
 The dataset fetch lock: a lock file created exclusively, refreshed by heartbeats
 and taken over when its owner is dead or silent. Processes interleave freely and
 may crash; time passes, but never so far that a live owner's lock looks stale.
 */
module FetchLock {
  import opened Wrappers

  /** FETCH_LOCK_STALE_MS. */
  const STALE_MS := 1_800_000

  /** `nonce` also names the file's inode: it is fresh for every creation. `body` is None until it is written. */
  datatype LockFile = LockFile(nonce: nat, owner: nat, written: bool, createdAt: nat, mtime: nat)

  datatype Phase =
    | Idle
    | Creating(nonce: nat)
    | Holding(nonce: nat)
    | Leaving(nonce: nat)
    | Condemning(seen: Option<nat>)
    | Unlinking(nonce: nat, own: bool)
    | Crashed

  /** Which crashes are possible, and whether re-reading a lock and removing it is one step. */
  datatype Assumptions = Assumptions(crashWhileCreating: bool, crashWhileOwning: bool, atomicRelease: bool)

  datatype State = State(now: nat, nextNonce: nat, file: Option<LockFile>, phases: map<nat, Phase>)

  const START := State(0, 0, None, map[])

  datatype Event =
    | Tick
    | Create(pid: nat)
    | WriteBody(pid: nat)
    | FailWrite(pid: nat)
    | Heartbeat(pid: nat)
    | Finish(pid: nat)
    | Inspect(pid: nat)
    | Release(pid: nat)
    | Match(pid: nat)
    | Unlink(pid: nat)
    | Crash(pid: nat)

  function PhaseOf(s: State, pid: nat): Phase {
    if pid in s.phases then s.phases[pid] else Idle
  }

  function Become(s: State, pid: nat, phase: Phase): State {
    s.(phases := s.phases[pid := phase])
  }

  function Freshness(f: LockFile): nat {
    if f.mtime >= f.createdAt then f.mtime else f.createdAt
  }

  /** The process still stands behind the lock with this nonce. */
  predicate Owns(phase: Phase, nonce: nat) {
    match phase
    case Creating(n) => n == nonce
    case Holding(n) => n == nonce
    case Leaving(n) => n == nonce
    case Unlinking(n, own) => own && n == nonce
    case _ => false
  }

  /** What the takeover check concludes from the file it reads. */
  predicate LooksStale(s: State, f: LockFile) {
    s.now - Freshness(f) > STALE_MS || (f.written && PhaseOf(s, f.owner).Crashed?)
  }

  /** The file at the path carries this nonce in its body. */
  predicate Carries(s: State, nonce: nat) {
    s.file.Some? && s.file.value.written && s.file.value.nonce == nonce
  }

  predicate Enabled(c: Assumptions, s: State, e: Event) {
    match e
    case Tick =>
      s.file.None? || !Owns(PhaseOf(s, s.file.value.owner), s.file.value.nonce)
      || s.now + 1 - Freshness(s.file.value) <= STALE_MS
    case Create(p) => PhaseOf(s, p).Idle?
    case WriteBody(p) => PhaseOf(s, p).Creating?
    case FailWrite(p) => PhaseOf(s, p).Creating?
    case Heartbeat(p) => PhaseOf(s, p).Holding?
    case Finish(p) => PhaseOf(s, p).Holding?
    case Inspect(p) => PhaseOf(s, p).Idle?
    case Release(p) =>
      c.atomicRelease && (PhaseOf(s, p).Leaving? || PhaseOf(s, p).Condemning?)
    case Match(p) =>
      !c.atomicRelease && (PhaseOf(s, p).Leaving? || PhaseOf(s, p).Condemning?)
    case Unlink(p) => PhaseOf(s, p).Unlinking?
    case Crash(p) =>
      var phase := PhaseOf(s, p);
      && !phase.Crashed?
      && (phase.Creating? ==> c.crashWhileCreating)
      && (phase.Holding? || phase.Leaving? || (phase.Unlinking? && phase.own) ==> c.crashWhileOwning)
  }

  function Next(c: Assumptions, s: State, e: Event): State
    requires Enabled(c, s, e)
  {
    match e
    case Tick => s.(now := s.now + 1)
    case Create(p) =>
      if s.file.Some? then s
      else Become(s.(file := Some(LockFile(s.nextNonce, p, false, s.now, s.now)), nextNonce := s.nextNonce + 1),
                  p, Creating(s.nextNonce))
    case WriteBody(p) =>
      // The write goes to the created file, wherever its path now leads.
      var nonce := PhaseOf(s, p).nonce;
      var file := if s.file.Some? && s.file.value.nonce == nonce
                  then Some(s.file.value.(written := true, mtime := s.now)) else s.file;
      Become(s.(file := file), p, Holding(nonce))
    case FailWrite(p) => Become(s.(file := None), p, Idle)
    case Heartbeat(p) =>
      if Carries(s, PhaseOf(s, p).nonce) then s.(file := Some(s.file.value.(mtime := s.now))) else s
    case Finish(p) => Become(s, p, Leaving(PhaseOf(s, p).nonce))
    case Inspect(p) =>
      if s.file.Some? && LooksStale(s, s.file.value) then
        Become(s, p, Condemning(if s.file.value.written then Some(s.file.value.nonce) else None))
      else s
    case Release(p) =>
      var phase := PhaseOf(s, p);
      var nonce := if phase.Leaving? then Some(phase.nonce) else phase.seen;
      var file := if nonce.None? || Carries(s, nonce.value) then None else s.file;
      Become(s.(file := file), p, Idle)
    case Match(p) =>
      var phase := PhaseOf(s, p);
      var nonce := if phase.Leaving? then Some(phase.nonce) else phase.seen;
      if nonce.None? then Become(s.(file := None), p, Idle)
      else if Carries(s, nonce.value) then Become(s, p, Unlinking(nonce.value, phase.Leaving?))
      else Become(s, p, Idle)
    case Unlink(p) => Become(s.(file := None), p, Idle)
    case Crash(p) => Become(s, p, Crashed)
  }

  predicate ValidRun(c: Assumptions, s: State, events: seq<Event>)
    decreases events
  {
    events == [] || (Enabled(c, s, events[0]) && ValidRun(c, Next(c, s, events[0]), events[1..]))
  }

  function Run(c: Assumptions, s: State, events: seq<Event>): State
    requires ValidRun(c, s, events)
    decreases events
  {
    if events == [] then s else Run(c, Next(c, s, events[0]), events[1..])
  }

  /** At most one process runs the protected operation, and the file carries its nonce. */
  ghost predicate Exclusive(s: State) {
    && (forall p, q | PhaseOf(s, p).Holding? && PhaseOf(s, q).Holding? :: p == q)
    && (forall p | PhaseOf(s, p).Holding? :: Carries(s, PhaseOf(s, p).nonce))
  }

  ghost predicate AlwaysExclusive(c: Assumptions) {
    forall events | ValidRun(c, START, events) :: Exclusive(Run(c, START, events))
  }

  /** No lock is abandoned half-created, and one abandoned later is removed in one step with its check. */
  predicate Sound(c: Assumptions) {
    !c.crashWhileCreating && (c.atomicRelease || !c.crashWhileOwning)
  }
}
