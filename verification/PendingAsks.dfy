/** The registry of asks that wait for a user's reply. */
module PendingAsks {
  import opened Wrappers

  const MAX_PENDING_ASKS := 1000

  datatype Kind = UserAnsweredQuestion | UserDecision

  datatype Reply =
    | Answer(askId: string, mode: string, detail: string)
    | Decision(askId: string, decision: string, reason: Option<string>)

  /** A registered ask; `promise` numbers the promise its caller awaits. */
  datatype PendingAsk = PendingAsk(
    sessionId: string, askId: string, askToken: string, kind: Kind, createdAt: int, promise: nat, timed: bool)

  /**
   * The map in insertion order, the promises whose timers are armed, every ask ever registered,
   * and the promises resolved so far with their replies.
   */
  datatype Registry = Registry(
    entries: seq<PendingAsk>, timers: set<nat>, asks: seq<PendingAsk>, resolved: seq<(nat, Reply)>)

  const EMPTY := Registry([], {}, [], [])

  function KeyFor(sessionId: string, askId: string): string {
    sessionId + "::" + askId
  }

  function KeyOf(ask: PendingAsk): string {
    KeyFor(ask.sessionId, ask.askId)
  }

  function SyntheticTimeoutReply(askId: string, kind: Kind): Reply {
    if kind.UserDecision? then Decision(askId, "deny", Some("timeout")) else Answer(askId, "timeout", "")
  }

  /** Where the map holds a key. */
  function Lookup(entries: seq<PendingAsk>, key: string): (i: Option<nat>)
    ensures i.Some? ==> i.value < |entries| && KeyOf(entries[i.value]) == key
    ensures i.None? <==> forall k :: 0 <= k < |entries| ==> KeyOf(entries[k]) != key
  {
    if entries == [] then None
    else if KeyOf(entries[|entries| - 1]) == key then Some(|entries| - 1)
    else Lookup(entries[..|entries| - 1], key)
  }

  /** Setting a key of the map: an existing key keeps its place. */
  function SetEntry(entries: seq<PendingAsk>, ask: PendingAsk): seq<PendingAsk> {
    var at := Lookup(entries, KeyOf(ask));
    if at.Some? then entries[at.value := ask] else entries + [ask]
  }

  /** The first entry of the stable sort by age. */
  function Oldest(entries: seq<PendingAsk>): (i: nat)
    requires entries != []
    ensures i < |entries|
    ensures forall k :: 0 <= k < |entries| ==> entries[i].createdAt <= entries[k].createdAt
    ensures forall k :: 0 <= k < i ==> entries[i].createdAt < entries[k].createdAt
  {
    if |entries| == 1 then 0
    else
      var n := |entries| - 1;
      var i := Oldest(entries[..n]);
      if entries[n].createdAt < entries[i].createdAt then n else i
  }

  function Resolve(r: Registry, sessionId: string, askId: string, askToken: string, reply: Reply): (Registry, bool) {
    var at := Lookup(r.entries, KeyFor(sessionId, askId));
    if at.None? || r.entries[at.value].askToken != askToken then (r, false)
    else
      var pending := r.entries[at.value];
      (r.(timers := r.timers - {pending.promise},
          entries := r.entries[..at.value] + r.entries[at.value + 1..],
          resolved := r.resolved + [(pending.promise, reply)]),
       true)
  }

  function EvictIfFull(r: Registry): Registry {
    if |r.entries| < MAX_PENDING_ASKS then r
    else
      var oldest := r.entries[Oldest(r.entries)];
      Resolve(r, oldest.sessionId, oldest.askId, oldest.askToken,
              SyntheticTimeoutReply(oldest.askId, oldest.kind)).0
  }

  /** `askToken` is the token drawn for the ask, and `now` the clock. */
  function Register(
    r: Registry, sessionId: string, askId: string, kind: Kind, timeoutMs: Option<int>, askToken: string, now: int)
    : Registry
  {
    var room := EvictIfFull(r);
    var ask := PendingAsk(sessionId, askId, askToken, kind, now, |r.asks|, timeoutMs.Some? && timeoutMs.value > 0);
    room.(entries := SetEntry(room.entries, ask),
          timers := if ask.timed then room.timers + {ask.promise} else room.timers,
          asks := room.asks + [ask])
  }

  /** The timer of an ask goes off: it answers for the ask it was armed for, by that ask's token. */
  function FireTimer(r: Registry, promise: nat): Registry
    requires promise < |r.asks|
  {
    var ask := r.asks[promise];
    Resolve(r.(timers := r.timers - {promise}), ask.sessionId, ask.askId, ask.askToken,
            SyntheticTimeoutReply(ask.askId, ask.kind)).0
  }

  lemma ResolveKeepsAsks(r: Registry)
    ensures EvictIfFull(r).asks == r.asks
  {
  }

  // ----- Runs -----

  datatype Event =
    | Registered(sessionId: string, askId: string, kind: Kind, timeoutMs: Option<int>, askToken: string, now: int)
    | Replied(sessionId: string, askId: string, askToken: string, reply: Reply)
    | TimerFired(promise: nat)

  /** A new token is unlike every earlier one, and only an armed timer goes off. */
  predicate Possible(r: Registry, e: Event) {
    match e
    case Registered(_, _, _, _, askToken, _) => forall k :: 0 <= k < |r.asks| ==> r.asks[k].askToken != askToken
    case Replied(_, _, _, _) => true
    case TimerFired(promise) => promise in r.timers && promise < |r.asks|
  }

  function Next(r: Registry, e: Event): Registry
    requires Possible(r, e)
  {
    match e
    case Registered(sessionId, askId, kind, timeoutMs, askToken, now) =>
      Register(r, sessionId, askId, kind, timeoutMs, askToken, now)
    case Replied(sessionId, askId, askToken, reply) => Resolve(r, sessionId, askId, askToken, reply).0
    case TimerFired(promise) => FireTimer(r, promise)
  }

  function Run(events: seq<Event>): Option<Registry> {
    if events == [] then Some(EMPTY)
    else
      var r := Run(events[..|events| - 1]);
      var e := events[|events| - 1];
      if r.None? || !Possible(r.value, e) then None else Some(Next(r.value, e))
  }

  predicate Waits(r: Registry, promise: nat) {
    exists k :: 0 <= k < |r.entries| && r.entries[k].promise == promise
  }

  predicate Settled(r: Registry, promise: nat) {
    exists k :: 0 <= k < |r.resolved| && r.resolved[k].0 == promise
  }

  /** A later ask took over the key. */
  predicate Overwritten(r: Registry, promise: nat) {
    exists k :: promise < k < |r.asks| && promise < |r.asks| && KeyOf(r.asks[k]) == KeyOf(r.asks[promise])
  }

  ghost predicate EntriesSound(r: Registry) {
    && |r.entries| <= MAX_PENDING_ASKS
    && (forall k :: 0 <= k < |r.entries| ==>
          r.entries[k].promise < |r.asks| && r.asks[r.entries[k].promise] == r.entries[k])
    && (forall j, k :: 0 <= j < k < |r.entries| ==> KeyOf(r.entries[j]) != KeyOf(r.entries[k]))
  }

  ghost predicate AsksSound(r: Registry) {
    && (forall k :: 0 <= k < |r.asks| ==> r.asks[k].promise == k)
    && (forall j, k :: 0 <= j < k < |r.asks| ==> r.asks[j].askToken != r.asks[k].askToken)
  }

  ghost predicate ResolvedOnce(r: Registry) {
    && (forall k :: 0 <= k < |r.resolved| ==> r.resolved[k].0 < |r.asks| && !Waits(r, r.resolved[k].0))
    && (forall j, k :: 0 <= j < k < |r.resolved| ==> r.resolved[j].0 != r.resolved[k].0)
  }

  ghost predicate Accounted(r: Registry) {
    && (forall promise :: 0 <= promise < |r.asks| ==>
          Waits(r, promise) || Settled(r, promise) || Overwritten(r, promise))
    && (forall promise :: 0 <= promise < |r.asks| && Waits(r, promise) ==> !Overwritten(r, promise))
  }

  /** Only registered asks have timers. */
  ghost predicate TimersSound(r: Registry) {
    forall p :: p in r.timers ==> p < |r.asks|
  }

  /**
   * At most a thousand asks wait, on distinct keys; every ask waits, or was resolved, or lost its key to a
   * later one; and a promise is resolved once, and not while it waits.
   */
  ghost predicate Inv(r: Registry) {
    EntriesSound(r) && AsksSound(r) && ResolvedOnce(r) && Accounted(r) && TimersSound(r)
  }
}
