/** Every run of the ask registry: who waits, who is answered, and by whom. */
module PendingAskRuns {
  import opened Wrappers
  import opened PendingAsks

  /** Taking out one entry: the others stay where they were, one of them no more. */
  lemma Removed(r: Registry, i: nat, s: Registry)
    requires EntriesSound(r) && i < |r.entries|
    requires s.entries == r.entries[..i] + r.entries[i + 1..] && s.asks == r.asks
    ensures EntriesSound(s) && |s.entries| == |r.entries| - 1
    ensures forall p :: Waits(s, p) <==> Waits(r, p) && p != r.entries[i].promise
    ensures forall k :: 0 <= k < |s.entries| ==> KeyOf(s.entries[k]) != KeyOf(r.entries[i])
  {
    hide KeyOf;
    assert forall k :: 0 <= k < |s.entries| ==> s.entries[k] == r.entries[if k < i then k else k + 1];
    RemovedWaits(r, i, s);
  }

  lemma RemovedWaits(r: Registry, i: nat, s: Registry)
    requires EntriesSound(r) && i < |r.entries|
    requires |s.entries| == |r.entries| - 1
    requires forall k :: 0 <= k < |s.entries| ==> s.entries[k] == r.entries[if k < i then k else k + 1]
    ensures forall p :: Waits(s, p) <==> Waits(r, p) && p != r.entries[i].promise
  {
    hide KeyOf;
    forall p ensures Waits(s, p) <==> Waits(r, p) && p != r.entries[i].promise {
      if Waits(s, p) {
        var k :| 0 <= k < |s.entries| && s.entries[k].promise == p;
        var j := if k < i then k else k + 1;
        assert r.entries[j].promise == p;
        assert KeyOf(r.entries[i]) != KeyOf(r.entries[j]);
      }
      if Waits(r, p) && p != r.entries[i].promise {
        var j :| 0 <= j < |r.entries| && r.entries[j].promise == p;
        assert s.entries[if j < i then j else j - 1].promise == p;
      }
    }
  }

  lemma ResolveInv(r: Registry, sessionId: string, askId: string, askToken: string, reply: Reply)
    requires Inv(r)
    ensures var (s, matched) := Resolve(r, sessionId, askId, askToken, reply);
      && Inv(s)
      && (!matched ==> s == r)
      && (matched ==> s.asks == r.asks && |s.entries| == |r.entries| - 1)
  {
    hide KeyOf, KeyFor, Waits, Overwritten, EntriesSound;
    var at := Lookup(r.entries, KeyFor(sessionId, askId));
    var (s, matched) := Resolve(r, sessionId, askId, askToken, reply);
    if matched {
      var p := r.entries[at.value].promise;
      Removed(r, at.value, s);
      assert Waits(r, p) && p < |r.asks| by { EntryWaits(r, at.value); }
      SettledSnoc(r, s, p, reply);
      assert forall q :: Overwritten(s, q) == Overwritten(r, q) by { SameOverwritten(r, s); }
      hide Settled;
    }
  }

  lemma EntryWaits(r: Registry, i: nat)
    requires EntriesSound(r) && i < |r.entries|
    ensures Waits(r, r.entries[i].promise) && r.entries[i].promise < |r.asks|
  {
  }

  lemma SameOverwritten(r: Registry, s: Registry)
    requires r.asks == s.asks
    ensures forall q :: Overwritten(s, q) == Overwritten(r, q)
  {
  }

  lemma SettledSnoc(r: Registry, s: Registry, p: nat, reply: Reply)
    requires s.resolved == r.resolved + [(p, reply)]
    ensures forall q :: Settled(s, q) <==> Settled(r, q) || q == p
  {
    forall q ensures Settled(s, q) <==> Settled(r, q) || q == p {
      if Settled(r, q) {
        var k :| 0 <= k < |r.resolved| && r.resolved[k].0 == q;
        assert s.resolved[k].0 == q;
      }
      assert s.resolved[|r.resolved|].0 == p;
    }
  }

  /** Eviction makes room. */
  lemma EvictInv(r: Registry)
    requires Inv(r)
    ensures Inv(EvictIfFull(r)) && |EvictIfFull(r).entries| < MAX_PENDING_ASKS && EvictIfFull(r).asks == r.asks
  {
    assert |r.entries| <= MAX_PENDING_ASKS;
    hide Inv;
    if |r.entries| >= MAX_PENDING_ASKS {
      EvictionFair(r);
      var oldest := r.entries[Oldest(r.entries)];
      ResolveInv(r, oldest.sessionId, oldest.askId, oldest.askToken, SyntheticTimeoutReply(oldest.askId, oldest.kind));
    }
  }

  lemma KeyFound(r: Registry, i: nat)
    requires EntriesSound(r) && i < |r.entries|
    ensures Lookup(r.entries, KeyOf(r.entries[i])) == Some(i)
  {
    hide KeyOf;
    var at := Lookup(r.entries, KeyOf(r.entries[i]));
    assert at.Some? && at.value == i;
  }

  /** A timed-out decision is denied for that reason, and a timed-out question has an empty answer. */
  ghost predicate TimesOut(ask: PendingAsk, reply: Reply) {
    match ask.kind
    case UserDecision => reply == Decision(ask.askId, "deny", Some("timeout"))
    case UserAnsweredQuestion => reply == Answer(ask.askId, "timeout", "")
  }

  /**
   * When the map is full, eviction resolves exactly the first of the oldest asks, with a timeout reply of
   * that ask's own kind, and leaves the others.
   */
  lemma EvictionFair(r: Registry)
    requires Inv(r) && |r.entries| >= MAX_PENDING_ASKS
    ensures var s, i := EvictIfFull(r), Oldest(r.entries);
      var oldest := r.entries[i];
      && (forall k :: 0 <= k < |r.entries| ==> oldest.createdAt <= r.entries[k].createdAt)
      && s.entries == r.entries[..i] + r.entries[i + 1..]
      && s.resolved == r.resolved + [(oldest.promise, SyntheticTimeoutReply(oldest.askId, oldest.kind))]
      && TimesOut(oldest, s.resolved[|r.resolved|].1)
  {
    KeyFound(r, Oldest(r.entries));
  }

  /** `s` is `r` with a new ask set under its key. */
  ghost predicate Sets(r: Registry, ask: PendingAsk, s: Registry) {
    && |r.entries| < MAX_PENDING_ASKS
    && ask.promise == |r.asks|
    && (forall k :: 0 <= k < |r.asks| ==> r.asks[k].askToken != ask.askToken)
    && s.entries == SetEntry(r.entries, ask)
    && s.asks == r.asks + [ask]
    && s.resolved == r.resolved
    && s.timers <= r.timers + {ask.promise}
  }

  function Displaced(r: Registry, ask: PendingAsk): Option<nat>
    ensures Displaced(r, ask).Some? ==> Displaced(r, ask).value < |r.entries|
    ensures Displaced(r, ask).Some? ==> KeyOf(r.entries[Displaced(r, ask).value]) == KeyOf(ask)
  {
    Lookup(r.entries, KeyOf(ask))
  }

  lemma SetEntrySound(r: Registry, ask: PendingAsk, s: Registry)
    requires Inv(r) && Sets(r, ask, s)
    ensures EntriesSound(s) && AsksSound(s)
    ensures forall k :: 0 <= k < |s.entries| && s.entries[k].promise != ask.promise ==>
              k < |r.entries| && s.entries[k] == r.entries[k] && KeyOf(s.entries[k]) != KeyOf(ask)
    ensures Waits(s, ask.promise)
  {
    hide KeyOf, Waits, Settled, Overwritten;
    var at := Lookup(r.entries, KeyOf(ask));
    var place := if at.Some? then at.value else |r.entries|;
    assert s.entries[place] == ask;
    assert EntriesSound(s);
    EntryWaits(s, place);
  }

  lemma SetEntryWaits(r: Registry, ask: PendingAsk, s: Registry, p: nat)
    requires Inv(r) && Sets(r, ask, s)
    ensures Waits(s, p) <==>
            p == ask.promise
            || (Waits(r, p) && !(Displaced(r, ask).Some? && p == r.entries[Displaced(r, ask).value].promise))
    ensures Waits(s, p) && p != ask.promise ==> p < |r.asks| && KeyOf(r.asks[p]) != KeyOf(ask)
  {
    hide KeyOf, Settled, Overwritten;
    SetEntrySound(r, ask, s);
    var at := Displaced(r, ask);
    if Waits(r, p) && !(at.Some? && p == r.entries[at.value].promise) {
      var k :| 0 <= k < |r.entries| && r.entries[k].promise == p;
      assert s.entries[k].promise == p;
    }
    if Waits(s, p) && p != ask.promise {
      var k :| 0 <= k < |s.entries| && s.entries[k].promise == p;
      assert r.entries[k].promise == p;
      if at.Some? {
        DistinctPromises(r, k, at.value);
      }
    }
  }

  lemma SetEntryAccounted(r: Registry, ask: PendingAsk, s: Registry, p: nat)
    requires Inv(r) && Sets(r, ask, s) && p < |s.asks|
    ensures Waits(s, p) || Settled(s, p) || Overwritten(s, p)
    ensures Waits(s, p) ==> !Overwritten(s, p)
  {
    hide KeyOf, Waits;
    var n := |r.asks|;
    SetEntryWaits(r, ask, s, p);
    if p < n {
      var at := Displaced(r, ask);
      if at.Some? && p == r.entries[at.value].promise {
        assert KeyOf(s.asks[n]) == KeyOf(s.asks[p]);
      } else if Settled(r, p) {
        var k :| 0 <= k < |r.resolved| && r.resolved[k].0 == p;
        assert s.resolved[k].0 == p;
      } else if Overwritten(r, p) {
        var k :| p < k < n && KeyOf(r.asks[k]) == KeyOf(r.asks[p]);
        assert KeyOf(s.asks[k]) == KeyOf(s.asks[p]);
      }
    }
  }

  lemma SetEntryInv(r: Registry, ask: PendingAsk, s: Registry)
    requires Inv(r) && Sets(r, ask, s)
    ensures Inv(s)
  {
    assert s.resolved == r.resolved && |r.asks| < |s.asks| && ask.promise == |r.asks|;
    hide KeyOf, Waits, Settled, Overwritten, Sets, EntriesSound, AsksSound;
    SetEntrySound(r, ask, s);
    forall p | 0 <= p < |s.asks|
      ensures Waits(s, p) || Settled(s, p) || Overwritten(s, p)
      ensures Waits(s, p) ==> !Overwritten(s, p)
    {
      SetEntryAccounted(r, ask, s, p);
    }
    forall k | 0 <= k < |s.resolved| ensures s.resolved[k].0 < |s.asks| && !Waits(s, s.resolved[k].0) {
      SetEntryWaits(r, ask, s, r.resolved[k].0);
    }
  }

  lemma DistinctPromises(r: Registry, j: nat, k: nat)
    requires Inv(r) && j < |r.entries| && k < |r.entries|
    ensures r.entries[j].promise == r.entries[k].promise ==> j == k
  {
    hide KeyOf;
    assert r.entries[j].promise == r.entries[k].promise ==> r.entries[j] == r.entries[k];
  }

  lemma FewerTimersInv(r: Registry, timers: set<nat>)
    requires Inv(r) && timers <= r.timers
    ensures Inv(r.(timers := timers))
  {
    var s := r.(timers := timers);
    assert forall p :: Waits(s, p) == Waits(r, p);
    assert forall p :: Settled(s, p) == Settled(r, p);
    assert forall p :: Overwritten(s, p) == Overwritten(r, p);
  }

  lemma NextInv(r: Registry, e: Event)
    requires Inv(r) && Possible(r, e)
    ensures Inv(Next(r, e))
  {
    hide Inv, Resolve, EvictIfFull, SetEntry;
    match e {
      case Registered(sessionId, askId, kind, timeoutMs, askToken, now) =>
        EvictInv(r);
        var ask := PendingAsk(sessionId, askId, askToken, kind, now, |r.asks|, timeoutMs.Some? && timeoutMs.value > 0);
        SetEntryInv(EvictIfFull(r), ask, Next(r, e));
      case Replied(sessionId, askId, askToken, reply) =>
        ResolveInv(r, sessionId, askId, askToken, reply);
      case TimerFired(promise) =>
        var ask := r.asks[promise];
        FewerTimersInv(r, r.timers - {promise});
        ResolveInv(r.(timers := r.timers - {promise}), ask.sessionId, ask.askId, ask.askToken,
                   SyntheticTimeoutReply(ask.askId, ask.kind));
    }
  }

  /** The accounting holds over every run, whatever is registered, answered or timed out in whatever order. */
  lemma {:induction false} RunInv(events: seq<Event>)
    ensures Run(events).Some? ==> Inv(Run(events).value)
    decreases |events|
  {
    assert Inv(EMPTY);
    hide Inv, Possible, Next;
    if events != [] {
      var before, e := events[..|events| - 1], events[|events| - 1];
      RunInv(before);
      if Run(before).Some? && Possible(Run(before).value, e) {
        NextInv(Run(before).value, e);
      }
    }
  }

  // ----- Who resolves whom -----

  /** A timer resolves the ask it was armed for and no other; left over from a lost ask, it resolves nothing. */
  lemma TimerResolvesItsOwn(r: Registry, promise: nat)
    requires Inv(r) && promise < |r.asks|
    ensures var s := FireTimer(r, promise);
      s.resolved == if Waits(r, promise)
                    then r.resolved + [(promise, SyntheticTimeoutReply(r.asks[promise].askId, r.asks[promise].kind))]
                    else r.resolved
    ensures !Waits(r, promise) ==> FireTimer(r, promise).entries == r.entries
    ensures Waits(r, promise) ==> TimesOut(r.asks[promise], FireTimer(r, promise).resolved[|r.resolved|].1)
  {
    var ask := r.asks[promise];
    var at := Lookup(r.entries, KeyOf(ask));
    assert KeyOf(ask) == KeyFor(ask.sessionId, ask.askId);
    hide KeyOf, Overwritten, SyntheticTimeoutReply;
    if Waits(r, promise) {
      var i :| 0 <= i < |r.entries| && r.entries[i].promise == promise;
      KeyFound(r, i);
    } else if at.Some? {
      var other := r.entries[at.value];
      EntryWaits(r, at.value);
      assert r.asks[other.promise] == other && other.promise != promise;
      assert r.asks[other.promise].askToken != ask.askToken;
    }
  }

  /** A reply is accepted exactly for the waiting ask that was given the token, under the key of that ask. */
  lemma ReplyNeedsToken(r: Registry, sessionId: string, askId: string, askToken: string, reply: Reply)
    requires Inv(r)
    ensures var (s, matched) := Resolve(r, sessionId, askId, askToken, reply);
      && (matched <==> exists p :: 0 <= p < |r.asks| && Waits(r, p) && r.asks[p].askToken == askToken
                                   && KeyOf(r.asks[p]) == KeyFor(sessionId, askId))
      && (matched ==> |s.resolved| == |r.resolved| + 1
                      && s.resolved[|r.resolved|].1 == reply
                      && s.resolved[|r.resolved|].0 < |r.asks|
                      && r.asks[s.resolved[|r.resolved|].0].askToken == askToken)
  {
    hide KeyOf, KeyFor, Overwritten;
    var key := KeyFor(sessionId, askId);
    var at := Lookup(r.entries, key);
    var (s, matched) := Resolve(r, sessionId, askId, askToken, reply);
    if matched {
      EntryWaits(r, at.value);
      assert r.asks[r.entries[at.value].promise] == r.entries[at.value];
    }
    if p :| 0 <= p < |r.asks| && Waits(r, p) && r.asks[p].askToken == askToken && KeyOf(r.asks[p]) == key {
      var i :| 0 <= i < |r.entries| && r.entries[i].promise == p;
      KeyFound(r, i);
    }
  }

  /**
   * A new ask waits, with a timer exactly when a positive timeout was given; of the asks that waited before,
   * only the evicted one and the one that held its key no longer do.
   */
  lemma NewAskWaits(
    r: Registry, sessionId: string, askId: string, kind: Kind, timeoutMs: Option<int>, askToken: string, now: int)
    requires Inv(r) && Possible(r, Registered(sessionId, askId, kind, timeoutMs, askToken, now))
    ensures var s := Register(r, sessionId, askId, kind, timeoutMs, askToken, now);
      && Waits(s, |r.asks|)
      && (|r.asks| in s.timers <==> timeoutMs.Some? && timeoutMs.value > 0)
      && forall p :: 0 <= p < |r.asks| ==>
           (Waits(s, p) <==> Waits(EvictIfFull(r), p) && KeyOf(r.asks[p]) != KeyFor(sessionId, askId))
  {
    hide Waits, Settled, Overwritten, EvictIfFull, SetEntry, KeyFor;
    EvictInv(r);
    var room := EvictIfFull(r);
    var ask := PendingAsk(sessionId, askId, askToken, kind, now, |r.asks|, timeoutMs.Some? && timeoutMs.value > 0);
    var s := Register(r, sessionId, askId, kind, timeoutMs, askToken, now);
    SetEntrySound(room, ask, s);
    forall p | 0 <= p < |r.asks|
      ensures Waits(s, p) <==> Waits(room, p) && KeyOf(r.asks[p]) != KeyFor(sessionId, askId)
    {
      SetEntryWaits(room, ask, s, p);
      if Waits(room, p) {
        DisplacedHolds(room, ask, p);
      }
    }
  }

  lemma DisplacedHolds(r: Registry, ask: PendingAsk, p: nat)
    requires Inv(r) && p < |r.asks| && Waits(r, p)
    ensures var at := Displaced(r, ask);
      at.Some? && p == r.entries[at.value].promise <==> KeyOf(r.asks[p]) == KeyOf(ask)
  {
    hide KeyOf;
    var i :| 0 <= i < |r.entries| && r.entries[i].promise == p;
    KeyFound(r, i);
  }

  /** An ask that neither waits nor was resolved has lost its key for good: nothing that happens later resolves it. */
  lemma {:induction false} LostForGood(events: seq<Event>, n: nat, promise: nat)
    requires n <= |events| && Run(events[..n]).Some? && Run(events).Some?
    requires promise < |Run(events[..n]).value.asks|
    requires !Waits(Run(events[..n]).value, promise) && !Settled(Run(events[..n]).value, promise)
    ensures !Waits(Run(events).value, promise) && !Settled(Run(events).value, promise)
    ensures promise < |Run(events).value.asks|
    decreases |events|
  {
    hide Next, Waits, Settled, Possible;
    if n == |events| {
      assert events[..n] == events;
    } else {
      var before, e := events[..|events| - 1], events[|events| - 1];
      assert before[..n] == events[..n];
      LostForGood(before, n, promise);
      RunInv(before);
      LostAtOnce(Run(before).value, e, promise);
    }
  }

  lemma LostAtOnce(r: Registry, e: Event, promise: nat)
    requires Inv(r) && Possible(r, e) && promise < |r.asks|
    requires !Waits(r, promise) && !Settled(r, promise)
    ensures !Waits(Next(r, e), promise) && !Settled(Next(r, e), promise) && promise < |Next(r, e).asks|
  {
    match e {
      case Registered(sessionId, askId, kind, timeoutMs, askToken, now) =>
        LostThroughEvict(r, promise);
        ResolveKeepsAsks(r);
        var ask := PendingAsk(sessionId, askId, askToken, kind, now, |r.asks|, timeoutMs.Some? && timeoutMs.value > 0);
        hide EvictIfFull, SetEntry, Waits, Settled, Inv;
        LostThroughSet(EvictIfFull(r), ask, Next(r, e), promise);
      case Replied(sessionId, askId, askToken, reply) =>
        hide Resolve, Waits, Settled, Inv;
        LostThroughResolve(r, sessionId, askId, askToken, reply, promise);
        ResolveInv(r, sessionId, askId, askToken, reply);
      case TimerFired(fired) =>
        var off, ask := r.(timers := r.timers - {fired}), r.asks[fired];
        FewerTimersInv(r, off.timers);
        assert Waits(off, promise) == Waits(r, promise) && Settled(off, promise) == Settled(r, promise);
        hide Resolve, Waits, Settled, Inv, SyntheticTimeoutReply;
        LostThroughResolve(off, ask.sessionId, ask.askId, ask.askToken,
                           SyntheticTimeoutReply(ask.askId, ask.kind), promise);
        ResolveInv(off, ask.sessionId, ask.askId, ask.askToken, SyntheticTimeoutReply(ask.askId, ask.kind));
    }
  }

  lemma LostThroughEvict(r: Registry, promise: nat)
    requires Inv(r) && !Waits(r, promise) && !Settled(r, promise)
    ensures !Waits(EvictIfFull(r), promise) && !Settled(EvictIfFull(r), promise)
  {
    hide Resolve, Waits, Settled, Inv, SyntheticTimeoutReply;
    if |r.entries| >= MAX_PENDING_ASKS {
      var oldest := r.entries[Oldest(r.entries)];
      LostThroughResolve(r, oldest.sessionId, oldest.askId, oldest.askToken,
                         SyntheticTimeoutReply(oldest.askId, oldest.kind), promise);
    }
  }

  lemma LostThroughSet(r: Registry, ask: PendingAsk, s: Registry, promise: nat)
    requires s.entries == SetEntry(r.entries, ask) && s.resolved == r.resolved && ask.promise != promise
    requires !Waits(r, promise) && !Settled(r, promise)
    ensures !Waits(s, promise) && !Settled(s, promise)
  {
    hide KeyOf;
  }

  lemma LostThroughResolve(
    r: Registry, sessionId: string, askId: string, askToken: string, reply: Reply, promise: nat)
    requires Inv(r) && !Waits(r, promise) && !Settled(r, promise)
    ensures var s := Resolve(r, sessionId, askId, askToken, reply).0; !Waits(s, promise) && !Settled(s, promise)
  {
    hide KeyOf, KeyFor, Overwritten;
    var at := Lookup(r.entries, KeyFor(sessionId, askId));
    var (s, matched) := Resolve(r, sessionId, askId, askToken, reply);
    if matched {
      Removed(r, at.value, s);
      SettledSnoc(r, s, r.entries[at.value].promise, reply);
    }
  }

  // ----- What a caller sees -----

  /** The ask that waits under a key and was given a token. */
  ghost predicate Meant(r: Registry, p: nat, key: string, askToken: string) {
    p < |r.asks| && Waits(r, p) && r.asks[p].askToken == askToken && KeyOf(r.asks[p]) == key
  }

  /** One ask is resolved; it no longer waits, its timer is off, and all others are as before. */
  ghost predicate Answers(r: Registry, s: Registry, p: nat, reply: Reply) {
    && s.resolved == r.resolved + [(p, reply)]
    && s.asks == r.asks
    && s.timers == r.timers - {p}
    && forall q :: Waits(s, q) <==> Waits(r, q) && q != p
  }

  function TimeoutOf(ask: PendingAsk): (nat, Reply) {
    (ask.promise, SyntheticTimeoutReply(ask.askId, ask.kind))
  }

  lemma ResolveMeans(r: Registry, sessionId: string, askId: string, askToken: string, reply: Reply)
    requires Inv(r)
    ensures var (s, matched) := Resolve(r, sessionId, askId, askToken, reply);
      && (matched <==> exists p :: Meant(r, p, KeyFor(sessionId, askId), askToken))
      && (!matched ==> s == r)
      && (matched ==> exists p :: Meant(r, p, KeyFor(sessionId, askId), askToken) && Answers(r, s, p, reply))
  {
    hide KeyFor, KeyOf, Overwritten, Waits;
    ReplyNeedsToken(r, sessionId, askId, askToken, reply);
    var at := Lookup(r.entries, KeyFor(sessionId, askId));
    var (s, matched) := Resolve(r, sessionId, askId, askToken, reply);
    if matched {
      var p := r.entries[at.value].promise;
      EntryWaits(r, at.value);
      Removed(r, at.value, s);
      assert Meant(r, p, KeyFor(sessionId, askId), askToken) && Answers(r, s, p, reply);
    }
  }

  lemma RegisterMeans(
    r: Registry, sessionId: string, askId: string, kind: Kind, timeoutMs: Option<int>, askToken: string, now: int)
    requires Inv(r) && Possible(r, Registered(sessionId, askId, kind, timeoutMs, askToken, now))
    ensures var s := Register(r, sessionId, askId, kind, timeoutMs, askToken, now);
      && Meant(s, |r.asks|, KeyFor(sessionId, askId), askToken)
      && (|r.asks| in s.timers <==> timeoutMs.Some? && timeoutMs.value > 0)
      && s.resolved == (if |r.entries| < MAX_PENDING_ASKS then r.resolved
                        else r.resolved + [TimeoutOf(r.entries[Oldest(r.entries)])])
      && forall p :: 0 <= p < |r.asks| && Waits(s, p) ==> Waits(r, p)
  {
    hide Waits, Settled, Overwritten, SetEntry, KeyFor, SyntheticTimeoutReply;
    var s := Register(r, sessionId, askId, kind, timeoutMs, askToken, now);
    NewAskWaits(r, sessionId, askId, kind, timeoutMs, askToken, now);
    if |r.entries| >= MAX_PENDING_ASKS {
      EvictionFair(r);
      var i := Oldest(r.entries);
      Removed(r, i, EvictIfFull(r));
    }
    EvictInv(r);
  }

  lemma TimerLeavesOthers(r: Registry, promise: nat)
    requires Inv(r) && promise in r.timers
    ensures !Waits(FireTimer(r, promise), promise)
    ensures forall p :: p != promise ==> (Waits(FireTimer(r, promise), p) <==> Waits(r, p))
    ensures FireTimer(r, promise).timers == r.timers - {promise}
  {
    var ask := r.asks[promise];
    var reply := SyntheticTimeoutReply(ask.askId, ask.kind);
    var off := r.(timers := r.timers - {promise});
    assert KeyOf(ask) == KeyFor(ask.sessionId, ask.askId);
    FewerTimersInv(r, off.timers);
    assert forall p :: Waits(off, p) == Waits(r, p);
    hide KeyOf, KeyFor, Waits, Overwritten, Settled;
    ResolveMeans(off, ask.sessionId, ask.askId, ask.askToken, reply);
    assert Waits(off, promise) ==> Meant(off, promise, KeyOf(ask), ask.askToken);
  }

  // ----- Keys -----

  /** The longer session id with its colons goes on from the shorter one's, and the ask id takes up the rest. */
  predicate Overlaps(shorter: string, askId: string, longer: string, otherAskId: string) {
    && shorter + "::" <= longer + "::"
    && askId == (longer + "::")[|shorter| + 2..] + otherAskId
  }

  /** Two asks have one key exactly when they overlap so; with session ids of one length, when both ids agree. */
  lemma KeysMeetIff(shorter: string, askId: string, longer: string, otherAskId: string)
    requires |shorter| <= |longer|
    ensures KeyFor(shorter, askId) == KeyFor(longer, otherAskId) <==> Overlaps(shorter, askId, longer, otherAskId)
    ensures |shorter| == |longer| ==>
              (KeyFor(shorter, askId) == KeyFor(longer, otherAskId) <==> shorter == longer && askId == otherAskId)
  {
    var a, b := shorter + "::", longer + "::";
    var k, n := |a|, |b|;
    assert KeyFor(shorter, askId) == a + askId && KeyFor(longer, otherAskId) == b + otherAskId;
    if a + askId == b + otherAskId {
      assert a == (b + otherAskId)[..k] == b[..k];
      assert askId == (a + askId)[k..] == (b + otherAskId)[k..] == b[k..] + otherAskId;
    }
    if Overlaps(shorter, askId, longer, otherAskId) {
      assert b == a + b[k..];
      assert a + (b[k..] + otherAskId) == b + otherAskId;
    }
    assert n == k && a <= b ==> shorter == a[..k - 2] == b[..k - 2] == longer && b[k..] == "";
  }

  /** Session ids without colons never share keys. */
  lemma ColonFreeSessionsApart(a: string, askId: string, b: string, otherAskId: string)
    requires ':' !in a && ':' !in b
    ensures KeyFor(a, askId) == KeyFor(b, otherAskId) <==> a == b && askId == otherAskId
  {
    if |a| <= |b| {
      KeysMeetIff(a, askId, b, otherAskId);
      if |a| < |b| { NotContinued(a, b); }
    } else {
      KeysMeetIff(b, otherAskId, a, askId);
      NotContinued(b, a);
    }
  }

  lemma NotContinued(shorter: string, longer: string)
    requires ':' !in longer && |shorter| < |longer|
    ensures !(shorter + "::" <= longer + "::")
  {
    assert longer[|shorter|] in longer;
    assert (longer + "::")[|shorter|] == longer[|shorter|] && (shorter + "::")[|shorter|] == ':';
  }
}
