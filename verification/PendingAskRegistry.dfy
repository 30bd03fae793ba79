/** The process-wide registry of pending asks, changed in place. */
module PendingAskRegistry {
  import opened Wrappers
  import opened PendingAsks
  import opened PendingAskRuns

  class AskRegistry {
    var entries: seq<PendingAsk>
    var timers: set<nat>
    var asks: seq<PendingAsk>
    var resolved: seq<(nat, Reply)>

    function View(): Registry
      reads this
    {
      Registry(entries, timers, asks, resolved)
    }

    ghost predicate Valid()
      reads this
    {
      Inv(View())
    }

    constructor ()
      ensures View() == EMPTY && Valid()
    {
      entries, timers, asks, resolved := [], {}, [], [];
    }

    /** A reply is taken exactly for the waiting ask with this key and token, which alone stops waiting. */
    method ResolveAsk(sessionId: string, askId: string, askToken: string, reply: Reply) returns (matched: bool)
      requires Valid()
      modifies this
      ensures Valid() && (View(), matched) == Resolve(old(View()), sessionId, askId, askToken, reply)
      ensures matched <==> exists p :: Meant(old(View()), p, KeyFor(sessionId, askId), askToken)
      ensures !matched ==> View() == old(View())
      ensures matched ==> exists p :: Meant(old(View()), p, KeyFor(sessionId, askId), askToken)
                                      && Answers(old(View()), View(), p, reply)
    {
      ResolveInv(View(), sessionId, askId, askToken, reply);
      ResolveMeans(View(), sessionId, askId, askToken, reply);
      hide Meant, Answers, Inv, Lookup;
      var at := Lookup(entries, KeyFor(sessionId, askId));
      if at.None? {
        return false;
      }
      var pending := entries[at.value];
      if pending.askToken != askToken {
        return false;
      }
      timers := timers - {pending.promise};
      entries := entries[..at.value] + entries[at.value + 1..];
      resolved := resolved + [(pending.promise, reply)];
      return true;
    }

    /**
     * The new ask waits under its key, with a timer exactly if a positive timeout was given. While there is room
     * nobody is resolved; when the map is full, the first oldest ask is, with a timeout of its own kind.
     */
    method RegisterAsk(
      sessionId: string, askId: string, kind: Kind, timeoutMs: Option<int>, askToken: string, now: int)
      returns (promise: nat)
      requires Valid()
      requires forall k :: 0 <= k < |asks| ==> asks[k].askToken != askToken
      modifies this
      ensures Valid() && View() == Register(old(View()), sessionId, askId, kind, timeoutMs, askToken, now)
      ensures promise == old(|asks|) && Meant(View(), promise, KeyFor(sessionId, askId), askToken)
      ensures promise in timers <==> timeoutMs.Some? && timeoutMs.value > 0
      ensures resolved == if old(|entries|) < MAX_PENDING_ASKS then old(resolved)
                          else old(resolved) + [TimeoutOf(old(entries)[Oldest(old(entries))])]
      ensures forall p :: 0 <= p < promise && Waits(View(), p) ==> Waits(old(View()), p)
    {
      ghost var before := View();
      ghost var e := Registered(sessionId, askId, kind, timeoutMs, askToken, now);
      NextInv(before, e);
      RegisterMeans(before, sessionId, askId, kind, timeoutMs, askToken, now);
      hide Inv, Meant, Waits, Lookup, Resolve, SetEntry, KeyFor, TimeoutOf, SyntheticTimeoutReply;
      promise := |asks|;
      if |entries| >= MAX_PENDING_ASKS {
        var oldest := entries[Oldest(entries)];
        var _ := ResolveAsk(oldest.sessionId, oldest.askId, oldest.askToken,
                            SyntheticTimeoutReply(oldest.askId, oldest.kind));
      }
      ResolveKeepsAsks(before);
      var timed := timeoutMs.Some? && timeoutMs.value > 0;
      if timed {
        timers := timers + {promise};
      }
      var ask := PendingAsk(sessionId, askId, askToken, kind, now, promise, timed);
      entries := SetEntry(entries, ask);
      asks := asks + [ask];
    }

    /** A timer resolves the ask it was armed for, if that still waits, and nothing else. */
    method OnTimeout(promise: nat)
      requires Valid() && promise in timers
      modifies this
      ensures Valid() && View() == FireTimer(old(View()), promise)
      ensures promise !in timers && !Waits(View(), promise)
      ensures resolved == if Waits(old(View()), promise) then old(resolved) + [TimeoutOf(asks[promise])]
                          else old(resolved)
      ensures forall p :: p != promise ==> (Waits(View(), p) <==> Waits(old(View()), p))
    {
      NextInv(View(), TimerFired(promise));
      TimerResolvesItsOwn(View(), promise);
      TimerLeavesOthers(View(), promise);
      var ask := asks[promise];
      FewerTimersInv(View(), timers - {promise});
      hide Inv, Resolve, Waits, SyntheticTimeoutReply, KeyFor;
      timers := timers - {promise};
      var _ := ResolveAsk(ask.sessionId, ask.askId, ask.askToken, SyntheticTimeoutReply(ask.askId, ask.kind));
    }
  }
}
