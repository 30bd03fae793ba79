/**
 First-fit matching of two lists under an arbitrary relation, as the scorer
 matches calls whose order is free: sound always, complete exactly on relations
 in which any two expected entries accept equal or disjoint sets of actual ones.
 */
module GreedyMatching {
  import opened Wrappers

  /** The first position whose entry matches e. */
  function FirstMatch<E, A>(m: (E, A) -> bool, e: E, actuals: seq<A>): (found: Option<nat>)
    ensures found.None? ==> forall j | 0 <= j < |actuals| :: !m(e, actuals[j])
    ensures found.Some? ==> found.value < |actuals| && m(e, actuals[found.value])
    ensures found.Some? ==> forall j | 0 <= j < found.value :: !m(e, actuals[j])
  {
    if actuals == [] then None
    else if m(e, actuals[0]) then Some(0)
    else
      var later := FirstMatch(m, e, actuals[1..]);
      if later.None? then None else Some(later.value + 1)
  }

  function RemoveAt<A>(xs: seq<A>, j: nat): seq<A>
    requires j < |xs|
  {
    xs[..j] + xs[j + 1..]
  }

  /** Each expected entry in turn takes the first actual entry that matches it and is still free. */
  predicate Greedy<E, A>(m: (E, A) -> bool, expecteds: seq<E>, actuals: seq<A>) {
    if expecteds == [] then true
    else
      var found := FirstMatch(m, expecteds[0], actuals);
      found.Some? && Greedy(m, expecteds[1..], RemoveAt(actuals, found.value))
  }

  predicate MatchUnordered<E, A>(m: (E, A) -> bool, expecteds: seq<E>, actuals: seq<A>) {
    |actuals| == |expecteds| && Greedy(m, expecteds, actuals)
  }

  function Firsts<E, A>(pairs: seq<(E, A)>): seq<E> {
    seq(|pairs|, i requires 0 <= i < |pairs| => pairs[i].0)
  }

  function Seconds<E, A>(pairs: seq<(E, A)>): seq<A> {
    seq(|pairs|, i requires 0 <= i < |pairs| => pairs[i].1)
  }

  /** A one-to-one correspondence: matching pairs that use every entry of both lists exactly once. */
  ghost predicate Correspondence<E, A>(m: (E, A) -> bool, pairs: seq<(E, A)>, expecteds: seq<E>, actuals: seq<A>) {
    && (forall p | p in pairs :: m(p.0, p.1))
    && multiset(Firsts(pairs)) == multiset(expecteds)
    && multiset(Seconds(pairs)) == multiset(actuals)
  }

  ghost predicate Corresponds<E(!new), A(!new)>(m: (E, A) -> bool, expecteds: seq<E>, actuals: seq<A>) {
    exists pairs :: Correspondence(m, pairs, expecteds, actuals)
  }

  /** Any two expected entries accept the same actual entries, or none in common. */
  ghost predicate EqualOrDisjoint<E(!new), A(!new)>(m: (E, A) -> bool, expecteds: iset<E>, actuals: iset<A>) {
    forall e, e', a, a' | e in expecteds && e' in expecteds && a in actuals && a' in actuals ::
      m(e, a) && m(e, a') && m(e', a) ==> m(e', a')
  }

  ghost function Entries<T(!new)>(xs: seq<T>): iset<T> {
    iset x | x in xs
  }

  // ----- The loop over a set of used positions -------------------------------

  /** The entries from position `from` on whose positions are not used. */
  function Free<A>(actuals: seq<A>, used: set<nat>, from: nat): seq<A>
    requires from <= |actuals|
    decreases |actuals| - from
  {
    if from == |actuals| then []
    else (if from in used then [] else [actuals[from]]) + Free(actuals, used, from + 1)
  }

  lemma {:induction false} FreeAll<A>(actuals: seq<A>, from: nat)
    requires from <= |actuals|
    ensures Free(actuals, {}, from) == actuals[from..]
    decreases |actuals| - from
  {
    if from < |actuals| {
      FreeAll(actuals, from + 1);
    }
  }

  lemma {:induction false} FreeBeyond<A>(actuals: seq<A>, used: set<nat>, j: nat, from: nat)
    requires j < from <= |actuals|
    ensures Free(actuals, used + {j}, from) == Free(actuals, used, from)
    decreases |actuals| - from
  {
    if from < |actuals| {
      FreeBeyond(actuals, used, j, from + 1);
    }
  }

  lemma FirstMatchCons<E, A>(m: (E, A) -> bool, e: E, head: A, tail: seq<A>)
    requires !m(e, head)
    ensures var first, later := FirstMatch(m, e, [head] + tail), FirstMatch(m, e, tail);
            && first.Some? == later.Some?
            && (later.Some? ==> RemoveAt([head] + tail, first.value) == [head] + RemoveAt(tail, later.value))
  {
    assert ([head] + tail)[1..] == tail;
  }

  lemma FreeStep<A>(actuals: seq<A>, used: set<nat>, from: nat)
    requires from < |actuals|
    ensures from in used ==> Free(actuals, used, from) == Free(actuals, used, from + 1)
    ensures from !in used ==> Free(actuals, used, from) == [actuals[from]] + Free(actuals, used, from + 1)
  {
  }

  /** The search over positions found what the greedy specification takes from the free entries. */
  ghost predicate TakesFirst<E, A>(m: (E, A) -> bool, e: E, free: seq<A>, found: bool, left: seq<A>) {
    var first := FirstMatch(m, e, free);
    first.Some? == found && (found ==> RemoveAt(free, first.value) == left)
  }

  lemma TakesFirstCons<E, A>(m: (E, A) -> bool, e: E, head: A, tail: seq<A>, found: bool, left: seq<A>)
    requires !m(e, head) && TakesFirst(m, e, tail, found, left)
    ensures TakesFirst(m, e, [head] + tail, found, [head] + left)
  {
    FirstMatchCons(m, e, head, tail);
  }

  /** Taking the first free match marks the position that the greedy specification removes. */
  lemma {:induction false} FreeFirstMatch<E, A>(
      m: (E, A) -> bool, e: E, actuals: seq<A>, used: set<nat>, from: nat, found: Option<nat>)
    requires from <= |actuals|
    requires found.Some? ==> from <= found.value < |actuals| && found.value !in used && m(e, actuals[found.value])
    requires forall k | from <= k < |actuals| && (found.Some? ==> k < found.value) :: k in used || !m(e, actuals[k])
    ensures TakesFirst(m, e, Free(actuals, used, from), found.Some?,
                       if found.Some? then Free(actuals, used + {found.value}, from) else [])
    decreases |actuals| - from
  {
    assert Free(actuals, used, |actuals|) == [];
    hide TakesFirst, Free;
    if from == |actuals| {
      TakesNone(m, e);
    } else if found == Some(from) {
      FreeBeyond(actuals, used, from, from + 1);
      FreeStep(actuals, used, from);
      FreeStep(actuals, used + {from}, from);
      TakesHead(m, e, actuals[from], Free(actuals, used, from + 1));
    } else {
      assert from in used || !m(e, actuals[from]);
      FreeFirstMatch(m, e, actuals, used, from + 1, found);
      FreeStep(actuals, used, from);
      if found.Some? {
        FreeStep(actuals, used + {found.value}, from);
      }
      if from !in used {
        TakesFirstCons(m, e, actuals[from], Free(actuals, used, from + 1), found.Some?,
                       if found.Some? then Free(actuals, used + {found.value}, from + 1) else []);
        if found.None? {
          TakesIgnoresLeft(m, e, Free(actuals, used, from), [actuals[from]], []);
        }
      }
    }
  }

  lemma TakesNone<E, A>(m: (E, A) -> bool, e: E)
    ensures TakesFirst(m, e, [], false, [])
  {
  }

  lemma TakesHead<E, A>(m: (E, A) -> bool, e: E, head: A, tail: seq<A>)
    requires m(e, head)
    ensures TakesFirst(m, e, [head] + tail, true, tail)
  {
  }

  lemma TakesIgnoresLeft<E, A>(m: (E, A) -> bool, e: E, free: seq<A>, left: seq<A>, left': seq<A>)
    requires TakesFirst(m, e, free, false, left)
    ensures TakesFirst(m, e, free, false, left')
  {
  }

  method FindFree<E, A>(m: (E, A) -> bool, e: E, actuals: seq<A>, used: set<nat>) returns (found: Option<nat>)
    ensures found.None? ==> forall k | 0 <= k < |actuals| :: k in used || !m(e, actuals[k])
    ensures found.Some? ==> found.value < |actuals| && found.value !in used && m(e, actuals[found.value])
    ensures found.Some? ==> forall k | 0 <= k < found.value :: k in used || !m(e, actuals[k])
  {
    for index := 0 to |actuals|
      invariant forall k | 0 <= k < index :: k in used || !m(e, actuals[k])
    {
      if index !in used && m(e, actuals[index]) {
        return Some(index);
      }
    }
    return None;
  }

  method MatchCallsUnordered<E, A>(m: (E, A) -> bool, expecteds: seq<E>, actuals: seq<A>) returns (matched: bool)
    ensures matched == MatchUnordered(m, expecteds, actuals)
  {
    if |actuals| != |expecteds| {
      return false;
    }
    var used: set<nat> := {};
    FreeAll(actuals, 0);
    for i := 0 to |expecteds|
      invariant Greedy(m, expecteds, actuals) == Greedy(m, expecteds[i..], Free(actuals, used, 0))
    {
      var expected := expecteds[i];
      var found := FindFree(m, expected, actuals, used);
      FreeFirstMatch(m, expected, actuals, used, 0, found);
      assert expecteds[i..][0] == expected && expecteds[i..][1..] == expecteds[i + 1..];
      if found.None? {
        return false;
      }
      used := used + {found.value};
    }
    return true;
  }
}
