/** When greedy matching is right: soundness, the exchange argument, and the exact condition. */
module GreedyCorrectness {
  import opened Wrappers
  import opened GreedyMatching

  lemma MultisetRemoveAt<A>(xs: seq<A>, j: nat)
    requires j < |xs|
    ensures multiset(RemoveAt(xs, j)) == multiset(xs) - multiset{xs[j]}
  {
    assert xs == xs[..j] + [xs[j]] + xs[j + 1..];
  }

  lemma PairsRemoveAt<E, A>(pairs: seq<(E, A)>, k: nat)
    requires k < |pairs|
    ensures multiset(Firsts(RemoveAt(pairs, k))) == multiset(Firsts(pairs)) - multiset{pairs[k].0}
    ensures multiset(Seconds(RemoveAt(pairs, k))) == multiset(Seconds(pairs)) - multiset{pairs[k].1}
  {
    assert Firsts(RemoveAt(pairs, k)) == RemoveAt(Firsts(pairs), k);
    assert Seconds(RemoveAt(pairs, k)) == RemoveAt(Seconds(pairs), k);
    MultisetRemoveAt(Firsts(pairs), k);
    MultisetRemoveAt(Seconds(pairs), k);
  }

  lemma PairsCons<E, A>(e: E, a: A, pairs: seq<(E, A)>)
    ensures multiset(Firsts([(e, a)] + pairs)) == multiset{e} + multiset(Firsts(pairs))
    ensures multiset(Seconds([(e, a)] + pairs)) == multiset{a} + multiset(Seconds(pairs))
  {
    assert Firsts([(e, a)] + pairs) == [e] + Firsts(pairs);
    assert Seconds([(e, a)] + pairs) == [a] + Seconds(pairs);
  }

  /** A successful greedy pass yields a one-to-one correspondence. */
  lemma {:induction false} GreedySound<E(!new), A(!new)>(m: (E, A) -> bool, expecteds: seq<E>, actuals: seq<A>)
    returns (pairs: seq<(E, A)>)
    requires MatchUnordered(m, expecteds, actuals)
    ensures Correspondence(m, pairs, expecteds, actuals)
  {
    if expecteds == [] {
      pairs := [];
    } else {
      var e, j := expecteds[0], FirstMatch(m, expecteds[0], actuals).value;
      var rest := GreedySound(m, expecteds[1..], RemoveAt(actuals, j));
      pairs := [(e, actuals[j])] + rest;
      PairsCons(e, actuals[j], rest);
      MultisetRemoveAt(actuals, j);
      assert expecteds == [e] + expecteds[1..];
    }
  }

  lemma PutBack<T>(all: multiset<T>, a: T, b: T)
    requires b in all && (a == b ==> all[a] > 1)
    requires a in all
    ensures multiset{a} + (all - multiset{a} - multiset{b}) == all - multiset{b}
    ensures multiset{b} + (all - multiset{a} - multiset{b}) == all - multiset{a}
  {
  }

  /** Drops the expected entry of pair x and the actual entry of pair y, pairing their partners. */
  function Repaired<E, A>(pairs: seq<(E, A)>, x: nat, y: nat): seq<(E, A)>
    requires x < |pairs| && y < |pairs|
  {
    var others := RemoveAt(pairs, x);
    if x == y then others
    else [(pairs[y].0, pairs[x].1)] + RemoveAt(others, if y < x then y else y - 1)
  }

  lemma Repair<E, A>(pairs: seq<(E, A)>, x: nat, y: nat)
    requires x < |pairs| && y < |pairs|
    ensures multiset(Firsts(Repaired(pairs, x, y))) == multiset(Firsts(pairs)) - multiset{pairs[x].0}
    ensures multiset(Seconds(Repaired(pairs, x, y))) == multiset(Seconds(pairs)) - multiset{pairs[y].1}
  {
    hide Firsts, Seconds;
    PairsRemoveAt(pairs, x);
    if x != y {
      var others := RemoveAt(pairs, x);
      var y' := if y < x then y else y - 1;
      assert others[y'] == pairs[y];
      PairsRemoveAt(others, y');
      PairsCons(pairs[y].0, pairs[x].1, RemoveAt(others, y'));
      TwoPairs(pairs, x, y);
      PutBack(multiset(Firsts(pairs)), pairs[x].0, pairs[y].0);
      PutBack(multiset(Seconds(pairs)), pairs[x].1, pairs[y].1);
    }
  }

  lemma RepairedEntries<E, A>(pairs: seq<(E, A)>, x: nat, y: nat)
    requires x < |pairs| && y < |pairs|
    ensures forall p | p in Repaired(pairs, x, y) :: p in pairs || (x != y && p == (pairs[y].0, pairs[x].1))
  {
    var others := RemoveAt(pairs, x);
    assert |others| == |pairs| - 1;
    hide RemoveAt;
    RemoveAtSubset(pairs, x);
    if x != y {
      var y' := if y < x then y else y - 1;
      RemoveAtSubset(others, y');
    }
  }

  lemma RemoveAtSubset<A>(xs: seq<A>, j: nat)
    requires j < |xs|
    ensures forall a | a in RemoveAt(xs, j) :: a in xs
  {
    forall a | a in RemoveAt(xs, j) ensures a in xs {
      var k :| 0 <= k < |RemoveAt(xs, j)| && RemoveAt(xs, j)[k] == a;
      assert xs[if k < j then k else k + 1] == a;
    }
  }

  lemma TwoPairs<E, A>(pairs: seq<(E, A)>, x: nat, y: nat)
    requires x < |pairs| && y < |pairs| && x != y
    ensures pairs[x].0 in multiset(Firsts(pairs)) && pairs[y].0 in multiset(Firsts(pairs))
    ensures pairs[x].0 == pairs[y].0 ==> multiset(Firsts(pairs))[pairs[x].0] > 1
    ensures pairs[x].1 in multiset(Seconds(pairs)) && pairs[y].1 in multiset(Seconds(pairs))
    ensures pairs[x].1 == pairs[y].1 ==> multiset(Seconds(pairs))[pairs[x].1] > 1
  {
    TwoIn(Firsts(pairs), x, y);
    TwoIn(Seconds(pairs), x, y);
  }

  lemma TwoIn<T>(xs: seq<T>, i: nat, j: nat)
    requires i < |xs| && j < |xs| && i != j
    ensures xs[i] in multiset(xs) && xs[j] in multiset(xs) && (xs[i] == xs[j] ==> multiset(xs)[xs[i]] > 1)
  {
    MultisetRemoveAt(xs, i);
    var j' := if j < i then j else j - 1;
    assert RemoveAt(xs, i)[j'] == xs[j];
    assert xs[j] in multiset(RemoveAt(xs, i));
  }

  /** The entries of a pair belong to the two lists. */
  lemma PairEntries<E(!new), A(!new)>(m: (E, A) -> bool, pairs: seq<(E, A)>, expecteds: seq<E>, actuals: seq<A>, k: nat)
    requires k < |pairs| && Correspondence(m, pairs, expecteds, actuals)
    ensures pairs[k].0 in expecteds && pairs[k].1 in actuals && m(pairs[k].0, pairs[k].1)
  {
    assert Firsts(pairs)[k] == pairs[k].0 && Seconds(pairs)[k] == pairs[k].1;
    assert pairs[k].0 in multiset(expecteds) && pairs[k].1 in multiset(actuals);
    assert pairs[k] in pairs;
  }

  lemma PairOfExpected<E(!new), A(!new)>(
    m: (E, A) -> bool, pairs: seq<(E, A)>, expecteds: seq<E>, actuals: seq<A>, e: E)
    returns (k: nat)
    requires e in expecteds && Correspondence(m, pairs, expecteds, actuals)
    ensures k < |pairs| && pairs[k].0 == e
  {
    assert e in multiset(Firsts(pairs));
    assert e in Firsts(pairs);
    k :| 0 <= k < |Firsts(pairs)| && Firsts(pairs)[k] == e;
  }

  lemma PairOfActual<E(!new), A(!new)>(m: (E, A) -> bool, pairs: seq<(E, A)>, expecteds: seq<E>, actuals: seq<A>, a: A)
    returns (k: nat)
    requires a in actuals && Correspondence(m, pairs, expecteds, actuals)
    ensures k < |pairs| && pairs[k].1 == a
  {
    assert a in multiset(Seconds(pairs));
    assert a in Seconds(pairs);
    k :| 0 <= k < |Seconds(pairs)| && Seconds(pairs)[k] == a;
  }

  /** Exchange: whatever the first expected entry takes, a correspondence of the rest remains. */
  lemma Exchange<E(!new), A(!new)>(m: (E, A) -> bool, pairs: seq<(E, A)>, expecteds: seq<E>, actuals: seq<A>, j: nat)
    returns (rest: seq<(E, A)>)
    requires expecteds != [] && j < |actuals| && m(expecteds[0], actuals[j])
    requires Correspondence(m, pairs, expecteds, actuals)
    requires EqualOrDisjoint(m, Entries(expecteds), Entries(actuals))
    ensures Correspondence(m, rest, expecteds[1..], RemoveAt(actuals, j))
  {
    var e, a := expecteds[0], actuals[j];
    var x := PairOfExpected(m, pairs, expecteds, actuals, e);
    var y := PairOfActual(m, pairs, expecteds, actuals, a);
    PairEntries(m, pairs, expecteds, actuals, x);
    PairEntries(m, pairs, expecteds, actuals, y);
    assert m(e, a) && m(e, pairs[x].1) && m(pairs[y].0, a);
    assert m(pairs[y].0, pairs[x].1);
    rest := Repaired(pairs, x, y);
    Repair(pairs, x, y);
    RepairedEntries(pairs, x, y);
    MultisetRemoveAt(expecteds, 0);
    assert RemoveAt(expecteds, 0) == expecteds[1..];
    MultisetRemoveAt(actuals, j);
  }

  lemma SameLength<E(!new), A(!new)>(m: (E, A) -> bool, pairs: seq<(E, A)>, expecteds: seq<E>, actuals: seq<A>)
    requires Correspondence(m, pairs, expecteds, actuals)
    ensures |actuals| == |expecteds|
  {
    assert |multiset(Firsts(pairs))| == |pairs| == |multiset(Seconds(pairs))|;
    assert |multiset(expecteds)| == |expecteds| && |multiset(actuals)| == |actuals|;
  }

  lemma {:induction false} GreedyComplete<E(!new), A(!new)>(
      m: (E, A) -> bool, pairs: seq<(E, A)>, expecteds: seq<E>, actuals: seq<A>)
    requires Correspondence(m, pairs, expecteds, actuals)
    requires EqualOrDisjoint(m, Entries(expecteds), Entries(actuals))
    ensures MatchUnordered(m, expecteds, actuals)
    decreases |expecteds|
  {
    SameLength(m, pairs, expecteds, actuals);
    if expecteds != [] {
      var e := expecteds[0];
      var x := PairOfExpected(m, pairs, expecteds, actuals, e);
      PairEntries(m, pairs, expecteds, actuals, x);
      var found := FirstMatch(m, e, actuals);
      var rest := Exchange(m, pairs, expecteds, actuals, found.value);
      GreedyComplete(m, rest, expecteds[1..], RemoveAt(actuals, found.value));
    }
  }

  /** The greedy answer is right whenever match sets are equal or disjoint. */
  lemma GreedyCorrect<E(!new), A(!new)>(m: (E, A) -> bool, expecteds: seq<E>, actuals: seq<A>)
    requires EqualOrDisjoint(m, Entries(expecteds), Entries(actuals))
    ensures MatchUnordered(m, expecteds, actuals) <==> Corresponds(m, expecteds, actuals)
  {
    if MatchUnordered(m, expecteds, actuals) {
      var pairs := GreedySound(m, expecteds, actuals);
    }
    if Corresponds(m, expecteds, actuals) {
      var pairs :| Correspondence(m, pairs, expecteds, actuals);
      GreedyComplete(m, pairs, expecteds, actuals);
    }
  }

  /** Under the same condition the order of neither list matters. */
  lemma GreedyOrderFree<E(!new), A(!new)>(
      m: (E, A) -> bool, expecteds: seq<E>, actuals: seq<A>, expecteds': seq<E>, actuals': seq<A>)
    requires multiset(expecteds) == multiset(expecteds') && multiset(actuals) == multiset(actuals')
    requires EqualOrDisjoint(m, Entries(expecteds), Entries(actuals))
    ensures MatchUnordered(m, expecteds, actuals) <==> MatchUnordered(m, expecteds', actuals')
  {
    forall e | e in expecteds' ensures e in expecteds {
      assert e in multiset(expecteds');
    }
    forall a | a in actuals' ensures a in actuals {
      assert a in multiset(actuals');
    }
    GreedyCorrect(m, expecteds, actuals);
    GreedyCorrect(m, expecteds', actuals');
    assert forall pairs ::
        Correspondence(m, pairs, expecteds, actuals) <==> Correspondence(m, pairs, expecteds', actuals');
  }

  /** Greedy finds a correspondence, whenever there is one, on all lists drawn from the two pools. */
  ghost predicate CompleteOn<E(!new), A(!new)>(m: (E, A) -> bool, expectedPool: iset<E>, actualPool: iset<A>) {
    forall expecteds, actuals | Entries(expecteds) <= expectedPool && Entries(actuals) <= actualPool ::
      Corresponds(m, expecteds, actuals) ==> MatchUnordered(m, expecteds, actuals)
  }

  /** Two overlapping but different match sets defeat the greedy pass on lists of two. */
  lemma OverlapDefeatsGreedy<E(!new), A(!new)>(m: (E, A) -> bool, e: E, e': E, a: A, a': A)
    requires m(e, a) && m(e, a') && m(e', a) && !m(e', a')
    ensures Corresponds(m, [e, e'], [a, a'])
    ensures !MatchUnordered(m, [e, e'], [a, a']) && MatchUnordered(m, [e', e], [a, a'])
  {
    assert FirstMatch(m, e', [a, a']) == Some(0) && [e', e][1..] == [e];
    assert Greedy(m, [e], [a']);
    var pairs := [(e, a'), (e', a)];
    assert Firsts(pairs) == [e, e'] && Seconds(pairs) == [a', a];
    assert multiset([a', a]) == multiset([a, a']);
    assert Correspondence(m, pairs, [e, e'], [a, a']);
    var left := RemoveAt([a, a'], 0);
    assert FirstMatch(m, e, [a, a']) == Some(0);
    assert left == [a'] && [e, e'][1..] == [e'];
    assert FirstMatch(m, e', left).None?;
    assert !Greedy(m, [e'], left);
  }

  /** The equal-or-disjoint condition is exact. */
  lemma CompleteIffEqualOrDisjoint<E(!new), A(!new)>(m: (E, A) -> bool, expectedPool: iset<E>, actualPool: iset<A>)
    ensures CompleteOn(m, expectedPool, actualPool) <==> EqualOrDisjoint(m, expectedPool, actualPool)
  {
    if EqualOrDisjoint(m, expectedPool, actualPool) {
      forall expecteds, actuals | Entries(expecteds) <= expectedPool && Entries(actuals) <= actualPool
        ensures Corresponds(m, expecteds, actuals) ==> MatchUnordered(m, expecteds, actuals)
      {
        GreedyCorrect(m, expecteds, actuals);
      }
    } else {
      var e, e', a, a' :| e in expectedPool && e' in expectedPool && a in actualPool && a' in actualPool
        && m(e, a) && m(e, a') && m(e', a) && !m(e', a');
      OverlapDefeatsGreedy(m, e, e', a, a');
      assert Entries([e, e']) <= expectedPool && Entries([a, a']) <= actualPool;
    }
  }
}
