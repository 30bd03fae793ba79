/** The pooled counts of the report lose nothing: every scored trajectory is counted once a seed, in its category. */
module PooledReport {
  import opened PooledCounts
  import opened WilsonInterval
  import opened Wrappers

  // ----- What counts as an oracle -----

  predicate TokenAt(s: string, i: nat) {
    i + 3 <= |s| && IsTokenCharacter(s[i]) && IsTokenCharacter(s[i + 1]) && IsTokenCharacter(s[i + 2])
  }

  ghost predicate LongRun(s: string) {
    exists run :: run in Runs(s) && |run| >= 3
  }

  lemma {:induction false} LongRunIff(s: string)
    ensures LongRun(s) <==> exists i: nat :: TokenAt(s, i)
    decreases |s|
  {
    var n := RunLength(s);
    if s == "" {
    } else if n == 0 {
      LongRunIff(s[1..]);
      assert forall i: nat :: TokenAt(s[1..], i) <==> TokenAt(s, i + 1);
      if i: nat :| TokenAt(s, i) {
        assert TokenAt(s[1..], i - 1);
      }
    } else {
      LongRunIff(s[n..]);
      assert Runs(s) == [s[..n]] + Runs(s[n..]);
      assert forall i: nat :: TokenAt(s[n..], i) <==> TokenAt(s, i + n);
      if n >= 3 {
        assert s[..n] in Runs(s) && TokenAt(s, 0);
      } else {
        LongRunRest(s, n);
      }
    }
  }

  /** A short first run matters to neither side. */
  lemma LongRunRest(s: string, n: nat)
    requires n == RunLength(s) && 0 < n < 3
    requires LongRun(s[n..]) <==> exists i: nat :: TokenAt(s[n..], i)
    ensures LongRun(s) <==> exists i: nat :: TokenAt(s, i)
  {
    assert Runs(s) == [s[..n]] + Runs(s[n..]);
    assert n < |s| ==> !IsTokenCharacter(s[n]);
    hide Runs, RunLength, IsTokenCharacter;
    assert forall i: nat :: TokenAt(s[n..], i) ==> TokenAt(s, i + n);
    assert forall i: nat :: TokenAt(s, i) ==> i >= n && TokenAt(s[n..], i - n);
    hide TokenAt;
    if run :| run in Runs(s) && |run| >= 3 {
      assert run in Runs(s[n..]);
    }
    if run :| run in Runs(s[n..]) && |run| >= 3 {
      assert run in Runs(s);
    }
  }

  /** A trajectory is scored exactly when its expected text has three token characters in a row. */
  lemma OracleIff(t: Trajectory, candidate: string)
    ensures Passes(candidate, t.expected).Some? <==> exists i: nat :: TokenAt(t.expected, i)
  {
    hide Runs;
    LongRunIff(t.expected);
    if run :| run in Runs(t.expected) && |run| >= 3 {
      assert Lower(run) in Tokenize(t.expected);
    }
  }

  /** Characters i to j are a whole run: token characters with none before or after. */
  predicate WholeRun(s: string, i: nat, j: nat) {
    && i < j <= |s|
    && (forall k :: i <= k < j ==> IsTokenCharacter(s[k]))
    && (i > 0 ==> !IsTokenCharacter(s[i - 1]))
    && (j < |s| ==> !IsTokenCharacter(s[j]))
  }

  lemma WholeRunShifts(s: string, n: nat, i: nat, j: nat)
    requires n <= |s| && (n == 0 || n == |s| || !IsTokenCharacter(s[n - 1]) || !IsTokenCharacter(s[n]))
    ensures WholeRun(s[n..], i, j) ==> WholeRun(s, n + i, n + j) && s[n + i..n + j] == s[n..][i..j]
    ensures i >= n && WholeRun(s, i, j) ==> WholeRun(s[n..], i - n, j - n) && s[i..j] == s[n..][i - n..j - n]
  {
    if WholeRun(s[n..], i, j) {
      assert s[n..][i] == s[n + i];
      assert forall k :: n + i <= k < n + j ==> s[k] == s[n..][k - n];
    }
    if i >= n && WholeRun(s, i, j) {
      assert forall k :: i - n <= k < j - n ==> s[n..][k] == s[n + k];
    }
  }

  /** The runs found are the whole runs. */
  lemma {:induction false} RunsAreWhole(s: string, run: string)
    ensures run in Runs(s) <==> exists i: nat, j: nat :: WholeRun(s, i, j) && run == s[i..j]
    decreases |s|
  {
    var n := RunLength(s);
    if s == "" {
    } else if n == 0 {
      RunsAreWhole(s[1..], run);
      FirstIsNone(s, run);
    } else {
      RunsAreWhole(s[n..], run);
      FirstIsWhole(s, n, run);
    }
  }

  lemma FirstIsNone(s: string, run: string)
    requires s != "" && !IsTokenCharacter(s[0])
    ensures (exists i: nat, j: nat :: WholeRun(s[1..], i, j) && run == s[1..][i..j])
       <==> (exists i: nat, j: nat :: WholeRun(s, i, j) && run == s[i..j])
  {
    if i: nat, j: nat :| WholeRun(s[1..], i, j) && run == s[1..][i..j] {
      WholeRunShifts(s, 1, i, j);
      assert WholeRun(s, i + 1, j + 1) && run == s[i + 1..j + 1];
    }
    if i: nat, j: nat :| WholeRun(s, i, j) && run == s[i..j] {
      assert i != 0 by {
        assert IsTokenCharacter(s[i]);
      }
      WholeRunShifts(s, 1, i, j);
      assert WholeRun(s[1..], i - 1, j - 1) && run == s[1..][i - 1..j - 1];
    }
  }

  lemma FirstIsWhole(s: string, n: nat, run: string)
    requires 0 < n == RunLength(s)
    requires run in Runs(s[n..]) <==> exists i: nat, j: nat :: WholeRun(s[n..], i, j) && run == s[n..][i..j]
    ensures run in Runs(s) <==> exists i: nat, j: nat :: WholeRun(s, i, j) && run == s[i..j]
  {
    assert Runs(s) == [s[..n]] + Runs(s[n..]);
    assert n < |s| ==> !IsTokenCharacter(s[n]);
    hide Runs, RunLength;
    assert WholeRun(s, 0, n) && s[0..n] == s[..n];
    if i: nat, j: nat :| WholeRun(s[n..], i, j) && run == s[n..][i..j] {
      WholeRunShifts(s, n, i, j);
      assert WholeRun(s, i + n, j + n) && run == s[i + n..j + n];
    }
    if i: nat, j: nat :| WholeRun(s, i, j) && run == s[i..j] {
      if i < n {
        assert i == 0 && j == n;
      } else {
        WholeRunShifts(s, n, i, j);
        assert WholeRun(s[n..], i - n, j - n) && run == s[n..][i - n..j - n];
      }
    }
  }

  /** A letter as `lower` writes it. */
  predicate Lowered(c: char, l: char) {
    if 'A' <= c <= 'Z' then l as int == c as int + 32 else l == c
  }

  predicate LoweredAll(s: string, l: string) {
    |l| == |s| && forall k :: 0 <= k < |s| ==> Lowered(s[k], l[k])
  }

  lemma LowerIs(s: string, l: string)
    ensures l == Lower(s) <==> LoweredAll(s, l)
  {
  }

  /** A token character is an ASCII letter or digit, or a code point from U+4E00 to U+9FFF. */
  lemma TokenCharacterIff(c: char)
    ensures IsTokenCharacter(c) <==>
            var code := c as int;
            || 48 <= code <= 57 || 65 <= code <= 90 || 97 <= code <= 122 || 0x4E00 <= code <= 0x9FFF
  {
  }

  /** A text's tokens are its whole runs of at least three token characters, in lower case. */
  lemma TokenIff(s: string, token: string)
    ensures token in Tokenize(s)
       <==> exists i: nat, j: nat :: WholeRun(s, i, j) && j - i >= 3 && LoweredAll(s[i..j], token)
  {
    hide Runs, Lower, LoweredAll, IsTokenCharacter;
    if run :| run in Runs(s) && |run| >= 3 && token == Lower(run) {
      RunsAreWhole(s, run);
      var i: nat, j: nat :| WholeRun(s, i, j) && run == s[i..j];
      LowerIs(run, token);
    }
    if i: nat, j: nat :| WholeRun(s, i, j) && j - i >= 3 && LoweredAll(s[i..j], token) {
      RunsAreWhole(s, s[i..j]);
      LowerIs(s[i..j], token);
    }
  }

  /** A candidate passes exactly if it has at least half of the expected tokens, and fails otherwise. */
  lemma PassesIff(candidate: string, expected: string, shared: set<string>)
    requires shared == set token | token in Tokenize(expected) && token in Tokenize(candidate)
    ensures Passes(candidate, expected) == Some(true) <==>
              Tokenize(expected) != {} && 2 * |shared| >= |Tokenize(expected)|
    ensures Passes(candidate, expected) == Some(false) <==> 2 * |shared| < |Tokenize(expected)|
  {
    hide Tokenize;
    var wanted := Tokenize(expected);
    assert shared == wanted * Tokenize(candidate);
    if wanted != {} {
      HalfIff(|shared|, |wanted|);
    }
  }

  lemma HalfIff(k: nat, n: nat)
    requires n > 0
    ensures k as real / n as real >= 0.5 <==> 2 * k >= n
  {
    var q, d := k as real / n as real, n as real;
    assert q * d == k as real;
    if 2 * k >= n {
      DivideOrderAbove(k as real, 0.5, d);
    } else if q >= 0.5 {
      NotLess(q, 0.5, d);
    }
  }

  lemma NotLess(x: real, y: real, d: real)
    requires x >= y && d > 0.0
    ensures x * d >= y * d
  {
    assert (x - y) * d >= 0.0;
  }

  // ----- Tables -----

  lemma {:induction false} SumElsewhere(t: Table, u: Table, order: seq<string>)
    requires forall category :: category in order ==> At(t, category) == At(u, category)
    ensures SumOver(t, order) == SumOver(u, order)
    decreases |order|
  {
    hide At;
    if order != [] {
      SumElsewhere(t, u, order[..|order| - 1]);
    }
  }

  /** Where one of distinct keys gets more, the sum does. */
  lemma {:induction false} SumGrows(t: Table, order: seq<string>, category: string, b: Bucket)
    requires forall i, j :: 0 <= i < j < |order| ==> order[i] != order[j]
    requires category in order
    ensures SumOver(Add(t, category, b), order) == Plus(SumOver(t, order), b)
    decreases |order|
  {
    var init, last := order[..|order| - 1], order[|order| - 1];
    if last == category {
      SumElsewhere(t, Add(t, category, b), init);
    } else {
      SumGrows(t, init, category, b);
    }
  }

  lemma AddProper(t: Table, category: string, b: Bucket)
    requires Proper(t)
    ensures Proper(Add(t, category, b))
  {
    hide At;
  }

  /** Adding to a category adds to the total. */
  lemma AddTotal(t: Table, category: string, b: Bucket)
    requires Proper(t)
    ensures Proper(Add(t, category, b)) && Total(Add(t, category, b)) == Plus(Total(t), b)
  {
    AddProper(t, category, b);
    if category in t.buckets {
      assert Add(t, category, b).order == t.order;
      hide At, SumOver, Add;
      SumGrows(t, t.order, category, b);
    } else {
      AddNew(t, category, b);
    }
  }

  lemma AddNew(t: Table, category: string, b: Bucket)
    requires Proper(t) && category !in t.buckets
    ensures Total(Add(t, category, b)) == Plus(Total(t), b)
  {
    var u := Add(t, category, b);
    forall c ensures c != category ==> At(u, c) == At(t, c) {
      AddAt(t, category, b, c);
    }
    AddAt(t, category, b, category);
    assert At(t, category) == NOTHING && category !in t.order;
    assert u.order[..|u.order| - 1] == t.order && u.order[|u.order| - 1] == category;
    hide At, Add;
    SumElsewhere(t, u, t.order);
  }

  lemma {:induction false} AddAllTotal(out: Table, t: Table, order: seq<string>)
    requires Proper(out)
    ensures Proper(AddAll(out, t, order)) && Total(AddAll(out, t, order)) == Plus(Total(out), SumOver(t, order))
    decreases |order|
  {
    hide Total, At, Proper;
    if order != [] {
      var init, last := order[..|order| - 1], order[|order| - 1];
      AddAllTotal(out, t, init);
      AddTotal(AddAll(out, t, init), last, At(t, last));
    }
  }

  lemma {:induction false} AddAllAt(out: Table, t: Table, order: seq<string>, c: string)
    requires forall i, j :: 0 <= i < j < |order| ==> order[i] != order[j]
    ensures At(AddAll(out, t, order), c) == if c in order then Plus(At(out, c), At(t, c)) else At(out, c)
    ensures c in AddAll(out, t, order).buckets <==> c in out.buckets || c in order
    decreases |order|
  {
    if order != [] {
      var init, last := order[..|order| - 1], order[|order| - 1];
      AddAllAt(out, t, init, c);
      AddAt(AddAll(out, t, init), last, At(t, last), c);
      assert order == init + [last] && (c in order <==> c in init || c == last);
      hide At, Add, Plus;
    }
  }

  lemma ProperTable(t: Table, c: string)
    requires Proper(t)
    ensures forall i, j :: 0 <= i < j < |t.order| ==> t.order[i] != t.order[j]
    ensures c in t.order <==> c in t.buckets
    ensures c !in t.order ==> At(t, c) == NOTHING
    ensures Total(t) == SumOver(t, t.order)
  {
  }

  // ----- One seed -----

  /** How many trajectories the proposal passes, or fails. */
  function Count(trajectories: seq<Trajectory>, proposal: Proposal, verdict: bool): nat {
    if trajectories == [] then 0
    else
      var last := trajectories[|trajectories| - 1];
      Count(trajectories[..|trajectories| - 1], proposal, verdict)
      + if Passes(proposal(last), last.expected) == Some(verdict) then 1 else 0
  }

  function Oracles(trajectories: seq<Trajectory>): nat {
    if trajectories == [] then 0
    else
      Oracles(trajectories[..|trajectories| - 1]) + if HasOracle(trajectories[|trajectories| - 1]) then 1 else 0
  }

  /** The trajectories of a category. */
  function Of(trajectories: seq<Trajectory>, category: string): seq<Trajectory> {
    if trajectories == [] then []
    else
      var last := trajectories[|trajectories| - 1];
      Of(trajectories[..|trajectories| - 1], category) + if last.category == category then [last] else []
  }

  lemma OfSnoc(trajectories: seq<Trajectory>, category: string)
    requires trajectories != []
    ensures var init, last := trajectories[..|trajectories| - 1], trajectories[|trajectories| - 1];
      Of(trajectories, category)
      == if last.category == category then Of(init, category) + [last] else Of(init, category)
  {
  }

  lemma CountSnoc(trajectories: seq<Trajectory>, last: Trajectory, proposal: Proposal, verdict: bool)
    ensures Count(trajectories + [last], proposal, verdict)
         == Count(trajectories, proposal, verdict)
            + if Passes(proposal(last), last.expected) == Some(verdict) then 1 else 0
  {
    hide Passes;
    assert (trajectories + [last])[..|trajectories|] == trajectories;
  }

  function Counts(trajectories: seq<Trajectory>, proposal: Proposal): Bucket {
    Bucket(Count(trajectories, proposal, true), Count(trajectories, proposal, false))
  }

  lemma CountsSnoc(trajectories: seq<Trajectory>, last: Trajectory, proposal: Proposal)
    ensures Counts(trajectories + [last], proposal)
         == Plus(Counts(trajectories, proposal), Outcome(Passes(proposal(last), last.expected)))
  {
    hide Passes, Count;
    CountSnoc(trajectories, last, proposal, true);
    CountSnoc(trajectories, last, proposal, false);
  }

  /** A seed's counters are the numbers of trajectories that passed and failed, in all and in each category. */
  lemma {:induction false} ScoredCounts(trajectories: seq<Trajectory>, proposal: Proposal, c: string)
    ensures var tally := Scored(trajectories, proposal);
      && Proper(tally.table)
      && tally.counts == Total(tally.table) == Counts(trajectories, proposal)
      && At(tally.table, c) == Counts(Of(trajectories, c), proposal)
      && (c in tally.table.buckets <==> Of(trajectories, c) != [])
    decreases |trajectories|
  {
    hide Passes, Outcome, Counts, Total, Proper, At, Add, Plus;
    if trajectories == [] {
      assert Scored(trajectories, proposal) == NO_TALLY && Of(trajectories, c) == [];
      hide Scored, Of;
      EmptyTable(c);
      NoCounts(proposal);
    } else {
      var init, last := trajectories[..|trajectories| - 1], trajectories[|trajectories| - 1];
      var before, outcome := Scored(init, proposal), Outcome(Passes(proposal(last), last.expected));
      OfSnoc(trajectories, c);
      assert Scored(trajectories, proposal)
          == Tally(Plus(before.counts, outcome), Add(before.table, last.category, outcome));
      hide Of, Scored;
      ScoredCounts(init, proposal, c);
      AddTotal(before.table, last.category, outcome);
      AddAt(before.table, last.category, outcome, c);
      CountsSnoc(init, last, proposal);
      CountsSnoc(Of(init, c), last, proposal);
      assert trajectories == init + [last];
    }
  }

  lemma NoCounts(proposal: Proposal)
    ensures Counts([], proposal) == NOTHING
  {
  }

  function Sum(bucket: Bucket): nat {
    bucket.passed + bucket.failed
  }

  /** Whatever was proposed, exactly the trajectories with an oracle are counted. */
  lemma {:induction false} CountedAreOracles(trajectories: seq<Trajectory>, proposal: Proposal)
    ensures Sum(Counts(trajectories, proposal)) == Oracles(trajectories)
    decreases |trajectories|
  {
    hide Tokenize;
    if trajectories != [] {
      CountedAreOracles(trajectories[..|trajectories| - 1], proposal);
    }
  }

  // ----- All seeds -----

  function PerSeed(trajectories: seq<Trajectory>, proposals: seq<Proposal>): (r: seq<Tally>)
    ensures |r| == |proposals|
    ensures forall k :: 0 <= k < |r| ==> r[k] == Scored(trajectories, proposals[k])
  {
    seq(|proposals|, k requires 0 <= k < |proposals| => Scored(trajectories, proposals[k]))
  }

  function Times(n: nat, k: nat): nat {
    n * k
  }

  lemma NextMultiple(n: nat, k: nat)
    ensures Times(n + 1, k) == Times(n, k) + k
  {
  }

  lemma {:induction false} PooledTotals(trajectories: seq<Trajectory>, proposals: seq<Proposal>)
    ensures Sum(Pooled(PerSeed(trajectories, proposals))) == Times(|proposals|, Oracles(trajectories))
    decreases |proposals|
  {
    hide Scored, Counts, Oracles, Of, At, Total, Proper, AddAll, Plus, Sum;
    var runs := PerSeed(trajectories, proposals);
    if proposals == [] {
      NoPooled(runs, "");
      assert Times(0, Oracles(trajectories)) == 0;
      hide PerSeed, Pooled, PooledTable, Times;
    } else {
      var init, last := proposals[..|proposals| - 1], proposals[|proposals| - 1];
      var before, tally := PerSeed(trajectories, init), Scored(trajectories, last);
      assert runs[..|runs| - 1] == before && runs[|runs| - 1] == tally;
      PooledSnoc(runs);
      hide PerSeed, Pooled, PooledTable, Times;
      PooledTotals(trajectories, init);
      ScoredCounts(trajectories, last, "");
      CountedAreOracles(trajectories, last);
      SumPlus(Pooled(before), tally.counts);
      NextMultiple(|init|, Oracles(trajectories));
    }
  }

  lemma {:induction false} PooledTables(trajectories: seq<Trajectory>, proposals: seq<Proposal>, c: string)
    ensures var runs := PerSeed(trajectories, proposals);
      var table := PooledTable(runs);
      && Sum(At(table, c)) == Times(|proposals|, Oracles(Of(trajectories, c)))
      && Proper(table) && Total(table) == Pooled(runs)
      && (c in table.buckets <==> proposals != [] && Of(trajectories, c) != [])
    decreases |proposals|
  {
    hide Scored, At, Total, Proper, Counts, Oracles, Of, AddAll, Plus, Sum;
    var runs := PerSeed(trajectories, proposals);
    if proposals == [] {
      NoPooled(runs, c);
      assert Times(0, Oracles(Of(trajectories, c))) == 0;
      hide PerSeed, Pooled, PooledTable, Times;
    } else {
      var init, last := proposals[..|proposals| - 1], proposals[|proposals| - 1];
      var before, tally := PerSeed(trajectories, init), Scored(trajectories, last);
      assert runs[..|runs| - 1] == before && runs[|runs| - 1] == tally;
      PooledSnoc(runs);
      hide PerSeed, Pooled, PooledTable, Times;
      PooledTables(trajectories, init, c);
      ScoredCounts(trajectories, last, c);
      CountedAreOracles(Of(trajectories, c), last);
      PooledNext(PooledTable(before), tally.table, c);
      NextMultiple(|init|, Oracles(Of(trajectories, c)));
      SumPlus(At(PooledTable(before), c), At(tally.table, c));
    }
  }

  lemma NoPooled(runs: seq<Tally>, c: string)
    requires runs == []
    ensures var table := PooledTable(runs);
      && Sum(At(table, c)) == 0 && Proper(table)
      && Total(table) == Pooled(runs) && c !in table.buckets
    ensures Sum(Pooled(runs)) == 0
  {
    assert PooledTable(runs) == EMPTY_TABLE && Pooled(runs) == NOTHING;
    hide PooledTable, Pooled, Proper, Total;
    EmptyTable(c);
  }

  lemma PooledSnoc(runs: seq<Tally>)
    requires runs != []
    ensures var before, tally := runs[..|runs| - 1], runs[|runs| - 1];
      && PooledTable(runs) == AddAll(PooledTable(before), tally.table, tally.table.order)
      && Pooled(runs) == Plus(Pooled(before), tally.counts)
  {
  }

  lemma SumPlus(a: Bucket, b: Bucket)
    ensures Sum(Plus(a, b)) == Sum(a) + Sum(b)
  {
  }

  /** What pooling one more seed adds. */
  lemma PooledNext(out: Table, t: Table, c: string)
    requires Proper(out) && Proper(t)
    ensures var u := AddAll(out, t, t.order);
      && Proper(u) && Total(u) == Plus(Total(out), Total(t))
      && At(u, c) == Plus(At(out, c), At(t, c))
      && (c in u.buckets <==> c in out.buckets || c in t.buckets)
  {
    hide Proper, At, AddAll, Total;
    ProperTable(t, c);
    AddAllTotal(out, t, t.order);
    AddAllAt(out, t, t.order, c);
  }

  /**
   * Pooled over the seeds, passes and failures are the number of seeds times the number of trajectories with an
   * oracle, whatever each seed proposed; the per-category counts say the same of each category and add up to them.
   */
  lemma PooledCountsAll(trajectories: seq<Trajectory>, proposals: seq<Proposal>, c: string)
    ensures var runs := PerSeed(trajectories, proposals);
      var table := PooledTable(runs);
      && Sum(Pooled(runs)) == |proposals| * Oracles(trajectories)
      && Sum(At(table, c)) == |proposals| * Oracles(Of(trajectories, c))
      && Proper(table) && Total(table) == Pooled(runs)
      && (c in table.buckets <==> proposals != [] && Of(trajectories, c) != [])
  {
    hide PerSeed, Pooled, PooledTable, Sum, At, Oracles, Of, Proper, Total;
    PooledTotals(trajectories, proposals);
    PooledTables(trajectories, proposals, c);
  }

  lemma EmptyTable(c: string)
    ensures Proper(EMPTY_TABLE) && Total(EMPTY_TABLE) == At(EMPTY_TABLE, c) == NOTHING
  {
  }

  /** Two arms over the same seeds are compared on the same number of outcomes, in all and in each category. */
  lemma ArmsComparable(trajectories: seq<Trajectory>, baseline: seq<Proposal>, candidate: seq<Proposal>, c: string)
    requires |baseline| == |candidate|
    ensures var a, b := PerSeed(trajectories, baseline), PerSeed(trajectories, candidate);
      && Sum(Pooled(a)) == Sum(Pooled(b))
      && Sum(At(PooledTable(a), c)) == Sum(At(PooledTable(b), c))
  {
    PooledCountsAll(trajectories, baseline, c);
    PooledCountsAll(trajectories, candidate, c);
  }

  /**
   * The interval reported for an arm holds its pooled failure rate and needs no clamping; with no seed or no oracle
   * it says nothing.
   */
  lemma PooledInterval(trajectories: seq<Trajectory>, proposals: seq<Proposal>, z: real, root: real)
    requires z >= 0.0
    requires var pooled := Pooled(PerSeed(trajectories, proposals));
      Sum(pooled) > 0 ==> IsRoot(root, pooled.failed, Sum(pooled), z)
    ensures var pooled := Pooled(PerSeed(trajectories, proposals));
      var (lower, upper) := Interval(pooled.failed, Sum(pooled), z, root);
      if proposals == [] || Oracles(trajectories) == 0 then (lower, upper) == (0.0, 1.0)
      else
        && Sum(pooled) > 0
        && 0.0 <= lower <= pooled.failed as real / Sum(pooled) as real <= upper <= 1.0
  {
    var pooled := Pooled(PerSeed(trajectories, proposals));
    PooledTotals(trajectories, proposals);
    TimesZero(|proposals|, Oracles(trajectories));
    assert |proposals| == 0 <==> proposals == [];
    hide Pooled, PerSeed, Oracles, Times, Center, Margin;
    if Sum(pooled) > 0 {
      ClampsAreNoOps(pooled.failed, Sum(pooled), z, root);
    }
  }

  lemma TimesZero(n: nat, k: nat)
    ensures Times(n, k) == 0 <==> n == 0 || k == 0
  {
  }
}
