/** The pass and fail counts behind the benchmark report's pooled failure rates. */
module PooledCounts {
  import opened Wrappers

  // ----- Scoring one trajectory -----

  datatype Trajectory = Trajectory(id: string, category: string, task: string, expected: string)

  predicate IsTokenCharacter(c: char) {
    'a' <= c <= 'z' || 'A' <= c <= 'Z' || '0' <= c <= '9' || '\U{4E00}' <= c <= '\U{9FFF}'
  }

  function Lower(s: string): string {
    seq(|s|, i requires 0 <= i < |s| => if 'A' <= s[i] <= 'Z' then s[i] - 'A' + 'a' else s[i])
  }

  function RunLength(s: string): (n: nat)
    ensures n <= |s| && forall i :: 0 <= i < n ==> IsTokenCharacter(s[i])
    ensures n < |s| ==> !IsTokenCharacter(s[n])
  {
    if s == "" || !IsTokenCharacter(s[0]) then 0 else 1 + RunLength(s[1..])
  }

  /** The matches of the token pattern, left to right. */
  function Runs(s: string): seq<string>
    decreases |s|
  {
    var n := RunLength(s);
    if s == "" then [] else if n == 0 then Runs(s[1..]) else [s[..n]] + Runs(s[n..])
  }

  function Tokenize(s: string): set<string> {
    set run | run in Runs(s) && |run| >= 3 :: Lower(run)
  }

  /** Whether a candidate recalls half of the expected tokens; None when nothing is expected. */
  function Passes(candidate: string, expected: string): Option<bool> {
    var wanted := Tokenize(expected);
    if wanted == {} then None
    else Some(|wanted * Tokenize(candidate)| as real / |wanted| as real >= 0.5)
  }

  predicate HasOracle(t: Trajectory) {
    Tokenize(t.expected) != {}
  }

  // ----- Counts -----

  datatype Bucket = Bucket(passed: nat, failed: nat)

  const NOTHING := Bucket(0, 0)

  function Plus(a: Bucket, b: Bucket): Bucket {
    Bucket(a.passed + b.passed, a.failed + b.failed)
  }

  /** A dictionary of counters; `order` is the order in which its keys were inserted. */
  datatype Table = Table(order: seq<string>, buckets: map<string, Bucket>)

  const EMPTY_TABLE := Table([], map[])

  function At(t: Table, category: string): Bucket {
    if category in t.buckets then t.buckets[category] else NOTHING
  }

  /** Adds to a category's counters, setting them up if need be. */
  function Add(t: Table, category: string, b: Bucket): Table {
    Table(if category in t.buckets then t.order else t.order + [category],
          t.buckets[category := Plus(At(t, category), b)])
  }

  lemma AddTwice(t: Table, category: string, a: Bucket, b: Bucket)
    ensures Add(Add(t, category, a), category, b) == Add(t, category, Plus(a, b))
    ensures Plus(NOTHING, b) == b
  {
    assert Add(Add(t, category, a), category, b).buckets == Add(t, category, Plus(a, b)).buckets;
  }

  /** Adding nothing sets a counter up and leaves it otherwise. */
  lemma AddNothing(t: Table, category: string)
    ensures Add(t, category, NOTHING)
         == if category in t.buckets then t
            else Table(t.order + [category], t.buckets[category := NOTHING])
  {
    if category in t.buckets {
      assert t.buckets[category := t.buckets[category]] == t.buckets;
    }
  }

  lemma AddAt(t: Table, category: string, b: Bucket, c: string)
    ensures At(Add(t, category, b), c) == if c == category then Plus(At(t, c), b) else At(t, c)
    ensures c in Add(t, category, b).buckets <==> c in t.buckets || c == category
  {
  }

  function SumOver(t: Table, order: seq<string>): Bucket {
    if order == [] then NOTHING
    else Plus(SumOver(t, order[..|order| - 1]), At(t, order[|order| - 1]))
  }

  /** All counters of a table together. */
  function Total(t: Table): Bucket {
    SumOver(t, t.order)
  }

  ghost predicate Proper(t: Table) {
    && (forall i, j :: 0 <= i < j < |t.order| ==> t.order[i] != t.order[j])
    && (forall category :: category in t.order <==> category in t.buckets)
  }

  /** What one arm scored on one seed. */
  datatype Tally = Tally(counts: Bucket, table: Table)

  const NO_TALLY := Tally(NOTHING, EMPTY_TABLE)

  function Outcome(passed: Option<bool>): Bucket {
    match passed
    case None => NOTHING
    case Some(true) => Bucket(1, 0)
    case Some(false) => Bucket(0, 1)
  }

  function Record(tally: Tally, category: string, passed: Option<bool>): Tally {
    Tally(Plus(tally.counts, Outcome(passed)), Add(tally.table, category, Outcome(passed)))
  }

  lemma RecordAfterDefault(tally: Tally, category: string, passed: Option<bool>)
    ensures Record(tally.(table := Add(tally.table, category, NOTHING)), category, passed)
         == Record(tally, category, passed)
  {
    AddTwice(tally.table, category, NOTHING, Outcome(passed));
  }

  lemma RecordKnown(tally: Tally, category: string, passed: Option<bool>)
    requires category in tally.table.buckets
    ensures var was := tally.table.buckets[category];
      Record(tally, category, passed)
      == match passed
         case None => tally
         case Some(true) =>
           Tally(tally.counts.(passed := tally.counts.passed + 1),
                 tally.table.(buckets := tally.table.buckets[category := was.(passed := was.passed + 1)]))
         case Some(false) =>
           Tally(tally.counts.(failed := tally.counts.failed + 1),
                 tally.table.(buckets := tally.table.buckets[category := was.(failed := was.failed + 1)]))
  {
    AddNothing(tally.table, category);
  }

  /** An arm on one seed: the text it proposes for each trajectory. */
  type Proposal = Trajectory -> string

  function Scored(trajectories: seq<Trajectory>, proposal: Proposal): Tally {
    if trajectories == [] then NO_TALLY
    else
      var last := trajectories[|trajectories| - 1];
      Record(Scored(trajectories[..|trajectories| - 1], proposal), last.category,
             Passes(proposal(last), last.expected))
  }

  /** The result object of one arm and seed, filled in place. */
  class ArmResult {
    var passCount: nat
    var failCount: nat
    var order: seq<string>
    var perCategory: map<string, Bucket>

    function View(): Tally
      reads this
    {
      Tally(Bucket(passCount, failCount), Table(order, perCategory))
    }

    constructor ()
      ensures View() == NO_TALLY
    {
      passCount, failCount, order, perCategory := 0, 0, [], map[];
    }

    /** Without an oracle the category is noted and nothing is counted; otherwise exactly one counter pair grows. */
    method RecordOutcome(category: string, outcome: Option<bool>)
      modifies this
      ensures View() == Record(old(View()), category, outcome)
      ensures passCount + failCount == old(passCount + failCount) + if outcome.Some? then 1 else 0
      ensures category in perCategory
    {
      ghost var before := View();
      AddNothing(before.table, category);
      RecordAfterDefault(before, category, outcome);
      hide At, Add, Record;
      if category !in perCategory {
        order := order + [category];
        perCategory := perCategory[category := NOTHING];
      }
      RecordKnown(View(), category, outcome);
      if outcome.None? {
        return;
      }
      var bucket := perCategory[category];
      if outcome.value {
        passCount := passCount + 1;
        perCategory := perCategory[category := bucket.(passed := bucket.passed + 1)];
      } else {
        failCount := failCount + 1;
        perCategory := perCategory[category := bucket.(failed := bucket.failed + 1)];
      }
    }
  }

  method RunSeedArm(trajectories: seq<Trajectory>, proposal: Proposal) returns (result: ArmResult)
    ensures fresh(result) && result.View() == Scored(trajectories, proposal)
  {
    hide Passes, Record;
    result := new ArmResult();
    var i := 0;
    while i < |trajectories|
      invariant 0 <= i <= |trajectories| && fresh(result)
      invariant result.View() == Scored(trajectories[..i], proposal)
    {
      var t := trajectories[i];
      assert trajectories[..i + 1][..i] == trajectories[..i];
      result.RecordOutcome(t.category, Passes(proposal(t), t.expected));
      i := i + 1;
    }
    assert trajectories[..i] == trajectories;
  }

  // ----- Pooling the seeds -----

  function Pooled(perSeed: seq<Tally>): Bucket {
    if perSeed == [] then NOTHING
    else Plus(Pooled(perSeed[..|perSeed| - 1]), perSeed[|perSeed| - 1].counts)
  }

  function AddAll(out: Table, t: Table, order: seq<string>): Table {
    if order == [] then out
    else
      var last := order[|order| - 1];
      Add(AddAll(out, t, order[..|order| - 1]), last, At(t, last))
  }

  function PooledTable(perSeed: seq<Tally>): Table {
    if perSeed == [] then EMPTY_TABLE
    else
      var last := perSeed[|perSeed| - 1].table;
      AddAll(PooledTable(perSeed[..|perSeed| - 1]), last, last.order)
  }

  lemma AddAllNext(out: Table, t: Table, j: nat)
    requires j < |t.order|
    ensures AddAll(out, t, t.order[..j + 1]) == Add(AddAll(out, t, t.order[..j]), t.order[j], At(t, t.order[j]))
  {
    hide Add, At;
    assert t.order[..j + 1][..j] == t.order[..j];
  }

  /** Setting a counter up and adding to it in place. */
  lemma AddInPlace(t: Table, category: string, b: Bucket)
    ensures var u := if category in t.buckets then t
                     else Table(t.order + [category], t.buckets[category := NOTHING]);
      var was := u.buckets[category];
      Add(t, category, b)
      == u.(buckets := u.buckets[category := Bucket(was.passed + b.passed, was.failed + b.failed)])
  {
    if category !in t.buckets {
      assert Plus(NOTHING, b) == b;
    }
  }

  /** The nested loops over the seeds and the categories of each. */
  method PooledPerCategory(perSeed: seq<Tally>) returns (out: Table)
    requires forall k :: 0 <= k < |perSeed| ==> Proper(perSeed[k].table)
    ensures out == PooledTable(perSeed)
  {
    out := EMPTY_TABLE;
    var k := 0;
    while k < |perSeed|
      invariant 0 <= k <= |perSeed| && out == PooledTable(perSeed[..k])
    {
      var t := perSeed[k].table;
      assert perSeed[..k + 1][..k] == perSeed[..k] && perSeed[..k + 1][k].table == t;
      assert PooledTable(perSeed[..k + 1]) == AddAll(out, t, t.order);
      ProperKeys(t);
      hide Proper, PooledTable;
      out := AddBuckets(out, t);
      k := k + 1;
    }
    assert perSeed[..k] == perSeed;
  }

  lemma ProperKeys(t: Table)
    requires Proper(t)
    ensures forall j :: 0 <= j < |t.order| ==> t.order[j] in t.buckets
  {
  }

  /** The inner loop: adds the counters of one seed. */
  method AddBuckets(before: Table, t: Table) returns (out: Table)
    requires forall j :: 0 <= j < |t.order| ==> t.order[j] in t.buckets
    ensures out == AddAll(before, t, t.order)
  {
    out := before;
    assert AddAll(before, t, t.order[..0]) == before;
    hide Add, AddAll;
    var j := 0;
    while j < |t.order|
      invariant 0 <= j <= |t.order| && out == AddAll(before, t, t.order[..j])
    {
      var category := t.order[j];
      var bucket := t.buckets[category];
      assert At(t, category) == bucket;
      AddAllNext(before, t, j);
      AddInPlace(out, category, bucket);
      hide At;
      if category !in out.buckets {
        out := Table(out.order + [category], out.buckets[category := NOTHING]);
      }
      var pooled := out.buckets[category];
      var sum := Bucket(pooled.passed + bucket.passed, pooled.failed + bucket.failed);
      out := out.(buckets := out.buckets[category := sum]);
      j := j + 1;
    }
    assert t.order[..j] == t.order;
  }
}
