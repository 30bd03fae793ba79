/** Planning which duplicate memory records to delete. */
module MemoryDedupe {
  import opened Text
  import opened Wrappers

  /** `time` is the parsed creation time, None when it is missing or does not parse. */
  datatype Candidate = Candidate(id: string, content: string, tier: string, time: Option<int>)

  datatype Group = Group(tier: string, content: string, keepId: string, deleteIds: seq<string>)

  datatype Plan = Plan(groups: seq<Group>, totalDelete: nat, totalKeep: nat)

  function Collapse(s: string): (t: string)
    decreases |s|
  {
    if s == "" then ""
    else if IsSpace(s[0]) then " " + Collapse(TrimStart(s[1..]))
    else [s[0]] + Collapse(s[1..])
  }

  function NormalizeContent(s: string): string {
    Collapse(Trim(s))
  }

  function KeyFor(tier: string, normalized: string): string {
    tier + "::" + normalized
  }

  predicate Matters(record: Candidate) {
    NormalizeContent(record.content) != ""
  }

  function Key(record: Candidate): string {
    KeyFor(record.tier, NormalizeContent(record.content))
  }

  predicate InBucket(record: Candidate, key: string) {
    Matters(record) && Key(record) == key
  }

  /** The buckets' keys in the order in which they are first met. */
  function Keys(records: seq<Candidate>): seq<string> {
    if records == [] then []
    else
      var before, last := Keys(records[..|records| - 1]), records[|records| - 1];
      if Matters(last) && Key(last) !in before then before + [Key(last)] else before
  }

  /** The indices of a bucket's records, in order. */
  function Members(records: seq<Candidate>, key: string): (members: seq<nat>)
    ensures forall k :: 0 <= k < |members| ==> members[k] < |records| && InBucket(records[members[k]], key)
  {
    if records == [] then []
    else
      var before := Members(records[..|records| - 1], key);
      if InBucket(records[|records| - 1], key) then before + [|records| - 1] else before
  }

  /** The comparator of the keeper sort; a missing time counts as later than every time. */
  predicate Precedes(records: seq<Candidate>, i: nat, j: nat)
    requires i < |records| && j < |records|
  {
    var a, b := records[i].time, records[j].time;
    if a == b then i < j
    else a.Some? && (b.None? || a.value < b.value)
  }

  predicate Indices(records: seq<Candidate>, members: seq<nat>) {
    forall k :: 0 <= k < |members| ==> members[k] < |records|
  }

  function Insert(records: seq<Candidate>, sorted: seq<nat>, m: nat): (r: seq<nat>)
    requires Indices(records, sorted) && m < |records|
    ensures Indices(records, r)
    ensures multiset(r) == multiset(sorted) + multiset{m}
  {
    if sorted == [] then [m]
    else if Precedes(records, m, sorted[0]) then [m] + sorted
    else
      assert sorted == [sorted[0]] + sorted[1..];
      [sorted[0]] + Insert(records, sorted[1..], m)
  }

  function Sorted(records: seq<Candidate>, members: seq<nat>): (r: seq<nat>)
    requires Indices(records, members)
    ensures Indices(records, r)
    ensures multiset(r) == multiset(members)
    ensures |r| == |members|
  {
    if members == [] then []
    else
      assert members == members[..|members| - 1] + [members[|members| - 1]];
      var r := Insert(records, Sorted(records, members[..|members| - 1]), members[|members| - 1]);
      assert |multiset(r)| == |r| && |multiset(members)| == |members|;
      r
  }

  function Ids(records: seq<Candidate>, members: seq<nat>): (ids: seq<string>)
    requires Indices(records, members)
    ensures |ids| == |members|
    ensures forall k :: 0 <= k < |ids| ==> ids[k] == records[members[k]].id
  {
    seq(|members|, k requires 0 <= k < |members| => records[members[k]].id)
  }

  function GroupOf(records: seq<Candidate>, key: string): Group
    requires Members(records, key) != []
  {
    var sorted := Sorted(records, Members(records, key));
    var keep := records[sorted[0]];
    Group(keep.tier, NormalizeContent(keep.content), keep.id, Ids(records, sorted[1..]))
  }

  /** The groups of the buckets with at least two records, in the buckets' order. */
  function GroupsOf(records: seq<Candidate>, keys: seq<string>): seq<Group> {
    if keys == [] then []
    else
      var before, key := GroupsOf(records, keys[..|keys| - 1]), keys[|keys| - 1];
      if |Members(records, key)| < 2 then before else before + [GroupOf(records, key)]
  }

  function Deletions(groups: seq<Group>): nat {
    if groups == [] then 0 else Deletions(groups[..|groups| - 1]) + |groups[|groups| - 1].deleteIds|
  }

  /** The stable sort that puts the largest groups first. */
  function InsertGroup(groups: seq<Group>, g: Group): (r: seq<Group>)
    ensures multiset(r) == multiset(groups) + multiset{g}
  {
    if groups == [] then [g]
    else if |groups[|groups| - 1].deleteIds| >= |g.deleteIds| then groups + [g]
    else
      assert groups == groups[..|groups| - 1] + [groups[|groups| - 1]];
      InsertGroup(groups[..|groups| - 1], g) + [groups[|groups| - 1]]
  }

  function LargestFirst(groups: seq<Group>): (r: seq<Group>)
    ensures multiset(r) == multiset(groups)
  {
    if groups == [] then []
    else
      assert groups == groups[..|groups| - 1] + [groups[|groups| - 1]];
      InsertGroup(LargestFirst(groups[..|groups| - 1]), groups[|groups| - 1])
  }

  function PlanFor(records: seq<Candidate>): Plan {
    var groups := GroupsOf(records, Keys(records));
    Plan(LargestFirst(groups), Deletions(groups), |groups|)
  }

  method FillBuckets(records: seq<Candidate>) returns (order: seq<string>, buckets: map<string, seq<nat>>)
    ensures order == Keys(records)
    ensures forall key :: key in buckets <==> key in order
    ensures forall key :: Members(records, key) == if key in buckets then buckets[key] else []
  {
    hide NormalizeContent, Key;
    order, buckets := [], map[];
    var index := 0;
    while index < |records|
      invariant 0 <= index <= |records|
      invariant order == Keys(records[..index])
      invariant forall key :: key in buckets <==> key in order
      invariant forall key :: Members(records[..index], key) == if key in buckets then buckets[key] else []
    {
      var record := records[index];
      assert records[..index + 1][..index] == records[..index];
      if Matters(record) {
        var key := Key(record);
        if key !in buckets {
          order, buckets := order + [key], buckets[key := [index]];
        } else {
          buckets := buckets[key := buckets[key] + [index]];
        }
      }
      index := index + 1;
    }
    assert records[..index] == records;
  }

  lemma DeletionsSnoc(groups: seq<Group>, group: Group)
    ensures Deletions(groups + [group]) == Deletions(groups) + |group.deleteIds|
  {
    assert (groups + [group])[..|groups|] == groups;
  }

  lemma NoDeletions()
    ensures Deletions([]) == 0
  {
  }

  /** The record to keep of a bucket, and the others. */
  method PickKeeper(records: seq<Candidate>, bucket: seq<nat>) returns (keep: nat, rest: seq<nat>)
    requires Indices(records, bucket) && bucket != []
    ensures [keep] + rest == Sorted(records, bucket)
  {
    hide Sorted;
    var sorted := Sorted(records, bucket);
    return sorted[0], sorted[1..];
  }

  lemma GroupPicked(records: seq<Candidate>, key: string, keep: nat, rest: seq<nat>)
    requires Members(records, key) != [] && [keep] + rest == Sorted(records, Members(records, key))
    ensures keep < |records| && Indices(records, rest)
    ensures GroupOf(records, key)
         == Group(records[keep].tier, NormalizeContent(records[keep].content), records[keep].id, Ids(records, rest))
  {
    hide Sorted, NormalizeContent, Members;
    var sorted := Sorted(records, Members(records, key));
    assert sorted[0] == keep && sorted[1..] == rest;
  }

  method BuildDedupePlan(records: seq<Candidate>) returns (plan: Plan)
    ensures plan == PlanFor(records)
  {
    hide NormalizeContent, Sorted, LargestFirst, Keys, Members, Deletions, GroupOf, Ids;
    var order, buckets := FillBuckets(records);
    var groups: seq<Group>, totalDelete, totalKeep := [], 0, 0;
    assert Deletions([]) == 0 by { NoDeletions(); }
    var k := 0;
    while k < |order|
      invariant 0 <= k <= |order|
      invariant groups == GroupsOf(records, order[..k])
      invariant totalDelete == Deletions(groups) && totalKeep == |groups|
    {
      var key := order[k];
      assert order[..k + 1][..k] == order[..k];
      assert key in order;
      var bucket := buckets[key];
      assert Members(records, key) == bucket;
      if |bucket| >= 2 {
        var keep, rest := PickKeeper(records, bucket);
        GroupPicked(records, key, keep, rest);
        var deleteIds := Ids(records, rest);
        var group := Group(records[keep].tier, NormalizeContent(records[keep].content), records[keep].id, deleteIds);
        DeletionsSnoc(groups, group);
        totalDelete, totalKeep := totalDelete + |deleteIds|, totalKeep + 1;
        groups := groups + [group];
      }
      k := k + 1;
    }
    assert order[..k] == order;
    return Plan(LargestFirst(groups), totalDelete, totalKeep);
  }
}
