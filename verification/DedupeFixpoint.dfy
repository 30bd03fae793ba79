/** Applying a dedupe plan leaves one record a class, deletes what it announced, and leaves nothing to plan. */
module DedupeFixpoint {
  import opened MemoryDedupe

  // ----- Buckets -----

  lemma {:induction false} MembersIff(records: seq<Candidate>, key: string, m: nat)
    ensures m in Members(records, key) <==> m < |records| && InBucket(records[m], key)
    ensures Ascending(Members(records, key))
    decreases |records|
  {
    hide InBucket;
    if records != [] {
      MembersIff(records[..|records| - 1], key, m);
    }
  }

  predicate Ascending(members: seq<nat>) {
    forall j, k :: 0 <= j < k < |members| ==> members[j] < members[k]
  }

  lemma {:induction false} KeysIff(records: seq<Candidate>, key: string)
    ensures key in Keys(records) <==> Members(records, key) != []
    decreases |records|
  {
    hide Matters, Key;
    if records != [] {
      KeysIff(records[..|records| - 1], key);
    }
  }

  lemma {:induction false} KeysDistinct(records: seq<Candidate>)
    ensures forall j, k :: 0 <= j < k < |Keys(records)| ==> Keys(records)[j] != Keys(records)[k]
    decreases |records|
  {
    hide Matters, Key;
    if records != [] {
      KeysDistinct(records[..|records| - 1]);
    }
  }

  // ----- The keeper -----

  predicate Ordered(records: seq<Candidate>, sorted: seq<nat>)
    requires Indices(records, sorted)
  {
    forall j, k :: 0 <= j < k < |sorted| ==> Precedes(records, sorted[j], sorted[k])
  }

  lemma {:induction false} InsertOrdered(records: seq<Candidate>, sorted: seq<nat>, m: nat)
    requires Indices(records, sorted) && m < |records|
    requires Ordered(records, sorted) && m !in sorted
    ensures Ordered(records, Insert(records, sorted, m))
  {
    if sorted == [] {
    } else if Precedes(records, m, sorted[0]) {
      forall k | 0 <= k < |sorted| ensures Precedes(records, m, sorted[k]) {
      }
    } else {
      var rest := Insert(records, sorted[1..], m);
      InsertOrdered(records, sorted[1..], m);
      assert Precedes(records, sorted[0], m);
      hide Precedes;
      forall k | 0 <= k < |rest| ensures Precedes(records, sorted[0], rest[k]) {
        assert rest[k] in multiset(rest);
        assert rest[k] == m || rest[k] in sorted[1..];
      }
    }
  }

  lemma {:induction false} SortedOrdered(records: seq<Candidate>, members: seq<nat>)
    requires Indices(records, members) && Ascending(members)
    ensures Ordered(records, Sorted(records, members))
    decreases |members|
  {
    hide Precedes;
    if members != [] {
      var before, m := members[..|members| - 1], members[|members| - 1];
      SortedOrdered(records, before);
      var sorted := Sorted(records, before);
      assert m in sorted <==> m in multiset(sorted);
      assert m !in multiset(before);
      InsertOrdered(records, sorted, m);
    }
  }

  function Keeper(records: seq<Candidate>, key: string): nat
    requires Members(records, key) != []
  {
    Sorted(records, Members(records, key))[0]
  }

  /** The keeper is of its class and precedes every other member: the earliest time, then the first index. */
  lemma KeeperIsFirst(records: seq<Candidate>, key: string, m: nat)
    requires m < |records| && InBucket(records[m], key)
    ensures Members(records, key) != []
    ensures var keep := Keeper(records, key);
      && keep < |records|
      && InBucket(records[keep], key)
      && (m != keep ==> Precedes(records, keep, m) && |Members(records, key)| >= 2)
  {
    hide InBucket, Precedes;
    var members := Members(records, key);
    MembersIff(records, key, m);
    var sorted := Sorted(records, members);
    SortedOrdered(records, members);
    assert m in multiset(sorted) && sorted[0] in multiset(members);
    var k :| 0 <= k < |sorted| && sorted[k] == m;
    assert m != sorted[0] ==> k > 0 && Precedes(records, sorted[0], sorted[k]);
  }

  /** The record goes: its content matters, and it is not the keeper of its class. */
  ghost predicate Goes(records: seq<Candidate>, i: nat)
    requires i < |records|
  {
    && Matters(records[i])
    && Members(records, Key(records[i])) != []
    && i != Keeper(records, Key(records[i]))
  }

  // ----- The plan's deletions -----

  predicate DistinctIds(records: seq<Candidate>) {
    forall i, j :: 0 <= i < j < |records| ==> records[i].id != records[j].id
  }

  predicate DeletesIn(groups: seq<Group>, id: string) {
    exists g :: 0 <= g < |groups| && id in groups[g].deleteIds
  }

  lemma {:induction false} GroupsHave(records: seq<Candidate>, keys: seq<string>, g: Group)
    ensures g in GroupsOf(records, keys) <==>
            exists k :: 0 <= k < |keys| && |Members(records, keys[k])| >= 2 && g == GroupOf(records, keys[k])
    decreases |keys|
  {
    hide GroupOf, Members;
    if keys != [] {
      var before := keys[..|keys| - 1];
      GroupsHave(records, before, g);
      if k :| 0 <= k < |keys| && |Members(records, keys[k])| >= 2 && g == GroupOf(records, keys[k]) {
        if k < |before| {
          assert before[k] == keys[k];
        }
      }
    }
  }

  lemma PlanGroups(records: seq<Candidate>, g: Group)
    ensures g in PlanFor(records).groups <==> g in GroupsOf(records, Keys(records))
  {
    hide GroupsOf, Keys;
    var groups := GroupsOf(records, Keys(records));
    assert g in LargestFirst(groups) <==> g in multiset(LargestFirst(groups));
    assert g in groups <==> g in multiset(groups);
  }

  lemma AllButFirst(sorted: seq<nat>, members: seq<nat>, i: nat)
    requires multiset(sorted) == multiset(members) && sorted != []
    requires forall j, k :: 0 <= j < k < |sorted| ==> sorted[j] != sorted[k]
    ensures i in sorted[1..] <==> i in members && i != sorted[0]
  {
    assert i in sorted <==> i in multiset(sorted);
    assert i in members <==> i in multiset(members);
    assert sorted == [sorted[0]] + sorted[1..];
  }

  /** A member is in the sorted tail exactly when it is not the keeper. */
  lemma SortedTail(records: seq<Candidate>, key: string, i: nat)
    requires Members(records, key) != []
    ensures var sorted := Sorted(records, Members(records, key));
      i in sorted[1..] <==> i < |records| && InBucket(records[i], key) && i != Keeper(records, key)
  {
    hide InBucket, Precedes, Members, Sorted, Ordered;
    var members := Members(records, key);
    var sorted := Sorted(records, members);
    MembersIff(records, key, i);
    SortedOrdered(records, members);
    NoRepeats(records, sorted);
    AllButFirst(sorted, members, i);
  }

  lemma IdsHave(records: seq<Candidate>, members: seq<nat>, i: nat)
    requires DistinctIds(records) && i < |records| && Indices(records, members)
    ensures records[i].id in Ids(records, members) <==> i in members
  {
    var ids := Ids(records, members);
    if records[i].id in ids {
      var k :| 0 <= k < |ids| && ids[k] == records[i].id;
      assert members[k] == i;
    }
    if i in members {
      var k :| 0 <= k < |members| && members[k] == i;
      assert ids[k] == records[i].id;
    }
  }

  lemma GroupDeletes(records: seq<Candidate>, key: string, i: nat)
    requires DistinctIds(records) && i < |records| && Members(records, key) != []
    ensures records[i].id in GroupOf(records, key).deleteIds <==> InBucket(records[i], key) && i != Keeper(records, key)
  {
    hide InBucket, Members, Sorted, DistinctIds, NormalizeContent, Keeper;
    SortedTail(records, key, i);
    IdsHave(records, Sorted(records, Members(records, key))[1..], i);
  }

  lemma NoRepeats(records: seq<Candidate>, sorted: seq<nat>)
    requires Indices(records, sorted) && Ordered(records, sorted)
    ensures forall j, k :: 0 <= j < k < |sorted| ==> sorted[j] != sorted[k]
  {
    forall j, k | 0 <= j < k < |sorted| ensures sorted[j] != sorted[k] {
      assert Precedes(records, sorted[j], sorted[k]);
    }
  }

  /** The plan deletes exactly the records that are not the keepers of their classes. */
  lemma DeletesIff(records: seq<Candidate>, i: nat)
    requires DistinctIds(records) && i < |records|
    ensures DeletesIn(PlanFor(records).groups, records[i].id) <==> Goes(records, i)
  {
    hide Members, Keys, GroupsOf, GroupOf, PlanFor, DistinctIds, Matters, Key;
    var plan, keys := PlanFor(records), Keys(records);
    if DeletesIn(plan.groups, records[i].id) {
      var g :| 0 <= g < |plan.groups| && records[i].id in plan.groups[g].deleteIds;
      PlanGroups(records, plan.groups[g]);
      GroupsHave(records, keys, plan.groups[g]);
      var k :| 0 <= k < |keys| && |Members(records, keys[k])| >= 2 && plan.groups[g] == GroupOf(records, keys[k]);
      GroupDeletes(records, keys[k], i);
    }
    if Goes(records, i) {
      var key := Key(records[i]);
      KeeperIsFirst(records, key, i);
      KeysIff(records, key);
      var k :| 0 <= k < |keys| && keys[k] == key;
      var group := GroupOf(records, key);
      GroupsHave(records, keys, group);
      PlanGroups(records, group);
      GroupDeletes(records, key, i);
      var g :| 0 <= g < |plan.groups| && plan.groups[g] == group;
      assert DeletesIn(plan.groups, records[i].id);
    }
  }

  lemma {:induction false} InsertSorted(groups: seq<Group>, g: Group)
    requires LargestLead(groups)
    ensures LargestLead(InsertGroup(groups, g))
    decreases |groups|
  {
    if groups != [] {
      var n := |groups| - 1;
      if |groups[n].deleteIds| < |g.deleteIds| {
        InsertSorted(groups[..n], g);
        var inserted := InsertGroup(groups[..n], g);
        forall k | 0 <= k < |inserted| ensures |inserted[k].deleteIds| >= |groups[n].deleteIds| {
          assert inserted[k] in multiset(inserted);
          assert inserted[k] == g || inserted[k] in groups[..n];
        }
      }
    }
  }

  predicate LargestLead(groups: seq<Group>) {
    forall j, k :: 0 <= j < k < |groups| ==> |groups[j].deleteIds| >= |groups[k].deleteIds|
  }

  /** The groups are a rearrangement of the buckets' groups with the largest first. */
  lemma {:induction false} PlanSorted(groups: seq<Group>)
    ensures LargestLead(LargestFirst(groups)) && multiset(LargestFirst(groups)) == multiset(groups)
    decreases |groups|
  {
    if groups != [] {
      PlanSorted(groups[..|groups| - 1]);
      InsertSorted(LargestFirst(groups[..|groups| - 1]), groups[|groups| - 1]);
    }
  }

  ghost predicate NamesKeeper(records: seq<Candidate>, g: Group, i: nat)
    requires i < |records|
  {
    && Matters(records[i])
    && !Goes(records, i)
    && g.keepId == records[i].id
    && g.tier == records[i].tier
    && g.content == NormalizeContent(records[i].content)
  }

  /** Every group names a record that stays as the one to keep, with its tier and content, and deletes others. */
  lemma GroupNamesKeeper(records: seq<Candidate>, g: Group)
    requires DistinctIds(records) && g in PlanFor(records).groups
    ensures g.deleteIds != []
    ensures exists i :: 0 <= i < |records| && NamesKeeper(records, g, i)
  {
    hide Members, Keys, GroupsOf, PlanFor, Precedes, Matters, NormalizeContent, Sorted;
    PlanGroups(records, g);
    var keys := Keys(records);
    GroupsHave(records, keys, g);
    var k :| 0 <= k < |keys| && |Members(records, keys[k])| >= 2 && g == GroupOf(records, keys[k]);
    var keep := Keeper(records, keys[k]);
    MembersIff(records, keys[k], keep);
    assert keep in multiset(Members(records, keys[k]));
    assert NamesKeeper(records, g, keep);
  }

  // ----- Applying the plan -----

  function Without(records: seq<Candidate>, groups: seq<Group>): seq<Candidate> {
    if records == [] then []
    else
      var last := records[|records| - 1];
      Without(records[..|records| - 1], groups) + if DeletesIn(groups, last.id) then [] else [last]
  }

  function Apply(records: seq<Candidate>, plan: Plan): seq<Candidate> {
    Without(records, plan.groups)
  }

  lemma {:induction false} WithoutHas(records: seq<Candidate>, groups: seq<Group>, r: Candidate)
    ensures r in Without(records, groups) <==> r in records && !DeletesIn(groups, r.id)
    decreases |records|
  {
    hide DeletesIn;
    if records != [] {
      WithoutHas(records[..|records| - 1], groups, r);
      assert records == records[..|records| - 1] + [records[|records| - 1]];
    }
  }

  /** A record stays exactly when its content is blank or it is the keeper of its class. */
  lemma {:induction false} StaysIff(records: seq<Candidate>, i: nat)
    requires DistinctIds(records) && i < |records|
    ensures records[i] in Apply(records, PlanFor(records)) <==> !Goes(records, i)
  {
    hide PlanFor, DistinctIds, Goes, Without, DeletesIn;
    WithoutHas(records, PlanFor(records).groups, records[i]);
    DeletesIff(records, i);
  }

  /** Each class keeps one record, its minimum by time and then by place, and no class is lost. */
  lemma OneRecordPerClass(records: seq<Candidate>, i: nat)
    requires DistinctIds(records) && i < |records| && Matters(records[i])
    ensures Members(records, Key(records[i])) != []
    ensures var left := Apply(records, PlanFor(records));
      var keep := Keeper(records, Key(records[i]));
      && keep < |records| && InBucket(records[keep], Key(records[i]))
      && records[keep] in left
      && (i != keep ==> Precedes(records, keep, i) && records[i] !in left)
  {
    hide Members, PlanFor, DistinctIds, Matters, Key, Keeper, Precedes, Without;
    var key := Key(records[i]);
    KeeperIsFirst(records, key, i);
    StaysIff(records, i);
    StaysIff(records, Keeper(records, key));
  }

  // ----- Planning again -----

  ghost predicate KeysApart(records: seq<Candidate>) {
    forall i, j :: 0 <= i < j < |records| && Matters(records[i]) && Matters(records[j]) ==>
      Key(records[i]) != Key(records[j])
  }

  lemma {:induction false} LeftKeysApart(records: seq<Candidate>, upTo: nat)
    requires DistinctIds(records) && upTo <= |records|
    ensures KeysApart(Without(records[..upTo], PlanFor(records).groups))
    decreases upTo
  {
    hide PlanFor, Matters, Key, DeletesIn;
    if upTo > 0 {
      LeftKeysApart(records, upTo - 1);
      var groups := PlanFor(records).groups;
      assert records[..upTo][..upTo - 1] == records[..upTo - 1];
      var left := Without(records[..upTo - 1], groups);
      var last := records[upTo - 1];
      forall k | 0 <= k < |left| && Matters(left[k]) && Matters(last) && !DeletesIn(groups, last.id)
        ensures Key(left[k]) != Key(last)
      {
        WithoutHas(records[..upTo - 1], groups, left[k]);
        var i :| 0 <= i < upTo - 1 && records[..upTo - 1][i] == left[k];
        KeepersMeet(records, i, upTo - 1);
      }
    }
  }

  lemma KeepersMeet(records: seq<Candidate>, i: nat, j: nat)
    requires DistinctIds(records) && i < |records| && j < |records|
    requires Matters(records[i]) && Matters(records[j])
    requires !DeletesIn(PlanFor(records).groups, records[i].id) && !DeletesIn(PlanFor(records).groups, records[j].id)
    ensures Key(records[i]) == Key(records[j]) ==> i == j
  {
    hide PlanFor, Matters, Key, DeletesIn, Members, Keeper, DistinctIds;
    DeletesIff(records, i);
    DeletesIff(records, j);
    KeeperIsFirst(records, Key(records[i]), i);
    KeeperIsFirst(records, Key(records[j]), j);
  }

  lemma BucketsApart(records: seq<Candidate>, key: string, i: nat, j: nat)
    requires KeysApart(records) && i < j < |records|
    ensures !(InBucket(records[i], key) && InBucket(records[j], key))
  {
  }

  lemma ApartMeansSingle(records: seq<Candidate>, key: string)
    requires KeysApart(records)
    ensures |Members(records, key)| < 2
  {
    hide KeysApart, InBucket;
    var members := Members(records, key);
    MembersIff(records, key, 0);
    if |members| >= 2 {
      BucketsApart(records, key, members[0], members[1]);
    }
  }

  lemma {:induction false} NoGroups(records: seq<Candidate>, keys: seq<string>)
    requires KeysApart(records)
    ensures GroupsOf(records, keys) == []
    decreases |keys|
  {
    hide KeysApart, Members, GroupOf;
    if keys != [] {
      NoGroups(records, keys[..|keys| - 1]);
      ApartMeansSingle(records, keys[|keys| - 1]);
    }
  }

  /** Planning again after applying a plan yields an empty plan. */
  lemma PlanIsFixpoint(records: seq<Candidate>)
    requires DistinctIds(records)
    ensures PlanFor(Apply(records, PlanFor(records))) == Plan([], 0, 0)
  {
    hide KeysApart, GroupsOf, DistinctIds;
    LeftKeysApart(records, |records|);
    assert records[..|records|] == records;
    var left := Apply(records, PlanFor(records));
    NoGroups(left, Keys(left));
  }

  // ----- Counting -----

  function Tail(records: seq<Candidate>, key: string): (tail: seq<nat>)
    ensures Indices(records, tail)
  {
    var members := Members(records, key);
    if members == [] then [] else Sorted(records, members)[1..]
  }

  /** The indices the plan deletes, bucket by bucket. */
  function Tails(records: seq<Candidate>, keys: seq<string>): seq<nat> {
    if keys == [] then [] else Tails(records, keys[..|keys| - 1]) + Tail(records, keys[|keys| - 1])
  }

  lemma {:induction false} DeletionsAreTails(records: seq<Candidate>, keys: seq<string>)
    ensures Deletions(GroupsOf(records, keys)) == |Tails(records, keys)|
    decreases |keys|
  {
    hide Members, Sorted;
    if keys != [] {
      var before, key := keys[..|keys| - 1], keys[|keys| - 1];
      DeletionsAreTails(records, before);
      if |Members(records, key)| >= 2 {
        DeletionsSnoc(GroupsOf(records, before), GroupOf(records, key));
      }
    }
  }

  lemma TailHas(records: seq<Candidate>, key: string, m: nat)
    ensures m in Tail(records, key) <==>
            m < |records| && InBucket(records[m], key) && Members(records, key) != [] && m != Keeper(records, key)
    ensures forall j, k :: 0 <= j < k < |Tail(records, key)| ==> Tail(records, key)[j] != Tail(records, key)[k]
  {
    hide InBucket, Precedes;
    var members := Members(records, key);
    MembersIff(records, key, m);
    if members != [] {
      SortedTail(records, key, m);
      SortedOrdered(records, members);
      NoRepeats(records, Sorted(records, members));
    }
  }

  lemma {:induction false} TailsHave(records: seq<Candidate>, keys: seq<string>, m: nat)
    ensures m in Tails(records, keys) <==> exists k :: 0 <= k < |keys| && m in Tail(records, keys[k])
    decreases |keys|
  {
    hide Tail;
    if keys != [] {
      var before := keys[..|keys| - 1];
      TailsHave(records, before, m);
      if k :| 0 <= k < |keys| && m in Tail(records, keys[k]) {
        if k < |before| {
          assert before[k] == keys[k];
        }
      }
    }
  }

  lemma {:induction false} TailsDistinct(records: seq<Candidate>, keys: seq<string>)
    requires forall j, k :: 0 <= j < k < |keys| ==> keys[j] != keys[k]
    ensures forall j, k :: 0 <= j < k < |Tails(records, keys)| ==> Tails(records, keys)[j] != Tails(records, keys)[k]
    decreases |keys|
  {
    hide Tail, Keeper, Members, Matters, Key;
    if keys != [] {
      var before, key := keys[..|keys| - 1], keys[|keys| - 1];
      TailsDistinct(records, before);
      var tails, tail := Tails(records, before), Tail(records, key);
      TailHas(records, key, 0);
      forall j, k | 0 <= j < |tails| && 0 <= k < |tail| ensures tails[j] != tail[k] {
        TailsHave(records, before, tails[j]);
        var b :| 0 <= b < |before| && tails[j] in Tail(records, before[b]);
        TailHas(records, before[b], tails[j]);
        TailHas(records, key, tail[k]);
        assert before[b] == keys[b];
      }
    }
  }

  function Elements(s: seq<nat>): set<nat> {
    set m | m in s
  }

  lemma {:induction false} DistinctSize(s: seq<nat>)
    requires forall j, k :: 0 <= j < k < |s| ==> s[j] != s[k]
    ensures |Elements(s)| == |s|
    decreases |s|
  {
    if s == [] {
      assert Elements(s) == {};
    } else {
      var before, last := s[..|s| - 1], s[|s| - 1];
      DistinctSize(before);
      assert s == before + [last] && last !in before;
      assert Elements(s) == Elements(before) + {last};
    }
  }

  function DeletedBelow(records: seq<Candidate>, groups: seq<Group>, upTo: nat): set<nat>
    requires upTo <= |records|
  {
    set i | 0 <= i < upTo && DeletesIn(groups, records[i].id)
  }

  lemma {:induction false} WithoutSize(records: seq<Candidate>, groups: seq<Group>, upTo: nat)
    requires upTo <= |records|
    ensures |Without(records[..upTo], groups)| + |DeletedBelow(records, groups, upTo)| == upTo
    decreases upTo
  {
    hide DeletesIn;
    if upTo > 0 {
      WithoutSize(records, groups, upTo - 1);
      assert records[..upTo][..upTo - 1] == records[..upTo - 1];
      var below := DeletedBelow(records, groups, upTo - 1);
      assert DeletedBelow(records, groups, upTo)
          == below + if DeletesIn(groups, records[upTo - 1].id) then {upTo - 1} else {};
    }
  }

  lemma SameNumber(records: seq<Candidate>)
    ensures |LargestFirst(GroupsOf(records, Keys(records)))| == |GroupsOf(records, Keys(records))|
  {
    var groups := GroupsOf(records, Keys(records));
    assert |multiset(LargestFirst(groups))| == |LargestFirst(groups)| && |multiset(groups)| == |groups|;
  }

  /** Applying the plan removes exactly the number of records it announced, and it keeps one a group. */
  lemma DeletesWhatItAnnounced(records: seq<Candidate>)
    requires DistinctIds(records)
    ensures |Apply(records, PlanFor(records))| + PlanFor(records).totalDelete == |records|
    ensures PlanFor(records).totalKeep == |PlanFor(records).groups|
  {
    SameNumber(records);
    hide Tails, Tail, GroupsOf, Keys, Members, Keeper, Matters, Key, DeletesIn, Deletions, Without, DistinctIds;
    hide LargestFirst;
    var keys, groups := Keys(records), PlanFor(records).groups;
    var tails := Tails(records, keys);
    DeletionsAreTails(records, keys);
    KeysDistinct(records);
    TailsDistinct(records, keys);
    DistinctSize(tails);
    WithoutSize(records, groups, |records|);
    assert records[..|records|] == records;
    var deleted := DeletedBelow(records, groups, |records|);
    forall m: nat ensures m in deleted <==> m in tails {
      TailsHave(records, keys, m);
      if m in tails {
        var k :| 0 <= k < |keys| && m in Tail(records, keys[k]);
        TailHas(records, keys[k], m);
        DeletesIff(records, m);
      }
      if m in deleted {
        DeletesIff(records, m);
        var key := Key(records[m]);
        KeysIff(records, key);
        TailHas(records, key, m);
        var k :| 0 <= k < |keys| && keys[k] == key;
        assert m in Tail(records, keys[k]);
      }
    }
    assert deleted == Elements(tails);
  }
}
