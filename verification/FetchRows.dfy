/** The paging loops of the dataset fetch, and when cached rows may stand in for a fresh fetch. */
module FetchRows {
  import opened Wrappers

  function Min(a: nat, b: nat): nat {
    if a <= b then a else b
  }

  /** The rows server: at most `cap` rows a page, from a fixed source. */
  function Page<Row>(source: seq<Row>, cap: nat, offset: nat, length: nat): seq<Row> {
    var from := Min(offset, |source|);
    source[from..Min(from + Min(length, cap), |source|)]
  }

  /** How many rows the paging loop collects: a page shorter than requested ends it. */
  function Collected(rows: nat, cap: nat, pageSize: nat, target: nat): nat {
    Min(if Min(pageSize, target) <= cap then target else cap, rows)
  }

  method FetchAllRows<Row>(source: seq<Row>, cap: nat, pageSize: nat, target: nat) returns (rows: seq<Row>)
    requires pageSize > 0
    ensures rows == source[..Collected(|source|, cap, pageSize, target)]
  {
    rows := [];
    var offset := 0;
    while true
      invariant offset == |rows| <= Min(target, |source|)
      invariant rows == source[..offset]
      invariant offset > 0 ==> Min(pageSize, target) <= cap
      decreases target - |rows|
    {
      var remaining := Min(pageSize, target - |rows|);
      if remaining <= 0 {
        break;
      }
      var pageRows := Page(source, cap, offset, remaining);
      if |pageRows| == 0 {
        break;
      }
      assert source[..offset] + pageRows == source[..offset + |pageRows|];
      rows := rows + pageRows;
      offset := offset + |pageRows|;
      if |pageRows| < remaining {
        break;
      }
    }
  }

  /** The loop yields the first `target` rows exactly when no page is cut short by the server's cap. */
  lemma FetchCompleteIff<Row>(source: seq<Row>, cap: nat, pageSize: nat, target: nat)
    requires pageSize > 0
    ensures source[..Collected(|source|, cap, pageSize, target)] == source[..Min(target, |source|)]
       <==> Min(pageSize, target) <= cap || |source| <= cap
  {
    var got, all := Collected(|source|, cap, pageSize, target), Min(target, |source|);
    assert |source[..got]| == got && |source[..all]| == all;
  }

  function Flatten<Row>(categories: seq<seq<Row>>): seq<Row> {
    if categories == [] then [] else categories[0] + Flatten(categories[1..])
  }

  function Take<Row>(rows: seq<Row>, limit: Option<nat>): seq<Row> {
    if limit.Some? then rows[..Min(limit.value, |rows|)] else rows
  }

  lemma {:induction false} FlattenPrefix<Row>(categories: seq<seq<Row>>, k: nat)
    requires k < |categories|
    ensures Flatten(categories[..k + 1]) == Flatten(categories[..k]) + categories[k]
  {
    if k == 0 {
      assert categories[..1] == [categories[0]] && categories[..0] == [];
    } else {
      FlattenPrefix(categories[1..], k - 1);
      assert categories[..k + 1][1..] == categories[1..][..k];
      assert categories[..k][1..] == categories[1..][..k - 1];
      assert categories[..k + 1][0] == categories[..k][0] == categories[0];
    }
  }

  lemma {:induction false} FlattenGrows<Row>(categories: seq<seq<Row>>, k: nat)
    requires k <= |categories|
    ensures Flatten(categories[..k]) <= Flatten(categories)
  {
    if k > 0 {
      FlattenGrows(categories[1..], k - 1);
      assert categories[..k][1..] == categories[1..][..k - 1];
    } else {
      assert categories[..0] == [];
    }
  }

  lemma TakeNext<Row>(before: seq<Row>, prompts: seq<Row>, i: nat, maxRows: Option<nat>)
    requires i < |prompts|
    requires maxRows.Some? ==> |Take(before + prompts[..i], maxRows)| < maxRows.value
    ensures Take(before + prompts[..i + 1], maxRows) == Take(before + prompts[..i], maxRows) + [prompts[i]]
  {
    assert before + prompts[..i + 1] == before + prompts[..i] + [prompts[i]];
  }

  /** Once the limit is reached, the rest adds nothing. */
  lemma TakeRest<Row>(before: seq<Row>, prompts: seq<Row>, i: nat, maxRows: Option<nat>)
    requires i <= |prompts|
    requires i == |prompts| || (maxRows.Some? && |Take(before + prompts[..i], maxRows)| >= maxRows.value)
    ensures Take(before + prompts, maxRows) == Take(before + prompts[..i], maxRows)
  {
    assert before + prompts == before + prompts[..i] + prompts[i..];
  }

  lemma TakeFlattened<Row>(categories: seq<seq<Row>>, k: nat, maxRows: Option<nat>)
    requires k <= |categories|
    requires maxRows.Some? && |Take(Flatten(categories[..k]), maxRows)| >= maxRows.value
    ensures Take(Flatten(categories), maxRows) == Take(Flatten(categories[..k]), maxRows)
  {
    FlattenGrows(categories, k);
  }

  method FetchBfclRows<Row>(categories: seq<seq<Row>>, maxRows: Option<nat>) returns (rows: seq<Row>)
    ensures rows == Take(Flatten(categories), maxRows)
  {
    assert Take<Row>([], maxRows) == [];
    assert categories[..0] == [] && Flatten(categories[..0]) == [];
    hide Take, Flatten;
    rows := [];
    var k := 0;
    while k < |categories|
      invariant 0 <= k <= |categories|
      invariant rows == Take(Flatten(categories[..k]), maxRows)
    {
      if maxRows.Some? && |rows| >= maxRows.value {
        TakeFlattened(categories, k, maxRows);
        return;
      }
      var prompts := categories[k];
      ghost var before := Flatten(categories[..k]);
      FlattenPrefix(categories, k);
      assert before + prompts[..0] == before;
      var i := 0;
      while i < |prompts|
        invariant 0 <= i <= |prompts|
        invariant rows == Take(before + prompts[..i], maxRows)
      {
        if maxRows.Some? && |rows| >= maxRows.value {
          break;
        }
        TakeNext(before, prompts, i, maxRows);
        rows := rows + [prompts[i]];
        i := i + 1;
      }
      TakeRest(before, prompts, i, maxRows);
      k := k + 1;
    }
    assert categories[..k] == categories;
  }

  // ----- The cache -------------------------------------------------------------

  /** A dataset is paged from a rows server, or (`bfcl-v4`) concatenated from category files. */
  datatype Dataset<Row> =
    | Paged(source: seq<Row>, expectedRows: nat)
    | Bfcl(categories: seq<seq<Row>>)

  /** One fetch: its row limit, and the page size and server cap it happened to meet. */
  datatype Request = Request(maxRows: Option<nat>, pageSize: nat, cap: nat)

  function Fetched<Row>(d: Dataset<Row>, r: Request): seq<Row> {
    match d
    case Paged(source, expectedRows) =>
      var target := if r.maxRows.Some? then r.maxRows.value else expectedRows;
      source[..Collected(|source|, r.cap, r.pageSize, target)]
    case Bfcl(categories) => Take(Flatten(categories), r.maxRows)
  }

  /** The row limit that a manifest notes: none at all, an explicit null, or a number. */
  datatype Noted = Absent | Unlimited | Limited(rows: nat)

  /** `cachedRows` is the manifest's row count, if it is a number. */
  predicate CacheSatisfiesRequest<Row>(
    d: Dataset<Row>, cachedMaxRows: Noted, cachedRows: Option<int>, currentMaxRows: Option<nat>)
  {
    if cachedRows.None? || cachedRows.value < 0 then false
    else if currentMaxRows.None? then
      cachedMaxRows.Unlimited? && (if d.Bfcl? then cachedRows.value > 0 else cachedRows.value == d.expectedRows)
    else if !cachedMaxRows.Limited? then cachedRows.value >= currentMaxRows.value
    else cachedMaxRows.rows >= currentMaxRows.value && cachedRows.value >= currentMaxRows.value
  }

  function NoteOf(maxRows: Option<nat>): Noted {
    if maxRows.Some? then Limited(maxRows.value) else Unlimited
  }

  /** A cache hit loses nothing: a fresh fetch would return a prefix of the cached rows. */
  lemma CacheAgreesWithFetch<Row>(d: Dataset<Row>, cached: Request, current: Request)
    requires CacheSatisfiesRequest(d, NoteOf(cached.maxRows), Some(|Fetched(d, cached)|), current.maxRows)
    ensures Fetched(d, current) <= Fetched(d, cached)
    ensures current.maxRows.None? && d.Paged? ==> |Fetched(d, cached)| == d.expectedRows
  {
    match d
    case Paged(source, expectedRows) =>
      assert |Fetched(d, current)| <= |Fetched(d, cached)|;
    case Bfcl(categories) =>
  }

  /** All that was asked for: as many rows as the limit, or without one all that the dataset is known to hold. */
  predicate Complete<Row>(d: Dataset<Row>, maxRows: Option<nat>, rows: seq<Row>) {
    if maxRows.Some? then |rows| == maxRows.value
    else if d.Paged? then |rows| == d.expectedRows
    else rows != []
  }

  /** What a fetch cached satisfies the same request again exactly if the fetch got all that was asked for. */
  lemma OwnCacheHitsIff<Row>(d: Dataset<Row>, r: Request)
    ensures CacheSatisfiesRequest(d, NoteOf(r.maxRows), Some(|Fetched(d, r)|), r.maxRows)
       <==> Complete(d, r.maxRows, Fetched(d, r))
  {
    match d
    case Paged(source, expectedRows) =>
      assert r.maxRows.Some? ==> |Fetched(d, r)| <= r.maxRows.value;
    case Bfcl(categories) =>
  }

  /**
   * A limit is satisfied exactly by as many rows under no smaller limit, and with it every smaller one; a cache that
   * satisfies an unlimited request satisfies exactly the limits that it holds rows for; and none with a limit, or
   * without a note, satisfies an unlimited one.
   */
  lemma CacheCovers<Row>(d: Dataset<Row>, noted: Noted, rows: int, more: nat, fewer: nat)
    requires fewer <= more
    ensures CacheSatisfiesRequest(d, noted, Some(rows), Some(more)) <==>
              rows >= more && (noted.Limited? ==> noted.rows >= more)
    ensures CacheSatisfiesRequest(d, noted, Some(rows), Some(more)) ==>
              CacheSatisfiesRequest(d, noted, Some(rows), Some(fewer))
    ensures CacheSatisfiesRequest(d, noted, Some(rows), None) ==>
              noted.Unlimited? && (CacheSatisfiesRequest(d, noted, Some(rows), Some(more)) <==> more <= rows)
    ensures !CacheSatisfiesRequest(d, noted, None, Some(more)) && !CacheSatisfiesRequest(d, noted, None, None)
  {
  }
}
