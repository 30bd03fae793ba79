/**
 The quote- and depth-aware scanners of the call scorer: splitting a literal's
 body at its top-level commas, and finding a top-level separator.
 */
module TopLevelScan {
  import opened Text
  import opened Wrappers

  /** Where a scan stands: outside quotes, or inside a quote whose last character may be a backslash. */
  datatype Scan =
    | Outside(depth: int)
    | Inside(quote: char, escaped: bool, depth: int)

  const START := Outside(0)

  predicate IsQuote(c: char) { c == '"' || c == '\'' }
  predicate IsOpen(c: char) { c == '[' || c == '{' || c == '(' }
  predicate IsClose(c: char) { c == ']' || c == '}' || c == ')' }
  predicate IsPlain(c: char) { !IsQuote(c) && !IsOpen(c) && !IsClose(c) }

  function Step(s: Scan, c: char): Scan {
    match s
    case Inside(quote, escaped, depth) =>
      if c == quote && !escaped then Outside(depth) else Inside(quote, c == '\\', depth)
    case Outside(depth) =>
      if IsQuote(c) then Inside(c, false, depth)
      else if IsOpen(c) then Outside(depth + 1)
      else if IsClose(c) then Outside(depth - 1)
      else s
  }

  function Run(s: Scan, w: string): Scan
    decreases w
  {
    if w == "" then s else Run(Step(s, w[0]), w[1..])
  }

  /** Position k of w holds `sep` outside all quotes and brackets. */
  predicate Exposed(w: string, k: nat, sep: char)
    requires k < |w|
  {
    w[k] == sep && IsPlain(sep) && Run(START, w[..k]) == START
  }

  /** Scanning w from s meets no exposed `sep`. */
  predicate Hides(s: Scan, w: string, sep: char)
    decreases w
  {
    w == "" || (!(s == START && w[0] == sep && IsPlain(sep)) && Hides(Step(s, w[0]), w[1..], sep))
  }

  /** Scanning w from s never drops below bracket depth d. */
  predicate Stays(s: Scan, w: string, d: int)
    decreases w
  {
    s.depth >= d && (w == "" || Stays(Step(s, w[0]), w[1..], d))
  }

  function Raise(s: Scan): Scan {
    s.(depth := s.depth + 1)
  }

  lemma {:induction false} RunAppend(s: Scan, a: string, b: string)
    ensures Run(s, a + b) == Run(Run(s, a), b)
    decreases a
  {
    if a == "" {
      assert a + b == b;
    } else {
      assert (a + b)[1..] == a[1..] + b;
      RunAppend(Step(s, a[0]), a[1..], b);
    }
  }

  lemma {:induction false} HidesAppend(s: Scan, a: string, b: string, sep: char)
    ensures Hides(s, a + b, sep) <==> Hides(s, a, sep) && Hides(Run(s, a), b, sep)
    decreases a
  {
    if a == "" {
      assert a + b == b;
    } else {
      assert (a + b)[1..] == a[1..] + b;
      HidesAppend(Step(s, a[0]), a[1..], b, sep);
    }
  }

  lemma {:induction false} StaysAppend(s: Scan, a: string, b: string, d: int)
    requires Stays(s, a, d) && Stays(Run(s, a), b, d)
    ensures Stays(s, a + b, d)
    decreases a
  {
    if a == "" {
      assert a + b == b;
    } else {
      assert (a + b)[1..] == a[1..] + b;
      StaysAppend(Step(s, a[0]), a[1..], b, d);
    }
  }

  /** Wrapping a text in a bracket shifts every state of its scan by one level. */
  lemma {:induction false} RaiseRun(s: Scan, w: string, d: int)
    ensures Run(Raise(s), w) == Raise(Run(s, w))
    ensures Stays(s, w, d) ==> Stays(Raise(s), w, d + 1)
    decreases w
  {
    if w != "" {
      assert Step(Raise(s), w[0]) == Raise(Step(s, w[0]));
      RaiseRun(Step(s, w[0]), w[1..], d);
    }
  }

  /** Nothing inside a bracket is exposed. */
  lemma {:induction false} DeepHides(s: Scan, w: string, sep: char)
    requires Stays(s, w, 1)
    ensures Hides(s, w, sep)
    decreases w
  {
    if w != "" {
      DeepHides(Step(s, w[0]), w[1..], sep);
    }
  }

  lemma {:induction false} HidesExposed(w: string, n: nat, sep: char)
    requires n <= |w|
    ensures Hides(START, w[..n], sep) <==> forall k | 0 <= k < n :: !Exposed(w, k, sep)
  {
    if n > 0 {
      HidesExposed(w, n - 1, sep);
      assert w[..n] == w[..n - 1] + [w[n - 1]];
      HidesAppend(START, w[..n - 1], [w[n - 1]], sep);
      assert Hides(Run(START, w[..n - 1]), [w[n - 1]], sep) <==> !Exposed(w, n - 1, sep);
    }
  }

  // ----- What the scan makes of a text -----

  const QUOTES := "\"'"
  const BRACKETS := "[{()]}"

  /** How often any of the characters occurs in the text. */
  function Occurrences(w: string, of: string): nat {
    if w == "" then 0 else Occurrences(w[..|w| - 1], of) + if w[|w| - 1] in of then 1 else 0
  }

  lemma MarksAre(c: char)
    ensures IsQuote(c) <==> c in QUOTES
    ensures IsOpen(c) <==> c in "[{("
    ensures IsClose(c) <==> c in ")]}"
    ensures !IsPlain(c) <==> c in QUOTES || c in BRACKETS
  {
    assert QUOTES[0] == '"' && QUOTES[1] == '\'';
    assert "[{("[0] == '[' && "[{("[1] == '{' && "[{("[2] == '(';
    assert ")]}"[0] == ')' && ")]}"[1] == ']' && ")]}"[2] == '}';
    assert BRACKETS == "[{(" + ")]}";
  }

  lemma SnocRun(w: string)
    requires w != ""
    ensures Run(START, w) == Step(Run(START, w[..|w| - 1]), w[|w| - 1])
  {
    var n := |w| - 1;
    assert w == w[..n] + [w[n]] && [w[n]][1..] == "";
    RunAppend(START, w[..n], [w[n]]);
  }

  /** Without quotes the depth is the number of opening brackets less the number of closing ones. */
  lemma {:induction false} DepthIs(w: string)
    requires forall c <- w :: c !in QUOTES
    ensures Run(START, w) == Outside(Occurrences(w, "[{(") - Occurrences(w, ")]}"))
  {
    if w != "" {
      SnocRun(w);
      MarksAre(w[|w| - 1]);
      DepthIs(w[..|w| - 1]);
    }
  }

  /** In a text without quotes a separator is exposed exactly where as many brackets have closed as opened. */
  lemma ExposedIff(w: string, k: nat, sep: char)
    requires k < |w| && forall c <- w[..k] :: c !in QUOTES
    ensures Exposed(w, k, sep) <==>
            && w[k] == sep && sep !in QUOTES && sep !in BRACKETS
            && Occurrences(w[..k], "[{(") == Occurrences(w[..k], ")]}")
  {
    DepthIs(w[..k]);
    MarksAre(sep);
  }

  /** From the opening quote to the first equal one that no backslash precedes, everything is skipped. */
  lemma {:induction false} QuoteSkipped(mark: char, body: string, depth: int)
    requires mark in QUOTES
    requires forall i :: 0 <= i < |body| && body[i] == mark ==> i > 0 && body[i - 1] == '\\'
    ensures Run(Outside(depth), [mark] + body) == Inside(mark, body != "" && body[|body| - 1] == '\\', depth)
    decreases |body|
  {
    MarksAre(mark);
    if body == "" {
      assert [mark] + body == [mark] && [mark][1..] == "";
    } else {
      var n := |body| - 1;
      assert [mark] + body == [mark] + body[..n] + [body[n]] && [body[n]][1..] == "";
      QuoteSkipped(mark, body[..n], depth);
      RunAppend(Outside(depth), [mark] + body[..n], [body[n]]);
    }
  }

  lemma QuoteEnds(mark: char, body: string, depth: int)
    requires mark in QUOTES && (body == "" || body[|body| - 1] != '\\')
    requires forall i :: 0 <= i < |body| && body[i] == mark ==> i > 0 && body[i - 1] == '\\'
    ensures Run(Outside(depth), [mark] + body + [mark]) == Outside(depth)
  {
    QuoteSkipped(mark, body, depth);
    assert [mark][1..] == "";
    RunAppend(Outside(depth), [mark] + body, [mark]);
  }

  /** The first exposed separator at or after `from`, or -1. */
  function FirstExposed(w: string, sep: char, from: nat): (k: int)
    requires from <= |w|
    ensures k == -1 ==> forall j | from <= j < |w| :: !Exposed(w, j, sep)
    ensures k != -1 ==> from <= k < |w| && Exposed(w, k, sep) && forall j | from <= j < k :: !Exposed(w, j, sep)
    decreases |w| - from
  {
    if from == |w| then -1
    else if Exposed(w, from, sep) then from
    else FirstExposed(w, sep, from + 1)
  }

  function SeparatorIndex(w: string, sep: char): (k: int)
    ensures k == -1 ==> Hides(START, w, sep)
    ensures k != -1 ==> 0 <= k < |w| && Exposed(w, k, sep) && Hides(START, w[..k], sep)
  {
    var k := FirstExposed(w, sep, 0);
    HidesExposed(w, if k == -1 then |w| else k, sep);
    assert w[..|w|] == w;
    k
  }

  /** The first exposed separator is where a hiding prefix ends. */
  lemma SeparatorAfter(a: string, sep: char, b: string)
    requires IsPlain(sep) && Hides(START, a, sep) && Run(START, a) == START
    ensures SeparatorIndex(a + [sep] + b, sep) == |a|
  {
    var w := a + [sep] + b;
    assert w[..|a|] == a;
    assert Exposed(w, |a|, sep);
    HidesExposed(w, |a|, sep);
  }

  /** The raw pieces between the exposed commas of w. */
  function Pieces(w: string): (pieces: seq<string>)
    ensures pieces != []
    decreases |w|
  {
    var k := SeparatorIndex(w, ',');
    if k == -1 then [w] else [w[..k]] + Pieces(w[k + 1..])
  }

  /** Trims every piece and drops the last one when nothing is left of it. */
  function Finish(pieces: seq<string>): (values: seq<string>)
    requires pieces != []
  {
    var head := Trim(pieces[0]);
    if |pieces| > 1 then [head] + Finish(pieces[1..])
    else if head == "" then []
    else [head]
  }

  function Split(w: string): seq<string> {
    Finish(Pieces(w))
  }

  /** No item is longer than the text it came from. */
  lemma {:induction false} SplitShorter(w: string)
    ensures forall v | v in Split(w) :: |v| <= |w|
    decreases |w|
  {
    var k := SeparatorIndex(w, ',');
    if k != -1 {
      SplitShorter(w[k + 1..]);
      assert Pieces(w)[1..] == Pieces(w[k + 1..]);
    }
  }

  function Join(pieces: seq<string>): string {
    if pieces == [] then ""
    else if |pieces| == 1 then pieces[0]
    else pieces[0] + "," + Join(pieces[1..])
  }

  /** A text that closes its quotes and brackets and exposes no comma. */
  predicate Whole(w: string) {
    Run(START, w) == START && Hides(START, w, ',')
  }

  /** Splitting into pieces loses nothing: joining them with commas restores the input. */
  lemma {:induction false} JoinPieces(w: string)
    ensures Join(Pieces(w)) == w
    ensures forall p | p in Pieces(w) :: Hides(START, p, ',')
    decreases |w|
  {
    var k := SeparatorIndex(w, ',');
    if k != -1 {
      JoinPieces(w[k + 1..]);
      assert w == w[..k] + "," + w[k + 1..];
      assert Pieces(w)[1..] == Pieces(w[k + 1..]);
    }
  }

  /** Joining whole texts and splitting again gives the same texts back. */
  lemma {:induction false} PiecesJoin(items: seq<string>)
    requires items != [] && forall t | t in items :: Whole(t)
    ensures Pieces(Join(items)) == items
  {
    var w := Join(items);
    assert items[0] in items;
    if |items| == 1 {
      HidesExposed(w, |w|, ',');
      assert w[..|w|] == w;
    } else {
      var rest := Join(items[1..]);
      assert w == items[0] + [','] + rest;
      SeparatorAfter(items[0], ',', rest);
      assert w[..|items[0]|] == items[0] && w[|items[0]| + 1..] == rest;
      PiecesJoin(items[1..]);
    }
  }

  lemma {:induction false} FinishTrimmed(items: seq<string>)
    requires items != [] && forall t | t in items :: Trimmed(t)
    ensures Finish(items) == if items[|items| - 1] == "" then items[..|items| - 1] else items
  {
    TrimOfTrimmed(items[0]);
    if |items| > 1 {
      FinishTrimmed(items[1..]);
    }
  }

  /** The splitter inverts joining exactly when the last item is not empty; an empty one is dropped. */
  lemma {:induction false} SplitJoin(items: seq<string>)
    requires items != [] && forall t | t in items :: Whole(t) && Trimmed(t)
    ensures Split(Join(items)) == items <==> items[|items| - 1] != ""
    ensures items[|items| - 1] == "" ==> Split(Join(items)) == items[..|items| - 1]
  {
    PiecesJoin(items);
    FinishTrimmed(items);
  }

  /** The state the scanning loops keep in `quote`, `depth` and the previous character. */
  function LoopState(input: string, index: nat, quote: Option<char>, depth: int): Scan
    requires quote.Some? ==> 0 < index <= |input|
  {
    if quote.Some? then Inside(quote.value, input[index - 1] == '\\', depth) else Outside(depth)
  }

  lemma ScanNext(input: string, from: nat, index: nat, sep: char)
    requires from <= index < |input|
    ensures Run(START, input[from..index + 1]) == Step(Run(START, input[from..index]), input[index])
    ensures Hides(START, input[from..index + 1], sep) <==>
            Hides(START, input[from..index], sep) &&
            !(Run(START, input[from..index]) == START && input[index] == sep && IsPlain(sep))
  {
    assert input[from..index + 1] == input[from..index] + [input[index]];
    RunAppend(START, input[from..index], [input[index]]);
    HidesAppend(START, input[from..index], [input[index]], sep);
  }

  method TopLevelSeparatorIndex(input: string, separator: char) returns (found: int)
    ensures found == SeparatorIndex(input, separator)
  {
    var quote: Option<char> := None;
    var depth := 0;
    var index := 0;
    while index < |input|
      invariant 0 <= index <= |input|
      invariant quote.Some? ==> index > 0
      invariant LoopState(input, index, quote, depth) == Run(START, input[..index])
      invariant Hides(START, input[..index], separator)
    {
      ScanNext(input, 0, index, separator);
      var c := input[index];
      if quote.Some? {
        if c == quote.value && input[index - 1] != '\\' {
          quote := None;
        }
      } else if IsQuote(c) {
        quote := Some(c);
      } else if IsOpen(c) {
        depth := depth + 1;
      } else if IsClose(c) {
        depth := depth - 1;
      } else if c == separator && depth == 0 {
        HidesExposed(input, index, separator);
        assert Exposed(input, index, separator);
        return index;
      }
      index := index + 1;
    }
    HidesExposed(input, |input|, separator);
    return -1;
  }

  /** An exposed comma at `index` ends the item that begins at `start`. */
  lemma SplitStep(input: string, start: nat, index: nat)
    requires start <= index < |input| && input[index] == ','
    requires Run(START, input[start..index]) == START
    requires Hides(START, input[start..index], ',')
    ensures Split(input[start..]) == [Trim(input[start..index])] + Split(input[index + 1..])
  {
    var rest, n := input[start..], index - start;
    assert rest == input[start..index] + [','] + input[index + 1..];
    SeparatorAfter(input[start..index], ',', input[index + 1..]);
    assert rest[..n] == input[start..index] && rest[n + 1..] == input[index + 1..];
    assert Pieces(rest)[1..] == Pieces(rest[n + 1..]);
  }

  lemma WholeTail(rest: string)
    requires Hides(START, rest, ',')
    ensures Split(rest) == if Trim(rest) == "" then [] else [Trim(rest)]
  {
    assert rest[..|rest|] == rest;
    HidesExposed(rest, |rest|, ',');
    assert Pieces(rest) == [rest];
  }

  method SplitTopLevel(input: string) returns (values: seq<string>)
    ensures values == Split(input)
  {
    hide Pieces, Finish, Split, SeparatorIndex, Trim;
    values := [];
    var start := 0;
    var quote: Option<char> := None;
    var depth := 0;
    var index := 0;
    while index < |input|
      invariant 0 <= start <= index <= |input|
      invariant quote.Some? ==> index > start
      invariant LoopState(input, index, quote, depth) == Run(START, input[start..index])
      invariant Hides(START, input[start..index], ',')
      invariant Split(input) == values + Split(input[start..])
    {
      ScanNext(input, start, index, ',');
      var c := input[index];
      if quote.Some? {
        if c == quote.value && input[index - 1] != '\\' {
          quote := None;
        }
      } else if IsQuote(c) {
        quote := Some(c);
      } else if IsOpen(c) {
        depth := depth + 1;
      } else if IsClose(c) {
        depth := depth - 1;
      } else if c == ',' && depth == 0 {
        SplitStep(input, start, index);
        assert values + ([Trim(input[start..index])] + Split(input[index + 1..]))
            == values + [Trim(input[start..index])] + Split(input[index + 1..]);
        values := values + [Trim(input[start..index])];
        start := index + 1;
        assert input[start..index + 1] == "";
      }
      index := index + 1;
    }
    assert input[start..|input|] == input[start..];
    var finalValue := Trim(input[start..]);
    WholeTail(input[start..]);
    if |finalValue| > 0 {
      values := values + [finalValue];
    }
  }
}
