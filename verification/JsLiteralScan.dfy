/** What the splitter sees of a printed literal: closed, tidy texts with no comma of their own. */
module JsLiteralScan {
  import opened Text
  import opened TopLevelScan
  import opened Wrappers
  import opened JsLiterals

  // ----- Scanning a printed literal ------------------------------------------

  /** A text whose scan ends where it began, never leaves its own bracket level and exposes no comma. */
  predicate Sealed(w: string) {
    Run(START, w) == START && Stays(START, w, 0) && Hides(START, w, ',')
  }

  lemma SealedAppend(a: string, b: string)
    requires Sealed(a) && Sealed(b)
    ensures Sealed(a + b)
  {
    RunAppend(START, a, b);
    StaysAppend(START, a, b, 0);
    HidesAppend(START, a, b, ',');
  }

  /** A character that is neither a quote, a bracket nor a comma. */
  predicate IsDull(c: char) {
    IsPlain(c) && c != ','
  }

  lemma {:induction false} DullSealed(w: string)
    requires forall i | 0 <= i < |w| :: IsDull(w[i])
    ensures Sealed(w)
  {
    if w != "" {
      DullSealed(w[1..]);
    }
  }

  lemma {:induction false} QuoteScan(mark: char, escaped: bool, body: string, depth: int, sep: char)
    requires Closes(mark, escaped, body)
    ensures Run(Inside(mark, escaped, depth), body) == Inside(mark, false, depth)
    ensures Stays(Inside(mark, escaped, depth), body, depth)
    ensures Hides(Inside(mark, escaped, depth), body, sep)
    decreases body
  {
    if body != "" {
      QuoteScan(mark, body[0] == '\\', body[1..], depth, sep);
    }
  }

  lemma QuotedSealed(mark: char, body: string)
    requires ValidQuoted(mark, body)
    ensures Sealed([mark] + body + [mark])
    ensures forall sep :: Hides(START, [mark] + body + [mark], sep)
  {
    var w := [mark] + body + [mark];
    assert w == [mark] + (body + [mark]) && w[1..] == body + [mark];
    var inside := Inside(mark, false, 0);
    forall sep ensures Hides(START, w, sep) {
      QuoteScan(mark, false, body, 0, sep);
      HidesAppend(inside, body, [mark], sep);
    }
    QuoteScan(mark, false, body, 0, ',');
    RunAppend(inside, body, [mark]);
    StaysAppend(inside, body, [mark], 0);
  }

  lemma OpenScan(open: char, rest: string)
    requires IsOpen(open)
    ensures Run(START, [open] + rest) == Run(Raise(START), rest)
    ensures Stays(START, [open] + rest, 0) <==> Stays(Raise(START), rest, 0)
    ensures Hides(START, [open] + rest, ',') <==> Hides(Raise(START), rest, ',')
  {
    assert ([open] + rest)[1..] == rest;
  }

  lemma CloseScan(close: char)
    requires IsClose(close)
    ensures Run(Raise(START), [close]) == START
    ensures Stays(Raise(START), [close], 0) && Hides(Raise(START), [close], ',')
  {
  }

  lemma BracketSealed(open: char, w: string, close: char)
    requires IsOpen(open) && IsClose(close)
    requires Run(START, w) == START && Stays(START, w, 0)
    ensures Sealed([open] + w + [close])
  {
    hide Run, Hides, Stays;
    var text := [open] + w + [close];
    assert text == [open] + (w + [close]) && text[1..] == w + [close];
    RaiseRun(START, w, 0);
    var inner := Raise(START);
    OpenScan(open, w + [close]);
    CloseScan(close);
    DeepHides(inner, w, ',');
    RunAppend(inner, w, [close]);
    StaysLower(inner, w, 1);
    StaysAppend(inner, w, [close], 0);
    HidesAppend(inner, w, [close], ',');
  }

  lemma {:induction false} StaysLower(s: Scan, w: string, d: int)
    requires Stays(s, w, d)
    ensures Stays(s, w, d - 1)
    decreases w
  {
    if w != "" {
      StaysLower(Step(s, w[0]), w[1..], d);
    }
  }

  lemma {:induction false} JoinScan(pieces: seq<string>)
    requires forall p | p in pieces :: Sealed(p)
    ensures Run(START, Join(pieces)) == START && Stays(START, Join(pieces), 0)
  {
    if |pieces| == 1 {
      assert pieces[0] in pieces;
    } else if |pieces| > 1 {
      assert pieces[0] in pieces;
      JoinScan(pieces[1..]);
      var rest := Join(pieces[1..]);
      var tail := "," + rest;
      assert Join(pieces) == pieces[0] + tail && tail[1..] == rest;
      assert Run(START, tail) == START && Stays(START, tail, 0);
      RunAppend(START, pieces[0], tail);
      StaysAppend(START, pieces[0], tail, 0);
    }
  }

  lemma {:induction false} JoinOneLine(pieces: seq<string>)
    requires forall p | p in pieces :: OneLine(p)
    ensures OneLine(Join(pieces))
  {
    if |pieces| == 1 {
      assert pieces[0] in pieces;
    } else if |pieces| > 1 {
      assert pieces[0] in pieces;
      JoinOneLine(pieces[1..]);
    }
  }

  lemma PaddingSealed(pad: string)
    requires Padding(pad)
    ensures Sealed(pad)
  {
    DullSealed(pad);
  }

  /** A printed literal is one sealed line that starts and ends with a visible character. */
  ghost predicate Tidy(w: string) {
    Sealed(w) && OneLine(w) && w != "" && Trimmed(w)
  }

  lemma {:induction false} PrintTidy(x: Syntax)
    requires Valid(x)
    ensures Tidy(Print(x))
    decreases x, 0
  {
    match x
    case Numeral(negative, digits, big) => DullSealed(Print(x));
    case Truth(b) => DullSealed(Print(x));
    case Quoted(mark, body) => QuotedSealed(mark, body);
    case List(items, tail) =>
      ItemsSealed(items);
      BodyTidy(PrintItems(items), tail, '[', ']');
    case Record(entries, tail) =>
      EntriesSealed(entries);
      BodyTidy(PrintEntries(entries), tail, '{', '}');
  }

  lemma BodyTidy(texts: seq<string>, tail: Option<string>, open: char, close: char)
    requires forall t | t in texts :: Sealed(t) && OneLine(t)
    requires ValidTail(tail) && IsOpen(open) && IsClose(close)
    ensures Tidy([open] + Join(texts + TailPiece(tail)) + [close])
    ensures OneLine(Join(texts + TailPiece(tail)))
  {
    if tail.Some? {
      PaddingSealed(tail.value);
    }
    var pieces := texts + TailPiece(tail);
    assert forall t | t in pieces :: Sealed(t) && OneLine(t);
    hide Join, Sealed, OneLine, TailPiece, ValidTail, Padding;
    JoinScan(pieces);
    JoinOneLine(pieces);
    BracketSealed(open, Join(pieces), close);
  }

  lemma PaddedSealed(before: string, w: string, after: string)
    requires Padding(before) && Padding(after) && Sealed(w) && OneLine(w)
    ensures Sealed(before + w + after) && OneLine(before + w + after)
  {
    PaddingSealed(before);
    PaddingSealed(after);
    SealedAppend(before, w);
    SealedAppend(before + w, after);
  }

  lemma {:induction false} ItemsSealed(items: seq<Element>)
    requires forall e | e in items :: Padding(e.before) && Padding(e.after) && Valid(e.value)
    ensures forall t | t in PrintItems(items) :: Sealed(t) && OneLine(t)
    decreases items, 1
  {
    if items != [] {
      var e := items[0];
      assert e in items;
      PrintTidy(e.value);
      PaddedSealed(e.before, Print(e.value), e.after);
      ItemsSealed(items[1..]);
    }
  }

  lemma {:induction false} EntriesSealed(entries: seq<Entry>)
    requires forall e | e in entries :: ValidKey(e.key) && ValidPads(e) && Valid(e.value)
    ensures forall t | t in PrintEntries(entries) :: Sealed(t) && OneLine(t)
    decreases entries, 1
  {
    if entries != [] {
      var e := entries[0];
      assert e in entries;
      PairTidy(e);
      PaddedSealed(e.before, PrintPair(e), e.after);
      EntriesSealed(entries[1..]);
    }
  }

  lemma {:induction false} PairTidy(e: Entry)
    requires ValidKey(e.key) && ValidPads(e) && Valid(e.value)
    ensures Tidy(PrintPair(e))
    ensures Hides(START, PrintKey(e.key) + e.beforeColon, ':') && Run(START, PrintKey(e.key) + e.beforeColon) == START
    decreases e, 0
  {
    PrintTidy(e.value);
    KeyTidy(e.key);
    PaddingSealed("");
    PaddedSealed("", PrintKey(e.key), e.beforeColon);
    PaddedSealed(e.afterColon, Print(e.value), "");
    DullSealed(":");
    var left, right := PrintKey(e.key) + e.beforeColon, e.afterColon + Print(e.value);
    assert "" + PrintKey(e.key) + e.beforeColon == left && right + "" == right;
    SealedAppend(left, ":");
    SealedAppend(left + ":", right);
    assert PrintPair(e) == left + ":" + right;
    DullHides(e.beforeColon, ':');
    HidesAppend(START, PrintKey(e.key), e.beforeColon, ':');
  }

  lemma KeyTidy(key: Key)
    requires ValidKey(key)
    ensures Tidy(PrintKey(key)) && Hides(START, PrintKey(key), ':')
  {
    match key
    case QuotedKey(mark, body) => QuotedSealed(mark, body);
    case NameKey(name) =>
      DullSealed(name);
      DullHides(name, ':');
  }

  lemma {:induction false} DullHides(w: string, sep: char)
    requires forall i | 0 <= i < |w| :: IsDull(w[i]) && w[i] != sep
    ensures Hides(START, w, sep)
  {
    if w != "" {
      DullHides(w[1..], sep);
    }
  }
}
