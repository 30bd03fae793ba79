/** Reading back a printed literal gives the value it denotes. */
module JsLiteralRoundTrip {
  import opened Text
  import opened TopLevelScan
  import opened Wrappers
  import opened Json
  import opened JsLiterals
  import opened JsLiteralScan

  // ----- Parsing a printed literal ---------------------------------------------

  lemma WordScalar(text: string)
    requires Trim(text) == text && (text == "true" || text == "false")
    ensures ParseJsScalar(text, None) == Bool(text == "true")
  {
    hide Trim, ParseJsArray, ParseJsObject;
  }

  lemma QuotedScalar(mark: char, body: string)
    requires IsQuote(mark) && Trim([mark] + body + [mark]) == [mark] + body + [mark]
    ensures ParseJsScalar([mark] + body + [mark], None) == Str(body)
  {
    hide Trim, ParseJsArray, ParseJsObject, IsWhole, IsFraction, IsBig;
    var text := [mark] + body + [mark];
    assert "true"[0] == 't' && "false"[0] == 'f';
    assert text[0] == mark && text[1..|text| - 1] == body;
  }

  predicate LooksLikeArray(text: string) {
    StartsWith(text, "[") && EndsWith(text, ']')
  }

  predicate LooksLikeObject(text: string) {
    StartsWith(text, "{") && EndsWith(text, '}')
  }

  lemma BracketScalar(text: string)
    requires Trim(text) == text
    ensures LooksLikeArray(text) ==> ParseJsScalar(text, None) == ParseJsArray(text, None)
    ensures LooksLikeObject(text) ==> ParseJsScalar(text, None) == ParseJsObject(text)
  {
    hide Trim, ParseJsArray, ParseJsObject, IsWhole, IsFraction, IsBig, StripQuotes;
    assert "true"[0] == 't' && "false"[0] == 'f';
  }

  /** Reading back a literal of any valid spelling gives the value it denotes. */
  lemma {:induction false} RoundTrip(x: Syntax)
    requires Valid(x)
    ensures ParseJsScalar(Print(x), None) == Meaning(x)
    decreases x, 0
  {
    hide Run, Stays, Hides, Split, SeparatorIndex, Trim, ParseJsScalar, ParseJsArray, ParseJsObject, Join, ArrayBody;
    var text := Print(x);
    PrintTidy(x);
    TrimOfTrimmed(text);
    match x
    case Numeral(negative, digits, big) => NumeralRoundTrip(negative, digits, big);
    case Truth(b) => WordScalar(text);
    case Quoted(mark, body) => QuotedScalar(mark, body);
    case List(items, tail) =>
      BracketScalar(text);
      ListEnclosed(x);
      ListRoundTrip(x, text);
    case Record(entries, tail) =>
      BracketScalar(text);
      RecordRoundTrip(x, text);
  }

  /** A text that begins with a digit or a minus sign is none of the other literals. */
  lemma NumeralIsNoOther(text: string)
    requires text != "" && (text[0] == '-' || IsDigit(text[0]))
    ensures text != "true" && text != "false" && !LooksLikeArray(text) && !LooksLikeObject(text)
    ensures StripQuotes(text).None?
  {
    assert "true"[0] == 't' && "false"[0] == 'f';
  }

  lemma WholeIs(negative: bool, digits: string)
    requires digits != "" && AllDigits(digits)
    ensures var whole := (if negative then "-" else "") + digits;
      && IsWhole(whole) && ParseInt(whole) == Integer(negative, digits)
      && (whole[0] == '-' || IsDigit(whole[0])) && !EndsWith(whole, 'n')
  {
    hide Integer;
    var whole := (if negative then "-" else "") + digits;
    assert digits[0] != '-';
    if negative {
      assert whole[1..] == digits;
    } else {
      assert whole == digits;
    }
    assert whole[|whole| - 1] == digits[|digits| - 1];
  }

  lemma NumeralRoundTrip(negative: bool, digits: string, big: bool)
    requires digits != "" && AllDigits(digits)
    ensures var x := Numeral(negative, digits, big); ParseJsScalar(Print(x), None) == Meaning(x)
  {
    hide Run, Stays, Hides, Split, Pieces, Finish, SeparatorIndex, FirstExposed, ParseJsArray, ParseJsObject, Trim;
    hide IsWhole, ParseInt, StripQuotes, Integer;
    var whole := (if negative then "-" else "") + digits;
    var text := whole + (if big then "n" else "");
    assert text == Print(Numeral(negative, digits, big));
    PrintTidy(Numeral(negative, digits, big));
    TrimOfTrimmed(text);
    WholeIs(negative, digits);
    assert text[0] == whole[0];
    NumeralIsNoOther(text);
    if big {
      assert text[..|text| - 1] == whole;
    } else {
      assert text == whole;
    }
  }

  /** The body of a bracketed list of texts splits back into the texts, trimmed, without the blank tail. */
  lemma SplitBody(texts: seq<string>, tail: Option<string>)
    requires forall t | t in texts :: Sealed(t) && Trim(t) != ""
    requires ValidTail(tail)
    ensures Split(Join(texts + TailPiece(tail))) == TrimEach(texts)
  {
    var pieces := texts + TailPiece(tail);
    if tail.Some? {
      PaddingSealed(tail.value);
      TrimBlank(tail.value);
    }
    if pieces == [] {
      assert Join(pieces) == "";
      WholeTail("");
    } else {
      PiecesJoin(pieces);
      FinishTail(texts, tail);
    }
  }

  function TrimEach(texts: seq<string>): (trimmed: seq<string>)
    ensures |trimmed| == |texts|
    ensures forall t | t in trimmed :: exists u :: u in texts && t == Trim(u)
  {
    if texts == [] then [] else [Trim(texts[0])] + TrimEach(texts[1..])
  }

  lemma {:induction false} FinishTail(texts: seq<string>, tail: Option<string>)
    requires forall t | t in texts :: Trim(t) != ""
    requires tail.Some? ==> Trim(tail.value) == ""
    requires texts + TailPiece(tail) != []
    ensures Finish(texts + TailPiece(tail)) == TrimEach(texts)
  {
    if texts != [] {
      assert texts[0] in texts;
      if |texts + TailPiece(tail)| > 1 {
        assert (texts + TailPiece(tail))[1..] == texts[1..] + TailPiece(tail);
        FinishTail(texts[1..], tail);
      }
    }
  }

  lemma {:induction false} JoinVisible(pieces: seq<string>)
    requires pieces != [] && Trim(pieces[0]) != ""
    ensures Trim(Join(pieces)) != ""
  {
    var w := Join(pieces);
    TrimEmpty(pieces[0]);
    TrimEmpty(w);
    var i :| 0 <= i < |pieces[0]| && !IsSpace(pieces[0][i]);
    assert w[i] == pieces[0][i];
  }

  lemma {:induction false} ItemsVisible(items: seq<Element>)
    requires forall e | e in items :: Padding(e.before) && Padding(e.after) && Valid(e.value)
    ensures forall t | t in PrintItems(items) :: Sealed(t) && OneLine(t) && Trim(t) != ""
    ensures |TrimEach(PrintItems(items))| == |items|
    ensures forall i | 0 <= i < |items| :: TrimEach(PrintItems(items))[i] == Print(items[i].value)
  {
    ItemsSealed(items);
    if items != [] {
      var e := items[0];
      assert e in items;
      PrintTidy(e.value);
      TrimPadded(e.before, Print(e.value), e.after);
      ItemsVisible(items[1..]);
    }
  }

  function ListBody(x: Syntax): string
    requires x.List?
  {
    Join(PrintItems(x.items) + TailPiece(x.tail))
  }

  /** Where a printed list is read, its items are read one by one from their own texts. */
  lemma ListRead(x: Syntax, value: string, nestedType: Option<string>) returns (texts: seq<string>)
    requires Valid(x) && x.List? && ArrayBody(Trim(value)) == Some(ListBody(x))
    ensures |texts| == |x.items| && forall i | 0 <= i < |x.items| :: texts[i] == Print(x.items[i].value)
    ensures forall t | t in texts :: |t| < |value|
    ensures ParseJsArray(value, nestedType) == Arr(ParseAll(texts, nestedType, |value|))
  {
    hide Run, Stays, Hides, Split, Pieces, Finish, SeparatorIndex, FirstExposed;
    hide ParseJsScalar, ConvertJsValue, Trim, ArrayBody;
    var printed, body := PrintItems(x.items), ListBody(x);
    texts := Split(body);
    ItemsVisible(x.items);
    SplitBody(printed, x.tail);
    BodyShorter(value);
    SplitShorter(body);
    if x.items == [] {
      assert printed == [];
      assert body == if x.tail.Some? then x.tail.value else "";
      TrimBlank(body);
    } else {
      assert printed[0] in printed;
      JoinVisible(printed + TailPiece(x.tail));
    }
  }

  lemma {:induction false} ListRoundTrip(x: Syntax, value: string)
    requires Valid(x) && x.List? && ArrayBody(Trim(value)) == Some(ListBody(x))
    ensures ParseJsArray(value, None) == Meaning(x)
    decreases x, -1
  {
    hide ParseAll, ParseJsArray, ArrayBody, Trim, Print, ListBody;
    var texts := ListRead(x, value, None);
    AllRoundTrip(x.items, texts, |value|);
  }

  lemma ListEnclosed(x: Syntax)
    requires Valid(x) && x.List?
    ensures ArrayBody(Print(x)) == Some(ListBody(x)) && OneLine(ListBody(x))
  {
    ItemsVisible(x.items);
    BodyTidy(PrintItems(x.items), x.tail, '[', ']');
    assert Print(x)[1..|Print(x)| - 1] == ListBody(x);
  }

  lemma {:induction false} AllRoundTrip(items: seq<Element>, texts: seq<string>, bound: nat)
    requires |texts| == |items|
    requires forall i | 0 <= i < |items| :: Valid(items[i].value) && texts[i] == Print(items[i].value)
    requires forall t | t in texts :: |t| < bound
    ensures ParseAll(texts, None, bound) == Meanings(items)
    decreases items, 1
  {
    if items != [] {
      assert items[0] in items && texts[0] in texts;
      RoundTrip(items[0].value);
      AllRoundTrip(items[1..], texts[1..], bound);
    }
  }

  lemma {:induction false} EntriesVisible(entries: seq<Entry>)
    requires forall e | e in entries :: ValidKey(e.key) && ValidPads(e) && Valid(e.value)
    ensures forall t | t in PrintEntries(entries) :: Sealed(t) && OneLine(t) && Trim(t) != ""
    ensures |TrimEach(PrintEntries(entries))| == |entries|
    ensures forall i | 0 <= i < |entries| :: TrimEach(PrintEntries(entries))[i] == PrintPair(entries[i])
  {
    hide Run, Stays, Hides, Split, Pieces, Finish, SeparatorIndex, FirstExposed, Trim, PrintPair, Valid;
    EntriesSealed(entries);
    if entries != [] {
      var e := entries[0];
      assert e in entries;
      PairTidy(e);
      TrimPadded(e.before, PrintPair(e), e.after);
      EntriesVisible(entries[1..]);
    }
  }

  lemma {:induction false} RecordRoundTrip(x: Syntax, value: string)
    requires Valid(x) && x.Record? && Trim(value) == Print(x)
    ensures ParseJsObject(value) == Meaning(x)
    decreases x, -1
  {
    hide Run, Stays, Hides, Split, Pieces, Finish, SeparatorIndex, FirstExposed, ParseJsScalar, ConvertJsValue, Trim;
    var texts, text := PrintEntries(x.entries), Print(x);
    EntriesVisible(x.entries);
    BodyTidy(texts, x.tail, '{', '}');
    var body := Join(texts + TailPiece(x.tail));
    assert text[1..|text| - 1] == body;
    SplitBody(texts, x.tail);
    SplitShorter(body);
    PairsRoundTrip(x.entries, Split(body), map[], |value|);
  }

  lemma KeyRoundTrip(key: Key)
    requires ValidKey(key)
    ensures ParseKey(PrintKey(key)) == Some(KeyName(key))
  {
    match key
    case QuotedKey(mark, body) => assert PrintKey(key)[1..|PrintKey(key)| - 1] == body;
    case NameKey(name) =>
  }

  /** The first top-level colon of a printed pair is its own, and splits it into key and value. */
  lemma PairSplit(e: Entry)
    requires ValidKey(e.key) && ValidPads(e) && Valid(e.value)
    ensures var pair, k := PrintPair(e), |PrintKey(e.key) + e.beforeColon|;
            && SeparatorIndex(pair, ':') == k < |pair|
            && Trim(pair[..k]) == PrintKey(e.key) && Trim(pair[k + 1..]) == Print(e.value)
  {
    hide Run, Stays, Print, PrintKey;
    var pair := PrintPair(e);
    var left, right := PrintKey(e.key) + e.beforeColon, e.afterColon + Print(e.value);
    PairTidy(e);
    KeyTidy(e.key);
    PrintTidy(e.value);
    assert pair == left + [':'] + right;
    SeparatorAfter(left, ':', right);
    assert pair[..|left|] == left && pair[|left| + 1..] == right;
    TrimPadded("", PrintKey(e.key), e.beforeColon);
    TrimPadded(e.afterColon, Print(e.value), "");
    assert "" + PrintKey(e.key) + e.beforeColon == left && right + "" == right;
  }

  lemma {:induction false} PairsRoundTrip(
    entries: seq<Entry>, texts: seq<string>, parsed: map<string, Value>, bound: nat)
    requires |texts| == |entries|
    requires forall e | e in entries :: ValidKey(e.key) && ValidPads(e) && Valid(e.value)
    requires forall i | 0 <= i < |entries| :: texts[i] == PrintPair(entries[i])
    requires forall t | t in texts :: |t| < bound
    ensures ParsePairs(texts, parsed, bound) == Some(Fields(entries, parsed))
    decreases entries, 1
  {
    hide Run, Stays, Hides, Print, PrintKey, PrintPair, ParseJsScalar, Trim, SeparatorIndex, ParseKey, Valid, Meaning;
    if entries != [] {
      var e, pair := entries[0], texts[0];
      assert e in entries && pair in texts;
      PairSplit(e);
      PrintTidy(e.value);
      KeyRoundTrip(e.key);
      RoundTrip(e.value);
      PairsRoundTrip(entries[1..], texts[1..], Assign(parsed, KeyName(e.key), Meaning(e.value)), bound);
    }
  }

  // ----- Consequences ------------------------------------------------------------

  /** Padding around a literal does not change what it reads as. */
  lemma PaddedRoundTrip(before: string, x: Syntax, after: string)
    requires Valid(x) && Blank(before) && Blank(after)
    ensures ParseJsScalar(before + Print(x) + after, None) == Meaning(x)
    ensures x.List? ==> ConvertJsValue(before + Print(x) + after, "array", None) == Meaning(x)
    ensures x.Record? ==> ConvertJsValue(before + Print(x) + after, "dict", None) == Meaning(x)
  {
    hide *;
    PrintTidy(x);
    TrimPadded(before, Print(x), after);
    TrimOfTrimmed(Print(x));
    RoundTrip(x);
    ScalarOfTrim(before + Print(x) + after, Print(x));
    if x.List? {
      ListEnclosed(x);
      ListRoundTrip(x, before + Print(x) + after);
      ConvertedByName(before + Print(x) + after);
    } else if x.Record? {
      RecordRoundTrip(x, before + Print(x) + after);
      ConvertedByName(before + Print(x) + after);
    }
  }

  lemma ScalarOfTrim(value: string, text: string)
    requires Trim(value) == text == Trim(text)
    ensures ParseJsScalar(value, None) == ParseJsScalar(text, None)
  {
    hide Trim, ParseJsArray, ParseJsObject, IsFraction, IsWhole, IsBig, StripQuotes;
  }

  lemma ConvertedByName(value: string)
    ensures ConvertJsValue(value, "array", None) == ParseJsArray(value, None)
    ensures ConvertJsValue(value, "dict", None) == ParseJsObject(value)
  {
    hide ParseJsArray, ParseJsObject;
  }

  lemma NewArraySpelled(space: string, body: string)
    requires Blank(space) && space != "" && OneLine(body)
    ensures var text := "new" + space + "Array(" + body + ")";
      Trim(text) == text && ArrayBody(text) == Some(body)
  {
    hide Trim, OneLine, Blank;
    var rest := "Array(" + body + ")";
    var text := "new" + space + rest;
    assert text == "new" + space + "Array(" + body + ")";
    assert text[3..] == space + rest;
    TrimStartPadded(space, rest);
    assert rest[5..] == "(" + body + ")";
    assert rest[5..][1..|rest[5..]| - 1] == body;
    TrimOfTrimmed(text);
  }

  /** The constructor spelling of an array reads like the bracket spelling. */
  lemma NewArrayRoundTrip(x: Syntax, space: string)
    requires Valid(x) && x.List? && Blank(space) && space != ""
    ensures ConvertJsValue("new" + space + "Array(" + ListBody(x) + ")", "array", None) == Meaning(x)
  {
    hide Run, Stays, Hides, Split, SeparatorIndex, Trim, ParseJsArray, ListBody, Meaning, Print, Valid, ArrayBody;
    ListEnclosed(x);
    NewArraySpelled(space, ListBody(x));
    ListRoundTrip(x, "new" + space + "Array(" + ListBody(x) + ")");
  }

  /** The scalar type under which a literal may be declared, if it has one. */
  function ScalarType(x: Syntax): Option<string> {
    match x
    case Numeral(_, _, big) => Some(if big then "Bigint" else "integer")
    case Truth(_) => Some("Boolean")
    case Quoted(_, _) => Some("String")
    case _ => None
  }

  /** Read under its declared scalar type, with any padding, a literal still gives the value it denotes. */
  lemma {:induction false} TypedRoundTrip(before: string, x: Syntax, after: string)
    requires Valid(x) && ScalarType(x).Some? && Blank(before) && Blank(after)
    ensures ParseJsScalar(before + Print(x) + after, ScalarType(x)) == Meaning(x)
  {
    hide Print, Meaning, Valid, ScalarType, Trim, ParseJsScalar, ConvertJsValue, Sealed;
    var text := Print(x);
    PrintTidy(x);
    TrimPadded(before, text, after);
    ScalarConverted(x);
    TypedIsConverted(before + text + after, ScalarType(x).value);
  }

  lemma ScalarConverted(x: Syntax)
    requires Valid(x) && ScalarType(x).Some?
    ensures ScalarType(x).value in ["Bigint", "integer", "Boolean", "String"]
    ensures ConvertJsValue(Print(x), ScalarType(x).value, None) == Meaning(x)
  {
    hide ConvertJsValue, Print;
    match x
    case Numeral(negative, digits, big) => NumeralConverted(negative, digits, big);
    case Truth(b) => TruthConverted(b);
    case Quoted(mark, body) => QuotedConverted(mark, body);
  }

  lemma NumeralConverted(negative: bool, digits: string, big: bool)
    requires digits != "" && AllDigits(digits)
    ensures ConvertJsValue(Print(Numeral(negative, digits, big)), if big then "Bigint" else "integer", None)
         == Integer(negative, digits)
  {
    hide IsWhole, ParseInt, Trim, IsFraction, ParseJsArray, ParseJsObject;
    var text, whole := Print(Numeral(negative, digits, big)), (if negative then "-" else "") + digits;
    WholeIs(negative, digits);
    if big {
      assert text == whole + "n" && text[..|text| - 1] == whole;
    } else {
      assert text == whole + "" == whole;
    }
    hide Print;
  }

  lemma TruthConverted(b: bool)
    ensures ConvertJsValue(Print(Truth(b)), "Boolean", None) == Bool(b)
  {
  }

  lemma QuotedConverted(mark: char, body: string)
    requires ValidQuoted(mark, body)
    ensures ConvertJsValue(Print(Quoted(mark, body)), "String", None) == Str(body)
  {
    hide Trim, ParseJsArray, ParseJsObject, Sealed;
    var text := Print(Quoted(mark, body));
    assert text[1..|text| - 1] == body && text[0] == mark == text[|text| - 1];
    PrintTidy(Quoted(mark, body));
    TrimOfTrimmed(text);
  }

  lemma TypedIsConverted(value: string, kind: string)
    requires kind in ["Bigint", "integer", "Boolean", "String"]
    ensures ParseJsScalar(value, Some(kind)) == ConvertJsValue(Trim(value), kind, None)
  {
    hide Trim, ConvertJsValue;
  }

  /** An array whose items are of a declared type is read item by item under that type. */
  lemma DeclaredItems(x: Syntax, value: string, kind: string)
    requires Valid(x) && x.List? && ArrayBody(Trim(value)) == Some(ListBody(x)) && kind in CONVERTIBLE_TYPES
    ensures var parsed := ParseJsArray(value, Some(kind));
      && parsed.Arr? && |parsed.items| == |x.items|
      && forall i :: 0 <= i < |x.items| ==> parsed.items[i] == ConvertJsValue(Print(x.items[i].value), kind, None)
  {
    hide ParseAll, ParseJsArray, ArrayBody, Trim, Print, ListBody, ConvertJsValue;
    var texts := ListRead(x, value, Some(kind));
    AllDeclared(x.items, texts, kind, |value|);
  }

  lemma {:induction false} AllDeclared(items: seq<Element>, texts: seq<string>, kind: string, bound: nat)
    requires |texts| == |items| && kind in CONVERTIBLE_TYPES
    requires forall i | 0 <= i < |items| :: Valid(items[i].value) && texts[i] == Print(items[i].value)
    requires forall t | t in texts :: |t| < bound
    ensures var values := ParseAll(texts, Some(kind), bound);
      |values| == |items| && forall i | 0 <= i < |items| :: values[i] == ConvertJsValue(texts[i], kind, None)
  {
    hide ConvertJsValue, Trim, Print;
    if items != [] {
      assert items[0] in items && texts[0] in texts;
      PrintTidy(items[0].value);
      TrimOfTrimmed(texts[0]);
      AllDeclared(items[1..], texts[1..], kind, bound);
    }
  }

  /** With items declared of their own type, the array still denotes what it spells. */
  lemma DeclaredListRoundTrip(x: Syntax, kind: string)
    requires Valid(x) && x.List? && kind in CONVERTIBLE_TYPES
    requires forall i :: 0 <= i < |x.items| ==> ScalarType(x.items[i].value) == Some(kind)
    ensures ConvertJsValue(Print(x), "array", Some(kind)) == Meaning(x)
  {
    hide Run, Stays, Hides, Split, SeparatorIndex, Trim, ParseJsScalar, ParseJsArray, ParseJsObject, Print, ArrayBody;
    PrintTidy(x);
    TrimOfTrimmed(Print(x));
    ListEnclosed(x);
    DeclaredItems(x, Print(x), kind);
    MeaningsAt(x.items);
    forall i | 0 <= i < |x.items|
      ensures ConvertJsValue(Print(x.items[i].value), kind, None) == Meaning(x.items[i].value)
    {
      var item := x.items[i].value;
      assert x.items[i] in x.items && "" + Print(item) + "" == Print(item);
      PrintTidy(item);
      TrimOfTrimmed(Print(item));
      TypedRoundTrip("", item, "");
      TypedIsConverted(Print(item), kind);
    }
    hide ConvertJsValue;
    ArrayByName(Print(x), Some(kind));
    assert ParseJsArray(Print(x), Some(kind)).items == Meanings(x.items);
  }

  lemma ArrayByName(value: string, nested: Option<string>)
    ensures ConvertJsValue(value, "array", nested) == ParseJsArray(value, nested)
  {
    hide ParseJsArray, ParseJsObject;
  }

  lemma {:induction false} MeaningsAt(items: seq<Element>)
    requires forall e | e in items :: Valid(e.value)
    ensures |Meanings(items)| == |items|
    ensures forall i :: 0 <= i < |items| ==> items[i] in items && Meanings(items)[i] == Meaning(items[i].value)
  {
    hide Valid, Meaning;
    if items != [] {
      MeaningsAt(items[1..]);
    }
  }

  /** The grammar is unambiguous: one spelling denotes one value. */
  lemma SpellingDeterminesMeaning(x: Syntax, y: Syntax)
    requires Valid(x) && Valid(y) && Print(x) == Print(y)
    ensures Meaning(x) == Meaning(y)
  {
    RoundTrip(x);
    RoundTrip(y);
  }

  predicate WithoutMark(mark: char, body: string) {
    forall i | 0 <= i < |body| :: body[i] != mark && body[i] != '\\'
  }

  /** Strings without the quote mark, backslashes and line breaks can be written between that mark. */
  lemma {:induction false} PlainStringValid(mark: char, body: string)
    requires IsQuote(mark) && OneLine(body) && WithoutMark(mark, body)
    ensures Valid(Quoted(mark, body))
  {
    PlainCloses(mark, body);
  }

  lemma {:induction false} PlainCloses(mark: char, body: string)
    requires WithoutMark(mark, body)
    ensures Closes(mark, false, body)
  {
    if body != "" {
      PlainCloses(mark, body[1..]);
    }
  }

  /** A record literal keeps every key it spells, except `__proto__`. */
  lemma {:induction false} FieldsKeys(entries: seq<Entry>, fields: map<string, Value>)
    requires forall e | e in entries :: Valid(e.value)
    ensures Fields(entries, fields).Keys
         == fields.Keys + (set e | e in entries && KeyName(e.key) != "__proto__" :: KeyName(e.key))
  {
    if entries != [] {
      var e := entries[0];
      FieldsKeys(entries[1..], Assign(fields, KeyName(e.key), Meaning(e.value)));
    }
  }
}
