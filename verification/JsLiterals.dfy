/**
 The JavaScript literal parsers of the call scorer, and the grammar of literals
 they read. `Syntax` is a literal together with its spelling (padding, quote
 marks, key style, trailing comma); `Print` writes it and `Meaning` is the value
 it denotes.
 */
module JsLiterals {
  import opened Text
  import opened TopLevelScan
  import opened Wrappers
  import opened Json

  // ----- The parsers ------------------------------------------------------

  const CONVERTIBLE_TYPES: set<string> :=
    {"String", "integer", "float", "Bigint", "Boolean", "dict", "array", "any"}

  predicate StartsWith(s: string, prefix: string) {
    prefix <= s
  }

  predicate EndsWith(s: string, c: char) {
    s != "" && s[|s| - 1] == c
  }

  function StripQuotes(value: string): Option<string> {
    if value != "" && IsQuote(value[0]) && EndsWith(value, value[0]) then
      Some(if |value| == 1 then "" else value[1..|value| - 1])
    else None
  }

  /** /^-?\d+$/ */
  predicate IsWhole(s: string) {
    var digits := if StartsWith(s, "-") then s[1..] else s;
    digits != "" && AllDigits(digits)
  }

  /** /^-?\d+n$/ */
  predicate IsBig(s: string) {
    EndsWith(s, 'n') && IsWhole(s[..|s| - 1])
  }

  /** /^-?\d+(\.\d+)?$/ */
  predicate IsFraction(s: string) {
    IsWhole(s) || exists k | 0 < k < |s| - 1 :: s[k] == '.' && IsWhole(s[..k]) && AllDigits(s[k + 1..])
  }

  function ParseInt(s: string): Value
    requires IsWhole(s)
  {
    if StartsWith(s, "-") then Integer(true, s[1..]) else Integer(false, s)
  }

  predicate IsNameStart(c: char) {
    'a' <= c <= 'z' || 'A' <= c <= 'Z' || c == '_' || c == '$'
  }

  /** /^[A-Za-z_$][\w$]*$/ */
  predicate IsName(s: string) {
    s != "" && IsNameStart(s[0]) && forall i | 0 <= i < |s| :: IsNameStart(s[i]) || IsDigit(s[i])
  }

  /** The capture of /^<open>(.*)<close>$/. */
  function Enclosed(s: string, open: char, close: char): Option<string> {
    if |s| >= 2 && s[0] == open && s[|s| - 1] == close && OneLine(s[1..|s| - 1]) then Some(s[1..|s| - 1])
    else None
  }

  /** The capture of /^new\s+Array\((.*)\)$/. */
  function NewArrayBody(s: string): Option<string> {
    if StartsWith(s, "new") && |s| > 3 && IsSpace(s[3]) then
      var rest := TrimStart(s[3..]);
      if StartsWith(rest, "Array") then Enclosed(rest[5..], '(', ')') else None
    else None
  }

  function ArrayBody(s: string): Option<string> {
    var bracket := Enclosed(s, '[', ']');
    if bracket.Some? then bracket else NewArrayBody(s)
  }

  function ParseJsScalar(value: string, nestedType: Option<string>): Value
    decreases |value|, 3, 0
  {
    var trimmed := Trim(value);
    if nestedType.Some? && nestedType.value in CONVERTIBLE_TYPES then
      ConvertJsValue(trimmed, nestedType.value, None)
    else if trimmed == "true" || trimmed == "false" then Bool(trimmed == "true")
    else if StartsWith(trimmed, "[") && EndsWith(trimmed, ']') then ParseJsArray(trimmed, None)
    else if StartsWith(trimmed, "{") && EndsWith(trimmed, '}') then ParseJsObject(trimmed)
    else
      var quoted := StripQuotes(trimmed);
      if quoted.Some? then Str(quoted.value)
      else if IsBig(trimmed) then ParseInt(trimmed[..|trimmed| - 1])
      else if IsWhole(trimmed) then ParseInt(trimmed)
      else if IsFraction(trimmed) then Rounded(trimmed)
      else Str(trimmed)
  }

  function ConvertJsValue(value: string, expectedType: string, nestedType: Option<string>): Value
    decreases |value|, 2, 0
  {
    match expectedType
    case "String" =>
      var quoted := StripQuotes(Trim(value));
      if quoted.Some? then Str(quoted.value) else Str(value)
    case "integer" => if IsWhole(value) then ParseInt(value) else Str(value)
    case "float" =>
      if IsWhole(value) then ParseInt(value) else if IsFraction(value) then Rounded(value) else Str(value)
    case "Bigint" => if IsBig(value) then ParseInt(value[..|value| - 1]) else Str(value)
    case "Boolean" => if value == "true" || value == "false" then Bool(value == "true") else Str(value)
    case "array" => ParseJsArray(value, nestedType)
    case "dict" => ParseJsObject(value)
    case _ => Str(value)
  }

  function ParseJsArray(value: string, nestedType: Option<string>): Value
    decreases |value|, 1, 0
  {
    var body := ArrayBody(Trim(value));
    if body.None? then Str(value)
    else if Trim(body.value) == "" then Arr([])
    else
      BodyShorter(value);
      SplitShorter(body.value);
      Arr(ParseAll(Split(body.value), nestedType, |value|))
  }

  /** The scalars of an array's items, each shorter than the array literal. */
  function ParseAll(items: seq<string>, nestedType: Option<string>, bound: nat): (values: seq<Value>)
    requires forall t | t in items :: |t| < bound
    decreases bound, 0, |items|
  {
    if items == [] then [] else [ParseJsScalar(items[0], nestedType)] + ParseAll(items[1..], nestedType, bound)
  }

  function ParseJsObject(value: string): Value
    decreases |value|, 1, 0
  {
    var body := Enclosed(Trim(value), '{', '}');
    if body.None? then Str(value)
    else
      SplitShorter(body.value);
      var parsed := ParsePairs(Split(body.value), map[], |value|);
      if parsed.None? then Str(value) else Obj(parsed.value)
  }

  function ParseKey(rawKey: string): Option<string> {
    var quoted := StripQuotes(rawKey);
    if quoted.Some? then quoted else if IsName(rawKey) then Some(rawKey) else None
  }

  /** The record filled from the pairs of an object's body, or None when a pair has no separator or key. */
  function ParsePairs(pairs: seq<string>, parsed: map<string, Value>, bound: nat): Option<map<string, Value>>
    requires forall t | t in pairs :: |t| < bound
    decreases bound, 0, |pairs|
  {
    if pairs == [] then Some(parsed)
    else
      var pair := pairs[0];
      var separator := SeparatorIndex(pair, ':');
      if separator == -1 then None
      else
        var key := ParseKey(Trim(pair[..separator]));
        if key.None? then None
        else
          var value := ParseJsScalar(Trim(pair[separator + 1..]), None);
          ParsePairs(pairs[1..], Assign(parsed, key.value, value), bound)
  }

  lemma BodyShorter(value: string)
    ensures var body := ArrayBody(Trim(value)); body.Some? ==> |body.value| < |value|
  {
  }

  // ----- The grammar of literals -------------------------------------------

  datatype Syntax =
    | Numeral(negative: bool, digits: string, big: bool)
    | Truth(b: bool)
    | Quoted(mark: char, body: string)
    | List(items: seq<Element>, tail: Option<string>)
    | Record(entries: seq<Entry>, tail: Option<string>)

  datatype Element = Element(before: string, value: Syntax, after: string)

  datatype Entry = Entry(
    before: string, key: Key, beforeColon: string, afterColon: string, value: Syntax, after: string)

  datatype Key =
    | QuotedKey(mark: char, body: string)
    | NameKey(name: string)

  predicate Padding(s: string) {
    Blank(s) && OneLine(s)
  }

  /** Inside quotes, every quote mark follows a backslash and the last character is not one. */
  predicate Closes(mark: char, escaped: bool, body: string)
    decreases body
  {
    if body == "" then !escaped
    else (body[0] == mark ==> escaped) && Closes(mark, body[0] == '\\', body[1..])
  }

  predicate ValidQuoted(mark: char, body: string) {
    IsQuote(mark) && OneLine(body) && Closes(mark, false, body)
  }

  predicate ValidTail(tail: Option<string>) {
    tail.Some? ==> Padding(tail.value)
  }

  predicate Valid(x: Syntax) {
    match x
    case Numeral(_, digits, _) => digits != "" && AllDigits(digits)
    case Truth(_) => true
    case Quoted(mark, body) => ValidQuoted(mark, body)
    case List(items, tail) =>
      ValidTail(tail) && forall e | e in items :: Padding(e.before) && Padding(e.after) && Valid(e.value)
    case Record(entries, tail) =>
      ValidTail(tail) && forall e | e in entries :: ValidKey(e.key) && ValidPads(e) && Valid(e.value)
  }

  predicate ValidKey(key: Key) {
    match key
    case QuotedKey(mark, body) => ValidQuoted(mark, body)
    case NameKey(name) => IsName(name)
  }

  predicate ValidPads(e: Entry) {
    Padding(e.before) && Padding(e.beforeColon) && Padding(e.afterColon) && Padding(e.after)
  }

  function Print(x: Syntax): string {
    match x
    case Numeral(negative, digits, big) =>
      (if negative then "-" else "") + digits + (if big then "n" else "")
    case Truth(b) => if b then "true" else "false"
    case Quoted(mark, body) => [mark] + body + [mark]
    case List(items, tail) => "[" + Join(PrintItems(items) + TailPiece(tail)) + "]"
    case Record(entries, tail) => "{" + Join(PrintEntries(entries) + TailPiece(tail)) + "}"
  }

  function TailPiece(tail: Option<string>): seq<string> {
    if tail.Some? then [tail.value] else []
  }

  function PrintItems(items: seq<Element>): (texts: seq<string>)
    ensures |texts| == |items|
  {
    if items == [] then []
    else [items[0].before + Print(items[0].value) + items[0].after] + PrintItems(items[1..])
  }

  function PrintKey(key: Key): string {
    match key
    case QuotedKey(mark, body) => [mark] + body + [mark]
    case NameKey(name) => name
  }

  function PrintPair(e: Entry): string {
    PrintKey(e.key) + e.beforeColon + ":" + e.afterColon + Print(e.value)
  }

  function PrintEntries(entries: seq<Entry>): (texts: seq<string>)
    ensures |texts| == |entries|
  {
    if entries == [] then []
    else
      [entries[0].before + PrintPair(entries[0]) + entries[0].after] + PrintEntries(entries[1..])
  }

  function Meaning(x: Syntax): Value
    requires Valid(x)
  {
    match x
    case Numeral(negative, digits, _) => Integer(negative, digits)
    case Truth(b) => Bool(b)
    case Quoted(_, body) => Str(body)
    case List(items, _) => Arr(Meanings(items))
    case Record(entries, _) => Obj(Fields(entries, map[]))
  }

  function Meanings(items: seq<Element>): seq<Value>
    requires forall e | e in items :: Valid(e.value)
  {
    if items == [] then [] else [Meaning(items[0].value)] + Meanings(items[1..])
  }

  function KeyName(key: Key): string {
    match key
    case QuotedKey(_, body) => body
    case NameKey(name) => name
  }

  /** Later entries overwrite earlier ones with the same key. */
  function Fields(entries: seq<Entry>, fields: map<string, Value>): map<string, Value>
    requires forall e | e in entries :: Valid(e.value)
  {
    if entries == [] then fields
    else Fields(entries[1..], Assign(fields, KeyName(entries[0].key), Meaning(entries[0].value)))
  }

  // ----- The reading loops -----------------------------------------------------------

  method ReadJsArray(value: string, nestedType: Option<string>) returns (parsed: Value)
    ensures parsed == ParseJsArray(value, nestedType)
  {
    hide Split, SeparatorIndex, Trim, ParseJsScalar, ArrayBody, ParseAll;
    var body := ArrayBody(Trim(value));
    if body.None? {
      return Str(value);
    }
    if Trim(body.value) == "" {
      return Arr([]);
    }
    BodyShorter(value);
    SplitShorter(body.value);
    var entries := SplitTopLevel(body.value);
    var items := ReadAll(entries, nestedType, |value|);
    return Arr(items);
  }

  method ReadAll(entries: seq<string>, nestedType: Option<string>, bound: nat) returns (items: seq<Value>)
    requires forall t | t in entries :: |t| < bound
    ensures items == ParseAll(entries, nestedType, bound)
  {
    hide ParseJsScalar;
    items := [];
    assert entries[0..] == entries;
    for i := 0 to |entries|
      invariant items + ParseAll(entries[i..], nestedType, bound) == ParseAll(entries, nestedType, bound)
    {
      assert entries[i..][0] == entries[i] && entries[i..][1..] == entries[i + 1..];
      items := items + [ParseJsScalar(entries[i], nestedType)];
    }
  }

  method ReadJsObject(value: string) returns (result: Value)
    ensures result == ParseJsObject(value)
  {
    var body := Enclosed(Trim(value), '{', '}');
    if body.None? {
      return Str(value);
    }
    SplitShorter(body.value);
    var pairs := SplitTopLevel(body.value);
    var parsed: map<string, Value> := map[];
    for i := 0 to |pairs|
      invariant ParsePairs(pairs[i..], parsed, |value|) == ParsePairs(pairs, map[], |value|)
    {
      var pair := pairs[i];
      assert pairs[i..][0] == pair && pairs[i..][1..] == pairs[i + 1..];
      var separator := TopLevelSeparatorIndex(pair, ':');
      if separator == -1 {
        return Str(value);
      }
      var key := ParseKey(Trim(pair[..separator]));
      if key.None? {
        return Str(value);
      }
      parsed := Assign(parsed, key.value, ParseJsScalar(Trim(pair[separator + 1..]), None));
    }
    return Obj(parsed);
  }
}
