/** What any text reads as in the scorer's JavaScript parsers: numerals, quoted texts, and all that stays text. */
module JsTexts {
  import opened Text
  import opened TopLevelScan
  import opened Wrappers
  import opened Json
  import opened JsLiterals
  import opened JsLiteralRoundTrip

  // ----- Numerals -----

  /** A sign, if any, and digits. */
  ghost predicate Whole(s: string) {
    exists negative, digits :: WholeBy(s, negative, digits)
  }

  predicate WholeBy(s: string, negative: bool, digits: string) {
    |digits| > 0 && AllDigits(digits) && s == (if negative then "-" + digits else digits)
  }

  ghost predicate Fraction(s: string) {
    exists whole, digits :: FractionBy(s, whole, digits)
  }

  ghost predicate FractionBy(s: string, whole: string, digits: string) {
    Whole(whole) && |digits| > 0 && AllDigits(digits) && s == whole + "." + digits
  }

  lemma WholeIff(s: string)
    ensures IsWhole(s) <==> Whole(s)
  {
    if IsWhole(s) {
      if StartsWith(s, "-") {
        assert s == "-" + s[1..];
        assert WholeBy(s, true, s[1..]);
      } else {
        assert WholeBy(s, false, s);
      }
    }
    if negative, digits :| WholeBy(s, negative, digits) {
      assert !negative ==> IsDigit(s[0]);
      assert negative ==> s[1..] == digits;
    }
  }

  lemma BigIff(s: string)
    ensures IsBig(s) <==> exists whole :: Whole(whole) && s == whole + "n"
  {
    hide Whole, IsWhole;
    if s != "" {
      WholeIff(s[..|s| - 1]);
      assert s[|s| - 1] == 'n' ==> s == s[..|s| - 1] + "n";
    }
    if whole :| Whole(whole) && s == whole + "n" {
      assert s[..|s| - 1] == whole;
    }
  }

  lemma FractionIff(s: string)
    ensures IsFraction(s) <==> Whole(s) || Fraction(s)
  {
    hide Whole, IsWhole;
    WholeIff(s);
    if k :| 0 < k < |s| - 1 && s[k] == '.' && IsWhole(s[..k]) && AllDigits(s[k + 1..]) {
      WholeIff(s[..k]);
      assert s == s[..k] + "." + s[k + 1..];
      assert FractionBy(s, s[..k], s[k + 1..]);
    }
    if whole, digits :| FractionBy(s, whole, digits) {
      var k := |whole|;
      WholeIff(whole);
      WholeHasInk(whole);
      assert s[..k] == whole && s[k + 1..] == digits && s[k] == '.';
    }
  }

  lemma WholeHasInk(whole: string)
    requires IsWhole(whole)
    ensures whole != ""
  {
  }

  // ----- Quotes and names -----

  /** The text between two equal quote marks; a lone mark counts as an empty pair. */
  ghost predicate QuotedText(s: string, text: string) {
    exists mark :: IsQuote(mark) && (s == [mark] + text + [mark] || (s == [mark] && text == ""))
  }

  lemma QuotesIff(s: string, text: string)
    ensures StripQuotes(s) == Some(text) <==> QuotedText(s, text)
  {
    if StripQuotes(s) == Some(text) {
      var mark := s[0];
      if |s| > 1 {
        assert s == [mark] + s[1..|s| - 1] + [mark];
      }
    }
    if mark :| IsQuote(mark) && s == [mark] + text + [mark] {
      assert s[1..|s| - 1] == text;
    }
  }

  predicate NameLetter(c: char) {
    || 'a' as int <= c as int < 'a' as int + 26
    || 'A' as int <= c as int < 'A' as int + 26
    || c == '_' || c == '$'
  }

  /** Names begin with a letter, an underscore or a dollar sign and may go on with digits too. */
  lemma NameIff(s: string)
    ensures IsName(s) <==>
              && s != "" && NameLetter(s[0])
              && forall k :: 0 <= k < |s| ==> NameLetter(s[k]) || '0' as int <= s[k] as int < '0' as int + 10
  {
  }

  // ----- Scalars -----

  /** Between an opening and a closing character, possibly the same text on both. */
  predicate Fenced(s: string, open: char, close: char) {
    |s| > 0 && s[0] == open && s[|s| - 1] == close
  }

  lemma FencedIff(s: string, open: char, close: char)
    ensures Fenced(s, open, close) <==> StartsWith(s, [open]) && EndsWith(s, close)
  {
  }

  /** A numeral reads as the number it denotes as far as doubles hold every integer, and not beyond. */
  lemma IntegerIs(negative: bool, digits: string)
    requires AllDigits(digits)
    ensures var n: int := Text.Value(digits);
      Integer(negative, digits)
      == if n <= 9007199254740991 then Number(if negative then 0 - n else n)
         else Rounded(if negative then "-" + digits else digits)
  {
    assert "" + digits == digits;
  }

  /** What a scalar without a declared type reads as, from its text without the padding. */
  lemma ScalarIs(value: string)
    ensures var text := Trim(value);
      && (text == "true" ==> ParseJsScalar(value, None) == Bool(true))
      && (text == "false" ==> ParseJsScalar(value, None) == Bool(false))
      && (text != "true" && text != "false" ==>
            && (Fenced(text, '[', ']') ==> ParseJsScalar(value, None) == ParseJsArray(text, None))
            && (Fenced(text, '{', '}') ==> ParseJsScalar(value, None) == ParseJsObject(text))
            && (!Fenced(text, '[', ']') && !Fenced(text, '{', '}') ==>
                  ReadsPlain(text, ParseJsScalar(value, None))))
  {
    hide ParseJsArray, ParseJsObject, IsFraction, IsWhole, IsBig, StripQuotes, ReadsPlain, Trim;
    var text := Trim(value);
    FencedIff(text, '[', ']');
    FencedIff(text, '{', '}');
    PlainIs(text);
  }

  /** Quoted text, an integer with or without its suffix, a decimal fraction, or else the text itself. */
  ghost predicate ReadsPlain(text: string, value: Value) {
    || (exists inner :: QuotedText(text, inner) && value == Str(inner))
    || (IsUnquoted(text)
        && (|| (exists negative, digits :: Numeral(text, negative, digits) && value == Integer(negative, digits))
            || (Fraction(text) && value == Rounded(text))
            || (IsWord(text) && value == Str(text))))
  }

  ghost predicate IsUnquoted(text: string) {
    forall inner :: !QuotedText(text, inner)
  }

  ghost predicate Numeral(text: string, negative: bool, digits: string) {
    || WholeBy(text, negative, digits)
    || (text != "" && text[|text| - 1] == 'n' && WholeBy(text[..|text| - 1], negative, digits))
  }

  /** No numeral of any kind. */
  ghost predicate IsWord(text: string) {
    (forall negative, digits :: !Numeral(text, negative, digits)) && !Fraction(text)
  }

  function Plain(text: string): Value {
    var quoted := StripQuotes(text);
    if quoted.Some? then Str(quoted.value)
    else if IsBig(text) then ParseInt(text[..|text| - 1])
    else if IsWhole(text) then ParseInt(text)
    else if IsFraction(text) then Rounded(text)
    else Str(text)
  }

  lemma PlainIs(text: string)
    ensures ReadsPlain(text, Plain(text))
  {
    hide StripQuotes, IsWhole, IsFraction, QuotedText, Fraction, ParseInt, Integer;
    var quoted := StripQuotes(text);
    if quoted.Some? {
      QuotesIff(text, quoted.value);
    } else {
      forall inner ensures !QuotedText(text, inner) {
        QuotesIff(text, inner);
      }
      if IsBig(text) {
        WholeReads(text[..|text| - 1]);
        var negative, digits :| WholeBy(text[..|text| - 1], negative, digits)
                                && ParseInt(text[..|text| - 1]) == Integer(negative, digits);
        assert Numeral(text, negative, digits);
      } else if IsWhole(text) {
        WholeReads(text);
        var negative, digits :| WholeBy(text, negative, digits) && ParseInt(text) == Integer(negative, digits);
        assert Numeral(text, negative, digits);
      } else {
        FractionIff(text);
        WholeIff(text);
        if text != "" {
          WholeIff(text[..|text| - 1]);
        }
        forall negative, digits ensures !Numeral(text, negative, digits) {
          assert !WholeBy(text, negative, digits);
        }
      }
    }
  }

  lemma WholeReads(text: string)
    requires IsWhole(text)
    ensures exists negative, digits :: WholeBy(text, negative, digits) && ParseInt(text) == Integer(negative, digits)
  {
    if StartsWith(text, "-") {
      assert text == "-" + text[1..];
      assert WholeBy(text, true, text[1..]);
    } else {
      assert WholeBy(text, false, text);
    }
  }

  // ----- What stays text -----

  /** Under a declared type, a text that is not written that way is kept as it is. */
  lemma UnreadableStays(value: string)
    ensures !Whole(value) ==> ConvertJsValue(value, "integer", None) == Str(value)
    ensures !Whole(value) && !Fraction(value) ==> ConvertJsValue(value, "float", None) == Str(value)
    ensures Fraction(value) && !Whole(value) ==> ConvertJsValue(value, "float", None) == Rounded(value)
    ensures (forall whole :: value == whole + "n" ==> !Whole(whole)) ==>
              ConvertJsValue(value, "Bigint", None) == Str(value)
    ensures value != "true" && value != "false" ==> ConvertJsValue(value, "Boolean", None) == Str(value)
    ensures (forall inner :: !QuotedText(Trim(value), inner)) ==> ConvertJsValue(value, "String", None) == Str(value)
    ensures ConvertJsValue(value, "any", None) == Str(value)
  {
    hide Whole, Fraction, IsWhole, IsBig, IsFraction, StripQuotes, QuotedText, ParseJsArray, ParseJsObject, Trim;
    WholeIff(value);
    FractionIff(value);
    BigIff(value);
    var quoted := StripQuotes(Trim(value));
    if quoted.Some? {
      QuotesIff(Trim(value), quoted.value);
    }
  }

  predicate Constructed(text: string, space: string, body: string) {
    Blank(space) && space != "" && text == "new" + space + "Array(" + body + ")"
  }

  /** A text in brackets, or the constructor's spelling of them, on one line, is an array, and nothing else is. */
  lemma ArrayTextIff(text: string, body: string)
    ensures ArrayBody(text) == Some(body) <==>
              OneLine(body) && (text == "[" + body + "]" || exists space :: Constructed(text, space, body))
  {
    hide NewArrayBody, OneLine, Constructed;
    if ArrayBody(text) == Some(body) {
      if Enclosed(text, '[', ']').Some? {
        assert text == "[" + body + "]";
      } else {
        var space := ConstructorText(text, body);
      }
    }
    if text == "[" + body + "]" {
      assert text[1..|text| - 1] == body;
    }
    if space :| Constructed(text, space, body) && OneLine(body) {
      ConstructorReads(text, space, body);
    }
  }

  lemma ConstructorReads(text: string, space: string, body: string)
    requires Constructed(text, space, body) && OneLine(body)
    ensures ArrayBody(text) == Some(body)
  {
    hide ArrayBody, OneLine, Trim;
    NewArraySpelled(space, body);
  }

  lemma ConstructorText(text: string, body: string) returns (space: string)
    requires NewArrayBody(text) == Some(body)
    ensures Constructed(text, space, body) && OneLine(body)
  {
    hide OneLine, Blank, IsSpace;
    var rest := TrimStart(text[3..]);
    space := text[3..][..|text[3..]| - |rest|];
    SpaceFirst(text[3..]);
    SpaceBefore(text[3..]);
    assert text[3..] == space + rest;
    ArrayRest(rest, body);
    assert text == "new" + text[3..];
    assert OneLine(body) && Blank(space) && space != "";
    hide *;
    Respell(text, space, rest, body);
  }

  lemma Respell(text: string, space: string, rest: string, body: string)
    requires text == "new" + (space + rest) && rest == "Array(" + body + ")"
    requires Blank(space) && space != ""
    ensures Constructed(text, space, body)
  {
    hide Blank;
    assert text == "new" + space + rest;
    assert "new" + space + ("Array(" + body + ")") == "new" + space + "Array(" + body + ")";
  }

  lemma SpaceBefore(s: string)
    requires s != "" && IsSpace(s[0])
    ensures |TrimStart(s)| < |s|
  {
  }

  lemma ArrayRest(rest: string, body: string)
    requires StartsWith(rest, "Array") && Enclosed(rest[5..], '(', ')') == Some(body)
    ensures rest == "Array(" + body + ")" && OneLine(body)
  {
    hide OneLine;
    assert rest[5..] == "(" + body + ")";
    assert rest == "Array" + rest[5..];
  }

  lemma {:induction false} SpaceFirst(s: string)
    ensures var rest := TrimStart(s); s[|s| - |rest|..] == rest && Blank(s[..|s| - |rest|])
  {
    if s != "" && IsSpace(s[0]) {
      SpaceFirst(s[1..]);
    }
  }

  /** A text without such brackets is no array, and one without braces no record. */
  lemma NoListStays(value: string, nested: Option<string>)
    ensures ArrayBody(Trim(value)).None? ==> ParseJsArray(value, nested) == Str(value)
    ensures Enclosed(Trim(value), '{', '}').None? ==> ParseJsObject(value) == Str(value)
  {
    hide Trim, ArrayBody, Enclosed, Split;
  }

  /** One field that has no separator, or a key that is neither quoted nor a name, and the record stays text. */
  lemma {:induction false} BadPairSpoils(pairs: seq<string>, parsed: map<string, Value>, bound: nat, k: nat)
    requires forall t | t in pairs :: |t| < bound
    requires k < |pairs|
    requires var separator := SeparatorIndex(pairs[k], ':');
      separator == -1 || ParseKey(Trim(pairs[k][..separator])).None?
    ensures ParsePairs(pairs, parsed, bound).None?
    decreases |pairs|
  {
    hide ParseJsScalar, Trim, SeparatorIndex, ParseKey;
    if k > 0 {
      var separator := SeparatorIndex(pairs[0], ':');
      if separator != -1 && ParseKey(Trim(pairs[0][..separator])).Some? {
        assert pairs[0] in pairs;
        var key := ParseKey(Trim(pairs[0][..separator])).value;
        var value := ParseJsScalar(Trim(pairs[0][separator + 1..]), None);
        BadPairSpoils(pairs[1..], Assign(parsed, key, value), bound, k - 1);
      }
    }
  }

  /** A braced text with such a field is read as it stands. */
  lemma BadRecordStays(value: string, body: string, k: nat)
    requires Enclosed(Trim(value), '{', '}') == Some(body) && k < |Split(body)|
    requires var separator := SeparatorIndex(Split(body)[k], ':');
      separator == -1 || ParseKey(Trim(Split(body)[k][..separator])).None?
    ensures ParseJsObject(value) == Str(value)
  {
    SplitShorter(body);
    assert |body| < |value|;
    hide Trim, Enclosed, Split, ParseKey, SeparatorIndex, ParsePairs;
    BadPairSpoils(Split(body), map[], |value|, k);
  }
}
