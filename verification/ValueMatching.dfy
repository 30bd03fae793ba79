/**
 When an argument's value satisfies an expected one, by a definition of its own: an expected value may be read with
 some lists inside records taken as alternatives, and a value is right if it is like one such reading.
 */
module ValueMatching {
  import opened Wrappers
  import opened Json
  import opened CallMatching
  import opened JsLiterals
  import opened JsLiteralRoundTrip
  import opened JsLiteralScan
  import Text

  // ----- Strings -----

  predicate IsSeparator(c: char) {
    c == ' ' || c == ',' || c == '.' || c == '/' || c == '-' || c == '_' || c == '*' || c == '^'
  }

  /** The characters of a string that count. */
  function Kept(s: string): string {
    if s == "" then ""
    else Kept(s[..|s| - 1]) + if IsSeparator(s[|s| - 1]) then "" else [s[|s| - 1]]
  }

  predicate OtherCase(upper: char, lower: char) {
    'A' <= upper <= 'Z' && lower as int == upper as int + 32
  }

  predicate SameLetter(c: char, d: char) {
    || c == d || OtherCase(c, d) || OtherCase(d, c)
    || (c == '\'' && d == '\"') || (c == '\"' && d == '\'')
  }

  /** Both strings spell the same: separators aside, letter by letter, whatever the case and the kind of quotes. */
  predicate SpellTheSame(a: string, b: string) {
    |Kept(a)| == |Kept(b)| && forall i :: 0 <= i < |Kept(a)| ==> SameLetter(Kept(a)[i], Kept(b)[i])
  }

  lemma {:induction false} StandardizeAppend(a: string, b: string)
    ensures Standardize(a + b) == Standardize(a) + Standardize(b)
    decreases |a|
  {
    hide StandardizeChar;
    if a == "" {
      assert a + b == b;
    } else {
      assert (a + b)[1..] == a[1..] + b;
      StandardizeAppend(a[1..], b);
    }
  }

  lemma {:induction false} StandardizedIsFolded(s: string)
    ensures |Standardize(s)| == |Kept(s)|
    ensures forall i :: 0 <= i < |Kept(s)| ==>
              !IsSeparator(Kept(s)[i]) && [Standardize(s)[i]] == StandardizeChar(Kept(s)[i])
    decreases |s|
  {
    if s != "" {
      var init, last := s[..|s| - 1], s[|s| - 1];
      StandardizedIsFolded(init);
      StandardizeAppend(init, [last]);
      assert s == init + [last];
      LastStandardized(last);
      hide Standardize, StandardizeChar, IsSeparator;
    }
  }

  lemma LastStandardized(c: char)
    ensures Standardize([c]) == StandardizeChar(c)
    ensures IsSeparator(c) <==> StandardizeChar(c) == ""
    ensures !IsSeparator(c) ==> |StandardizeChar(c)| == 1
  {
    assert Standardize([c]) == StandardizeChar(c) + Standardize("");
  }

  lemma SameLetterIff(c: char, d: char)
    requires !IsSeparator(c) && !IsSeparator(d)
    ensures SameLetter(c, d) <==> StandardizeChar(c) == StandardizeChar(d)
  {
  }

  lemma StringsMatchIff(a: string, b: string)
    ensures Standardize(a) == Standardize(b) <==> SpellTheSame(a, b)
  {
    hide Standardize, StandardizeChar, Kept, SameLetter, IsSeparator;
    StandardizedIsFolded(a);
    StandardizedIsFolded(b);
    if |Kept(a)| == |Kept(b)| {
      forall i | 0 <= i < |Kept(a)|
        ensures SameLetter(Kept(a)[i], Kept(b)[i]) <==> Standardize(a)[i] == Standardize(b)[i]
      {
        SameLetterIff(Kept(a)[i], Kept(b)[i]);
      }
    }
  }

  // ----- Values -----

  /** A value like another: the same up to the spelling of strings, the empty string being like itself only. */
  ghost predicate Alike(ctx: Context, actual: Value, wanted: Value)
    decreases wanted
  {
    match wanted
    case Null => actual.Null?
    case Bool(b) => actual == Bool(b)
    case Number(n) => actual == Number(n) || (actual.Rounded? && ctx.sameDouble(actual, wanted))
    case Rounded(_) => (actual.Number? || actual.Rounded?) && ctx.sameDouble(actual, wanted)
    case Str(s) => actual.Str? && (if s == "" then actual.s == "" else SpellTheSame(actual.s, s))
    case Arr(items) =>
      actual.Arr? && |actual.items| == |items| && forall i :: 0 <= i < |items| ==> Alike(ctx, actual.items[i], items[i])
    case Obj(fields) =>
      && actual.Obj? && actual.fields.Keys == fields.Keys
      && forall key :: key in fields ==> Alike(ctx, actual.fields[key], fields[key])
  }

  /** A reading of an expected value: some lists that are fields of a record give way to one of their items. */
  ghost predicate Reads(expected: Value, wanted: Value)
    decreases expected, 0
  {
    match expected
    case Arr(items) =>
      wanted.Arr? && |wanted.items| == |items| && forall i :: 0 <= i < |items| ==> Reads(items[i], wanted.items[i])
    case Obj(fields) =>
      && wanted.Obj? && wanted.fields.Keys == fields.Keys
      && forall key :: key in fields ==> ReadsField(fields[key], wanted.fields[key])
    case _ => wanted == expected
  }

  ghost predicate ReadsField(expected: Value, wanted: Value)
    decreases expected, 1
  {
    || Reads(expected, wanted)
    || (expected.Arr?
        && exists i :: 0 <= i < |expected.items| && !expected.items[i].Arr? && Reads(expected.items[i], wanted))
  }

  /** The value is like one reading of the expected one. */
  ghost predicate Right(ctx: Context, actual: Value, expected: Value) {
    exists wanted :: Reads(expected, wanted) && Alike(ctx, actual, wanted)
  }

  lemma {:induction false} EqualKeys<V>(a: map<string, V>, b: map<string, V>)
    requires |a| == |b| && b.Keys <= a.Keys
    ensures a.Keys == b.Keys
  {
    if key :| key in a.Keys && key !in b.Keys {
      SubsetSize(b.Keys + {key}, a.Keys);
    }
  }

  lemma {:induction false} SubsetSize(a: set<string>, b: set<string>)
    requires a <= b
    ensures |a| <= |b|
  {
    if a != {} {
      var x :| x in a;
      SubsetSize(a - {x}, b - {x});
    }
  }

  lemma ReadingsKeepLists(expected: Value, wanted: Value)
    requires Reads(expected, wanted)
    ensures wanted.Arr? <==> expected.Arr?
  {
  }

  lemma {:induction false} RightIsEquivalent(ctx: Context, actual: Value, expected: Value, wanted: Value)
    requires Reads(expected, wanted) && Alike(ctx, actual, wanted)
    ensures RawEquivalent(ctx, actual, expected)
    decreases expected, 0
  {
    match expected
    case Str(s) =>
      if s != "" {
        StringsMatchIff(actual.s, s);
      }
    case Arr(items) =>
      forall i | 0 <= i < |items| ensures RawEquivalent(ctx, actual.items[i], items[i]) {
        RightIsEquivalent(ctx, actual.items[i], items[i], wanted.items[i]);
      }
    case Obj(fields) =>
      assert |actual.fields.Keys| == |fields.Keys|;
      forall key | key in fields ensures Nested(ctx, actual.fields[key], fields[key]) {
        RightField(ctx, actual.fields[key], fields[key], wanted.fields[key]);
      }
    case _ =>
  }

  lemma {:induction false} RightField(ctx: Context, actual: Value, expected: Value, wanted: Value)
    requires ReadsField(expected, wanted) && Alike(ctx, actual, wanted)
    ensures Nested(ctx, actual, expected)
    decreases expected, 1
  {
    if Reads(expected, wanted) {
      RightIsEquivalent(ctx, actual, expected, wanted);
      ReadingsKeepLists(expected, wanted);
    } else {
      var i :| 0 <= i < |expected.items| && !expected.items[i].Arr? && Reads(expected.items[i], wanted);
      RightIsEquivalent(ctx, actual, expected.items[i], wanted);
      ReadingsKeepLists(expected.items[i], wanted);
    }
  }

  lemma {:induction false} EquivalentIsRight(ctx: Context, actual: Value, expected: Value) returns (wanted: Value)
    requires RawEquivalent(ctx, actual, expected)
    ensures Reads(expected, wanted) && Alike(ctx, actual, wanted)
    decreases expected, 0
  {
    wanted := expected;
    match expected
    case Str(s) =>
      if s != "" {
        StringsMatchIff(actual.s, s);
      }
    case Arr(items) =>
      forall i | 0 <= i < |items| ensures Right(ctx, actual.items[i], items[i]) {
        var w := EquivalentIsRight(ctx, actual.items[i], items[i]);
      }
      wanted := Arr(seq(|items|, i requires 0 <= i < |items| && Right(ctx, actual.items[i], items[i]) =>
                                   ReadingFor(ctx, actual.items[i], items[i])));
    case Obj(fields) =>
      forall key | key in fields ensures key in actual.fields && RightInField(ctx, actual.fields[key], fields[key]) {
        var w := FieldIsRight(ctx, actual.fields[key], fields[key]);
      }
      EqualKeys(actual.fields, fields);
      wanted := Obj(map key | key in fields :: FieldReadingFor(ctx, actual.fields[key], fields[key]));
    case _ =>
  }

  ghost predicate RightInField(ctx: Context, actual: Value, expected: Value) {
    exists wanted :: ReadsField(expected, wanted) && Alike(ctx, actual, wanted)
  }

  ghost function ReadingFor(ctx: Context, actual: Value, expected: Value): (wanted: Value)
    requires Right(ctx, actual, expected)
    ensures Reads(expected, wanted) && Alike(ctx, actual, wanted)
  {
    var wanted :| Reads(expected, wanted) && Alike(ctx, actual, wanted);
    wanted
  }

  ghost function FieldReadingFor(ctx: Context, actual: Value, expected: Value): (wanted: Value)
    requires RightInField(ctx, actual, expected)
    ensures ReadsField(expected, wanted) && Alike(ctx, actual, wanted)
  {
    var wanted :| ReadsField(expected, wanted) && Alike(ctx, actual, wanted);
    wanted
  }

  lemma {:induction false} FieldIsRight(ctx: Context, actual: Value, expected: Value) returns (wanted: Value)
    requires Nested(ctx, actual, expected)
    ensures ReadsField(expected, wanted) && Alike(ctx, actual, wanted)
    decreases expected, 1
  {
    if expected.Arr? && !actual.Arr? {
      var i :| 0 <= i < |expected.items| && RawEquivalent(ctx, actual, expected.items[i]);
      wanted := EquivalentIsRight(ctx, actual, expected.items[i]);
      assert !expected.items[i].Arr?;
    } else {
      wanted := EquivalentIsRight(ctx, actual, expected);
    }
  }

  /** The scorer's comparison, for all values: it holds exactly if the actual value is like a reading of the other. */
  lemma EquivalentIff(ctx: Context, actual: Value, expected: Value)
    ensures RawEquivalent(ctx, actual, expected) <==> Right(ctx, actual, expected)
  {
    hide RawEquivalent, Reads, Alike;
    if RawEquivalent(ctx, actual, expected) {
      var wanted := EquivalentIsRight(ctx, actual, expected);
    }
    if wanted :| Reads(expected, wanted) && Alike(ctx, actual, wanted) {
      RightIsEquivalent(ctx, actual, expected, wanted);
    }
  }

  // ----- Calls -----

  /** The declared types whose values come as the text of a JavaScript literal. */
  predicate JavaScriptText(kind: string) {
    || kind == "String" || kind == "integer" || kind == "float" || kind == "Bigint" || kind == "Boolean"
    || kind == "dict" || kind == "array" || kind == "any"
  }

  predicate JavaText(kind: string) {
    || kind == "byte" || kind == "short" || kind == "integer" || kind == "float" || kind == "double" || kind == "long"
    || kind == "boolean" || kind == "char" || kind == "Array" || kind == "ArrayList" || kind == "HashMap"
    || kind == "String" || kind == "any"
  }

  /** The value that an argument stands for: itself, or what its text denotes in the language and declared type. */
  ghost predicate StandsFor(ctx: Context, schema: Option<Schema>, actual: Value, value: Value) {
    if schema.None? || schema.value.kind.None? then value == actual
    else
      var kind, nested := schema.value.kind.value, schema.value.nested;
      match ctx.language
      case Python => value == actual
      case Java =>
        if JavaText(kind) then actual.Str? && value == ctx.convertJava(actual.s, kind, nested) else value == actual
      case JavaScript =>
        if JavaScriptText(kind) then actual.Str? && value == ConvertJsValue(actual.s, kind, nested) else value == actual
  }

  ghost predicate RightArgument(ctx: Context, schema: Option<Schema>, actual: Value, expected: Value) {
    exists value :: StandsFor(ctx, schema, actual, value) && Right(ctx, value, expected)
  }

  lemma ValuesEquivalentIff(ctx: Context, actual: Value, expected: Value, schema: Option<Schema>)
    ensures ValuesEquivalent(ctx, actual, expected, schema) <==> RightArgument(ctx, schema, actual, expected)
  {
    hide RawEquivalent, ConvertJsValue, Right;
    var converted := ConvertActual(ctx, actual, schema);
    assert converted.Some? ==> StandsFor(ctx, schema, actual, converted.value);
    forall value | StandsFor(ctx, schema, actual, value) ensures converted == Some(value) {
    }
    forall value ensures RawEquivalent(ctx, value, expected) <==> Right(ctx, value, expected) {
      EquivalentIff(ctx, value, expected);
    }
  }

  /** An argument that nothing allows. */
  ghost predicate WrongArgument(ctx: Context, expected: Expected, actual: Call, argument: string) {
    && argument in expected.arguments
    && var allowed := expected.arguments[argument];
    if argument !in actual.arguments then Str("") !in allowed && Null !in allowed
    else
      forall i :: 0 <= i < |allowed| ==>
        !RightArgument(ctx, DeclaredAs(ctx, expected.name, argument), actual.arguments[argument], allowed[i])
  }

  ghost function DeclaredAs(ctx: Context, name: string, argument: string): Option<Schema> {
    if name !in ctx.schemas then None
    else if argument !in ctx.schemas[name] then None
    else Some(ctx.schemas[name][argument])
  }

  /**
   * A call is refused exactly if its name is another, or it has an argument that is not expected, or it lacks one
   * that is not optional, or one of its values is right by none of the values allowed.
   */
  lemma RefusedIff(ctx: Context, expected: Expected, actual: Call)
    ensures !ToolCallMatches(ctx, expected, actual) <==>
              || actual.name != expected.name
              || (exists argument :: argument in actual.arguments && argument !in expected.arguments)
              || (exists argument :: WrongArgument(ctx, expected, actual, argument))
  {
    hide ValuesEquivalent, RightArgument;
    forall argument | argument in expected.arguments
      ensures ArgumentMatches(ctx, actual, expected, argument) <==> !WrongArgument(ctx, expected, actual, argument)
    {
      if argument in actual.arguments {
        var allowed := expected.arguments[argument];
        forall i | 0 <= i < |allowed|
          ensures ValuesEquivalent(ctx, actual.arguments[argument], allowed[i], SchemaOf(ctx, expected.name, argument))
             <==> RightArgument(ctx, DeclaredAs(ctx, expected.name, argument), actual.arguments[argument], allowed[i])
        {
          ValuesEquivalentIff(ctx, actual.arguments[argument], allowed[i], SchemaOf(ctx, expected.name, argument));
        }
      }
    }
    hide ArgumentMatches, WrongArgument;
    assert forall argument :: WrongArgument(ctx, expected, actual, argument) ==> argument in expected.arguments by {
      WrongIsExpected(ctx, expected, actual);
    }
  }

  lemma WrongIsExpected(ctx: Context, expected: Expected, actual: Call)
    ensures forall argument :: WrongArgument(ctx, expected, actual, argument) ==> argument in expected.arguments
  {
    hide RightArgument;
  }

  // ----- JavaScript literals as arguments -----

  /** The type under which a literal is declared. */
  function TypeOf(x: Syntax): string {
    match x
    case Numeral(_, _, big) => if big then "Bigint" else "integer"
    case Truth(_) => "Boolean"
    case Quoted(_, _) => "String"
    case List(_, _) => "array"
    case Record(_, _) => "dict"
  }

  /** In JavaScript, a declared argument spelled as a literal is scored as the value the literal denotes. */
  lemma LiteralsAreScored(ctx: Context, x: Syntax, expected: Value)
    requires ctx.language.JavaScript? && Valid(x)
    ensures ValuesEquivalent(ctx, Str(Print(x)), expected, Some(Schema(Some(TypeOf(x)), None)))
       <==> Right(ctx, Meaning(x), expected)
  {
    hide RawEquivalent, Right, Meaning, Print, Valid, ConvertJsValue;
    LiteralConverted(x);
    EquivalentIff(ctx, Meaning(x), expected);
  }

  lemma LiteralConverted(x: Syntax)
    requires Valid(x)
    ensures ConvertJsValue(Print(x), TypeOf(x), None) == Meaning(x)
  {
    hide Meaning, Print, Valid, ConvertJsValue, ParseJsScalar;
    assert "" + Print(x) + "" == Print(x);
    if ScalarType(x).Some? {
      TypedRoundTrip("", x, "");
      TypedIsConverted(Print(x), TypeOf(x));
      PrintTidy(x);
      Text.TrimOfTrimmed(Print(x));
    } else {
      PaddedRoundTrip("", x, "");
    }
  }
}
