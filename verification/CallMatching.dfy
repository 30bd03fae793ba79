/** When a model's tool call satisfies an expected one, and what that makes of the greedy pass. */
module CallMatching {
  import opened Wrappers
  import opened Json
  import opened JsLiterals
  import opened GreedyMatching
  import opened GreedyCorrectness

  datatype Call = Call(name: string, arguments: map<string, Value>)

  /** Each argument lists its allowed values; an absent argument is allowed by "" or null. */
  datatype Expected = Expected(name: string, arguments: map<string, seq<Value>>)

  datatype Language = Python | Java | JavaScript

  datatype Schema = Schema(kind: Option<string>, nested: Option<string>)

  /**
   `convertJava` is the Java literal parser; `sameDouble` compares two numerals of which
   at least one is not held exactly. Both are arbitrary.
   */
  datatype Context = Context(
    language: Language,
    schemas: map<string, map<string, Schema>>,
    convertJava: (string, string, Option<string>) -> Value,
    sameDouble: (Value, Value) -> bool)

  const JAVA_CONVERTIBLE_TYPES: set<string> :=
    {"byte", "short", "integer", "float", "double", "long", "boolean", "char",
     "Array", "ArrayList", "HashMap", "String", "any"}

  function StandardizeChar(c: char): string {
    if c == '\'' then "\""
    else if c in " ,./-_*^" then ""
    else if 'A' <= c <= 'Z' then [(c as int - 'A' as int + 'a' as int) as char]
    else [c]
  }

  function Standardize(s: string): string {
    if s == "" then "" else StandardizeChar(s[0]) + Standardize(s[1..])
  }

  predicate NumbersEqual(ctx: Context, actual: Value, expected: Value) {
    if actual.Number? && expected.Number? then actual == expected
    else (actual.Number? || actual.Rounded?) && ctx.sameDouble(actual, expected)
  }

  predicate RawEquivalent(ctx: Context, actual: Value, expected: Value)
    decreases expected, 0
  {
    match expected
    case Number(_) => NumbersEqual(ctx, actual, expected)
    case Rounded(_) => NumbersEqual(ctx, actual, expected)
    case Bool(b) => actual == expected
    case Str(s) =>
      if s == "" then actual == expected
      else actual.Str? && Standardize(actual.s) == Standardize(s)
    case Arr(items) =>
      && actual.Arr? && |actual.items| == |items|
      && forall i | 0 <= i < |items| :: RawEquivalent(ctx, actual.items[i], items[i])
    case Obj(fields) =>
      && actual.Obj? && |actual.fields| == |fields|
      && forall key | key in fields :: key in actual.fields && Nested(ctx, actual.fields[key], fields[key])
    case Null => actual == Null
  }

  predicate Nested(ctx: Context, actual: Value, expected: Value)
    decreases expected, 1
  {
    if expected.Arr? && !actual.Arr? then
      exists i | 0 <= i < |expected.items| :: RawEquivalent(ctx, actual, expected.items[i])
    else RawEquivalent(ctx, actual, expected)
  }

  /** The actual value in the terms of the schema, or None when it should have been a literal. */
  function ConvertActual(ctx: Context, actual: Value, schema: Option<Schema>): Option<Value> {
    if schema.None? || schema.value.kind.None? || ctx.language.Python? then Some(actual)
    else
      var kind, nested := schema.value.kind.value, schema.value.nested;
      var types := if ctx.language.Java? then JAVA_CONVERTIBLE_TYPES else CONVERTIBLE_TYPES;
      if kind !in types then Some(actual)
      else if !actual.Str? then None
      else if ctx.language.Java? then Some(ctx.convertJava(actual.s, kind, nested))
      else Some(ConvertJsValue(actual.s, kind, nested))
  }

  predicate ValuesEquivalent(ctx: Context, actual: Value, expected: Value, schema: Option<Schema>) {
    var converted := ConvertActual(ctx, actual, schema);
    converted.Some? && RawEquivalent(ctx, converted.value, expected)
  }

  function SchemaOf(ctx: Context, name: string, argument: string): Option<Schema> {
    if name in ctx.schemas && argument in ctx.schemas[name] then Some(ctx.schemas[name][argument]) else None
  }

  predicate ArgumentMatches(ctx: Context, actual: Call, expected: Expected, argument: string)
    requires argument in expected.arguments
  {
    var allowed := expected.arguments[argument];
    if argument !in actual.arguments then Str("") in allowed || Null in allowed
    else
      exists i | 0 <= i < |allowed| ::
        ValuesEquivalent(ctx, actual.arguments[argument], allowed[i], SchemaOf(ctx, expected.name, argument))
  }

  predicate ToolCallMatches(ctx: Context, expected: Expected, actual: Call) {
    && actual.name == expected.name
    && (forall argument | argument in actual.arguments :: argument in expected.arguments)
    && (forall argument | argument in expected.arguments :: ArgumentMatches(ctx, actual, expected, argument))
  }

  function Matcher(ctx: Context): (Expected, Call) -> bool {
    (expected, actual) => ToolCallMatches(ctx, expected, actual)
  }

  /** The scorer's answer for calls in any order. */
  predicate Accepts(ctx: Context, expecteds: seq<Expected>, actuals: seq<Call>) {
    MatchUnordered(Matcher(ctx), expecteds, actuals)
  }

  /** Expected calls that are equal or have different names are scored exactly, in any order. */
  lemma DistinctNamesScoredExactly(ctx: Context, expecteds: seq<Expected>, actuals: seq<Call>)
    requires forall e, e' | e in expecteds && e' in expecteds :: e == e' || e.name != e'.name
    ensures Accepts(ctx, expecteds, actuals) <==> Corresponds(Matcher(ctx), expecteds, actuals)
    ensures forall expecteds', actuals' |
              multiset(expecteds) == multiset(expecteds') && multiset(actuals) == multiset(actuals') ::
              Accepts(ctx, expecteds, actuals) == Accepts(ctx, expecteds', actuals')
  {
    GreedyCorrect(Matcher(ctx), expecteds, actuals);
    forall expecteds', actuals' | multiset(expecteds) == multiset(expecteds') && multiset(actuals) == multiset(actuals')
      ensures Accepts(ctx, expecteds, actuals) == Accepts(ctx, expecteds', actuals')
    {
      GreedyOrderFree(Matcher(ctx), expecteds, actuals, expecteds', actuals');
    }
  }

  lemma NumberArgument(ctx: Context, allowed: seq<Value>, n: int)
    requires ctx.language.Python? && forall v | v in allowed :: v.Number?
    ensures ToolCallMatches(ctx, Expected("f", map["x" := allowed]), Call("f", map["x" := Number(n)]))
       <==> Number(n) in allowed
  {
    var expected, actual := Expected("f", map["x" := allowed]), Call("f", map["x" := Number(n)]);
    forall i | 0 <= i < |allowed|
      ensures ValuesEquivalent(ctx, Number(n), allowed[i], SchemaOf(ctx, "f", "x")) <==> allowed[i] == Number(n)
    {
      assert allowed[i] in allowed;
    }
    assert ArgumentMatches(ctx, actual, expected, "x") <==> Number(n) in allowed;
  }

  /** Overlapping but different expectations: a correct pair of calls is rejected or accepted by their order. */
  lemma OverlappingExpectations(ctx: Context)
    requires ctx.language.Python?
    ensures var either := Expected("f", map["x" := [Number(1), Number(2)]]);
            var one := Expected("f", map["x" := [Number(1)]]);
            var first := Call("f", map["x" := Number(1)]);
            var second := Call("f", map["x" := Number(2)]);
            && Corresponds(Matcher(ctx), [either, one], [first, second])
            && !Accepts(ctx, [either, one], [first, second])
            && Accepts(ctx, [one, either], [first, second])
  {
    hide ToolCallMatches, Corresponds, MatchUnordered;
    var either, one := Expected("f", map["x" := [Number(1), Number(2)]]), Expected("f", map["x" := [Number(1)]]);
    var first, second := Call("f", map["x" := Number(1)]), Call("f", map["x" := Number(2)]);
    var m := Matcher(ctx);
    NumberArgument(ctx, [Number(1), Number(2)], 1);
    NumberArgument(ctx, [Number(1), Number(2)], 2);
    NumberArgument(ctx, [Number(1)], 1);
    NumberArgument(ctx, [Number(1)], 2);
    assert m(either, first) && m(either, second) && m(one, first) && !m(one, second);
    OverlapDefeatsGreedy(m, either, one, first, second);
  }
}
