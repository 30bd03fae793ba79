/** The values the scorer compares. */
module Json {
  import opened Text

  /**
   A JSON-like value. `Rounded` stands for a numeral that a double does not hold
   exactly (a fraction, or an integer beyond 2^53 - 1); its rounding is not modelled.
   */
  datatype Value =
    | Null
    | Number(n: int)
    | Rounded(numeral: string)
    | Bool(b: bool)
    | Str(s: string)
    | Arr(items: seq<Value>)
    | Obj(fields: map<string, Value>)

  const MAX_SAFE_INTEGER := 0x1f_ffff_ffff_ffff

  /** Integer parsing of an optionally negative decimal numeral. */
  function Integer(negative: bool, digits: string): Value
    requires AllDigits(digits)
  {
    var n: int := Text.Value(digits);
    if n > MAX_SAFE_INTEGER then Rounded((if negative then "-" else "") + digits)
    else Number(if negative then -n else n)
  }

  /** Assigning a property of a plain object: `__proto__` sets the prototype and adds no field. */
  function Assign(fields: map<string, Value>, key: string, value: Value): map<string, Value> {
    if key == "__proto__" then fields else fields[key := value]
  }
}
