/** What the WebSocket handler sees of a frame once Jackson has read it into a
    `Map<String, Object>`, and the casts and conversions it applies to the
    values: `(String)`, `(Boolean)` and `Long.valueOf(value.toString())`. */
module Envelope {
  import opened Wrappers
  import opened JavaText

  /** A JSON value as Jackson hands it over: null, a boolean, an integer
      literal (`Integer`, `Long` or `BigInteger`), a literal with a fraction or
      exponent (`Double`), a string, or an array or object. */
  datatype Json = JNull | JBool(b: bool) | JInt(n: int) | JFloat | JString(s: string) | JOther

  /** The frame's top-level object; a missing key reads as null. */
  type Fields = map<string, Json>

  function Get(fields: Fields, key: string): Json
  {
    if key in fields then fields[key] else JNull
  }

  /** A cast that throws `ClassCastException` (`Err`) or yields a possibly null value. */
  type Cast<T> = Result<Option<T>, Unit>

  /** `(String) fields.get(key)`. */
  function StringField(fields: Fields, key: string): (r: Cast<string>)
    ensures r == Ok(None) <==> Get(fields, key).JNull?
    ensures r.Ok? && r.value.Some? <==> Get(fields, key).JString?
    ensures r.Ok? && r.value.Some? ==> Get(fields, key) == JString(r.value.value)
  {
    match Get(fields, key)
    case JNull => Ok(None)
    case JString(s) => Ok(Some(s))
    case _ => Err(Unit)
  }

  /** `(Boolean) fields.get(key)`. */
  function BoolField(fields: Fields, key: string): (r: Cast<bool>)
    ensures r == Ok(None) <==> Get(fields, key).JNull?
    ensures r.Ok? && r.value.Some? <==> Get(fields, key).JBool?
    ensures r.Ok? && r.value.Some? ==> Get(fields, key) == JBool(r.value.value)
  {
    match Get(fields, key)
    case JNull => Ok(None)
    case JBool(b) => Ok(Some(b))
    case _ => Err(Unit)
  }

  /** The outcome of `Long.valueOf(value.toString())`: a null value throws
      `NullPointerException`, text that is not a `long` throws
      `NumberFormatException`. */
  datatype LongRead = NullValue | NotANumber | Long(n: int)

  /** `value.toString()`, where it can matter: the decimal text of an integer,
      the string itself, "true"/"false". A `Double`'s text always carries a
      decimal point and a collection's starts with a bracket, so neither is
      ever a `long`; they are `None` here. */
  function NumericText(j: Json): Option<string>
  {
    match j
    case JInt(n) => Some(DecimalString(n))
    case JString(s) => Some(s)
    case JBool(b) => Some(if b then "true" else "false")
    case _ => None
  }

  function LongValue(j: Json): LongRead
  {
    if j.JNull? then NullValue
    else match NumericText(j)
      case None => NotANumber
      case Some(t) => match ParseLong(t)
        case None => NotANumber
        case Some(n) => Long(n)
  }

  /** An integer literal converts exactly when it fits in a `long`: a
      `BigInteger` id is rejected as malformed, never truncated. */
  lemma IntegerLiteralAsLong(n: int)
    ensures LongValue(JInt(n)) == (if InLongRange(n) then Long(n) else NotANumber)
  {
    ParseDecimalString(n);
  }

  /** A string converts as `Long.parseLong` reads it; booleans never convert. */
  lemma StringAndBoolAsLong(s: string, b: bool)
    ensures LongValue(JString(s)) == (if ParseLong(s).Some? then Long(ParseLong(s).value) else NotANumber)
    ensures LongValue(JBool(b)) == NotANumber
  {
    var t := if b then "true" else "false";
    assert !IsDigit(t[0]);
  }
}
