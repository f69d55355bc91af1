/**
 * Request bodies as JavaScript values, the truthiness and `??` rules the handlers
 * rely on, the API error value, and the field validators every route uses.
 */
module Validation {
  import opened Common

  /**
   * A JSON-decoded JavaScript value. Numbers are whole numbers or NaN; fractional
   * numbers are not represented.
   */
  datatype JsValue =
    | Undefined
    | Null
    | Bool(b: bool)
    | Num(n: int)
    | NaN
    | Str(s: string)
    | Arr(items: seq<JsValue>)
    | Obj(fields: map<string, JsValue>)

  /** JavaScript truthiness: false, 0, NaN, "", null and undefined are falsy. */
  predicate Truthy(v: JsValue) {
    match v
    case Undefined => false
    case Null => false
    case Bool(b) => b
    case Num(n) => n != 0
    case NaN => false
    case Str(s) => s != ""
    case Arr(_) => true
    case Obj(_) => true
  }

  /** The values `??` replaces. */
  predicate Nullish(v: JsValue) {
    v.Undefined? || v.Null?
  }

  /** `v?.[key]`: the property of an object, otherwise undefined. */
  function Get(v: JsValue, key: string): (r: JsValue)
    ensures v.Obj? && key in v.fields ==> r == v.fields[key]
    ensures !(v.Obj? && key in v.fields) ==> r == Undefined
  {
    if v.Obj? && key in v.fields then v.fields[key] else Undefined
  }

  /** Every falsy value is either nullish or one of false, 0, NaN and "". */
  lemma FalsyValues(v: JsValue)
    ensures !Truthy(v) <==> Nullish(v) || v == Bool(false) || v == Num(0) || v == NaN || v == Str("")
  {
  }

  /** An error answer: HTTP status and error code. */
  datatype ApiError = ApiError(status: int, code: string)

  const ValidationError: ApiError := ApiError(400, "VALIDATION_ERROR")
  /** What the error handler answers for anything that is not an `ApiError`. */
  const InternalError: ApiError := ApiError(500, "INTERNAL_ERROR")

  function RequireField(v: JsValue): (r: Result<JsValue, ApiError>)
    ensures r.Ok? <==> !Nullish(v)
    ensures r.Ok? ==> r.value == v
    ensures r.Err? ==> r.error == ValidationError
  {
    if Nullish(v) then Err(ValidationError) else Ok(v)
  }

  function RequireString(v: JsValue): (r: Result<string, ApiError>)
    ensures r.Ok? <==> v.Str?
    ensures r.Ok? ==> v == Str(r.value)
    ensures r.Err? ==> r.error == ValidationError
  {
    if v.Str? then Ok(v.s) else Err(ValidationError)
  }

  /** A present string field: `requireString(requireField(v))`. */
  function RequireStringField(v: JsValue): (r: Result<string, ApiError>)
    ensures r.Ok? <==> v.Str?
    ensures r.Ok? ==> v == Str(r.value)
    ensures r.Err? ==> r.error == ValidationError
  {
    var present :- RequireField(v);
    RequireString(present)
  }

  function RequireEnum(v: JsValue, allowed: seq<string>): (r: Result<string, ApiError>)
    ensures r.Ok? <==> v.Str? && v.s in allowed
    ensures r.Ok? ==> v == Str(r.value)
    ensures r.Err? ==> r.error == ValidationError
  {
    var s :- RequireString(v);
    if s in allowed then Ok(s) else Err(ValidationError)
  }

  predicate AllStrings(items: seq<JsValue>) {
    forall i :: 0 <= i < |items| ==> items[i].Str?
  }

  /** The strings of an array of strings; the first non-string element is an error. */
  function RequireStringArray(v: JsValue): (r: Result<seq<string>, ApiError>)
    ensures r.Ok? <==> v.Arr? && AllStrings(v.items)
    ensures r.Ok? ==> |r.value| == |v.items| && forall i :: 0 <= i < |r.value| ==> v.items[i] == Str(r.value[i])
    ensures r.Err? ==> r.error == ValidationError
  {
    if !v.Arr? then Err(ValidationError) else StringsOf(v.items)
  }

  function StringsOf(items: seq<JsValue>): (r: Result<seq<string>, ApiError>)
    ensures r.Ok? <==> AllStrings(items)
    ensures r.Ok? ==> |r.value| == |items| && forall i :: 0 <= i < |r.value| ==> items[i] == Str(r.value[i])
    ensures r.Err? ==> r.error == ValidationError
  {
    if |items| == 0 then Ok([])
    else if !items[0].Str? then Err(ValidationError)
    else
      var rest :- StringsOf(items[1..]);
      assert AllStrings(items) by {
        forall i | 0 <= i < |items| ensures items[i].Str? {
          if i > 0 { assert items[i] == items[1..][i - 1]; }
        }
      }
      Ok([items[0].s] + rest)
  }

  /** `new Date(String(v))`: the instant, or None for an invalid date. */
  type DateReader = JsValue -> Option<int>

  function RequireValidDate(v: JsValue, readDate: DateReader): (r: Result<int, ApiError>)
    ensures r.Ok? <==> readDate(v).Some?
    ensures r.Ok? ==> r.value == readDate(v).value
    ensures r.Err? ==> r.error == ValidationError
  {
    match readDate(v)
    case Some(t) => Ok(t)
    case None => Err(ValidationError)
  }

  /** A number, not NaN, within the optional bounds. */
  function RequireNumber(v: JsValue, min: Option<int>, max: Option<int>): (r: Result<int, ApiError>)
    ensures r.Ok? <==> v.Num? && (min.Some? ==> v.n >= min.value) && (max.Some? ==> v.n <= max.value)
    ensures r.Ok? ==> v == Num(r.value)
    ensures r.Err? ==> r.error == ValidationError
  {
    if !v.Num? then Err(ValidationError)
    else if min.Some? && v.n < min.value then Err(ValidationError)
    else if max.Some? && v.n > max.value then Err(ValidationError)
    else Ok(v.n)
  }

  /** A non-negative count of seconds, as every duration field is checked. */
  function RequireDuration(v: JsValue): (r: Result<int, ApiError>)
    ensures r.Ok? <==> v.Num? && v.n >= 0
    ensures r.Ok? ==> v == Num(r.value) && r.value >= 0
    ensures r.Err? ==> r.error == ValidationError
  {
    RequireNumber(v, Some(0), None)
  }
}
