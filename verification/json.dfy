/**
 * The part of Swift's `JSONDecoder` / `JSONEncoder` the records use: a JSON
 * object as a map from keys to scalar values, and the keyed-container calls
 * `decode` and `decodeIfPresent` for `Int`, `String` and `Bool`.
 */
module Json {

  import opened Wrappers

  /** A JSON value as a record field sees it; arrays, objects and non-integral numbers are `Other`. */
  datatype Value = Null | Boolean(b: bool) | Number(n: int) | Str(s: string) | Other

  type Object = map<string, Value>

  /** The `DecodingError` cases a keyed container throws. */
  datatype DecodeError =
    | KeyNotFound(key: string)
    | ValueNotFound(key: string)
    | TypeMismatch(key: string)
    | DataCorrupted(key: string)

  /** The bounds of Swift's 64-bit `Int`. */
  const IntMin: int := -0x8000_0000_0000_0000
  const IntMax: int := 0x7FFF_FFFF_FFFF_FFFF

  /** A JSON integer that an `Int` can hold. */
  predicate FitsInt(n: int) {
    IntMin <= n <= IntMax
  }

  /**
   * `container.decode(Int.self, forKey:)`: the key must be present, non-null
   * and an integer; one outside the `Int` range is reported as corrupted data.
   */
  function DecodeInt(o: Object, key: string): (r: Result<int, DecodeError>)
    ensures r.Ok? <==> key in o && o[key].Number? && FitsInt(o[key].n)
    ensures r.Ok? ==> r.value == o[key].n
    ensures r == Err(DataCorrupted(key)) <==> key in o && o[key].Number? && !FitsInt(o[key].n)
  {
    if key !in o then Err(KeyNotFound(key))
    else match o[key]
      case Null => Err(ValueNotFound(key))
      case Number(n) => if FitsInt(n) then Ok(n) else Err(DataCorrupted(key))
      case _ => Err(TypeMismatch(key))
  }

  /** `container.decode(String.self, forKey:)`. */
  function DecodeString(o: Object, key: string): (r: Result<string, DecodeError>)
    ensures r.Ok? <==> key in o && o[key].Str?
    ensures r.Ok? ==> r.value == o[key].s
  {
    if key !in o then Err(KeyNotFound(key))
    else match o[key]
      case Null => Err(ValueNotFound(key))
      case Str(s) => Ok(s)
      case _ => Err(TypeMismatch(key))
  }

  /** `container.decode(Bool.self, forKey:)`. */
  function DecodeBool(o: Object, key: string): (r: Result<bool, DecodeError>)
    ensures r.Ok? <==> key in o && o[key].Boolean?
    ensures r.Ok? ==> r.value == o[key].b
  {
    if key !in o then Err(KeyNotFound(key))
    else match o[key]
      case Null => Err(ValueNotFound(key))
      case Boolean(b) => Ok(b)
      case _ => Err(TypeMismatch(key))
  }

  /**
   * `container.decodeIfPresent(Int.self, forKey:)`: a missing key and `null`
   * both give `nil`; an integer outside the `Int` range is corrupted data.
   */
  function DecodeIntIfPresent(o: Object, key: string): (r: Result<Option<int>, DecodeError>)
    ensures r.Ok? && r.value.None? <==> key !in o || o[key].Null?
    ensures r.Ok? && r.value.Some? <==> key in o && o[key].Number? && FitsInt(o[key].n)
    ensures r.Ok? && r.value.Some? ==> r.value.value == o[key].n
  {
    if key !in o then Ok(None)
    else match o[key]
      case Null => Ok(None)
      case Number(n) => if FitsInt(n) then Ok(Some(n)) else Err(DataCorrupted(key))
      case _ => Err(TypeMismatch(key))
  }

  /** `container.decodeIfPresent(String.self, forKey:)`. */
  function DecodeStringIfPresent(o: Object, key: string): (r: Result<Option<string>, DecodeError>)
    ensures r.Ok? && r.value.None? <==> key !in o || o[key].Null?
    ensures r.Ok? && r.value.Some? <==> key in o && o[key].Str?
    ensures r.Ok? && r.value.Some? ==> r.value.value == o[key].s
  {
    if key !in o then Ok(None)
    else match o[key]
      case Null => Ok(None)
      case Str(s) => Ok(Some(s))
      case _ => Err(TypeMismatch(key))
  }
}
