/**
 * A rental as the client shows it, and its hand-written decoder with date
 * defaults (Models/Rental.swift). Dates are whole seconds; the ISO 8601
 * parser and the current time are parameters.
 */
module Rentals {

  import opened Wrappers
  import Json

  datatype Rental = Rental(id: int, bookId: int, userId: int, rentedDate: int, expiryDate: int, isActive: bool)

  /** Seven days, the expiry given to a rental whose expiry date is missing or unreadable. */
  const DefaultRentalSeconds: int := 7 * 24 * 60 * 60

  /**
   * A date field read with `decodeIfPresent(String.self, ...)`: a present
   * non-string value throws; a missing, null or unparsable string falls back
   * to `default`.
   */
  function DecodeDateOr(o: Json.Object, key: string, parseIso: string -> Option<int>, default: int): (r: Result<int, Json.DecodeError>)
    ensures r.Err? <==> key in o && !o[key].Null? && !o[key].Str?
    ensures r.Ok? && key in o && o[key].Str? && parseIso(o[key].s).Some? ==> r.value == parseIso(o[key].s).value
    ensures r.Ok? && (key !in o || o[key].Null? || parseIso(o[key].s).None?) ==> r.value == default
  {
    match Json.DecodeStringIfPresent(o, key)
    case Err(e) => Err(e)
    case Ok(Some(text)) => Ok(parseIso(text).GetOr(default))
    case Ok(None) => Ok(default)
  }

  /** The hand-written `init(from:)`, in its statement order. */
  function DecodeRental(o: Json.Object, parseIso: string -> Option<int>, now: int): (r: Result<Rental, Json.DecodeError>)
    ensures r.Ok? <==>
      && Json.DecodeInt(o, "id").Ok? && Json.DecodeInt(o, "bookId").Ok? && Json.DecodeInt(o, "userId").Ok?
      && DecodeDateOr(o, "rentedDate", parseIso, now).Ok?
      && DecodeDateOr(o, "expiryDate", parseIso, now + DefaultRentalSeconds).Ok?
      && Json.DecodeBool(o, "isActive").Ok?
    ensures r.Ok? ==>
      && Json.DecodeInt(o, "id") == Ok(r.value.id)
      && Json.DecodeInt(o, "bookId") == Ok(r.value.bookId)
      && Json.DecodeInt(o, "userId") == Ok(r.value.userId)
      && Json.DecodeBool(o, "isActive") == Ok(r.value.isActive)
  {
    match Json.DecodeInt(o, "id")
    case Err(e) => Err(e)
    case Ok(id) =>
    match Json.DecodeInt(o, "bookId")
    case Err(e) => Err(e)
    case Ok(bookId) =>
    match Json.DecodeInt(o, "userId")
    case Err(e) => Err(e)
    case Ok(userId) =>
    match DecodeDateOr(o, "rentedDate", parseIso, now)
    case Err(e) => Err(e)
    case Ok(rentedDate) =>
    match DecodeDateOr(o, "expiryDate", parseIso, now + DefaultRentalSeconds)
    case Err(e) => Err(e)
    case Ok(expiryDate) =>
    match Json.DecodeBool(o, "isActive")
    case Err(e) => Err(e)
    case Ok(isActive) => Ok(Rental(id, bookId, userId, rentedDate, expiryDate, isActive))
  }

  /** A missing required key makes decoding fail, naming the first such key in decoding order. */
  lemma RequiredKeys(o: Json.Object, parseIso: string -> Option<int>, now: int)
    ensures "id" !in o ==> DecodeRental(o, parseIso, now) == Err(Json.KeyNotFound("id"))
    ensures "bookId" !in o ==> DecodeRental(o, parseIso, now).Err?
    ensures "userId" !in o ==> DecodeRental(o, parseIso, now).Err?
    ensures "isActive" !in o ==> DecodeRental(o, parseIso, now).Err?
  {
  }

  /** Missing or unparsable dates default to now and to seven days from now; parsable ones are kept. */
  lemma DateDefaults(o: Json.Object, parseIso: string -> Option<int>, now: int)
    requires DecodeRental(o, parseIso, now).Ok?
    ensures var r := DecodeRental(o, parseIso, now).value;
      && (("rentedDate" !in o || o["rentedDate"].Null? || parseIso(o["rentedDate"].s).None?) ==> r.rentedDate == now)
      && (("rentedDate" in o && o["rentedDate"].Str? && parseIso(o["rentedDate"].s).Some?) ==>
            r.rentedDate == parseIso(o["rentedDate"].s).value)
      && (("expiryDate" !in o || o["expiryDate"].Null? || parseIso(o["expiryDate"].s).None?) ==>
            r.expiryDate == now + 604800)
      && (("expiryDate" in o && o["expiryDate"].Str? && parseIso(o["expiryDate"].s).Some?) ==>
            r.expiryDate == parseIso(o["expiryDate"].s).value)
  {
  }

  /**
   * An object holding the four required fields and no dates decodes, with
   * both defaults, exactly when its three integers fit in `Int`.
   */
  lemma MinimalObjectDecodes(id: int, bookId: int, userId: int, active: bool, parseIso: string -> Option<int>, now: int)
    ensures var r := DecodeRental(map["id" := Json.Number(id), "bookId" := Json.Number(bookId),
                                      "userId" := Json.Number(userId), "isActive" := Json.Boolean(active)], parseIso, now);
      && (r.Ok? <==> Json.FitsInt(id) && Json.FitsInt(bookId) && Json.FitsInt(userId))
      && (r.Ok? ==> r.value == Rental(id, bookId, userId, now, now + DefaultRentalSeconds, active))
  {
  }
}
