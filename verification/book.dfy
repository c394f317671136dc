/**
 * A catalog book, its derived display fields and its JSON key mapping, and
 * the rented-book record the server reports for the signed-in user
 * (Models/Book.swift).
 */
module Books {

  import opened Wrappers
  import opened Text
  import Json

  datatype Book = Book(
    id: int,
    title: string,
    category: string,
    description: string,
    price: string,
    minimumRent: Option<int>,
    status: string,
    lenderId: int,
    createdAt: string,
    updatedAt: string,
    isRented: bool)

  /** A book can be rented when the server lists it as available and it is not already rented. */
  predicate IsAvailable(b: Book) {
    b.status == "available" && !b.isRented
  }

  /** A book is available iff its status is exactly "available" and it is not rented. */
  lemma AvailabilityCharacterised(b: Book)
    ensures IsAvailable(b) <==> b.status == "available" && !b.isRented
    ensures b.isRented ==> !IsAvailable(b)
    ensures forall s: string :: !IsAvailable(b.(status := s, isRented := true))
  {
  }

  const AuthorPrefix: string := "Lender #"

  /** The display author: the lender's number after a fixed prefix. */
  function Author(b: Book): (r: string)
    ensures |r| > |AuthorPrefix| && r[..|AuthorPrefix|] == AuthorPrefix
    ensures ParseInt(r[|AuthorPrefix|..]) == Some(b.lenderId)
  {
    var r := AuthorPrefix + IntText(b.lenderId);
    assert r[|AuthorPrefix|..] == IntText(b.lenderId);
    IntTextRoundTrip(b.lenderId);
    r
  }

  /** Two books show the same author exactly when they have the same lender. */
  lemma AuthorIdentifiesLender(a: Book, b: Book)
    ensures Author(a) == Author(b) <==> a.lenderId == b.lenderId
  {
    if Author(a) == Author(b) {
      assert Author(a)[|AuthorPrefix|..] == Author(b)[|AuthorPrefix|..];
    }
  }

  /** The preview shown to readers who have not rented the book: the whole description, uncut. */
  function PreviewContent(b: Book): (r: string)
    ensures r == b.description
  {
    b.description
  }

  const FullContentPrefix: string := "Full content for "

  /** The placeholder full text shown to readers who have rented the book. */
  function FullContent(b: Book): (r: string)
    ensures |r| == |FullContentPrefix| + |b.title|
    ensures r[..|FullContentPrefix|] == FullContentPrefix && r[|FullContentPrefix|..] == b.title
  {
    FullContentPrefix + b.title
  }

  /** The stored properties of a book, in declaration order. */
  datatype Field = Id | Title | Category | Description | Price | MinimumRent
                 | Status | LenderId | CreatedAt | UpdatedAt | IsRented

  /** The Swift property name of a field. */
  function PropertyName(f: Field): string {
    match f
    case Id => "id"
    case Title => "title"
    case Category => "category"
    case Description => "description"
    case Price => "price"
    case MinimumRent => "minimumRent"
    case Status => "status"
    case LenderId => "lenderId"
    case CreatedAt => "createdAt"
    case UpdatedAt => "updatedAt"
    case IsRented => "isRented"
  }

  /** The JSON key of a field under the book's coding keys. */
  function JsonKey(f: Field): string {
    if f == Title then "name" else PropertyName(f)
  }

  /** Only the title is renamed, to "name"; no two fields share a key, and "title" is no key at all. */
  lemma JsonKeysCharacterised()
    ensures forall f: Field :: (JsonKey(f) == PropertyName(f)) <==> f != Title
    ensures JsonKey(Title) == "name"
    ensures forall f: Field, g: Field :: JsonKey(f) == JsonKey(g) ==> f == g
    ensures forall f: Field :: JsonKey(f) != "title"
  {
  }

  /** The synthesised `init(from:)`: fields decoded in declaration order, each under its JSON key. */
  function DecodeBook(o: Json.Object): Result<Book, Json.DecodeError> {
    match Json.DecodeInt(o, JsonKey(Id))
    case Err(e) => Err(e)
    case Ok(id) =>
    match Json.DecodeString(o, JsonKey(Title))
    case Err(e) => Err(e)
    case Ok(title) =>
    match Json.DecodeString(o, JsonKey(Category))
    case Err(e) => Err(e)
    case Ok(category) =>
    match Json.DecodeString(o, JsonKey(Description))
    case Err(e) => Err(e)
    case Ok(description) =>
    match Json.DecodeString(o, JsonKey(Price))
    case Err(e) => Err(e)
    case Ok(price) =>
    match Json.DecodeIntIfPresent(o, JsonKey(MinimumRent))
    case Err(e) => Err(e)
    case Ok(minimumRent) =>
    match Json.DecodeString(o, JsonKey(Status))
    case Err(e) => Err(e)
    case Ok(status) =>
    match Json.DecodeInt(o, JsonKey(LenderId))
    case Err(e) => Err(e)
    case Ok(lenderId) =>
    match Json.DecodeString(o, JsonKey(CreatedAt))
    case Err(e) => Err(e)
    case Ok(createdAt) =>
    match Json.DecodeString(o, JsonKey(UpdatedAt))
    case Err(e) => Err(e)
    case Ok(updatedAt) =>
    match Json.DecodeBool(o, JsonKey(IsRented))
    case Err(e) => Err(e)
    case Ok(isRented) =>
      Ok(Book(id, title, category, description, price, minimumRent,
              status, lenderId, createdAt, updatedAt, isRented))
  }

  /** The JSON value the encoder writes for a field (`Null` stands for a left-out minimum rent). */
  function FieldValue(b: Book, f: Field): Json.Value {
    match f
    case Id => Json.Number(b.id)
    case Title => Json.Str(b.title)
    case Category => Json.Str(b.category)
    case Description => Json.Str(b.description)
    case Price => Json.Str(b.price)
    case MinimumRent => if b.minimumRent.Some? then Json.Number(b.minimumRent.value) else Json.Null
    case Status => Json.Str(b.status)
    case LenderId => Json.Number(b.lenderId)
    case CreatedAt => Json.Str(b.createdAt)
    case UpdatedAt => Json.Str(b.updatedAt)
    case IsRented => Json.Boolean(b.isRented)
  }

  /** The ten fields the encoder always writes. */
  function EncodedAlways(b: Book): Json.Object {
    map[
      JsonKey(Id) := FieldValue(b, Id),
      JsonKey(Title) := FieldValue(b, Title),
      JsonKey(Category) := FieldValue(b, Category),
      JsonKey(Description) := FieldValue(b, Description),
      JsonKey(Price) := FieldValue(b, Price),
      JsonKey(Status) := FieldValue(b, Status),
      JsonKey(LenderId) := FieldValue(b, LenderId),
      JsonKey(CreatedAt) := FieldValue(b, CreatedAt),
      JsonKey(UpdatedAt) := FieldValue(b, UpdatedAt),
      JsonKey(IsRented) := FieldValue(b, IsRented)]
  }

  /** The synthesised `encode(to:)`: a `nil` minimum rent is left out of the object. */
  function EncodeBook(b: Book): Json.Object {
    var always := EncodedAlways(b);
    if b.minimumRent.Some? then always[JsonKey(MinimumRent) := FieldValue(b, MinimumRent)] else always
  }

  /** The always-written fields sit under their own keys, and the minimum rent's key is not among them. */
  lemma AlwaysEncodedField(b: Book, f: Field)
    ensures JsonKey(f) in EncodedAlways(b) <==> f != MinimumRent
    ensures f != MinimumRent ==> EncodedAlways(b)[JsonKey(f)] == FieldValue(b, f)
  {
  }

  /** Every field is written under its key, except a `nil` minimum rent, which is left out. */
  lemma EncodedField(b: Book, f: Field)
    ensures JsonKey(f) in EncodeBook(b) <==> f != MinimumRent || b.minimumRent.Some?
    ensures JsonKey(f) in EncodeBook(b) ==> EncodeBook(b)[JsonKey(f)] == FieldValue(b, f)
  {
    AlwaysEncodedField(b, f);
    if f != MinimumRent {
      assert JsonKey(f) != JsonKey(MinimumRent);
    }
  }

  /** Decoding depends only on what the object holds under the eleven field keys. */
  lemma {:induction false} DecodeBookReadsOnlyFieldKeys(o: Json.Object, o': Json.Object)
    requires forall f: Field :: (JsonKey(f) in o <==> JsonKey(f) in o')
    requires forall f: Field :: JsonKey(f) in o ==> o[JsonKey(f)] == o'[JsonKey(f)]
    ensures DecodeBook(o) == DecodeBook(o')
  {
    SameDecodes(o, o', Id);
    SameDecodes(o, o', Title);
    SameDecodes(o, o', Category);
    SameDecodes(o, o', Description);
    SameDecodes(o, o', Price);
    SameDecodes(o, o', MinimumRent);
    SameDecodes(o, o', Status);
    SameDecodes(o, o', LenderId);
    SameDecodes(o, o', CreatedAt);
    SameDecodes(o, o', UpdatedAt);
    SameDecodes(o, o', IsRented);
  }

  /** Two objects that agree on one field's key decode that field alike. */
  lemma SameDecodes(o: Json.Object, o': Json.Object, f: Field)
    requires JsonKey(f) in o <==> JsonKey(f) in o'
    requires JsonKey(f) in o ==> o[JsonKey(f)] == o'[JsonKey(f)]
    ensures Json.DecodeInt(o, JsonKey(f)) == Json.DecodeInt(o', JsonKey(f))
    ensures Json.DecodeString(o, JsonKey(f)) == Json.DecodeString(o', JsonKey(f))
    ensures Json.DecodeBool(o, JsonKey(f)) == Json.DecodeBool(o', JsonKey(f))
    ensures Json.DecodeIntIfPresent(o, JsonKey(f)) == Json.DecodeIntIfPresent(o', JsonKey(f))
  {
  }

  /** A book Swift can hold: its integers fit in a 64-bit `Int`. */
  predicate Representable(b: Book) {
    && Json.FitsInt(b.id)
    && Json.FitsInt(b.lenderId)
    && (b.minimumRent.Some? ==> Json.FitsInt(b.minimumRent.value))
  }

  /** Every decoded book is one Swift can hold. */
  lemma DecodedBookRepresentable(o: Json.Object)
    ensures DecodeBook(o).Ok? ==> Representable(DecodeBook(o).value)
  {
  }

  /** A book whose integers fit is decoded back from its encoding unchanged. */
  lemma {:induction false} EncodedRoundTrip(b: Book)
    requires Representable(b)
    ensures DecodeBook(EncodeBook(b)) == Ok(b)
  {
    EncodedField(b, Id);
    EncodedField(b, Title);
    EncodedField(b, Category);
    EncodedField(b, Description);
    EncodedField(b, Price);
    EncodedField(b, MinimumRent);
    EncodedField(b, Status);
    EncodedField(b, LenderId);
    EncodedField(b, CreatedAt);
    EncodedField(b, UpdatedAt);
    EncodedField(b, IsRented);
  }

  /**
   * Decoding what the encoder wrote gives back the same book exactly when the
   * book's integers fit in `Int`; otherwise decoding fails.
   */
  lemma {:induction false} DecodeEncodeRoundTrip(b: Book)
    ensures DecodeBook(EncodeBook(b)) == Ok(b) <==> Representable(b)
    ensures !Representable(b) ==> DecodeBook(EncodeBook(b)).Err?
  {
    if Representable(b) {
      EncodedRoundTrip(b);
    } else {
      EncodedField(b, Id);
      EncodedField(b, MinimumRent);
      EncodedField(b, LenderId);
    }
  }

  /** A decoded title is the string under "name"; a "title" key plays no part in decoding. */
  lemma TitleReadFromName(o: Json.Object, v: Json.Value)
    ensures DecodeBook(o).Ok? ==> "name" in o && o["name"] == Json.Str(DecodeBook(o).value.title)
    ensures DecodeBook(o["title" := v]) == DecodeBook(o)
  {
    JsonKeysCharacterised();
    DecodeBookReadsOnlyFieldKeys(o, o["title" := v]);
  }

  /** A missing or null "minimumRent" decodes to `nil` rather than failing. */
  lemma MinimumRentOptional(o: Json.Object)
    requires DecodeBook(o).Ok?
    ensures DecodeBook(o).value.minimumRent.None? <==> "minimumRent" !in o || o["minimumRent"] == Json.Null
  {
  }

  /** A book the signed-in user holds, as the server reports it. */
  datatype RentedBook = RentedBook(
    id: int,
    name: string,
    category: string,
    description: string,
    price: string,
    minimumRent: int,
    status: string,
    lenderId: int,
    createdAt: string,
    updatedAt: string,
    rentedAt: string)

  /**
   * The display form of the rental moment: the rendered date when `rentedAt`
   * parses, otherwise `rentedAt` itself. Date parsing and rendering are
   * Foundation formatters, so they are parameters here.
   */
  function FormattedRentedDate(rb: RentedBook, parse: string -> Option<int>, render: int -> string): (r: string)
    ensures parse(rb.rentedAt).None? ==> r == rb.rentedAt
    ensures parse(rb.rentedAt).Some? ==> r == render(parse(rb.rentedAt).value)
  {
    match parse(rb.rentedAt)
    case Some(date) => render(date)
    case None => rb.rentedAt
  }
}
