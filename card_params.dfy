/**
 * The parameter record of a card request: the destructuring with defaults at the top of
 * the `/api/generate-card` handler. A default replaces a field only when the field is
 * undefined, which for a JSON body means absent; a field sent as `null` stays `null`.
 */
module CardParams {
  import opened Js
  import opened MovieCard

  /** A parsed JSON request body: the fields it carries. */
  type Body = map<string, JsValue>

  /** The nine request fields, every one of them defined. */
  datatype CardRequest = CardRequest(
    mainTitle: JsValue, title: JsValue, image: JsValue, rating: JsValue, year: JsValue,
    genre: JsValue, description: JsValue, width: JsValue, height: JsValue)

  const PlaceholderImage := "https://images.unsplash.com/photo-1440404653325-ab127d49abc1?w=1080"

  const FieldNames: seq<string> :=
    ["mainTitle", "title", "image", "rating", "year", "genre", "description", "width", "height"]

  /** The default of each field, by name. */
  function DefaultOf(name: string): JsValue {
    match name
    case "mainTitle" => Str("Popular Movies 2026")
    case "title" => Str("Movie Title")
    case "image" => Str(PlaceholderImage)
    case "rating" => Num(4)
    case "year" => Num(2026)
    case "genre" => Str("Action")
    case "description" => Str("An amazing movie experience.")
    case "width" => Num(1080)
    case "height" => Num(1350)
    case _ => Undefined
  }

  /** Property access on the body: undefined for a field it does not carry. */
  function Lookup(body: Body, name: string): JsValue {
    if name in body then body[name] else Undefined
  }

  /** The value a destructuring pattern with a default binds: the default only for undefined. */
  function OrDefault(v: JsValue, d: JsValue): JsValue {
    if v.Undefined? then d else v
  }

  function Bind(body: Body, name: string): JsValue {
    OrDefault(Lookup(body, name), DefaultOf(name))
  }

  /** The request's fields after defaulting. */
  function FillDefaults(body: Body): (p: CardRequest)
    ensures IsComplete(p)
  {
    CardRequest(
      Bind(body, "mainTitle"), Bind(body, "title"), Bind(body, "image"), Bind(body, "rating"),
      Bind(body, "year"), Bind(body, "genre"), Bind(body, "description"), Bind(body, "width"),
      Bind(body, "height"))
  }

  /** A field of the record, by name. */
  function Field(p: CardRequest, name: string): JsValue {
    match name
    case "mainTitle" => p.mainTitle
    case "title" => p.title
    case "image" => p.image
    case "rating" => p.rating
    case "year" => p.year
    case "genre" => p.genre
    case "description" => p.description
    case "width" => p.width
    case "height" => p.height
    case _ => Undefined
  }

  /** No field is left undefined. */
  predicate IsComplete(p: CardRequest) {
    forall i :: 0 <= i < |FieldNames| ==> !Field(p, FieldNames[i]).Undefined?
  }

  /** The record as a JSON body carrying every field. */
  function AsBody(p: CardRequest): (body: Body)
    ensures forall i :: 0 <= i < |FieldNames| ==> Lookup(body, FieldNames[i]) == Field(p, FieldNames[i])
  {
    map i | 0 <= i < |FieldNames| :: FieldNames[i] := Field(p, FieldNames[i])
  }

  /** The arguments the handler passes to the template, with the inlined image in place of the URL. */
  function TemplateArgs(p: CardRequest, image: JsValue): CardArgs {
    CardArgs(p.mainTitle, p.title, image, p.rating, p.year, p.genre, p.description)
  }

  /** The record with every default: what an empty body yields. */
  const Defaults := CardRequest(
    DefaultOf("mainTitle"), DefaultOf("title"), DefaultOf("image"), DefaultOf("rating"),
    DefaultOf("year"), DefaultOf("genre"), DefaultOf("description"), DefaultOf("width"),
    DefaultOf("height"))

  // ---------------------------------------------------------------------------
  // Properties

  /**
   * Each field takes the body's value when the body defines it, `null` included, and its
   * default exactly when the body leaves it undefined.
   */
  lemma FillDefaultsField(body: Body, i: nat)
    requires i < |FieldNames|
    ensures var name := FieldNames[i];
      && (Lookup(body, name).Undefined? ==> Field(FillDefaults(body), name) == DefaultOf(name))
      && (!Lookup(body, name).Undefined? ==> Field(FillDefaults(body), name) == body[name])
  {
  }

  /** An empty body yields the defaults the handler writes, 1080 by 1350 pixels among them. */
  lemma FillDefaultsEmpty()
    ensures FillDefaults(map[]) == Defaults
    ensures Defaults == CardRequest(
      Str("Popular Movies 2026"), Str("Movie Title"), Str(PlaceholderImage), Num(4), Num(2026),
      Str("Action"), Str("An amazing movie experience."), Num(1080), Num(1350))
  {
  }

  /** Filling a body that already carries every field changes nothing. */
  lemma FillDefaultsOfComplete(p: CardRequest)
    requires IsComplete(p)
    ensures FillDefaults(AsBody(p)) == p
  {
    var q := FillDefaults(AsBody(p));
    forall i | 0 <= i < |FieldNames|
      ensures Field(q, FieldNames[i]) == Field(p, FieldNames[i])
    {
      FillDefaultsField(AsBody(p), i);
    }
    assert Field(q, FieldNames[0]) == Field(p, FieldNames[0]);
    assert Field(q, FieldNames[1]) == Field(p, FieldNames[1]);
    assert Field(q, FieldNames[2]) == Field(p, FieldNames[2]);
    assert Field(q, FieldNames[3]) == Field(p, FieldNames[3]);
    assert Field(q, FieldNames[4]) == Field(p, FieldNames[4]);
    assert Field(q, FieldNames[5]) == Field(p, FieldNames[5]);
    assert Field(q, FieldNames[6]) == Field(p, FieldNames[6]);
    assert Field(q, FieldNames[7]) == Field(p, FieldNames[7]);
    assert Field(q, FieldNames[8]) == Field(p, FieldNames[8]);
  }

  /** Defaulting is idempotent: filling the filled record again changes nothing. */
  lemma FillDefaultsIdempotent(body: Body)
    ensures FillDefaults(AsBody(FillDefaults(body))) == FillDefaults(body)
  {
    FillDefaultsOfComplete(FillDefaults(body));
  }

  /** Fields the handler does not read have no effect on the record. */
  lemma FillDefaultsIgnoresOtherFields(body: Body, name: string, v: JsValue)
    requires name !in FieldNames
    ensures FillDefaults(body[name := v]) == FillDefaults(body)
  {
    assert forall i :: 0 <= i < |FieldNames| ==> Lookup(body[name := v], FieldNames[i]) == Lookup(body, FieldNames[i]);
  }
}
