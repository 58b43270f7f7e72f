/**
 * The decisions of the `/api/generate-card` handler: fill in the defaults, refuse when no
 * font was loaded, inline the image, lay out the card, render it, and answer with the PNG
 * named after the title. The image fetch and the SVG and PNG renderers are outside the
 * model: they are the parameters `fetch` and `render`.
 */
module GenerateCard {
  import opened Options
  import opened Js
  import opened Layout
  import opened MovieCard
  import opened CardParams
  import opened Slug
  import opened Base64
  import opened DataUri

  /** What the handler hands to the renderer: the tree, and the canvas width and height. */
  datatype RenderJob = RenderJob(tree: Node, width: JsValue, height: JsValue)

  /** The response: a JSON error with its status, or the PNG with its headers. */
  datatype Response =
    | Failure(status: int, error: string)
    | Png(contentType: string, disposition: string, png: seq<byte>)

  const FontError := "Font not configured. Add Inter-Bold.ttf to server/fonts/"
  const FetchError := "Failed to fetch image from URL"
  const RenderError := "Failed to generate movie card"

  /** The layout and render request for a filled record and the inlined image. */
  function Job(p: CardRequest, uri: string): RenderJob {
    RenderJob(MovieCardTemplate(TemplateArgs(p, Str(uri))), p.width, p.height)
  }

  /**
   * The handler. `render` yields `None` when the layout or raster step throws; a title
   * that is not a string makes `toLowerCase` throw after rendering, and a file name that
   * Node's header check refuses makes `setHeader` throw: the handler's catch turns each
   * into the same 500 answer.
   */
  function HandleGenerateCard(
    body: Body, fontLoaded: bool, fetch: JsValue -> FetchOutcome, render: RenderJob -> Option<seq<byte>>
  ): Response {
    var p := FillDefaults(body);
    if !fontLoaded then Failure(500, FontError)
    else
      match FetchImageAsBase64(fetch(p.image))
      case None => Failure(400, FetchError)
      case Some(uri) =>
        match render(Job(p, uri))
        case None => Failure(500, RenderError)
        case Some(png) => SendPng(p.title, png)
  }

  /**
   * The handler on `req.body` as the JSON parser leaves it: `None` when there is no body
   * object (`undefined` or `null`), whose destructuring throws before the font check, so the
   * catch answers 500.
   */
  function HandleRequest(
    reqBody: Option<Body>, fontLoaded: bool, fetch: JsValue -> FetchOutcome, render: RenderJob -> Option<seq<byte>>
  ): Response {
    match reqBody
    case None => Failure(500, RenderError)
    case Some(body) => HandleGenerateCard(body, fontLoaded, fetch, render)
  }

  /**
   * Sending the rendered PNG: the file name needs a string title, and Node must accept the
   * `Content-Disposition` value; otherwise the throw becomes the 500 answer.
   */
  function SendPng(title: JsValue, png: seq<byte>): Response {
    match DownloadFilename(title)
    case None => Failure(500, RenderError)
    case Some(name) =>
      if IsHeaderValue(ContentDisposition(name)) then Png("image/png", ContentDisposition(name), png)
      else Failure(500, RenderError)
  }

  // ---------------------------------------------------------------------------
  // Properties

  /**
   * The handler answers with a PNG exactly when the font is loaded, the fetch does not
   * throw, rendering succeeds, and the title is a string whose lower case has only
   * characters that are white space or that Node accepts in a header; the PNG is the
   * rendered one and the file name is the title's slug.
   */
  lemma HandleGenerateCardSuccess(
    body: Body, fontLoaded: bool, fetch: JsValue -> FetchOutcome, render: RenderJob -> Option<seq<byte>>)
    ensures var p := FillDefaults(body);
      var resp := HandleGenerateCard(body, fontLoaded, fetch, render);
      resp.Png? <==>
        fontLoaded && fetch(p.image).Fetched?
        && render(Job(p, FetchImageAsBase64(fetch(p.image)).value)).Some? && p.title.Str?
        && IsHeaderSafeText(Lower(p.title.s))
    ensures var p := FillDefaults(body);
      var resp := HandleGenerateCard(body, fontLoaded, fetch, render);
      resp.Png? ==>
        && resp.contentType == "image/png"
        && resp.png == render(Job(p, FetchImageAsBase64(fetch(p.image)).value)).value
        && resp.disposition == "attachment; filename=\"" + Slugify(p.title.s) + "-movie-card.png\""
  {
    var p := FillDefaults(body);
    FetchImageAsBase64Outcome(fetch(p.image));
    if fontLoaded && fetch(p.image).Fetched? {
      var uri := FetchImageAsBase64(fetch(p.image)).value;
      if render(Job(p, uri)).Some? {
        SendPngCases(p.title, render(Job(p, uri)).value);
      }
    }
  }

  /**
   * The PNG goes out exactly when the title is a string whose lower case passes the header
   * check apart from white space; it is sent unchanged, named after the title's slug. Every
   * other case is the 500 answer.
   */
  lemma SendPngCases(title: JsValue, png: seq<byte>)
    ensures SendPng(title, png).Png? <==> title.Str? && IsHeaderSafeText(Lower(title.s))
    ensures SendPng(title, png).Png? ==>
      && SendPng(title, png).contentType == "image/png"
      && SendPng(title, png).png == png
      && SendPng(title, png).disposition
         == "attachment; filename=\"" + Slugify(title.s) + "-movie-card.png\""
    ensures SendPng(title, png).Failure? ==> SendPng(title, png) == Failure(500, RenderError)
  {
    if title.Str? {
      var name := Slugify(title.s) + FilenameSuffix;
      assert DownloadFilename(title) == Some(name);
      ContentDispositionAccepted(title.s);
      assert ContentDisposition(name)
          == "attachment; filename=\"" + Slugify(title.s) + "-movie-card.png\"";
    }
  }

  /**
   * The failures: 500 without a font, before anything is fetched; 400 exactly when the
   * fetch throws; 500 for a render that throws, a title that is not a string or a file
   * name the header check refuses.
   */
  lemma HandleGenerateCardFailures(
    body: Body, fontLoaded: bool, fetch: JsValue -> FetchOutcome, render: RenderJob -> Option<seq<byte>>)
    ensures !fontLoaded ==> HandleGenerateCard(body, fontLoaded, fetch, render) == Failure(500, FontError)
    ensures var resp := HandleGenerateCard(body, fontLoaded, fetch, render);
      resp.Failure? ==> resp.status == 400 || resp.status == 500
    ensures var resp := HandleGenerateCard(body, fontLoaded, fetch, render);
      resp.Failure? && resp.status == 400 <==> fontLoaded && fetch(FillDefaults(body).image).Thrown?
    ensures var resp := HandleGenerateCard(body, fontLoaded, fetch, render);
      resp.Failure? && resp.status == 500 && fontLoaded ==> resp.error == RenderError
  {
    var p := FillDefaults(body);
    FetchImageAsBase64Outcome(fetch(p.image));
    if fontLoaded && fetch(p.image).Fetched? {
      var uri := FetchImageAsBase64(fetch(p.image)).value;
      if render(Job(p, uri)).Some? {
        SendPngCases(p.title, render(Job(p, uri)).value);
      }
    }
  }

  /**
   * A request without a body object gets 500 "Failed to generate movie card" and nothing
   * is fetched or rendered, even when no font is loaded; a body object is handled as above.
   */
  lemma HandleRequestCases(
    reqBody: Option<Body>, fontLoaded: bool, fetch: JsValue -> FetchOutcome, render: RenderJob -> Option<seq<byte>>)
    ensures reqBody.None? ==> HandleRequest(reqBody, fontLoaded, fetch, render) == Failure(500, RenderError)
    ensures reqBody.Some? ==>
      HandleRequest(reqBody, fontLoaded, fetch, render) == HandleGenerateCard(reqBody.value, fontLoaded, fetch, render)
    ensures HandleRequest(reqBody, fontLoaded, fetch, render) == Failure(500, FontError)
        <==> reqBody.Some? && !fontLoaded
  {
    if reqBody.Some? {
      HandleGenerateCardFailures(reqBody.value, fontLoaded, fetch, render);
    }
  }

  /**
   * A title with a typographic apostrophe (U+2019, as in "Ocean’s Eleven") never downloads:
   * once the image is fetched the answer is the 500 error, whatever the renderer does.
   */
  lemma TypographicApostropheFails(
    body: Body, fetch: JsValue -> FetchOutcome, render: RenderJob -> Option<seq<byte>>, i: nat)
    requires FillDefaults(body).title.Str? && i < |FillDefaults(body).title.s|
    requires FillDefaults(body).title.s[i] == '\U{2019}'
    requires fetch(FillDefaults(body).image).Fetched?
    ensures HandleGenerateCard(body, true, fetch, render) == Failure(500, RenderError)
  {
    HandleGenerateCardSuccess(body, true, fetch, render);
    HandleGenerateCardFailures(body, true, fetch, render);
    assert Lower(FillDefaults(body).title.s)[i] == '\U{2019}';
    assert !IsHeaderSafeText(Lower(FillDefaults(body).title.s));
  }

  /**
   * The renderer receives the card for the filled record, with the data URI of the fetched
   * body as its only image, and the requested canvas size.
   */
  lemma JobContents(p: CardRequest, status: int, contentType: Option<string>, body: seq<byte>)
    ensures var uri := FetchImageAsBase64(Fetched(status, contentType, body)).value;
      var job := Job(p, uri);
      && ImageSources(job.tree) == [Str(uri)]
      && ParseDataUri(uri) == Some((ContentTypeOrDefault(contentType), body))
      && Texts(job.tree) ==
           [Str("NOW PLAYING"), p.mainTitle, p.genre, Str("-"), Str(YearText(p.year)),
            p.title, p.description, Str(RatingLabel(p.rating)), Str("Audience Score")]
      && Erase(job.tree) == CardShape()
      && job.width == p.width && job.height == p.height
  {
    var uri := FetchImageAsBase64(Fetched(status, contentType, body)).value;
    CardImages(TemplateArgs(p, Str(uri)));
    CardTexts(TemplateArgs(p, Str(uri)));
    CardShapeIs(TemplateArgs(p, Str(uri)));
    ParseMakeDataUri(ContentTypeOrDefault(contentType), body);
  }

  /**
   * An empty body fetches the placeholder photograph and renders the default card on a
   * 1080 by 1350 canvas, rated "4/10", and names the file "movie-title-movie-card.png".
   */
  lemma EmptyBodyDefaults(uri: string)
    ensures FillDefaults(map[]).image == Str(PlaceholderImage)
    ensures var job := Job(FillDefaults(map[]), uri);
      && job.width == Num(1080) && job.height == Num(1350)
      && |Texts(job.tree)| == 9 && Texts(job.tree)[7] == Str("4/10")
      && Texts(job.tree)[1] == Str("Popular Movies 2026")
    ensures DownloadFilename(FillDefaults(map[]).title) == Some("movie-title" + FilenameSuffix)
  {
    FillDefaultsEmpty();
    DefaultTitleFilename();
    CardTexts(TemplateArgs(Defaults, Str(uri)));
    RatingLabelExamples();
  }
}
