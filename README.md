# Movie-card generator: a Dafny model of its pure core

The server (`index.js`) turns a JSON request into a PNG movie card. This project models
the parts of that pipeline that are plain computation and proves what they promise:

- **The card template** (`MovieCard`, over the layout tree of `Layout`). `StarIcon` builds
  the star glyph. `MovieCardTemplate` maps the card's arguments to one fixed layout tree.
  The unused `stars` list is modelled too.
- **Parameter defaulting** (`CardParams`). The destructuring at the top of the
  `/api/generate-card` handler fills every absent field with the default the handler writes.
- **The download file name** (`Slug`). This is `title.toLowerCase().replace(/\s+/g, "-")`
  followed by `-movie-card.png`.
- **Image inlining** (`DataUri`, over the base64 codec of `Base64`). `fetchImageAsBase64`
  turns a fetched body into `data:<type>;base64,<body>`, following section 4 of RFC 4648.
- **The handler's decisions** (`GenerateCard`). It checks the font, inlines the image,
  renders, names the file, and answers with the error status and message the source uses.

`Js` holds the JavaScript values a request field can take: `undefined` for a field the
body does not carry, and the JSON values null, booleans, integral numbers of magnitude at
most 2^53 and strings. It also holds the conversions the core applies to them: `String(v)` and
template interpolation (ToString), the conversion behind `i < rating` (ToNumber), and `??`.

The image fetch and the two renderers (satori and resvg) are outside the model. The fetch's
outcome is an input (`DataUri.FetchOutcome`). In `GenerateCard.HandleGenerateCard`, the fetch
and the render step are function parameters.

The model follows what `index.js` does, including where a reader might expect otherwise:

- **Where defaults are applied.** The template builders apply no defaults. The handler's
  destructuring applies them, and the template inserts its arguments unchanged.
- **Which fields are defaulted.** A default replaces only an absent (undefined) field. A field
  sent as `null` stays `null`. A `null` year still gives the pill its genre and "-"; only
  the year text is empty.
- **The content-type fallback.** The code uses `|| 'image/jpeg'`, which replaces only a
  missing or empty header; a malformed but non-empty one is kept.
- **When the answer is 400.** The code answers 400 only when the fetch throws. A response
  of any status (a 404 page included) is inlined as a data URI and handed to the renderer
  (`DataUri.FetchIgnoresStatus`).
- **Ratings are not restricted.** The rating is meant as 0–10, but the code neither checks
  nor clamps it, so `11` shows as "11/10".
- **Titles Node refuses as a header.** `res.setHeader` (index.js:430) throws when the
  `Content-Disposition` value holds a character other than tab, printable ASCII or
  U+0080..U+00FF. A title such as "Ocean’s Eleven" (U+2019) therefore gets the 500 answer
  after a successful render (`GenerateCard.TypographicApostropheFails`).
- **The font message.** The font-missing message names `Inter-Bold.ttf`, but the file the
  server loads is `Roboto-Bold.ttf` (index.js:33). The model keeps the message as written.

## Model

| member | source | states |
|---|---|---|
| `Js.ToString` | index.js:253-255 | `String(v)` and template interpolation on a primitive value; `Js.ToNumberOfToString` and `Js.IntToDecimalInjective` state what it keeps of a number, `MovieCard.YearTextEmpty` when it is empty |
| `Js.ToNumber` | index.js:64 | the conversion behind `i < rating`; `Js.ToNumberOfToString` states that it reads a number's text back as the number, `MovieCard.StarsCount` what the star list makes of it |
| `Js.Coalesce` | index.js:254 | `v ?? d`; `MovieCard.YearTextEmpty` states what it yields for the year |
| `Js.IntToDecimal` | index.js:327-328 | Number::toString on an integer; `Js.ToNumberOfToString`, `Js.IntToDecimalInjective` and `Js.ParseIntegerLiteralOfDecimal` state that it reads back as the integer |
| `Js.StringToNumber` | index.js:64 | ToNumber on a string rating; `Js.TrimStartSuffix` and `Js.ToNumberOfToString` state what it reads |
| `Js.LessThan` | index.js:64 | the comparison `i < rating`; `MovieCard.StarsFilledPrefix` and `MovieCard.StarsCount` state what the star list makes of it |
| `Js.IsWhitespace` | index.js:433 | the `\s` class of the slug's pattern (also what ToNumber trims); `Slug.CollapseResult` and `Slug.ReplaceRunsOfWords` state how it decides the replacement |
| `Js.NatToDecimal` | index.js:327-328 | the decimal text of a number is non-empty, all digits, and has no leading zero except for 0 itself |
| `Js.ToNumberOfToString` | index.js:327-328 | reading back the text of an integer gives that integer: `Number(String(n)) === n` |
| `Js.IntToDecimalInjective` | index.js:327-328 | distinct integers have distinct decimal texts, so the rating label loses nothing |
| `Js.TrimStartSuffix` | index.js:64 | the white-space trimming that ToNumber applies to a string rating removes exactly a leading run of white space |
| `MovieCard.StarIcon` | index.js:42-59 | the star glyph; its attributes are stated by `MovieCard.StarIconShape` |
| `MovieCard.Stars` | index.js:64 | the five-entry `stars` list; stated by `MovieCard.StarsFilledPrefix` and `MovieCard.StarsCount` |
| `MovieCard.MovieCardTemplate` | index.js:63-358 | the card's layout tree; stated by `MovieCard.CardLayers`, `MovieCard.FullBleedStyles`, `MovieCard.CardBottomContent`, `MovieCard.CardTexts`, `MovieCard.CardImages` and `MovieCard.CardShapeIs` |
| `MovieCard.YearText` | index.js:253-255 | the pill's year text `String(year ?? "")`; stated by `MovieCard.YearTextEmpty` |
| `MovieCard.RatingLabel` | index.js:327-328 | the label beside the star; stated by `MovieCard.RatingLabelReadsBack` and `MovieCard.RatingLabelExamples` |
| `MovieCard.StarIconShape` | index.js:42-59 | the star is an svg, 32 by 32, with view box "0 0 24 24", stroke width 2 and a single path child; a filled star has fill and stroke "#facc15", an unfilled one has fill "none" and stroke "#6b7280" |
| `MovieCard.StarsFilledPrefix` | index.js:64 | the five-entry `stars` list is `FilledCount(rating)` entries `true` followed by `false` entries |
| `MovieCard.StarsCount` | index.js:64 | the number of `true` entries is the rating clamped to 0..5 (0 when the rating converts to NaN) |
| `MovieCard.CardLayers` | index.js:66-133 | the root has exactly three children, in order: a full-bleed absolute layer holding a single `img` whose src is the `image` argument verbatim, with objectFit cover; a full-bleed gradient overlay with a background and no children; and the relatively positioned content column with 40px padding |
| `MovieCard.FullBleedStyles` | index.js:82-118 | the image layer and the overlay both have `display: "flex"` and `position: "absolute"`, sit at 0 from all four edges, and the overlay has a background |
| `MovieCard.CardBottomContent` | index.js:198-351 | the bottom block holds, in order: the pill with `genre`, "-" and the year text; `title` in an h1; `description` in a p; and the rating row, where a filled star and the rating label sit beside the caption "Audience Score" |
| `MovieCard.CardTexts` | index.js:153-345 | the card's text leaves, in document order, are "NOW PLAYING", mainTitle, genre, "-", the year text, title, description, the rating label and "Audience Score", each argument unchanged |
| `MovieCard.CardImages` | index.js:91-101 | the `image` argument is the card's only image source |
| `MovieCard.CardShapeIs` | index.js:63-358 | with text and image leaves blanked out, every card is the same tree |
| `MovieCard.CardShapeFixed` | index.js:63-358 | any two cards differ only in their text and image leaves |
| `MovieCard.YearTextEmpty` | index.js:253-255 | `String(year ?? "")` is empty exactly when the year is null, undefined or the empty string |
| `MovieCard.RatingLabelReadsBack` | index.js:327-328 | the rating label ends in "/10", and the text before it reads back as the rating itself, with no clamping |
| `MovieCard.RatingLabelExamples` | index.js:327-328 | ratings 11, 4 and -3 show as "11/10", "4/10" and "-3/10" |
| `CardParams.DefaultOf` | index.js:363-374 | each field's default; the values are stated by `CardParams.FillDefaultsEmpty`, their use by `CardParams.FillDefaultsField` |
| `CardParams.TemplateArgs` | index.js:393-401 | the template's arguments: the filled fields with the inlined image; `GenerateCard.JobContents` states what the card receives |
| `CardParams.FillDefaults` | index.js:363-374 | the filled record leaves no field undefined |
| `CardParams.FillDefaultsField` | index.js:363-374 | each field takes the body's value when the body defines it (null included) and its default exactly when the body leaves it undefined |
| `CardParams.FillDefaultsEmpty` | index.js:363-374 | an empty body yields the nine defaults the handler writes, 1080 by 1350 among them |
| `CardParams.AsBody` | index.js:363-374 | a record seen as a body carries every field with its value |
| `CardParams.FillDefaultsOfComplete` | index.js:363-374 | a body that defines every field passes through unchanged |
| `CardParams.FillDefaultsIdempotent` | index.js:363-374 | filling an already filled record changes nothing |
| `CardParams.FillDefaultsIgnoresOtherFields` | index.js:363-374 | fields other than the nine have no effect |
| `Slug.ReplaceRuns` | index.js:433 | `replace(/\s+/g, "-")`; stated by `Slug.ReplaceRunsOfWords`, `Slug.CollapseResult`, `Slug.CollapseAppend`, `Slug.CollapseRun` and `Slug.ReplaceRunsAppend` |
| `Slug.Slugify` | index.js:433 | lower-casing followed by the replacement; stated by `Slug.SlugifyIdempotent`, `Slug.DefaultTitleSlug` and `Slug.ContentDispositionAccepted` |
| `Slug.DownloadFilename` | index.js:430-434 | the attachment's file name; stated by `Slug.DownloadFilenameShape` and `Slug.DefaultTitleFilename` |
| `Slug.ContentDisposition` | index.js:430-434 | the header value naming the file; when Node accepts it is stated by `Slug.ContentDispositionAccepted` |
| `Slug.Lower` | index.js:433 | lower-casing keeps the length |
| `Slug.LowerIsLower` | index.js:433 | lower-cased text is unchanged by lower-casing again |
| `Slug.CollapseResult` | index.js:433 | the replacement holds no white space, and only hyphens and characters of the title |
| `Slug.CollapseAppend` | index.js:433 | the replacement of a concatenation is that of its first part followed by that of the second, resumed inside or outside a run as the first part left it |
| `Slug.CollapseNoWhitespace` | index.js:433 | text without white space is left unchanged |
| `Slug.CollapseRun` | index.js:433 | a run of white space becomes exactly one hyphen |
| `Slug.ReplaceRunsAppend` | index.js:433 | the replacement splits over any cut that does not fall inside a run of white space |
| `Slug.CollapseNoDoubleHyphen` | index.js:433 | a title without hyphens gets no "--" from the replacement |
| `Slug.ReplaceRunsOfWords` | index.js:433 | words without white space separated by non-empty runs of white space come out as the words joined by single hyphens, whatever the runs hold and whatever hyphens the words hold; only the first and last word may be empty |
| `Slug.InterleaveHead` | index.js:433 | words interleaved with runs start with the first word's first character |
| `Slug.CollapseKeeps` | index.js:433 | every character of the title that is not white space survives the replacement |
| `Slug.HeaderValueAppend` | index.js:430 | a concatenation passes Node's header check exactly when both parts do |
| `Slug.IsHeaderChar` | index.js:430 | Node's own rule for header values, not code of index.js: `setHeader` refuses any character matching `/[^\t\x20-\x7e\x80-\xff]/`; `Slug.ContentDispositionAccepted` states what it means for a title |
| `Slug.IsHeaderValue` | index.js:430 | every character passes Node's header rule; `Slug.HeaderValueAppend` and `Slug.ContentDispositionAccepted` state how it decides the file name |
| `Slug.DispositionAccepted` | index.js:430-434 | the fixed parts of the `Content-Disposition` value pass Node's header check, so the value passes exactly when the slug does |
| `Slug.ReplaceRunsAccepted` | index.js:430-433 | the replacement passes Node's header check exactly when every character of its input other than white space does |
| `Slug.ContentDispositionAccepted` | index.js:430-434 | Node accepts the `Content-Disposition` value for a title exactly when every character of the lower-cased title other than white space is a tab, printable ASCII or in U+0080..U+00FF |
| `Slug.ReplaceRunsNoDoubleHyphen` | index.js:433 | a title without hyphens gets a slug without "--" |
| `Slug.SlugifyIdempotent` | index.js:433 | the slug of a slug is itself |
| `Slug.TwoWordSlug` | index.js:433 | two words separated by one space are joined by one hyphen |
| `Slug.DownloadFilenameShape` | index.js:430-434 | a string title gives its slug followed by "-movie-card.png", and the slug part holds no white space; any other title has no file name (`toLowerCase` throws) |
| `Slug.DefaultTitleLower` | index.js:365 | the default title lower-cases to "movie title" |
| `Slug.DefaultTitleSlug` | index.js:433 | the default title's slug is "movie-title" |
| `Slug.DefaultTitleFilename` | index.js:430-434 | the default title downloads as "movie-title-movie-card.png" |
| `Base64.Encode` | index.js:14 | `Buffer.from(buffer).toString('base64')`; stated by `Base64.EncodeLength`, `Base64.EncodeChars`, `Base64.EncodeNoPad`, `Base64.DecodeEncode` and `Base64.RfcTestVectors` |
| `Base64.EncodeLength` | index.js:14 | the encoding has 4·⌈n/3⌉ characters for n bytes |
| `Base64.EncodeChars` | index.js:14 | the encoding holds only alphabet characters and "=" |
| `Base64.EncodeNoPad` | index.js:14 | a whole number of 3-byte groups is encoded without padding |
| `Base64.DigitValueOfDigit` | index.js:14 | the 64-character alphabet maps each value 0..63 to a character that maps back to it |
| `Base64.BitsRoundTrip` | index.js:14 | splitting three bytes into four 6-bit groups and joining them again gives the bytes back |
| `Base64.DecodeEncode` | index.js:14 | decoding an encoding gives back the bytes |
| `Base64.EncodeDecode` | index.js:14 | every string the strict decoder accepts is the encoding of what it decodes to |
| `Base64.RfcTestVectors` | index.js:14 | "", "f", "fo", "foo" and "foob" encode as in section 10 of RFC 4648 |
| `DataUri.MakeDataUri` | index.js:14-16 | the data URI string; stated by `DataUri.MakeDataUriLength`, `DataUri.ParseMakeDataUri` and `DataUri.MakeParseDataUri` |
| `DataUri.FetchImageAsBase64` | index.js:10-21 | the image inlining; stated by `DataUri.FetchImageAsBase64Outcome` and `DataUri.FetchIgnoresStatus` |
| `DataUri.ContentTypeOrDefault` | index.js:15 | the media type is never empty |
| `DataUri.ContentTypeOrDefaultCases` | index.js:15 | a non-empty header is kept as it is; a missing or empty header gives "image/jpeg" |
| `DataUri.FetchImageAsBase64Outcome` | index.js:10-21 | the result is null exactly when the fetch throws; otherwise it is a non-empty string |
| `DataUri.FetchIgnoresStatus` | index.js:12-16 | the response status plays no part in the result |
| `DataUri.MakeDataUriLength` | index.js:14-16 | the URI is "data:", the media type, ";base64," and 4·⌈n/3⌉ characters of encoding |
| `DataUri.LastIndexOf` | index.js:16 | the position found holds the character, and no later position does |
| `DataUri.ParseMakeDataUri` | index.js:16 | reading a built URI back gives its media type and body, even when the media type holds ";" |
| `DataUri.MakeParseDataUri` | index.js:16 | every URI the reader accepts is exactly the URI built from what it returns |
| `GenerateCard.HandleGenerateCard` | index.js:361-443 | the handler's answer; stated by `GenerateCard.HandleGenerateCardSuccess`, `GenerateCard.HandleGenerateCardFailures`, `GenerateCard.TypographicApostropheFails` and `GenerateCard.EmptyBodyDefaults` |
| `GenerateCard.Job` | index.js:392-414 | what satori and resvg receive: the card tree and the requested width and height; stated by `GenerateCard.JobContents` |
| `GenerateCard.HandleRequest` | index.js:361-374 | the handler on `req.body` as the parser leaves it; stated by `GenerateCard.HandleRequestCases` |
| `GenerateCard.HandleRequestCases` | index.js:361-443 | a request without a body object gets 500 "Failed to generate movie card" even when no font is loaded; the font message comes exactly when there is a body and no font; a body object is handled by `HandleGenerateCard` |
| `GenerateCard.SendPng` | index.js:429-436 | sending the PNG with its headers; stated by `GenerateCard.SendPngCases` |
| `GenerateCard.SendPngCases` | index.js:429-443 | the PNG goes out, unchanged, with type image/png and the slug's file name exactly when the title is a string whose lower-cased characters other than white space pass Node's header check; otherwise the answer is 500 "Failed to generate movie card" |
| `GenerateCard.HandleGenerateCardSuccess` | index.js:361-436 | the handler answers with a PNG exactly when the font is loaded, the fetch does not throw, rendering succeeds, and the title is a string whose lower-cased characters other than white space pass Node's header check; the PNG is the rendered one, with type image/png, and the attachment is named after the title's slug |
| `GenerateCard.HandleGenerateCardFailures` | index.js:376-443 | without a font the answer is 500 with the font message, whatever else happens; 400 comes exactly when the fetch throws; every other failure (render error, non-string title, refused header) is 500 "Failed to generate movie card" |
| `GenerateCard.TypographicApostropheFails` | index.js:429-443 | a title holding U+2019 gets 500 "Failed to generate movie card" once the image is fetched, whatever the renderer does |
| `GenerateCard.JobContents` | index.js:384-414 | the renderer receives the card for the filled record: the data URI of the fetched body (which reads back as its type and bytes) is its only image; its nine text leaves are, in order, "NOW PLAYING", mainTitle, genre, "-", the year text, title, description, the rating label and "Audience Score"; the tree erases to the one card shape (so the title sits in the h1); and the canvas has the requested width and height |
| `GenerateCard.EmptyBodyDefaults` | index.js:363-374 | an empty body fetches the placeholder image and renders the default card on a 1080 by 1350 canvas, with "Popular Movies 2026" and "4/10", named "movie-title-movie-card.png" |

## Left out

- Layout, SVG emission and rasterisation (satori and resvg, index.js:392-426): these are
  foreign libraries doing floating-point work. The model hands them a `RenderJob` (tree,
  width, height) and takes their outcome as an input. The background colour and fit-to-width
  options are not modelled.
- The network fetch, `arrayBuffer` and header lookup (index.js:12-15): these are I/O. Their
  outcome is `FetchOutcome`: a rejection, or a status, an optional header and the body bytes.
- Font loading (index.js:31-39): this is filesystem I/O. The handler takes `fontLoaded` as
  an input.
- The Express shell (routing, CORS, `res.status`/`res.json`/`res.setHeader`/`res.send`, and the
  health and example endpoints): this is transport. Responses are a `Response` value. The
  `details: error.message` field of the 500 answer is left out, because the message comes
  from the foreign libraries.
- Request bodies that are not objects: a JSON array body destructures to the nine defaults, which the empty `CardParams.Body` gives. Without a JSON body,
  `req.body` is `undefined` under Express 5's parser (and `{}` under Express 4's). The
  destructuring at index.js:363-374 then throws before the font check, and the answer is 500
  "Failed to generate movie card". `GenerateCard.HandleRequest` models this with `None`. Which
  Express version runs is not part of this model.
- Non-integral numbers, objects and arrays as field values: `Js.JsValue` has primitive
  values only, and its numbers are the integers of magnitude at most 2^53. Every such
  integer is a double whose Number::toString is its plain decimal digits.
- `Js.NatToDecimal`: prints every digit of any natural number. For numbers above 2^53,
  JavaScript prints the shortest digits that read back as the same double, padded with
  zeros. `Js.JsValue` cannot hold such numbers, so the difference never reaches a card.
- `Js.StringToNumber`: reads a long digit string as its exact integer, where JavaScript
  rounds it to the nearest double. The only comparison it feeds, `i < rating` for `i` in
  0..4, gives the same answer either way.
- `Js.ToNumber`: reads a string only as an optional sign followed by decimal digits, after
  trimming white space. Fractions, exponents, hexadecimal, binary (`0b11`), octal (`0o7`)
  and "Infinity" read as NaN in the model. This matters only for the unused `stars` list.
- `Slug.Lower`: lower-cases ASCII letters only. JavaScript's full Unicode case mapping
  (including length-changing mappings) is not modelled. `Slug.ContentDispositionAccepted`
  and `GenerateCard.HandleGenerateCardSuccess` state the header condition on the
  lower-cased title, so they match the source wherever `Slug.Lower` does. Where it does not,
  the model's answer can differ: JavaScript lower-cases "Ÿ" (U+0178) to "ÿ", which Node
  accepts, but the model keeps "Ÿ" and answers 500. The same holds for U+212A, U+212B
  and U+1E9E.
- The commented-out star row (index.js:181-193): dead code. `stars` is modelled on its own.
- CSS values are opaque literals, and numeric ones are kept as their source text. No style
  value is interpreted.
- Headers on error answers: by the time a non-string title or a refused file name throws,
  index.js:429 has already set `Content-Type: image/png`, and the 500 JSON answer goes out
  with that header still set. `Response.Failure` carries no headers.
- The cover-slide template and its accent palette: the cover template is not part of this
  model.
