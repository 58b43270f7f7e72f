/**
 * The image inlining of `fetchImageAsBase64`: the fetched body becomes the data URI
 * `data:<content type>;base64,<body in base64>`, with "image/jpeg" for a response whose
 * content type is missing or empty. The fetch itself is outside the model: its outcome
 * is an input.
 */
module DataUri {
  import opened Options
  import opened Base64

  /**
   * What `fetch(url)` followed by `arrayBuffer()` yields: a rejection (network failure,
   * unusable URL, unreadable body), or a response of any status with its headers and body.
   */
  datatype FetchOutcome =
    | Thrown
    | Fetched(status: int, contentType: Option<string>, body: seq<byte>)

  const DefaultContentType := "image/jpeg"
  const Scheme := "data:"
  const Marker := ";base64,"

  /** `headers.get('content-type') || 'image/jpeg'`: a missing or empty header is replaced. */
  function ContentTypeOrDefault(header: Option<string>): (ct: string)
    ensures ct != ""
  {
    match header
    case Some(h) => if h == "" then DefaultContentType else h
    case None => DefaultContentType
  }

  /** The data URI of a body with its media type. */
  function MakeDataUri(ct: string, body: seq<byte>): string {
    Scheme + ct + Marker + Encode(body)
  }

  /** `fetchImageAsBase64`: the data URI, or `None` (the source's `null`) when anything throws. */
  function FetchImageAsBase64(outcome: FetchOutcome): Option<string> {
    match outcome
    case Thrown => None
    case Fetched(_, contentType, body) => Some(MakeDataUri(ContentTypeOrDefault(contentType), body))
  }

  // ---------------------------------------------------------------------------
  // A reader for the URIs built above, to show that they lose nothing.

  /** The position of the last `c` in `s`, if there is one. */
  function LastIndexOf(s: string, c: char): (r: Option<nat>)
    ensures r.Some? ==> r.value < |s| && s[r.value] == c && c !in s[r.value + 1..]
    ensures r.None? ==> c !in s
    decreases |s|
  {
    if s == [] then None
    else if s[|s| - 1] == c then Some(|s| - 1)
    else
      var r := LastIndexOf(s[..|s| - 1], c);
      assert s == s[..|s| - 1] + [s[|s| - 1]];
      r
  }

  /**
   * Split a base64 data URI into its media type and its decoded body: the media type runs
   * from the scheme to the last ';', which must be followed by "base64," and an encoding.
   */
  function ParseDataUri(u: string): Option<(string, seq<byte>)> {
    if |u| < |Scheme| || u[..|Scheme|] != Scheme then None
    else
      var tail := u[|Scheme|..];
      match LastIndexOf(tail, ';')
      case None => None
      case Some(k) =>
        var after := tail[k..];
        if |after| < |Marker| || after[..|Marker|] != Marker then None
        else
          match Decode(after[|Marker|..])
          case None => None
          case Some(body) => Some((tail[..k], body))
  }

  // ---------------------------------------------------------------------------
  // Properties

  /** The header is kept whenever it is a non-empty string; otherwise the media type is JPEG. */
  lemma ContentTypeOrDefaultCases(header: Option<string>)
    ensures header.Some? && header.value != "" ==> ContentTypeOrDefault(header) == header.value
    ensures header.None? || header.value == "" ==> ContentTypeOrDefault(header) == "image/jpeg"
  {
  }

  /**
   * The inlining fails exactly when the fetch throws; otherwise it yields a non-empty
   * string, which the handler's `!imageBase64` test lets through, whatever the status.
   */
  lemma FetchImageAsBase64Outcome(outcome: FetchOutcome)
    ensures FetchImageAsBase64(outcome).None? <==> outcome.Thrown?
    ensures outcome.Fetched? ==> FetchImageAsBase64(outcome).value != ""
  {
  }

  /** The status of the response plays no part: an error page is inlined like an image. */
  lemma FetchIgnoresStatus(s1: int, s2: int, contentType: Option<string>, body: seq<byte>)
    ensures FetchImageAsBase64(Fetched(s1, contentType, body))
         == FetchImageAsBase64(Fetched(s2, contentType, body))
  {
  }

  /** The URI is the scheme, the media type, the marker and 4 characters per started 3 bytes. */
  lemma MakeDataUriLength(ct: string, body: seq<byte>)
    ensures |MakeDataUri(ct, body)| == 5 + |ct| + 8 + 4 * ((|body| + 2) / 3)
  {
    EncodeLength(body);
  }

  /** Reading back a data URI gives its media type and body, even a media type holding ';'. */
  lemma ParseMakeDataUri(ct: string, body: seq<byte>)
    ensures ParseDataUri(MakeDataUri(ct, body)) == Some((ct, body))
  {
    var u := MakeDataUri(ct, body);
    var e := Encode(body);
    var y := Marker + e;
    var tail := u[|Scheme|..];
    assert u == Scheme + (ct + y) && u[..|Scheme|] == Scheme && tail == ct + y;
    MarkerThenEncodingHasOneSemicolon(e, body);
    LastIndexOfAt(ct, y, ';');
    assert tail[|ct|..] == y && tail[..|ct|] == ct;
    assert y[..|Marker|] == Marker && y[|Marker|..] == e;
    DecodeEncode(body);
  }

  /** The marker's ';' is the only one after the media type: an encoding never holds ';'. */
  lemma MarkerThenEncodingHasOneSemicolon(e: string, body: seq<byte>)
    requires e == Encode(body)
    ensures (Marker + e)[0] == ';' && ';' !in (Marker + e)[1..]
  {
    EncodeChars(body);
    assert !IsBase64Char(';');
    assert (Marker + e)[1..] == "base64," + e;
  }

  /** The last `c` of `x + y`, when `y` starts with `c` and has no other. */
  lemma LastIndexOfAt(x: string, y: string, c: char)
    requires y != [] && y[0] == c && c !in y[1..]
    ensures LastIndexOf(x + y, c) == Some(|x|)
  {
    assert (x + y)[|x|] == c && (x + y)[|x| + 1..] == y[1..];
  }

  /** Whatever the reader accepts is exactly the URI built from what it returns. */
  lemma MakeParseDataUri(u: string)
    requires ParseDataUri(u).Some?
    ensures MakeDataUri(ParseDataUri(u).value.0, ParseDataUri(u).value.1) == u
  {
    var tail := u[|Scheme|..];
    var k := LastIndexOf(tail, ';').value;
    var after := tail[k..];
    var (ct, body) := ParseDataUri(u).value;
    EncodeDecode(after[|Marker|..]);
    assert after == Marker + after[|Marker|..];
    assert tail == ct + after;
    assert u == Scheme + tail;
  }
}
