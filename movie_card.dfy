/**
 * The movie-card template: the star glyph `StarIcon`, the unused `stars` list, and
 * `MovieCardTemplate`, which maps the card's arguments to a layout tree. The tree is a
 * literal: its shape, child order and styles are fixed, and the arguments land at
 * fixed text and image leaves, unchanged.
 */
module MovieCard {
  import opened Options
  import opened Js
  import opened Layout

  /** The outline of a five-pointed star in a 24 by 24 box. */
  const StarPath := "M12 2l3.09 6.26L22 9.27l-5 4.87 1.18 6.88L12 17.77l-6.18 3.25L7 14.14 2 9.27l6.91-1.01L12 2z"
  const StarYellow := "#facc15"
  const StarGrey := "#6b7280"

  /** A 32 by 32 star, filled and outlined yellow when `filled`, else a grey outline. */
  function StarIcon(filled: bool): Node {
    Svg(32, 32, "0 0 24 24",
        if filled then StarYellow else "none",
        if filled then StarYellow else StarGrey,
        2, Path(StarPath))
  }

  /** The `stars` list: entry `i` of five says whether `i < rating`. */
  function Stars(rating: JsValue): seq<bool> {
    seq(5, i => LessThan(i, rating))
  }

  /** The number of filled stars a rating asks for, clamped to the five there are. */
  function FilledCount(rating: JsValue): nat {
    match ToNumber(rating)
    case NaN => 0
    case Finite(m) => if m < 0 then 0 else if m > 5 then 5 else m
  }

  function CountTrue(s: seq<bool>): nat {
    if s == [] then 0 else (if s[0] then 1 else 0) + CountTrue(s[1..])
  }

  function Repeat(b: bool, k: nat): (r: seq<bool>)
    ensures |r| == k && forall i :: 0 <= i < k ==> r[i] == b
  {
    seq(k, _ => b)
  }

  /** The arguments of `MovieCardTemplate`: any values, inserted as they are. */
  datatype CardArgs = CardArgs(
    mainTitle: JsValue, title: JsValue, image: JsValue, rating: JsValue,
    year: JsValue, genre: JsValue, description: JsValue)

  /** The year pill text, `String(year ?? "")`. */
  function YearText(year: JsValue): string {
    ToString(Coalesce(year, Str("")))
  }

  /** The rating label, the template literal `${rating}/10`. */
  function RatingLabel(rating: JsValue): string {
    ToString(rating) + "/10"
  }

  const Flex := ("display", CssStr("flex"))
  const Column := ("flexDirection", CssStr("column"))
  const Absolute := ("position", CssStr("absolute"))
  const Relative := ("position", CssStr("relative"))
  const White := ("color", CssStr("white"))
  const Zero := CssNum("0")
  const FullBleed: Style := [Flex, Absolute, ("top", Zero), ("left", Zero), ("right", Zero), ("bottom", Zero)]
  const RootStyle: Style :=
    [Flex, Column, ("width", CssStr("100%")), ("height", CssStr("100%")),
     ("backgroundColor", CssStr("#000")), Relative]
  const CoverImageStyle: Style :=
    [("width", CssStr("100%")), ("height", CssStr("100%")), ("objectFit", CssStr("cover"))]
  const GradientStyle: Style :=
    FullBleed + [("background", CssStr("linear-gradient(to bottom, rgba(0,0,0,0.7) 0%, transparent 40%, rgba(0,0,0,0.9) 100%)"))]
  const ContentStyle: Style :=
    [Flex, Column, ("justifyContent", CssStr("space-between")), ("height", CssStr("100%")),
     ("padding", CssStr("40px")), Relative]
  const Font22: Style := [("fontSize", CssStr("22px"))]

  /** The background layer: a full-bleed box holding the image, scaled to cover. */
  function BackgroundLayer(image: JsValue): Node {
    Box("div", FullBleed, [Img(image, CoverImageStyle)])
  }

  /** The gradient overlay: a full-bleed box with a background and no children. */
  function GradientOverlay(): Node {
    Box("div", GradientStyle, [])
  }

  /** The header: the "NOW PLAYING" eyebrow above the main title. */
  function Header(mainTitle: JsValue): Node {
    Box("div", [Flex, ("justifyContent", CssStr("space-between")), ("alignItems", CssStr("flex-start"))],
      [Box("div", [Flex, Column, White],
        [Text("div", [("fontSize", CssStr("24px")), ("opacity", CssNum("0.8"))], Str("NOW PLAYING")),
         Text("div", [("fontSize", CssStr("36px")), ("marginTop", CssStr("8px"))], mainTitle)])])
  }

  /** The genre and year pill. */
  function GenreBadge(genre: JsValue, year: JsValue): Node {
    Box("div",
      [Flex, ("alignItems", CssStr("center")), ("gap", CssStr("12px")),
       ("backgroundColor", CssStr("rgba(255,255,255,0.1)")), ("padding", CssStr("12px 24px")),
       ("borderRadius", CssStr("9999px")), ("border", CssStr("1px solid rgba(255,255,255,0.2)")),
       ("alignSelf", CssStr("flex-start"))],
      [Text("span", Font22, genre),
       Text("span", Font22 + [("opacity", CssNum("0.5"))], Str("-")),
       Text("span", Font22, Str(YearText(year)))])
  }

  /** The rating row: a pill with a filled star and the label, then the caption. */
  function RatingDisplay(rating: JsValue): Node {
    Box("div", [Flex, ("alignItems", CssStr("center")), ("gap", CssStr("16px"))],
      [Box("div",
         [Flex, ("alignItems", CssStr("center")), ("gap", CssStr("8px")),
          ("backgroundColor", CssStr("rgba(250,204,21,0.2)")), ("padding", CssStr("8px 16px")),
          ("borderRadius", CssStr("9999px")), ("border", CssStr("1px solid rgba(250,204,21,0.3)"))],
         [StarIcon(true),
          Text("span", [("color", CssStr(StarYellow)), ("fontSize", CssStr("24px"))], Str(RatingLabel(rating)))]),
       Text("span", Font22 + [("opacity", CssNum("0.6"))], Str("Audience Score"))])
  }

  /** The bottom content: the pill, the title, the description and the rating row. */
  function BottomContent(a: CardArgs): Node {
    Box("div", [Flex, Column, White, ("gap", CssStr("16px"))],
      [GenreBadge(a.genre, a.year),
       Text("h1",
         [("fontSize", CssStr("72px")), ("margin", Zero), ("textShadow", CssStr("0 4px 8px rgba(0,0,0,0.5)"))],
         a.title),
       Text("p",
         [("fontSize", CssStr("28px")), ("opacity", CssNum("0.9")), ("maxWidth", CssStr("900px")),
          ("lineHeight", CssNum("1.5")), ("margin", Zero)],
         a.description),
       RatingDisplay(a.rating)])
  }

  /** The padded content column: header at the top, the rest at the bottom. */
  function Content(a: CardArgs): Node {
    Box("div", ContentStyle, [Header(a.mainTitle), BottomContent(a)])
  }

  /** The whole card: image layer, gradient overlay and content, stacked in that order. */
  function MovieCardTemplate(a: CardArgs): Node {
    Box("div", RootStyle, [BackgroundLayer(a.image), GradientOverlay(), Content(a)])
  }

  /** A flex box that pins itself to all four edges of the positioned parent. */
  predicate IsFullBleed(st: Style) {
    && StyleGet(st, "display") == Some(CssStr("flex"))
    && StyleGet(st, "position") == Some(CssStr("absolute"))
    && StyleGet(st, "top") == Some(Zero) && StyleGet(st, "left") == Some(Zero)
    && StyleGet(st, "right") == Some(Zero) && StyleGet(st, "bottom") == Some(Zero)
  }

  // ---------------------------------------------------------------------------
  // Properties

  /** The star is 32 by 32 over a 24 by 24 view box with one path; the flag picks the colours. */
  lemma StarIconShape(filled: bool)
    ensures var s := StarIcon(filled);
      && s.Svg? && s.width == 32 && s.height == 32 && s.viewBox == "0 0 24 24"
      && s.strokeWidth == 2 && s.child == Path(StarPath)
      && (filled ==> s.fill == StarYellow && s.stroke == StarYellow)
      && (!filled ==> s.fill == "none" && s.stroke == StarGrey)
      && Texts(s) == [] && ImageSources(s) == []
  {
  }

  lemma {:induction false} CountTrueAppend(s: seq<bool>, t: seq<bool>)
    ensures CountTrue(s + t) == CountTrue(s) + CountTrue(t)
    decreases |s|
  {
    if s != [] {
      assert (s + t)[0] == s[0] && (s + t)[1..] == s[1..] + t;
      CountTrueAppend(s[1..], t);
    } else {
      assert s + t == t;
    }
  }

  lemma {:induction false} CountTrueRepeat(b: bool, k: nat)
    ensures CountTrue(Repeat(b, k)) == if b then k else 0
    decreases k
  {
    if k > 0 {
      assert Repeat(b, k)[1..] == Repeat(b, k - 1);
      CountTrueRepeat(b, k - 1);
    }
  }

  /**
   * The five stars are the filled ones followed by the empty ones: `FilledCount(rating)`
   * entries `true`, then the rest `false`.
   */
  lemma StarsFilledPrefix(rating: JsValue)
    ensures Stars(rating) == Repeat(true, FilledCount(rating)) + Repeat(false, 5 - FilledCount(rating))
  {
    var k := FilledCount(rating);
    var r := Repeat(true, k) + Repeat(false, 5 - k);
    forall i | 0 <= i < 5
      ensures Stars(rating)[i] == r[i]
    {
      assert Stars(rating)[i] == LessThan(i, rating);
    }
  }

  /** The number of `true` entries is the rating clamped to 0..5 (0 for NaN). */
  lemma StarsCount(rating: JsValue)
    ensures CountTrue(Stars(rating)) == FilledCount(rating)
    ensures rating.Num? ==>
      FilledCount(rating) == (if rating.n < 0 then 0 else if rating.n > 5 then 5 else rating.n)
  {
    var k := FilledCount(rating);
    StarsFilledPrefix(rating);
    CountTrueAppend(Repeat(true, k), Repeat(false, 5 - k));
    CountTrueRepeat(true, k);
    CountTrueRepeat(false, 5 - k);
  }

  /**
   * The root stacks exactly three children: a full-bleed layer holding only the image,
   * whose source is the `image` argument; a full-bleed gradient overlay with no children;
   * and the padded, relatively positioned content column.
   */
  lemma CardLayers(a: CardArgs)
    ensures var root := MovieCardTemplate(a);
      && root.Box? && |root.children| == 3
      && var image, overlay, content := root.children[0], root.children[1], root.children[2];
      && image.Box? && IsFullBleed(image.style) && |image.children| == 1
      && image.children[0].Img? && image.children[0].src == a.image
      && StyleGet(image.children[0].style, "objectFit") == Some(CssStr("cover"))
      && overlay.Box? && IsFullBleed(overlay.style) && overlay.children == []
      && StyleGet(overlay.style, "background").Some?
      && content.Box? && StyleGet(content.style, "position") == Some(CssStr("relative"))
      && StyleGet(content.style, "flexDirection") == Some(CssStr("column"))
      && StyleGet(content.style, "padding") == Some(CssStr("40px"))
  {
    FullBleedStyles();
    StyleGetAt(CoverImageStyle, 2, "objectFit");
    StyleGetAt(ContentStyle, 1, "flexDirection");
    StyleGetAt(ContentStyle, 4, "padding");
    StyleGetAt(ContentStyle, 5, "position");
  }

  lemma FullBleedStyles()
    ensures IsFullBleed(FullBleed) && IsFullBleed(GradientStyle)
    ensures StyleGet(GradientStyle, "background").Some?
  {
    StyleGetAt(FullBleed, 0, "display");
    StyleGetAt(FullBleed, 1, "position");
    StyleGetAt(FullBleed, 2, "top");
    StyleGetAt(FullBleed, 3, "left");
    StyleGetAt(FullBleed, 4, "right");
    StyleGetAt(FullBleed, 5, "bottom");
    StyleGetAt(GradientStyle, 0, "display");
    StyleGetAt(GradientStyle, 1, "position");
    StyleGetAt(GradientStyle, 2, "top");
    StyleGetAt(GradientStyle, 3, "left");
    StyleGetAt(GradientStyle, 4, "right");
    StyleGetAt(GradientStyle, 5, "bottom");
    StyleGetAt(GradientStyle, 6, "background");
  }

  /**
   * The bottom content holds, in order: the pill with `genre`, "-" and the year text;
   * the `title` in an `h1`; the `description` in a `p`; and the rating row, where a
   * filled star and the rating label share a pill beside the caption "Audience Score".
   */
  lemma CardBottomContent(a: CardArgs)
    ensures var bottom := At(MovieCardTemplate(a), [2, 1]);
      && bottom.Some? && bottom.value.Box? && |bottom.value.children| == 4
      && var pill, heading, para, row := bottom.value.children[0], bottom.value.children[1],
           bottom.value.children[2], bottom.value.children[3];
      && pill.Box? && |pill.children| == 3
      && pill.children[0].Text? && pill.children[0].content == a.genre
      && pill.children[1].Text? && pill.children[1].content == Str("-")
      && pill.children[2].Text? && pill.children[2].content == Str(YearText(a.year))
      && heading.Text? && heading.tag == "h1" && heading.content == a.title
      && para.Text? && para.tag == "p" && para.content == a.description
      && row.Box? && |row.children| == 2
      && row.children[0].Box? && |row.children[0].children| == 2
      && row.children[0].children[0] == StarIcon(true)
      && row.children[0].children[1].Text?
      && row.children[0].children[1].content == Str(RatingLabel(a.rating))
      && row.children[1].Text? && row.children[1].content == Str("Audience Score")
  {
    assert At(MovieCardTemplate(a), [2, 1]) == At(Content(a), [1]);
    assert At(Content(a), [1]) == At(BottomContent(a), []);
  }

  /**
   * Every text leaf of the card, in document order: the fixed eyebrow, the main title,
   * the pill, the title, the description, the rating label and the fixed caption.
   */
  lemma CardTexts(a: CardArgs)
    ensures Texts(MovieCardTemplate(a)) ==
      [Str("NOW PLAYING"), a.mainTitle, a.genre, Str("-"), Str(YearText(a.year)),
       a.title, a.description, Str(RatingLabel(a.rating)), Str("Audience Score")]
  {
    SubtreeTexts(a);
    var c := Content(a);
    TextsOfSmall(c.children);
    var root := MovieCardTemplate(a);
    TextsOfSmall(root.children);
    TextsOfSmall(root.children[0].children);
    TextsOfSmall(root.children[1].children);
  }

  /** The text leaves of the header and of the bottom block, in document order. */
  lemma SubtreeTexts(a: CardArgs)
    ensures Texts(Header(a.mainTitle)) == [Str("NOW PLAYING"), a.mainTitle]
    ensures Texts(BottomContent(a)) ==
      [a.genre, Str("-"), Str(YearText(a.year)), a.title, a.description,
       Str(RatingLabel(a.rating)), Str("Audience Score")]
  {
    var h := Header(a.mainTitle);
    TextsOfSmall(h.children);
    TextsOfSmall(h.children[0].children);
    var g := GenreBadge(a.genre, a.year);
    TextsOfSmall(g.children);
    var r := RatingDisplay(a.rating);
    TextsOfSmall(r.children);
    TextsOfSmall(r.children[0].children);
    var b := BottomContent(a);
    TextsOfSmall(b.children);
  }

  /** The `image` argument is the card's one image source. */
  lemma CardImages(a: CardArgs)
    ensures ImageSources(MovieCardTemplate(a)) == [a.image]
  {
    SubtreeImages(a);
    var c := Content(a);
    ImageSourcesOfSmall(c.children);
    var root := MovieCardTemplate(a);
    ImageSourcesOfSmall(root.children);
    ImageSourcesOfSmall(root.children[0].children);
    ImageSourcesOfSmall(root.children[1].children);
  }

  /** The header and the bottom block hold no image. */
  lemma SubtreeImages(a: CardArgs)
    ensures ImageSources(Header(a.mainTitle)) == []
    ensures ImageSources(BottomContent(a)) == []
  {
    var h := Header(a.mainTitle);
    ImageSourcesOfSmall(h.children);
    ImageSourcesOfSmall(h.children[0].children);
    var g := GenreBadge(a.genre, a.year);
    ImageSourcesOfSmall(g.children);
    var r := RatingDisplay(a.rating);
    ImageSourcesOfSmall(r.children);
    ImageSourcesOfSmall(r.children[0].children);
    var b := BottomContent(a);
    ImageSourcesOfSmall(b.children);
  }

  /** The arguments change only the text and image leaves: every card has the same shape. */
  lemma CardShapeFixed(a: CardArgs, b: CardArgs)
    ensures Erase(MovieCardTemplate(a)) == Erase(MovieCardTemplate(b))
  {
    forall x: CardArgs ensures Erase(MovieCardTemplate(x)) == CardShape() {
      CardShapeIs(x);
    }
  }

  /** The one shape every card has. */
  function CardShape(): Node {
    Erase(MovieCardTemplate(CardArgs(Undefined, Undefined, Undefined, Undefined, Undefined, Undefined, Undefined)))
  }

  lemma CardShapeIs(a: CardArgs)
    ensures Erase(MovieCardTemplate(a)) == CardShape()
  {
    var u := CardArgs(Undefined, Undefined, Undefined, Undefined, Undefined, Undefined, Undefined);
    SubtreeShapes(a, u);
    var ca, cu := Content(a), Content(u);
    EraseAllSmall(ca.children); EraseAllSmall(cu.children);
    var ta, tu := MovieCardTemplate(a), MovieCardTemplate(u);
    EraseAllSmall(ta.children[0].children); EraseAllSmall(tu.children[0].children);
    EraseAllSmall(ta.children); EraseAllSmall(tu.children);
  }

  /** The header and the bottom block have the same shape for any two argument records. */
  lemma SubtreeShapes(a: CardArgs, u: CardArgs)
    ensures Erase(Header(a.mainTitle)) == Erase(Header(u.mainTitle))
    ensures Erase(BottomContent(a)) == Erase(BottomContent(u))
  {
    var ha, hu := Header(a.mainTitle), Header(u.mainTitle);
    EraseAllSmall(ha.children[0].children); EraseAllSmall(hu.children[0].children);
    EraseAllSmall(ha.children); EraseAllSmall(hu.children);
    var ga, gu := GenreBadge(a.genre, a.year), GenreBadge(u.genre, u.year);
    EraseAllSmall(ga.children); EraseAllSmall(gu.children);
    var ra, ru := RatingDisplay(a.rating), RatingDisplay(u.rating);
    EraseAllSmall(ra.children[0].children); EraseAllSmall(ru.children[0].children);
    EraseAllSmall(ra.children); EraseAllSmall(ru.children);
    var ba, bu := BottomContent(a), BottomContent(u);
    EraseAllSmall(ba.children); EraseAllSmall(bu.children);
  }

  /** The year pill is empty exactly when the year is null, undefined or the empty string. */
  lemma YearTextEmpty(year: JsValue)
    ensures YearText(year) == "" <==> IsNullish(year) || year == Str("")
  {
    if year.Num? {
      assert |IntToDecimal(year.n)| >= 1;
    }
  }

  /**
   * The rating label is the rating's decimal text followed by "/10", with no clamping:
   * the text before "/10" reads back as the rating itself, whatever its size or sign.
   */
  lemma RatingLabelReadsBack(n: ExactInt)
    ensures var l := RatingLabel(Num(n));
      && |l| >= 4 && l[|l| - 3..] == "/10"
      && ToNumber(Str(l[..|l| - 3])) == Finite(n)
  {
    var l := RatingLabel(Num(n));
    assert l[..|l| - 3] == ToString(Num(n));
    ToNumberOfToString(n);
  }

  /** A rating of 11 shows as "11/10" beside the star and 4 shows as "4/10". */
  lemma RatingLabelExamples()
    ensures RatingLabel(Num(11)) == "11/10"
    ensures RatingLabel(Num(4)) == "4/10"
    ensures RatingLabel(Num(-3)) == "-3/10"
  {
    assert NatToDecimal(1) == "1";
    assert NatToDecimal(11) == NatToDecimal(1) + "1";
  }
}
