/**
 * The layout tree the card template hands to the layout engine: the `{type, props}`
 * objects of the template, as a closed set of node kinds. Style values are opaque CSS
 * literals kept in the order the template writes them; nothing here interprets them.
 */
module Layout {
  import opened Options
  import opened Js

  /** A CSS property value: a string literal, or a numeric literal kept as its source text. */
  datatype CssValue = CssStr(text: string) | CssNum(literal: string)

  /** The `style` object of an element: property names and values in source order. */
  type Style = seq<(string, CssValue)>

  datatype Node =
    /** An element (`div`, `span`, `h1`, `p`) whose children are elements. */
    | Box(tag: string, style: Style, children: seq<Node>)
    /** An element whose single child is a primitive value, rendered as text. */
    | Text(tag: string, style: Style, content: JsValue)
    /** An `img` element. */
    | Img(src: JsValue, style: Style)
    /** An `svg` element with its presentation attributes and single child. */
    | Svg(width: int, height: int, viewBox: string, fill: string, stroke: string,
          strokeWidth: int, child: Node)
    /** A `path` element inside an `svg`. */
    | Path(d: string)

  /** The value a style gives a property, if it gives one. */
  function StyleGet(st: Style, key: string): Option<CssValue> {
    if st == [] then None
    else if st[0].0 == key then Some(st[0].1)
    else StyleGet(st[1..], key)
  }

  /** A property given by the first entry that names it. */
  lemma {:induction false} StyleGetAt(st: Style, i: nat, key: string)
    requires i < |st| && st[i].0 == key
    requires forall j :: 0 <= j < i ==> st[j].0 != key
    ensures StyleGet(st, key) == Some(st[i].1)
    decreases i
  {
    if i > 0 {
      StyleGetAt(st[1..], i - 1, key);
    }
  }

  /** The text contents of a tree, in document order. */
  function Texts(n: Node): seq<JsValue>
    decreases n, 1
  {
    match n
    case Box(_, _, children) => TextsOf(children)
    case Text(_, _, content) => [content]
    case Img(_, _) => []
    case Svg(_, _, _, _, _, _, child) => Texts(child)
    case Path(_) => []
  }

  function TextsOf(ns: seq<Node>): seq<JsValue>
    decreases ns, 0
  {
    if ns == [] then [] else Texts(ns[0]) + TextsOf(ns[1..])
  }

  /** The image sources of a tree, in document order. */
  function ImageSources(n: Node): seq<JsValue>
    decreases n, 1
  {
    match n
    case Box(_, _, children) => ImageSourcesOf(children)
    case Text(_, _, _) => []
    case Img(src, _) => [src]
    case Svg(_, _, _, _, _, _, child) => ImageSources(child)
    case Path(_) => []
  }

  function ImageSourcesOf(ns: seq<Node>): seq<JsValue>
    decreases ns, 0
  {
    if ns == [] then [] else ImageSources(ns[0]) + ImageSourcesOf(ns[1..])
  }

  /**
   * The shape of a tree: every text content and image source blanked out, everything
   * else (kinds, tags, styles, attributes, child order) kept.
   */
  function Erase(n: Node): Node
    decreases n, 1
  {
    match n
    case Box(tag, style, children) => Box(tag, style, EraseAll(children))
    case Text(tag, style, _) => Text(tag, style, Undefined)
    case Img(_, style) => Img(Undefined, style)
    case Svg(w, h, vb, fill, stroke, sw, child) => Svg(w, h, vb, fill, stroke, sw, Erase(child))
    case Path(d) => Path(d)
  }

  function EraseAll(ns: seq<Node>): (r: seq<Node>)
    ensures |r| == |ns|
    decreases ns, 0
  {
    if ns == [] then [] else [Erase(ns[0])] + EraseAll(ns[1..])
  }

  /** The node reached by following child indexes from the root. */
  function At(n: Node, path: seq<nat>): Option<Node>
    decreases |path|
  {
    if path == [] then Some(n)
    else match n
      case Box(_, _, children) =>
        if path[0] < |children| then At(children[path[0]], path[1..]) else None
      case Svg(_, _, _, _, _, _, child) =>
        if path[0] == 0 then At(child, path[1..]) else None
      case _ => None
  }

  // Unfolding the list functions over short child lists, as the templates write them.

  lemma {:induction false} TextsOfSmall(ns: seq<Node>)
    ensures |ns| == 0 ==> TextsOf(ns) == []
    ensures |ns| == 1 ==> TextsOf(ns) == Texts(ns[0])
    ensures |ns| == 2 ==> TextsOf(ns) == Texts(ns[0]) + Texts(ns[1])
    ensures |ns| == 3 ==> TextsOf(ns) == Texts(ns[0]) + Texts(ns[1]) + Texts(ns[2])
    ensures |ns| == 4 ==> TextsOf(ns) == Texts(ns[0]) + Texts(ns[1]) + Texts(ns[2]) + Texts(ns[3])
    decreases |ns|
  {
    if ns != [] { TextsOfSmall(ns[1..]); }
  }

  lemma {:induction false} ImageSourcesOfSmall(ns: seq<Node>)
    ensures |ns| == 0 ==> ImageSourcesOf(ns) == []
    ensures |ns| == 1 ==> ImageSourcesOf(ns) == ImageSources(ns[0])
    ensures |ns| == 2 ==> ImageSourcesOf(ns) == ImageSources(ns[0]) + ImageSources(ns[1])
    ensures |ns| == 3 ==> ImageSourcesOf(ns) == ImageSources(ns[0]) + ImageSources(ns[1]) + ImageSources(ns[2])
    ensures |ns| == 4 ==>
      ImageSourcesOf(ns) == ImageSources(ns[0]) + ImageSources(ns[1]) + ImageSources(ns[2]) + ImageSources(ns[3])
    decreases |ns|
  {
    if ns != [] { ImageSourcesOfSmall(ns[1..]); }
  }

  lemma {:induction false} EraseAllSmall(ns: seq<Node>)
    ensures |ns| == 0 ==> EraseAll(ns) == []
    ensures |ns| == 1 ==> EraseAll(ns) == [Erase(ns[0])]
    ensures |ns| == 2 ==> EraseAll(ns) == [Erase(ns[0]), Erase(ns[1])]
    ensures |ns| == 3 ==> EraseAll(ns) == [Erase(ns[0]), Erase(ns[1]), Erase(ns[2])]
    ensures |ns| == 4 ==> EraseAll(ns) == [Erase(ns[0]), Erase(ns[1]), Erase(ns[2]), Erase(ns[3])]
    decreases |ns|
  {
    if ns != [] { EraseAllSmall(ns[1..]); }
  }
}
