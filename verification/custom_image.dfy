/** The `customImage` node of the rich-text editor: its attributes and defaults,
    the markup it renders, the markup it recognises, and the insert command. */
module CustomImage {
  import opened Wrappers
  import SeqOps

  const NodeName: string := "customImage"
  const DefaultWidth: string := "300px"
  const Marker: string := "data-custom-image"

  /** The node's attributes; None is null. */
  datatype ImageAttrs = ImageAttrs(src: Option<string>, alt: Option<string>, title: Option<string>, width: Option<string>)

  /** A new node's attributes before anything is set. */
  function Defaults(): (a: ImageAttrs)
    ensures a.src.None? && a.alt.None? && a.title.None? && a.width == Some(DefaultWidth)
  {
    ImageAttrs(None, None, None, Some(DefaultWidth))
  }

  datatype Attr = Attr(name: string, value: string)

  /** A CSS declaration of a `style` attribute. */
  datatype Decl = Decl(property: string, value: string)

  /** Markup: an element with its attributes, its inline style and its children. */
  datatype Html = Element(tag: string, attrs: seq<Attr>, style: seq<Decl>, children: seq<Html>) | Text(text: string)

  /** The node's attributes as HTML attributes: null ones are not written. */
  function HtmlAttributes(a: ImageAttrs): seq<Attr> {
    (if a.src.Some? then [Attr("src", a.src.value)] else [])
    + (if a.alt.Some? then [Attr("alt", a.alt.value)] else [])
    + (if a.title.Some? then [Attr("title", a.title.value)] else [])
    + (if a.width.Some? then [Attr("width", a.width.value)] else [])
  }

  /** The width the image is drawn at: the attribute, or the default when it is
      null or empty. */
  function RenderWidth(a: ImageAttrs): string {
    if a.width.Some? && a.width.value != "" then a.width.value else DefaultWidth
  }

  /** `renderHTML`: a centred block holding a single marked image. */
  function RenderHtml(a: ImageAttrs): (h: Html)
    ensures h.Element? && h.tag == "div" && |h.children| == 1
    ensures h.children[0].Element? && h.children[0].tag == "img" && h.children[0].children == []
    ensures GetAttribute(h.children[0].attrs, Marker) == Some("true")
    ensures StyleValue(h.children[0].style, "width") == RenderWidth(a)
  {
    var img := Element("img",
      HtmlAttributes(a) + [Attr(Marker, "true")],
      ImageStyle(RenderWidth(a)),
      []);
    GetAttributeAfter(HtmlAttributes(a), Marker, "true");
    ImageStyleWidth(RenderWidth(a));
    Element("div", [], [Decl("text-align", "center"), Decl("margin", "1rem 0")], [img])
  }

  function ImageStyle(width: string): seq<Decl> {
    [Decl("width", width), Decl("max-width", "100%"), Decl("height", "auto"),
     Decl("border-radius", "4px"), Decl("display", "inline-block")]
  }

  lemma ImageStyleWidth(width: string)
    ensures StyleValue(ImageStyle(width), "width") == width
  {
    var s := ImageStyle(width);
    NotDeclared(s[1..], "width");
  }

  lemma NotDeclared(style: seq<Decl>, property: string)
    requires forall k :: 0 <= k < |style| ==> style[k].property != property
    ensures LastDeclared(style, property) == None
  {
  }

  /** `getAttribute`: the first attribute of that name. */
  function GetAttribute(attrs: seq<Attr>, name: string): Option<string> {
    if attrs == [] then None
    else if attrs[0].name == name then Some(attrs[0].value)
    else GetAttribute(attrs[1..], name)
  }

  lemma {:induction false} GetAttributeAfter(attrs: seq<Attr>, name: string, value: string)
    requires forall k :: 0 <= k < |attrs| ==> attrs[k].name != name
    ensures GetAttribute(attrs + [Attr(name, value)], name) == Some(value)
  {
    if attrs != [] {
      assert (attrs + [Attr(name, value)])[1..] == attrs[1..] + [Attr(name, value)];
      GetAttributeAfter(attrs[1..], name, value);
    }
  }

  /** `style.width` and the like: the last declaration of the property wins; "" if none. */
  function StyleValue(style: seq<Decl>, property: string): string {
    LastDeclared(style, property).GetOr("")
  }

  function LastDeclared(style: seq<Decl>, property: string): Option<string> {
    if style == [] then None
    else match LastDeclared(style[1..], property)
      case Some(v) => Some(v)
      case None => if style[0].property == property then Some(style[0].value) else None
  }

  /** The `img[data-custom-image]` rule. */
  predicate Matches(h: Html) {
    h.Element? && h.tag == "img" && GetAttribute(h.attrs, Marker).Some?
  }

  /** `getAttrs` of the rule: src, alt and title from the attributes, the width
      from the inline style with the default when it is empty. */
  function ParseImage(h: Html): (a: ImageAttrs)
    requires h.Element?
    ensures a.width.Some? && a.width.value != ""
  {
    var w := StyleValue(h.style, "width");
    ImageAttrs(GetAttribute(h.attrs, "src"), GetAttribute(h.attrs, "alt"), GetAttribute(h.attrs, "title"),
               Some(if w == "" then DefaultWidth else w))
  }

  /** Every image node found in a piece of markup, in document order. */
  function ParseNode(h: Html): seq<ImageAttrs>
    decreases h, 1
  {
    match h
    case Text(_) => []
    case Element(_, _, _, children) =>
      (if Matches(h) then [ParseImage(h)] else []) + ParseNodes(children)
  }

  function ParseNodes(hs: seq<Html>): seq<ImageAttrs>
    decreases hs, 0
  {
    if hs == [] then [] else ParseNode(hs[0]) + ParseNodes(hs[1..])
  }

  /** What a node's attributes become once rendered: a null or empty width is drawn,
      and read back, as the default. */
  function Normalize(a: ImageAttrs): (n: ImageAttrs)
    ensures n.src == a.src && n.alt == a.alt && n.title == a.title
    ensures a.width.Some? && a.width.value != "" ==> n == a
  {
    a.(width := Some(RenderWidth(a)))
  }

  lemma HtmlAttributesLookup(a: ImageAttrs)
    ensures GetAttribute(HtmlAttributes(a) + [Attr(Marker, "true")], "src") == a.src
    ensures GetAttribute(HtmlAttributes(a) + [Attr(Marker, "true")], "alt") == a.alt
    ensures GetAttribute(HtmlAttributes(a) + [Attr(Marker, "true")], "title") == a.title
  {
    var s := if a.src.Some? then [Attr("src", a.src.value)] else [];
    var l := if a.alt.Some? then [Attr("alt", a.alt.value)] else [];
    var t := if a.title.Some? then [Attr("title", a.title.value)] else [];
    var w := if a.width.Some? then [Attr("width", a.width.value)] else [];
    var m := [Attr(Marker, "true")];
    assert HtmlAttributes(a) + m == s + (l + (t + (w + m)));
    NotFound(w + m, "src"); NotFound(w + m, "alt"); NotFound(w + m, "title");
    Lookup(s, l + (t + (w + m)), "src", a.src);
    Lookup(l, t + (w + m), "src", None);
    Lookup(t, w + m, "src", None);
    Lookup(s, l + (t + (w + m)), "alt", None);
    Lookup(l, t + (w + m), "alt", a.alt);
    Lookup(t, w + m, "alt", None);
    Lookup(s, l + (t + (w + m)), "title", None);
    Lookup(l, t + (w + m), "title", None);
    Lookup(t, w + m, "title", a.title);
  }

  lemma NotFound(attrs: seq<Attr>, name: string)
    requires forall k :: 0 <= k < |attrs| ==> attrs[k].name != name
    ensures GetAttribute(attrs, name) == None
  {
  }

  /** Looking up past a prefix of at most one attribute. */
  lemma Lookup(prefix: seq<Attr>, rest: seq<Attr>, name: string, own: Option<string>)
    requires |prefix| <= 1
    requires prefix == [] ==> own.None?
    requires |prefix| == 1 ==> (prefix[0].name == name <==> own.Some?) && (own.Some? ==> prefix[0].value == own.value)
    ensures own.Some? ==> GetAttribute(prefix + rest, name) == own
    ensures own.None? ==> GetAttribute(prefix + rest, name) == GetAttribute(rest, name)
  {
    if |prefix| == 1 {
      assert (prefix + rest)[0] == prefix[0];
      assert (prefix + rest)[1..] == rest;
    } else {
      assert prefix + rest == rest;
    }
  }

  /** Rendering and then parsing gives back the node: one image, same src, alt and
      title, and the width that was drawn. */
  lemma RenderParseRoundTrip(a: ImageAttrs)
    ensures ParseNodes([RenderHtml(a)]) == [Normalize(a)]
  {
    var h := RenderHtml(a);
    var img := h.children[0];
    assert !Matches(h);
    HtmlAttributesLookup(a);
    assert ParseImage(img) == Normalize(a);
    assert ParseNode(img) == [Normalize(a)] + ParseNodes([]);
    assert ParseNodes(h.children) == ParseNode(img) + ParseNodes([]);
    assert ParseNodes([h]) == ParseNode(h) + ParseNodes([]);
  }

  /** The options `insertCustomImage` accepts. */
  datatype InsertOptions = InsertOptions(
    src: string, alt: Option<string>, title: Option<string>, width: Option<string>, align: Option<string>)

  /** A content node handed to `insertContent`. */
  datatype Content = Content(nodeType: string, attrs: InsertOptions)

  /** `insertCustomImage(attrs)` at a collapsed cursor `pos` between the block nodes
      of a document: one `customImage` node carrying exactly the given options. */
  function InsertCustomImage(doc: seq<Content>, pos: nat, opts: InsertOptions): (r: seq<Content>)
    requires pos <= |doc|
    ensures |r| == |doc| + 1
    ensures r[pos] == Content(NodeName, opts)
    ensures SeqOps.RemoveIndex(r, pos) == doc
  {
    SeqOps.InsertAt(doc, pos, Content(NodeName, opts))
  }

  /** The node the schema builds from the options: options it does not declare are
      dropped and missing ones take the defaults. */
  function NodeAttrs(opts: InsertOptions): (a: ImageAttrs)
    ensures a.src == Some(opts.src) && a.alt == opts.alt && a.title == opts.title
    ensures opts.width.None? ==> a.width == Defaults().width
    ensures opts.width.Some? ==> a.width == opts.width
  {
    ImageAttrs(Some(opts.src), opts.alt, opts.title, Some(opts.width.GetOr(DefaultWidth)))
  }

  /** `align` is not an attribute of the node: it has no effect on what is stored. */
  lemma AlignIgnored(opts: InsertOptions, align: Option<string>)
    ensures NodeAttrs(opts.(align := align)) == NodeAttrs(opts)
  {
  }
}
