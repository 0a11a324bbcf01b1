/**
 * The HTML helper of the templating layer: document types, the character
 * set declaration, links and meta links, script, stylesheet and image tags,
 * and generic element wrappers. Each helper is a text-producing function;
 * its contract says how the text reads back as elements.
 */
module Html {
  import opened Wrappers
  import opened Strings
  import opened Entities
  import opened Markup
  import opened Assets

  // ---------------------------------------------------------------------
  // Escaping

  /** The `escape` option as callers pass it: left out, a boolean or a character set name. */
  datatype EscapeOption = Unset | Flag(on: bool) | Encoding(charset: string)

  /** PHP truthiness of the option; leaving it out means escaping. */
  predicate Escaping(e: EscapeOption) {
    match e
    case Unset => true
    case Flag(on) => on
    case Encoding(charset) => charset != "" && charset != "0"
  }

  /** Text as it goes into the markup: entity-encoded when `escape` is on, raw otherwise. */
  function Encode(s: string, escape: bool): (r: string)
    ensures escape ==> Unescape(r) == s && '<' !in r && '"' !in r
    ensures !escape ==> r == s
  {
    if escape then UnescapeEscape(s); Escape(s) else s
  }

  function EncodeAttrs(attrs: seq<Attr>, escape: bool): (r: seq<Attr>)
    ensures |r| == |attrs|
    ensures forall i :: 0 <= i < |attrs| ==> r[i] == Attr(attrs[i].key, Encode(attrs[i].value, escape))
  {
    if attrs == [] then [] else [Attr(attrs[0].key, Encode(attrs[0].value, escape))] + EncodeAttrs(attrs[1..], escape)
  }

  // ---------------------------------------------------------------------
  // Document types

  const Declaration := "<!DOCTYPE "

  const XhtmlStrict := Declaration + "html PUBLIC \"-//W3C//DTD XHTML 1.0 Strict//EN\" "
    + "\"http://www.w3.org/TR/xhtml1/DTD/xhtml1-strict.dtd\">"

  const Html4Strict := Declaration + "HTML PUBLIC \"-//W3C//DTD HTML 4.01//EN\" "
    + "\"http://www.w3.org/TR/html4/strict.dtd\">"

  const DocTypes: map<string, string> := map["xhtml-strict" := XhtmlStrict, "html4-strict" := Html4Strict]

  /** The declaration for a document type key, or nothing (PHP `null`) for an unknown key. */
  function DocType(key: string): (r: Option<string>)
    ensures r.Some? <==> key in DocTypes
    ensures r.Some? ==> StartsWith(r.value, Declaration)
  {
    if key in DocTypes then
      assert forall x: string :: (Declaration + x)[..|Declaration|] == Declaration;
      Some(DocTypes[key])
    else None
  }

  // ---------------------------------------------------------------------
  // Character set

  function CharsetElement(encoding: string): Element {
    Element("meta", [Attr("http-equiv", "Content-Type"), Attr("content", Escape("text/html; charset=" + encoding))], Void)
  }

  /** A content-type meta tag with content `content`, as a shape with the content left open. */
  lemma CharsetShape(e: Element, content: string)
    requires e == Element("meta", [Attr("http-equiv", "Content-Type"), Attr("content", content)], Void)
    requires '"' !in content
    ensures ValidElement(e) && HasAttrs(e, map["http-equiv" := "Content-Type", "content" := content])
  {
    NameFacts();
    TwoAttrs(e, "http-equiv", "Content-Type", "content", content);
  }

  /** The content-type meta tag declaring `encoding`, UTF-8 unless another is named. */
  function Charset(encoding: string := "utf-8"): (r: string)
    ensures ParseAll(r).Some? && |ParseAll(r).value| == 1
    ensures var e := ParseAll(r).value[0];
      e.name == "meta" && e.body == Void
      && HasAttrs(e, map["http-equiv" := "Content-Type", "content" := Escape("text/html; charset=" + encoding)])
  {
    var e := CharsetElement(encoding);
    CharsetShape(e, Escape("text/html; charset=" + encoding));
    ParseRenderOne(e);
    Render(e)
  }

  // ---------------------------------------------------------------------
  // Scripts, stylesheets and images

  function ScriptElement(path: string): Element {
    Element("script", [Attr("type", "text/javascript"), Attr("src", Escape(AssetPath(ScriptAsset, path)))], Content(""))
  }

  /** How a script tag for `path` reads: nothing inside, a type and the resolved source. */
  predicate IsScriptTag(e: Element, path: string) {
    e.name == "script" && e.body == Content("")
    && HasAttrs(e, map["type" := "text/javascript", "src" := Escape(AssetPath(ScriptAsset, path))])
  }

  /** A script element with source `src`, as a shape with the source left open. */
  lemma ScriptShape(e: Element, src: string)
    requires e == Element("script", [Attr("type", "text/javascript"), Attr("src", src)], Content(""))
    requires '"' !in src
    ensures ValidElement(e) && HasAttrs(e, map["type" := "text/javascript", "src" := src])
  {
    NameFacts();
    TwoAttrs(e, "type", "text/javascript", "src", src);
  }

  lemma ScriptElementFacts(path: string)
    ensures ValidElement(ScriptElement(path)) && IsScriptTag(ScriptElement(path), path)
  {
    var src := Escape(AssetPath(ScriptAsset, path));
    ScriptShape(ScriptElement(path), src);
  }

  /** `script` for a single name. */
  function Script(path: string): (r: string)
    ensures ParseAll(r).Some? && |ParseAll(r).value| == 1 && IsScriptTag(ParseAll(r).value[0], path)
  {
    ScriptElementFacts(path);
    ParseRenderOne(ScriptElement(path));
    Render(ScriptElement(path))
  }

  function ScriptElements(paths: seq<string>): (r: seq<Element>)
    ensures |r| == |paths|
    ensures forall i :: 0 <= i < |paths| ==> r[i] == ScriptElement(paths[i])
  {
    if paths == [] then []
    else
      var tail := ScriptElements(paths[1..]);
      assert forall i :: 0 < i < |paths| ==> tail[i - 1] == ScriptElement(paths[i]);
      [ScriptElement(paths[0])] + tail
  }

  /** `script` for a list of names: one tag per name, in the order given, one per line. */
  function Scripts(paths: seq<string>): (r: string)
    ensures ParseAll(r).Some? && |ParseAll(r).value| == |paths|
    ensures forall i :: 0 <= i < |paths| ==> IsScriptTag(ParseAll(r).value[i], paths[i])
  {
    var es := ScriptElements(paths);
    assert ValidElements(es) && forall i :: 0 <= i < |paths| ==> IsScriptTag(es[i], paths[i]) by {
      forall i | 0 <= i < |paths| ensures ValidElement(es[i]) && IsScriptTag(es[i], paths[i]) {
        ScriptElementFacts(paths[i]);
      }
    }
    ParseRenderAll(es);
    RenderAll(es)
  }

  function StyleElement(path: string): Element {
    Element("link", [Attr("rel", "stylesheet"), Attr("type", "text/css"), Attr("href", Escape(AssetPath(StyleAsset, path)))], Void)
  }

  /** How a stylesheet link for `path` reads: self-closed, rel, type and the resolved address. */
  predicate IsStyleTag(e: Element, path: string) {
    e.name == "link" && e.body == Void
    && HasAttrs(e, map["rel" := "stylesheet", "type" := "text/css", "href" := Escape(AssetPath(StyleAsset, path))])
  }

  /** A stylesheet link with address `href`, as a shape with the address left open. */
  lemma StyleShape(e: Element, href: string)
    requires e == Element("link", [Attr("rel", "stylesheet"), Attr("type", "text/css"), Attr("href", href)], Void)
    requires '"' !in href
    ensures ValidElement(e) && HasAttrs(e, map["rel" := "stylesheet", "type" := "text/css", "href" := href])
  {
    NameFacts();
    assert ValidAttrs(e.attrs) by {
      assert e.attrs[0].key == "rel" && e.attrs[1].key == "type" && e.attrs[2].key == "href";
    }
    ThreeAttrs(e, "rel", "stylesheet", "type", "text/css", "href", href);
  }

  lemma StyleElementFacts(path: string)
    ensures ValidElement(StyleElement(path)) && IsStyleTag(StyleElement(path), path)
  {
    var href := Escape(AssetPath(StyleAsset, path));
    StyleShape(StyleElement(path), href);
  }

  /** `style` for a single name. */
  function Style(path: string): (r: string)
    ensures ParseAll(r).Some? && |ParseAll(r).value| == 1 && IsStyleTag(ParseAll(r).value[0], path)
  {
    StyleElementFacts(path);
    ParseRenderOne(StyleElement(path));
    Render(StyleElement(path))
  }

  function StyleElements(paths: seq<string>): (r: seq<Element>)
    ensures |r| == |paths|
    ensures forall i :: 0 <= i < |paths| ==> r[i] == StyleElement(paths[i])
  {
    if paths == [] then []
    else
      var tail := StyleElements(paths[1..]);
      assert forall i :: 0 < i < |paths| ==> tail[i - 1] == StyleElement(paths[i]);
      [StyleElement(paths[0])] + tail
  }

  /** `style` for a list of names: one link per name, in the order given, one per line. */
  function Styles(paths: seq<string>): (r: string)
    ensures ParseAll(r).Some? && |ParseAll(r).value| == |paths|
    ensures forall i :: 0 <= i < |paths| ==> IsStyleTag(ParseAll(r).value[i], paths[i])
  {
    var es := StyleElements(paths);
    assert ValidElements(es) && forall i :: 0 <= i < |paths| ==> IsStyleTag(es[i], paths[i]) by {
      forall i | 0 <= i < |paths| ensures ValidElement(es[i]) && IsStyleTag(es[i], paths[i]) {
        StyleElementFacts(paths[i]);
      }
    }
    ParseRenderAll(es);
    RenderAll(es)
  }

  function ImageElement(path: string): Element {
    Element("img", [Attr("src", Escape(AssetPath(ImageAsset, path))), Attr("alt", "")], Void)
  }

  /** `image` for a path: a self-closed `img` with the resolved source and an empty `alt`. */
  function Image(path: string): (r: string)
    ensures ParseAll(r).Some? && |ParseAll(r).value| == 1
    ensures var e := ParseAll(r).value[0];
      e.name == "img" && e.body == Void && HasAttrs(e, map["src" := Escape(AssetPath(ImageAsset, path)), "alt" := ""])
  {
    ImageShape(ImageElement(path), Escape(AssetPath(ImageAsset, path)));
    ParseRenderOne(ImageElement(path));
    Render(ImageElement(path))
  }

  /** An image with source `src`, as a shape with the source left open. */
  lemma ImageShape(e: Element, src: string)
    requires e == Element("img", [Attr("src", src), Attr("alt", "")], Void)
    requires '"' !in src
    ensures ValidElement(e) && e.name == "img" && e.body == Void && HasAttrs(e, map["src" := src, "alt" := ""])
  {
    NameFacts();
    TwoAttrs(e, "src", src, "alt", "");
  }

  // ---------------------------------------------------------------------
  // Links

  /**
   * The options of `link`: the escape switch, the meta-link `type` (absent
   * for an ordinary anchor) and every other option, emitted as attributes.
   */
  datatype LinkOptions = LinkOptions(escape: EscapeOption, linkType: Option<string>, attrs: seq<Attr>)

  const NoOptions := LinkOptions(Unset, None, [])

  datatype MetaLinkType = MetaLinkType(mime: string, rel: string)

  /** The meta-link types the helper knows: feeds and the site icon. */
  function MetaLink(t: string): Option<MetaLinkType> {
    if t == "atom" then Some(MetaLinkType("application/atom+xml", "alternate"))
    else if t == "rss" then Some(MetaLinkType("application/rss+xml", "alternate"))
    else if t == "icon" then Some(MetaLinkType("image/x-icon", "icon"))
    else None
  }

  /** Where an icon link points when no address is given. */
  const Favicon := "/favicon.ico"

  /** The address of an anchor: the title itself when no address is given. */
  function AnchorHref(title: string, url: string): string {
    if url == "" then title else url
  }

  function AnchorElement(title: string, url: string, options: LinkOptions): Element {
    var escape := Escaping(options.escape);
    Element("a", [Attr("href", Encode(AnchorHref(title, url), escape))] + EncodeAttrs(options.attrs, escape),
      Content(Encode(title, escape)))
  }

  function MetaLinkElement(title: string, href: string, kind: Option<MetaLinkType>, extra: seq<Attr>, escape: bool): Element {
    var typed := match kind case None => [] case Some(k) => [Attr("type", k.mime), Attr("rel", k.rel)];
    Element("link", [Attr("href", Encode(href, escape))] + typed + [Attr("title", Encode(title, escape))]
      + EncodeAttrs(extra, escape), Void)
  }

  /**
   * An anchor when no `type` is given; otherwise a meta link, typed when
   * the type is known, and for `icon` a second link for older browsers.
   */
  function LinkElements(title: string, url: string, options: LinkOptions): seq<Element> {
    var escape := Escaping(options.escape);
    match options.linkType
    case None => [AnchorElement(title, url, options)]
    case Some(t) =>
      if t == "icon" then
        var href := if url == "" then Favicon else url;
        [MetaLinkElement(title, href, MetaLink("icon"), options.attrs, escape),
         MetaLinkElement(title, href, Some(MetaLinkType("image/x-icon", "shortcut icon")), options.attrs, escape)]
      else
        [MetaLinkElement(title, url, MetaLink(t), options.attrs, escape)]
  }

  /** Text that can go into the markup unencoded without breaking it. */
  predicate Plain(s: string) {
    '"' !in s && '<' !in s
  }

  /** The attributes can be read back: proper names, and values safe as they will be written. */
  predicate AttrsReadable(attrs: seq<Attr>, escape: bool) {
    forall i :: 0 <= i < |attrs| ==> ValidName(attrs[i].key) && (escape || Plain(attrs[i].value))
  }

  predicate LinkReadable(title: string, url: string, options: LinkOptions) {
    var escape := Escaping(options.escape);
    AttrsReadable(options.attrs, escape) && (escape || (Plain(title) && Plain(url)))
  }

  lemma EncodeAttrsValid(attrs: seq<Attr>, escape: bool)
    requires AttrsReadable(attrs, escape)
    ensures ValidAttrs(EncodeAttrs(attrs, escape))
  {
  }

  lemma AttrsValidAppend(a: seq<Attr>, b: seq<Attr>)
    requires ValidAttrs(a) && ValidAttrs(b)
    ensures ValidAttrs(a + b)
  {
    forall j | 0 <= j < |a + b| ensures ValidName((a + b)[j].key) && '"' !in (a + b)[j].value {
      if j >= |a| { assert (a + b)[j] == b[j - |a|]; }
    }
  }

  lemma AnchorValid(title: string, url: string, options: LinkOptions)
    requires LinkReadable(title, url, options)
    ensures ValidElement(AnchorElement(title, url, options))
  {
    var escape := Escaping(options.escape);
    NameFacts();
    EncodeAttrsValid(options.attrs, escape);
    AttrsValidAppend([Attr("href", Encode(AnchorHref(title, url), escape))], EncodeAttrs(options.attrs, escape));
  }

  lemma MetaLinkValid(title: string, href: string, kind: Option<MetaLinkType>, extra: seq<Attr>, escape: bool)
    requires AttrsReadable(extra, escape) && (escape || (Plain(title) && Plain(href)))
    requires kind.Some? ==> '"' !in kind.value.mime && '"' !in kind.value.rel
    ensures ValidElement(MetaLinkElement(title, href, kind, extra, escape))
  {
    NameFacts();
    EncodeAttrsValid(extra, escape);
    var typed := match kind case None => [] case Some(k) => [Attr("type", k.mime), Attr("rel", k.rel)];
    var first := [Attr("href", Encode(href, escape))] + typed;
    AttrsValidAppend([Attr("href", Encode(href, escape))], typed);
    AttrsValidAppend(first, [Attr("title", Encode(title, escape))]);
    AttrsValidAppend(first + [Attr("title", Encode(title, escape))], EncodeAttrs(extra, escape));
  }

  lemma MetaLinksPlain(t: string)
    requires MetaLink(t).Some?
    ensures '"' !in MetaLink(t).value.mime && '"' !in MetaLink(t).value.rel
    ensures MetaLink(t).value.mime != MetaLink(t).value.rel
  {
  }

  /** Helper for `IconLinksValid` and `IconReadsBack`: the icon branch gives two links, to the given address or the default one. */
  lemma IconLinks(title: string, url: string, options: LinkOptions)
    requires options.linkType == Some("icon")
    ensures var href, escape := if url == "" then Favicon else url, Escaping(options.escape);
      LinkElements(title, url, options)
      == [MetaLinkElement(title, href, Some(MetaLinkType("image/x-icon", "icon")), options.attrs, escape),
          MetaLinkElement(title, href, Some(MetaLinkType("image/x-icon", "shortcut icon")), options.attrs, escape)]
  {
    assert MetaLink("icon") == Some(MetaLinkType("image/x-icon", "icon"));
  }

  lemma IconLinksValid(title: string, url: string, options: LinkOptions)
    requires options.linkType == Some("icon") && LinkReadable(title, url, options)
    ensures ValidElements(LinkElements(title, url, options)) && |LinkElements(title, url, options)| == 2
  {
    var escape := Escaping(options.escape);
    var href := if url == "" then Favicon else url;
    assert Plain(Favicon);
    var icon, shortcut := MetaLinkType("image/x-icon", "icon"), MetaLinkType("image/x-icon", "shortcut icon");
    assert '"' !in icon.mime && '"' !in icon.rel && '"' !in shortcut.rel;
    MetaLinkValid(title, href, Some(icon), options.attrs, escape);
    MetaLinkValid(title, href, Some(shortcut), options.attrs, escape);
    IconLinks(title, url, options);
    ValidPair(MetaLinkElement(title, href, Some(icon), options.attrs, escape),
      MetaLinkElement(title, href, Some(shortcut), options.attrs, escape));
  }

  lemma ValidPair(a: Element, b: Element)
    requires ValidElement(a) && ValidElement(b)
    ensures ValidElements([a, b])
  {
  }

  lemma OtherLinkValid(title: string, url: string, options: LinkOptions, t: string)
    requires options.linkType == Some(t) && t != "icon" && LinkReadable(title, url, options)
    ensures ValidElements(LinkElements(title, url, options)) && |LinkElements(title, url, options)| == 1
  {
    var escape := Escaping(options.escape);
    if MetaLink(t).Some? {
      MetaLinksPlain(t);
    }
    MetaLinkValid(title, url, MetaLink(t), options.attrs, escape);
  }

  lemma LinkElementsValid(title: string, url: string, options: LinkOptions)
    requires LinkReadable(title, url, options)
    ensures ValidElements(LinkElements(title, url, options))
    ensures |LinkElements(title, url, options)| == if options.linkType == Some("icon") then 2 else 1
  {
    match options.linkType
    case None => AnchorValid(title, url, options);
    case Some(t) =>
      if t == "icon" {
        IconLinksValid(title, url, options);
      } else {
        OtherLinkValid(title, url, options, t);
      }
  }

  /**
   * `link`: the rendered elements read back exactly, one per line, one
   * element for an anchor or an ordinary meta link and two for an icon.
   */
  function Link(title: string, url: string := "", options: LinkOptions := NoOptions): (r: string)
    ensures LinkReadable(title, url, options) ==> ParseAll(r) == Some(LinkElements(title, url, options))
    ensures LinkReadable(title, url, options) ==>
      |ParseAll(r).value| == if options.linkType == Some("icon") then 2 else 1
  {
    if LinkReadable(title, url, options) then
      LinkElementsValid(title, url, options);
      ParseRenderAll(LinkElements(title, url, options));
      RenderAll(LinkElements(title, url, options))
    else
      RenderAll(LinkElements(title, url, options))
  }

  /**
   * An anchor reads back (through `Link`) as one `a` element whose content
   * is the title, whose first attribute is the address and whose other
   * attributes are the caller's options, all entity-encoded exactly when
   * escaping is on.
   */
  lemma AnchorReadsBack(title: string, url: string, options: LinkOptions)
    requires options.linkType.None?
    ensures var es := LinkElements(title, url, options); var escape := Escaping(options.escape);
      |es| == 1 && es[0].name == "a"
      && es[0].body == Content(if escape then Escape(title) else title)
      && es[0].attrs[0] == Attr("href", if escape then Escape(AnchorHref(title, url)) else AnchorHref(title, url))
      && es[0].attrs[1..] == EncodeAttrs(options.attrs, escape)
  {
    var e := AnchorElement(title, url, options);
    assert e.attrs[1..] == EncodeAttrs(options.attrs, Escaping(options.escape));
  }

  /** With escaping on, reading an anchor back and decoding returns the title and address given. */
  lemma AnchorRoundTrip(title: string, url: string, options: LinkOptions)
    requires options.linkType.None? && Escaping(options.escape)
    ensures var e := LinkElements(title, url, options)[0];
      e.body.Content? && Unescape(e.body.text) == title
      && Unescape(e.attrs[0].value) == AnchorHref(title, url)
  {
    AnchorReadsBack(title, url, options);
    UnescapeEscape(title);
    UnescapeEscape(AnchorHref(title, url));
  }

  /** A typed meta link without extra options: address, type, rel and title, self-closed. */
  lemma TypedLinkAttrs(title: string, href: string, k: MetaLinkType, escape: bool)
    requires k.mime != k.rel
    ensures var e := MetaLinkElement(title, href, Some(k), [], escape);
      e.name == "link" && e.body == Void
      && HasAttrs(e, map["href" := Encode(href, escape), "type" := k.mime, "rel" := k.rel, "title" := Encode(title, escape)])
  {
    var e := MetaLinkElement(title, href, Some(k), [], escape);
    var title', href' := Encode(title, escape), Encode(href, escape);
    assert e.attrs == [Attr("href", href'), Attr("type", k.mime), Attr("rel", k.rel), Attr("title", title')];
    FourAttrs(e, "href", href', "type", k.mime, "rel", k.rel, "title", title');
  }

  /** An untyped meta link without extra options: address and title, self-closed. */
  lemma UntypedLinkAttrs(title: string, href: string, escape: bool)
    ensures var e := MetaLinkElement(title, href, None, [], escape);
      e.name == "link" && e.body == Void
      && HasAttrs(e, map["href" := Encode(href, escape), "title" := Encode(title, escape)])
  {
    var e := MetaLinkElement(title, href, None, [], escape);
    var title', href' := Encode(title, escape), Encode(href, escape);
    assert e.attrs == [Attr("href", href'), Attr("title", title')];
    TwoAttrs(e, "href", href', "title", title');
  }

  /**
   * What one meta link reads back as (through `Link`), by type: `rss` and
   * `atom` are typed, unknown types are not.
   */
  lemma MetaLinkReadsBack(title: string, url: string, t: string, escape: EscapeOption)
    requires t != "icon"
    ensures var es := LinkElements(title, url, LinkOptions(escape, Some(t), []));
      var title', href := Encode(title, Escaping(escape)), Encode(url, Escaping(escape));
      |es| == 1 && es[0].name == "link" && es[0].body == Void
      && (MetaLink(t).Some? ==> HasAttrs(es[0], map["href" := href, "type" := MetaLink(t).value.mime,
                                           "rel" := MetaLink(t).value.rel, "title" := title']))
      && (MetaLink(t).None? ==> HasAttrs(es[0], map["href" := href, "title" := title']))
  {
    if MetaLink(t).Some? {
      MetaLinksPlain(t);
      TypedLinkAttrs(title, url, MetaLink(t).value, Escaping(escape));
    } else {
      UntypedLinkAttrs(title, url, Escaping(escape));
    }
  }

  /** An icon gives two links to the same address, `rel="icon"` and `rel="shortcut icon"`, both `image/x-icon`. */
  lemma IconReadsBack(title: string, url: string, escape: EscapeOption)
    ensures var es := LinkElements(title, url, LinkOptions(escape, Some("icon"), []));
      var title', href := Encode(title, Escaping(escape)), Encode(if url == "" then Favicon else url, Escaping(escape));
      |es| == 2
      && es[0].name == "link" && es[0].body == Void
      && HasAttrs(es[0], map["href" := href, "type" := "image/x-icon", "rel" := "icon", "title" := title'])
      && es[1].name == "link" && es[1].body == Void
      && HasAttrs(es[1], map["href" := href, "type" := "image/x-icon", "rel" := "shortcut icon", "title" := title'])
  {
    var href := if url == "" then Favicon else url;
    var icon, shortcut := MetaLinkType("image/x-icon", "icon"), MetaLinkType("image/x-icon", "shortcut icon");
    assert icon.mime != icon.rel && shortcut.mime != shortcut.rel by {
      assert icon.rel[0] == 'i' && shortcut.rel[0] == 's';
    }
    TypedLinkAttrs(title, href, icon, Escaping(escape));
    TypedLinkAttrs(title, href, shortcut, Escaping(escape));
    IconLinks(title, url, LinkOptions(escape, Some("icon"), []));
  }

  // ---------------------------------------------------------------------
  // Generic elements

  /** The options of `tag`: an attribute list, or a bare string that names the class. */
  datatype TagOptions = Attributes(attrs: seq<Attr>) | ClassName(name: string)

  function TagAttrs(options: TagOptions): seq<Attr> {
    match options
    case Attributes(attrs) => attrs
    case ClassName(c) => [Attr("class", c)]
  }

  function TagElement(name: string, content: string, options: TagOptions, escape: bool): Element {
    Element(name, EncodeAttrs(TagAttrs(options), escape),
      if content == "" then Open else Content(Encode(content, escape)))
  }

  /** What a reader recovers from encoded text. */
  function Decode(s: string, escape: bool): string {
    if escape then Unescape(s) else s
  }

  predicate TagReadable(name: string, content: string, attrs: seq<Attr>, escape: bool) {
    ValidName(name) && AttrsReadable(attrs, escape) && (escape || '<' !in content)
  }

  /**
   * `tag`: an opening tag alone when there is no content, otherwise the
   * content between opening and closing tags. Read back and decoded, the
   * element has the name, the attribute names and values, and the content
   * it was given.
   */
  function Tag(name: string, content: string := "", options: TagOptions := Attributes([]), escape: bool := true): (r: string)
    ensures TagReadable(name, content, TagAttrs(options), escape) ==>
      ParseAll(r).Some? && |ParseAll(r).value| == 1
      && var e := ParseAll(r).value[0];
      && e.name == name
      && Keys(e.attrs) == Keys(TagAttrs(options))
      && (forall i :: 0 <= i < |e.attrs| ==> Decode(e.attrs[i].value, escape) == TagAttrs(options)[i].value)
      && (e.body.Open? <==> content == "")
      && (content != "" ==> e.body.Content? && Decode(e.body.text, escape) == content)
  {
    var e := TagElement(name, content, options, escape);
    if TagReadable(name, content, TagAttrs(options), escape) then
      EncodeAttrsValid(TagAttrs(options), escape);
      ParseRenderOne(e);
      Render(e)
    else
      Render(e)
  }

  /** The attributes without any named `key`. */
  function Without(attrs: seq<Attr>, key: string): (r: seq<Attr>)
    ensures forall a :: a in r <==> a in attrs && a.key != key
    ensures |r| <= |attrs|
  {
    if attrs == [] then []
    else if attrs[0].key == key then Without(attrs[1..], key)
    else [attrs[0]] + Without(attrs[1..], key)
  }

  /** The class attribute first, then the other options; the class given explicitly wins. */
  function WithClass(className: string, attrs: seq<Attr>): (r: seq<Attr>)
    ensures |r| > 0 && r[0] == Attr("class", className)
    ensures forall a :: a in r[1..] <==> a in attrs && a.key != "class"
  {
    [Attr("class", className)] + Without(attrs, "class")
  }

  /** A tag whose parts can be read back reads back as exactly the element built. */
  lemma TagReadsBack(name: string, content: string, options: TagOptions, escape: bool)
    requires TagReadable(name, content, TagAttrs(options), escape)
    ensures ParseAll(Tag(name, content, options, escape)) == Some([TagElement(name, content, options, escape)])
  {
    var e := TagElement(name, content, options, escape);
    EncodeAttrsValid(TagAttrs(options), escape);
    assert ValidElement(e);
    ParseRenderOne(e);
    assert Tag(name, content, options, escape) == Render(e);
  }

  /** A bare string as the options names the class: `tag('div', x, 'c')` is `tag('div', x, ['class' => 'c'])`. */
  lemma TagClassShorthand(name: string, content: string, className: string, escape: bool)
    ensures Tag(name, content, ClassName(className), escape) == Tag(name, content, Attributes([Attr("class", className)]), escape)
  {
  }

  /** The class first, then the other options: readable when the options and the class are. */
  lemma WithClassReadable(className: string, attrs: seq<Attr>, escape: bool)
    requires AttrsReadable(attrs, escape) && (escape || Plain(className))
    ensures AttrsReadable(WithClass(className, attrs), escape)
  {
    var r := WithClass(className, attrs);
    NameFacts();
    forall i | 0 <= i < |r| ensures ValidName(r[i].key) && (escape || Plain(r[i].value)) {
      if i > 0 {
        assert r[i] in r[1..];
      }
    }
  }

  /** What `block` and `para` read back as: the named element with the class first. */
  function ClassedElement(name: string, className: string, content: string, options: seq<Attr>, escape: bool): Element {
    Element(name, EncodeAttrs(WithClass(className, options), escape),
      if content == "" then Open else Content(Encode(content, escape)))
  }

  predicate ClassedReadable(className: string, content: string, options: seq<Attr>, escape: bool) {
    AttrsReadable(options, escape) && (escape || (Plain(className) && '<' !in content))
  }

  /**
   * The tag `block` and `para` share: the named element whose first
   * attribute is the class, followed by the other options without any
   * `class` among them, enclosing the content.
   */
  function Classed(name: string, className: string, content: string, options: seq<Attr>, escape: bool): (r: string)
    requires ValidName(name)
    ensures ClassedReadable(className, content, options, escape) ==>
      ParseAll(r) == Some([ClassedElement(name, className, content, options, escape)])
  {
    if ClassedReadable(className, content, options, escape) then
      WithClassReadable(className, options, escape);
      TagReadsBack(name, content, Attributes(WithClass(className, options)), escape);
      Tag(name, content, Attributes(WithClass(className, options)), escape)
    else
      Tag(name, content, Attributes(WithClass(className, options)), escape)
  }

  /** `block`: a classed `div`. */
  function Block(className: string, content: string := "", options: seq<Attr> := [], escape: bool := true): (r: string)
    ensures ClassedReadable(className, content, options, escape) ==>
      ParseAll(r) == Some([ClassedElement("div", className, content, options, escape)])
  {
    NameFacts();
    Classed("div", className, content, options, escape)
  }

  /** `para`: a classed `p`. */
  function Para(className: string, content: string := "", options: seq<Attr> := [], escape: bool := true): (r: string)
    ensures ClassedReadable(className, content, options, escape) ==>
      ParseAll(r) == Some([ClassedElement("p", className, content, options, escape)])
  {
    NameFacts();
    Classed("p", className, content, options, escape)
  }

  // ---------------------------------------------------------------------
  // Facts about the fixed names and attribute lists used above

  lemma NameFacts()
    ensures ValidName("meta") && ValidName("http-equiv") && ValidName("content")
    ensures ValidName("script") && ValidName("type") && ValidName("src")
    ensures ValidName("link") && ValidName("rel") && ValidName("href") && ValidName("title")
    ensures ValidName("img") && ValidName("alt") && ValidName("a") && ValidName("class")
    ensures ValidName("div") && ValidName("p")
  {
  }

  lemma OneAttr(e: Element, k: string, v: string)
    requires e.attrs == [Attr(k, v)]
    ensures HasAttrs(e, map[k := v])
  {
    assert e.attrs[1..] == [];
  }

  lemma TwoAttrs(e: Element, k1: string, v1: string, k2: string, v2: string)
    requires e.attrs == [Attr(k1, v1), Attr(k2, v2)] && k1 != k2
    ensures HasAttrs(e, map[k1 := v1, k2 := v2])
  {
    OneAttr(Element(e.name, [Attr(k1, v1)], e.body), k1, v1);
    assert e.attrs == [Attr(k1, v1)] + [Attr(k2, v2)];
    SnocAttr(e, [Attr(k1, v1)], Attr(k2, v2), map[k1 := v1]);
  }

  lemma ThreeAttrs(e: Element, k1: string, v1: string, k2: string, v2: string, k3: string, v3: string)
    requires e.attrs == [Attr(k1, v1), Attr(k2, v2), Attr(k3, v3)] && k1 != k2 && k2 != k3 && k1 != k3
    ensures HasAttrs(e, map[k1 := v1, k2 := v2, k3 := v3])
  {
    var rest := [Attr(k1, v1), Attr(k2, v2)];
    TwoAttrs(Element(e.name, rest, e.body), k1, v1, k2, v2);
    assert e.attrs == rest + [Attr(k3, v3)];
    SnocAttr(e, rest, Attr(k3, v3), map[k1 := v1, k2 := v2]);
  }

  lemma FourAttrs(e: Element, k1: string, v1: string, k2: string, v2: string, k3: string, v3: string, k4: string, v4: string)
    requires e.attrs == [Attr(k1, v1), Attr(k2, v2), Attr(k3, v3), Attr(k4, v4)]
    requires k1 != k2 && k1 != k3 && k1 != k4 && k2 != k3 && k2 != k4 && k3 != k4
    ensures HasAttrs(e, map[k1 := v1, k2 := v2, k3 := v3, k4 := v4])
  {
    var rest := [Attr(k1, v1), Attr(k2, v2), Attr(k3, v3)];
    ThreeAttrs(Element(e.name, rest, e.body), k1, v1, k2, v2, k3, v3);
    assert e.attrs == rest + [Attr(k4, v4)];
    SnocAttr(e, rest, Attr(k4, v4), map[k1 := v1, k2 := v2, k3 := v3]);
  }
}
