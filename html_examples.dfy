/**
 * The helper's documented examples, each stated about the model. Where
 * the helper is expected to emit an exact text, the example names the
 * element whose rendering that text is; rendering is lossless
 * (`Markup.ParseRenderAll`), so the element fixes the text.
 */
module HtmlExamples {
  import opened Wrappers
  import opened Strings
  import opened Entities
  import opened Markup
  import opened Assets
  import opened Html

  lemma PlainText(s: string)
    requires '&' !in s && '<' !in s && '>' !in s && '"' !in s
    ensures Escape(s) == s
  {
  }

  lemma SchemeAt(p: string, i: nat)
    requires i + 3 <= |p| && p[i] == ':' && p[i + 1] == '/' && p[i + 2] == '/'
    ensures Contains(p, "://")
  {
    assert p[i..i + 3] == "://";
    ContainsAt(p, "://", i);
  }

  // ---------------------------------------------------------------------
  // Resolving one name, by the shape of the name

  /** A name with no `:` that does not start with `/` is relative, whatever query follows. */
  lemma RelativeSplit(b: string, q: string)
    requires ':' !in b && ':' !in q && b != [] && b[0] != '/'
    ensures IsRelative(b + q)
  {
    NotFullUrl(b + q);
    assert (b + q)[0] == b[0];
  }

  /** A relative name that lacks the extension: folder, name, extension, query. */
  lemma RelativeAppending(a: Asset, b: string, q: string)
    requires '?' !in b && (q == [] || q[0] == '?')
    requires ':' !in b && ':' !in q && b != [] && b[0] != '/'
    requires !EndsWith(b, DefaultExtension(a))
    ensures AssetPath(a, b + q) == Folder(a) + b + DefaultExtension(a) + q
  {
    var f, e := Folder(a), DefaultExtension(a);
    calc {
      AssetPath(a, b + q);
    == { RelativeSplit(b, q); Resolve(a, b, q); }
      f + Completed(a, b) + q;
    ==
      f + (b + e) + q;
    ==
      f + b + e + q;
    }
  }

  /** A relative name that has the extension: folder, name, query. */
  lemma RelativeKeeping(a: Asset, b: string, q: string)
    requires '?' !in b && (q == [] || q[0] == '?')
    requires ':' !in b && ':' !in q && b != [] && b[0] != '/'
    requires EndsWith(b, DefaultExtension(a))
    ensures AssetPath(a, b + q) == Folder(a) + b + q
  {
    RelativeSplit(b, q);
    Resolve(a, b, q);
  }

  /** A relative name without a query string that lacks the extension: folder, name, extension. */
  lemma RelativeAppendingPlain(a: Asset, b: string)
    requires '?' !in b && ':' !in b && b != [] && b[0] != '/'
    requires !EndsWith(b, DefaultExtension(a))
    ensures AssetPath(a, b) == Folder(a) + b + DefaultExtension(a)
  {
    calc {
      AssetPath(a, b);
    == { assert b + "" == b; }
      AssetPath(a, b + "");
    == { RelativeAppending(a, b, ""); }
      Folder(a) + b + DefaultExtension(a) + "";
    ==
      Folder(a) + b + DefaultExtension(a);
    }
  }

  /** A relative name without a query string that has the extension: folder, name. */
  lemma RelativeKeepingPlain(a: Asset, b: string)
    requires '?' !in b && ':' !in b && b != [] && b[0] != '/'
    requires EndsWith(b, DefaultExtension(a))
    ensures AssetPath(a, b) == Folder(a) + b
  {
    calc {
      AssetPath(a, b);
    == { assert b + "" == b; }
      AssetPath(a, b + "");
    == { RelativeKeeping(a, b, ""); }
      Folder(a) + b + "";
    ==
      Folder(a) + b;
    }
  }

  /** A rooted name without a query string keeps its place and gets the extension. */
  lemma RootedAppending(a: Asset, b: string)
    requires '?' !in b && b != [] && b[0] == '/'
    requires !EndsWith(b, DefaultExtension(a))
    ensures AssetPath(a, b) == b + DefaultExtension(a)
  {
    assert b + "" == b;
    assert !IsRelative(b + "");
    Resolve(a, b, "");
  }

  /** A name that already has the extension and is not relative is emitted unchanged. */
  lemma Unchanged(a: Asset, b: string, q: string)
    requires '?' !in b && (q == [] || q[0] == '?')
    requires (b != [] && b[0] == '/') || Contains(b, "://")
    requires EndsWith(b, DefaultExtension(a))
    ensures AssetPath(a, b + q) == b + q
  {
    if b != [] && b[0] == '/' {
      assert (b + q)[0] == '/';
    } else {
      ContainsAppend(b, q, "://");
    }
    assert !IsRelative(b + q);
    Resolve(a, b, q);
  }

  lemma UnchangedPlain(a: Asset, b: string)
    requires '?' !in b
    requires (b != [] && b[0] == '/') || Contains(b, "://")
    requires EndsWith(b, DefaultExtension(a))
    ensures AssetPath(a, b) == b
  {
    assert b + "" == b;
    Unchanged(a, b, "");
  }

  // ---------------------------------------------------------------------
  // `script`

  /** A script tag as emitted: the type, then the source, and nothing inside. */
  function ScriptTag(src: string): Element {
    Element("script", [Attr("type", "text/javascript"), Attr("src", src)], Content(""))
  }

  /** The tag `script` emits for a name whose path resolves to `src`. */
  lemma ScriptIs(p: string, src: string)
    requires AssetPath(ScriptAsset, p) == src
    requires '&' !in src && '<' !in src && '>' !in src && '"' !in src
    ensures Script(p) == Render(ScriptTag(src))
  {
    PlainText(src);
    assert ScriptElement(p) == ScriptTag(src);
  }

  lemma ScriptPathPlain(p: string)
    requires p == "script"
    ensures AssetPath(ScriptAsset, p) == "/js/" + p + ".js"
  {
    assert p[3..] == "ipt";
    RelativeAppendingPlain(ScriptAsset, p);
  }

  lemma ScriptPathSuffixed(p: string)
    requires p == "script.js"
    ensures AssetPath(ScriptAsset, p) == "/js/" + p
  {
    assert p[6..] == ".js";
    RelativeKeepingPlain(ScriptAsset, p);
  }

  /** A name with a query string: `b + q` is `scriptaculous.js?load=effects`. */
  lemma ScriptPathQuery(b: string, q: string)
    requires b == "scriptaculous.js" && q == "?load=effects"
    ensures AssetPath(ScriptAsset, b + q) == "/js/" + b + q
  {
    assert b[13..] == ".js";
    RelativeKeeping(ScriptAsset, b, q);
  }

  lemma ScriptPathVersioned(p: string)
    requires p == "jquery-1.1.2"
    ensures AssetPath(ScriptAsset, p) == "/js/" + p + ".js"
  {
    assert p[9..] == "1.2";
    RelativeAppendingPlain(ScriptAsset, p);
  }

  lemma ScriptPathRooted(p: string)
    requires p == "/plugin/js/jquery-1.1.2"
    ensures AssetPath(ScriptAsset, p) == p + ".js"
  {
    assert p[20..] == "1.2";
    RootedAppending(ScriptAsset, p);
  }

  lemma ScriptPathRootedComplete(p: string)
    requires p == "/some_other_path/myfile.1.2.2.min.js"
    ensures AssetPath(ScriptAsset, p) == p
  {
    assert p[33..] == ".js";
    UnchangedPlain(ScriptAsset, p);
  }

  lemma ScriptPathNested(p: string)
    requires p == "some_other_path/myfile.1.2.2.min.js"
    ensures AssetPath(ScriptAsset, p) == "/js/" + p
  {
    assert p[32..] == ".js";
    RelativeKeepingPlain(ScriptAsset, p);
  }

  lemma ScriptPathNestedPlain(p: string)
    requires p == "some_other_path/myfile.1.2.2.min"
    ensures AssetPath(ScriptAsset, p) == "/js/" + p + ".js"
  {
    assert p[29..] == "min";
    RelativeAppendingPlain(ScriptAsset, p);
  }

  lemma ScriptPathUrl(p: string)
    requires p == "http://example.com/jquery.js"
    ensures AssetPath(ScriptAsset, p) == p
  {
    assert p[25..] == ".js";
    SchemeAt(p, 4);
    UnchangedPlain(ScriptAsset, p);
  }

  lemma RenderTwo(x: Element, y: Element)
    ensures RenderAll([x, y]) == Render(x) + "\n" + Render(y)
  {
    assert [x, y][1..] == [y];
  }

  /** Two names: the two tags in order, separated by a line break. */
  lemma ScriptsListed(a: string, b: string)
    ensures Scripts([a, b]) == Script(a) + "\n" + Script(b)
  {
    var es := ScriptElements([a, b]);
    assert es == [ScriptElement(a), ScriptElement(b)];
    RenderTwo(ScriptElement(a), ScriptElement(b));
  }

  lemma ScriptPathPrototype(p: string)
    requires p == "prototype"
    ensures AssetPath(ScriptAsset, p) == "/js/" + p + ".js"
  {
    assert p[6..] == "ype";
    RelativeAppendingPlain(ScriptAsset, p);
  }

  lemma ScriptPathScriptaculous(p: string)
    requires p == "scriptaculous"
    ensures AssetPath(ScriptAsset, p) == "/js/" + p + ".js"
  {
    assert p[10..] == "ous";
    RelativeAppendingPlain(ScriptAsset, p);
  }

  /** `script(['prototype', 'scriptaculous'])`: both names resolve under `/js/` with `.js` added. */
  lemma ScriptsPrototype(a: string, b: string)
    requires a == "prototype" && b == "scriptaculous"
    ensures AssetPath(ScriptAsset, a) == "/js/" + a + ".js"
    ensures AssetPath(ScriptAsset, b) == "/js/" + b + ".js"
  {
    ScriptPathPrototype(a);
    ScriptPathScriptaculous(b);
  }

  /** Naming the extension or leaving it off gives the same tag. */
  lemma ScriptExtensionOptional(name: string)
    requires '?' !in name && !EndsWith(name, ".js")
    ensures Script(name) == Script(name + ".js")
  {
    ExtensionOptional(ScriptAsset, name);
    assert ScriptElement(name) == ScriptElement(name + ".js");
  }

  // ---------------------------------------------------------------------
  // `style`

  /** A stylesheet link as emitted: rel, type, then the address, self-closed. */
  function StyleTag(href: string): Element {
    Element("link", [Attr("rel", "stylesheet"), Attr("type", "text/css"), Attr("href", href)], Void)
  }

  /** The link `style` emits for a name whose path resolves to `href`. */
  lemma StyleIs(p: string, href: string)
    requires AssetPath(StyleAsset, p) == href
    requires '&' !in href && '<' !in href && '>' !in href && '"' !in href
    ensures Style(p) == Render(StyleTag(href))
  {
    PlainText(href);
    assert StyleElement(p) == StyleTag(href);
  }

  /** `style('screen')` and `style('screen.css')` emit the same link. */
  lemma StyleExtensionOptional(name: string)
    requires '?' !in name && !EndsWith(name, ".css")
    ensures Style(name) == Style(name + ".css")
  {
    ExtensionOptional(StyleAsset, name);
    assert StyleElement(name) == StyleElement(name + ".css");
  }

  lemma StylePathPlain(p: string)
    requires p == "screen"
    ensures AssetPath(StyleAsset, p) == "/css/" + p + ".css"
  {
    assert p[2..] == "reen";
    RelativeAppendingPlain(StyleAsset, p);
  }

  /** `b + q` is `screen.css?1234`. */
  lemma StylePathQuery(b: string, q: string)
    requires b == "screen.css" && q == "?1234"
    ensures AssetPath(StyleAsset, b + q) == "/css/" + b + q
  {
    assert b[6..] == ".css";
    RelativeKeeping(StyleAsset, b, q);
  }

  /** `b + q` is `http://whatever.com/screen.css?1234`. */
  lemma StylePathUrl(b: string, q: string)
    requires b == "http://whatever.com/screen.css" && q == "?1234"
    ensures AssetPath(StyleAsset, b + q) == b + q
  {
    assert b[26..] == ".css";
    SchemeAt(b, 4);
    Unchanged(StyleAsset, b, q);
  }

  /** Two names: the two links in order, separated by a line break. */
  lemma StylesListed(a: string, b: string)
    ensures Styles([a, b]) == Style(a) + "\n" + Style(b)
  {
    var es := StyleElements([a, b]);
    assert es == [StyleElement(a), StyleElement(b)];
    RenderTwo(StyleElement(a), StyleElement(b));
  }

  lemma StylePathBase(p: string)
    requires p == "base"
    ensures AssetPath(StyleAsset, p) == "/css/" + p + ".css"
  {
    assert p[0] == 'b';
    RelativeAppendingPlain(StyleAsset, p);
  }

  lemma StylePathLayout(p: string)
    requires p == "layout"
    ensures AssetPath(StyleAsset, p) == "/css/" + p + ".css"
  {
    assert p[2..] == "yout";
    RelativeAppendingPlain(StyleAsset, p);
  }

  /** `style(['base', 'layout'])`: both names resolve under `/css/` with `.css` added. */
  lemma StylesBaseLayout(a: string, b: string)
    requires a == "base" && b == "layout"
    ensures AssetPath(StyleAsset, a) == "/css/" + a + ".css"
    ensures AssetPath(StyleAsset, b) == "/css/" + b + ".css"
  {
    StylePathBase(a);
    StylePathLayout(b);
  }

  // ---------------------------------------------------------------------
  // `image`

  /** An image as emitted: the source, an empty `alt`, self-closed. */
  function ImageTag(src: string): Element {
    Element("img", [Attr("src", src), Attr("alt", "")], Void)
  }

  /** The tag `image` emits for a path that resolves to `src`. */
  lemma ImageIs(p: string, src: string)
    requires AssetPath(ImageAsset, p) == src
    requires '&' !in src && '<' !in src && '>' !in src && '"' !in src
    ensures Image(p) == Render(ImageTag(src))
  {
    PlainText(src);
    assert ImageElement(p) == ImageTag(src);
  }

  lemma ImagePathRelative(p: string)
    requires p == "test.gif"
    ensures AssetPath(ImageAsset, p) == "/img/" + p
  {
    assert EndsWith(p, "");
    RelativeKeepingPlain(ImageAsset, p);
  }

  lemma ImagePathUrl(p: string)
    requires p == "http://google.com/logo.gif"
    ensures AssetPath(ImageAsset, p) == p
  {
    assert EndsWith(p, "");
    SchemeAt(p, 4);
    UnchangedPlain(ImageAsset, p);
  }

  lemma ImagePathRooted(p: string)
    requires p == "/test/view/1.gif"
    ensures AssetPath(ImageAsset, p) == p
  {
    assert EndsWith(p, "");
    UnchangedPlain(ImageAsset, p);
  }

  // ---------------------------------------------------------------------
  // `docType` and `charset`

  lemma DocTypeKnown(k: string)
    requires k == "xhtml-strict" || k == "html4-strict"
    ensures DocType(k) == Some(if k == "xhtml-strict" then XhtmlStrict else Html4Strict)
  {
  }

  lemma DocTypeUnknown(k: string)
    requires k == "badness"
    ensures DocType(k) == None
  {
    assert k != "xhtml-strict" && k != "html4-strict" by {
      assert k[0] == 'b';
    }
  }

  /** An encoding name without markup characters is declared as given. */
  lemma CharsetNamed(encoding: string)
    requires '&' !in encoding && '<' !in encoding && '>' !in encoding && '"' !in encoding
    ensures var e := ParseAll(Charset(encoding)).value[0];
      e.name == "meta" && HasAttrs(e, map["http-equiv" := "Content-Type", "content" := "text/html; charset=" + encoding])
  {
    var prefix := "text/html; charset=";
    assert '&' !in prefix && '<' !in prefix && '>' !in prefix && '"' !in prefix;
    PlainText(prefix + encoding);
  }

  /** `charset()` with no argument is `charset('utf-8')`. */
  lemma CharsetDefault(encoding: string)
    requires encoding == "utf-8"
    ensures Charset() == Charset(encoding)
  {
  }

  lemma CharsetExamples(encoding: string)
    requires encoding == "utf-8" || encoding == "UTF-7"
    ensures var e := ParseAll(Charset(encoding)).value[0];
      e.name == "meta" && HasAttrs(e, map["http-equiv" := "Content-Type", "content" := "text/html; charset=" + encoding])
  {
    CharsetNamed(encoding);
  }

  // ---------------------------------------------------------------------
  // `link`

  /** Text without markup characters is written as given, whatever the escape option. */
  lemma Unencoded(s: string, escape: EscapeOption)
    requires '&' !in s && '<' !in s && '>' !in s && '"' !in s
    ensures Encode(s, Escaping(escape)) == s
  {
    PlainText(s);
  }

  lemma FeedTypes(t: string)
    requires t == "rss" || t == "atom"
    ensures MetaLink(t).Some? && MetaLink(t).value == MetaLinkType("application/" + t + "+xml", "alternate")
  {
  }

  /** A feed link: typed, `rel="alternate"`, the title as given; the address is the router's. */
  lemma FeedLink(title: string, url: string, t: string)
    requires (title == "RSS Feed" && t == "rss") || (title == "Atom Feed" && t == "atom")
    ensures var es := LinkElements(title, url, LinkOptions(Unset, Some(t), []));
      |es| == 1 && es[0].name == "link"
      && HasAttrs(es[0], map["href" := Escape(url), "type" := "application/" + t + "+xml",
                             "rel" := "alternate", "title" := title])
  {
    FeedTypes(t);
    Unencoded(title, Unset);
    MetaLinkReadsBack(title, url, t, Unset);
  }

  /** An unknown type gives an untyped link. */
  lemma UnknownTypeLink(title: string, url: string, t: string)
    requires title == "No-existy" && url == "/posts.xmp" && t == "rong"
    ensures var es := LinkElements(title, url, LinkOptions(Unset, Some(t), []));
      |es| == 1 && es[0].name == "link" && HasAttrs(es[0], map["href" := url, "title" := title])
  {
    assert MetaLink(t).None? by {
      assert t[0] == 'r' && t[1] == 'o';
    }
    Unencoded(title, Unset);
    Unencoded(url, Unset);
    MetaLinkReadsBack(title, url, t, Unset);
  }

  lemma AtomLink(title: string, url: string, t: string)
    requires title == "No-existy" && url == "/posts.xpp" && t == "atom"
    ensures var es := LinkElements(title, url, LinkOptions(Unset, Some(t), []));
      |es| == 1 && es[0].name == "link"
      && HasAttrs(es[0], map["href" := url, "type" := "application/atom+xml", "rel" := "alternate", "title" := title])
  {
    FeedTypes(t);
    Unencoded(title, Unset);
    Unencoded(url, Unset);
    MetaLinkReadsBack(title, url, t, Unset);
  }

  /** An icon without an address: two links to `/favicon.ico`. */
  lemma FaviconLink(title: string)
    requires title == "Favicon"
    ensures var es := LinkElements(title, "", LinkOptions(Unset, Some("icon"), []));
      |es| == 2
      && HasAttrs(es[0], map["href" := "/favicon.ico", "type" := "image/x-icon", "rel" := "icon", "title" := title])
      && HasAttrs(es[1], map["href" := "/favicon.ico", "type" := "image/x-icon", "rel" := "shortcut icon", "title" := title])
  {
    Unencoded(title, Unset);
    Unencoded(Favicon, Unset);
    IconReadsBack(title, "", Unset);
  }

  /** A title alone is also the address. */
  lemma AnchorTitleOnly(title: string)
    requires title == "/home"
    ensures LinkReadable(title, "", NoOptions)
    ensures var es := LinkElements(title, "", NoOptions);
      |es| == 1 && es[0] == Element("a", [Attr("href", title)], Content(title))
  {
    Unencoded(title, Unset);
    AnchorReadsBack(title, "", NoOptions);
  }

  lemma GreaterEscaped(n: string)
    requires '&' !in n && '<' !in n && '>' !in n && '"' !in n
    ensures Escape(n + ">") == n + "&gt;"
  {
    EscapeAppend(n, ">");
    PlainText(n);
  }

  lemma NextEscaped(title: string)
    requires title == "Next >"
    ensures Escape(title) == "Next &gt;"
  {
    var n := "Next ";
    assert title == n + ">";
    GreaterEscaped(n);
    assert n + "&gt;" == "Next &gt;";
  }

  lemma AmpersandEscaped(a: string, b: string, escape: bool)
    requires '&' !in a && '<' !in a && '>' !in a && '"' !in a
    requires '&' !in b && '<' !in b && '>' !in b && '"' !in b
    ensures Encode(a + "&" + b, escape) == if escape then a + "&amp;" + b else a + "&" + b
  {
    PlainText(a);
    PlainText(b);
    EscapeAppend(a, "&");
    EscapeAppend(a + "&", b);
  }

  /** The escape option unset, on, or a character set encodes `>`; only `false` leaves it. */
  lemma AnchorEscaping(title: string, url: string, escape: EscapeOption)
    requires title == "Next >" && url == "#"
    requires escape == Unset || escape == Flag(true) || escape == Encoding("utf-8") || escape == Flag(false)
    ensures LinkReadable(title, url, LinkOptions(escape, None, []))
    ensures var es := LinkElements(title, url, LinkOptions(escape, None, []));
      |es| == 1
      && es[0] == Element("a", [Attr("href", url)], Content(if escape == Flag(false) then title else "Next &gt;"))
  {
    var options := LinkOptions(escape, None, []);
    assert Escaping(escape) <==> escape != Flag(false);
    NextEscaped(title);
    PlainText(url);
    assert Encode(title, Escaping(escape)) == if escape == Flag(false) then title else "Next &gt;";
    assert Encode(url, Escaping(escape)) == url;
    assert Plain(title) && Plain(url);
    AnchorReadsBack(title, url, options);
    var e := LinkElements(title, url, options)[0];
    assert e.attrs == [e.attrs[0]] + e.attrs[1..];
  }

  /**
   * A title option is an attribute of the anchor, written as given when
   * escaping is off and with `&` encoded when it is on; the helper's own
   * example is `a + "&" + b` = `to escape &#8230; or not escape?`.
   */
  lemma AnchorTitleAttribute(title: string, url: string, a: string, b: string, escape: bool)
    requires title == "Next >" && url == "#"
    requires '&' !in a && '<' !in a && '>' !in a && '"' !in a
    requires '&' !in b && '<' !in b && '>' !in b && '"' !in b
    ensures LinkReadable(title, url, LinkOptions(Flag(escape), None, [Attr("title", a + "&" + b)]))
    ensures var es := LinkElements(title, url, LinkOptions(Flag(escape), None, [Attr("title", a + "&" + b)]));
      |es| == 1
      && es[0].attrs == [Attr("href", url), Attr("title", if escape then a + "&amp;" + b else a + "&" + b)]
      && es[0].body == Content(if escape then "Next &gt;" else title)
  {
    TitleOptionReadable(title, url, a + "&" + b, escape);
    var options := LinkOptions(Flag(escape), None, [Attr("title", a + "&" + b)]);
    NextEscaped(title);
    Unencoded(url, Flag(escape));
    AmpersandEscaped(a, b, escape);
    assert EncodeAttrs(options.attrs, escape) == [Attr("title", Encode(a + "&" + b, escape))];
    AnchorReadsBack(title, url, options);
    var e := LinkElements(title, url, options)[0];
    assert e.attrs == [e.attrs[0]] + e.attrs[1..];
  }

  lemma TitleOptionReadable(title: string, url: string, v: string, escape: bool)
    requires Plain(title) && Plain(url) && Plain(v)
    ensures LinkReadable(title, url, LinkOptions(Flag(escape), None, [Attr("title", v)]))
  {
    NameFacts();
  }

  // ---------------------------------------------------------------------
  // `tag`, `block` and `para`

  lemma BracketsEscaped(t: string)
    requires '&' !in t && '<' !in t && '>' !in t && '"' !in t
    ensures Escape("<" + t + ">") == "&lt;" + t + "&gt;"
  {
    EscapeAppend("<", t);
    EscapeAppend("<" + t, ">");
    PlainText(t);
    assert Escape("<") == "&lt;";
    assert Escape(">") == "&gt;";
  }

  /** `tag('div')`: the opening tag alone. */
  lemma TagEmpty(n: string)
    requires n == "div"
    ensures Tag(n) == Render(Element(n, [], Open))
  {
    assert TagElement(n, "", Attributes([]), true) == Element(n, [], Open);
  }

  /** `tag('div', 'text')`: the text between opening and closing tags. */
  lemma TagText(n: string, t: string)
    requires n == "div" && t == "text"
    ensures Tag(n, t) == Render(Element(n, [], Content(t)))
  {
    PlainText(t);
    assert TagElement(n, t, Attributes([]), true) == Element(n, [], Content(t));
  }

  /** A class name with nothing to escape is kept as the one encoded attribute. */
  lemma ClassEncoded(c: string)
    requires '&' !in c && '<' !in c && '>' !in c && '"' !in c
    ensures EncodeAttrs([Attr("class", c)], true) == [Attr("class", c)]
    ensures EncodeAttrs(WithClass(c, []), true) == [Attr("class", c)]
  {
    PlainText(c);
    assert WithClass(c, []) == [Attr("class", c)];
  }

  /** `tag('div', '<text>', ['class' => 'class-name'], true)`, and the same with the bare class name. */
  lemma TagEscapedWithClass(n: string, t: string, c: string)
    requires n == "div" && t == "text" && c == "class-name"
    ensures Tag(n, "<" + t + ">", Attributes([Attr("class", c)]), true)
      == Render(Element(n, [Attr("class", c)], Content("&lt;" + t + "&gt;")))
    ensures Tag(n, "<" + t + ">", ClassName(c), true)
      == Render(Element(n, [Attr("class", c)], Content("&lt;" + t + "&gt;")))
  {
    ClassEncoded(c);
    BracketsEscaped(t);
    assert TagElement(n, "<" + t + ">", Attributes([Attr("class", c)]), true)
      == Element(n, [Attr("class", c)], Content("&lt;" + t + "&gt;"));
    TagClassShorthand(n, "<" + t + ">", c, true);
  }

  /** What `block` and `para` read back as, for the class alone. */
  lemma ClassedExamples(name: string, c: string, t: string)
    requires c == "class-name" && t == "text"
    ensures ClassedElement(name, c, "", [], true) == Element(name, [Attr("class", c)], Open)
    ensures ClassedElement(name, c, t, [], true) == Element(name, [Attr("class", c)], Content(t))
    ensures ClassedElement(name, c, "<" + t + ">", [], true) == Element(name, [Attr("class", c)], Content("&lt;" + t + "&gt;"))
  {
    ClassEncoded(c);
    PlainText(t);
    BracketsEscaped(t);
  }

  /** With escaping on and no other options, any class and content can be read back. */
  lemma EscapedClassReadable(c: string, content: string)
    ensures ClassedReadable(c, content, [], true)
  {
  }

  lemma BlockExamples(c: string, t: string)
    requires c == "class-name" && t == "text"
    ensures ParseAll(Block(c)) == Some([Element("div", [Attr("class", c)], Open)])
    ensures ParseAll(Block(c, t)) == Some([Element("div", [Attr("class", c)], Content(t))])
    ensures ParseAll(Block(c, "<" + t + ">", [], true))
      == Some([Element("div", [Attr("class", c)], Content("&lt;" + t + "&gt;"))])
  {
    ClassedExamples("div", c, t);
    EscapedClassReadable(c, "");
    EscapedClassReadable(c, t);
    EscapedClassReadable(c, "<" + t + ">");
  }

  lemma ParaExamples(c: string, t: string)
    requires c == "class-name" && t == "text"
    ensures ParseAll(Para(c, "")) == Some([Element("p", [Attr("class", c)], Open)])
    ensures ParseAll(Para(c, t)) == Some([Element("p", [Attr("class", c)], Content(t))])
    ensures ParseAll(Para(c, "<" + t + ">", [], true))
      == Some([Element("p", [Attr("class", c)], Content("&lt;" + t + "&gt;"))])
  {
    ClassedExamples("p", c, t);
    EscapedClassReadable(c, "");
    EscapedClassReadable(c, t);
    EscapedClassReadable(c, "<" + t + ">");
  }
}
