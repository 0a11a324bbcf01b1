/**
 * The HTML fragments the helper emits: an element with a name, an ordered
 * list of attributes and one of three body forms, its rendering as text,
 * and a reader that recovers the elements from that text. The reader plays
 * the part of the tag matcher the helper's tests compare output with.
 */
module Markup {
  import opened Wrappers
  import opened Strings

  datatype Attr = Attr(key: string, value: string)

  /**
   * `Void` renders self-closed (`<img ... />`), `Open` as an opening tag
   * only (`<div ...>`), `Content(t)` as `<name ...>t</name>`.
   */
  datatype Body = Void | Open | Content(text: string)

  datatype Element = Element(name: string, attrs: seq<Attr>, body: Body)

  /** The value of the first attribute named `key`, if any. */
  function AttrValue(attrs: seq<Attr>, key: string): (r: Option<string>)
    ensures r.Some? <==> exists i :: 0 <= i < |attrs| && attrs[i].key == key
    ensures r.Some? ==> exists i :: 0 <= i < |attrs| && attrs[i] == Attr(key, r.value)
  {
    if attrs == [] then None
    else if attrs[0].key == key then Some(attrs[0].value)
    else AttrValue(attrs[1..], key)
  }

  function Keys(attrs: seq<Attr>): (r: seq<string>)
    ensures |r| == |attrs| && forall i :: 0 <= i < |attrs| ==> r[i] == attrs[i].key
  {
    if attrs == [] then [] else [attrs[0].key] + Keys(attrs[1..])
  }

  function KeySet(attrs: seq<Attr>): (r: set<string>)
    ensures forall k :: k in r <==> exists i :: 0 <= i < |attrs| && attrs[i].key == k
  {
    if attrs == [] then {}
    else
      assert forall i :: 0 < i < |attrs| ==> attrs[i] == attrs[1..][i - 1];
      {attrs[0].key} + KeySet(attrs[1..])
  }

  /**
   * The element carries exactly the attribute names of `expected`, each
   * with the value given there as written in the markup. This is how
   * the helper's tests compare a tag, whatever the attribute order.
   */
  predicate HasAttrs(e: Element, expected: map<string, string>) {
    KeySet(e.attrs) == expected.Keys && forall k :: k in expected ==> AttrValue(e.attrs, k) == Some(expected[k])
  }

  /** Looking a name up in two lists one after the other: the first list wins. */
  lemma {:induction false} AttrValueAppend(x: seq<Attr>, y: seq<Attr>, key: string)
    ensures AttrValue(x + y, key) == if key in KeySet(x) then AttrValue(x, key) else AttrValue(y, key)
  {
    if x == [] {
      assert x + y == y;
    } else {
      assert (x + y)[0] == x[0] && (x + y)[1..] == x[1..] + y;
      if x[0].key != key {
        AttrValueAppend(x[1..], y, key);
      }
    }
  }

  lemma {:induction false} KeySetAppend(x: seq<Attr>, y: seq<Attr>)
    ensures KeySet(x + y) == KeySet(x) + KeySet(y)
  {
    if x == [] {
      assert x + y == y;
    } else {
      assert (x + y)[0] == x[0] && (x + y)[1..] == x[1..] + y;
      KeySetAppend(x[1..], y);
    }
  }

  lemma SnocKeys(rest: seq<Attr>, a: Attr)
    ensures KeySet(rest + [a]) == KeySet(rest) + {a.key}
  {
    KeySetAppend(rest, [a]);
    assert KeySet([a]) == {a.key} by { assert [a][1..] == []; }
  }

  lemma SnocValue(rest: seq<Attr>, a: Attr, expected: map<string, string>, k: string)
    requires a.key !in expected && KeySet(rest) == expected.Keys
    requires forall k :: k in expected ==> AttrValue(rest, k) == Some(expected[k])
    requires k in expected[a.key := a.value]
    ensures AttrValue(rest + [a], k) == Some(expected[a.key := a.value][k])
  {
    AttrValueAppend(rest, [a], k);
    if k == a.key {
      assert AttrValue([a], k) == Some(a.value);
    }
  }

  /** One more attribute after those `expected` describes. */
  lemma SnocAttr(e: Element, rest: seq<Attr>, a: Attr, expected: map<string, string>)
    requires e.attrs == rest + [a] && a.key !in expected
    requires HasAttrs(Element(e.name, rest, e.body), expected)
    ensures HasAttrs(e, expected[a.key := a.value])
  {
    SnocKeys(rest, a);
    forall k | k in expected[a.key := a.value] ensures AttrValue(e.attrs, k) == Some(expected[a.key := a.value][k]) {
      SnocValue(rest, a, expected, k);
    }
  }

  // ---------------------------------------------------------------------
  // Rendering

  function RenderAttr(a: Attr): string {
    " " + a.key + "=\"" + a.value + "\""
  }

  function RenderAttrs(attrs: seq<Attr>): string {
    if attrs == [] then "" else RenderAttr(attrs[0]) + RenderAttrs(attrs[1..])
  }

  function RenderBody(name: string, body: Body): string {
    match body
    case Void => " />"
    case Open => ">"
    case Content(t) => ">" + t + "</" + name + ">"
  }

  function Render(e: Element): string {
    "<" + e.name + RenderAttrs(e.attrs) + RenderBody(e.name, e.body)
  }

  /** Several elements, one per line. */
  function RenderAll(es: seq<Element>): string {
    if es == [] then ""
    else if |es| == 1 then Render(es[0])
    else Render(es[0]) + "\n" + RenderAll(es[1..])
  }

  // ---------------------------------------------------------------------
  // Well-formedness: what the reader needs to get an element back

  predicate IsNameChar(c: char) {
    ('a' <= c <= 'z') || ('A' <= c <= 'Z') || ('0' <= c <= '9') || c == '-' || c == '_'
  }

  predicate ValidName(s: string) {
    |s| > 0 && forall i :: 0 <= i < |s| ==> IsNameChar(s[i])
  }

  predicate ValidAttrs(attrs: seq<Attr>) {
    forall i :: 0 <= i < |attrs| ==> ValidName(attrs[i].key) && '"' !in attrs[i].value
  }

  predicate ValidElement(e: Element) {
    ValidName(e.name) && ValidAttrs(e.attrs) && (e.body.Content? ==> '<' !in e.body.text)
  }

  predicate ValidElements(es: seq<Element>) {
    forall i :: 0 <= i < |es| ==> ValidElement(es[i])
  }

  // ---------------------------------------------------------------------
  // Reading

  /** Length of the longest prefix of `s` made of name characters. */
  function NameSpan(s: string): (n: nat)
    ensures n <= |s|
    ensures forall k :: 0 <= k < n ==> IsNameChar(s[k])
    ensures n < |s| ==> !IsNameChar(s[n])
  {
    if s != [] && IsNameChar(s[0]) then 1 + NameSpan(s[1..]) else 0
  }

  /** Whether `s` begins with the separating space and the first character of a name. */
  predicate StartsAttr(s: string) {
    2 <= |s| && s[0] == ' ' && IsNameChar(s[1])
  }

  /** Reads one ` key="value"` pair. */
  function ParseAttr(s: string): (r: Option<(Attr, string)>)
    requires StartsAttr(s)
    ensures r.Some? ==> |r.value.1| < |s|
  {
    var k := NameSpan(s[1..]);
    var after := s[1 + k..];
    if 2 <= |after| && after[0] == '=' && after[1] == '"' then
      var v := IndexOf(after[2..], '"');
      if v < |after[2..]| then Some((Attr(s[1..1 + k], after[2..2 + v]), after[3 + v..]))
      else None
    else None
  }

  /** Reads ` key="value"` pairs until something else follows. */
  function ParseAttrs(s: string): (r: Option<(seq<Attr>, string)>)
    ensures r.Some? ==> |r.value.1| <= |s|
    decreases |s|
  {
    if StartsAttr(s) then
      match ParseAttr(s)
      case None => None
      case Some((a, rest)) =>
        match ParseAttrs(rest)
        case None => None
        case Some((more, rest')) => Some(([a] + more, rest'))
    else Some(([], s))
  }

  /** Reads ` />`, or `>` followed by text and the closing tag, or a bare `>`. */
  function ParseBody(name: string, s: string): (r: Option<(Body, string)>)
    ensures r.Some? ==> |r.value.1| < |s|
  {
    if StartsWith(s, " />") then Some((Void, s[3..]))
    else if StartsWith(s, ">") then
      var t := s[1..];
      var j := IndexOf(t, '<');
      var close := "</" + name + ">";
      if StartsWith(t[j..], close) then Some((Content(t[..j]), t[j + |close|..]))
      else Some((Open, t))
    else None
  }

  function ParseElement(s: string): (r: Option<(Element, string)>)
    ensures r.Some? ==> |r.value.1| < |s|
  {
    if 2 <= |s| && s[0] == '<' && IsNameChar(s[1]) then
      var n := NameSpan(s[1..]);
      match ParseAttrs(s[1 + n..])
      case None => None
      case Some((attrs, rest)) =>
        match ParseBody(s[1..1 + n], rest)
        case None => None
        case Some((body, rest')) => Some((Element(s[1..1 + n], attrs, body), rest'))
    else None
  }

  /** Reads a line-separated sequence of elements covering all of `s`. */
  function ParseAll(s: string): (r: Option<seq<Element>>)
    decreases |s|
  {
    if s == [] then Some([])
    else match ParseElement(s)
      case None => None
      case Some((e, rest)) =>
        if rest == [] then Some([e])
        else if rest[0] == '\n' then
          match ParseAll(rest[1..])
          case None => None
          case Some(es) => Some([e] + es)
        else None
  }

  // ---------------------------------------------------------------------
  // Reading back what was rendered

  lemma {:induction false} NameSpanOf(name: string, rest: string)
    requires forall i :: 0 <= i < |name| ==> IsNameChar(name[i])
    requires rest == [] || !IsNameChar(rest[0])
    ensures NameSpan(name + rest) == |name|
  {
    if name == [] {
      assert name + rest == rest;
    } else {
      assert (name + rest)[0] == name[0];
      assert (name + rest)[1..] == name[1..] + rest;
      NameSpanOf(name[1..], rest);
    }
  }

  lemma RenderAttrShape(a: Attr, tail: string)
    ensures RenderAttr(a) + tail == " " + (a.key + ("=\"" + (a.value + ("\"" + tail))))
  {
  }

  /** The pieces of `="v"` followed by `tail`, when `v` holds no quote. */
  lemma QuotedShape(after: string, v: string, tail: string)
    requires '"' !in v
    requires after == "=\"" + (v + ("\"" + tail))
    ensures 2 <= |after| && after[0] == '=' && after[1] == '"'
    ensures IndexOf(after[2..], '"') == |v| < |after[2..]|
    ensures after[2..2 + |v|] == v && after[3 + |v|..] == tail
  {
    assert after[2..] == v + ("\"" + tail);
    IndexOfAppend(v, "\"" + tail, '"');
  }

  /** The value and what follows it, once the key has been read. */
  lemma ParseAttrValue(a: Attr, s: string, tail: string)
    requires '"' !in a.value
    requires StartsAttr(s)
    requires NameSpan(s[1..]) == |a.key|
    requires s[1..1 + |a.key|] == a.key
    requires s[1 + |a.key|..] == "=\"" + (a.value + ("\"" + tail))
    ensures ParseAttr(s) == Some((a, tail))
  {
    QuotedShape(s[1 + |a.key|..], a.value, tail);
  }

  lemma ParseRenderAttr(a: Attr, tail: string)
    requires ValidName(a.key) && '"' !in a.value
    ensures StartsAttr(RenderAttr(a) + tail)
    ensures ParseAttr(RenderAttr(a) + tail) == Some((a, tail))
  {
    var s := RenderAttr(a) + tail;
    var after := "=\"" + (a.value + ("\"" + tail));
    RenderAttrShape(a, tail);
    LeadShape(s, " ", a.key, after);
    NameSpanOf(a.key, after);
    ParseAttrValue(a, s, tail);
  }

  lemma {:induction false} ParseRenderAttrs(attrs: seq<Attr>, rest: string)
    requires ValidAttrs(attrs)
    requires !StartsAttr(rest)
    ensures ParseAttrs(RenderAttrs(attrs) + rest) == Some((attrs, rest))
  {
    if attrs != [] {
      var tail := RenderAttrs(attrs[1..]) + rest;
      assert RenderAttrs(attrs) + rest == RenderAttr(attrs[0]) + tail;
      ParseRenderAttr(attrs[0], tail);
      assert ValidAttrs(attrs[1..]) by {
        forall i | 0 <= i < |attrs[1..]| ensures ValidName(attrs[1..][i].key) && '"' !in attrs[1..][i].value {
          assert attrs[1..][i] == attrs[i + 1];
        }
      }
      ParseRenderAttrs(attrs[1..], rest);
      assert [attrs[0]] + attrs[1..] == attrs;
    } else {
      assert RenderAttrs(attrs) + rest == rest;
    }
  }

  /** What may follow an opening-only tag: text that does not begin with a closing tag. */
  predicate FollowsOpen(s: string) {
    !StartsWith(s[IndexOf(s, '<')..], "</")
  }

  lemma ParseRenderVoid(name: string, rest: string)
    ensures ParseBody(name, " />" + rest) == Some((Void, rest))
  {
    var s := " />" + rest;
    assert s[..3] == " />" && s[3..] == rest;
  }

  lemma ParseRenderOpen(name: string, rest: string)
    requires FollowsOpen(rest)
    ensures ParseBody(name, ">" + rest) == Some((Open, rest))
  {
    var s := ">" + rest;
    assert s[0] == '>' && s[..1] == ">" && s[1..] == rest;
    assert !StartsWith(s, " />");
  }

  lemma ContentShape(name: string, t: string, rest: string)
    ensures ">" + t + "</" + name + ">" + rest == ">" + (t + ("</" + name + ">" + rest))
  {
  }

  /** Text without `<` and the closing tag, once `>` has been read. */
  lemma ParseContentAfter(name: string, t: string, rest: string)
    requires '<' !in t
    ensures ParseBody(name, ">" + (t + ("</" + name + ">" + rest))) == Some((Content(t), rest))
  {
    var close := "</" + name + ">";
    var u := t + (close + rest);
    var s := ">" + u;
    assert s[0] == '>' && s[..1] == ">" && s[1..] == u;
    assert !StartsWith(s, " />");
    IndexOfAppend(t, close + rest, '<');
    assert u[|t|..] == close + rest;
    assert u[..|t|] == t;
    assert u[|t| + |close|..] == rest;
  }

  lemma ParseRenderContent(name: string, t: string, rest: string)
    requires '<' !in t
    ensures ParseBody(name, ">" + t + "</" + name + ">" + rest) == Some((Content(t), rest))
  {
    ContentShape(name, t, rest);
    ParseContentAfter(name, t, rest);
  }

  lemma ParseRenderBody(name: string, body: Body, rest: string)
    requires body.Content? ==> '<' !in body.text
    requires body.Open? ==> FollowsOpen(rest)
    ensures ParseBody(name, RenderBody(name, body) + rest) == Some((body, rest))
  {
    match body
    case Void => ParseRenderVoid(name, rest);
    case Open => ParseRenderOpen(name, rest);
    case Content(t) => ParseRenderContent(name, t, rest);
  }

  /** Every attribute list rendering ends before ` />` or `>`. */
  lemma BodyEndsAttrs(name: string, body: Body, rest: string)
    ensures !StartsAttr(RenderBody(name, body) + rest)
  {
    var s := RenderBody(name, body) + rest;
    if body.Void? {
      assert s[1] == '/';
    } else {
      assert s[0] == '>';
    }
  }

  /** What follows the element name starts with a space or `>`. */
  lemma AfterNameShape(e: Element, rest: string)
    ensures var x := RenderAttrs(e.attrs) + (RenderBody(e.name, e.body) + rest);
      x != [] && !IsNameChar(x[0])
  {
    var b := RenderBody(e.name, e.body) + rest;
    if e.attrs == [] {
      assert RenderAttrs(e.attrs) + b == b;
      assert b[0] == RenderBody(e.name, e.body)[0];
    } else {
      assert (RenderAttrs(e.attrs) + b)[0] == RenderAttr(e.attrs[0])[0] == ' ';
    }
  }

  /** Attributes and body, once the name has been read. */
  lemma ParseElementAfterName(e: Element, s: string, rest: string)
    requires ValidElement(e)
    requires e.body.Open? ==> FollowsOpen(rest)
    requires 2 <= |s| && s[0] == '<' && IsNameChar(s[1])
    requires NameSpan(s[1..]) == |e.name|
    requires s[1..1 + |e.name|] == e.name
    requires s[1 + |e.name|..] == RenderAttrs(e.attrs) + (RenderBody(e.name, e.body) + rest)
    ensures ParseElement(s) == Some((e, rest))
  {
    BodyEndsAttrs(e.name, e.body, rest);
    ParseRenderAttrs(e.attrs, RenderBody(e.name, e.body) + rest);
    ParseRenderBody(e.name, e.body, rest);
  }

  /** Associating the rendering of an element and what follows it to the right. */
  lemma RenderShape(e: Element, rest: string)
    ensures Render(e) + rest == "<" + (e.name + (RenderAttrs(e.attrs) + (RenderBody(e.name, e.body) + rest)))
  {
  }

  /** The pieces of a one-character lead, a name and the rest. */
  lemma LeadShape(s: string, lead: string, name: string, x: string)
    requires |lead| == 1 && name != [] && s == lead + (name + x)
    ensures 2 <= |s| && s[0] == lead[0] && s[1] == name[0]
    ensures s[1..] == name + x && s[1..1 + |name|] == name && s[1 + |name|..] == x
  {
  }

  /** A well-formed element reads back from its rendering, whatever follows it. */
  lemma ParseRenderElement(e: Element, rest: string)
    requires ValidElement(e)
    requires e.body.Open? ==> FollowsOpen(rest)
    ensures ParseElement(Render(e) + rest) == Some((e, rest))
  {
    var s := Render(e) + rest;
    var x := RenderAttrs(e.attrs) + (RenderBody(e.name, e.body) + rest);
    RenderShape(e, rest);
    LeadShape(s, "<", e.name, x);
    AfterNameShape(e, rest);
    NameSpanOf(e.name, x);
    ParseElementAfterName(e, s, rest);
  }

  lemma RenderStarts(e: Element)
    requires ValidElement(e)
    ensures |Render(e)| >= 2 && Render(e)[0] == '<' && Render(e)[1] == e.name[0]
  {
    assert Render(e) == "<" + (e.name + RenderAttrs(e.attrs) + RenderBody(e.name, e.body));
  }

  lemma {:induction false} RenderAllStarts(es: seq<Element>)
    requires es != [] && ValidElement(es[0])
    ensures |RenderAll(es)| >= 2 && RenderAll(es)[0] == '<' && IsNameChar(RenderAll(es)[1])
  {
    RenderStarts(es[0]);
    if |es| > 1 {
      assert RenderAll(es) == Render(es[0]) + ("\n" + RenderAll(es[1..]));
    }
  }

  lemma FollowsOpenLine(more: string)
    requires 2 <= |more| && more[0] == '<' && IsNameChar(more[1])
    ensures FollowsOpen("\n" + more)
  {
    var rest := "\n" + more;
    assert rest[0] == '\n' && rest[1] == '<';
    assert IndexOf(rest, '<') == 1;
    assert rest[1..][1] == more[1];
  }

  lemma ParseAllLast(s: string, e: Element)
    requires ParseElement(s) == Some((e, ""))
    ensures ParseAll(s) == Some([e])
  {
  }

  lemma ParseAllLine(s: string, e: Element, more: string, es: seq<Element>)
    requires ParseElement(s) == Some((e, "\n" + more))
    requires ParseAll(more) == Some(es)
    ensures ParseAll(s) == Some([e] + es)
  {
    var rest := "\n" + more;
    assert rest[0] == '\n' && rest[1..] == more;
  }

  lemma ValidElementsTail(es: seq<Element>)
    requires es != [] && ValidElements(es)
    ensures ValidElement(es[0]) && ValidElements(es[1..])
  {
    forall i | 0 <= i < |es[1..]| ensures ValidElement(es[1..][i]) {
      assert es[1..][i] == es[i + 1];
    }
  }

  lemma ParseRenderLast(e: Element)
    requires ValidElement(e)
    ensures ParseAll(RenderAll([e])) == Some([e])
  {
    assert Render(e) + "" == Render(e) == RenderAll([e]);
    ParseRenderElement(e, "");
    ParseAllLast(RenderAll([e]), e);
  }

  lemma ParseRenderLine(e: Element, es: seq<Element>)
    requires ValidElement(e) && es != [] && ValidElement(es[0])
    requires ParseAll(RenderAll(es)) == Some(es)
    ensures ParseAll(RenderAll([e] + es)) == Some([e] + es)
  {
    var more := RenderAll(es);
    RenderAllStarts(es);
    FollowsOpenLine(more);
    ParseRenderElement(e, "\n" + more);
    assert ([e] + es)[1..] == es;
    assert RenderAll([e] + es) == Render(e) + ("\n" + more);
    ParseAllLine(RenderAll([e] + es), e, more, es);
  }

  /**
   * Rendering loses nothing: the line-separated rendering of well-formed
   * elements reads back as exactly those elements, in the same order.
   */
  lemma {:induction false} ParseRenderAll(es: seq<Element>)
    requires ValidElements(es)
    ensures ParseAll(RenderAll(es)) == Some(es)
  {
    if es != [] {
      ValidElementsTail(es);
      if |es| == 1 {
        assert es == [es[0]];
        ParseRenderLast(es[0]);
      } else {
        ValidElementsTail(es[1..]);
        ParseRenderAll(es[1..]);
        ParseRenderLine(es[0], es[1..]);
        assert [es[0]] + es[1..] == es;
      }
    }
  }

  /** A single well-formed element reads back from its rendering. */
  lemma ParseRenderOne(e: Element)
    requires ValidElement(e)
    ensures ParseAll(Render(e)) == Some([e])
  {
    assert ValidElements([e]);
    ParseRenderLast(e);
  }
}
