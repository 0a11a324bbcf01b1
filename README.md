# The lithium HTML helper and data source, modelled in Dafny

This project models two parts of the lithium PHP framework. Both are
reconstructed from what their unit tests assert.

- The HTML helper (`lithium\template\helpers\Html`). It produces:
  - document type declarations (`docType`);
  - the character-set `meta` tag (`charset`);
  - anchors and meta links (`link`);
  - script, stylesheet and image tags (`script`, `style`, `image`);
  - generic elements (`tag`, `block`, `para`).
- The data-source base class seen through `MockSource`:
  - the connection flag that `isConnected` may switch on;
  - the identity `name` quoting;
  - the default class configuration (`configureClass`).

Modules:

- `Strings`: prefixes, suffixes, search.
- `Entities`: the four-character entity encoding of PHP's `htmlspecialchars` with `ENT_COMPAT`, and its inverse.
- `Markup`: elements (name, ordered attributes, a self-closed / open-only / content body), their rendering, and a reader that recovers the elements from the text. The tests compare output with a tag matcher; the model states each helper's output as what the reader gets back. `Markup.ParseRenderAll` proves rendering is lossless for well-formed elements.
- `Assets`: the path rule of `script`, `style` and `image`:
  - a default extension (`.js`, `.css`, none for images) is added to the part before the first `?` unless it is already there;
  - the folder (`/js/`, `/css/`, `/img/`) is put in front unless the path is rooted or a full URL.
- `Html`: the helpers, each a function whose contract says how its text reads back.
- `HtmlExamples`: the asserted examples of the helper, as lemmas about the model (router URLs excepted, see "Left out").
- `DataSource`: `configureClass` and `name` as functions. The connection is a `Source` class with a `connected` field. `IsConnected` updates it and is proved against the step function `Step`. `Replies`, the answers to a series of queries, carries the "once connected, stays connected" lemmas.

## Model

| member | source | states |
|---|---|---|
| Html.DocType | libraries/lithium/tests/cases/template/helpers/HtmlTest.php:57-70 | a declaration exists exactly for the known keys, and every declaration starts with `<!DOCTYPE ` |
| HtmlExamples.DocTypeKnown | libraries/lithium/tests/cases/template/helpers/HtmlTest.php:58-67 | `xhtml-strict` and `html4-strict` give their exact XHTML 1.0 Strict and HTML 4.01 Strict declarations |
| HtmlExamples.DocTypeUnknown | libraries/lithium/tests/cases/template/helpers/HtmlTest.php:69 | `badness` gives nothing (PHP null) |
| Html.Charset | libraries/lithium/tests/cases/template/helpers/HtmlTest.php:77-89 | the output reads back as one self-closed `meta` whose attributes are exactly `http-equiv="Content-Type"` and the encoded `text/html; charset=` + encoding (default `utf-8`) |
| HtmlExamples.CharsetNamed | libraries/lithium/tests/cases/template/helpers/HtmlTest.php:77-89 | an encoding without markup characters appears in `content` exactly as given |
| HtmlExamples.CharsetExamples | libraries/lithium/tests/cases/template/helpers/HtmlTest.php:78-88 | `charset('utf-8')` and `charset('UTF-7')` read back with the asserted `http-equiv` and `content` |
| HtmlExamples.CharsetDefault | libraries/lithium/tests/cases/template/helpers/HtmlTest.php:78 | `charset()` with no argument is `charset('utf-8')` |
| Assets.WithExtension | libraries/lithium/tests/cases/template/helpers/HtmlTest.php:246-265 | the query string is kept; the part before it gains the extension exactly when it does not already end with it, and afterwards always ends with it |
| Assets.AssetPath | libraries/lithium/tests/cases/template/helpers/HtmlTest.php:246-288 | the query string is kept, and the part before it is: the folder exactly when the name is relative, then the name, then the extension exactly when it is missing |
| Assets.Resolve | libraries/lithium/tests/cases/template/helpers/HtmlTest.php:246-288 | the same rule on a name split at its first `?` into name and query |
| Assets.AssetPathIsRooted | libraries/lithium/tests/cases/template/helpers/HtmlTest.php:267-288 | an emitted path is always rooted or a full URL |
| Assets.AssetPathIdempotent | libraries/lithium/tests/cases/template/helpers/HtmlTest.php:246-288 | resolving an emitted path again leaves it unchanged |
| Assets.WithExtensionKeepsUrl | libraries/lithium/tests/cases/template/helpers/HtmlTest.php:286-288 | adding the extension neither makes nor unmakes a full URL |
| Assets.WithExtensionKeepsRoot | libraries/lithium/tests/cases/template/helpers/HtmlTest.php:267-274 | adding the extension keeps a rooted path rooted |
| Assets.CompletesPlain | libraries/lithium/tests/cases/template/helpers/HtmlTest.php:250-252 | a name without a query gains exactly the extension, and a completed name gains nothing |
| Assets.RelativeWithExtension | libraries/lithium/tests/cases/template/helpers/HtmlTest.php:246-252 | appending the extension does not change whether a name is relative |
| Assets.ExtensionOptional | libraries/lithium/tests/cases/template/helpers/HtmlTest.php:350-357 | naming the default extension or leaving it off gives the same path |
| Assets.NotFullUrl | libraries/lithium/tests/cases/template/helpers/HtmlTest.php:276-284 | a name with no `:` is never a full URL |
| Html.Script | libraries/lithium/tests/cases/template/helpers/HtmlTest.php:246-288 | the output reads back as one empty `script` whose attributes are exactly `type="text/javascript"` and the encoded resolved path |
| Html.Scripts | libraries/lithium/tests/cases/template/helpers/HtmlTest.php:290-300 | a list of names reads back as one script tag per name, in the order given |
| HtmlExamples.ScriptIs | libraries/lithium/tests/cases/template/helpers/HtmlTest.php:246-288 | for a resolved path without markup characters, the output is exactly the rendering of the script tag with that source |
| HtmlExamples.ScriptPathSuffixed | libraries/lithium/tests/cases/template/helpers/HtmlTest.php:246-248 | `script.js` resolves to `/js/script.js` |
| HtmlExamples.ScriptPathPlain | libraries/lithium/tests/cases/template/helpers/HtmlTest.php:250-252 | `script` resolves to `/js/script.js` |
| HtmlExamples.ScriptPathQuery | libraries/lithium/tests/cases/template/helpers/HtmlTest.php:254-257 | `scriptaculous.js?load=effects` resolves to `/js/scriptaculous.js?load=effects` |
| HtmlExamples.ScriptPathVersioned | libraries/lithium/tests/cases/template/helpers/HtmlTest.php:259-265 | `jquery-1.1.2` resolves to `/js/jquery-1.1.2.js` |
| HtmlExamples.ScriptPathRooted | libraries/lithium/tests/cases/template/helpers/HtmlTest.php:267-269 | `/plugin/js/jquery-1.1.2` gains only the extension |
| HtmlExamples.ScriptPathRootedComplete | libraries/lithium/tests/cases/template/helpers/HtmlTest.php:271-274 | `/some_other_path/myfile.1.2.2.min.js` is emitted unchanged |
| HtmlExamples.ScriptPathNested | libraries/lithium/tests/cases/template/helpers/HtmlTest.php:276-279 | `some_other_path/myfile.1.2.2.min.js` gains only the `/js/` folder |
| HtmlExamples.ScriptPathNestedPlain | libraries/lithium/tests/cases/template/helpers/HtmlTest.php:281-284 | `some_other_path/myfile.1.2.2.min` gains the folder and `.js` |
| HtmlExamples.ScriptPathUrl | libraries/lithium/tests/cases/template/helpers/HtmlTest.php:286-288 | `http://example.com/jquery.js` is emitted unchanged |
| HtmlExamples.ScriptsListed | libraries/lithium/tests/cases/template/helpers/HtmlTest.php:290-300 | two names give the first name's tag, a line break, then the second name's tag |
| HtmlExamples.ScriptsPrototype | libraries/lithium/tests/cases/template/helpers/HtmlTest.php:290-300 | `prototype` and `scriptaculous` resolve to `/js/prototype.js` and `/js/scriptaculous.js`, the paths the two tags carry |
| HtmlExamples.ScriptExtensionOptional | libraries/lithium/tests/cases/template/helpers/HtmlTest.php:246-252 | `script(n)` and `script(n + '.js')` give the same text |
| Html.Style | libraries/lithium/tests/cases/template/helpers/HtmlTest.php:349-365 | the output reads back as one self-closed `link` whose attributes are exactly `rel="stylesheet"`, `type="text/css"` and the encoded resolved path |
| Html.Styles | libraries/lithium/tests/cases/template/helpers/HtmlTest.php:427-441 | a list of names reads back as one stylesheet link per name, in the order given |
| HtmlExamples.StyleIs | libraries/lithium/tests/cases/template/helpers/HtmlTest.php:349-365 | for a resolved path without markup characters, the output is exactly the rendering of the stylesheet link with that address |
| HtmlExamples.StyleExtensionOptional | libraries/lithium/tests/cases/template/helpers/HtmlTest.php:350-357 | `style('screen')` and `style('screen.css')` give the same text |
| HtmlExamples.StylePathPlain | libraries/lithium/tests/cases/template/helpers/HtmlTest.php:350-354 | `screen` resolves to `/css/screen.css` |
| HtmlExamples.StylePathQuery | libraries/lithium/tests/cases/template/helpers/HtmlTest.php:359-361 | `screen.css?1234` resolves to `/css/screen.css?1234` |
| HtmlExamples.StylePathUrl | libraries/lithium/tests/cases/template/helpers/HtmlTest.php:363-365 | `http://whatever.com/screen.css?1234` is emitted unchanged |
| HtmlExamples.StylesListed | libraries/lithium/tests/cases/template/helpers/HtmlTest.php:427-441 | two names give the first name's link, a line break, then the second name's link |
| HtmlExamples.StylesBaseLayout | libraries/lithium/tests/cases/template/helpers/HtmlTest.php:427-441 | `base` and `layout` resolve to `/css/base.css` and `/css/layout.css`, the addresses the two links carry |
| Html.Image | libraries/lithium/tests/cases/template/helpers/HtmlTest.php:325-342 | the output reads back as one self-closed `img` whose attributes are exactly the encoded resolved path and an empty `alt` |
| HtmlExamples.ImageIs | libraries/lithium/tests/cases/template/helpers/HtmlTest.php:325-342 | for a resolved path without markup characters, the output is exactly the rendering of that image tag |
| HtmlExamples.ImagePathRelative | libraries/lithium/tests/cases/template/helpers/HtmlTest.php:327-328 | `test.gif` resolves to `/img/test.gif`, with no extension added |
| HtmlExamples.ImagePathUrl | libraries/lithium/tests/cases/template/helpers/HtmlTest.php:330-333 | `http://google.com/logo.gif` is emitted unchanged |
| HtmlExamples.ImagePathRooted | libraries/lithium/tests/cases/template/helpers/HtmlTest.php:340-341 | `/test/view/1.gif` is emitted unchanged |
| Html.Encode | libraries/lithium/tests/cases/template/helpers/HtmlTest.php:162-205 | with escaping on, the text decodes back to the input and holds no `<` or `"`; with it off, the text is the input |
| Entities.Escape | libraries/lithium/tests/cases/template/helpers/HtmlTest.php:162-164 | the encoded text holds no `<`, `>` or `"`, and text without special characters is unchanged |
| Entities.UnescapeEscape | libraries/lithium/tests/cases/template/helpers/HtmlTest.php:162-205 | decoding the encoded text gives the text back |
| Entities.EscapeInjective | libraries/lithium/tests/cases/template/helpers/HtmlTest.php:162-205 | two texts that encode alike are equal |
| Entities.EscapeAppend | libraries/lithium/tests/cases/template/helpers/HtmlTest.php:197-205 | encoding a concatenation is the concatenation of the encodings |
| Markup.ParseRenderAll | libraries/lithium/tests/cases/template/helpers/HtmlTest.php:80-82 | well-formed elements rendered one per line read back as exactly those elements |
| Markup.ParseRenderOne | libraries/lithium/tests/cases/template/helpers/HtmlTest.php:80-82 | a well-formed element reads back as exactly itself |
| Html.Link | libraries/lithium/tests/cases/template/helpers/HtmlTest.php:96-205 | when the title, address and options can be read back, the output reads back as exactly the link elements: two for `icon`, otherwise one |
| Html.LinkElementsValid | libraries/lithium/tests/cases/template/helpers/HtmlTest.php:96-205 | link elements whose parts are readable are well formed, two for `icon` and one otherwise |
| Html.AnchorReadsBack | libraries/lithium/tests/cases/template/helpers/HtmlTest.php:157-205 | without a type, one `a` element: content is the title, the first attribute is `href` (the title when no address is given), then the caller's options; all are encoded exactly when escaping is on |
| Html.AnchorRoundTrip | libraries/lithium/tests/cases/template/helpers/HtmlTest.php:162-180 | with escaping on, decoding the anchor's content and `href` returns the title and address given |
| Html.MetaLinkReadsBack | libraries/lithium/tests/cases/template/helpers/HtmlTest.php:96-132 | a non-icon type gives one self-closed `link`: with href, type, rel and title for a known type; only href and title for an unknown one |
| Html.IconReadsBack | libraries/lithium/tests/cases/template/helpers/HtmlTest.php:134-149 | `icon` gives two `image/x-icon` links to the same address, `rel="icon"` then `rel="shortcut icon"`; `/favicon.ico` when no address is given |
| Html.MetaLinksPlain | libraries/lithium/tests/cases/template/helpers/HtmlTest.php:96-150 | every known meta-link type has a MIME type and rel without quotes, and they differ |
| HtmlExamples.FeedTypes | libraries/lithium/tests/cases/template/helpers/HtmlTest.php:96-118 | `rss` and `atom` map to `application/rss+xml` and `application/atom+xml`, both `rel="alternate"` |
| HtmlExamples.FeedLink | libraries/lithium/tests/cases/template/helpers/HtmlTest.php:97-118 | `RSS Feed` and `Atom Feed` give one link with exactly href, the feed type, `alternate` and the title |
| HtmlExamples.UnknownTypeLink | libraries/lithium/tests/cases/template/helpers/HtmlTest.php:120-124 | type `rong` gives one link with exactly `href="/posts.xmp"` and the title |
| HtmlExamples.AtomLink | libraries/lithium/tests/cases/template/helpers/HtmlTest.php:126-132 | `atom` to `/posts.xpp` gives href, `application/atom+xml`, `alternate` and the title |
| HtmlExamples.FaviconLink | libraries/lithium/tests/cases/template/helpers/HtmlTest.php:134-149 | `Favicon` with no address gives two links to `/favicon.ico`, `icon` and `shortcut icon` |
| HtmlExamples.AnchorTitleOnly | libraries/lithium/tests/cases/template/helpers/HtmlTest.php:158-160 | `link('/home')` is the anchor `<a href="/home">/home</a>` |
| HtmlExamples.NextEscaped | libraries/lithium/tests/cases/template/helpers/HtmlTest.php:162-164 | `Next >` encodes as `Next &gt;` |
| HtmlExamples.AnchorEscaping | libraries/lithium/tests/cases/template/helpers/HtmlTest.php:162-184 | with escape unset, `true` or `'utf-8'` the anchor's content is `Next &gt;`; with `false` it is `Next >` |
| HtmlExamples.AmpersandEscaped | libraries/lithium/tests/cases/template/helpers/HtmlTest.php:197-205 | `&` encodes as `&amp;` with escaping on and stays with it off |
| HtmlExamples.AnchorTitleAttribute | libraries/lithium/tests/cases/template/helpers/HtmlTest.php:186-205 | a `title` option becomes the anchor's second attribute, raw when escaping is off and with `&amp;` when it is on; the content follows the same switch |
| Html.Tag | libraries/lithium/tests/cases/template/helpers/HtmlTest.php:448-464 | readable input reads back as one element: the name, the attribute names in order, decoded values and content equal to those given, and an opening tag alone exactly when there is no content |
| Html.TagReadsBack | libraries/lithium/tests/cases/template/helpers/HtmlTest.php:448-464 | readable input reads back as exactly the element built |
| Html.TagClassShorthand | libraries/lithium/tests/cases/template/helpers/HtmlTest.php:460-463 | a bare string as the options is the same as a `class` attribute |
| HtmlExamples.TagEmpty | libraries/lithium/tests/cases/template/helpers/HtmlTest.php:449-450 | `tag('div')` is the opening tag `<div>` alone |
| HtmlExamples.TagText | libraries/lithium/tests/cases/template/helpers/HtmlTest.php:452-453 | `tag('div', 'text')` wraps the text in `div` tags |
| HtmlExamples.BracketsEscaped | libraries/lithium/tests/cases/template/helpers/HtmlTest.php:455-458 | `<text>` encodes as `&lt;text&gt;` |
| HtmlExamples.TagEscapedWithClass | libraries/lithium/tests/cases/template/helpers/HtmlTest.php:455-463 | `<text>` with class `class-name` and escaping on gives `class="class-name"` and `&lt;text&gt;`, in both the array and the string form |
| Html.WithClass | libraries/lithium/tests/cases/template/helpers/HtmlTest.php:471-500 | the class attribute comes first, followed by exactly the other options that are not `class` |
| Html.Classed | libraries/lithium/tests/cases/template/helpers/HtmlTest.php:471-500 | the tag `block` and `para` share: a readable input reads back as the named element with the class first, the other options without `class`, and the encoded content |
| Html.Block | libraries/lithium/tests/cases/template/helpers/HtmlTest.php:471-482 | readable input reads back as exactly one `div` with the class first and the encoded content, or an opening tag alone when there is none |
| Html.Para | libraries/lithium/tests/cases/template/helpers/HtmlTest.php:489-500 | the same for a `p` |
| HtmlExamples.BlockExamples | libraries/lithium/tests/cases/template/helpers/HtmlTest.php:471-482 | `block('class-name')`, with `text`, and with `<text>` escaped read back as asserted |
| HtmlExamples.ParaExamples | libraries/lithium/tests/cases/template/helpers/HtmlTest.php:489-500 | `para('class-name', '')`, with `text`, and with `<text>` escaped read back as asserted |
| DataSource.Name | tests/cases/data/SourceTest.php:28-31 | the name comes back character for character |
| DataSource.NameKeepsEverything | tests/cases/data/SourceTest.php:30-31 | `{('Li':"∆")}` comes back unchanged |
| DataSource.ConfigureClass | tests/cases/data/SourceTest.php:33-42 | exactly the keys `entity`, `set`, `relationship` and `schema`, mapped to the Record, RecordSet, Relationship and Schema classes; meta is locked with key `id` |
| DataSource.ConfigureClassUniform | tests/cases/data/SourceTest.php:42 | the configuration does not depend on the model name |
| DataSource.Step | tests/cases/data/SourceTest.php:45-50 | a query leaves the source connected exactly when it was connected or asked to connect |
| DataSource.Replies | tests/cases/data/SourceTest.php:45-50 | one answer per query |
| DataSource.RepliesConnected | tests/cases/data/SourceTest.php:46-49 | a query answers true exactly when the source started connected or some query so far asked to connect |
| DataSource.RepliesStayConnected | tests/cases/data/SourceTest.php:48-49 | once a query answers true, every later one does |
| DataSource.RepliesNeverConnecting | tests/cases/data/SourceTest.php:46-47 | a source that starts disconnected and is never asked to connect always answers false |
| DataSource.Source.constructor | tests/cases/data/SourceTest.php:46 | the source is connected exactly when built with `autoConnect` (default on) |
| DataSource.Source.Connect | tests/cases/data/SourceTest.php:48 | the mock's connect sets the flag and succeeds |
| DataSource.Source.IsConnected | tests/cases/data/SourceTest.php:46-49 | the new flag is `Step` of the old flag and `autoConnect` (default off), and the answer is the new flag |
| DataSource.ConnectionScenario | tests/cases/data/SourceTest.php:45-50 | a source built without `autoConnect` answers false, then true when asked to connect, then true again: the first three `Replies` |

## Left out

- Router URLs. Hrefs and image sources built from route arrays (HtmlTest.php:97-111, 335-338) come from the global router, which is not part of this model. The model treats every URL as an opaque string parameter: `FeedLink` states the href as the encoded `url`. The route-array image at 335-338 has no lemma.
- The `MockHtmlRenderer` context and the route-table save and restore in `setUp`/`tearDown` (HtmlTest.php:31-49). These are framework state.
- The tag matcher itself. Attribute order, whitespace and regex matching are not modelled. The model states each output as the elements a reader recovers (`HasAttrs` compares attribute sets), and exact-text assertions as the rendering of an element. The regex hrefs (HtmlTest.php:122, 128, 137, 143, 292, 297, 352, 360, 364, 431, 436) are stated as exact resolved paths. Those paths satisfy the regexes.
- List separators. `Scripts`, `Styles` and the icon pair put one line break between elements. The tests accept any whitespace.
- The commented-out tests (HtmlTest.php:207-237, 367-419) assert nothing. The skipped `testImageLinking` (HtmlTest.php:308-318) is also left out. `image` takes string paths only.
- `methods()` (SourceTest.php:15-26) relies on PHP reflection. Its assertion compares the booleans returned by two `sort` calls, so it constrains nothing.
- The real connection I/O behind `connect` and `disconnect`, and the adapter methods (`read`, `create`, etc.). Only the flag is modelled. `disconnect` is never exercised, so it is not modelled. The mock's `connect` always succeeds. A failing connect, which leaves the flag false, is not modelled.
- Other document types. Only the two keys the tests assert are in the table.
- Reconstructed choices, where the tests only fix the examples:
  - an icon link without an address points to `/favicon.ico`;
  - an explicit `class` for `block`/`para` replaces any `class` among the options;
  - `escape` left unset means escaping, and a character-set string turns escaping on unless it is PHP-falsy (`""` or `"0"`);
  - entity encoding covers the four characters `&`, `<`, `>` and `"`;
  - the `Source` constructor connects exactly when `autoConnect` is set, which is the default.
- Full URLs are recognised by `://` anywhere in the name, which covers the `http://` the tests use.
- Html.Link: the contract speaks only of readable inputs, that is, attribute names that are proper names and, with escaping off, raw text without `"` or `<`. With such raw text the markup is ambiguous and cannot be read back.
- Html.Tag, Html.Classed, Html.Block, Html.Para: the same restriction to readable input.
- Repeated calls with the same name giving the same text (HtmlTest.php:259-265) holds of every Dafny function, so it needs no lemma.
