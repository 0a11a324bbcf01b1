/**
 * How the helper turns an asset name into the path it emits for
 * `script`, `style` and `image`: a default extension is added to the part
 * before any query string unless it is already there, and the asset folder
 * is put in front unless the name is rooted (`/...`) or a full URL.
 */
module Assets {
  import opened Strings

  datatype Asset = ScriptAsset | StyleAsset | ImageAsset

  function Folder(a: Asset): string {
    match a
    case ScriptAsset => "/js/"
    case StyleAsset => "/css/"
    case ImageAsset => "/img/"
  }

  /** Images keep the name they are given; scripts and stylesheets get one. */
  function DefaultExtension(a: Asset): string {
    match a
    case ScriptAsset => ".js"
    case StyleAsset => ".css"
    case ImageAsset => ""
  }

  /** The part of a path before its first `?`. */
  function BeforeQuery(p: string): string {
    p[..IndexOf(p, '?')]
  }

  /** The query string of a path, with its leading `?`, or nothing. */
  function Query(p: string): string {
    p[IndexOf(p, '?')..]
  }

  predicate IsRooted(p: string) {
    StartsWith(p, "/")
  }

  predicate IsFullUrl(p: string) {
    Contains(p, "://")
  }

  /** Neither rooted nor a full URL: such a path is looked up in the asset folder. */
  predicate IsRelative(p: string) {
    !IsRooted(p) && !IsFullUrl(p)
  }

  lemma SplitQuery(p: string)
    ensures p == BeforeQuery(p) + Query(p)
    ensures '?' !in BeforeQuery(p)
    ensures Query(p) == [] || Query(p)[0] == '?'
  {
    assert p == p[..IndexOf(p, '?')] + p[IndexOf(p, '?')..];
  }

  /** Splitting `b + q` where `b` has no `?` and `q` is a query (or nothing). */
  lemma SplitAt(b: string, q: string)
    requires '?' !in b
    requires q == [] || q[0] == '?'
    ensures BeforeQuery(b + q) == b && Query(b + q) == q
  {
    IndexOfAppend(b, q, '?');
    assert IndexOf(q, '?') == 0;
    assert (b + q)[..|b|] == b && (b + q)[|b|..] == q;
  }

  /** A prefix without `?` leaves the query string where it was. */
  lemma SplitPrefixed(f: string, p: string)
    requires '?' !in f
    ensures BeforeQuery(f + p) == f + BeforeQuery(p) && Query(f + p) == Query(p)
  {
    IndexOfAppend(f, p, '?');
    var i := IndexOf(p, '?');
    assert (f + p)[..|f| + i] == f + p[..i];
    assert (f + p)[|f| + i..] == p[i..];
  }

  /**
   * `ext` added to the part before the query string unless that part
   * already ends with it; the query string is kept as it was.
   */
  function WithExtension(p: string, ext: string): (r: string)
    requires '?' !in ext
    ensures Query(r) == Query(p)
    ensures BeforeQuery(r) == if EndsWith(BeforeQuery(p), ext) then BeforeQuery(p) else BeforeQuery(p) + ext
    ensures EndsWith(BeforeQuery(r), ext)
  {
    SplitQuery(p);
    if EndsWith(BeforeQuery(p), ext) then p
    else
      var b := BeforeQuery(p) + ext;
      assert '?' !in b;
      SplitAt(b, Query(p));
      assert (BeforeQuery(p) + ext)[|b| - |ext|..] == ext;
      b + Query(p)
  }

  lemma EndsWithPrefixed(f: string, x: string, ext: string)
    requires EndsWith(x, ext)
    ensures EndsWith(f + x, ext)
  {
    assert (f + x)[|f + x| - |ext|..] == x[|x| - |ext|..];
  }

  /** The name with the default extension added when it is missing. */
  function Completed(a: Asset, b: string): string {
    if EndsWith(b, DefaultExtension(a)) then b else b + DefaultExtension(a)
  }

  /**
   * The path the helper emits for asset name `p` of kind `a`: the query
   * string is kept, and the part before it is the name completed with the
   * extension, behind the folder exactly when the name is relative.
   */
  function AssetPath(a: Asset, p: string): (r: string)
    ensures Query(r) == Query(p)
    ensures EndsWith(BeforeQuery(r), DefaultExtension(a))
    ensures BeforeQuery(r) ==
      if IsRelative(p) then Folder(a) + Completed(a, BeforeQuery(p)) else Completed(a, BeforeQuery(p))
  {
    var completed := WithExtension(p, DefaultExtension(a));
    if IsRelative(p) then
      SplitPrefixed(Folder(a), completed);
      EndsWithPrefixed(Folder(a), BeforeQuery(completed), DefaultExtension(a));
      Folder(a) + completed
    else
      completed
  }

  // ---------------------------------------------------------------------
  // Properties of the resolved path

  lemma ExtensionNotInScheme(a: Asset)
    ensures DefaultExtension(a) == [] || DefaultExtension(a)[0] !in "://"
    ensures !Contains(DefaultExtension(a), "://")
    ensures '?' !in DefaultExtension(a)
  {
    if Contains(DefaultExtension(a), "://") {
      ContainsFirst(DefaultExtension(a), "://");
    }
  }

  /** Putting `e` between `b` and `q` does not create or destroy an occurrence of `t`. */
  lemma InsertKeeps(b: string, e: string, q: string, t: string)
    requires |t| > 0
    requires e == [] || e[0] !in t
    requires q == [] || q[0] !in t
    requires !Contains(e, t)
    ensures Contains(b + e + q, t) <==> Contains(b + q, t)
  {
    ContainsAppend(b + e, q, t);
    ContainsAppend(b, e, t);
    ContainsAppend(b, q, t);
  }

  /** Adding the extension neither makes a full URL nor unmakes one. */
  lemma WithExtensionKeepsUrl(a: Asset, p: string)
    ensures IsFullUrl(WithExtension(p, DefaultExtension(a))) <==> IsFullUrl(p)
  {
    var ext, b, q := DefaultExtension(a), BeforeQuery(p), Query(p);
    ExtensionNotInScheme(a);
    SplitQuery(p);
    if !EndsWith(b, ext) {
      assert WithExtension(p, ext) == b + ext + q;
      InsertKeeps(b, ext, q, "://");
    }
  }

  /** Adding the extension keeps a rooted path rooted. */
  lemma WithExtensionKeepsRoot(a: Asset, p: string)
    requires IsRooted(p)
    ensures IsRooted(WithExtension(p, DefaultExtension(a)))
  {
    var ext, b, q := DefaultExtension(a), BeforeQuery(p), Query(p);
    SplitQuery(p);
    assert p[0] == '/' && IndexOf(p, '?') > 0;
    assert b[0] == '/';
    if !EndsWith(b, ext) {
      assert WithExtension(p, ext) == (b + ext) + q;
      assert (b + ext)[0] == '/';
    }
  }

  /** The emitted path is always rooted or a full URL: it is never looked up again. */
  lemma AssetPathIsRooted(a: Asset, p: string)
    ensures !IsRelative(AssetPath(a, p))
  {
    if IsRelative(p) {
      assert AssetPath(a, p)[0] == Folder(a)[0] == '/';
    } else if IsRooted(p) {
      WithExtensionKeepsRoot(a, p);
    } else {
      WithExtensionKeepsUrl(a, p);
    }
  }

  /** Resolving an already resolved path changes nothing. */
  lemma AssetPathIdempotent(a: Asset, p: string)
    ensures AssetPath(a, AssetPath(a, p)) == AssetPath(a, p)
  {
    AssetPathIsRooted(a, p);
  }

  /** A path without a query string that lacks the extension gets exactly the extension. */
  lemma CompletesPlain(a: Asset, name: string)
    requires '?' !in name
    requires !EndsWith(name, DefaultExtension(a))
    ensures WithExtension(name, DefaultExtension(a)) == name + DefaultExtension(a)
    ensures WithExtension(name + DefaultExtension(a), DefaultExtension(a)) == name + DefaultExtension(a)
  {
    var ext := DefaultExtension(a);
    ExtensionNotInScheme(a);
    SplitAt(name, "");
    assert name + "" == name;
    assert '?' !in name + ext;
    SplitAt(name + ext, "");
    assert name + ext + "" == name + ext;
    assert (name + ext)[|name + ext| - |ext|..] == ext;
  }

  /** Appending the extension does not change whether a path is relative. */
  lemma RelativeWithExtension(a: Asset, name: string)
    requires !EndsWith(name, DefaultExtension(a))
    ensures IsRelative(name) <==> IsRelative(name + DefaultExtension(a))
  {
    var ext := DefaultExtension(a);
    ExtensionNotInScheme(a);
    assert ext != [];
    ContainsAppend(name, ext, "://");
    if name != [] {
      assert (name + ext)[..1] == name[..1];
    } else {
      assert name + ext == ext;
      assert ext[0] == '.';
    }
  }

  /**
   * Naming the default extension or leaving it off gives the same path:
   * `style('screen')` and `style('screen.css')` emit the same stylesheet.
   */
  lemma ExtensionOptional(a: Asset, name: string)
    requires '?' !in name
    requires !EndsWith(name, DefaultExtension(a))
    ensures AssetPath(a, name) == AssetPath(a, name + DefaultExtension(a))
  {
    CompletesPlain(a, name);
    RelativeWithExtension(a, name);
  }

  /**
   * The rule on a path split at its first `?`: the folder when relative,
   * the name completed with the extension, then the query string unchanged.
   */
  lemma Resolve(a: Asset, b: string, q: string)
    requires '?' !in b
    requires q == [] || q[0] == '?'
    ensures AssetPath(a, b + q) ==
      (if IsRelative(b + q) then Folder(a) + Completed(a, b) else Completed(a, b)) + q
  {
    SplitAt(b, q);
    SplitQuery(AssetPath(a, b + q));
  }

  /** A path with no `:` cannot be a full URL. */
  lemma NotFullUrl(p: string)
    requires ':' !in p
    ensures !IsFullUrl(p)
  {
    if IsFullUrl(p) {
      ContainsFirst(p, "://");
    }
  }
}
