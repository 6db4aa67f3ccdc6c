/**
 * How the embedded single-page application is served (`internal/web`):
 * which request paths are assets, which get `index.html`, which paths
 * `serveDistFile` refuses before opening them, and the content type it
 * sends.
 *
 * The embedded `dist` tree is a map from file names to entries; the MIME
 * table `mime.TypeByExtension` consults is a map from extensions to types.
 * Copying the file to the response is not modelled.
 */
module WebEmbed {
  import opened Wrappers
  import opened Text

  /** What the embedded tree holds under a name. */
  datatype Entry = File | Dir

  /** The response a handler writes: a file from `dist`, or an error status. */
  datatype Response = Served(path: string, contentType: string) | Failed(status: int, message: string)

  const Index: string := "index.html"
  const NotFound: Response := Failed(404, "404 page not found")
  const MethodNotAllowed: Response := Failed(405, "Method not allowed")
  const AppUnavailable: Response := Failed(500, "Failed to serve application")

  /**
   * `isAssetPath`: everything under `assets/`, `pwa/` and `webfonts/`, and
   * five files at the top of the tree.
   */
  predicate IsAssetPath(pathname: string)
    ensures IsAssetPath(pathname) ==> pathname != "" && pathname[0] != '/' && pathname[0] != '.'
  {
    HasPrefix(pathname, "assets/") || HasPrefix(pathname, "pwa/") || HasPrefix(pathname, "webfonts/") ||
    pathname == "manifest.json" || pathname == "sw.js" || pathname == "logo.png" ||
    pathname == "favicon.ico" || pathname == "fa.min.css"
  }

  /** The routes the application itself handles are not assets. */
  lemma AppRoutesAreNotAssets(route: string)
    requires route == "" || route == "table" || route == "settings"
    ensures !IsAssetPath(route)
  {
    assert route == [] || route[0] == 't' || route[0] == 's';
  }

  predicate NoSlash(e: string) {
    forall i :: 0 <= i < |e| ==> e[i] != '/'
  }

  /** The elements of a slash-separated path, empty ones included. */
  function Split(s: string): (r: seq<string>)
    ensures |r| >= 1
    ensures forall i :: 0 <= i < |r| ==> NoSlash(r[i])
  {
    if s == [] then [[]]
    else
      var rest := Split(s[1..]);
      if s[0] == '/' then [[]] + rest
      else [[s[0]] + rest[0]] + rest[1..]
  }

  /** Elements joined with slashes. */
  function Join(elems: seq<string>): string {
    if |elems| == 0 then ""
    else if |elems| == 1 then elems[0]
    else elems[0] + "/" + Join(elems[1..])
  }

  /** An element `fs.ValidPath` accepts. */
  predicate ValidElem(e: string) {
    e != "" && e != "." && e != ".."
  }

  /**
   * `fs.ValidPath`: "." names the root; otherwise every element is
   * non-empty and neither "." nor "..", so there is no leading or trailing
   * slash either.
   */
  predicate ValidPath(name: string)
    ensures ValidPath(name) ==> name != "" && name != ".." && !HasPrefix(name, "/") && !HasPrefix(name, "../")
  {
    FirstElemEmpty(name);
    FirstElemDotDot(name);
    name == "." || forall i :: 0 <= i < |Split(name)| ==> ValidElem(Split(name)[i])
  }

  /** One element of `path.Clean`'s pass over a path, applied to the elements kept so far. */
  function Step(stack: seq<string>, e: string, rooted: bool): seq<string> {
    if e == "" || e == "." then stack
    else if e == ".." then
      if |stack| > 0 && stack[|stack| - 1] != ".." then stack[..|stack| - 1]
      else if rooted then stack
      else stack + [".."]
    else stack + [e]
  }

  function Resolve(stack: seq<string>, elems: seq<string>, rooted: bool): seq<string>
    decreases |elems|
  {
    if elems == [] then stack else Resolve(Step(stack, elems[0], rooted), elems[1..], rooted)
  }

  /**
   * `path.Clean`: empty and "." elements go, ".." removes the element
   * before it (and is dropped at the root of a rooted path), and an empty
   * result is ".".
   */
  function Clean(p: string): (r: string)
    ensures r != ""
  {
    if p == [] then "."
    else
      var rooted := p[0] == '/';
      var out := Join(Resolve([], Split(p), rooted));
      if rooted then "/" + out else if out == [] then "." else out
  }

  /**
   * The elements `path.Clean` keeps: no empty or "." element, and ".."
   * only in a leading run (never in a rooted path).
   */
  predicate Tidy(stack: seq<string>, rooted: bool) {
    (forall i :: 0 <= i < |stack| ==> NoSlash(stack[i]) && stack[i] != "" && stack[i] != ".") &&
    (forall i, j :: 0 <= i < j < |stack| && stack[j] == ".." ==> stack[i] == "..") &&
    (rooted ==> forall i :: 0 <= i < |stack| ==> stack[i] != "..")
  }

  lemma StepKeepsTidy(stack: seq<string>, e: string, rooted: bool)
    requires Tidy(stack, rooted) && NoSlash(e)
    ensures Tidy(Step(stack, e, rooted), rooted)
  {
    if e == ".." && !(|stack| > 0 && stack[|stack| - 1] != "..") && !rooted {
      var next := stack + [".."];
      forall i, j | 0 <= i < j < |next| && next[j] == ".."
        ensures next[i] == ".."
      {
        if j == |stack| && i < |stack| - 1 {
          assert stack[|stack| - 1] == "..";
        }
      }
    }
  }

  lemma {:induction false} ResolveKeepsTidy(stack: seq<string>, elems: seq<string>, rooted: bool)
    requires Tidy(stack, rooted)
    requires forall i :: 0 <= i < |elems| ==> NoSlash(elems[i])
    ensures Tidy(Resolve(stack, elems, rooted), rooted)
    decreases |elems|
  {
    if elems != [] {
      StepKeepsTidy(stack, elems[0], rooted);
      ResolveKeepsTidy(Step(stack, elems[0], rooted), elems[1..], rooted);
    }
  }

  /** A word without slashes stays the head of the first element. */
  lemma {:induction false} SplitOfWord(w: string, s: string)
    requires NoSlash(w)
    ensures Split(w + s) == [w + Split(s)[0]] + Split(s)[1..]
  {
    if w != [] {
      assert (w + s)[1..] == w[1..] + s;
      SplitOfWord(w[1..], s);
      assert [w[0]] + (w[1..] + Split(s)[0]) == w + Split(s)[0];
    } else {
      assert w + s == s;
      assert w + Split(s)[0] == Split(s)[0];
      assert [Split(s)[0]] + Split(s)[1..] == Split(s);
    }
  }

  /** Splitting joined slash-free elements gives the elements back. */
  lemma {:induction false} SplitJoin(elems: seq<string>)
    requires |elems| >= 1 && forall i :: 0 <= i < |elems| ==> NoSlash(elems[i])
    ensures Split(Join(elems)) == elems
  {
    if |elems| == 1 {
      SplitOfWord(elems[0], "");
      assert elems[0] + "" == elems[0];
    } else {
      var rest := Join(elems[1..]);
      SplitJoin(elems[1..]);
      assert Join(elems) == elems[0] + ("/" + rest);
      SplitOfWord(elems[0], "/" + rest);
      assert ("/" + rest)[1..] == rest;
      assert elems[0] + [] == elems[0];
      assert [elems[0]] + elems[1..] == elems;
    }
  }

  /** A path's first element is the text before its first slash. */
  lemma {:induction false} FirstElemIsPrefix(c: string)
    ensures |Split(c)[0]| <= |c| && Split(c)[0] == c[..|Split(c)[0]|]
  {
    if c != [] && c[0] != '/' {
      FirstElemIsPrefix(c[1..]);
      var w := Split(c[1..])[0];
      assert Split(c)[0] == [c[0]] + w;
      assert c[..|w| + 1] == [c[0]] + c[1..][..|w|];
    }
  }

  /** The first element is empty exactly when the path is empty or starts with a slash. */
  lemma FirstElemEmpty(c: string)
    ensures Split(c)[0] == [] <==> c == [] || c[0] == '/'
  {
  }

  /** A path's first element is ".." exactly when it is ".." or starts with "../". */
  lemma FirstElemDotDot(c: string)
    ensures Split(c)[0] == ".." <==> c == ".." || HasPrefix(c, "../")
  {
    FirstElemIsPrefix(c);
    if |c| >= 2 && c[0] == '.' && c[1] == '.' {
      var t := c[2..];
      assert c == ".." + t;
      SplitOfWord("..", t);
      FirstElemEmpty(t);
      if t != [] {
        assert c[..3] == ['.', '.', t[0]];
        assert HasPrefix(c, "../") <==> t[0] == '/';
      }
    } else {
      assert Split(c)[0] != ".." by {
        if |Split(c)[0]| == 2 {
          assert Split(c)[0][0] == c[0] && Split(c)[0][1] == c[1];
        }
      }
      assert !HasPrefix(c, "../") by {
        if |c| >= 3 {
          assert c[..3][0] == c[0] && c[..3][1] == c[1];
        }
      }
    }
  }

  /**
   * On a relative path, `serveDistFile`'s guard (not ".", not under "../")
   * lets through exactly the cleaned paths `fs.ValidPath` accepts below the
   * root, and one more: "..", which `Open` then refuses.
   */
  lemma CleanGuard(p: string)
    requires p == [] || p[0] != '/'
    ensures var c := Clean(p);
      (ValidPath(c) && c != ".") <==> !(c == "." || HasPrefix(c, "../")) && c != ".."
  {
    var c := Clean(p);
    FirstElemDotDot(c);
    if p != [] {
      var stack := Resolve([], Split(p), false);
      ResolveKeepsTidy([], Split(p), false);
      if stack != [] {
        assert c == Join(stack) by {
          assert |Join(stack)| >= |stack[0]|;
        }
        if stack[0] == ".." {
          assert |stack| == 1 ==> c == "..";
          assert |stack| > 1 ==> c == ".." + ("/" + Join(stack[1..]));
        } else {
          forall i | 0 <= i < |stack|
            ensures ValidElem(stack[i])
          {
          }
          SplitJoin(stack);
        }
      }
    }
  }

  /** `filepath.Ext`: the suffix from the last dot of the last element, or "". */
  function Ext(p: string): (r: string)
    ensures r == "" || (r[0] == '.' && |r| <= |p| && r == p[|p| - |r|..])
    ensures forall i :: 1 <= i < |r| ==> r[i] != '.' && r[i] != '/'
  {
    if p == [] || p[|p| - 1] == '/' then ""
    else if p[|p| - 1] == '.' then "."
    else
      var e := Ext(p[..|p| - 1]);
      if e == "" then "" else e + [p[|p| - 1]]
  }

  /** The type `serveDistFile` falls back on when the MIME table has none. */
  function FallbackType(ext: string): (r: string)
    ensures r != ""
    ensures (ext != ".js" && ext != ".css" && ext != ".json" && ext != ".svg" && ext != ".woff" &&
             ext != ".woff2") ==> r == "application/octet-stream"
  {
    if ext == ".js" then "application/javascript"
    else if ext == ".css" then "text/css"
    else if ext == ".json" then "application/json"
    else if ext == ".svg" then "image/svg+xml"
    else if ext == ".woff" then "font/woff"
    else if ext == ".woff2" then "font/woff2"
    else "application/octet-stream"
  }

  /** The `Content-Type`: the MIME table's entry when it has a non-empty one, else the fallback. */
  function ContentType(ext: string, mimeTypes: map<string, string>): (r: string)
    ensures r != ""
    ensures ext in mimeTypes && mimeTypes[ext] != "" ==> r == mimeTypes[ext]
    ensures !(ext in mimeTypes && mimeTypes[ext] != "") ==> r == FallbackType(ext)
  {
    if ext in mimeTypes && mimeTypes[ext] != "" then mimeTypes[ext] else FallbackType(ext)
  }

  /**
   * `serveDistFile`: the cleaned path, unless it is "." or under "../";
   * then `Open`, which accepts valid names only, and a refusal of
   * directories. The result is the file served and its content type.
   */
  function ServeDistFile(pathname: string, dist: map<string, Entry>, mimeTypes: map<string, string>)
    : (r: Option<(string, string)>)
    ensures var c := Clean(pathname); (c == "." || HasPrefix(c, "../")) ==> r.None?
    ensures r.Some? <==> var c := Clean(pathname);
      !(c == "." || HasPrefix(c, "../")) && ValidPath(c) && c in dist && dist[c] == File
    ensures r.Some? ==> r.value.0 == Clean(pathname) && r.value.0 != "." && r.value.0 != ".."
    ensures r.Some? ==> r.value.1 == ContentType(Ext(r.value.0), mimeTypes)
  {
    var cleanPath := Clean(pathname);
    if cleanPath == "." || HasPrefix(cleanPath, "../") then None
    else if !ValidPath(cleanPath) || cleanPath !in dist then None
    else if dist[cleanPath] == Dir then None
    else
      FirstElemDotDot(cleanPath);
      Some((cleanPath, ContentType(Ext(cleanPath), mimeTypes)))
  }

  /** A file name without slashes that is a valid element cleans to itself. */
  lemma CleanOfName(name: string)
    requires NoSlash(name) && ValidElem(name)
    ensures Clean(name) == name && ValidPath(name)
  {
    SplitOfWord(name, "");
    assert name + "" == name;
    assert Split(name) == [name];
    assert Resolve([], [name], false) == Resolve([name], [], false) == [name];
  }

  /** `index.html` is a plain file name. */
  lemma IndexIsName(index: string)
    requires index == Index
    ensures NoSlash(index) && ValidElem(index) && index != ".." && !HasPrefix(index, "../")
  {
    assert index[0] == 'i';
  }

  /**
   * A handler's call of `serveDistFile` and its reaction to an error: the
   * file when it can be served, which is then inside the tree, and the
   * handler's `missing` response otherwise.
   */
  function Serve(pathname: string, dist: map<string, Entry>, mimeTypes: map<string, string>, missing: Response)
    : (r: Response)
    ensures ServeDistFile(pathname, dist, mimeTypes).None? ==> r == missing
    ensures ServeDistFile(pathname, dist, mimeTypes).Some? ==>
      r.Served? && r.path == Clean(pathname) && Inside(r.path, dist) &&
      r.contentType == ContentType(Ext(r.path), mimeTypes)
  {
    match ServeDistFile(pathname, dist, mimeTypes)
    case Some((file, contentType)) => Served(file, contentType)
    case None => missing
  }

  /**
   * `ServeSPA`: only GET; the application's own routes and every path that
   * is not an asset get `index.html` (500 when it is missing); an asset is
   * served as a file or is 404, never answered with `index.html` in its
   * place.
   */
  function ServeSpa(verb: string, urlPath: string, dist: map<string, Entry>, mimeTypes: map<string, string>)
    : (r: Response)
    ensures verb != "GET" ==> r == MethodNotAllowed
    ensures verb == "GET" && !IsAssetPath(TrimPrefix(urlPath, "/")) ==>
      (r.Served? <==> Index in dist && dist[Index] == File) &&
      (r.Served? ==> r.path == Index) && (!r.Served? ==> r == AppUnavailable)
    ensures verb == "GET" && IsAssetPath(TrimPrefix(urlPath, "/")) ==>
      (r.Served? <==> ServeDistFile(TrimPrefix(urlPath, "/"), dist, mimeTypes).Some?) &&
      (r.Served? ==> r.path == Clean(TrimPrefix(urlPath, "/"))) && (!r.Served? ==> r == NotFound)
  {
    if verb != "GET" then MethodNotAllowed
    else
      var relative := TrimPrefix(urlPath, "/");
      IndexIsName(Index);
      CleanOfName(Index);
      if relative == "" || relative == "table" || relative == "settings" then
        AppRoutesAreNotAssets(relative);
        Serve(Index, dist, mimeTypes, AppUnavailable)
      else if IsAssetPath(relative) then Serve(relative, dist, mimeTypes, NotFound)
      else Serve(Index, dist, mimeTypes, AppUnavailable)
  }

  /** `ServeAsset`: only GET; an empty path is 404, and so is a file that cannot be served. */
  function ServeAsset(verb: string, urlPath: string, dist: map<string, Entry>, mimeTypes: map<string, string>)
    : (r: Response)
    ensures verb != "GET" ==> r == MethodNotAllowed
    ensures verb == "GET" && TrimPrefix(urlPath, "/") == "" ==> r == NotFound
    ensures r.Served? <==> (verb == "GET" && TrimPrefix(urlPath, "/") != "" &&
                           ServeDistFile(TrimPrefix(urlPath, "/"), dist, mimeTypes).Some?)
    ensures r.Served? ==> r.path == Clean(TrimPrefix(urlPath, "/"))
    ensures !r.Served? && verb == "GET" ==> r == NotFound
  {
    if verb != "GET" then MethodNotAllowed
    else
      var relative := TrimPrefix(urlPath, "/");
      if relative == "" then NotFound
      else Serve(relative, dist, mimeTypes, NotFound)
  }

  /** What a handler serves is a file of the tree under a name `fs.ValidPath` accepts below its root. */
  predicate Inside(file: string, dist: map<string, Entry>) {
    file in dist && dist[file] == File && ValidPath(file) && file != "." && file != ".." && !HasPrefix(file, "../")
  }

  /** `ServeSPA` serves only files inside the tree: `index.html` or a cleaned asset path that stays below the root. */
  lemma SpaServesInside(verb: string, urlPath: string, dist: map<string, Entry>, mimeTypes: map<string, string>)
    ensures var r := ServeSpa(verb, urlPath, dist, mimeTypes); r.Served? ==> Inside(r.path, dist)
  {
    var r := ServeSpa(verb, urlPath, dist, mimeTypes);
    if r.Served? && !IsAssetPath(TrimPrefix(urlPath, "/")) {
      IndexIsName(Index);
      CleanOfName(Index);
    }
  }

  /** `ServeAsset` serves only files inside the tree. */
  lemma AssetServesInside(verb: string, urlPath: string, dist: map<string, Entry>, mimeTypes: map<string, string>)
    ensures var r := ServeAsset(verb, urlPath, dist, mimeTypes); r.Served? ==> Inside(r.path, dist)
  {
  }
}
