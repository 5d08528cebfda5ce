/** The responses of the servor.ts server: the document helpers, the writers
    (`sendError`, `sendFile`), and the decisions of `serveStaticFile`,
    `serveRoute` and `serveDirectoryListing`. Each decision is a `Reply`, which
    `Perform` then writes onto the connection step by step. */
module Servor {
  import opened Strings
  import opened Paths
  import opened Host
  import opened Http

  datatype ProxyRule = ProxyRule(pattern: string, target: string)

  /** The server's options after defaulting (servor.ts:34-47); `root` is already
      absolute (servor.ts:69). */
  datatype Config = Config(
    root: string,
    moduleMode: bool,
    fallback: string,
    reload: bool,
    staticMode: bool,
    inject: string,
    livereloadUrl: string,
    proxy: seq<ProxyRule>,
    noDirListing: bool)

  /** What the handlers consult besides the options: the file system, the process
      working directory, the proxy patterns' regular-expression test, the
      directory-listing page and the extension-to-media-type table. */
  datatype Env = Env(
    fs: FileSystem,
    cwd: string,
    matches: (string, string) -> bool,
    listing: string -> string,
    mimeType: string -> string)

  /** The fallback document's default depends on module mode. */
  function DefaultFallback(moduleMode: bool): string
  {
    if moduleMode then "index.js" else "index.html"
  }

  /** The options of a call that sets only `root` and `module`. */
  function DefaultConfig(root: string, moduleMode: bool, cwd: string): (cfg: Config)
    ensures cfg.reload && !cfg.staticMode && !cfg.noDirListing && cfg.proxy == []
    ensures cfg.livereloadUrl == "/livereload" && cfg.inject == ""
    ensures cfg.fallback == (if moduleMode then "index.js" else "index.html")
  {
    Config(ServedRoot(root, cwd), moduleMode, DefaultFallback(moduleMode), true, false, "", "/livereload", [], false)
  }

  /** servor.ts:69: a root not starting with `/` is taken relative to the working
      directory. The served root is absolute whenever the working directory is. */
  function ServedRoot(root: string, cwd: string): (r: string)
    ensures IsAbsolute(root) ==> r == root
    ensures IsAbsolute(cwd) ==> IsAbsolute(r)
  {
    if IsAbsolute(root) then root
    else
      JoinAbsolute(cwd, root);
      JoinPaths([cwd, root])
  }

  lemma JoinAbsolute(a: string, b: string)
    ensures IsAbsolute(a) ==> IsAbsolute(JoinPaths([a, b]))
  {
    if IsAbsolute(a) {
      assert [a, b][1..] == [b];
      assert NonEmpty([a, b]) == [a] + NonEmpty([b]);
      var parts := NonEmpty([a, b]);
      JoinEnds(parts, '/');
    }
  }

  // ---------------------------------------------------------------------------
  // Documents
  // ---------------------------------------------------------------------------

  /** The script injected into HTML when reloading is on (servor.ts:92-102). */
  function LiveReload(cfg: Config): string
  {
    if cfg.reload then ScriptOpen + cfg.livereloadUrl + ScriptClose else ""
  }

  /** The script text before and after the reload URL. */
  const ScriptOpen: string := "\n      <script>\n        const source = new EventSource('"
  const ScriptClose: string :=
    "');\n        const reload = () => location.reload(true);\n        source.onmessage = reload;\n        source.onerror = () => (source.onopen = reload);\n        console.log('[servor] listening for file changes');\n      </script>\n    "

  /** `path.join('/', pathname, '/')`: the base of relative links in a page
      served for `pathname`. It always starts and ends with `/`. */
  function BaseHref(pathname: string): (base: string)
    ensures |base| >= 1 && base[0] == '/' && base[|base| - 1] == '/'
  {
    var args := ["/", pathname, "/"];
    var parts := NonEmpty(args);
    assert args[1..] == [pathname, "/"] && args[1..][1..] == ["/"];
    assert parts == ["/"] + NonEmpty([pathname, "/"]);
    assert NonEmpty(["/"]) == ["/"];
    assert NonEmpty([pathname, "/"]) == (if pathname == "" then [] else [pathname]) + ["/"];
    JoinEnds(parts, '/');
    JoinPaths(args)
  }

  /** `baseDoc(pathname)` (servor.ts:112-113). */
  function BaseDoc(pathname: string): string
  {
    "<!doctype html><meta charset=\"utf-8\"/><base href=\"" + BaseHref(pathname) + "\"/>"
  }

  // ---------------------------------------------------------------------------
  // Writers
  // ---------------------------------------------------------------------------

  /** The extensions whose files go out gzip-compressed (servor.ts:134). */
  predicate Compressed(ext: string)
  {
    ext in {"js", "css", "html", "json", "xml", "svg"}
  }

  /** The response `sendError(res, status)` completes, over the headers set
      before it: the status, and the status's decimal text as the body. */
  function ErrorResponse(base: map<string, string>, status: nat): (r: Response)
    ensures r.status == status && r.headers == base
    ensures |r.body| == 1 && r.body[0].Text?
    ensures var t := r.body[0].text; (forall i :: 0 <= i < |t| ==> IsDigit(t[i])) && ParseDecimal(t) == status
  {
    DecimalRoundTrip(status);
    Response(status, base, [Text(Decimal(status))])
  }

  /** The response `sendFile(res, status, file, ext)` completes, over the headers
      set before it. */
  function FileResponse(base: map<string, string>, status: nat, file: string, ext: string, mimeType: string -> string): (r: Response)
    ensures r.status == status
    ensures "content-type" in r.headers && r.headers["content-type"] == mimeType(ext)
    ensures "content-encoding" !in base ==>
      (("content-encoding" in r.headers && r.headers["content-encoding"] == "gzip") <==> Compressed(ext))
    ensures forall h :: h in base && h != "content-type" && h != "content-encoding" ==> h in r.headers && r.headers[h] == base[h]
    ensures r.body == [if Compressed(ext) then Gzipped(file) else Text(file)]
  {
    var headers := if Compressed(ext) then base["content-encoding" := "gzip"] else base;
    Response(status, headers["content-type" := mimeType(ext)], [if Compressed(ext) then Gzipped(file) else Text(file)])
  }

  /** `sendError` (servor.ts:115-119). */
  method SendError(conn: Connection, status: nat)
    requires !conn.HeadSent() && !conn.ended && conn.forwardedTo == None && conn.body == [] && status != 0
    modifies conn
    ensures conn.Shows(ErrorResponse(old(conn.headers), status))
  {
    conn.WriteHead(status, map[]);
    assert conn.headers == old(conn.headers);
    conn.Write(Text(Decimal(status)));
    conn.End();
  }

  /** `_sendFile` (servor.ts:121-131). */
  method WriteFile(conn: Connection, status: nat, chunk: Chunk, contentType: string)
    requires !conn.HeadSent() && !conn.ended && conn.forwardedTo == None && conn.body == [] && status != 0
    modifies conn
    ensures conn.Shows(Response(status, old(conn.headers)["content-type" := contentType], [chunk]))
  {
    conn.WriteHead(status, map["content-type" := contentType]);
    assert conn.headers == old(conn.headers)["content-type" := contentType];
    conn.Write(chunk);
    conn.End();
  }

  /** `sendFile` (servor.ts:133-141): the compressible types go out gzipped with
      `content-encoding: gzip`. */
  method SendFile(conn: Connection, status: nat, file: string, ext: string, mimeType: string -> string)
    requires !conn.HeadSent() && !conn.ended && conn.forwardedTo == None && conn.body == [] && status != 0
    modifies conn
    ensures conn.Shows(FileResponse(old(conn.headers), status, file, ext, mimeType))
  {
    if ext in ["js", "css", "html", "json", "xml", "svg"] {
      conn.SetHeader("content-encoding", "gzip");
      WriteFile(conn, status, Gzipped(file), mimeType(ext));
    } else {
      WriteFile(conn, status, Text(file), mimeType(ext));
    }
  }

  // ---------------------------------------------------------------------------
  // Static files
  // ---------------------------------------------------------------------------

  predicate IsExtensionStop(c: char)
  {
    c == '.' || c == '/' || c == '\\'
  }

  /** The position just after the last `.`, `/` or `\` of `s`, or 0 when there
      is none. */
  function AfterLastStop(s: string): (k: nat)
    ensures k <= |s|
    ensures k > 0 ==> IsExtensionStop(s[k - 1])
    ensures forall i :: k <= i < |s| ==> !IsExtensionStop(s[i])
  {
    if s == [] then 0
    else if IsExtensionStop(s[|s| - 1]) then |s|
    else AfterLastStop(s[..|s| - 1])
  }

  /** The characters a JavaScript regular expression's `.` does not match:
      line feed, carriage return, line separator and paragraph separator. */
  predicate IsLineTerminator(c: char)
  {
    c == '\n' || c == '\r' || c == '\U{2028}' || c == '\U{2029}'
  }

  /** The length of the first line of `s`: the position of its first line
      terminator, or `|s|` when it has none. */
  function LineEnd(s: string): (n: nat)
    ensures n <= |s|
    ensures forall i :: 0 <= i < n ==> !IsLineTerminator(s[i])
    ensures n < |s| ==> IsLineTerminator(s[n])
  {
    if s == [] || IsLineTerminator(s[0]) then 0 else 1 + LineEnd(s[1..])
  }

  /** `uri.replace(/^.*[\.\/\\]/, '').toLowerCase()` (servor.ts:166). The
      anchored pattern removes the longest prefix of the first line that ends in
      a `.`, `/` or `\`; when the first line holds none, nothing is removed.
      The rest, lower-cased, is the extension: it starts right after a stop or
      at the start of `uri`, and the part of it on the first line holds no
      stop. */
  function Extension(uri: string): (ext: string)
    ensures |ext| <= |uri| && ext == ToLower(uri[|uri| - |ext|..])
    ensures |ext| == |uri| || IsExtensionStop(uri[|uri| - |ext| - 1])
    ensures |uri| - |ext| <= LineEnd(uri)
    ensures forall i :: |uri| - |ext| <= i < LineEnd(uri) ==> !IsExtensionStop(uri[i])
  {
    var n := LineEnd(uri);
    var k := AfterLastStop(uri[..n]);
    assert forall i :: k <= i < n ==> uri[..n][i] == uri[i];
    var ext := ToLower(uri[k..]);
    assert |uri| - |ext| == k;
    ext
  }

  /** A `uri` on one line: its extension holds no stop at all. */
  lemma OneLineExtension(uri: string)
    requires forall i :: 0 <= i < |uri| ==> !IsLineTerminator(uri[i])
    ensures forall i :: 0 <= i < |Extension(uri)| ==> !IsExtensionStop(Extension(uri)[i])
  {
    var ext := Extension(uri);
    assert LineEnd(uri) == |uri|;
    forall i | 0 <= i < |ext|
      ensures !IsExtensionStop(ext[i])
    {
      assert !IsExtensionStop(uri[|uri| - |ext| + i]);
      assert ext[i] == LowerChar(uri[|uri| - |ext| + i]);
    }
  }

  /** A line terminator hides the stops after it: the extension of `/a\nb.js`
      is everything after the `/`, and `a\nb.js`, whose first line holds no
      stop, is its own extension. */
  lemma LineBreakHidesDot()
    ensures Extension("/a\nb.js") == "a\nb.js"
    ensures Extension("a\nb.js") == "a\nb.js"
  {
    assert LineEnd("/a\nb.js") == 2;
    assert ("/a\nb.js")[..2] == "/a";
    assert AfterLastStop("/a") == 1;
    assert LineEnd("a\nb.js") == 1;
    assert ("a\nb.js")[..1] == "a";
    assert AfterLastStop("a") == 0;
  }

  /** After a stop character, text without stops: the extension starts there. */
  lemma {:induction false} AfterStopAppend(a: string, b: string)
    requires a != [] && IsExtensionStop(a[|a| - 1])
    requires forall i :: 0 <= i < |b| ==> !IsExtensionStop(b[i])
    ensures AfterLastStop(a + b) == |a|
    decreases |b|
  {
    if b == [] {
      assert a + b == a;
    } else {
      var b' := b[..|b| - 1];
      assert (a + b)[..|a + b| - 1] == a + b';
      assert (a + b)[|a + b| - 1] == b[|b| - 1];
      AfterStopAppend(a, b');
    }
  }

  /** The extension of `name.ext` is `ext` lower-cased, when `name` is on one
      line (otherwise see `LineBreakHidesDot`). */
  lemma ExtensionAfterDot(name: string, ext: string)
    requires forall i :: 0 <= i < |name| ==> !IsLineTerminator(name[i])
    requires forall i :: 0 <= i < |ext| ==> !IsExtensionStop(ext[i])
    ensures Extension(name + "." + ext) == ToLower(ext)
  {
    var a := name + ".";
    var uri := a + ext;
    var n := LineEnd(uri);
    assert uri[|name|] == '.';
    assert n > |name|;
    assert uri[..n] == a + ext[..n - |a|];
    AfterStopAppend(a, ext[..n - |a|]);
    assert uri[|a|..] == ext;
  }

  /** A decision of a handler, before it is written. */
  datatype Reply =
    | Error(status: nat)
    | File(status: nat, file: string, ext: string)
    | Listing(page: string)
    | ListingFault
    | Forward(target: string)

  function StaticUri(cfg: Config, pathname: string): string
  {
    JoinPaths([cfg.root, pathname])
  }

  /** `serveStaticFile` (servor.ts:163-178): 404 when the joined path does not
      exist, 500 when it cannot be read, otherwise 200 with the file, followed by
      the injected text and the reload script when the pathname ends in
      `.html`; the extension is that of the joined path. */
  function StaticReply(cfg: Config, env: Env, pathname: string): (r: Reply)
    ensures r.Error? || r.File?
    ensures r.Error? ==> r.status == 404 || r.status == 500
    ensures r == Error(404) <==> !Exists(env.fs, StaticUri(cfg, pathname))
    ensures r.File? <==> ReadFile(env.fs, StaticUri(cfg, pathname)).Some?
    ensures r.File? ==>
      r.status == 200 && r.ext == Extension(StaticUri(cfg, pathname)) &&
      r.file == ReadFile(env.fs, StaticUri(cfg, pathname)).value +
        (if EndsWith(pathname, ".html") then cfg.inject + LiveReload(cfg) else "")
  {
    var uri := StaticUri(cfg, pathname);
    var ext := Extension(uri);
    if !Exists(env.fs, uri) then Error(404)
    else match ReadFile(env.fs, uri)
      case None => Error(500)
      case Some(file) =>
        if EndsWith(pathname, ".html") then File(200, file + cfg.inject + LiveReload(cfg), ext)
        else File(200, file, ext)
  }

  /** `isDir(pathname)` (servor.ts:107-108): only the last segment is looked up,
      relative to the working directory. */
  predicate IsDir(env: Env, pathname: string)
  {
    var seg := LastSegment(pathname);
    seg != "" && IsDirectory(env.fs, JoinPaths([env.cwd, seg]))
  }

  // ---------------------------------------------------------------------------
  // Routes
  // ---------------------------------------------------------------------------

  /** The first rule, from `from` on, whose pattern matches. */
  function FirstMatchFrom(rules: seq<ProxyRule>, matches: (string, string) -> bool, pathname: string, from: nat): (r: Option<nat>)
    requires from <= |rules|
    ensures r.Some? ==> from <= r.value < |rules| && matches(rules[r.value].pattern, pathname)
    ensures r.Some? ==> forall j :: from <= j < r.value ==> !matches(rules[j].pattern, pathname)
    ensures r.None? ==> forall j :: from <= j < |rules| ==> !matches(rules[j].pattern, pathname)
    decreases |rules| - from
  {
    if from == |rules| then None
    else if matches(rules[from].pattern, pathname) then Some(from)
    else FirstMatchFrom(rules, matches, pathname, from + 1)
  }

  /** The proxy rule that takes the request: the first one, in declaration order,
      whose pattern matches. */
  function FirstMatch(rules: seq<ProxyRule>, matches: (string, string) -> bool, pathname: string): (r: Option<nat>)
    ensures r.Some? ==> r.value < |rules| && matches(rules[r.value].pattern, pathname)
    ensures r.Some? ==> forall j :: 0 <= j < r.value ==> !matches(rules[j].pattern, pathname)
    ensures r.None? <==> forall j :: 0 <= j < |rules| ==> !matches(rules[j].pattern, pathname)
  {
    FirstMatchFrom(rules, matches, pathname, 0)
  }

  /** The index document of a route (servor.ts:190): below the pathname in
      static mode, the root's fallback otherwise. */
  function RouteIndex(cfg: Config, pathname: string): string
  {
    if cfg.staticMode then JoinPaths([cfg.root, pathname, cfg.fallback]) else JoinPaths([cfg.root, cfg.fallback])
  }

  /** servor.ts:191: the directory listing answers when the index is missing or
      the pathname is a directory path other than `/`, unless listings are off. */
  predicate UsesListing(cfg: Config, fs: FileSystem, pathname: string)
  {
    (!Exists(fs, RouteIndex(cfg, pathname)) || (EndsWith(pathname, "/") && pathname != "/")) && !cfg.noDirListing
  }

  /** servor.ts:194. */
  function RouteStatus(cfg: Config, pathname: string): (status: nat)
    ensures status == 200 || status == 301
    ensures status == 200 <==> pathname == "/" || cfg.staticMode
  {
    if pathname == "/" || cfg.staticMode then 200 else 301
  }

  /** servor.ts:195-201: module mode wraps the index in a module script tag;
      static mode puts a base document in front; otherwise the injected text and
      the reload script follow the index. */
  function RouteBody(cfg: Config, pathname: string, file: string): (body: string)
    ensures cfg.moduleMode ==> body == "<script type='module'>" + file + "</script>"
    ensures !cfg.moduleMode && cfg.staticMode ==> body == BaseDoc(pathname) + file
    ensures !cfg.moduleMode && !cfg.staticMode ==> body == file + cfg.inject + LiveReload(cfg)
  {
    if cfg.moduleMode then "<script type='module'>" + file + "</script>"
    else if cfg.staticMode then BaseDoc(pathname) + file
    else file + cfg.inject + LiveReload(cfg)
  }

  /** `serveDirectoryListing` (servor.ts:209-215): 404 when the path does not
      exist; the listing page of a directory; and for an existing path that is
      not a directory, the listing fails after the 200 head is written. */
  function ListingReply(cfg: Config, env: Env, pathname: string): (r: Reply)
    ensures r.Error? <==> !Exists(env.fs, JoinPaths([cfg.root, pathname]))
    ensures r.Error? ==> r.status == 404
    ensures r.Listing? <==> IsDirectory(env.fs, JoinPaths([cfg.root, pathname]))
    ensures r.Listing? ==> r.page == BaseDoc(pathname) + env.listing(JoinPaths([cfg.root, pathname])) + LiveReload(cfg)
    ensures r.Listing? || r.ListingFault? || r.Error?
  {
    var uri := JoinPaths([cfg.root, pathname]);
    if !Exists(env.fs, uri) then Error(404)
    else if IsDirectory(env.fs, uri) then Listing(BaseDoc(pathname) + env.listing(uri) + LiveReload(cfg))
    else ListingFault
  }

  /** `serveRoute` after the proxy rules (servor.ts:190-201). */
  function IndexReply(cfg: Config, env: Env, pathname: string): (r: Reply)
    ensures r.Listing? || r.ListingFault? || r == Error(404) <==> UsesListing(cfg, env.fs, pathname)
    ensures UsesListing(cfg, env.fs, pathname) ==> r == ListingReply(cfg, env, pathname)
    ensures !UsesListing(cfg, env.fs, pathname) ==>
      (r == Error(500) <==> ReadFile(env.fs, RouteIndex(cfg, pathname)).None?)
    ensures r.File? ==>
      r.status == RouteStatus(cfg, pathname) && r.ext == "html" &&
      ReadFile(env.fs, RouteIndex(cfg, pathname)).Some? &&
      r.file == RouteBody(cfg, pathname, ReadFile(env.fs, RouteIndex(cfg, pathname)).value)
    ensures r.Error? ==> r.status == 404 || r.status == 500
    ensures !r.Forward?
  {
    var index := RouteIndex(cfg, pathname);
    if UsesListing(cfg, env.fs, pathname) then ListingReply(cfg, env, pathname)
    else match ReadFile(env.fs, index)
      case None => Error(500)
      case Some(file) => File(RouteStatus(cfg, pathname), RouteBody(cfg, pathname, file), "html")
  }

  /** `serveRoute` (servor.ts:182-205): the first matching proxy rule forwards
      the request and nothing is read; otherwise the index decides. */
  function RouteReply(cfg: Config, env: Env, pathname: string): (r: Reply)
    ensures r.Forward? <==> exists i :: 0 <= i < |cfg.proxy| && env.matches(cfg.proxy[i].pattern, pathname)
    ensures r.Forward? ==> exists i ::
      0 <= i < |cfg.proxy| && env.matches(cfg.proxy[i].pattern, pathname) &&
      r.target == cfg.proxy[i].target &&
      forall j :: 0 <= j < i ==> !env.matches(cfg.proxy[j].pattern, pathname)
    ensures !r.Forward? ==> r == IndexReply(cfg, env, pathname)
  {
    match FirstMatch(cfg.proxy, env.matches, pathname)
    case Some(i) => Forward(cfg.proxy[i].target)
    case None => IndexReply(cfg, env, pathname)
  }

  /** The loop of servor.ts:184-189 with its early return. `proxy` exists exactly
      when there are rules (servor.ts:219-221), so inside the loop it is always
      set. */
  method ServeRoute(cfg: Config, env: Env, pathname: string) returns (r: Reply)
    ensures r == RouteReply(cfg, env, pathname)
  {
    var proxyReady := |cfg.proxy| > 0;
    for i := 0 to |cfg.proxy|
      invariant FirstMatch(cfg.proxy, env.matches, pathname) == FirstMatchFrom(cfg.proxy, env.matches, pathname, i)
    {
      var rule := cfg.proxy[i];
      if env.matches(rule.pattern, pathname) && proxyReady {
        return Forward(rule.target);
      }
    }
    r := IndexReply(cfg, env, pathname);
  }

  // ---------------------------------------------------------------------------
  // Writing a reply
  // ---------------------------------------------------------------------------

  /** The response a completed reply leaves, over the headers set before it. */
  function Rendered(reply: Reply, base: map<string, string>, mimeType: string -> string): Response
    requires reply.Error? || reply.File? || reply.Listing?
  {
    match reply
    case Error(status) => ErrorResponse(base, status)
    case File(status, file, ext) => FileResponse(base, status, file, ext, mimeType)
    case Listing(page) => Response(200, base["content-type" := "text/html"], [Text(page)])
  }

  /** The state a written reply leaves on a connection whose headers were
      `base`: a forwarded request is left to the proxy untouched; a failing
      listing leaves only its 200 head and is never completed; every other reply
      is a complete response. */
  predicate Performed(conn: Connection, reply: Reply, base: map<string, string>, mimeType: string -> string)
    reads conn
  {
    match reply
    case Forward(target) =>
      conn.forwardedTo == Some(target) && !conn.HeadSent() && conn.headers == base && conn.body == [] && !conn.ended
    case ListingFault =>
      conn.status == 200 && conn.headers == base["content-type" := "text/html"] &&
      conn.body == [] && !conn.ended && conn.forwardedTo == None
    case _ => conn.Shows(Rendered(reply, base, mimeType))
  }

  /** Writes a reply onto a connection whose head is not yet sent. */
  method Perform(conn: Connection, reply: Reply, mimeType: string -> string)
    requires !conn.HeadSent() && !conn.ended && conn.forwardedTo == None && conn.body == []
    requires reply.Error? ==> reply.status != 0
    requires reply.File? ==> reply.status != 0
    modifies conn
    ensures Performed(conn, reply, old(conn.headers), mimeType)
  {
    match reply
    case Error(status) =>
      SendError(conn, status);
    case File(status, file, ext) =>
      SendFile(conn, status, file, ext, mimeType);
    case Listing(page) =>
      conn.WriteHead(200, map["content-type" := "text/html"]);
      assert conn.headers == old(conn.headers)["content-type" := "text/html"];
      conn.Write(Text(page));
      conn.End();
    case ListingFault =>
      conn.WriteHead(200, map["content-type" := "text/html"]);
      assert conn.headers == old(conn.headers)["content-type" := "text/html"];
    case Forward(target) =>
      conn.Forward(target);
  }

  // ---------------------------------------------------------------------------
  // Containment
  // ---------------------------------------------------------------------------

  /** A pathname without `..` segments keeps the static file inside the root. */
  lemma StaticFileUnderRoot(cfg: Config, pathname: string)
    requires IsAbsolute(cfg.root)
    requires ".." !in Split(pathname, '/')
    ensures Under(cfg.root, StaticUri(cfg, pathname))
  {
    assert [cfg.root, pathname] == [cfg.root] + [pathname];
    JoinStaysUnder(cfg.root, [pathname]);
  }

  /** With such a pathname and a fallback without `..` segments, the index
      document read for a route lies inside the root in both modes. */
  lemma IndexUnderRoot(cfg: Config, pathname: string)
    requires IsAbsolute(cfg.root)
    requires ".." !in Split(pathname, '/') && ".." !in Split(cfg.fallback, '/')
    ensures Under(cfg.root, RouteIndex(cfg, pathname))
  {
    var rest := if cfg.staticMode then [pathname, cfg.fallback] else [cfg.fallback];
    assert forall i :: 0 <= i < |rest| ==> rest[i] == pathname || rest[i] == cfg.fallback;
    assert RouteIndex(cfg, pathname) == JoinPaths([cfg.root] + rest);
    JoinStaysUnder(cfg.root, rest);
  }
}
