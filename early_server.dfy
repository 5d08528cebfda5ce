/** The two servers of servor.js: the static file server's decision
    (servor.js:143-161) with its writers (servor.js:88-102), and the opening of
    the reload event stream (servor.js:119-129). Both handlers join paths with a
    name `cwd` that servor.js never declares; the corrected handler takes the
    process working directory as a parameter. */
module EarlyServer {
  import opened Strings
  import opened Paths
  import opened Host
  import opened Http
  import opened Servor
  import opened ServorReload
  import opened MimeTable

  /** The script appended to a route's document (servor.js:77-82). */
  function ReloadScript(reloadPort: string): string
  {
    "\n  <script>\n    const source = new EventSource('http://localhost:" + reloadPort +
    "');\n    source.onmessage = () => location.reload(true);\n  </script>\n"
  }

  /** servor.js:147: a route other than `/` is answered with 301. */
  function EarlyStatus(pathname: string): (status: nat)
    ensures status == 200 || status == 301
    ensures status == 301 <==> IsRouteRequest(pathname) && pathname != "/"
  {
    if IsRouteRequest(pathname) && pathname != "/" then 301 else 200
  }

  /** servor.js:148: a route is answered with the fallback document; any other
      request with the decoded pathname. */
  function Resource(fallback: string, pathname: string, decoded: string): (resource: string)
    ensures IsRouteRequest(pathname) ==> resource == "/" + fallback
    ensures !IsRouteRequest(pathname) ==> resource == decoded
  {
    if IsRouteRequest(pathname) then "/" + fallback else decoded
  }

  /** The outcome of a request: the handler throws before answering, the stat
      fails (404), the read fails (500), or a file is sent. */
  datatype EarlyReply = Thrown | NotFound | Failed | Found(status: nat, file: string, ext: string)

  function EarlyUri(cwd: string, root: string, resource: string): string
  {
    JoinPaths([cwd, root, resource])
  }

  /** servor.js:145-161 with `cwd` bound to the process working directory:
      404 when the file does not exist, 500 when it cannot be read, otherwise the
      file, with the reload script after a route's document; the extension is
      that of the joined path. */
  function Decide(cwd: string, root: string, fallback: string, reloadPort: string, fs: FileSystem,
                  pathname: string, decoded: string): (r: EarlyReply)
    ensures !r.Thrown?
    ensures var uri := EarlyUri(cwd, root, Resource(fallback, pathname, decoded));
      (r == NotFound <==> !Exists(fs, uri)) &&
      (r.Found? <==> ReadFile(fs, uri).Some?) &&
      (r.Found? ==>
        r.status == EarlyStatus(pathname) && r.ext == Extension(uri) &&
        r.file == ReadFile(fs, uri).value + (if IsRouteRequest(pathname) then ReloadScript(reloadPort) else ""))
  {
    var isRoute := IsRouteRequest(pathname);
    var status := EarlyStatus(pathname);
    var resource := Resource(fallback, pathname, decoded);
    var uri := EarlyUri(cwd, root, resource);
    var ext := Extension(uri);
    if !Exists(fs, uri) then NotFound
    else match ReadFile(fs, uri)
      case None => Failed
      case Some(file) => Found(status, if isRoute then file + ReloadScript(reloadPort) else file, ext)
  }

  /** A route is answered with the fallback document whatever the pathname:
      two routes differ at most in their status. */
  lemma RoutesShareDocument(cwd: string, root: string, fallback: string, reloadPort: string, fs: FileSystem,
                            p1: string, d1: string, p2: string, d2: string)
    requires IsRouteRequest(p1) && IsRouteRequest(p2)
    ensures var r1 := Decide(cwd, root, fallback, reloadPort, fs, p1, d1);
      var r2 := Decide(cwd, root, fallback, reloadPort, fs, p2, d2);
      (r1.Found? <==> r2.Found?) && (r1.Found? ==> r1.file == r2.file && r1.ext == r2.ext)
  {
  }

  /** The names servor.js declares at module level (servor.js:3-113). */
  const ModuleScope: set<string> := {
    "fs", "url", "path", "http", "mime", "options", "toRemove", "reloadScript",
    "sendError", "sendFile", "sendMessage", "isRouteRequest"}

  /** The handler of servor.js:144-161 as written: servor.js declares no `cwd`
      of its own, so the name is looked up among the global names, and it is
      evaluated before any answer is written. */
  function DecideAsWritten(globals: map<string, string>, root: string, fallback: string, reloadPort: string,
                           fs: FileSystem, pathname: string, decoded: string): EarlyReply
  {
    if "cwd" in globals then Decide(globals["cwd"], root, fallback, reloadPort, fs, pathname, decoded)
    else Thrown
  }

  /** Node declares no global `cwd`, so as written every request to the static
      server throws a ReferenceError before it is answered: no file is ever
      served. */
  lemma CwdIsUnbound(globals: map<string, string>, root: string, fallback: string, reloadPort: string,
                     fs: FileSystem, pathname: string, decoded: string)
    requires "cwd" !in globals
    ensures "cwd" !in ModuleScope
    ensures DecideAsWritten(globals, root, fallback, reloadPort, fs, pathname, decoded) == Thrown
    ensures Decide("/", root, fallback, reloadPort, fs, pathname, decoded) != Thrown
  {
  }

  /** `sendError` (servor.js:88-92): the status with an empty body. */
  method SendError(conn: Connection, status: nat)
    requires !conn.HeadSent() && !conn.ended && conn.forwardedTo == None && conn.body == [] && status != 0
    modifies conn
    ensures conn.Shows(Response(status, old(conn.headers), []))
  {
    conn.WriteHead(status, map[]);
    assert conn.headers == old(conn.headers);
    conn.End();
  }

  /** The headers `sendFile` writes (servor.js:95-98). */
  function FileHeaders(mime: map<string, string>, ext: string): map<string, string>
  {
    map["content-type" := Lookup(mime, ext), "access-control-allow-origin" := "*"]
  }

  /** `sendFile` (servor.js:94-102): the media type of the extension, or the
      generic one, and the CORS header, then the file. */
  method SendFile(conn: Connection, status: nat, file: string, ext: string, mime: map<string, string>)
    requires !conn.HeadSent() && !conn.ended && conn.forwardedTo == None && conn.body == [] && status != 0
    modifies conn
    ensures conn.Shows(Response(status, old(conn.headers) + FileHeaders(mime, ext), [Text(file)]))
  {
    conn.WriteHead(status, FileHeaders(mime, ext));
    conn.Write(Text(file));
    conn.End();
  }

  /** The static server's handler with `cwd` bound to the process working
      directory. */
  method Serve(conn: Connection, cwd: string, root: string, fallback: string, reloadPort: string,
               fs: FileSystem, mime: map<string, string>, pathname: string, decoded: string)
    requires !conn.HeadSent() && !conn.ended && conn.forwardedTo == None && conn.body == []
    modifies conn
    ensures var r := Decide(cwd, root, fallback, reloadPort, fs, pathname, decoded);
      (r == NotFound ==> conn.Shows(Response(404, old(conn.headers), []))) &&
      (r == Failed ==> conn.Shows(Response(500, old(conn.headers), []))) &&
      (r.Found? ==> conn.Shows(Response(r.status, old(conn.headers) + FileHeaders(mime, r.ext), [Text(r.file)])))
  {
    var reply := Decide(cwd, root, fallback, reloadPort, fs, pathname, decoded);
    match reply {
      case NotFound => SendError(conn, 404);
      case Failed => SendError(conn, 500);
      case Found(status, file, ext) => SendFile(conn, status, file, ext, mime);
    }
  }

  /** The headers of the reload stream (servor.js:122-127). */
  function EarlyStreamHeaders(): map<string, string>
  {
    map["connection" := "keep-alive", "content-type" := "text/event-stream", "cache-control" := "no-cache",
        "access-control-allow-origin" := "*"]
  }

  /** The reload server's handler up to its file watch (servor.js:121-129): the
      stream opens and says `connected`/`awaiting change`. */
  method OpenReloadStream(conn: Connection)
    requires !conn.HeadSent() && !conn.ended && conn.forwardedTo == None && conn.body == []
    modifies conn
    ensures conn.status == 200 && conn.headers == old(conn.headers) + EarlyStreamHeaders()
    ensures Texts(conn.body) == EventStream.Message("connected", "awaiting change")
    ensures !conn.ended && conn.forwardedTo == None
  {
    conn.WriteHead(200, EarlyStreamHeaders());
    SendMessage(conn, "connected", "awaiting change");
    assert Texts([]) == "";
  }
}
