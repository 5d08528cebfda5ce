/** The request handler of servor.ts (servor.ts:224-234): the pathname is
    cleaned, the CORS header set, and the request dispatched to the reload
    endpoint, the static-file handler or the route handler. */
module ServorServer {
  import opened Strings
  import opened Paths
  import opened Host
  import opened Http
  import opened ServorPath
  import opened Servor
  import opened ServorReload

  datatype Handler = ReloadHandler | StaticHandler | RouteHandler

  /** servor.ts:231-233: the reload endpoint when reloading is on and the
      pathname is exactly its URL; otherwise a pathname whose last segment has a
      dot and which is not a directory is a static file; everything else is a
      route. */
  function Dispatch(cfg: Config, env: Env, pathname: string): (h: Handler)
    ensures h == ReloadHandler <==> cfg.reload && pathname == cfg.livereloadUrl
    ensures h == StaticHandler <==> !(cfg.reload && pathname == cfg.livereloadUrl) && '.' in LastSegment(pathname) && !IsDir(env, pathname)
    ensures h == RouteHandler <==> !(cfg.reload && pathname == cfg.livereloadUrl) && ('.' !in LastSegment(pathname) || IsDir(env, pathname))
  {
    if cfg.reload && pathname == cfg.livereloadUrl then ReloadHandler
    else if !IsRouteRequest(pathname) && !IsDir(env, pathname) then StaticHandler
    else RouteHandler
  }

  /** The reply of the static-file or route handler. */
  function HandlerReply(cfg: Config, env: Env, pathname: string, h: Handler): (r: Reply)
    requires h != ReloadHandler
    ensures h == StaticHandler ==> r == StaticReply(cfg, env, pathname)
    ensures h == RouteHandler ==> r == RouteReply(cfg, env, pathname)
    ensures r.Error? ==> r.status == 404 || r.status == 500
    ensures r.File? ==> r.status == 200 || r.status == 301
  {
    if h == StaticHandler then StaticReply(cfg, env, pathname) else RouteReply(cfg, env, pathname)
  }

  /** The headers every response starts from (servor.ts:230). */
  function Cors(base: map<string, string>): map<string, string>
  {
    base["access-control-allow-origin" := "*"]
  }

  /** What handling a request for `pathname` leaves behind: the reload
      endpoint registers the connection; any other request leaves the registry
      as it was and gets the reply of its handler. */
  twostate predicate Handled(hub: ReloadHub, cfg: Config, env: Env, conn: Connection, pathname: string)
    reads hub, conn
  {
    var h := Dispatch(cfg, env, pathname);
    if h == ReloadHandler then
      hub.clients == old(hub.clients) + [conn] && conn.status == 200 &&
      conn.headers == Cors(old(conn.headers)) + StreamHeaders() &&
      Texts(conn.body) == EventStream.Message("connected", "ready") && !conn.ended
    else
      hub.clients == old(hub.clients) &&
      Performed(conn, HandlerReply(cfg, env, pathname, h), Cors(old(conn.headers)), env.mimeType)
  }

  /** Handles one request whose URL pathname is already decoded, cleaning it as
      servor.ts:225-229 does (`PathnameAsWritten`, which lets `/..\` through). */
  method HandleRequest(hub: ReloadHub, cfg: Config, env: Env, conn: Connection, decoded: string)
    requires hub.Valid() && conn !in hub.clients
    requires !conn.HeadSent() && !conn.ended && conn.forwardedTo == None && conn.body == []
    modifies hub, conn
    ensures hub.Valid() && Handled(hub, cfg, env, conn, PathnameAsWritten(decoded))
  {
    HandlePathname(hub, cfg, env, conn, PathnameAsWritten(decoded));
  }

  /** The same handler with the corrected cleaning (`Pathname`), under which no
      request leaves the root (`RequestStaysUnderRoot`). */
  method HandleRequestCorrected(hub: ReloadHub, cfg: Config, env: Env, conn: Connection, decoded: string)
    requires hub.Valid() && conn !in hub.clients
    requires !conn.HeadSent() && !conn.ended && conn.forwardedTo == None && conn.body == []
    modifies hub, conn
    ensures hub.Valid() && Handled(hub, cfg, env, conn, Pathname(decoded))
  {
    HandlePathname(hub, cfg, env, conn, Pathname(decoded));
  }

  /** servor.ts:230-233 for a cleaned pathname: the CORS header is set and the
      request dispatched. */
  method HandlePathname(hub: ReloadHub, cfg: Config, env: Env, conn: Connection, pathname: string)
    requires hub.Valid() && conn !in hub.clients
    requires !conn.HeadSent() && !conn.ended && conn.forwardedTo == None && conn.body == []
    modifies hub, conn
    ensures hub.Valid() && Handled(hub, cfg, env, conn, pathname)
  {
    conn.SetHeader("access-control-allow-origin", "*");
    if cfg.reload && pathname == cfg.livereloadUrl {
      hub.ServeReload(conn);
      return;
    }
    Answer(cfg, env, conn, pathname);
    assert hub.clients == old(hub.clients);
  }

  /** The static-file or route handler, as `Dispatch` chooses it
      (servor.ts:231-233), answers a request that is not for the reload
      endpoint. */
  method Answer(cfg: Config, env: Env, conn: Connection, pathname: string)
    requires !(cfg.reload && pathname == cfg.livereloadUrl)
    requires !conn.HeadSent() && !conn.ended && conn.forwardedTo == None && conn.body == []
    modifies conn
    ensures Performed(conn, HandlerReply(cfg, env, pathname, Dispatch(cfg, env, pathname)), old(conn.headers), env.mimeType)
  {
    var h := Dispatch(cfg, env, pathname);
    var reply;
    if h == StaticHandler {
      reply := StaticReply(cfg, env, pathname);
    } else {
      reply := ServeRoute(cfg, env, pathname);
    }
    assert reply == HandlerReply(cfg, env, pathname, h);
    Perform(conn, reply, env.mimeType);
  }

  /** Whatever the request, with an absolute root the file the static handler
      reads and the directory the listing shows lie inside the root, and so
      does the index of a route when the fallback has no `..` segment. */
  lemma RequestStaysUnderRoot(cfg: Config, decoded: string)
    requires IsAbsolute(cfg.root)
    ensures Under(cfg.root, StaticUri(cfg, Pathname(decoded)))
    ensures ".." !in Split(cfg.fallback, '/') ==> Under(cfg.root, RouteIndex(cfg, Pathname(decoded)))
  {
    var pathname := Pathname(decoded);
    StaticFileUnderRoot(cfg, pathname);
    if ".." !in Split(cfg.fallback, '/') {
      IndexUnderRoot(cfg, pathname);
    }
  }
}
