/** server.js, the oldest single-page-application server: the index document
    read at startup and kept in `index` (server.js:15-26), `sendIndex` that
    re-reads it outside production (server.js:47-55), and the handler that
    answers routes with the index and other paths with the file they name
    (server.js:28-45, 57-80). */
module SpaServer {
  import opened Paths
  import opened Host
  import opened Http

  /** The answer to a request for a file (server.js:28-45, 57-61, 76-79): 404
      with `404 Not Found` when the stat fails, 500 with `500 Server Error` when
      the read fails, otherwise 200 with the file and the media type of its
      path. */
  function FileAnswer(fs: FileSystem, resource: string, mimeLookup: string -> string, base: map<string, string>): (r: Response)
    ensures r.status == 404 <==> !Exists(fs, resource)
    ensures r.status == 500 <==> Exists(fs, resource) && ReadFile(fs, resource).None?
    ensures r.status == 200 <==> ReadFile(fs, resource).Some?
    ensures r.status == 404 ==> r == Response(404, base, [Text("404 Not Found")])
    ensures r.status == 500 ==> r == Response(500, base, [Text("500 Server Error")])
    ensures r.status == 200 ==>
      r == Response(200, base["content-type" := mimeLookup(resource)], [Text(ReadFile(fs, resource).value)])
  {
    if !Exists(fs, resource) then Response(404, base, [Text("404 Not Found")])
    else match ReadFile(fs, resource)
      case None => Response(500, base, [Text("500 Server Error")])
      case Some(data) => Response(200, base["content-type" := mimeLookup(resource)], [Text(data)])
  }

  /** `sendError` (server.js:35-39). */
  method SendError(conn: Connection)
    requires !conn.HeadSent() && !conn.ended && conn.forwardedTo == None && conn.body == []
    modifies conn
    ensures conn.Shows(Response(500, old(conn.headers), [Text("500 Server Error")]))
  {
    conn.WriteHead(500, map[]);
    assert conn.headers == old(conn.headers);
    conn.Write(Text("500 Server Error"));
    conn.End();
  }

  /** `sendNotFound` (server.js:41-45). */
  method SendNotFound(conn: Connection)
    requires !conn.HeadSent() && !conn.ended && conn.forwardedTo == None && conn.body == []
    modifies conn
    ensures conn.Shows(Response(404, old(conn.headers), [Text("404 Not Found")]))
  {
    conn.WriteHead(404, map[]);
    assert conn.headers == old(conn.headers);
    conn.Write(Text("404 Not Found"));
    conn.End();
  }

  /** `sendFile` (server.js:57-61): the media type is looked up from the path. */
  method SendFile(conn: Connection, uri: string, data: string, mimeLookup: string -> string)
    requires !conn.HeadSent() && !conn.ended && conn.forwardedTo == None && conn.body == []
    modifies conn
    ensures conn.Shows(Response(200, old(conn.headers)["content-type" := mimeLookup(uri)], [Text(data)]))
  {
    conn.WriteHead(200, map["content-type" := mimeLookup(uri)]);
    assert conn.headers == old(conn.headers)["content-type" := mimeLookup(uri)];
    conn.Write(Text(data));
    conn.End();
  }

  /** `readFile` (server.js:28-33): a failed read is a server error. */
  method ReadFileAndSend(conn: Connection, fs: FileSystem, uri: string, mimeLookup: string -> string)
    requires !conn.HeadSent() && !conn.ended && conn.forwardedTo == None && conn.body == []
    requires Exists(fs, uri)
    modifies conn
    ensures conn.Shows(FileAnswer(fs, uri, mimeLookup, old(conn.headers)))
  {
    match ReadFile(fs, uri) {
      case None => SendError(conn);
      case Some(data) => SendFile(conn, uri, data, mimeLookup);
    }
  }

  /** server.js:72: `/` is answered with 200, any other route with 301. */
  function IndexStatus(uri: string): (status: nat)
    ensures status == 200 <==> uri == "/"
    ensures status == 200 || status == 301
  {
    if uri == "/" then 200 else 301
  }

  class Server {
    const cwd: string
    const root: string
    const file: string
    const production: bool
    var index: string

    /** The index document's path (server.js:20, 49). */
    function IndexPath(): string
    {
      JoinPaths([cwd, root, file])
    }

    constructor (cwd: string, root: string, file: string, production: bool, index: string)
      ensures this.cwd == cwd && this.root == root && this.file == file
      ensures this.production == production && this.index == index
    {
      this.cwd, this.root, this.file, this.production, this.index := cwd, root, file, production, index;
    }

    /** Startup (server.js:10-26): without a root or a file argument, or when
        the index cannot be read, the process exits and no server runs. */
    static method Start(fs: FileSystem, cwd: string, root: Option<string>, file: Option<string>, production: bool)
      returns (srv: Server?)
      ensures srv == null <==> root.None? || file.None? || ReadFile(fs, JoinPaths([cwd, root.value, file.value])).None?
      ensures srv != null ==>
        fresh(srv) && srv.cwd == cwd && srv.root == root.value && srv.file == file.value &&
        srv.production == production && Some(srv.index) == ReadFile(fs, srv.IndexPath())
    {
      if root.None? || file.None? {
        return null;
      }
      var read := ReadFile(fs, JoinPaths([cwd, root.value, file.value]));
      if read.None? {
        return null;
      }
      srv := new Server(cwd, root.value, file.value, production, read.value);
    }

    /** `sendIndex` (server.js:47-55): outside production the index is read
        again first, and a failed read throws out of the handler (`crashed`);
        in production the copy read at startup is sent unchanged. */
    method SendIndex(conn: Connection, fs: FileSystem, status: nat) returns (crashed: bool)
      requires !conn.HeadSent() && !conn.ended && conn.forwardedTo == None && conn.body == [] && status != 0
      modifies this, conn
      ensures production ==> !crashed && index == old(index)
      ensures !production ==> (crashed <==> ReadFile(fs, IndexPath()).None?)
      ensures !production && !crashed ==> Some(index) == ReadFile(fs, IndexPath())
      ensures crashed ==>
        index == old(index) && !conn.HeadSent() && conn.headers == old(conn.headers) &&
        conn.body == [] && !conn.ended && conn.forwardedTo == None
      ensures !crashed ==> conn.Shows(Response(status, old(conn.headers)["content-type" := "text/html"], [Text(index)]))
    {
      if !production {
        var read := ReadFile(fs, IndexPath());
        if read.None? {
          return true;
        }
        index := read.value;
      }
      conn.WriteHead(status, map["content-type" := "text/html"]);
      assert conn.headers == old(conn.headers)["content-type" := "text/html"];
      conn.Write(Text(index));
      conn.End();
      crashed := false;
    }

    /** The request handler (server.js:67-80): a route gets the index without
        the requested path being looked at; any other path gets the file it
        names below the root. */
    method Handle(conn: Connection, fs: FileSystem, mimeLookup: string -> string, uri: string) returns (crashed: bool)
      requires !conn.HeadSent() && !conn.ended && conn.forwardedTo == None && conn.body == []
      modifies this, conn
      ensures !IsRouteRequest(uri) ==>
        !crashed && index == old(index) &&
        conn.Shows(FileAnswer(fs, JoinPaths([cwd, root, uri]), mimeLookup, old(conn.headers)))
      ensures IsRouteRequest(uri) && production ==>
        !crashed && index == old(index) &&
        conn.Shows(Response(IndexStatus(uri), old(conn.headers)["content-type" := "text/html"], [Text(old(index))]))
      ensures IsRouteRequest(uri) && !production ==>
        (crashed <==> ReadFile(fs, IndexPath()).None?) &&
        (!crashed ==>
          Some(index) == ReadFile(fs, IndexPath()) &&
          conn.Shows(Response(IndexStatus(uri), old(conn.headers)["content-type" := "text/html"], [Text(index)])))
    {
      var resource := JoinPaths([cwd, root, uri]);
      if IsRouteRequest(uri) {
        crashed := SendIndex(conn, fs, if uri == "/" then 200 else 301);
        return;
      }
      if Exists(fs, resource) {
        ReadFileAndSend(conn, fs, resource, mimeLookup);
      } else {
        SendNotFound(conn);
      }
      crashed := false;
    }
  }
}
