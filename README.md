# servor request handling, modelled in Dafny

servor is a zero-dependency development server for single-page applications.
It serves files from a root directory and answers extension-less "routes"
with a fallback document. It can list directories and forward requests to
proxies. It also pushes a `reload` event to every open browser tab when a file
under the root changes. This project models the request-decision logic of its
three generations:

- `servor.ts`, the current server:
  - the pathname pipeline;
  - the dispatch between the reload endpoint, static files and routes;
  - the static-file, route and directory-listing responses, with their gzip
    and status rules;
  - the live-reload client registry and the event-stream frames it sends.
- `servor.js`, the earlier single-file server:
  - its hand-written command-line parser;
  - its extension-to-media-type map;
  - its static file server.
- `server.js`, the oldest single-page-application server, with its cached
  index document.

The file system is a value: a map from absolute paths to contents, a set of
directories, and a set of files that cannot be read (`Host`). A response object
is a class, `Http.Connection`. It holds the headers, the status once the head is
written, the body chunks and whether the response has ended. Each writer is
proved to leave exactly the response its source line describes.

Modules, in dependency order:

| file | module | what it holds |
|---|---|---|
| strings.dfy | `Strings` | `split`, `join`, `indexOf`, `replaceAll`, `toLowerCase`, decimal text |
| paths.dfy | `Paths` | POSIX `path.normalize` / `path.join`, the route test, "inside the root" |
| servor_path.dfy | `ServorPath` | the pathname pipeline of servor.ts, as written and corrected |
| event_stream.dfy | `EventStream` | the frame `sendMessage` writes, and the listener side of the event-stream format of the WHATWG HTML Living Standard, section 9.2 "Server-sent events" |
| host.dfy | `Host` | the file system |
| http.dfy | `Http` | chunks, responses, the `Connection` class |
| servor.dfy | `Servor` | the servor.ts writers and handlers as `Reply` decisions |
| servor_reload.dfy | `ServorReload` | `sendMessage` and the `ReloadHub` class (the `reloadClients` array) |
| servor_server.dfy | `ServorServer` | the servor.ts request handler |
| argv_options.dfy | `ArgvOptions` | the servor.js option parser |
| js_object.dfy | `JsObject` | what a plain JavaScript object inherits from `Object.prototype` |
| mime_table.dfy | `MimeTable` | the servor.js media-type map |
| early_server.dfy | `EarlyServer` | the servor.js static server and reload stream |
| spa_server.dfy | `SpaServer` | server.js |

How the model reads a few behaviours of the code:

- The handlers never look past the last path segment to decide route against
  file (`Paths.IsRouteRequest`). So a pathname ending in `/` is always a route.
- A directory listing of an existing path that is not a directory writes its
  200 head and then fails inside `directoryListing`. The `catch` of
  `serveRoute` then calls `sendError`, whose second `writeHead` throws, so the
  response is never completed. The model records this as
  `Servor.Reply.ListingFault`: a 200 head, no body, not ended. What the process
  does with the escaping exception is not modelled.
- A reload client stays registered until a file change or SIGINT drains the
  registry. servor.ts has no close handler, so a client whose connection
  drops is never removed. The model follows the code. A file change drains
  the whole registry: each client gets one event and is dropped, and the page
  it reloads registers again.

## Model

| member | source | states |
|---|---|---|
| Paths.LastSegment | servor.ts:106 | the text after the last `/`: a suffix of the path without `/`, preceded by `/` unless it is the whole path |
| Paths.IsRouteRequest | servor.ts:106 | a route iff every `.` is followed later by a `/` (no dot after the last `/`); every path ending in `/` is a route |
| Paths.Normalize | servor.ts:226-227 | `path.normalize`: never empty, absolute iff the input is, keeps a trailing `/`, and no other result but `/` ends in `/` |
| Paths.ResolvedShape | servor.ts:226-227 | the segments a path normalises to are names or `..`, and only names for an absolute path |
| Paths.NormalizeKeepsSegments | servor.ts:226-227 | normalising an absolute path again leaves its segments unchanged |
| Paths.JoinStaysUnder | servor.ts:165 | `path.join(root, ...rest)` with an absolute root and no `..` segment in `rest` resolves inside the root's tree |
| ServorPath.StripLeadingUps | servor.ts:228 | the result is a suffix of the path; a path that starts with no `../` or `..\` unit and is not `..` is kept whole; what is left neither starts with such a unit nor is `..` |
| ServorPath.StrippedUpsOnly | servor.ts:228 | what the strip removes is a run of `../` and `..\` units, possibly ending in a bare `..` |
| ServorPath.PathnameAsWritten | servor.ts:225-229 | the pathname as written holds no `\` and its first segment is never `..` |
| ServorPath.StrippedHeadAfterReplace | servor.ts:228-229 | turning `\` into `/` after the strip cannot create a leading `..` segment |
| ServorPath.BackslashEscapesRoot | servor.ts:225-229 | finding: for root `/a/b`, the decoded request `/..\name` becomes `/../name` as written, and the file it reaches is outside the root; the corrected pipeline keeps it inside |
| ServorPath.Pathname | servor.ts:225-229 | corrected pipeline (backslashes replaced first): no `\` and no `..` segment anywhere |
| ServorPath.PathnameIsClean | servor.ts:226-228 | normalising and stripping a path without `\` leaves no `\` and no `..` segment |
| EventStream.MessageArrives | servor.ts:143-146 | a fresh listener fed one frame dispatches exactly one event, with the channel as type, the data, and last event ID `0` |
| EventStream.ReceiveMessage | servor.ts:143-146 | a frame followed by any text dispatches its event first and leaves the listener's buffers empty for the rest |
| EventStream.MessagesArrive | servor.ts:238-241 | a stream of frames with one-line channels and data dispatches one event per frame, in order, and leaves the buffers empty and the last event ID `0` (unchanged for no frame) |
| Host.ReadFile | servor.ts:167-168 | a read succeeds only on an existing path that is not a directory, and returns its contents |
| Servor.DefaultConfig | servor.ts:34-47 | the defaults: reload on, static off, listings on, no proxies, `/livereload`, empty inject, `index.js` in module mode and `index.html` otherwise |
| Servor.ServedRoot | servor.ts:69 | an absolute root is kept; a relative one is joined to the working directory and is then absolute |
| Servor.BaseHref | servor.ts:112-113 | the base href of `baseDoc` always starts and ends with `/` |
| Servor.ErrorResponse | servor.ts:115-119 | the error response carries the status, the headers set before, and a body of decimal digits that parses back to the status |
| Servor.SendError | servor.ts:115-119 | `sendError` leaves exactly the error response on the connection |
| Servor.WriteFile | servor.ts:121-131 | `_sendFile` writes the status with the content type over the earlier headers, then the one chunk, then ends |
| Servor.FileResponse | servor.ts:133-141 | content type from the extension; `content-encoding: gzip` iff the extension is one of js, css, html, json, xml, svg, and then the body is the compressed file; other headers kept |
| Servor.SendFile | servor.ts:133-141 | `sendFile` leaves exactly the file response on the connection |
| Servor.AfterLastStop | servor.ts:166 | the position after the last `.`, `/` or `\`, with none of them after it |
| Servor.LineEnd | servor.ts:166 | the first line of a text ends at its first line feed, carriage return, line or paragraph separator |
| Servor.Extension | servor.ts:166 | the extension is the lower-cased rest of the uri after the last `.`, `/` or `\` of its first line, or the whole uri when the first line holds none; its part on the first line holds no stop |
| Servor.OneLineExtension | servor.ts:166 | a uri without line terminators has an extension free of `.`, `/` and `\` |
| Servor.LineBreakHidesDot | servor.ts:166 | a line terminator hides the stops after it: `/a\nb.js` has extension `a\nb.js` |
| Servor.ExtensionAfterDot | servor.ts:166 | the extension of `name.ext` is `ext` lower-cased, for a `name` on one line |
| Servor.StaticReply | servor.ts:163-178 | 404 iff the joined path does not exist; a file iff it can be read; then 200 with the contents, and the inject text and reload script after them iff the pathname ends in `.html`; 500 otherwise |
| Servor.FirstMatchFrom | servor.ts:184-189 | the first rule from a position on whose pattern matches, none before it; none only if no rule from there matches |
| Servor.FirstMatch | servor.ts:184-189 | the first matching proxy rule in declaration order; none iff no pattern matches |
| Servor.ServeRoute | servor.ts:182-205 | the proxy loop with its early return computes exactly the route reply |
| Servor.RouteStatus | servor.ts:194 | 200 iff the pathname is `/` or static mode is on, otherwise 301 |
| Servor.RouteBody | servor.ts:195-201 | module mode wraps the index in a module script tag; else static mode puts the base document first; else the inject text and reload script follow |
| Servor.ListingReply | servor.ts:209-215 | 404 iff the listed path does not exist; the listing page iff it is a directory, made of the base tag, the listing of the joined path and the reload script; otherwise the failing listing |
| Servor.IndexReply | servor.ts:190-201 | the listing path is taken iff (index missing, or a directory path other than `/`) and listings are on, and then the reply is the listing reply; otherwise 500 iff the index cannot be read, else an html file with the route status and body |
| Servor.RouteReply | servor.ts:182-205 | forwarded iff some proxy pattern matches, to the first matching rule's target, without reading the index; otherwise the index reply |
| Servor.Perform | servor.ts:209-215 | writing a reply: a forwarded request is left untouched for the proxy; a failing listing leaves only its 200 head; every other reply is a complete response |
| Servor.StaticFileUnderRoot | servor.ts:165 | with an absolute root, a pathname without `..` segments names a file inside the root |
| ServorPath.CorrectedStays | servor.ts:165 | the corrected pathname of any decoded request, joined onto an absolute root, lies inside the root |
| Servor.IndexUnderRoot | servor.ts:190 | with an absolute root, such a pathname and a fallback without `..` segments, the index read lies inside the root in both modes |
| ServorReload.ChunksText | servor.ts:143-146 | the two writes of `sendMessage` add to any body's text exactly `event: c`, `id: 0`, `data: d`, each line-terminated, then a blank line pair |
| ServorReload.SendMessage | servor.ts:143-146 | the stream grows by exactly the two chunks whose text is the frame; nothing else changes |
| ServorReload.ReversedIndex | servor.ts:240 | the reverse of a sequence keeps its length, and element `i` is element `n-1-i` |
| ServorReload.ReloadHub.constructor | servor.ts:81 | the registry starts empty |
| ServorReload.ReloadHub.ServeReload | servor.ts:150-159 | status 200 with the event-stream headers, a `connected`/`ready` frame, and exactly one new client appended |
| ServorReload.ReloadHub.ReloadLast | servor.ts:240 | one `clients.pop()` and `sendMessage`: the last-registered waiting client leaves the registry with one reload frame more; served and waiting clients otherwise keep their state |
| ServorReload.ReloadHub.BroadcastReload | servor.ts:238-241 | every registered client gets exactly one `message`/`reload` frame, served in reverse registration order, and the registry is left empty |
| ServorReload.ReloadHub.Shutdown | servor.ts:245-248 | every registered client is ended with its response otherwise unchanged, and the registry is left empty |
| ServorServer.Dispatch | servor.ts:231-233 | reload iff reloading is on and the pathname is the reload URL; otherwise static iff the last segment has a dot and the path is no directory; otherwise route |
| ServorServer.HandlerReply | servor.ts:232-233 | the static or route reply; errors are 404 or 500, files 200 or 301 |
| ServorServer.Answer | servor.ts:232-233 | a request that is not for the reload endpoint is answered with its handler's reply |
| ServorServer.HandleRequest | servor.ts:224-234 | the pathname is cleaned as written (`PathnameAsWritten`), then handled as `HandlePathname` states |
| ServorServer.HandleRequestCorrected | servor.ts:224-234 | the same handler with the corrected cleaning (`Pathname`) |
| ServorServer.HandlePathname | servor.ts:230-233 | CORS header first; the reload endpoint registers the connection and nothing else runs; otherwise the registry is unchanged and the static or route reply is written |
| ServorServer.RequestStaysUnderRoot | servor.ts:224-234 | with the corrected pipeline and an absolute root, the static file, the listed directory and the index (given a clean fallback) lie inside the root for every request |
| ArgvOptions.Camel | servor.js:35-38 | the kebab-to-camel replacement is the identity on text without `-` and never lengthens it |
| ArgvOptions.CamelKebab | servor.js:35-38 | every option key without `-` is reached by its kebab-case flag: `--a-b-c` is looked up as `aBC` |
| ArgvOptions.Assign | servor.js:45 | setting a known option to the argument text; assigning to `__proto__` changes nothing; other options unchanged |
| ArgvOptions.Scan | servor.js:30-51 | the marked positions lie between the start and the end of argv; options only keep or gain known names |
| ArgvOptions.MarkedExactly | servor.js:31-51 | an argument is marked for removal iff it starts with `--`, or it follows a flag naming a known option and holds no `--`; so the argument after an unknown flag stays |
| ArgvOptions.UnnamedOptionKept | servor.js:40-48 | an option that no value-taking flag names keeps its default, even when a flag without a value names it |
| ArgvOptions.LastFlagSetsValue | servor.js:40-48 | the last value-taking flag naming a known option sets the option to the argument after it, whatever value-less flags follow, and both positions are marked |
| ArgvOptions.ValuelessFlagKeepsDefault | servor.js:40-48 | after `--p --q v` (as in `--port --root www`), option `p` keeps its default and `q` becomes `v` |
| ArgvOptions.ParseFlags | servor.js:30-51 | the loop computes exactly the scan's options and marks, and `toRemove` is strictly decreasing within argv |
| ArgvOptions.SpliceStep | servor.js:55 | splicing a position below every one already removed removes exactly that argument |
| ArgvOptions.RemoveMarked | servor.js:53-56 | splicing in `toRemove` order removes exactly the marked arguments and keeps the rest in order |
| ArgvOptions.Defaults | servor.js:22-28 | the five defaults; the browser opens iff `--no-browser` is absent |
| ArgvOptions.Override | servor.js:60-70 | one positional argument, when present, overrides its option; options overridden before stay overridden |
| ArgvOptions.ApplyPositional | servor.js:60-70 | remaining arguments 2 to 5, where present, override `root`, `fallback`, `port`, `reloadPort`; every other option and the key set are unchanged |
| ArgvOptions.ParseOptions | servor.js:22-70 | the remaining arguments 2 to 5 override `root`, `fallback`, `port`, `reloadPort` in order; other options are the flags' values; argv 0 and 1 stay in front |
| MimeTable.AddAll | servor.js:14 | every extension of an entry but `__proto__` maps to its type; `__proto__` sets no key; other keys unchanged |
| MimeTable.Build | servor.js:12-16 | the keys of the map are exactly the listed extensions other than `__proto__` |
| MimeTable.LastListingWins | servor.js:12-16 | an extension other than `__proto__` maps to the type of the last entry listing it; `__proto__` is no key |
| MimeTable.ListedOnce | servor.js:12-16 | an extension other than `__proto__` listed under one type only maps to that type |
| MimeTable.Lookup | servor.js:96 | the mapped type; `application/octet-stream` for an empty type; with no own key, the text of an inherited `Object.prototype` member, else `application/octet-stream` |
| MimeTable.InheritedExtensions | servor.js:96 | an unlisted `constructor` gets the text of the native `Object` function, and `__proto__` gets `[object Object]` |
| EarlyServer.EarlyStatus | servor.js:147 | 301 iff a route other than `/`, else 200 |
| EarlyServer.Resource | servor.js:148 | a route is answered with `/` + fallback, anything else with the decoded pathname |
| EarlyServer.Decide | servor.js:145-161 | 404 iff the joined path does not exist; a file iff it can be read, with the status rule, the joined path's extension and the reload script after a route's document |
| EarlyServer.RoutesShareDocument | servor.js:146-158 | all routes get the same document; they differ at most in status |
| EarlyServer.CwdIsUnbound | servor.js:149 | finding: `cwd` is not declared, so as written every request throws before it is answered; the corrected handler always answers |
| EarlyServer.SendError | servor.js:88-92 | the status with an empty body |
| EarlyServer.SendFile | servor.js:94-102 | the status, the looked-up media type, the CORS header, then the file |
| EarlyServer.Serve | servor.js:143-161 | the decision written: 404 and 500 with empty bodies, or the file response |
| EarlyServer.OpenReloadStream | servor.js:119-129 | status 200 with the stream and CORS headers, then exactly the `connected`/`awaiting change` frame |
| SpaServer.FileAnswer | server.js:28-45 | 404 `404 Not Found` iff the stat fails; 500 `500 Server Error` iff it exists but cannot be read; else 200 with the file and the media type of its path |
| SpaServer.IndexStatus | server.js:72 | 200 iff the pathname is `/`, otherwise 301 |
| SpaServer.SendError | server.js:35-39 | 500 with body `500 Server Error` |
| SpaServer.SendNotFound | server.js:41-45 | 404 with body `404 Not Found` |
| SpaServer.SendFile | server.js:57-61 | 200, the media type looked up from the path, the data |
| SpaServer.ReadFileAndSend | server.js:28-33 | an existing path is answered with its file or with the server error |
| SpaServer.Server.constructor | server.js:15 | the server state: its paths, its mode and the cached index |
| SpaServer.Server.Start | server.js:10-26 | no server when a root or file argument is missing or the index cannot be read; otherwise the index read at startup is cached |
| SpaServer.Server.SendIndex | server.js:47-55 | in production the cached index is sent unchanged; otherwise it is re-read first, and a failed read throws before anything is written |
| SpaServer.Server.Handle | server.js:67-80 | a route gets the index with 200 for `/` and 301 otherwise, without the requested path being looked at; any other path gets its file answer |

## Left out

- Server creation, protocols, TLS credentials, ports and port probing
  (servor.ts:51-59, 83-90, 234; server.js:80; servor.js:137, 163): network I/O.
- `decodeURI` and `url.parse` are not modelled. The servor.ts handler takes
  the decoded pathname, and server.js takes the raw one. The servor.js static
  server (`EarlyServer.Decide`) takes both the raw pathname (for the route test
  and the status) and the decoded one (for the resource) as two parameters;
  nothing in the model links them.
- Servor.Extension: JavaScript's `toLowerCase` maps every Unicode letter;
  the model lower-cases ASCII letters only (`Strings.LowerChar`), so a
  non-ASCII extension keeps its case.
- Servor.ExtensionAfterDot: the extension is `ToLower(ext)` with the same
  ASCII-only case mapping as `Servor.Extension`.
- Servor.StaticReply: the reply's extension is `Servor.Extension` of the joined
  path, with its ASCII-only case mapping.
- EarlyServer.Decide: the reply's extension is `Servor.Extension` of the joined
  path, with its ASCII-only case mapping.
- ServorServer.HandleRequest: a malformed percent escape makes `decodeURI`
  throw before the handler runs; this is not modelled.
- Gzip compression is not computed. A compressed chunk records the text that
  was compressed (`Http.Chunk.Gzipped`). A compression failure, and the
  `catch` it would reach after `content-encoding` is set, are not modelled.
- The `binary`/`utf-8` encodings and `Buffer` conversions: file contents are
  text.
- The proxy patterns' regular-expression test is a parameter
  (`Servor.Env.matches`). Forwarding is recorded as `forwardedTo`, and
  `http-proxy` itself is not modelled.
- The directory-listing page (config/directoryListing.js) and the servor.ts
  media-type table are parameters (`Env.listing`, `Env.mimeType`). So is
  server.js's `mime.lookup`. The contents of servor.js's `types.json` are not
  part of this model: `MimeTable` is proved for every table.
- `isDir` looks up the last segment relative to the working directory, as the
  code does. Symbolic links (`lstat`) are not modelled.
- The 60-second ping timers (servor.ts:157, servor.js:131), the file watchers
  (servor.ts:238-239, servor.js:133-135) and `process.exit`: timers and OS
  events. The broadcast and shutdown drains are modelled; what triggers them
  is not.
- Concurrency: each request is handled as one atomic step. Interleavings
  between the `await`s of concurrent requests are not modelled.
- Startup checks and logging (servor.ts:71-74, the console output of all
  three servers) and the browser opening of servor.js:177-187.
- ArgvOptions.ParseOptions: option values read from the command line stay
  text. The later `parseInt` of the ports is not modelled.
- SpaServer.Server.Handle: server.js joins the raw pathname onto the root
  without removing `..` segments, as server.js:69 does. No containment is
  claimed for it.
- SpaServer.Server.SendIndex: a failed re-read throws out of the request
  handler. The model reports it as `crashed` with the connection untouched,
  and does not model what the process does next.

## Findings

| source | as written | input that shows it | evidently intended | confidence | as-written member | corrected member |
|---|---|---|---|---|---|---|
| servor.ts:225-229 | The pathname is normalised and stripped of leading `..` units. Only then are backslashes turned into `/`, so a `..\` inside the path becomes a fresh `../` that nothing resolves. | Root `/srv/www` and URL `/..%5Csecret.txt`: decoded to `/..\secret.txt`, which becomes `/../secret.txt`. Joined onto the root, it names `/srv/secret.txt`, outside the root; `ServorServer.HandleRequest` serves that file. | Turn backslashes into `/` before normalising. Every `..` is then resolved, and the pathname has no `..` segment. | not executed | ServorPath.BackslashEscapesRoot | ServorPath.Pathname |
| servor.js:149 | The static server joins `cwd` with the root and the resource, but servor.js never declares `cwd` (server.js:13 does). Evaluating it throws a ReferenceError before any answer is written. servor.js:133 has the same problem. | Any request to the static server, e.g. `GET /` | `const cwd = process.cwd()`, so the handler answers with the file, 404 or 500. | not executed | EarlyServer.CwdIsUnbound | EarlyServer.Serve |
