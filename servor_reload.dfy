/** The live-reload side of servor.ts: `sendMessage` (servor.ts:143-146), the
    reload endpoint that registers a client (servor.ts:150-159), and the two
    drains of the client registry, on a file change (servor.ts:238-241) and on
    SIGINT (servor.ts:245-248). */
module ServorReload {
  import opened Host
  import opened Http
  import opened EventStream

  /** The first of the two writes of `sendMessage`. */
  function MessageHead(channel: string, data: string): string
  {
    "event: " + channel + "\nid: 0\ndata: " + data + "\n"
  }

  /** The two chunks `sendMessage` writes. */
  function Chunks(channel: string, data: string): seq<Chunk>
  {
    [Text(MessageHead(channel, data)), Text("\n\n")]
  }

  /** The two writes of `sendMessage`, after any body, add the event-stream frame
      to its text. */
  lemma ChunksText(body: seq<Chunk>, channel: string, data: string)
    ensures Texts(body + Chunks(channel, data)) == Texts(body) + Message(channel, data)
  {
    var frame := Chunks(channel, data);
    assert frame[..1][..0] == [];
    assert Texts(frame[..1]) == "" + MessageHead(channel, data);
    assert Texts(frame) == Message(channel, data);
    TextsAppend(body, frame);
  }

  /** `sendMessage(res, channel, data)`: the frame goes out as two chunks on an
      open stream, and the stream's text grows by exactly the frame. */
  method SendMessage(conn: Connection, channel: string, data: string)
    requires conn.HeadSent() && !conn.ended
    modifies conn
    ensures conn.body == old(conn.body) + Chunks(channel, data)
    ensures Texts(conn.body) == Texts(old(conn.body)) + Message(channel, data)
    ensures conn.status == old(conn.status) && conn.headers == old(conn.headers)
    ensures !conn.ended && conn.forwardedTo == old(conn.forwardedTo)
  {
    conn.Write(Text(MessageHead(channel, data)));
    conn.Write(Text("\n\n"));
    ChunksText(old(conn.body), channel, data);
  }

  /** Every stream that received the reload frame shows it at the end of its text. */
  lemma ReloadedTexts(all: seq<Connection>, seen: seq<Seen>)
    requires |seen| == |all|
    requires forall i :: 0 <= i < |all| ==> all[i].body == seen[i].body + Chunks("message", "reload")
    ensures forall i :: 0 <= i < |all| ==> Texts(all[i].body) == Texts(seen[i].body) + Message("message", "reload")
  {
    forall i | 0 <= i < |all|
      ensures Texts(all[i].body) == Texts(seen[i].body) + Message("message", "reload")
    {
      ChunksText(seen[i].body, "message", "reload");
    }
  }

  /** `s` back to front. */
  function Reversed<T>(s: seq<T>): seq<T>
  {
    if s == [] then [] else Reversed(s[1..]) + [s[0]]
  }

  /** Reversing keeps the length and mirrors the positions. */
  lemma {:induction false} ReversedIndex<T>(s: seq<T>)
    ensures |Reversed(s)| == |s|
    ensures forall i :: 0 <= i < |s| ==> Reversed(s)[i] == s[|s| - 1 - i]
  {
    if s != [] {
      ReversedIndex(s[1..]);
    }
  }

  /** The headers of an event stream (servor.ts:151-155). */
  function StreamHeaders(): map<string, string>
  {
    map["connection" := "keep-alive", "content-type" := "text/event-stream", "cache-control" := "no-cache"]
  }

  /** An open stream with the given status and headers. */
  predicate Kept(c: Connection, status: int, headers: map<string, string>)
    reads c
  {
    status != 0 && c.status == status && c.headers == headers && !c.ended && c.forwardedTo == None
  }

  /** What a connection holds of its response at one moment. */
  datatype Seen = Seen(body: seq<Chunk>, status: nat, headers: map<string, string>)

  /** What each of `s` holds now. */
  ghost function Snapshot(s: seq<Connection>): (r: seq<Seen>)
    reads s
    ensures |r| == |s|
    ensures forall i :: 0 <= i < |s| ==> r[i] == Seen(s[i].body, s[i].status, s[i].headers)
  {
    seq(|s|, i requires 0 <= i < |s| reads s => Seen(s[i].body, s[i].status, s[i].headers))
  }

  /** The open event streams of the reload clients, in registration order. */
  class ReloadHub {
    var clients: seq<Connection>

    /** Every client appears once and holds an open event stream. */
    predicate Valid()
      reads this, clients
    {
      (forall i, j :: 0 <= i < j < |clients| ==> clients[i] != clients[j]) &&
      forall i :: 0 <= i < |clients| ==> clients[i].HeadSent() && !clients[i].ended && clients[i].forwardedTo == None
    }

    constructor ()
      ensures clients == [] && Valid()
    {
      clients := [];
    }

    /** `serveReload`: the stream opens with status 200 and the event-stream
        headers, says `connected`/`ready`, and its connection is registered once,
        at the end. */
    method ServeReload(conn: Connection)
      requires Valid() && conn !in clients
      requires !conn.HeadSent() && !conn.ended && conn.forwardedTo == None && conn.body == []
      modifies this, conn
      ensures Valid() && clients == old(clients) + [conn]
      ensures conn.status == 200 && conn.headers == old(conn.headers) + StreamHeaders()
      ensures conn.body == Chunks("connected", "ready")
      ensures Texts(conn.body) == Message("connected", "ready")
      ensures !conn.ended && conn.forwardedTo == None
    {
      conn.WriteHead(200, StreamHeaders());
      SendMessage(conn, "connected", "ready");
      assert Texts([]) == "";
      assert [] + Chunks("connected", "ready") == Chunks("connected", "ready");
      clients := clients + [conn];
    }

    /** The registry part-way through the file-change drain: the first `k`
        clients still wait, each as `seen` records it;
        the others received one reload frame. */
    ghost predicate Broadcasting(all: seq<Connection>, k: nat, seen: seq<Seen>)
      reads this, all
    {
      k <= |all| && |seen| == |all| && clients == all[..k] &&
      (forall i, j :: 0 <= i < j < |all| ==> all[i] != all[j]) &&
      (forall i :: 0 <= i < |all| ==> Kept(all[i], seen[i].status, seen[i].headers)) &&
      (forall i :: 0 <= i < k ==> all[i].body == seen[i].body) &&
      (forall i :: k <= i < |all| ==> all[i].body == seen[i].body + Chunks("message", "reload"))
    }

    /** One round of the file-change drain: the last-registered client is
        popped and sent the reload frame. */
    method ReloadLast(ghost all: seq<Connection>, ghost k: nat, ghost seen: seq<Seen>)
      returns (c: Connection)
      requires 0 < k && Broadcasting(all, k, seen)
      modifies this, all[k - 1]
      ensures c == all[k - 1] && Broadcasting(all, k - 1, seen)
    {
      c := clients[|clients| - 1];
      clients := clients[..|clients| - 1];
      SendMessage(c, "message", "reload");
    }

    /** The file-change drain: clients are popped until none is left, each
        receiving one `message`/`reload` frame on its open stream, so they are
        served last-registered first. `order` is the sequence served. */
    method BroadcastReload() returns (order: seq<Connection>)
      requires Valid()
      modifies this, clients
      ensures clients == [] && Valid()
      ensures order == Reversed(old(clients))
      ensures forall i :: 0 <= i < |old(clients)| ==>
        var c := old(clients)[i];
        c.body == old(c.body) + Chunks("message", "reload") &&
        c.status == old(c.status) && c.headers == old(c.headers) && !c.ended && c.forwardedTo == None
      ensures forall i :: 0 <= i < |old(clients)| ==>
        var c := old(clients)[i];
        Texts(c.body) == Texts(old(c.body)) + Message("message", "reload")
    {
      ghost var all := clients;
      ghost var seen := Snapshot(all);
      order := [];
      ghost var k: nat := |clients|;
      while |clients| > 0
        invariant Broadcasting(all, k, seen)
        invariant forall i :: 0 <= i < |all| ==> seen[i] == old(Seen(all[i].body, all[i].status, all[i].headers))
        invariant |order| == |all| - k
        invariant forall i :: 0 <= i < |order| ==> order[i] == all[|all| - 1 - i]
        decreases k
      {
        var c := ReloadLast(all, k, seen);
        order := order + [c];
        k := k - 1;
      }
      ReversedIndex(all);
      ReloadedTexts(all, seen);
    }

    /** The SIGINT drain: every client is popped and its stream ended. */
    method Shutdown()
      requires Valid()
      modifies this, clients
      ensures clients == [] && Valid()
      ensures forall i :: 0 <= i < |old(clients)| ==>
        var c := old(clients)[i];
        c.ended && c.body == old(c.body) && c.status == old(c.status) && c.headers == old(c.headers) && c.forwardedTo == None
    {
      ghost var all := clients;
      while |clients| > 0
        invariant clients == all[..|clients|]
        invariant forall i :: 0 <= i < |all| ==>
          all[i].body == old(all[i].body) && all[i].status == old(all[i].status) &&
          all[i].headers == old(all[i].headers) && all[i].forwardedTo == None
        invariant forall i :: |clients| <= i < |all| ==> all[i].ended
        decreases |clients|
      {
        var n := |clients| - 1;
        var c := clients[n];
        assert all[n..] == [c] + all[n + 1..];
        clients := clients[..n];
        c.End();
      }
      assert all[0..] == all;
    }
  }
}
