/** The server side of one HTTP exchange as the request handlers drive it:
    headers set one by one, a head written once, body chunks, an end. Header
    names are case-insensitive and Node keeps them lower-cased, so the model
    writes them lower-cased throughout. */
module Http {
  import opened Host

  /** A body chunk. Gzip compression is not modelled: a compressed chunk records
      the text that was compressed. */
  datatype Chunk = Text(text: string) | Gzipped(text: string)

  /** The text of a body, its chunks in order. */
  function Texts(body: seq<Chunk>): string
  {
    if body == [] then "" else Texts(body[..|body| - 1]) + body[|body| - 1].text
  }

  /** Appending chunks appends their text. */
  lemma {:induction false} TextsAppend(a: seq<Chunk>, b: seq<Chunk>)
    ensures Texts(a + b) == Texts(a) + Texts(b)
    decreases |b|
  {
    if b == [] {
      assert a + b == a;
    } else {
      var b' := b[..|b| - 1];
      assert (a + b)[..|a + b| - 1] == a + b';
      assert (a + b)[|a + b| - 1] == b[|b| - 1];
      assert Texts(b) == Texts(b') + b[|b| - 1].text;
      TextsAppend(a, b');
      assert Texts(a + b) == Texts(a + b') + b[|b| - 1].text;
    }
  }

  /** A complete response as the client receives it. */
  datatype Response = Response(status: nat, headers: map<string, string>, body: seq<Chunk>)

  /** One response object. `status` is 0 until the head is written;
      `forwardedTo` records a hand-over to the proxy. */
  class Connection {
    var headers: map<string, string>
    var status: nat
    var body: seq<Chunk>
    var ended: bool
    var forwardedTo: Option<string>

    constructor ()
      ensures headers == map[] && status == 0 && body == [] && !ended && forwardedTo == None
    {
      headers, status, body, ended, forwardedTo := map[], 0, [], false, None;
    }

    predicate HeadSent()
      reads this
    {
      status != 0
    }

    /** The connection holds exactly the complete response `r`. */
    predicate Shows(r: Response)
      reads this
    {
      status == r.status && headers == r.headers && body == r.body && ended && forwardedTo == None
    }

    /** `res.setHeader(name, value)`; Node refuses it once the head is sent. */
    method SetHeader(name: string, value: string)
      requires !HeadSent()
      modifies this
      ensures headers == old(headers)[name := value]
      ensures status == old(status) && body == old(body) && ended == old(ended) && forwardedTo == old(forwardedTo)
    {
      headers := headers[name := value];
    }

    /** `res.writeHead(status, extra)`: the headers set so far, overridden by
        `extra`, go out with the status. A second head is refused. */
    method WriteHead(s: nat, extra: map<string, string>)
      requires !HeadSent() && s != 0
      modifies this
      ensures status == s && headers == old(headers) + extra
      ensures body == old(body) && ended == old(ended) && forwardedTo == old(forwardedTo)
    {
      status := s;
      headers := headers + extra;
    }

    /** `res.write(chunk)`. */
    method Write(c: Chunk)
      requires HeadSent() && !ended
      modifies this
      ensures body == old(body) + [c]
      ensures status == old(status) && headers == old(headers) && ended == old(ended) && forwardedTo == old(forwardedTo)
    {
      body := body + [c];
    }

    /** `res.end()`. */
    method End()
      modifies this
      ensures ended
      ensures status == old(status) && headers == old(headers) && body == old(body) && forwardedTo == old(forwardedTo)
    {
      ended := true;
    }

    /** `proxy.web(req, res, { target })`: the exchange is handed to the proxy. */
    method Forward(target: string)
      modifies this
      ensures forwardedTo == Some(target)
      ensures status == old(status) && headers == old(headers) && body == old(body) && ended == old(ended)
    {
      forwardedTo := Some(target);
    }
  }
}
