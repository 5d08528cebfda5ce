/** The live-reload channel's wire format: the frame `sendMessage` writes
    (servor.ts:143-146, servor.js:104-107) and, as its independent partner, the
    listener side of the event-stream format of the WHATWG HTML Living Standard,
    section 9.2 "Server-sent events" (its "event stream interpretation"), which is
    what the browser's `EventSource` in the injected reload script runs. */
module EventStream {
  import opened Strings

  /** The text `sendMessage(res, channel, data)` writes, its two writes joined:
      `event: channel`, `id: 0`, `data: data`, each ended by a line feed, then two
      more line feeds. */
  function Message(channel: string, data: string): string
  {
    "event: " + channel + "\nid: 0\ndata: " + data + "\n" + "\n\n"
  }

  /** An event as the listener dispatches it to the page. */
  datatype Event = Event(kind: string, data: string, lastEventId: string)

  /** The listener's buffers (event type, data, last event ID) and the events
      dispatched so far. */
  datatype Listener = Listener(kind: string, data: string, lastEventId: string, received: seq<Event>)

  function Fresh(): Listener
  {
    Listener("", "", "", [])
  }

  /** A blank line dispatches: nothing when the data buffer is empty, otherwise one
      event whose type defaults to `message` and whose data loses its final line
      feed. Both buffers are cleared either way; the last event ID is kept. */
  function Dispatch(st: Listener): (r: Listener)
    ensures r.kind == "" && r.data == "" && r.lastEventId == st.lastEventId
    ensures st.data == "" ==> r.received == st.received
    ensures st.data != "" ==> |r.received| == |st.received| + 1 && r.received[..|st.received|] == st.received
  {
    if st.data == "" then st.(kind := "", data := "")
    else
      var data := if st.data[|st.data| - 1] == '\n' then st.data[..|st.data| - 1] else st.data;
      var ev := Event(if st.kind == "" then "message" else st.kind, data, st.lastEventId);
      Listener("", "", st.lastEventId, st.received + [ev])
  }

  /** The effect of one field on the buffers: `event` sets the type, `data`
      appends the value and a line feed, `id` sets the last event ID unless the
      value holds NUL; `retry` only changes the reconnection delay and every other
      field is ignored. */
  function ProcessField(st: Listener, field: string, value: string): Listener
  {
    if field == "event" then st.(kind := value)
    else if field == "data" then st.(data := st.data + value + "\n")
    else if field == "id" then (if '\0' in value then st else st.(lastEventId := value))
    else st
  }

  /** The value after the colon loses one leading space. */
  function DropSpace(v: string): (r: string)
    ensures r == v || (v != "" && v[0] == ' ' && r == v[1..])
  {
    if v != "" && v[0] == ' ' then v[1..] else v
  }

  /** One complete line: blank dispatches, a leading colon is a comment, otherwise
      the line is split at its first colon into field and value (a line without a
      colon is a field with an empty value). */
  function ProcessLine(st: Listener, line: string): Listener
  {
    if line == "" then Dispatch(st)
    else if line[0] == ':' then st
    else
      var i := IndexOf(line, ':');
      if i == -1 then ProcessField(st, line, "")
      else ProcessField(st, line[..i], DropSpace(line[i + 1..]))
  }

  function Feed(st: Listener, lines: seq<string>): Listener
    decreases |lines|
  {
    if lines == [] then st else Feed(ProcessLine(st, lines[0]), lines[1..])
  }

  /** The listener reading the text `s`: every line ended by a line feed is
      processed; the unterminated rest waits for more input. */
  function Receive(st: Listener, s: string): Listener
  {
    var parts := Split(s, '\n');
    Feed(st, parts[..|parts| - 1])
  }

  /** What the event-stream format needs of a channel or data value for it to
      arrive intact: no line break inside it. */
  predicate OneLine(s: string)
  {
    '\n' !in s && '\r' !in s
  }

  // ---------------------------------------------------------------------------
  // Properties
  // ---------------------------------------------------------------------------

  lemma {:induction false} FeedConcat(st: Listener, a: seq<string>, b: seq<string>)
    ensures Feed(st, a + b) == Feed(Feed(st, a), b)
    decreases |a|
  {
    if a == [] {
      assert a + b == b;
    } else {
      assert (a + b)[0] == a[0];
      assert (a + b)[1..] == a[1..] + b;
      FeedConcat(ProcessLine(st, a[0]), a[1..], b);
    }
  }

  /** The message text without its final line feed. */
  function Frame(channel: string, data: string): string
  {
    "event: " + channel + "\nid: 0\ndata: " + data + "\n\n"
  }

  lemma TwoBlankLines(l: string)
    requires '\n' !in l
    ensures Split(l + "\n\n", '\n') == [l, "", ""]
  {
    SplitWithoutSep(l, '\n');
    SplitWithoutSep("", '\n');
    SplitAround("", "", '\n');
    assert "" + ['\n'] + "" == "\n";
    SplitAround(l, "\n", '\n');
    assert l + "\n\n" == l + ['\n'] + "\n";
  }

  lemma FrameLines(channel: string, data: string)
    requires OneLine(channel) && OneLine(data)
    ensures Split(Frame(channel, data), '\n') == ["event: " + channel, "id: 0", "data: " + data, "", ""]
  {
    var l1, l2, l3 := "event: " + channel, "id: 0", "data: " + data;
    assert Frame(channel, data) == l1 + ['\n'] + (l2 + ['\n'] + (l3 + "\n\n"));
    ThreeLines(l1, l2, l3);
  }

  /** Three lines, each ended by a line feed, then one more line feed. */
  lemma ThreeLines(l1: string, l2: string, l3: string)
    requires '\n' !in l1 && '\n' !in l2 && '\n' !in l3
    ensures Split(l1 + ['\n'] + (l2 + ['\n'] + (l3 + "\n\n")), '\n') == [l1, l2, l3, "", ""]
  {
    SplitWithoutSep(l1, '\n');
    SplitWithoutSep(l2, '\n');
    TwoBlankLines(l3);
    SplitAround(l2, l3 + "\n\n", '\n');
    SplitAround(l1, l2 + ['\n'] + (l3 + "\n\n"), '\n');
  }

  /** A message is its frame, a line feed, and whatever follows. */
  lemma MessageLines(channel: string, data: string, rest: string)
    requires OneLine(channel) && OneLine(data)
    ensures Split(Message(channel, data) + rest, '\n') ==
      ["event: " + channel, "id: 0", "data: " + data, "", ""] + Split(rest, '\n')
  {
    FrameLines(channel, data);
    SplitAround(Frame(channel, data), rest, '\n');
    assert Message(channel, data) + rest == Frame(channel, data) + ['\n'] + rest;
  }

  /** A field line `name: value` whose name holds no colon. */
  lemma FieldLine(st: Listener, name: string, value: string)
    requires ':' !in name && name != ""
    ensures ProcessLine(st, name + ": " + value) == ProcessField(st, name, value)
  {
    var line := name + ": " + value;
    var after := ": " + value;
    assert line == name + after;
    IndexOfAfter(name, after, ':');
    assert after[0] == ':';
    assert IndexOf(line, ':') == |name|;
    assert line[0] == name[0];
    assert line[..|name|] == name;
    assert line[|name| + 1..] == " " + value;
    assert DropSpace(" " + value) == value;
  }

  lemma EventLine(st: Listener, channel: string)
    ensures ProcessLine(st, "event: " + channel) == st.(kind := channel)
  {
    assert "event" + ": " == "event: ";
    FieldLine(st, "event", channel);
  }

  lemma IdLine(st: Listener)
    ensures ProcessLine(st, "id: 0") == st.(lastEventId := "0")
  {
    assert "id: 0" == "id" + ": " + "0";
    FieldLine(st, "id", "0");
  }

  lemma DataLine(st: Listener, data: string)
    ensures ProcessLine(st, "data: " + data) == st.(data := st.data + data + "\n")
  {
    assert "data" + ": " == "data: ";
    FieldLine(st, "data", data);
  }

  /** A data buffer holding one line dispatches that line. */
  lemma DispatchOne(st: Listener, data: string)
    requires st.data == data + "\n"
    ensures Dispatch(st) == Listener("", "", st.lastEventId,
      st.received + [Event(if st.kind == "" then "message" else st.kind, data, st.lastEventId)])
  {
    assert st.data[..|st.data| - 1] == data;
  }

  /** The five lines of one message, read with empty type and data buffers,
      dispatch exactly one event, carrying the channel (or `message` when the
      channel is empty), the data and the ID `0`, and leave the buffers empty. */
  lemma FrameDispatches(st: Listener, channel: string, data: string)
    requires st.kind == "" && st.data == ""
    ensures var r := Feed(st, ["event: " + channel, "id: 0", "data: " + data, "", ""]);
      r == Listener("", "", "0", st.received + [Event(if channel == "" then "message" else channel, data, "0")])
  {
    var s1 := st.(kind := channel);
    var s2 := s1.(lastEventId := "0");
    var s3 := s2.(data := data + "\n");
    var s4 := Listener("", "", "0", st.received + [MessageEvent(channel, data)]);
    EventLine(st, channel);
    IdLine(s1);
    DataLine(s2, data);
    BlankLines(s3, data, s4);
    FeedFive(st, "event: " + channel, "id: 0", "data: " + data, "", "", s1, s2, s3, s4, s4);
  }

  /** The blank line after a one-line data field dispatches it; the second blank
      line finds the data buffer empty and changes nothing. */
  lemma BlankLines(st: Listener, data: string, r: Listener)
    requires st.data == data + "\n"
    requires r == Listener("", "", st.lastEventId,
      st.received + [Event(if st.kind == "" then "message" else st.kind, data, st.lastEventId)])
    ensures ProcessLine(st, "") == r && ProcessLine(r, "") == r
  {
    DispatchOne(st, data);
  }

  /** Feeding five lines is processing them one after the other. */
  lemma FeedFive(st: Listener, a: string, b: string, c: string, d: string, e: string,
                 s1: Listener, s2: Listener, s3: Listener, s4: Listener, s5: Listener)
    requires ProcessLine(st, a) == s1 && ProcessLine(s1, b) == s2 && ProcessLine(s2, c) == s3
    requires ProcessLine(s3, d) == s4 && ProcessLine(s4, e) == s5
    ensures Feed(st, [a, b, c, d, e]) == s5
  {
    assert [a, b, c, d, e][1..] == [b, c, d, e];
    assert [b, c, d, e][1..] == [c, d, e];
    assert [c, d, e][1..] == [d, e];
    assert [d, e][1..] == [e];
    assert Feed(s4, [e]) == s5;
    assert Feed(s3, [d, e]) == Feed(s4, [e]);
    assert Feed(s2, [c, d, e]) == Feed(s3, [d, e]);
    assert Feed(s1, [b, c, d, e]) == Feed(s2, [c, d, e]);
  }

  /** The event a listener should see for one message. */
  function MessageEvent(channel: string, data: string): Event
  {
    Event(if channel == "" then "message" else channel, data, "0")
  }

  /** Reading a message and then more text, with empty type and data buffers, is
      dispatching the message's event and then reading the rest. */
  lemma ReceiveMessage(st: Listener, channel: string, data: string, rest: string)
    requires st.kind == "" && st.data == ""
    requires OneLine(channel) && OneLine(data)
    ensures Receive(st, Message(channel, data) + rest) ==
      Receive(Listener("", "", "0", st.received + [MessageEvent(channel, data)]), rest)
  {
    var five := ["event: " + channel, "id: 0", "data: " + data, "", ""];
    MessageLines(channel, data, rest);
    var parts := Split(rest, '\n');
    assert (five + parts)[..|five + parts| - 1] == five + parts[..|parts| - 1];
    FeedConcat(st, five, parts[..|parts| - 1]);
    FrameDispatches(st, channel, data);
  }

  lemma ReceiveNothing(st: Listener)
    ensures Receive(st, "") == st
  {
    assert Split("", '\n') == [""];
  }

  /** The text of several messages written one after the other. */
  function Stream(msgs: seq<(string, string)>): string
  {
    if msgs == [] then "" else Message(msgs[0].0, msgs[0].1) + Stream(msgs[1..])
  }

  /** The events a listener should see for those messages. */
  function Expected(msgs: seq<(string, string)>): seq<Event>
  {
    if msgs == [] then [] else [MessageEvent(msgs[0].0, msgs[0].1)] + Expected(msgs[1..])
  }

  predicate AllOneLine(msgs: seq<(string, string)>)
  {
    forall i :: 0 <= i < |msgs| ==> OneLine(msgs[i].0) && OneLine(msgs[i].1)
  }

  /** The lines of several messages: five for each. */
  function Lines(msgs: seq<(string, string)>): seq<string>
  {
    if msgs == [] then []
    else ["event: " + msgs[0].0, "id: 0", "data: " + msgs[0].1, "", ""] + Lines(msgs[1..])
  }

  /** The text of several messages, followed by anything, splits into their lines
      followed by the parts of what follows. */
  lemma {:induction false} StreamLines(msgs: seq<(string, string)>, rest: string)
    requires AllOneLine(msgs)
    ensures Split(Stream(msgs) + rest, '\n') == Lines(msgs) + Split(rest, '\n')
    decreases |msgs|
  {
    if msgs == [] {
      assert Stream(msgs) + rest == rest;
    } else {
      var c, d, tail := msgs[0].0, msgs[0].1, msgs[1..];
      AllOneLineTail(msgs);
      StreamLines(tail, rest);
      assert Stream(msgs) + rest == Message(c, d) + (Stream(tail) + rest);
      MessageLines(c, d, Stream(tail) + rest);
    }
  }

  /** Feeding the lines of several messages, with empty type and data buffers,
      dispatches their events in order and leaves the buffers empty. */
  lemma {:induction false} LinesDispatch(st: Listener, msgs: seq<(string, string)>)
    requires st.kind == "" && st.data == ""
    ensures Feed(st, Lines(msgs)) ==
      Listener("", "", if msgs == [] then st.lastEventId else "0", st.received + Expected(msgs))
    decreases |msgs|
  {
    if msgs == [] {
      assert st.received + Expected(msgs) == st.received;
    } else {
      var c, d, tail := msgs[0].0, msgs[0].1, msgs[1..];
      FeedMessage(st, c, d, Lines(tail));
      var ev := MessageEvent(c, d);
      var mid := Listener("", "", "0", st.received + [ev]);
      LinesDispatch(mid, tail);
      assert Expected(msgs) == [ev] + Expected(tail);
      assert mid.received + Expected(tail) == st.received + ([ev] + Expected(tail));
    }
  }

  /** Feeding one message's lines and then more is dispatching its event and then
      feeding the rest. */
  lemma FeedMessage(st: Listener, c: string, d: string, more: seq<string>)
    requires st.kind == "" && st.data == ""
    ensures Feed(st, ["event: " + c, "id: 0", "data: " + d, "", ""] + more) ==
      Feed(Listener("", "", "0", st.received + [MessageEvent(c, d)]), more)
  {
    FeedConcat(st, ["event: " + c, "id: 0", "data: " + d, "", ""], more);
    FrameDispatches(st, c, d);
  }

  lemma AllOneLineTail(msgs: seq<(string, string)>)
    requires msgs != [] && AllOneLine(msgs)
    ensures AllOneLine(msgs[1..])
  {
    forall i | 0 <= i < |msgs[1..]|
      ensures OneLine(msgs[1..][i].0) && OneLine(msgs[1..][i].1)
    {
      assert msgs[1..][i] == msgs[i + 1];
    }
  }

  /** Messages whose channel and data are single lines arrive as exactly one event
      each, in order, with type, data and ID intact, and leave the buffers empty:
      the framing `sendMessage` writes is what an event-stream listener reads. */
  lemma MessagesArrive(st: Listener, msgs: seq<(string, string)>)
    requires st.kind == "" && st.data == ""
    requires AllOneLine(msgs)
    ensures Receive(st, Stream(msgs)) ==
      Listener("", "", if msgs == [] then st.lastEventId else "0", st.received + Expected(msgs))
  {
    StreamLines(msgs, "");
    assert Stream(msgs) + "" == Stream(msgs);
    assert Split("", '\n') == [""];
    var parts := Lines(msgs) + [""];
    assert parts[..|parts| - 1] == Lines(msgs);
    LinesDispatch(st, msgs);
  }

  /** A single message, read by a fresh listener, is one event. */
  lemma MessageArrives(channel: string, data: string)
    requires OneLine(channel) && OneLine(data)
    ensures Receive(Fresh(), Message(channel, data)).received == [MessageEvent(channel, data)]
  {
    ReceiveMessage(Fresh(), channel, data, "");
    assert Message(channel, data) + "" == Message(channel, data);
    ReceiveNothing(Listener("", "", "0", [MessageEvent(channel, data)]));
  }
}
