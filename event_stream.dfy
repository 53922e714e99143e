/** The `text/event-stream` encoding written by a session's data listener,
    and a decoder that follows the parsing rules of the WHATWG HTML Living
    Standard, section 9.2.6 ("Interpreting an event stream"). The main result,
    StreamRoundTrip, says that a client's standard parser reads back the
    output of any sequence of frames as exactly one event per frame. */
module EventStream {
  import opened JsValues
  import Strings

  /** One frame as the listener writes it: the text of its `id:` line, the
      `event` argument of `send`, and the serialised payload. */
  datatype Frame = Frame(id: string, event: JsArg, data: string)

  /** The `res.write` calls one frame makes: an `id:` line, an `event:` line
      only when the event is truthy, and the `data:` line with the blank
      line that ends the frame. */
  function FrameWrites(f: Frame): (w: seq<string>)
    ensures |w| == if Truthy(f.event) then 3 else 2
    ensures |w[0]| >= 5 && w[0][..4] == "id: " && w[0][|w[0]| - 1] == '\n'
    ensures |w[|w| - 1]| >= 8 && w[|w| - 1][..6] == "data: " && w[|w| - 1][|w[|w| - 1]| - 2..] == "\n\n"
  {
    ["id: " + f.id + "\n"]
    + (if Truthy(f.event) then ["event: " + Text(f.event) + "\n"] else [])
    + ["data: " + f.data + "\n\n"]
  }

  /** The writes of a sequence of frames, in order. */
  function Writes(frames: seq<Frame>): seq<string> {
    if frames == [] then [] else FrameWrites(frames[0]) + Writes(frames[1..])
  }

  /** The stream text produced by a sequence of writes. */
  function Concat(ws: seq<string>): string {
    if ws == [] then "" else ws[0] + Concat(ws[1..])
  }

  /** Appending a frame appends its writes: the stream is append-only. */
  lemma {:induction false} WritesAppend(frames: seq<Frame>, f: Frame)
    ensures Writes(frames + [f]) == Writes(frames) + FrameWrites(f)
  {
    if frames == [] {
      assert [f][1..] == [];
      assert frames + [f] == [f];
    } else {
      assert (frames + [f])[1..] == frames[1..] + [f];
      WritesAppend(frames[1..], f);
    }
  }

  lemma {:induction false} ConcatAppend(a: seq<string>, b: seq<string>)
    ensures Concat(a + b) == Concat(a) + Concat(b)
  {
    if a == [] {
      assert a + b == b;
    } else {
      assert (a + b)[1..] == a[1..] + b;
      ConcatAppend(a[1..], b);
    }
  }

  lemma ConcatOne(w: string)
    ensures Concat([w]) == w
  {
    assert [w][1..] == [];
  }

  // ----- The decoder -----

  /** CR and LF end a line of the event stream. */
  predicate IsBreak(c: char) {
    c == '\r' || c == '\n'
  }

  /** s holds no line terminator. */
  predicate OneLine(s: string) {
    forall i :: 0 <= i < |s| ==> !IsBreak(s[i])
  }

  /** The index where the first line of s ends, or |s| when s holds no
      complete line. */
  function LineEnd(s: string): (r: nat)
    ensures r <= |s|
    ensures r < |s| ==> IsBreak(s[r])
    ensures forall j :: 0 <= j < r ==> !IsBreak(s[j])
  {
    if s == [] then 0 else if IsBreak(s[0]) then 0 else 1 + LineEnd(s[1..])
  }

  /** The buffers of the parser: last event ID, event type and data. */
  datatype ParserState = ParserState(lastEventId: string, eventType: string, data: string)

  /** An event as the client's `EventSource` sees it. */
  datatype Event = Event(lastEventId: string, eventType: string, data: string)

  /** The parser state between events, after the last event ID was set to id. */
  function Idle(id: string): ParserState {
    ParserState(id, "", "")
  }

  /** Dispatching at a blank line: nothing when the data buffer is empty,
      otherwise one event whose data is the buffer less its final LF and
      whose type is "message" unless an event type was given. */
  function Dispatch(st: ParserState): (seq<Event>, ParserState) {
    if st.data == "" then
      ([], Idle(st.lastEventId))
    else
      var d := if st.data[|st.data| - 1] == '\n' then st.data[..|st.data| - 1] else st.data;
      var t := if st.eventType == "" then "message" else st.eventType;
      ([Event(st.lastEventId, t, d)], Idle(st.lastEventId))
  }

  /** Processing one field: `event` sets the type, `data` appends a line to
      the data, `id` sets the last event ID unless the value holds NULL;
      every other field (including `retry`, which affects only reconnection)
      leaves the buffers alone. */
  function ProcessField(name: string, value: string, st: ParserState): ParserState {
    if name == "event" then
      st.(eventType := value)
    else if name == "data" then
      st.(data := st.data + value + "\n")
    else if name == "id" && '\0' !in value then
      st.(lastEventId := value)
    else
      st
  }

  /** Processing one line: a blank line dispatches, a line starting with a
      colon is a comment, otherwise the field name runs to the first colon
      and the value follows it, less one leading space. */
  function ProcessLine(line: string, st: ParserState): (seq<Event>, ParserState) {
    if line == "" then
      Dispatch(st)
    else if line[0] == ':' then
      ([], st)
    else
      var c := Strings.IndexOf(line, ':');
      if c < |line| then
        var v := line[c + 1..];
        var value := if v != "" && v[0] == ' ' then v[1..] else v;
        ([], ProcessField(line[..c], value, st))
      else
        ([], ProcessField(line, "", st))
  }

  /** The events a client decodes from the stream text s, starting in state
      st; a final line without terminator is not processed. CRLF counts as
      one terminator. */
  function Parse(s: string, st: ParserState): seq<Event>
    decreases |s|
  {
    var i := LineEnd(s);
    if i == |s| then
      []
    else
      var next := if s[i] == '\r' && i + 1 < |s| && s[i + 1] == '\n' then i + 2 else i + 1;
      var r := ProcessLine(s[..i], st);
      r.0 + Parse(s[next..], r.1)
  }

  /** The client's state when the stream opens. */
  function Initial(): ParserState {
    Idle("")
  }

  // ----- Round trip -----

  /** A frame the decoder reads back unchanged: no line terminator in any of
      its texts and no NULL in its id. A JSON serialiser never emits a raw
      line terminator, and the auto-generated ids are decimal digits. */
  predicate WellFormed(f: Frame) {
    && OneLine(f.id)
    && '\0' !in f.id
    && OneLine(Text(f.event))
    && OneLine(f.data)
  }

  /** The event a client sees for a frame. */
  function EventOf(f: Frame): Event {
    Event(f.id, if Truthy(f.event) then Text(f.event) else "message", f.data)
  }

  function Events(frames: seq<Frame>): seq<Event> {
    if frames == [] then [] else [EventOf(frames[0])] + Events(frames[1..])
  }

  /** A complete line is processed on its own, and parsing goes on after it. */
  lemma ParseLine(a: string, rest: string, st: ParserState)
    requires OneLine(a)
    ensures Parse(a + "\n" + rest, st)
         == ProcessLine(a, st).0 + Parse(rest, ProcessLine(a, st).1)
  {
    var s := a + "\n" + rest;
    assert s[|a|] == '\n';
    assert LineEnd(s) == |a|;
    assert s[..|a|] == a;
    assert s[|a| + 1..] == rest;
  }

  /** A `name: value` line sets the named field to exactly value. */
  lemma FieldLine(name: string, value: string, st: ParserState)
    requires name != "" && ':' !in name
    ensures ProcessLine(name + ": " + value, st) == ([], ProcessField(name, value, st))
  {
    var line := name + ": " + value;
    assert line[0] == name[0];
    assert line[|name|] == ':';
    assert Strings.IndexOf(line, ':') == |name|;
    assert line[..|name|] == name;
    assert line[|name| + 1..] == " " + value;
    assert (" " + value)[1..] == value;
  }

  lemma OneLineAppend(a: string, b: string)
    requires OneLine(a) && OneLine(b)
    ensures OneLine(a + b)
  {
    assert forall j :: |a| <= j < |a + b| ==> (a + b)[j] == b[j - |a|];
  }

  /** A field line (`name: value`) followed by more text only updates the
      named buffer. */
  lemma FieldStep(name: string, value: string, rest: string, st: ParserState)
    requires name != "" && ':' !in name && OneLine(name) && OneLine(value)
    ensures Parse(name + ": " + value + "\n" + rest, st)
         == Parse(rest, ProcessField(name, value, st))
  {
    OneLineAppend(name, ": ");
    OneLineAppend(name + ": ", value);
    FieldLine(name, value, st);
    ParseLine(name + ": " + value, rest, st);
  }

  /** A blank line after one `data:` line dispatches that line's value. */
  lemma BlankLineStep(data: string, rest: string, st: ParserState)
    requires st.data == data + "\n"
    ensures Parse("\n" + rest, st)
         == [Event(st.lastEventId, if st.eventType == "" then "message" else st.eventType, data)]
            + Parse(rest, Idle(st.lastEventId))
  {
    assert st.data[..|st.data| - 1] == data;
    assert OneLine("");
    ParseLine("", rest, st);
    assert "" + "\n" + rest == "\n" + rest;
  }

  /** The `data:` line and the blank line after it dispatch one event. */
  lemma DataStep(data: string, rest: string, st: ParserState)
    requires OneLine(data) && st.data == ""
    ensures Parse("data: " + data + "\n" + ("\n" + rest), st)
         == [Event(st.lastEventId, if st.eventType == "" then "message" else st.eventType, data)]
            + Parse(rest, Idle(st.lastEventId))
  {
    var s := "\n" + rest;
    var st' := st.(data := data + "\n");
    assert OneLine("data");
    assert "data" + ": " + data + "\n" + s == "data: " + data + "\n" + s;
    assert st.data + data + "\n" == data + "\n";
    FieldStep("data", data, s, st);
    BlankLineStep(data, rest, st');
  }

  /** The text of one frame followed by rest, cut at its lines. */
  lemma FrameText(f: Frame, rest: string)
    ensures Truthy(f.event) ==>
      Concat(FrameWrites(f)) + rest
      == "id: " + f.id + "\n" + ("event: " + Text(f.event) + "\n" + ("data: " + f.data + "\n" + ("\n" + rest)))
    ensures !Truthy(f.event) ==>
      Concat(FrameWrites(f)) + rest
      == "id: " + f.id + "\n" + ("data: " + f.data + "\n" + ("\n" + rest))
  {
    var ws := FrameWrites(f);
    if Truthy(f.event) {
      assert ws == [ws[0]] + ([ws[1]] + [ws[2]]);
      ConcatAppend([ws[0]], [ws[1]] + [ws[2]]);
      ConcatAppend([ws[1]], [ws[2]]);
      ConcatOne(ws[0]);
      ConcatOne(ws[1]);
      ConcatOne(ws[2]);
    } else {
      assert ws == [ws[0]] + [ws[1]];
      ConcatAppend([ws[0]], [ws[1]]);
      ConcatOne(ws[0]);
      ConcatOne(ws[1]);
    }
  }

  /** An `id:` line sets the last event ID. */
  lemma IdStep(id: string, tail: string, last: string)
    requires OneLine(id) && '\0' !in id
    ensures Parse("id: " + id + "\n" + tail, Idle(last)) == Parse(tail, Idle(id))
  {
    assert OneLine("id");
    assert "id" + ": " + id + "\n" + tail == "id: " + id + "\n" + tail;
    FieldStep("id", id, tail, Idle(last));
    assert ProcessField("id", id, Idle(last)) == Idle(id);
  }

  /** An `event:` line sets the event type. */
  lemma EventStep(e: string, tail: string, id: string)
    requires OneLine(e)
    ensures Parse("event: " + e + "\n" + tail, Idle(id)) == Parse(tail, ParserState(id, e, ""))
  {
    assert OneLine("event");
    assert "event" + ": " + e + "\n" + tail == "event: " + e + "\n" + tail;
    FieldStep("event", e, tail, Idle(id));
    assert ProcessField("event", e, Idle(id)) == ParserState(id, e, "");
  }

  /** The lines of a frame with an `event:` line decode to one typed event. */
  lemma TypedFrameStep(id: string, e: string, data: string, rest: string, last: string)
    requires OneLine(id) && '\0' !in id && OneLine(e) && e != "" && OneLine(data)
    ensures Parse("id: " + id + "\n" + ("event: " + e + "\n" + ("data: " + data + "\n" + ("\n" + rest))), Idle(last))
         == [Event(id, e, data)] + Parse(rest, Idle(id))
  {
    var tail := "data: " + data + "\n" + ("\n" + rest);
    IdStep(id, "event: " + e + "\n" + tail, last);
    EventStep(e, tail, id);
    DataStep(data, rest, ParserState(id, e, ""));
  }

  /** The lines of a frame without `event:` line decode to one "message" event. */
  lemma UntypedFrameStep(id: string, data: string, rest: string, last: string)
    requires OneLine(id) && '\0' !in id && OneLine(data)
    ensures Parse("id: " + id + "\n" + ("data: " + data + "\n" + ("\n" + rest)), Idle(last))
         == [Event(id, "message", data)] + Parse(rest, Idle(id))
  {
    IdStep(id, "data: " + data + "\n" + ("\n" + rest), last);
    DataStep(data, rest, Idle(id));
  }

  /** One frame, followed by anything, decodes to its event and leaves the
      parser between events with the frame's id as last event ID. */
  lemma FrameRoundTrip(f: Frame, rest: string, last: string)
    requires WellFormed(f)
    ensures Parse(Concat(FrameWrites(f)) + rest, Idle(last))
         == [EventOf(f)] + Parse(rest, Idle(f.id))
  {
    FrameText(f, rest);
    if Truthy(f.event) {
      TypedFrameStep(f.id, Text(f.event), f.data, rest, last);
    } else {
      UntypedFrameStep(f.id, f.data, rest, last);
    }
  }

  /** A client decodes the output of any sequence of well-formed frames as
      one event per frame, in order, carrying each frame's id, type and data. */
  lemma {:induction false} StreamRoundTrip(frames: seq<Frame>, last: string)
    requires forall i :: 0 <= i < |frames| ==> WellFormed(frames[i])
    ensures Parse(Concat(Writes(frames)), Idle(last)) == Events(frames)
  {
    if frames == [] {
      assert Concat([]) == "";
    } else {
      var f := frames[0];
      ConcatAppend(FrameWrites(f), Writes(frames[1..]));
      FrameRoundTrip(f, Concat(Writes(frames[1..])), last);
      StreamRoundTrip(frames[1..], f.id);
    }
  }
}
