/**
 * Server-sent event framing (src/exec_rest_api/sse.py) and the client side of
 * the protocol: the event stream interpretation of section 9.2.6 of the
 * WHATWG HTML standard.
 */
module Sse {
  import opened Wrappers
  import opened Numerals
  import opened JsonText
  import opened JsonVisible

  // ---------------------------------------------------------------------
  // Printing
  // ---------------------------------------------------------------------

  function FormatRetry(milliseconds: int): string {
    "retry: " + ShowInt(milliseconds) + "\n\n"
  }

  function Unbreak(text: string): string {
    if text == "" then ""
    else [if text[0] == '\n' || text[0] == '\r' then ' ' else text[0]] + Unbreak(text[1..])
  }

  function FormatComment(text: string): string {
    ": " + Unbreak(text) + "\n\n"
  }

  function IdLine(id: Option<string>): string {
    if id.Some? then "id: " + id.value + "\n" else ""
  }

  function FormatEvent(event: string, id: Option<string>, data: Json): string {
    "event: " + event + "\n"
    + IdLine(id)
    + "data: " + Print(data) + "\n\n"
  }

  datatype Frame =
    | Retry(milliseconds: int)
    | Comment(text: string)
    | Event(event: string, id: Option<string>, data: Json)

  function Format(f: Frame): string {
    match f
    case Retry(ms) => FormatRetry(ms)
    case Comment(text) => FormatComment(text)
    case Event(event, id, data) => FormatEvent(event, id, data)
  }

  function FormatAll(fs: seq<Frame>): string {
    if fs == [] then "" else Format(fs[0]) + FormatAll(fs[1..])
  }

  // ---------------------------------------------------------------------
  // The standard's interpretation of a stream
  // ---------------------------------------------------------------------

  datatype Dispatched = Dispatched(kind: string, data: string, lastEventId: string)

  datatype Client = Client(
    dataBuffer: string,
    typeBuffer: string,
    lastEventId: string,
    reconnectionTime: Option<nat>,
    events: seq<Dispatched>)

  const FRESH: Client := Client("", "", "", None, [])

  function Dispatch(c: Client): Client {
    if c.dataBuffer == "" then c.(typeBuffer := "")
    else
      var data := if c.dataBuffer[|c.dataBuffer| - 1] == '\n' then c.dataBuffer[..|c.dataBuffer| - 1] else c.dataBuffer;
      var kind := if c.typeBuffer == "" then "message" else c.typeBuffer;
      c.(dataBuffer := "", typeBuffer := "", events := c.events + [Dispatched(kind, data, c.lastEventId)])
  }

  function ProcessField(c: Client, field: string, value: string): Client {
    if field == "event" then c.(typeBuffer := value)
    else if field == "data" then c.(dataBuffer := c.dataBuffer + value + "\n")
    else if field == "id" then (if '\0' in value then c else c.(lastEventId := value))
    else if field == "retry" then
      (if value != "" && AllDigits(value, Ten) then c.(reconnectionTime := Some(Parse(value, Ten))) else c)
    else c
  }

  /** The number of characters before the first colon, or all. */
  function ColonAt(line: string): (n: nat)
    ensures n <= |line|
  {
    if line == "" || line[0] == ':' then 0 else 1 + ColonAt(line[1..])
  }

  function AfterColon(line: string, n: nat): string
    requires n < |line|
  {
    if n + 1 < |line| && line[n + 1] == ' ' then line[n + 2..] else line[n + 1..]
  }

  function ProcessLine(c: Client, line: string): Client {
    if line == "" then Dispatch(c)
    else
      var n := ColonAt(line);
      if n == 0 then c
      else if n == |line| then ProcessField(c, line, "")
      else ProcessField(c, line[..n], AfterColon(line, n))
  }

  predicate IsBreak(ch: char) {
    ch == '\n' || ch == '\r'
  }

  function LineLength(s: string): (n: nat)
    ensures n <= |s|
  {
    if s == "" || IsBreak(s[0]) then 0 else 1 + LineLength(s[1..])
  }

  /** Lines end with CR LF, LF or CR; an unterminated line at the end of the stream is discarded. */
  function Interpret(c: Client, s: string): Client
    decreases |s|
  {
    var n := LineLength(s);
    if n == |s| then c
    else
      var width := if s[n] == '\r' && n + 1 < |s| && s[n + 1] == '\n' then 2 else 1;
      Interpret(ProcessLine(c, s[..n]), s[n + width..])
  }

  // ---------------------------------------------------------------------
  // What the frames mean
  // ---------------------------------------------------------------------

  function ApplyFrame(c: Client, f: Frame): Client {
    match f
    case Retry(ms) => if ms >= 0 then c.(reconnectionTime := Some(ms)) else c
    case Comment(_) => c
    case Event(event, id, data) =>
      var last := if id.Some? then id.value else c.lastEventId;
      c.(lastEventId := last,
         events := c.events + [Dispatched(if event == "" then "message" else event, Print(data), last)])
  }

  function ApplyAll(c: Client, fs: seq<Frame>): Client
    decreases |fs|
  {
    if fs == [] then c else ApplyAll(ApplyFrame(c, fs[0]), fs[1..])
  }

  ghost predicate OneLine(s: string) {
    forall i :: 0 <= i < |s| ==> !IsBreak(s[i])
  }

  /** Names and ids without line breaks, ids without NUL. */
  ghost predicate CleanFrame(f: Frame) {
    f.Event? ==> OneLine(f.event) && (f.id.Some? ==> OneLine(f.id.value) && '\0' !in f.id.value)
  }

  ghost predicate BetweenFrames(c: Client) {
    c.dataBuffer == "" && c.typeBuffer == ""
  }

  // ---------------------------------------------------------------------
  // Lines
  // ---------------------------------------------------------------------

  lemma {:induction false} LineLengthOf(line: string, rest: string)
    requires OneLine(line)
    ensures LineLength(line + ("\n" + rest)) == |line|
  {
    var s := line + ("\n" + rest);
    if line != "" {
      assert s[1..] == line[1..] + ("\n" + rest);
      LineLengthOf(line[1..], rest);
    } else {
      assert s == "\n" + rest;
    }
  }

  lemma InterpretLine(c: Client, line: string, rest: string)
    requires OneLine(line)
    ensures Interpret(c, line + ("\n" + rest)) == Interpret(ProcessLine(c, line), rest)
  {
    var s := line + ("\n" + rest);
    LineLengthOf(line, rest);
    assert s[..|line|] == line && s[|line|] == '\n' && s[|line| + 1..] == rest;
  }

  lemma {:induction false} ColonAtOf(field: string, value: string)
    requires ':' !in field
    ensures ColonAt(field + (": " + value)) == |field|
  {
    var s := field + (": " + value);
    if field != "" {
      assert s[1..] == field[1..] + (": " + value);
      ColonAtOf(field[1..], value);
    } else {
      assert s == ": " + value;
    }
  }

  lemma ProcessFieldLine(c: Client, field: string, value: string)
    requires ':' !in field && field != ""
    ensures ProcessLine(c, field + (": " + value)) == ProcessField(c, field, value)
  {
    var s := field + (": " + value);
    ColonAtOf(field, value);
    assert s[..|field|] == field && s[|field| + 1] == ' ' && s[|field| + 2..] == value;
  }

  /** One `field: value` line at the head of the stream. */
  lemma InterpretField(c: Client, field: string, value: string, rest: string)
    requires ':' !in field && field != "" && OneLine(field) && OneLine(value)
    ensures Interpret(c, (field + (": " + value)) + ("\n" + rest)) == Interpret(ProcessField(c, field, value), rest)
  {
    InterpretLine(c, field + (": " + value), rest);
    ProcessFieldLine(c, field, value);
  }

  lemma InterpretBlank(c: Client, rest: string)
    ensures Interpret(c, "\n" + rest) == Interpret(Dispatch(c), rest)
  {
    InterpretLine(c, "", rest);
    assert "" + ("\n" + rest) == "\n" + rest;
  }

  // ---------------------------------------------------------------------
  // Frames
  // ---------------------------------------------------------------------

  lemma RetryValue(ms: int)
    ensures OneLine(ShowInt(ms))
    ensures ms >= 0 ==> ShowInt(ms) != "" && AllDigits(ShowInt(ms), Ten) && Parse(ShowInt(ms), Ten) == ms
    ensures ms < 0 ==> !AllDigits(ShowInt(ms), Ten)
  {
    VisibleInt(ms);
    if ms >= 0 {
      ParseShow(ms, Ten);
    } else {
      assert ShowInt(ms)[0] == '-';
    }
  }

  lemma RetryShape(text: string, rest: string)
    ensures ("retry: " + text + "\n\n") + rest == ("retry" + (": " + text)) + ("\n" + ("\n" + rest))
  {
  }

  lemma InterpretRetry(c: Client, ms: int, rest: string)
    requires BetweenFrames(c)
    ensures Interpret(c, FormatRetry(ms) + rest) == Interpret(ApplyFrame(c, Retry(ms)), rest)
  {
    RetryValue(ms);
    var tail := "\n" + rest;
    RetryShape(ShowInt(ms), rest);
    InterpretField(c, "retry", ShowInt(ms), tail);
    InterpretBlank(ProcessField(c, "retry", ShowInt(ms)), rest);
  }

  lemma UnbreakOneLine(text: string)
    ensures OneLine(Unbreak(text))
  {
  }

  lemma InterpretComment(c: Client, text: string, rest: string)
    requires BetweenFrames(c)
    ensures Interpret(c, FormatComment(text) + rest) == Interpret(c, rest)
  {
    UnbreakOneLine(text);
    var line, tail := ": " + Unbreak(text), "\n" + rest;
    assert FormatComment(text) + rest == line + ("\n" + tail);
    InterpretLine(c, line, tail);
    InterpretBlank(c, rest);
    assert Dispatch(c) == c;
  }

  lemma VisibleOneLine(s: string)
    requires Visible(s)
    ensures OneLine(s)
  {
  }

  /** One data line and a blank line dispatch the line's text. */
  lemma DataDispatched(c: Client, text: string)
    requires c.dataBuffer == ""
    ensures
      var kind := if c.typeBuffer == "" then "message" else c.typeBuffer;
      Dispatch(ProcessField(c, "data", text))
      == c.(typeBuffer := "", events := c.events + [Dispatched(kind, text, c.lastEventId)])
  {
    var d := ProcessField(c, "data", text);
    assert d.dataBuffer == text + "\n";
    assert d.dataBuffer[..|d.dataBuffer| - 1] == text;
  }

  /** The `data` line and the blank line that dispatches. */
  lemma InterpretData(c: Client, data: Json, rest: string)
    requires c.dataBuffer == ""
    ensures
      var kind := if c.typeBuffer == "" then "message" else c.typeBuffer;
      Interpret(c, ("data" + (": " + Print(data))) + ("\n" + ("\n" + rest)))
      == Interpret(c.(typeBuffer := "", events := c.events + [Dispatched(kind, Print(data), c.lastEventId)]), rest)
  {
    VisiblePrint(data);
    VisibleOneLine(Print(data));
    InterpretField(c, "data", Print(data), "\n" + rest);
    InterpretBlank(ProcessField(c, "data", Print(data)), rest);
    DataDispatched(c, Print(data));
  }

  lemma InterpretId(c: Client, id: Option<string>, rest: string)
    requires id.Some? ==> OneLine(id.value) && '\0' !in id.value
    ensures
      Interpret(c, IdLine(id) + rest)
      == Interpret(c.(lastEventId := if id.Some? then id.value else c.lastEventId), rest)
  {
    if id.Some? {
      assert ("id: " + id.value + "\n") + rest == ("id" + (": " + id.value)) + ("\n" + rest);
      InterpretField(c, "id", id.value, rest);
    } else {
      assert "" + rest == rest;
      assert c.(lastEventId := c.lastEventId) == c;
    }
  }

  lemma HeadShape(event: string, idLine: string, d: string, rest: string)
    ensures ("event: " + event + "\n" + idLine + d) + rest
         == ("event" + (": " + event)) + ("\n" + (idLine + (d + rest)))
  {
  }

  lemma DataShape(text: string, rest: string)
    ensures ("data: " + text + "\n\n") + rest == ("data" + (": " + text)) + ("\n" + ("\n" + rest))
  {
  }

  lemma EventShape(event: string, id: Option<string>, data: Json, rest: string)
    ensures
      var dataLine := "data" + (": " + Print(data));
      FormatEvent(event, id, data) + rest
      == ("event" + (": " + event)) + ("\n" + (IdLine(id) + (dataLine + ("\n" + ("\n" + rest)))))
  {
    var d := "data: " + Print(data) + "\n\n";
    DataShape(Print(data), rest);
    HeadShape(event, IdLine(id), d, rest);
  }

  lemma InterpretEvent(c: Client, event: string, id: Option<string>, data: Json, rest: string)
    requires BetweenFrames(c) && CleanFrame(Event(event, id, data))
    ensures Interpret(c, FormatEvent(event, id, data) + rest) == Interpret(ApplyFrame(c, Event(event, id, data)), rest)
  {
    EventShape(event, id, data, rest);
    var dataPart := ("data" + (": " + Print(data))) + ("\n" + ("\n" + rest));
    InterpretField(c, "event", event, IdLine(id) + dataPart);
    var c1 := c.(typeBuffer := event);
    InterpretId(c1, id, dataPart);
    InterpretData(c1.(lastEventId := if id.Some? then id.value else c.lastEventId), data, rest);
  }

  lemma InterpretFrame(c: Client, f: Frame, rest: string)
    requires BetweenFrames(c) && CleanFrame(f)
    ensures Interpret(c, Format(f) + rest) == Interpret(ApplyFrame(c, f), rest)
    ensures BetweenFrames(ApplyFrame(c, f))
  {
    match f
    case Retry(ms) => InterpretRetry(c, ms, rest);
    case Comment(text) => InterpretComment(c, text, rest);
    case Event(event, id, data) => InterpretEvent(c, event, id, data, rest);
  }

  /**
   * A conforming client that reads any concatenation of frames sees exactly
   * the events emitted, in order, each with its name, its data and the sticky
   * last event id, and the last valid reconnection time.
   */
  lemma {:induction false} ClientSeesFrames(c: Client, fs: seq<Frame>)
    requires BetweenFrames(c) && forall i :: 0 <= i < |fs| ==> CleanFrame(fs[i])
    ensures Interpret(c, FormatAll(fs)) == ApplyAll(c, fs)
    decreases |fs|
  {
    if fs != [] {
      InterpretFrame(c, fs[0], FormatAll(fs[1..]));
      ClientSeesFrames(ApplyFrame(c, fs[0]), fs[1..]);
    }
  }

  /** A comment keeps every character but line breaks, which become blanks. */
  lemma {:induction false} UnbreakExactly(text: string, i: nat)
    requires i < |text|
    ensures |Unbreak(text)| == |text|
    ensures Unbreak(text)[i] == if text[i] == '\n' || text[i] == '\r' then ' ' else text[i]
  {
    if |text| > 1 {
      UnbreakExactly(text[1..], if i > 0 then i - 1 else 0);
    }
  }

  /** The frames as they stand on the wire. */
  lemma FrameTexts(event: string, id: string, data: Json, ms: nat)
    ensures Format(Event(event, Some(id), data))
         == "event: " + event + "\n" + ("id: " + id + "\n") + "data: " + Print(data) + "\n\n"
    ensures Format(Retry(ms)) == "retry: " + Show(ms, Ten) + "\n\n"
    ensures Format(Comment(event)) == ": " + Unbreak(event) + "\n\n"
  {
  }
}
