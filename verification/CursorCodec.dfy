/** Opaque pagination cursors: base64url over JSON (src/exec_rest_api/cursor.py). */
module CursorCodec {
  import opened Wrappers
  import opened JsonText
  import opened JsonRoundTrip
  import opened JsonVisible
  import opened Base64Url

  datatype CursorError =
    | Empty
    | NotBase64
    | NotJson
    | NotObject
    | MissingField
    | WrongType

  datatype Cursor = Cursor(
    nextFromBlock: int,
    lastLogIndex: int,
    toBlock: int,
    boundaryBlockHash: string,
    filter: seq<Member>)

  datatype TraceCursor = TraceCursor(after: int, fromBlock: int, toBlock: int, filter: seq<Member>)

  // ---------------------------------------------------------------------
  // Text and bytes
  // ---------------------------------------------------------------------

  /** `str.encode("utf-8")` of text below U+0080. */
  function ToBytes(s: string): (r: seq<Byte>)
    ensures |r| == |s|
  {
    seq(|s|, i requires 0 <= i < |s| => (if s[i] as int < 128 then s[i] as int else 63))
  }

  /** `bytes.decode("utf-8")`, for bytes below 0x80. */
  function FromBytes(raw: seq<Byte>): Option<string> {
    if exists i :: 0 <= i < |raw| && raw[i] >= 128 then None
    else Some(seq(|raw|, i requires 0 <= i < |raw| && raw[i] < 128 => raw[i] as char))
  }

  lemma FromToBytes(s: string)
    requires Visible(s)
    ensures FromBytes(ToBytes(s)) == Some(s)
  {
    var raw := ToBytes(s);
    assert forall i :: 0 <= i < |raw| ==> raw[i] < 128 && raw[i] as char == s[i];
    assert FromBytes(raw).value == s;
  }

  // ---------------------------------------------------------------------
  // Payloads
  // ---------------------------------------------------------------------

  function EncodePayload(payload: seq<Member>): string {
    EncodeUnpadded(ToBytes(Print(Obj(payload))))
  }

  function DecodePayload(encoded: string): Result<seq<Member>, CursorError> {
    if encoded == "" then Err(Empty)
    else
      match DecodeUnpadded(encoded)
      case None => Err(NotBase64)
      case Some(raw) =>
        match FromBytes(raw)
        case None => Err(NotJson)
        case Some(text) =>
          match Loads(text)
          case Fail => Err(NotJson)
          case Got(value, _) => if value.Obj? then Ok(value.members) else Err(NotObject)
  }

  lemma PayloadRoundTrip(payload: seq<Member>)
    requires WellFormed(Obj(payload))
    ensures DecodePayload(EncodePayload(payload)) == Ok(payload)
    ensures Unpadded(EncodePayload(payload))
  {
    var text := Print(Obj(payload));
    VisiblePrint(Obj(payload));
    FromToBytes(text);
    UnpaddedRoundTrip(ToBytes(text));
    LoadsPrint(Obj(payload));
    assert |text| >= 2;
  }

  /** `payload[key]` */
  function Lookup(payload: seq<Member>, key: string): Option<Json> {
    if payload == [] then None
    else if payload[0].key == key then Some(payload[0].value)
    else Lookup(payload[1..], key)
  }

  // ---------------------------------------------------------------------
  // Log cursors
  // ---------------------------------------------------------------------

  function CursorPayload(c: Cursor): seq<Member> {
    [ Member("kind", Str("logs")),
      Member("nextFromBlock", Int(c.nextFromBlock)),
      Member("lastLogIndex", Int(c.lastLogIndex)),
      Member("toBlock", Int(c.toBlock)),
      Member("boundaryBlockHash", Str(c.boundaryBlockHash)),
      Member("filter", Obj(c.filter)) ]
  }

  function EncodeCursor(c: Cursor): string {
    EncodePayload(CursorPayload(c))
  }

  function CursorOf(payload: seq<Member>): Result<Cursor, CursorError> {
    var next, last, upTo, hash, filter :=
      Lookup(payload, "nextFromBlock"), Lookup(payload, "lastLogIndex"), Lookup(payload, "toBlock"),
      Lookup(payload, "boundaryBlockHash"), Lookup(payload, "filter");
    if next.None? || last.None? || upTo.None? || hash.None? || filter.None? then Err(MissingField)
    else if !next.value.Int? || !last.value.Int? || !upTo.value.Int? || !hash.value.Str? || !filter.value.Obj?
    then Err(WrongType)
    else Ok(Cursor(next.value.n, last.value.n, upTo.value.n, hash.value.s, filter.value.members))
  }

  function DecodeCursor(encoded: string): Result<Cursor, CursorError> {
    match DecodePayload(encoded)
    case Err(e) => Err(e)
    case Ok(payload) => CursorOf(payload)
  }

  // ---------------------------------------------------------------------
  // Trace cursors
  // ---------------------------------------------------------------------

  function TracePayload(c: TraceCursor): seq<Member> {
    [ Member("kind", Str("traces")),
      Member("after", Int(c.after)),
      Member("fromBlock", Int(c.fromBlock)),
      Member("toBlock", Int(c.toBlock)),
      Member("filter", Obj(c.filter)) ]
  }

  function EncodeTraceCursor(c: TraceCursor): string {
    EncodePayload(TracePayload(c))
  }

  function TraceCursorOf(payload: seq<Member>): Result<TraceCursor, CursorError> {
    var after, first, upTo, filter :=
      Lookup(payload, "after"), Lookup(payload, "fromBlock"), Lookup(payload, "toBlock"), Lookup(payload, "filter");
    if after.None? || first.None? || upTo.None? || filter.None? then Err(MissingField)
    else if !after.value.Int? || !first.value.Int? || !upTo.value.Int? || !filter.value.Obj? then Err(WrongType)
    else Ok(TraceCursor(after.value.n, first.value.n, upTo.value.n, filter.value.members))
  }

  function DecodeTraceCursor(encoded: string): Result<TraceCursor, CursorError> {
    match DecodePayload(encoded)
    case Err(e) => Err(e)
    case Ok(payload) => TraceCursorOf(payload)
  }

  // ---------------------------------------------------------------------
  // Round trips
  // ---------------------------------------------------------------------

  lemma CursorPayloadWellFormed(c: Cursor)
    requires WellFormed(Obj(c.filter))
    ensures WellFormed(Obj(CursorPayload(c)))
  {
  }

  lemma TracePayloadWellFormed(c: TraceCursor)
    requires WellFormed(Obj(c.filter))
    ensures WellFormed(Obj(TracePayload(c)))
  {
  }

  lemma LookupFound(payload: seq<Member>, i: nat)
    requires DistinctKeys(payload) && i < |payload|
    ensures Lookup(payload, payload[i].key) == Some(payload[i].value)
  {
    if i > 0 {
      LookupFound(payload[1..], i - 1);
    }
  }

  lemma LookupMissing(payload: seq<Member>, key: string)
    requires forall i :: 0 <= i < |payload| ==> payload[i].key != key
    ensures Lookup(payload, key) == None
  {
  }

  lemma CursorOfPayload(c: Cursor)
    ensures CursorOf(CursorPayload(c)) == Ok(c)
    ensures TraceCursorOf(CursorPayload(c)) == Err(MissingField)
  {
    var p := CursorPayload(c);
    LookupFound(p, 1);
    LookupFound(p, 2);
    LookupFound(p, 3);
    LookupFound(p, 4);
    LookupFound(p, 5);
    LookupMissing(p, "after");
  }

  lemma TraceCursorOfPayload(c: TraceCursor)
    ensures TraceCursorOf(TracePayload(c)) == Ok(c)
    ensures CursorOf(TracePayload(c)) == Err(MissingField)
  {
    var p := TracePayload(c);
    LookupFound(p, 1);
    LookupFound(p, 2);
    LookupFound(p, 3);
    LookupFound(p, 4);
    LookupMissing(p, "nextFromBlock");
  }

  /** A payload is read as a cursor exactly when it has these fields with these types. */
  lemma CursorOfExactly(p: seq<Member>, c: Cursor)
    ensures CursorOf(p) == Ok(c) <==>
      && Lookup(p, "nextFromBlock") == Some(Int(c.nextFromBlock))
      && Lookup(p, "lastLogIndex") == Some(Int(c.lastLogIndex))
      && Lookup(p, "toBlock") == Some(Int(c.toBlock))
      && Lookup(p, "boundaryBlockHash") == Some(Str(c.boundaryBlockHash))
      && Lookup(p, "filter") == Some(Obj(c.filter))
  {
  }

  lemma TraceCursorOfExactly(p: seq<Member>, c: TraceCursor)
    ensures TraceCursorOf(p) == Ok(c) <==>
      && Lookup(p, "after") == Some(Int(c.after))
      && Lookup(p, "fromBlock") == Some(Int(c.fromBlock))
      && Lookup(p, "toBlock") == Some(Int(c.toBlock))
      && Lookup(p, "filter") == Some(Obj(c.filter))
  {
  }

  /** A log cursor survives its trip through the client and is not mistaken for a trace cursor. */
  lemma CursorRoundTrip(c: Cursor)
    requires WellFormed(Obj(c.filter))
    ensures DecodeCursor(EncodeCursor(c)) == Ok(c)
    ensures DecodeTraceCursor(EncodeCursor(c)).Err?
    ensures Unpadded(EncodeCursor(c))
  {
    CursorPayloadWellFormed(c);
    PayloadRoundTrip(CursorPayload(c));
    CursorOfPayload(c);
  }

  lemma TraceCursorRoundTrip(c: TraceCursor)
    requires WellFormed(Obj(c.filter))
    ensures DecodeTraceCursor(EncodeTraceCursor(c)) == Ok(c)
    ensures DecodeCursor(EncodeTraceCursor(c)).Err?
    ensures Unpadded(EncodeTraceCursor(c))
  {
    TracePayloadWellFormed(c);
    PayloadRoundTrip(TracePayload(c));
    TraceCursorOfPayload(c);
  }
}
