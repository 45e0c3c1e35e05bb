/**
 * Unpadded base64url over bytes: `base64.urlsafe_b64encode(raw).rstrip("=")`
 * and the decoder that restores the padding from the length
 * (src/exec_rest_api/cursor.py; alphabet of section 5 of RFC 4648).
 */
module Base64Url {
  import opened Wrappers
  import opened Strings

  type Byte = b: int | 0 <= b < 256

  function SextetChar(v: nat): char
    requires v < 64
  {
    if v < 26 then ('A' as int + v) as char
    else if v < 52 then ('a' as int + (v - 26)) as char
    else if v < 62 then ('0' as int + (v - 52)) as char
    else if v == 62 then '-' else '_'
  }

  /** The value of an alphabet character, or 64. */
  function SextetValue(c: char): nat {
    if 'A' <= c <= 'Z' then c as int - 'A' as int
    else if 'a' <= c <= 'z' then c as int - 'a' as int + 26
    else if '0' <= c <= '9' then c as int - '0' as int + 52
    else if c == '-' then 62
    else if c == '_' then 63
    else 64
  }

  predicate InAlphabet(c: char) {
    SextetValue(c) < 64
  }

  lemma SextetRoundTrip(v: nat)
    requires v < 64
    ensures SextetValue(SextetChar(v)) == v
  {
  }

  /** Table 2 of RFC 4648. */
  const ALPHABET: string := UPPER + LOWER + "0123456789-_"

  lemma UpperTable(i: nat)
    requires i < 26
    ensures UPPER[i] == ('A' as int + i) as char
  {
  }

  lemma LowerTable(i: nat)
    requires i < 26
    ensures LOWER[i] == ('a' as int + i) as char
  {
  }

  lemma SextetTable(v: nat)
    requires v < 64
    ensures SextetChar(v) == ALPHABET[v]
  {
    if v < 26 {
      UpperTable(v);
    } else if v < 52 {
      LowerTable(v - 26);
    }
  }

  // ---------------------------------------------------------------------
  // One quantum: three bytes to four characters, padded with '='
  // ---------------------------------------------------------------------

  function Quad(a: Byte, b: Byte, c: Byte): (nat, nat, nat, nat) {
    (a / 4, (a % 4) * 16 + b / 16, (b % 16) * 4 + c / 64, c % 64)
  }

  /** Three bytes and their four sextets are the same 24-bit number. */
  lemma QuadValue(a: Byte, b: Byte, c: Byte)
    ensures
      var (p, q, r, s) := Quad(a, b, c);
      p * 0x40000 + q * 0x1000 + r * 0x40 + s == a * 0x10000 + b * 0x100 + c
  {
  }

  /** `base64.urlsafe_b64encode` */
  function Encode(raw: seq<Byte>): string {
    if raw == [] then ""
    else if |raw| == 1 then
      var (p, q, _, _) := Quad(raw[0], 0, 0);
      [SextetChar(p), SextetChar(q), '=', '=']
    else if |raw| == 2 then
      var (p, q, r, _) := Quad(raw[0], raw[1], 0);
      [SextetChar(p), SextetChar(q), SextetChar(r), '=']
    else
      var (p, q, r, s) := Quad(raw[0], raw[1], raw[2]);
      [SextetChar(p), SextetChar(q), SextetChar(r), SextetChar(s)] + Encode(raw[3..])
  }

  /** The bytes of four sextets. */
  function Unquad(p: nat, q: nat, r: nat, s: nat): (Byte, Byte, Byte)
    requires p < 64 && q < 64 && r < 64 && s < 64
  {
    (p * 4 + q / 16, (q % 16) * 16 + r / 4, (r % 4) * 64 + s)
  }

  /** `base64.urlsafe_b64decode` of canonically padded text. */
  function Decode(text: string): Option<seq<Byte>> {
    if text == "" then Some([])
    else if |text| < 4 || !InAlphabet(text[0]) || !InAlphabet(text[1]) then None
    else
      var p, q := SextetValue(text[0]), SextetValue(text[1]);
      if text[2..] == "==" then Some([Unquad(p, q, 0, 0).0])
      else if !InAlphabet(text[2]) then None
      else
        var r := SextetValue(text[2]);
        if text[3..] == "=" then Some([Unquad(p, q, r, 0).0, Unquad(p, q, r, 0).1])
        else if !InAlphabet(text[3]) then None
        else
          var (a, b, c) := Unquad(p, q, r, SextetValue(text[3]));
          match Decode(text[4..])
          case None => None
          case Some(rest) => Some([a, b, c] + rest)
  }

  // ---------------------------------------------------------------------
  // Stripping and restoring the padding
  // ---------------------------------------------------------------------

  /** `s.rstrip("=")` */
  function StripPadding(s: string): string {
    if s != "" && s[|s| - 1] == '=' then StripPadding(s[..|s| - 1]) else s
  }

  /** `"=" * (-len(s) % 4)` */
  function Padding(s: string): string {
    seq(-|s| % 4, _ => '=')
  }

  function EncodeUnpadded(raw: seq<Byte>): string {
    StripPadding(Encode(raw))
  }

  function DecodeUnpadded(text: string): Option<seq<Byte>> {
    Decode(text + Padding(text))
  }

  // ---------------------------------------------------------------------
  // Round trip
  // ---------------------------------------------------------------------

  lemma Sextets(a: Byte, b: Byte, c: Byte)
    ensures var (p, q, r, s) := Quad(a, b, c); p < 64 && q < 64 && r < 64 && s < 64
  {
  }

  lemma QuadRange(a: Byte, b: Byte, c: Byte)
    ensures var (p, q, r, s) := Quad(a, b, c); p < 64 && q < 64 && r < 64 && s < 64 && Unquad(p, q, r, s) == (a, b, c)
  {
    Sextets(a, b, c);
    var (p, q, r, s) := Quad(a, b, c);
    assert q / 16 == a % 4 && q % 16 == b / 16;
    assert r / 4 == b % 16 && r % 4 == c / 64;
  }

  lemma DecodeThree(a: Byte, b: Byte, c: Byte, rest: string)
    requires Decode(rest).Some?
    ensures
      var (p, q, r, s) := Quad(a, b, c);
      Decode([SextetChar(p), SextetChar(q), SextetChar(r), SextetChar(s)] + rest)
      == Some([a, b, c] + Decode(rest).value)
  {
    QuadRange(a, b, c);
    var (p, q, r, s) := Quad(a, b, c);
    SextetRoundTrip(p);
    SextetRoundTrip(q);
    SextetRoundTrip(r);
    SextetRoundTrip(s);
    var t := [SextetChar(p), SextetChar(q), SextetChar(r), SextetChar(s)] + rest;
    assert t[2..][0] == SextetChar(r);
    assert t[3..][0] == SextetChar(s);
    assert t[4..] == rest;
  }

  lemma DecodeTwo(a: Byte, b: Byte)
    ensures Decode(Encode([a, b])) == Some([a, b])
  {
    QuadRange(a, b, 0);
    var (p, q, r, s) := Quad(a, b, 0);
    SextetRoundTrip(p);
    SextetRoundTrip(q);
    SextetRoundTrip(r);
    var t := Encode([a, b]);
    assert t[2..][0] == SextetChar(r);
    assert t[3..] == "=";
  }

  lemma DecodeOne(a: Byte)
    ensures Decode(Encode([a])) == Some([a])
  {
    QuadRange(a, 0, 0);
    var (p, q, r, s) := Quad(a, 0, 0);
    SextetRoundTrip(p);
    SextetRoundTrip(q);
    assert Encode([a])[2..] == "==";
  }

  lemma EncodeLonger(raw: seq<Byte>)
    requires |raw| >= 3
    ensures
      var (p, q, r, s) := Quad(raw[0], raw[1], raw[2]);
      Encode(raw) == [SextetChar(p), SextetChar(q), SextetChar(r), SextetChar(s)] + Encode(raw[3..])
  {
  }

  lemma FirstThree(raw: seq<Byte>)
    requires |raw| >= 3
    ensures raw == [raw[0], raw[1], raw[2]] + raw[3..]
  {
  }

  lemma {:induction false} DecodeEncode(raw: seq<Byte>)
    ensures Decode(Encode(raw)) == Some(raw)
  {
    if raw == [] {
    } else if |raw| == 1 {
      DecodeOne(raw[0]);
      assert raw == [raw[0]];
    } else if |raw| == 2 {
      DecodeTwo(raw[0], raw[1]);
      assert raw == [raw[0], raw[1]];
    } else {
      DecodeEncode(raw[3..]);
      DecodeThree(raw[0], raw[1], raw[2], Encode(raw[3..]));
      EncodeLonger(raw);
      FirstThree(raw);
    }
  }

  ghost predicate Unpadded(s: string) {
    forall i :: 0 <= i < |s| ==> InAlphabet(s[i])
  }

  lemma QuadAlphabet(a: Byte, b: Byte, c: Byte)
    ensures
      var (p, q, r, s) := Quad(a, b, c);
      Unpadded([SextetChar(p), SextetChar(q), SextetChar(r), SextetChar(s)])
  {
    QuadRange(a, b, c);
    var (p, q, r, s) := Quad(a, b, c);
    SextetRoundTrip(p);
    SextetRoundTrip(q);
    SextetRoundTrip(r);
    SextetRoundTrip(s);
  }

  lemma PrependQuad(head: string, tail: string)
    requires |head| == 4 && Unpadded(head) && Unpadded(tail)
    ensures Unpadded(head + tail) && Padding(head + tail) == Padding(tail)
    ensures head + (tail + Padding(tail)) == (head + tail) + Padding(head + tail)
  {
    assert -|head + tail| % 4 == -|tail| % 4;
  }

  /** Padded text is alphabet characters and then exactly the padding their number calls for. */
  lemma {:induction false} EncodeShape(raw: seq<Byte>) returns (body: string)
    ensures Encode(raw) == body + Padding(body) && Unpadded(body)
    ensures body == "" <==> raw == []
  {
    if raw == [] {
      body := "";
    } else if |raw| == 1 {
      QuadAlphabet(raw[0], 0, 0);
      body := Encode(raw)[..2];
      assert Encode(raw) == body + "==";
      assert Padding(body) == "==";
    } else if |raw| == 2 {
      QuadAlphabet(raw[0], raw[1], 0);
      body := Encode(raw)[..3];
      assert Encode(raw) == body + "=";
      assert Padding(body) == "=";
    } else {
      QuadAlphabet(raw[0], raw[1], raw[2]);
      var tail := EncodeShape(raw[3..]);
      var head := Encode(raw)[..4];
      assert Encode(raw) == head + Encode(raw[3..]);
      PrependQuad(head, tail);
      body := head + tail;
    }
  }

  lemma {:induction false} StripBody(body: string, n: nat)
    requires Unpadded(body)
    ensures StripPadding(body + seq(n, _ => '=')) == body
    decreases n
  {
    var s := body + seq(n, _ => '=');
    if n > 0 {
      assert s[..|s| - 1] == body + seq(n - 1, _ => '=');
      StripBody(body, n - 1);
    } else {
      assert s == body;
      assert body != "" ==> body[|body| - 1] != '=';
    }
  }

  /**
   * The unpadded text uses the alphabet only, `-len % 4` restores exactly the
   * padding that was stripped, and decoding gives the bytes back.
   */
  lemma UnpaddedRoundTrip(raw: seq<Byte>)
    ensures Unpadded(EncodeUnpadded(raw))
    ensures EncodeUnpadded(raw) + Padding(EncodeUnpadded(raw)) == Encode(raw)
    ensures DecodeUnpadded(EncodeUnpadded(raw)) == Some(raw)
    ensures EncodeUnpadded(raw) == "" <==> raw == []
  {
    var body := EncodeShape(raw);
    StripBody(body, -|body| % 4);
    DecodeEncode(raw);
  }
}
