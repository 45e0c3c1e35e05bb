/**
 * The fragment of Python's `json` module the proxy relies on: `json.dumps`
 * with compact separators and ASCII-only output, and `json.loads`, over null,
 * booleans, integers, strings, lists and dictionaries.
 */
module JsonText {
  import opened Strings
  import opened Numerals

  /** A dictionary is its members in insertion order. */
  datatype Json =
    | Null
    | Bool(b: bool)
    | Int(n: int)
    | Str(s: string)
    | Arr(items: seq<Json>)
    | Obj(members: seq<Member>)

  datatype Member = Member(key: string, value: Json)

  /** What a parser made of a text: a value and the text after it. */
  datatype Parsed<+T> = Fail | Got(value: T, rest: string)

  ghost predicate DistinctKeys(ms: seq<Member>) {
    forall i, j :: 0 <= i < j < |ms| ==> ms[i].key != ms[j].key
  }

  /** Every dictionary inside has distinct keys, as Python's have. */
  ghost predicate WellFormed(j: Json) {
    match j
    case Arr(items) => forall i :: 0 <= i < |items| ==> WellFormed(items[i])
    case Obj(members) =>
      DistinctKeys(members) && forall i :: 0 <= i < |members| ==> WellFormed(members[i].value)
    case _ => true
  }

  // ---------------------------------------------------------------------
  // Printing
  // ---------------------------------------------------------------------

  function Hex4(n: nat): (s: string)
    ensures |s| == 4
  {
    Text(Fixed(n, Sixteen, 4), Sixteen)
  }

  const BACKSPACE: char := '\U{0008}'
  const FORM_FEED: char := '\U{000C}'

  predicate Plain(c: char) {
    ' ' <= c <= '~' && c != '\"' && c != '\\'
  }

  /** Surrogate halves of a code point above the basic plane. */
  function HighHalf(n: nat): nat
    requires 0x10000 <= n < 0x110000
  {
    0xD800 + (n - 0x10000) / 0x400
  }

  function LowHalf(n: nat): nat
    requires 0x10000 <= n < 0x110000
  {
    0xDC00 + (n - 0x10000) % 0x400
  }

  /** The letter after the backslash in a two-character escape, or a space. */
  function ShortEscape(c: char): char {
    if c == '\"' then '\"' else if c == '\\' then '\\'
    else if c == '\n' then 'n' else if c == '\r' then 'r' else if c == '\t' then 't'
    else if c == BACKSPACE then 'b' else if c == FORM_FEED then 'f' else ' '
  }

  function EscapeChar(c: char): string {
    if Plain(c) then [c]
    else if ShortEscape(c) != ' ' then ['\\', ShortEscape(c)]
    else if c as int < 0x10000 then "\\u" + Hex4(c as int)
    else ("\\u" + Hex4(HighHalf(c as int))) + ("\\u" + Hex4(LowHalf(c as int)))
  }

  function Escape(s: string): string {
    if s == "" then "" else EscapeChar(s[0]) + Escape(s[1..])
  }

  function Quote(s: string): string {
    "\"" + (Escape(s) + "\"")
  }

  function ShowInt(n: int): string {
    if n < 0 then "-" + Show(-n, Ten) else Show(n, Ten)
  }

  function Print(j: Json): string
    decreases j, 1
  {
    match j
    case Null => "null"
    case Bool(b) => if b then "true" else "false"
    case Int(n) => ShowInt(n)
    case Str(s) => Quote(s)
    case Arr(items) => "[" + (PrintItems(items) + "]")
    case Obj(members) => "{" + (PrintMembers(members) + "}")
  }

  function PrintItems(items: seq<Json>): string
    decreases items, 0
  {
    if items == [] then ""
    else if |items| == 1 then Print(items[0])
    else Print(items[0]) + ("," + PrintItems(items[1..]))
  }

  function PrintMember(m: Member): string
    decreases m, 0
  {
    Quote(m.key) + (":" + Print(m.value))
  }

  function PrintMembers(members: seq<Member>): string
    decreases members, 0
  {
    if members == [] then ""
    else if |members| == 1 then PrintMember(members[0])
    else PrintMember(members[0]) + ("," + PrintMembers(members[1..]))
  }

  // ---------------------------------------------------------------------
  // Parsing
  // ---------------------------------------------------------------------

  function SkipSpace(s: string): (r: string)
    ensures |r| <= |s|
  {
    if s != "" && IsSpace(s[0]) then SkipSpace(s[1..]) else s
  }

  function ReadHex4(s: string): (p: Parsed<nat>)
    ensures p.Got? ==> |p.rest| + 4 == |s|
  {
    if |s| >= 4 && AllDigits(s[..4], Sixteen) then Got(Parse(s[..4], Sixteen), s[4..]) else Fail
  }

  /** The text after a `\u`: one code point, joining surrogate halves. */
  function ReadUnicode(s: string): (p: Parsed<char>)
    ensures p.Got? ==> |p.rest| < |s|
  {
    match ReadHex4(s)
    case Fail => Fail
    case Got(u, t) =>
      if u < 0xD800 || 0xE000 <= u < 0x10000 then Got(u as char, t)
      else if u < 0xDC00 && "\\u" <= t then
        match ReadHex4(t[2..])
        case Fail => Fail
        case Got(v, w) =>
          if 0xDC00 <= v < 0xE000 then Got((0x10000 + (u - 0xD800) * 0x400 + (v - 0xDC00)) as char, w) else Fail
      else Fail
  }

  function ShortUnescape(c: char): Parsed<char> {
    if c == '\"' || c == '\\' || c == '/' then Got(c, "")
    else if c == 'n' then Got('\n', "") else if c == 'r' then Got('\r', "") else if c == 't' then Got('\t', "")
    else if c == 'b' then Got(BACKSPACE, "") else if c == 'f' then Got(FORM_FEED, "") else Fail
  }

  /** The text after a backslash. */
  function ReadEscape(s: string): (p: Parsed<char>)
    ensures p.Got? ==> |p.rest| < |s|
  {
    if s == "" then Fail
    else if s[0] == 'u' then ReadUnicode(s[1..])
    else
      match ShortUnescape(s[0])
      case Fail => Fail
      case Got(c, _) => Got(c, s[1..])
  }

  /** One character of a string literal. */
  function ReadChar(s: string): (p: Parsed<char>)
    ensures p.Got? ==> |p.rest| < |s|
  {
    if s == "" || s[0] < ' ' || s[0] == '\"' then Fail
    else if s[0] == '\\' then ReadEscape(s[1..])
    else Got(s[0], s[1..])
  }

  /** The rest of a string literal, up to its closing quote. */
  function ReadString(s: string): (p: Parsed<string>)
    ensures p.Got? ==> |p.rest| < |s|
  {
    if s != "" && s[0] == '\"' then Got("", s[1..])
    else
      match ReadChar(s)
      case Fail => Fail
      case Got(c, t) =>
        match ReadString(t)
        case Fail => Fail
        case Got(cs, u) => Got([c] + cs, u)
  }

  function DigitRun(s: string): (n: nat)
    ensures n <= |s| && AllDigits(s[..n], Ten)
  {
    if s != "" && IsDigit(s[0], Ten) then
      var n := 1 + DigitRun(s[1..]);
      assert s[..n] == [s[0]] + s[1..][..n - 1];
      n
    else 0
  }

  /** Digits without a leading zero; fractions and exponents are not modelled. */
  function ReadNatural(s: string): (p: Parsed<nat>)
    ensures p.Got? ==> |p.rest| < |s|
  {
    var n := DigitRun(s);
    if n == 0 then Fail
    else
      var k := if s[0] == '0' then 1 else n;
      if k < |s| && (s[k] == '.' || s[k] == 'e' || s[k] == 'E') then Fail
      else Got(Parse(s[..k], Ten), s[k..])
  }

  function ReadNumber(s: string): (p: Parsed<Json>)
    ensures p.Got? ==> |p.rest| < |s|
  {
    var negative := s != "" && s[0] == '-';
    match ReadNatural(if negative then s[1..] else s)
    case Fail => Fail
    case Got(n, t) => Got(Int(if negative then 0 - n else n), t)
  }

  function ReadWord(s: string): (p: Parsed<Json>)
    ensures p.Got? ==> |p.rest| < |s|
  {
    if "null" <= s then Got(Null, s[4..])
    else if "true" <= s then Got(Bool(true), s[4..])
    else if "false" <= s then Got(Bool(false), s[5..])
    else Fail
  }

  predicate IsWordStart(c: char) {
    c == 'n' || c == 't' || c == 'f'
  }

  function Put(ms: seq<Member>, m: Member): seq<Member> {
    if ms == [] then [m]
    else if ms[0].key == m.key then [m] + ms[1..]
    else [ms[0]] + Put(ms[1..], m)
  }

  /** Building a dictionary from pairs: a repeated key keeps its place and takes the later value. */
  function DictOf(pairs: seq<Member>): seq<Member> {
    if pairs == [] then [] else Put(DictOf(pairs[..|pairs| - 1]), pairs[|pairs| - 1])
  }

  function ReadValue(s: string): (p: Parsed<Json>)
    ensures p.Got? ==> |p.rest| < |s|
    decreases |s|, 0
  {
    if s == "" then Fail
    else if s[0] == '\"' then
      match ReadString(s[1..])
      case Fail => Fail
      case Got(v, t) => Got(Str(v), t)
    else if s[0] == '[' then
      match ReadArray(SkipSpace(s[1..]))
      case Fail => Fail
      case Got(v, t) => Got(Arr(v), t)
    else if s[0] == '{' then
      match ReadObject(SkipSpace(s[1..]))
      case Fail => Fail
      case Got(v, t) => Got(Obj(DictOf(v)), t)
    else if IsWordStart(s[0]) then ReadWord(s)
    else ReadNumber(s)
  }

  function ReadArray(s: string): (p: Parsed<seq<Json>>)
    ensures p.Got? ==> |p.rest| < |s|
    decreases |s|, 2
  {
    if s != "" && s[0] == ']' then Got([], s[1..]) else ReadItems(s)
  }

  function ReadItems(s: string): (p: Parsed<seq<Json>>)
    ensures p.Got? ==> |p.rest| < |s|
    decreases |s|, 1
  {
    match ReadValue(s)
    case Fail => Fail
    case Got(v, t) =>
      var t := SkipSpace(t);
      if t != "" && t[0] == ']' then Got([v], t[1..])
      else if t != "" && t[0] == ',' then
        match ReadItems(SkipSpace(t[1..]))
        case Fail => Fail
        case Got(vs, u) => Got([v] + vs, u)
      else Fail
  }

  function ReadObject(s: string): (p: Parsed<seq<Member>>)
    ensures p.Got? ==> |p.rest| < |s|
    decreases |s|, 2
  {
    if s != "" && s[0] == '}' then Got([], s[1..]) else ReadMembers(s)
  }

  function ReadMember(s: string): (p: Parsed<Member>)
    ensures p.Got? ==> |p.rest| < |s|
    decreases |s|, 0
  {
    if s == "" || s[0] != '\"' then Fail
    else
      match ReadString(s[1..])
      case Fail => Fail
      case Got(k, t) =>
        var t := SkipSpace(t);
        if t == "" || t[0] != ':' then Fail
        else
          match ReadValue(SkipSpace(t[1..]))
          case Fail => Fail
          case Got(v, u) => Got(Member(k, v), u)
  }

  function ReadMembers(s: string): (p: Parsed<seq<Member>>)
    ensures p.Got? ==> |p.rest| < |s|
    decreases |s|, 1
  {
    match ReadMember(s)
    case Fail => Fail
    case Got(m, t) =>
      var t := SkipSpace(t);
      if t != "" && t[0] == '}' then Got([m], t[1..])
      else if t != "" && t[0] == ',' then
        match ReadMembers(SkipSpace(t[1..]))
        case Fail => Fail
        case Got(ms, u) => Got([m] + ms, u)
      else Fail
  }

  /** `json.loads` */
  function Loads(s: string): Parsed<Json> {
    match ReadValue(SkipSpace(s))
    case Fail => Fail
    case Got(v, t) => if SkipSpace(t) == "" then Got(v, "") else Fail
  }
}
