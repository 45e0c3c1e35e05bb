/** `json.loads` inverts compact `json.dumps` on every value of the fragment. */
module JsonRoundTrip {
  import opened Strings
  import opened Numerals
  import opened JsonText

  // ---------------------------------------------------------------------
  // Strings
  // ---------------------------------------------------------------------

  lemma ReadHex4Of(n: nat, t: string)
    requires n < 0x10000
    ensures ReadHex4(Hex4(n) + t) == Got(n, t)
  {
    assert Power(Sixteen, 4) == 0x10000 by {
      assert Power(Sixteen, 2) == 256;
    }
    ValueOfFixed(n, Sixteen, 4);
    ReadText(Fixed(n, Sixteen, 4), Sixteen);
    var s := Hex4(n) + t;
    assert s[..4] == Hex4(n) && s[4..] == t;
  }

  lemma ReadUnicodeOf(n: nat, t: string)
    requires n < 0xD800 || 0xE000 <= n < 0x10000
    ensures ReadUnicode(Hex4(n) + t) == Got(n as char, t)
  {
    ReadHex4Of(n, t);
  }

  lemma ReadSurrogatesOf(c: char, t: string)
    requires 0x10000 <= c as int
    ensures ReadUnicode(Hex4(HighHalf(c as int)) + (("\\u" + Hex4(LowHalf(c as int))) + t)) == Got(c, t)
  {
    var hi, lo := HighHalf(c as int), LowHalf(c as int);
    var u := ("\\u" + Hex4(lo)) + t;
    ReadHex4Of(hi, u);
    assert "\\u" <= u && u[2..] == Hex4(lo) + t;
    ReadHex4Of(lo, t);
    assert 0x10000 + (hi - 0xD800) * 0x400 + (lo - 0xDC00) == c as int;
  }

  lemma ReadEscapedShort(c: char, t: string)
    requires !Plain(c) && ShortEscape(c) != ' '
    ensures ReadChar(EscapeChar(c) + t) == Got(c, t)
  {
    var e := ShortEscape(c);
    var s := EscapeChar(c) + t;
    assert s == ['\\', e] + t;
    assert s[0] == '\\' && s[1..] == [e] + t;
    assert s[1..][1..] == t;
    assert ShortUnescape(e) == Got(c, "");
  }

  lemma ReadBackslashU(h: string, w: string)
    ensures (("\\u" + h) + w)[0] == '\\'
    ensures ReadChar(("\\u" + h) + w) == ReadUnicode(h + w)
  {
    var s := ("\\u" + h) + w;
    assert s[1..][1..] == h + w;
  }

  lemma ReadEscapedUnicode(c: char, t: string)
    requires !Plain(c) && ShortEscape(c) == ' '
    ensures ReadChar(EscapeChar(c) + t) == Got(c, t)
  {
    if c as int < 0x10000 {
      ReadBackslashU(Hex4(c as int), t);
      ReadUnicodeOf(c as int, t);
    } else {
      var high, low := "\\u" + Hex4(HighHalf(c as int)), "\\u" + Hex4(LowHalf(c as int));
      assert EscapeChar(c) + t == high + (low + t);
      ReadBackslashU(Hex4(HighHalf(c as int)), low + t);
      ReadSurrogatesOf(c, t);
    }
  }

  /** One escaped character reads back as that character. */
  lemma ReadEscaped(c: char, t: string)
    ensures ReadChar(EscapeChar(c) + t) == Got(c, t)
    ensures EscapeChar(c)[0] != '\"'
  {
    if Plain(c) {
      assert ([c] + t)[1..] == t;
    } else if ShortEscape(c) != ' ' {
      ReadEscapedShort(c, t);
    } else {
      ReadEscapedUnicode(c, t);
    }
  }

  lemma ReadStringCons(s: string, c: char, u: string, cs: string, t: string)
    requires s != "" && s[0] != '\"' && ReadChar(s) == Got(c, u) && ReadString(u) == Got(cs, t)
    ensures ReadString(s) == Got([c] + cs, t)
  {
  }

  lemma {:induction false} ReadEscape(s: string, t: string)
    ensures ReadString(Escape(s) + ("\"" + t)) == Got(s, t)
  {
    if s == "" {
      assert Escape(s) + ("\"" + t) == "\"" + t;
      assert ("\"" + t)[1..] == t;
    } else {
      var u := Escape(s[1..]) + ("\"" + t);
      assert Escape(s) + ("\"" + t) == EscapeChar(s[0]) + u;
      ReadEscaped(s[0], u);
      ReadEscape(s[1..], t);
      ReadStringCons(EscapeChar(s[0]) + u, s[0], u, s[1..], t);
      assert [s[0]] + s[1..] == s;
    }
  }

  /** A quoted string reads back, whatever follows it. */
  lemma ReadQuoted(s: string, t: string)
    ensures (Quote(s) + t)[0] == '\"'
    ensures ReadString((Quote(s) + t)[1..]) == Got(s, t)
  {
    assert (Quote(s) + t)[1..] == Escape(s) + ("\"" + t);
    ReadEscape(s, t);
  }

  // ---------------------------------------------------------------------
  // Numbers
  // ---------------------------------------------------------------------

  /** What may follow a printed value. */
  predicate Follows(t: string) {
    t == "" || t[0] == ',' || t[0] == ']' || t[0] == '}'
  }

  lemma {:induction false} DigitRunOf(s: string, t: string)
    requires AllDigits(s, Ten) && Follows(t)
    ensures DigitRun(s + t) == |s|
  {
    if s == "" {
      assert s + t == t;
    } else {
      assert (s + t)[1..] == s[1..] + t;
      DigitRunOf(s[1..], t);
    }
  }

  lemma ShowLead(n: nat)
    ensures Show(n, Ten)[0] == '0' ==> |Show(n, Ten)| == 1
    ensures AllDigits(Show(n, Ten), Ten) && '0' <= Show(n, Ten)[0] <= '9'
  {
    DigitsLead(n, Ten);
    ReadText(Digits(n, Ten), Ten);
    CharOfValue(Digits(n, Ten)[0]);
    assert IsDigit(Show(n, Ten)[0], Ten);
  }

  lemma ReadShown(n: nat, t: string)
    requires Follows(t)
    ensures ReadNatural(Show(n, Ten) + t) == Got(n, t)
  {
    var s := Show(n, Ten);
    ShowLead(n);
    ParseShow(n, Ten);
    DigitRunOf(s, t);
    assert (s + t)[..|s|] == s && (s + t)[|s|..] == t;
  }

  lemma ReadSigned(s: string, n: nat, t: string)
    requires ReadNatural(s) == Got(n, t)
    ensures ReadNumber("-" + s) == Got(Int(0 - n), t)
    ensures s != "" && s[0] != '-' ==> ReadNumber(s) == Got(Int(n), t)
  {
    assert ("-" + s)[1..] == s;
  }

  lemma ShowIntOf(n: int, digits: string, t: string)
    requires digits == Show(if n < 0 then -n else n, Ten)
    ensures n < 0 ==> ShowInt(n) + t == "-" + (digits + t) && ShowInt(n)[0] == '-'
    ensures n >= 0 ==> ShowInt(n) + t == digits + t && ShowInt(n) == digits
  {
    if n < 0 {
      assert ("-" + digits) + t == "-" + (digits + t);
    }
  }

  lemma ReadShownInt(n: int, t: string)
    requires Follows(t)
    ensures ReadNumber(ShowInt(n) + t) == Got(Int(n), t)
    ensures ShowInt(n)[0] == '-' || '0' <= ShowInt(n)[0] <= '9'
  {
    var m := if n < 0 then -n else n;
    var digits := Show(m, Ten);
    ReadShown(m, t);
    ShowLead(m);
    ShowIntOf(n, digits, t);
    assert (digits + t)[0] == digits[0] != '-';
    ReadSigned(digits + t, m, t);
  }

  // ---------------------------------------------------------------------
  // Dictionaries
  // ---------------------------------------------------------------------

  lemma {:induction false} PutFresh(ms: seq<Member>, m: Member)
    requires forall i :: 0 <= i < |ms| ==> ms[i].key != m.key
    ensures Put(ms, m) == ms + [m]
  {
    if ms != [] {
      PutFresh(ms[1..], m);
    }
  }

  lemma {:induction false} DictOfDistinct(ms: seq<Member>)
    requires DistinctKeys(ms)
    ensures DictOf(ms) == ms
  {
    if ms != [] {
      var p := ms[..|ms| - 1];
      DictOfDistinct(p);
      PutFresh(p, ms[|ms| - 1]);
    }
  }

  // ---------------------------------------------------------------------
  // Values
  // ---------------------------------------------------------------------

  /** The first character of a printed value: never a space, a closing bracket or a separator. */
  predicate Opens(c: char) {
    !IsSpace(c) && c != ']' && c != '}' && c != ','
  }

  lemma ReadPrintedWord(j: Json, t: string)
    requires j.Null? || j.Bool?
    ensures Print(j) + t != "" && IsWordStart((Print(j) + t)[0])
    ensures ReadWord(Print(j) + t) == Got(j, t)
  {
    var s := Print(j) + t;
    match j
    case Null => assert s[4..] == t;
    case Bool(b) =>
      if b {
        assert s[0] == 't' && s[4..] == t;
      } else {
        assert s[0] == 'f' && s[5..] == t;
      }
  }

  lemma Opened(open: string, body: string, close: string, t: string)
    requires |open| == 1
    ensures ((open + (body + close)) + t)[0] == open[0]
    ensures ((open + (body + close)) + t)[1..] == body + (close + t)
  {
  }

  /** A value that starts with a digit or a sign is a number. */
  lemma NumberValue(s: string)
    requires s != "" && (s[0] == '-' || '0' <= s[0] <= '9')
    ensures ReadValue(s) == ReadNumber(s) && !IsSpace(s[0])
  {
  }

  lemma ReadPrintedInt(n: int, t: string)
    requires Follows(t)
    ensures Print(Int(n)) != "" && Opens(Print(Int(n))[0])
    ensures ReadValue(Print(Int(n)) + t) == Got(Int(n), t)
  {
    ReadShownInt(n, t);
    var s := ShowInt(n) + t;
    assert Print(Int(n)) + t == s;
    assert s[0] == ShowInt(n)[0];
    NumberValue(s);
  }

  lemma ReadPrintedScalar(j: Json, t: string)
    requires Follows(t) && !j.Arr? && !j.Obj?
    ensures Print(j) != "" && Opens(Print(j)[0])
    ensures ReadValue(Print(j) + t) == Got(j, t)
  {
    match j
    case Null => ReadPrintedWord(j, t);
    case Bool(b) => ReadPrintedWord(j, t);
    case Int(n) => ReadPrintedInt(n, t);
    case Str(s) => ReadQuoted(s, t);
  }

  lemma ReadArrayValue(items: seq<Json>, t: string)
    requires ReadArray(SkipSpace(PrintItems(items) + ("]" + t))) == Got(items, t)
    ensures ReadValue(Print(Arr(items)) + t) == Got(Arr(items), t)
  {
    Opened("[", PrintItems(items), "]", t);
  }

  lemma ReadObjectValue(members: seq<Member>, t: string)
    requires DistinctKeys(members)
    requires ReadObject(SkipSpace(PrintMembers(members) + ("}" + t))) == Got(members, t)
    ensures ReadValue(Print(Obj(members)) + t) == Got(Obj(members), t)
  {
    Opened("{", PrintMembers(members), "}", t);
    DictOfDistinct(members);
  }

  lemma {:induction false} ReadPrinted(j: Json, t: string)
    requires WellFormed(j) && Follows(t)
    ensures Print(j) != "" && Opens(Print(j)[0])
    ensures ReadValue(Print(j) + t) == Got(j, t)
    decreases j, 1
  {
    match j
    case Arr(items) =>
      ReadPrintedItems(items, t);
      ReadArrayValue(items, t);
    case Obj(members) =>
      ReadPrintedObject(members, t);
      ReadObjectValue(members, t);
    case _ => ReadPrintedScalar(j, t);
  }

  lemma ReadItemsCons(s: string, j: Json, u: string, js: seq<Json>, t: string)
    requires ReadValue(s) == Got(j, "," + u)
    requires u != "" && !IsSpace(u[0])
    requires ReadItems(u) == Got(js, t)
    ensures ReadItems(s) == Got([j] + js, t)
  {
    assert ("," + u)[1..] == u;
  }

  lemma {:induction false} ReadPrintedItems(items: seq<Json>, t: string)
    requires forall i :: 0 <= i < |items| ==> WellFormed(items[i])
    ensures ReadArray(SkipSpace(PrintItems(items) + ("]" + t))) == Got(items, t)
    ensures items != [] ==>
      && PrintItems(items) != "" && Opens(PrintItems(items)[0])
      && ReadItems(PrintItems(items) + ("]" + t)) == Got(items, t)
    decreases items, 0
  {
    var s := PrintItems(items) + ("]" + t);
    assert ("]" + t)[1..] == t;
    if items == [] {
      assert s == "]" + t;
    } else if |items| == 1 {
      ReadPrinted(items[0], "]" + t);
      assert [items[0]] == items;
    } else {
      var u := PrintItems(items[1..]) + ("]" + t);
      assert s == Print(items[0]) + ("," + u);
      ReadPrinted(items[0], "," + u);
      ReadPrintedItems(items[1..], t);
      assert u[0] == PrintItems(items[1..])[0];
      ReadItemsCons(s, items[0], u, items[1..], t);
      assert [items[0]] + items[1..] == items;
    }
  }

  lemma ReadMemberOf(s: string, m: Member, u: string, t: string)
    requires s != "" && s[0] == '\"' && ReadString(s[1..]) == Got(m.key, ":" + u)
    requires u != "" && !IsSpace(u[0]) && ReadValue(u) == Got(m.value, t)
    ensures ReadMember(s) == Got(m, t)
  {
    assert (":" + u)[1..] == u;
  }

  lemma ColonConcat(key: string, value: string, t: string)
    ensures (key + (":" + value)) + t == key + (":" + (value + t))
  {
    assert (":" + value) + t == ":" + (value + t);
  }

  lemma {:induction false} ReadPrintedMember(m: Member, t: string)
    requires WellFormed(m.value) && Follows(t)
    ensures PrintMember(m)[0] == '\"'
    ensures ReadMember(PrintMember(m) + t) == Got(m, t)
    decreases m, 0
  {
    var u := Print(m.value) + t;
    ColonConcat(Quote(m.key), Print(m.value), t);
    ReadQuoted(m.key, ":" + u);
    ReadPrinted(m.value, t);
    ReadMemberOf(PrintMember(m) + t, m, u, t);
  }

  lemma ReadMembersCons(s: string, m: Member, u: string, ms: seq<Member>, t: string)
    requires ReadMember(s) == Got(m, "," + u)
    requires u != "" && !IsSpace(u[0])
    requires ReadMembers(u) == Got(ms, t)
    ensures ReadMembers(s) == Got([m] + ms, t)
  {
    assert ("," + u)[1..] == u;
  }

  lemma ReadMembersOne(s: string, m: Member, t: string)
    requires ReadMember(s) == Got(m, "}" + t)
    ensures ReadMembers(s) == Got([m], t)
  {
    assert ("}" + t)[1..] == t;
  }

  lemma PrintMembersOpens(members: seq<Member>, t: string)
    requires members != []
    ensures PrintMembers(members) + t != "" && (PrintMembers(members) + t)[0] == '\"'
  {
    assert PrintMember(members[0])[0] == '\"';
    assert PrintMembers(members)[0] == PrintMember(members[0])[0];
  }

  lemma CommaConcat(first: string, others: string, t: string)
    ensures (first + ("," + others)) + t == first + ("," + (others + t))
  {
    assert ("," + others) + t == "," + (others + t);
  }

  lemma PrintMembersSplit(members: seq<Member>, t: string)
    requires |members| > 1
    ensures PrintMembers(members) + t == PrintMember(members[0]) + ("," + (PrintMembers(members[1..]) + t))
  {
    CommaConcat(PrintMember(members[0]), PrintMembers(members[1..]), t);
  }

  lemma {:induction false} ReadPrintedMembers(members: seq<Member>, t: string)
    requires forall i :: 0 <= i < |members| ==> WellFormed(members[i].value)
    requires members != []
    ensures ReadMembers(PrintMembers(members) + ("}" + t)) == Got(members, t)
    decreases members, 0
  {
    var s := PrintMembers(members) + ("}" + t);
    if |members| == 1 {
      ReadPrintedMember(members[0], "}" + t);
      ReadMembersOne(s, members[0], t);
      assert [members[0]] == members;
    } else {
      var u := PrintMembers(members[1..]) + ("}" + t);
      PrintMembersSplit(members, "}" + t);
      ReadPrintedMember(members[0], "," + u);
      ReadPrintedMembers(members[1..], t);
      PrintMembersOpens(members[1..], "}" + t);
      ReadMembersCons(s, members[0], u, members[1..], t);
      assert [members[0]] + members[1..] == members;
    }
  }

  lemma {:induction false} ReadPrintedObject(members: seq<Member>, t: string)
    requires forall i :: 0 <= i < |members| ==> WellFormed(members[i].value)
    ensures ReadObject(SkipSpace(PrintMembers(members) + ("}" + t))) == Got(members, t)
    decreases members, 1
  {
    if members == [] {
      assert PrintMembers(members) + ("}" + t) == "}" + t;
      assert ("}" + t)[1..] == t;
    } else {
      PrintMembersOpens(members, "}" + t);
      ReadPrintedMembers(members, t);
    }
  }

  /** Loading a dumped value gives the value back. */
  lemma LoadsPrint(j: Json)
    requires WellFormed(j)
    ensures Loads(Print(j)) == Got(j, "")
  {
    ReadPrinted(j, "");
    assert Print(j) + "" == Print(j);
  }

  /** The printed form determines the value. */
  lemma PrintInjective(a: Json, b: Json)
    requires WellFormed(a) && WellFormed(b) && Print(a) == Print(b)
    ensures a == b
  {
    LoadsPrint(a);
    LoadsPrint(b);
  }

  // The compact form, spelled out

  lemma CompactList()
    ensures Print(Arr([Null, Bool(true), Bool(false)])) == "[null,true,false]"
  {
    var items := [Null, Bool(true), Bool(false)];
    assert items[1..][1..] == [Bool(false)];
    assert PrintItems([Bool(false)]) == "false";
    assert PrintItems(items[1..]) == "true" + ("," + "false");
    assert PrintItems(items) == "null" + ("," + ("true" + ("," + "false")));
  }

  lemma CompactInts()
    ensures Print(Int(-7)) == "-7" && Print(Int(0)) == "0"
  {
  }

  lemma CompactString()
    ensures Print(Str("x\"\n")) == "\"x\\\"\\n\""
  {
    assert "x\"\n"[1..] == "\"\n" && "\"\n"[1..] == "\n" && "\n"[1..] == "";
    assert Escape("\n") == "\\n" + "";
    assert Escape("\"\n") == "\\\"" + "\\n";
    assert Escape("x\"\n") == "x" + "\\\"\\n";
  }

  lemma CompactObject()
    ensures Print(Obj([Member("a", Null), Member("b", Bool(true))])) == "{\"a\":null,\"b\":true}"
  {
    assert "a"[1..] == "" && "b"[1..] == "";
    assert Escape("a") == "a" && Escape("b") == "b";
    var a, b := Member("a", Null), Member("b", Bool(true));
    assert PrintMember(a) == ("\"" + ("a" + "\"")) + (":" + "null");
    assert PrintMember(b) == ("\"" + ("b" + "\"")) + (":" + "true");
    assert [a, b][1..] == [b];
    assert PrintMembers([a, b]) == PrintMember(a) + ("," + PrintMember(b));
  }
}
