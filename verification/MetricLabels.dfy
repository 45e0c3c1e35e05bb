/** Rendering of metric labels in Prometheus text format (src/exec_rest_api/metrics.py). */
module MetricLabels {
  import opened JsonText

  datatype Label = Label(key: string, value: string)

  /** `s.replace(c, by)` for a one-character pattern. */
  function Replace(s: string, c: char, sub: string): string {
    if s == "" then "" else (if s[0] == c then sub else [s[0]]) + Replace(s[1..], c, sub)
  }

  /** `_escape_label_value`: three replacements, one after the other. */
  function EscapeValue(v: string): string {
    Replace(Replace(Replace(v, '\\', "\\\\"), '\n', "\\n"), '\"', "\\\"")
  }

  function EscapeOne(c: char): string {
    if c == '\\' then "\\\\" else if c == '\n' then "\\n" else if c == '\"' then "\\\"" else [c]
  }

  function EscapeEach(v: string): string {
    if v == "" then "" else EscapeOne(v[0]) + EscapeEach(v[1..])
  }

  function FormatLabel(l: Label): string {
    l.key + ("=\"" + (EscapeValue(l.value) + "\""))
  }

  function Join(ls: seq<Label>): string {
    if ls == [] then ""
    else if |ls| == 1 then FormatLabel(ls[0])
    else FormatLabel(ls[0]) + ("," + Join(ls[1..]))
  }

  /** `_format_labels` */
  function FormatLabels(ls: seq<Label>): string {
    if ls == [] then "" else "{" + (Join(ls) + "}")
  }

  // ---------------------------------------------------------------------
  // The chain of replacements is one character map
  // ---------------------------------------------------------------------

  lemma {:induction false} ReplaceConcat(a: string, b: string, c: char, sub: string)
    ensures Replace(a + b, c, sub) == Replace(a, c, sub) + Replace(b, c, sub)
  {
    if a == "" {
      assert a + b == b;
    } else {
      assert (a + b)[1..] == a[1..] + b;
      ReplaceConcat(a[1..], b, c, sub);
    }
  }

  lemma ReplaceOne(x: char, c: char, sub: string)
    ensures Replace([x], c, sub) == if x == c then sub else [x]
  {
    assert [x][1..] == "";
  }

  lemma ReplaceTwo(x: char, y: char, c: char, sub: string)
    ensures Replace([x, y], c, sub) == (if x == c then sub else [x]) + (if y == c then sub else [y])
  {
    assert [x, y][1..] == [y];
    ReplaceOne(y, c, sub);
  }

  lemma EscapeOneChar(c: char)
    ensures EscapeValue([c]) == EscapeOne(c)
  {
    ReplaceOne(c, '\\', "\\\\");
    if c == '\\' {
      ReplaceTwo('\\', '\\', '\n', "\\n");
      ReplaceTwo('\\', '\\', '\"', "\\\"");
    } else if c == '\n' {
      ReplaceOne(c, '\n', "\\n");
      ReplaceTwo('\\', 'n', '\"', "\\\"");
    } else {
      ReplaceOne(c, '\n', "\\n");
      ReplaceOne(c, '\"', "\\\"");
    }
  }

  lemma {:induction false} EscapeIsCharacterMap(v: string)
    ensures EscapeValue(v) == EscapeEach(v)
  {
    if v != "" {
      var a, b := [v[0]], v[1..];
      assert v == a + b;
      ReplaceConcat(a, b, '\\', "\\\\");
      ReplaceConcat(Replace(a, '\\', "\\\\"), Replace(b, '\\', "\\\\"), '\n', "\\n");
      ReplaceConcat(Replace(Replace(a, '\\', "\\\\"), '\n', "\\n"),
                    Replace(Replace(b, '\\', "\\\\"), '\n', "\\n"), '\"', "\\\"");
      EscapeOneChar(v[0]);
      EscapeIsCharacterMap(b);
    }
  }

  // ---------------------------------------------------------------------
  // A reader
  // ---------------------------------------------------------------------

  /** A quoted value up to its closing quote, the escapes undone. */
  function ReadQuotedValue(s: string): (p: Parsed<string>)
    ensures p.Got? ==> |p.rest| < |s|
  {
    if s == "" then Fail
    else if s[0] == '\"' then Got("", s[1..])
    else if s[0] != '\\' then
      match ReadQuotedValue(s[1..])
      case Fail => Fail
      case Got(v, t) => Got([s[0]] + v, t)
    else if |s| < 2 || (s[1] != '\\' && s[1] != 'n' && s[1] != '\"') then Fail
    else
      match ReadQuotedValue(s[2..])
      case Fail => Fail
      case Got(v, t) => Got([if s[1] == 'n' then '\n' else s[1]] + v, t)
  }

  function EqualsAt(s: string): (n: nat)
    ensures n <= |s|
  {
    if s == "" || s[0] == '=' then 0 else 1 + EqualsAt(s[1..])
  }

  function ReadLabel(s: string): (p: Parsed<Label>)
    ensures p.Got? ==> |p.rest| < |s|
  {
    var n := EqualsAt(s);
    if n + 1 >= |s| || s[n + 1] != '\"' then Fail
    else
      match ReadQuotedValue(s[n + 2..])
      case Fail => Fail
      case Got(v, t) => Got(Label(s[..n], v), t)
  }

  function ReadLabelList(s: string): Parsed<seq<Label>>
    decreases |s|
  {
    match ReadLabel(s)
    case Fail => Fail
    case Got(l, t) =>
      if t != "" && t[0] == '}' then Got([l], t[1..])
      else if t != "" && t[0] == ',' then
        match ReadLabelList(t[1..])
        case Fail => Fail
        case Got(ls, u) => Got([l] + ls, u)
      else Fail
  }

  /** The labels in front of a rendered series' value. */
  function ReadLabels(s: string): Parsed<seq<Label>> {
    if s != "" && s[0] == '{' then ReadLabelList(s[1..]) else Got([], s)
  }

  lemma ReadEscapedOne(c: char, u: string, v: string, t: string)
    requires ReadQuotedValue(u) == Got(v, t)
    ensures ReadQuotedValue(EscapeOne(c) + u) == Got([c] + v, t)
  {
    var s := EscapeOne(c) + u;
    if |EscapeOne(c)| == 1 {
      assert s[0] == c && s[1..] == u;
    } else {
      assert s[0] == '\\' && s[1] == EscapeOne(c)[1] && s[2..] == u;
    }
  }

  lemma {:induction false} ReadEscapedValue(v: string, t: string)
    ensures ReadQuotedValue(EscapeEach(v) + ("\"" + t)) == Got(v, t)
  {
    var rest := "\"" + t;
    if v == "" {
      assert EscapeEach(v) + rest == rest;
      assert rest[1..] == t;
    } else {
      var u := EscapeEach(v[1..]) + rest;
      var s := EscapeOne(v[0]) + u;
      assert EscapeEach(v) + rest == s;
      ReadEscapedValue(v[1..], t);
      assert [v[0]] + v[1..] == v;
      ReadEscapedOne(v[0], u, v[1..], t);
    }
  }

  /** Label names are identifiers: in particular they hold no '='. */
  ghost predicate GoodKeys(ls: seq<Label>) {
    forall i :: 0 <= i < |ls| ==> '=' !in ls[i].key
  }

  lemma {:induction false} EqualsAtOf(key: string, t: string)
    requires '=' !in key
    ensures EqualsAt(key + ("=" + t)) == |key|
  {
    var s := key + ("=" + t);
    if key == "" {
      assert s == "=" + t;
    } else {
      assert s[1..] == key[1..] + ("=" + t);
      EqualsAtOf(key[1..], t);
    }
  }

  lemma LabelShape(key: string, value: string, t: string)
    ensures (key + ("=\"" + (value + "\""))) + t == key + ("=" + ("\"" + (value + ("\"" + t))))
  {
    assert (value + "\"") + t == value + ("\"" + t);
    assert "=\"" + (value + "\"") + t == "=" + ("\"" + (value + ("\"" + t)));
  }

  lemma ReadFormattedLabel(l: Label, t: string)
    requires '=' !in l.key
    ensures ReadLabel(FormatLabel(l) + t) == Got(l, t)
  {
    EscapeIsCharacterMap(l.value);
    var u := EscapeEach(l.value) + ("\"" + t);
    var s := FormatLabel(l) + t;
    LabelShape(l.key, EscapeEach(l.value), t);
    EqualsAtOf(l.key, "\"" + u);
    var n := |l.key|;
    assert s[..n] == l.key && s[n + 1] == '\"' && s[n + 2..] == u;
    ReadEscapedValue(l.value, t);
  }

  lemma ReadLabelsOne(s: string, l: Label, t: string)
    requires ReadLabel(s) == Got(l, "}" + t)
    ensures ReadLabelList(s) == Got([l], t)
  {
    assert ("}" + t)[1..] == t;
  }

  lemma ReadLabelsCons(s: string, l: Label, u: string, ls: seq<Label>, t: string)
    requires ReadLabel(s) == Got(l, "," + u) && ReadLabelList(u) == Got(ls, t)
    ensures ReadLabelList(s) == Got([l] + ls, t)
  {
    assert ("," + u)[1..] == u;
  }

  lemma JoinSplit(ls: seq<Label>, t: string)
    requires |ls| > 1
    ensures Join(ls) + t == FormatLabel(ls[0]) + ("," + (Join(ls[1..]) + t))
  {
    assert ("," + Join(ls[1..])) + t == "," + (Join(ls[1..]) + t);
  }

  lemma {:induction false} ReadJoined(ls: seq<Label>, t: string)
    requires GoodKeys(ls) && ls != []
    ensures ReadLabelList(Join(ls) + ("}" + t)) == Got(ls, t)
    decreases |ls|
  {
    if |ls| == 1 {
      ReadFormattedLabel(ls[0], "}" + t);
      ReadLabelsOne(FormatLabel(ls[0]) + ("}" + t), ls[0], t);
      assert [ls[0]] == ls;
    } else {
      var u := Join(ls[1..]) + ("}" + t);
      JoinSplit(ls, "}" + t);
      ReadFormattedLabel(ls[0], "," + u);
      ReadJoined(ls[1..], t);
      ReadLabelsCons(FormatLabel(ls[0]) + ("," + u), ls[0], u, ls[1..], t);
      assert [ls[0]] + ls[1..] == ls;
    }
  }

  lemma Braced(inner: string, t: string)
    ensures
      var s := "{" + (inner + "}") + t;
      s[0] == '{' && s[1..] == inner + ("}" + t)
  {
  }

  /** Rendered labels read back, whatever follows (a space and the value, in a series line). */
  lemma LabelsRoundTrip(ls: seq<Label>, t: string)
    requires GoodKeys(ls) && (t == "" || t[0] != '{')
    ensures ReadLabels(FormatLabels(ls) + t) == Got(ls, t)
  {
    if ls == [] {
      assert FormatLabels(ls) + t == t;
    } else {
      Braced(Join(ls), t);
      ReadJoined(ls, t);
    }
  }

  /** Two series of one metric with different labels never render to the same series text. */
  lemma SeriesNeverCollide(name: string, a: seq<Label>, b: seq<Label>)
    requires GoodKeys(a) && GoodKeys(b)
    ensures name + FormatLabels(a) == name + FormatLabels(b) <==> a == b
  {
    LabelsRoundTrip(a, "");
    LabelsRoundTrip(b, "");
    assert FormatLabels(a) + "" == FormatLabels(a) && FormatLabels(b) + "" == FormatLabels(b);
    if name + FormatLabels(a) == name + FormatLabels(b) {
      assert (name + FormatLabels(a))[|name|..] == FormatLabels(a);
      assert (name + FormatLabels(b))[|name|..] == FormatLabels(b);
    }
  }

  /** What is escaped, and how. */
  lemma EscapeLiterals(c: char)
    ensures EscapeValue("\\") == "\\\\" && EscapeValue("\n") == "\\n" && EscapeValue("\"") == "\\\""
    ensures c != '\\' && c != '\n' && c != '\"' ==> EscapeValue([c]) == [c]
  {
    EscapeOneChar('\\');
    EscapeOneChar('\n');
    EscapeOneChar('\"');
    EscapeOneChar(c);
  }

  /** The labels as they stand in a series line. */
  lemma LabelTexts(a: Label, b: Label)
    ensures FormatLabel(a) == a.key + ("=\"" + (EscapeValue(a.value) + "\""))
    ensures FormatLabels([a, b]) == "{" + ((FormatLabel(a) + ("," + FormatLabel(b))) + "}")
  {
    assert [a, b][1..] == [b];
    assert Join([b]) == FormatLabel(b);
  }
}
