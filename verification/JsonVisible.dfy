/** `json.dumps` with its default `ensure_ascii` emits visible ASCII only. */
module JsonVisible {
  import opened Numerals
  import opened JsonText

  /** Visible ASCII and space: all `json.dumps` ever emits. */
  ghost predicate Visible(s: string) {
    forall i :: 0 <= i < |s| ==> ' ' <= s[i] <= '~'
  }

  lemma VisibleConcat(a: string, b: string)
    requires Visible(a) && Visible(b)
    ensures Visible(a + b)
  {
  }

  lemma VisibleDigits(ds: seq<nat>, r: Radix)
    requires InRadix(ds, r)
    ensures Visible(Text(ds, r))
  {
  }

  lemma VisibleEscapeChar(c: char)
    ensures Visible(EscapeChar(c))
  {
    if !Plain(c) && ShortEscape(c) == ' ' {
      if c as int < 0x10000 {
        VisibleDigits(Fixed(c as int, Sixteen, 4), Sixteen);
      } else {
        VisibleDigits(Fixed(HighHalf(c as int), Sixteen, 4), Sixteen);
        VisibleDigits(Fixed(LowHalf(c as int), Sixteen, 4), Sixteen);
      }
    }
  }

  lemma VisibleEscape(s: string)
    ensures Visible(Escape(s))
  {
    if s != "" {
      var c := s[0];
      VisibleEscapeChar(c);
      VisibleEscape(s[1..]);
      VisibleConcat(EscapeChar(c), Escape(s[1..]));
    }
  }

  lemma VisibleInt(n: int)
    ensures Visible(ShowInt(n))
  {
    VisibleDigits(Digits(if n < 0 then -n else n, Ten), Ten);
  }

  /** `json.dumps` emits visible ASCII only: in particular no line break. */
  lemma {:induction false} VisiblePrint(j: Json)
    ensures Visible(Print(j))
    decreases j, 1
  {
    match j
    case Int(n) => VisibleInt(n);
    case Str(s) => VisibleEscape(s);
    case Arr(items) => VisibleItems(items);
    case Obj(members) => VisibleMembers(members);
    case _ =>
  }

  lemma {:induction false} VisibleItems(items: seq<Json>)
    ensures Visible(PrintItems(items))
    decreases items, 0
  {
    if items != [] {
      VisiblePrint(items[0]);
      VisibleItems(items[1..]);
    }
  }

  lemma {:induction false} VisibleMembers(members: seq<Member>)
    ensures Visible(PrintMembers(members))
    decreases members, 0
  {
    if members != [] {
      var m := members[0];
      assert m.value < m;
      VisibleEscape(m.key);
      VisiblePrint(m.value);
      VisibleMembers(members[1..]);
      assert Visible(PrintMember(m));
    }
  }
}
