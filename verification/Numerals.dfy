/**
 * Positional numerals: how Python prints a natural number in base 10 or 16
 * (`str(n)`, `f"{n:x}"`) and reads one back (`int(s)`, `int(s, 16)`).
 * The arithmetic is done on sequences of digit values; `Text` and `Read`
 * translate between digit values and characters.
 */
module Numerals {
  import opened Strings

  datatype Radix = Ten | Sixteen

  function Size(r: Radix): nat {
    match r
    case Ten => 10
    case Sixteen => 16
  }

  /** r * n, kept linear for the solver. */
  function Times(r: Radix, n: nat): nat {
    match r
    case Ten => 10 * n
    case Sixteen => 16 * n
  }

  function Quotient(n: nat, r: Radix): (q: nat)
    ensures Times(r, q) <= n < Times(r, q) + Size(r)
  {
    match r
    case Ten => n / 10
    case Sixteen => n / 16
  }

  function Remainder(n: nat, r: Radix): (m: nat)
    ensures m < Size(r) && n == Times(r, Quotient(n, r)) + m
  {
    match r
    case Ten => n % 10
    case Sixteen => n % 16
  }

  // ---------------------------------------------------------------------
  // Digit values
  // ---------------------------------------------------------------------

  ghost predicate InRadix(ds: seq<nat>, r: Radix) {
    forall i :: 0 <= i < |ds| ==> ds[i] < Size(r)
  }

  function Value(ds: seq<nat>, r: Radix): nat {
    if ds == [] then 0 else Times(r, Value(ds[..|ds| - 1], r)) + ds[|ds| - 1]
  }

  function Digits(n: nat, r: Radix): (ds: seq<nat>)
    ensures ds != [] && InRadix(ds, r)
    decreases n
  {
    if n < Size(r) then [n] else Digits(Quotient(n, r), r) + [Remainder(n, r)]
  }

  /** Drops leading zeros but never the last digit. */
  function Strip(ds: seq<nat>): seq<nat> {
    if |ds| > 1 && ds[0] == 0 then Strip(ds[1..]) else ds
  }

  lemma ValueSnoc(ds: seq<nat>, d: nat, r: Radix)
    ensures Value(ds + [d], r) == Times(r, Value(ds, r)) + d
  {
    assert (ds + [d])[..|ds|] == ds;
  }

  lemma {:induction false} ValueOfDigits(n: nat, r: Radix)
    ensures Value(Digits(n, r), r) == n
    decreases n
  {
    if n < Size(r) {
      ValueSnoc([], n, r);
      assert [] + [n] == [n];
    } else {
      ValueOfDigits(Quotient(n, r), r);
      ValueSnoc(Digits(Quotient(n, r), r), Remainder(n, r), r);
    }
  }

  lemma {:induction false} StripSnoc(ds: seq<nat>, d: nat)
    requires ds != []
    ensures Strip(ds + [d]) == if Strip(ds) == [0] then [d] else Strip(ds) + [d]
  {
    if |ds| > 1 && ds[0] == 0 {
      StripSnoc(ds[1..], d);
      assert (ds + [d])[1..] == ds[1..] + [d];
    } else if ds[0] == 0 {
      assert (ds + [d])[1..] == [d];
    }
  }

  lemma {:induction false} DigitsLead(n: nat, r: Radix)
    ensures n > 0 ==> Digits(n, r)[0] != 0
    decreases n
  {
    if n >= Size(r) {
      assert Quotient(n, r) > 0;
      DigitsLead(Quotient(n, r), r);
    }
  }

  lemma DigitsZero(n: nat, r: Radix)
    ensures Digits(n, r) == [0] <==> n == 0
  {
    DigitsLead(n, r);
  }

  lemma DigitsStep(m: nat, d: nat, r: Radix)
    requires d < Size(r)
    ensures Digits(Times(r, m) + d, r) == if m == 0 then [d] else Digits(m, r) + [d]
  {
    if m > 0 {
      assert Quotient(Times(r, m) + d, r) == m;
      assert Remainder(Times(r, m) + d, r) == d;
    }
  }

  /**
   * Printing the value of a digit sequence gives that sequence without its
   * leading zeros: the printed form is the unique shortest one.
   */
  lemma {:induction false} DigitsOfValue(ds: seq<nat>, r: Radix)
    requires ds != [] && InRadix(ds, r)
    ensures Digits(Value(ds, r), r) == Strip(ds)
  {
    var p, d := ds[..|ds| - 1], ds[|ds| - 1];
    assert ds == p + [d];
    if p != [] {
      DigitsOfValue(p, r);
      StripSnoc(p, d);
      DigitsZero(Value(p, r), r);
      DigitsStep(Value(p, r), d, r);
    }
  }

  /** No leading zero except in "0" itself. */
  lemma DigitsMinimal(n: nat, r: Radix)
    ensures Strip(Digits(n, r)) == Digits(n, r)
  {
    DigitsLead(n, r);
  }

  // ---------------------------------------------------------------------
  // Fixed-width numerals (`f"{n:0{width}x}"` for numbers that fit)
  // ---------------------------------------------------------------------

  function Power(r: Radix, width: nat): nat {
    if width == 0 then 1 else Times(r, Power(r, width - 1))
  }

  function Fixed(n: nat, r: Radix, width: nat): (ds: seq<nat>)
    ensures |ds| == width && InRadix(ds, r)
  {
    if width == 0 then [] else Fixed(Quotient(n, r), r, width - 1) + [Remainder(n, r)]
  }

  lemma {:induction false} ValueOfFixed(n: nat, r: Radix, width: nat)
    requires n < Power(r, width)
    ensures Value(Fixed(n, r, width), r) == n
  {
    if width > 0 {
      ValueOfFixed(Quotient(n, r), r, width - 1);
      ValueSnoc(Fixed(Quotient(n, r), r, width - 1), Remainder(n, r), r);
    }
  }

  // ---------------------------------------------------------------------
  // Characters
  // ---------------------------------------------------------------------

  function DigitChar(d: nat): char
    requires d < 16
  {
    if d < 10 then ('0' as int + d) as char else ('a' as int + (d - 10)) as char
  }

  /** The value of a digit of either case, or 99. */
  function DigitValue(c: char): nat {
    if '0' <= c <= '9' then c as int - '0' as int
    else if 'a' <= c <= 'f' then c as int - 'a' as int + 10
    else if 'A' <= c <= 'F' then c as int - 'A' as int + 10
    else 99
  }

  predicate IsDigit(c: char, r: Radix) {
    DigitValue(c) < Size(r)
  }

  predicate AllDigits(s: string, r: Radix) {
    forall i :: 0 <= i < |s| ==> IsDigit(s[i], r)
  }

  function Text(ds: seq<nat>, r: Radix): (s: string)
    requires InRadix(ds, r)
    ensures |s| == |ds|
  {
    seq(|ds|, i requires 0 <= i < |ds| => DigitChar(ds[i]))
  }

  function Read(s: string): (ds: seq<nat>)
    ensures |ds| == |s|
  {
    seq(|s|, i requires 0 <= i < |s| => DigitValue(s[i]))
  }

  /** `int(s, r)` of a digit string. */
  function Parse(s: string, r: Radix): nat {
    Value(Read(s), r)
  }

  /** `str(n)` or `f"{n:x}"`. */
  function Show(n: nat, r: Radix): (s: string)
    ensures s != ""
  {
    Text(Digits(n, r), r)
  }

  lemma CharOfValue(d: nat)
    requires d < 16
    ensures DigitValue(DigitChar(d)) == d && LowerChar(DigitChar(d)) == DigitChar(d)
  {
  }

  const DIGITS: string := "0123456789abcdef"

  lemma DigitTable(d: nat)
    requires d < 16
    ensures DigitChar(d) == DIGITS[d]
  {
  }

  /** The digits a reader accepts, and what the radices are. */
  lemma DigitSet(c: char)
    ensures IsDigit(c, Ten) <==> '0' <= c <= '9'
    ensures IsDigit(c, Sixteen) <==> '0' <= c <= '9' || 'a' <= c <= 'f' || 'A' <= c <= 'F'
    ensures Size(Ten) == 10 && Size(Sixteen) == 16
  {
  }

  lemma ValueOfChar(c: char, r: Radix)
    requires IsDigit(c, r)
    ensures DigitValue(c) < 16 && DigitChar(DigitValue(c)) == LowerChar(c)
  {
  }

  lemma ReadText(ds: seq<nat>, r: Radix)
    requires InRadix(ds, r)
    ensures Read(Text(ds, r)) == ds && AllDigits(Text(ds, r), r)
  {
    var s := Text(ds, r);
    forall i | 0 <= i < |ds| ensures Read(s)[i] == ds[i] && IsDigit(s[i], r) {
      CharOfValue(ds[i]);
    }
  }

  lemma TextRead(s: string, r: Radix)
    requires AllDigits(s, r)
    ensures InRadix(Read(s), r) && Text(Read(s), r) == Lower(s)
  {
    forall i | 0 <= i < |s|
      ensures Read(s)[i] < Size(r) && DigitChar(Read(s)[i]) == Lower(s)[i]
    {
      ValueOfChar(s[i], r);
    }
  }

  /** Reading what was printed gives the number back. */
  lemma ParseShow(n: nat, r: Radix)
    ensures AllDigits(Show(n, r), r) && Parse(Show(n, r), r) == n
  {
    ReadText(Digits(n, r), r);
    ValueOfDigits(n, r);
  }

  function StripZeros(s: string): string {
    if |s| > 1 && s[0] == '0' then StripZeros(s[1..]) else s
  }

  lemma {:induction false} StripText(ds: seq<nat>, r: Radix)
    requires InRadix(ds, r)
    ensures InRadix(Strip(ds), r) && Text(Strip(ds), r) == StripZeros(Text(ds, r))
  {
    if |ds| > 1 {
      CharOfValue(ds[0]);
      if ds[0] == 0 {
        StripText(ds[1..], r);
        assert Text(ds, r)[1..] == Text(ds[1..], r);
      }
    }
  }

  /** Printing what was read gives the digits back, lower case and without leading zeros. */
  lemma ShowParse(s: string, r: Radix)
    requires s != "" && AllDigits(s, r)
    ensures Show(Parse(s, r), r) == StripZeros(Lower(s))
  {
    TextRead(s, r);
    DigitsOfValue(Read(s), r);
    StripText(Read(s), r);
  }

  lemma ShowMinimal(n: nat, r: Radix)
    ensures StripZeros(Show(n, r)) == Show(n, r)
  {
    DigitsMinimal(n, r);
    StripText(Digits(n, r), r);
  }
}
