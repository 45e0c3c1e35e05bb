/** The handful of Python string operations the models share. */
module Strings {

  /** `str.lower()` on ASCII text. */
  function LowerChar(c: char): char {
    if 'A' <= c <= 'Z' then (c as int + 32) as char else c
  }

  function Lower(s: string): (r: string)
    ensures |r| == |s|
    ensures forall i :: 0 <= i < |s| ==> r[i] == LowerChar(s[i])
  {
    if s == "" then "" else [LowerChar(s[0])] + Lower(s[1..])
  }

  predicate IsSpace(c: char) {
    c == ' ' || c == '\t' || c == '\n' || c == '\r'
  }

  /** The four characters that may stand around a token in a header or a JSON text. */
  lemma SpaceSet(c: char)
    ensures IsSpace(c) <==> c in " \t\n\r"
  {
  }

  /** `needle in hay` */
  predicate Contains(hay: string, needle: string) {
    needle <= hay || (hay != "" && Contains(hay[1..], needle))
  }

  lemma LowerIdempotent(s: string)
    ensures Lower(Lower(s)) == Lower(s)
  {
  }

  const UPPER: string := "ABCDEFGHIJKLMNOPQRSTUVWXYZ"
  const LOWER: string := "abcdefghijklmnopqrstuvwxyz"

  /** Letter by letter, and nothing but letters. */
  lemma LowerLetters(c: char)
    ensures forall i :: 0 <= i < 26 && c == UPPER[i] ==> LowerChar(c) == LOWER[i]
    ensures c !in UPPER ==> LowerChar(c) == c
  {
    if 'A' <= c <= 'Z' {
      assert c == UPPER[c as int - 65] && LowerChar(c) == LOWER[c as int - 65];
    }
  }

  ghost predicate StandsAt(hay: string, needle: string, i: int) {
    0 <= i <= |hay| - |needle| && hay[i..i + |needle|] == needle
  }

  lemma StandsLater(hay: string, needle: string, i: int)
    requires hay != "" && 0 <= i
    ensures StandsAt(hay[1..], needle, i) <==> StandsAt(hay, needle, i + 1)
  {
    if i + 1 <= |hay| - |needle| {
      assert hay[i + 1..i + 1 + |needle|] == hay[1..][i..i + |needle|];
    }
  }

  /** The needle stands somewhere in the hay. */
  lemma {:induction false} ContainsExactly(hay: string, needle: string)
    ensures Contains(hay, needle) <==> exists i :: StandsAt(hay, needle, i)
  {
    if needle <= hay {
      assert StandsAt(hay, needle, 0);
    } else if hay != "" {
      ContainsExactly(hay[1..], needle);
      if i :| StandsAt(hay, needle, i) {
        assert i > 0;
        StandsLater(hay, needle, i - 1);
      }
      if i :| StandsAt(hay[1..], needle, i) {
        StandsLater(hay, needle, i);
      }
    }
  }

  ghost predicate LowersTo(message: string, i: int, j: int, text: string) {
    0 <= i <= j <= |message| && Lower(message[i..j]) == text
  }

  /** Some slice of the message lowers to the text. */
  ghost predicate Mentions(message: string, text: string) {
    exists i, j :: LowersTo(message, i, j, text)
  }

  lemma SliceOfMap(s: string, r: string, t: string, i: nat, j: nat)
    requires i <= j <= |s| == |r| && |t| == j - i
    requires forall k :: 0 <= k < |s| ==> r[k] == LowerChar(s[k])
    requires forall k :: 0 <= k < |t| ==> t[k] == LowerChar(s[i..j][k])
    ensures r[i..j] == t
  {
    forall k | 0 <= k < |t| ensures r[i..j][k] == t[k] {
      assert s[i..j][k] == s[i + k];
    }
  }

  lemma LowerSlice(s: string, i: nat, j: nat)
    requires i <= j <= |s|
    ensures Lower(s)[i..j] == Lower(s[i..j])
  {
    SliceOfMap(s, Lower(s), Lower(s[i..j]), i, j);
  }

  lemma MentionsExactly(message: string, text: string)
    ensures Contains(Lower(message), text) <==> Mentions(message, text)
  {
    var hay := Lower(message);
    ContainsExactly(hay, text);
    if i :| StandsAt(hay, text, i) {
      LowerSlice(message, i, i + |text|);
      assert LowersTo(message, i, i + |text|, text);
    }
    if i, j :| LowersTo(message, i, j, text) {
      LowerSlice(message, i, j);
      assert StandsAt(hay, text, i);
    }
  }
}
