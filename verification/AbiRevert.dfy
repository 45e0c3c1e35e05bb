/**
 * Decoding `Error(string)` and `Panic(uint256)` revert data
 * (src/exec_rest_api/abi_revert.py), at the byte level: the final UTF-8
 * decoding of a reason is left out.
 */
module AbiRevert {
  import opened Wrappers
  import opened Strings
  import opened Numerals
  import opened Base64Url

  const ERROR_SELECTOR: string := "08c379a0"
  const PANIC_SELECTOR: string := "4e487b71"
  const MAX_REASON_BYTES: nat := 0x100000

  // ---------------------------------------------------------------------
  // Hexadecimal bytes
  // ---------------------------------------------------------------------

  /** `bytes.fromhex` of an even number of digits. */
  function FromHex(s: string): (bs: seq<Byte>)
    requires AllDigits(s, Sixteen) && |s| % 2 == 0
    ensures |bs| == |s| / 2
    decreases |s|
  {
    if s == "" then []
    else
      assert IsDigit(s[0], Sixteen) && IsDigit(s[1], Sixteen);
      [16 * DigitValue(s[0]) + DigitValue(s[1])] + FromHex(s[2..])
  }

  function ToHex(bs: seq<Byte>): (s: string)
    ensures |s| == 2 * |bs|
  {
    if bs == [] then "" else [DigitChar(bs[0] / 16), DigitChar(bs[0] % 16)] + ToHex(bs[1..])
  }

  lemma {:induction false} FromToHex(bs: seq<Byte>)
    ensures AllDigits(ToHex(bs), Sixteen) && FromHex(ToHex(bs)) == bs
  {
    if bs != [] {
      FromToHex(bs[1..]);
      var s := ToHex(bs);
      CharOfValue(bs[0] / 16);
      CharOfValue(bs[0] % 16);
      assert s[2..] == ToHex(bs[1..]);
      forall i | 0 <= i < |s| ensures IsDigit(s[i], Sixteen) {
        if i >= 2 {
          assert s[i] == ToHex(bs[1..])[i - 2];
        }
      }
    }
  }

  lemma {:induction false} ToFromHex(s: string)
    requires AllDigits(s, Sixteen) && |s| % 2 == 0
    ensures ToHex(FromHex(s)) == Lower(s)
    decreases |s|
  {
    if s != "" {
      ToFromHex(s[2..]);
      ValueOfChar(s[0], Sixteen);
      ValueOfChar(s[1], Sixteen);
      var v := 16 * DigitValue(s[0]) + DigitValue(s[1]);
      assert v / 16 == DigitValue(s[0]) && v % 16 == DigitValue(s[1]);
      assert FromHex(s) == [v] + FromHex(s[2..]);
      assert FromHex(s)[1..] == FromHex(s[2..]);
      assert Lower(s) == [LowerChar(s[0]), LowerChar(s[1])] + Lower(s[2..]);
    }
  }

  /** A 32-byte big-endian word. */
  function Word(n: nat): (s: string)
    ensures |s| == 64
  {
    Text(Fixed(n, Sixteen, 64), Sixteen)
  }

  lemma ParseWord(n: nat)
    requires n < Power(Sixteen, 64)
    ensures AllDigits(Word(n), Sixteen) && Parse(Word(n), Sixteen) == n
  {
    ReadText(Fixed(n, Sixteen, 64), Sixteen);
    ValueOfFixed(n, Sixteen, 64);
  }

  // ---------------------------------------------------------------------
  // Decoding
  // ---------------------------------------------------------------------

  /** `_decode_error_string`: every slice below is proved to be in bounds. */
  function DecodeErrorString(tail: string): Option<seq<Byte>>
    requires AllDigits(tail, Sixteen)
  {
    if |tail| < 128 then None
    else
      var start := Parse(tail[..64], Sixteen) * 2;
      if start + 64 > |tail| then None
      else
        var length := Parse(tail[start..start + 64], Sixteen);
        if length > MAX_REASON_BYTES then None
        else if start + 64 + length * 2 > |tail| then None
        else Some(FromHex(tail[start + 64..start + 64 + length * 2]))
  }

  /** `_decode_panic_uint` */
  function DecodePanic(tail: string): Option<nat>
    requires AllDigits(tail, Sixteen)
  {
    if |tail| < 64 then None else Some(Parse(tail[..64], Sixteen))
  }

  predicate IsHexData(data: string) {
    "0x" <= data && AllDigits(data[2..], Sixteen)
  }

  datatype Decoded = Decoded(reason: Option<seq<Byte>>, panicCode: Option<nat>)

  /** `decode_revert_data` */
  function DecodeRevertData(data: Option<string>): (d: Decoded)
    ensures d.reason.None? || d.panicCode.None?
  {
    if data.None? || !IsHexData(data.value) || |data.value| < 10 then Decoded(None, None)
    else
      var selector, tail := Lower(data.value[2..10]), data.value[10..];
      assert AllDigits(tail, Sixteen) by {
        assert forall i :: 0 <= i < |tail| ==> tail[i] == data.value[2..][8 + i];
      }
      if selector == ERROR_SELECTOR then Decoded(DecodeErrorString(tail), None)
      else if selector == PANIC_SELECTOR then Decoded(None, DecodePanic(tail))
      else Decoded(None, None)
  }

  // ---------------------------------------------------------------------
  // Soundness
  // ---------------------------------------------------------------------

  /**
   * A reason is decoded exactly when the head and the declared length lie in
   * the data, at whatever offset, the length is at most 2^20, and the declared
   * bytes lie in the data.
   */
  lemma ReasonDecodesExactly(tail: string)
    requires AllDigits(tail, Sixteen)
    ensures DecodeErrorString(tail).Some? <==>
      && |tail| >= 128
      && var start := 2 * Parse(tail[..64], Sixteen);
      && start + 64 <= |tail|
      && var length := Parse(tail[start..start + 64], Sixteen);
      length <= 1048576 && start + 64 + 2 * length <= |tail|
  {
  }

  /** A decoded reason is exactly the declared number of bytes at the declared offset. */
  lemma ReasonIsDeclaredBytes(tail: string)
    requires AllDigits(tail, Sixteen) && DecodeErrorString(tail).Some?
    ensures
      var reason := DecodeErrorString(tail).value;
      && |tail| >= 128
      && var start := Parse(tail[..64], Sixteen) * 2;
      && start + 64 + 2 * |reason| <= |tail|
      && |reason| == Parse(tail[start..start + 64], Sixteen) <= MAX_REASON_BYTES
      && ToHex(reason) == Lower(tail[start + 64..start + 64 + 2 * |reason|])
  {
    var start := Parse(tail[..64], Sixteen) * 2;
    var length := Parse(tail[start..start + 64], Sixteen);
    var content := tail[start + 64..start + 64 + length * 2];
    assert DecodeErrorString(tail) == Some(FromHex(content));
    ToFromHex(content);
  }

  // ---------------------------------------------------------------------
  // Completeness
  // ---------------------------------------------------------------------

  /** The ABI tail of `Error(string)`: offset 32, the length, the bytes and any padding. */
  function ErrorTail(reason: seq<Byte>, padding: string): string {
    Word(32) + (Word(|reason|) + (ToHex(reason) + padding))
  }

  lemma PowerMonotone(r: Radix, m: nat, n: nat)
    requires m <= n
    ensures 1 <= Power(r, m) <= Power(r, n)
  {
    if m < n {
      PowerMonotone(r, m, n - 1);
    } else if m > 0 {
      PowerMonotone(r, m - 1, m - 1);
    }
  }

  lemma DigitsAppend(a: string, b: string)
    requires AllDigits(a, Sixteen) && AllDigits(b, Sixteen)
    ensures AllDigits(a + b, Sixteen)
  {
  }

  lemma SlicesOf(a: string, b: string, c: string, d: string)
    requires |a| == 64 && |b| == 64
    ensures
      var t := a + (b + (c + d));
      t[..64] == a && t[64..128] == b && t[128..128 + |c|] == c
  {
  }

  /** The parts of a standard tail, where the decoder looks for them. */
  lemma ErrorTailParts(reason: seq<Byte>, padding: string)
    ensures
      var tail := ErrorTail(reason, padding);
      && |tail| >= 128 + 2 * |reason|
      && tail[..64] == Word(32)
      && tail[64..128] == Word(|reason|)
      && tail[128..128 + 2 * |reason|] == ToHex(reason)
  {
    SlicesOf(Word(32), Word(|reason|), ToHex(reason), padding);
  }

  lemma DecodeParts(tail: string, reason: seq<Byte>)
    requires AllDigits(tail, Sixteen) && |tail| >= 128 + 2 * |reason|
    requires Parse(tail[..64], Sixteen) == 32 && Parse(tail[64..128], Sixteen) == |reason|
    requires AllDigits(tail[128..128 + 2 * |reason|], Sixteen)
    requires FromHex(tail[128..128 + 2 * |reason|]) == reason
    ensures DecodeErrorString(tail) == if |reason| <= MAX_REASON_BYTES then Some(reason) else None
  {
  }

  lemma ErrorTailDigits(reason: seq<Byte>, padding: string)
    requires AllDigits(padding, Sixteen) && |reason| < Power(Sixteen, 64)
    ensures AllDigits(ErrorTail(reason, padding), Sixteen)
    ensures Parse(Word(32), Sixteen) == 32 && Parse(Word(|reason|), Sixteen) == |reason|
  {
    PowerMonotone(Sixteen, 2, 64);
    assert 32 < Power(Sixteen, 2);
    ParseWord(32);
    ParseWord(|reason|);
    FromToHex(reason);
    DigitsAppend(ToHex(reason), padding);
    DigitsAppend(Word(|reason|), ToHex(reason) + padding);
    DigitsAppend(Word(32), Word(|reason|) + (ToHex(reason) + padding));
  }

  /** Every standard encoding decodes to its bytes if they fit the ceiling, and to nothing otherwise. */
  lemma ErrorRoundTrip(reason: seq<Byte>, padding: string)
    requires AllDigits(padding, Sixteen) && |reason| < Power(Sixteen, 64)
    ensures AllDigits(ErrorTail(reason, padding), Sixteen)
    ensures DecodeErrorString(ErrorTail(reason, padding))
         == if |reason| <= 1048576 then Some(reason) else None
  {
    ErrorTailDigits(reason, padding);
    ErrorTailParts(reason, padding);
    FromToHex(reason);
    DecodeParts(ErrorTail(reason, padding), reason);
  }

  lemma PanicRoundTrip(n: nat, rest: string)
    requires n < Power(Sixteen, 64) && AllDigits(rest, Sixteen)
    ensures AllDigits(Word(n) + rest, Sixteen) && DecodePanic(Word(n) + rest) == Some(n)
  {
    ParseWord(n);
    DigitsAppend(Word(n), rest);
    assert (Word(n) + rest)[..64] == Word(n);
  }

  lemma SelectedTail(selector: string, tail: string)
    requires |selector| == 8 && AllDigits(selector, Sixteen) && Lower(selector) == selector
    requires AllDigits(tail, Sixteen)
    ensures
      var data := "0x" + (selector + tail);
      IsHexData(data) && Lower(data[2..10]) == selector && data[10..] == tail
  {
    DigitsAppend(selector, tail);
    var data := "0x" + (selector + tail);
    assert data[2..] == selector + tail;
    assert data[2..10] == selector;
  }

  lemma LowerFixed(s: string)
    requires forall i :: 0 <= i < |s| ==> '0' <= s[i] <= '9' || 'a' <= s[i] <= 'f'
    ensures AllDigits(s, Sixteen) && Lower(s) == s
  {
    assert forall i :: 0 <= i < |s| ==> LowerChar(s[i]) == s[i];
  }

  lemma SelectorsAreLowerHex()
    ensures AllDigits(ERROR_SELECTOR, Sixteen) && Lower(ERROR_SELECTOR) == ERROR_SELECTOR
    ensures AllDigits(PANIC_SELECTOR, Sixteen) && Lower(PANIC_SELECTOR) == PANIC_SELECTOR
  {
    assert forall i :: 0 <= i < 8 ==> '0' <= ERROR_SELECTOR[i] <= '9' || 'a' <= ERROR_SELECTOR[i] <= 'f';
    LowerFixed(ERROR_SELECTOR);
    assert forall i :: 0 <= i < 8 ==> '0' <= PANIC_SELECTOR[i] <= '9' || 'a' <= PANIC_SELECTOR[i] <= 'f';
    LowerFixed(PANIC_SELECTOR);
  }

  lemma DecodeSelected(selector: string, tail: string)
    requires |selector| == 8 && AllDigits(selector, Sixteen) && Lower(selector) == selector
    requires AllDigits(tail, Sixteen)
    ensures DecodeRevertData(Some("0x" + (selector + tail))) ==
            if selector == ERROR_SELECTOR then Decoded(DecodeErrorString(tail), None)
            else if selector == PANIC_SELECTOR then Decoded(None, DecodePanic(tail))
            else Decoded(None, None)
  {
    SelectedTail(selector, tail);
  }

  /** The whole decoder on a standard `Error(string)` payload. */
  lemma StandardErrorDecodes(reason: seq<Byte>, padding: string)
    requires AllDigits(padding, Sixteen) && |reason| < Power(Sixteen, 64)
    ensures DecodeRevertData(Some("0x" + ("08c379a0" + ErrorTail(reason, padding))))
         == Decoded(if |reason| <= 1048576 then Some(reason) else None, None)
  {
    ErrorRoundTrip(reason, padding);
    SelectorsAreLowerHex();
    DecodeSelected(ERROR_SELECTOR, ErrorTail(reason, padding));
  }

  /** The whole decoder on a standard `Panic(uint256)` payload. */
  lemma StandardPanicDecodes(code: nat, rest: string)
    requires AllDigits(rest, Sixteen) && code < Power(Sixteen, 64)
    ensures DecodeRevertData(Some("0x" + ("4e487b71" + (Word(code) + rest)))) == Decoded(None, Some(code))
  {
    PanicRoundTrip(code, rest);
    SelectorsAreLowerHex();
    DecodeSelected(PANIC_SELECTOR, Word(code) + rest);
  }

  /** Which payloads are looked at, and as what: the selector in any case, and nothing shorter or not hexadecimal. */
  lemma SelectorsExactly(data: string)
    ensures DecodeRevertData(None) == Decoded(None, None)
    ensures !("0x" <= data && AllDigits(data[2..], Sixteen) && |data| >= 10) ==>
      DecodeRevertData(Some(data)) == Decoded(None, None)
    ensures "0x" <= data && AllDigits(data[2..], Sixteen) && |data| >= 10 ==>
      AllDigits(data[10..], Sixteen) &&
      DecodeRevertData(Some(data)) ==
        if Lower(data[2..10]) == "08c379a0" then Decoded(DecodeErrorString(data[10..]), None)
        else if Lower(data[2..10]) == "4e487b71"
        then Decoded(None, if |data| < 74 then None else Some(Parse(data[10..74], Sixteen)))
        else Decoded(None, None)
  {
    if "0x" <= data && AllDigits(data[2..], Sixteen) && |data| >= 10 {
      assert forall i :: 0 <= i < |data| - 10 ==> data[10..][i] == data[2..][8 + i];
      if |data| >= 74 {
        assert data[10..][..64] == data[10..74];
      }
    }
  }
}
