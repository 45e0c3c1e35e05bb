/** Quantity codecs of src/exec_rest_api/encoding.py. */
module Encoding {
  import opened Wrappers
  import opened Strings
  import opened Numerals
  import opened JsonText

  /** `^0x[0-9a-fA-F]+$` */
  predicate IsHexQuantity(s: string) {
    |s| > 2 && s[0] == '0' && s[1] == 'x' && AllDigits(s[2..], Sixteen)
  }

  /** `^[0-9]+$` */
  predicate IsDecimal(s: string) {
    s != "" && AllDigits(s, Ten)
  }

  function HexToInt(s: string): Option<nat> {
    if IsHexQuantity(s) then Some(Parse(s[2..], Sixteen)) else None
  }

  function DecimalToHex(n: int): Option<string> {
    if n < 0 then None else Some("0x" + Show(n, Sixteen))
  }

  function WeiFromRpc(rpc: string): Option<string> {
    match HexToInt(rpc)
    case None => None
    case Some(n) => Some(Show(n, Ten))
  }

  /** `wei_to_rpc` of a string. */
  function WeiToRpc(value: string): Option<string> {
    if IsDecimal(value) then Some("0x" + Show(Parse(value, Ten), Sixteen)) else None
  }

  /** `coerce_rpc_int` on the JSON values an upstream may send. */
  function CoerceRpcInt(value: Json): Option<nat> {
    match value
    case Int(n) => if n < 0 then None else Some(n)
    case Str(s) =>
      if IsHexQuantity(s) then Some(Parse(s[2..], Sixteen))
      else if IsDecimal(s) then Some(Parse(s, Ten))
      else None
    case _ => None
  }

  /** Every natural number prints as a quantity that has no leading zero and reads back. */
  lemma HexRoundTrip(n: nat)
    ensures DecimalToHex(n).Some? && HexToInt(DecimalToHex(n).value) == Some(n)
    ensures "0x" <= DecimalToHex(n).value
    ensures StripZeros(DecimalToHex(n).value[2..]) == DecimalToHex(n).value[2..]
  {
    var s := "0x" + Show(n, Sixteen);
    assert s[2..] == Show(n, Sixteen);
    ParseShow(n, Sixteen);
    ShowMinimal(n, Sixteen);
  }

  /**
   * Every quantity reads as some number, and printing that number gives the
   * quantity in lower case without leading zeros: the printed form is the
   * unique minimal one.
   */
  lemma QuantityIsMinimal(s: string)
    requires IsHexQuantity(s)
    ensures HexToInt(s).Some?
    ensures DecimalToHex(HexToInt(s).value) == Some("0x" + StripZeros(Lower(s[2..])))
  {
    ShowParse(s[2..], Sixteen);
  }

  lemma LowerDigits(s: string)
    requires AllDigits(s, Ten)
    ensures Lower(s) == s
  {
    forall i | 0 <= i < |s| ensures LowerChar(s[i]) == s[i] {
      assert IsDigit(s[i], Ten);
    }
  }

  /** A decimal amount survives the trip through hex, up to its leading zeros; nothing else is accepted. */
  lemma WeiRoundTrip(value: string)
    ensures WeiToRpc(value).Some? <==> IsDecimal(value)
    ensures IsDecimal(value) ==> WeiFromRpc(WeiToRpc(value).value) == Some(StripZeros(value))
  {
    if IsDecimal(value) {
      HexRoundTrip(Parse(value, Ten));
      ShowParse(value, Ten);
      LowerDigits(value);
    }
  }

  /** The three forms an upstream may send one integer in are read alike. */
  lemma CoercionAgrees(n: nat)
    ensures CoerceRpcInt(Int(n)) == Some(n)
    ensures CoerceRpcInt(Str(DecimalToHex(n).value)) == Some(n)
    ensures CoerceRpcInt(Str(Show(n, Ten))) == Some(n)
  {
    HexRoundTrip(n);
    ParseShow(n, Ten);
    var d := Show(n, Ten);
    assert |d| > 1 ==> IsDigit(d[1], Ten);
  }

  /** What the decoders accept. */
  lemma AcceptedExactly(s: string, value: Json)
    ensures HexToInt(s).Some? <==> |s| > 2 && "0x" <= s && AllDigits(s[2..], Sixteen)
    ensures CoerceRpcInt(value).Some? <==>
      || (value.Int? && value.n >= 0)
      || (value.Str? && HexToInt(value.s).Some?)
      || (value.Str? && value.s != "" && AllDigits(value.s, Ten))
  {
  }
}
