/** The display helpers of `src/utils/format.ts`. */
module Format {
  import opened Js

  /** `formatAddress`: the empty string stays empty; any other string keeps its first six and its
      last four characters around an ellipsis. */
  function FormatAddress(address: string): (r: string)
    ensures address == "" ==> r == ""
    ensures address != "" ==>
      var head := if |address| < 6 then |address| else 6;
      var tail := if |address| < 4 then 0 else |address| - 4;
      r == address[..head] + "..." + address[tail..]
  {
    if address == "" then "" else Slice(address, 0, 6) + "..." + SliceFrom(address, -4)
  }

  /** An address of ten characters or more is shortened to thirteen characters that keep its
      first six and its last four. */
  lemma FormatAddressLong(address: string)
    requires |address| >= 10
    ensures var r := FormatAddress(address);
      && |r| == 13
      && r[..6] == address[..6]
      && r[6..9] == "..."
      && r[9..] == address[|address| - 4..]
  {
    var r := FormatAddress(address);
    assert r == address[..6] + "..." + address[|address| - 4..];
  }

  /** The value `formatTokenAmount` receives: a string, a number, or an ethers BigNumber. */
  datatype Amount = Text(text: string) | Number(num: Num) | Big(wei: nat)

  /** The ethers and JavaScript conversions `formatTokenAmount` relies on, whose internals are
      not part of this model. */
  datatype Numerics = Numerics(
    weiToEther: nat -> string,             // ethers.utils.formatEther(bigNumber)
    hexToEther: string -> Option<string>,  // ethers.utils.formatEther(hexString); None when it throws
    numberText: real -> string,            // Number.prototype.toString
    toFixed5: string -> string)            // Number(text).toFixed(5)

  /** The fallback shown for a falsy amount and for an amount that cannot be formatted. */
  const ZeroAmount: string := "0.00000"

  /** `!amount`: the empty string, 0 and NaN are falsy; a BigNumber is an object and never is. */
  predicate Falsy(a: Amount) {
    match a
    case Text(t) => t == ""
    case Number(n) => !NumTruthy(n)
    case Big(_) => false
  }

  /** The string handed to `Number(...)`: BigNumbers and `0x` strings go through `formatEther`,
      everything else through `toString`; None when `formatEther` throws. */
  function Converted(a: Amount, n: Numerics): Option<string> {
    match a
    case Big(w) => Some(n.weiToEther(w))
    case Text(t) => if StartsWith(t, "0x") then n.hexToEther(t) else Some(t)
    case Number(x) => if x.Real? then Some(n.numberText(x.value)) else Some("NaN")
  }

  /** `formatTokenAmount`: never throws; falsy input and a failed conversion give the fallback. */
  function FormatTokenAmount(a: Amount, n: Numerics): (r: string)
    ensures Falsy(a) ==> r == ZeroAmount
    ensures a.Text? && a.text != "" && !StartsWith(a.text, "0x") ==> r == n.toFixed5(a.text)
    ensures a.Text? && StartsWith(a.text, "0x") ==>
      r == (match n.hexToEther(a.text) case Some(e) => n.toFixed5(e) case None => ZeroAmount)
    ensures a.Big? ==> r == n.toFixed5(n.weiToEther(a.wei))
    ensures a.Number? && NumTruthy(a.num) ==> r == n.toFixed5(n.numberText(a.num.value))
  {
    if Falsy(a) then ZeroAmount
    else match Converted(a, n)
      case None => ZeroAmount
      case Some(t) => n.toFixed5(t)
  }

  function Digit(d: nat): (c: char)
    requires d < 10
    ensures '0' <= c <= '9'
  {
    "0123456789"[d]
  }

  /** BigNumber's `toString()`: the decimal digits of a non-negative integer. */
  function DecimalString(v: nat): (r: string)
    ensures r != []
    ensures forall i :: 0 <= i < |r| ==> '0' <= r[i] <= '9'
    decreases v
  {
    if v < 10 then [Digit(v)] else DecimalString(v / 10) + [Digit(v % 10)]
  }

  /** The decimal text of an integer is formatted verbatim: it is never empty and never starts
      with `0x`, so it does not go through `formatEther`. */
  lemma DecimalStringIsVerbatim(v: nat, n: Numerics)
    ensures FormatTokenAmount(Text(DecimalString(v)), n) == n.toFixed5(DecimalString(v))
  {
    var t := DecimalString(v);
    if |t| >= 2 {
      assert t[..2][1] != 'x';
    }
  }
}
