/** The random codes the team and event dialogs propose: a prefix followed by
    `Math.floor(10000 + Math.random() * 90000)`. The value of `Math.random()` is a
    parameter. */
module RandomCode {
  import opened Text

  /** `Math.floor(10000 + u * 90000)` for a draw `0 <= u < 1`. */
  function FiveDigitNumber(u: real): (n: nat)
    requires 0.0 <= u < 1.0
    ensures 10000 <= n <= 99999
  {
    (10000.0 + u * 90000.0).Floor
  }

  /** The code `${prefix}${random}`. */
  function PrefixedCode(prefix: string, u: real): (code: string)
    requires 0.0 <= u < 1.0
    ensures |code| == |prefix| + 5
    ensures code[..|prefix|] == prefix
    ensures AllDigitsIn(code[|prefix|..], 10)
    ensures ParseInt(code[|prefix|..]) == Finite(FiveDigitNumber(u) as real)
  {
    var n := FiveDigitNumber(u);
    assert Pow10(4) == 10000;
    NatToStringLength(n, 4);
    ParseOfNatToString(n);
    var code := prefix + NatToString(n);
    assert code[|prefix|..] == NatToString(n);
    code
  }
}
