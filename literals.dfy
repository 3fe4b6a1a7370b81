/** Numbers, expression-list items and expression trees shared by the RPN and Karva representations. */
module Literals {

  import opened Text

  /**
   * A Python number as the expression lists hold it: an `int`, or a `float` written as a decimal
   * literal, `Float(m, e)` standing for m * 10^-e (so 2.2 is Float(22, 1) and 1.0 is Float(10, 1)).
   */
  datatype Num = Int(i: int) | Float(mantissa: int, exponent: nat)

  /** An element of an RPN or Karva expression list: a number, or a string (digits, variable or operator name). */
  datatype Item = Number(n: Num) | Str(s: string)

  /** An expression tree: karva.py's TreeNode, a value with its children in order. */
  datatype Tree = Node(value: Item, children: seq<Tree>)

  function Pow10(e: nat): (r: nat)
    ensures r >= 1
  {
    if e == 0 then 1 else 10 * Pow10(e - 1)
  }

  /** The shortest decimal for m * 10^-e: trailing zero digits of the fraction dropped. */
  function Canon(m: int, e: nat): (r: (int, nat))
    ensures r.1 <= e
    ensures r.1 > 0 ==> r.0 % 10 != 0
    ensures r.0 * Pow10(e - r.1) == m
    decreases e
  {
    if e > 0 && m % 10 == 0 then
      var r := Canon(m / 10, e - 1);
      assert r.0 * Pow10(e - 1 - r.1) == m / 10;
      assert Pow10(e - r.1) == 10 * Pow10(e - 1 - r.1);
      r
    else (m, e)
  }

  /** n zero characters. */
  function Zeros(n: nat): (r: string)
    ensures |r| == n && forall i :: 0 <= i < n ==> r[i] == '0'
  {
    if n == 0 then "" else "0" + Zeros(n - 1)
  }

  /** `s` preceded by enough zeros to have at least n characters. */
  function PadZeros(s: string, n: nat): (r: string)
    ensures |r| == if |s| < n then n else |s|
  {
    if |s| < n then Zeros(n - |s|) + s else s
  }

  /**
   * Python's `str()` of a number: the decimal text of an int; for a float the shortest
   * decimal with at least one fractional digit ("1.0", "2.2", "-0.05").
   */
  function RenderNum(n: Num): string {
    match n
    case Int(i) => IntToString(i)
    case Float(m, e) =>
      var c := Canon(m, e);
      (if c.0 < 0 then "-" else "") + DecimalText(if c.0 < 0 then -c.0 else c.0, c.1)
  }

  /** The unsigned decimal text of a * 10^-e, with at least one fractional digit. */
  function DecimalText(a: nat, e: nat): string {
    if e == 0 then NatToString(a) + ".0"
    else
      var digits := PadZeros(NatToString(a), e + 1);
      digits[..|digits| - e] + "." + digits[|digits| - e..]
  }

  /** `str(2.2) == "2.2"` and `str(1.0) == "1.0"`: the trailing zero of 1.0 is dropped, then restored as ".0". */
  lemma FloatTexts()
    ensures RenderNum(Float(22, 1)) == "2.2"
    ensures RenderNum(Float(10, 1)) == "1.0"
  {
    assert Canon(22, 1) == (22, 1);
    assert NatToString(2) == "2";
    assert NatToString(22) == NatToString(2) + "2";
    assert PadZeros("22", 2) == "22";
    assert Canon(1, 0) == (1, 0);
    assert Canon(10, 1) == (1, 0);
    assert NatToString(1) == "1";
  }
}
