/** The Python values the library passes around as command-line arguments,
    their `str()` rendering, and the exceptions the modelled code raises. */
module PyValues {

  import opened Wrappers

  /** A Python object given as a positional or keyword argument: a `str`, an
      `int`, one of the two `bool` singletons, or `None`. */
  datatype PyValue = Str(s: string) | Int(i: int) | Bool(b: bool) | NoneValue

  /** The exceptions the modelled code can raise. */
  datatype PyError =
    | AttributeError
    | IndexError
    | KeyError(key: string)
    | TypeError
    | ValueError(message: string)
    | RecursionError
    | OSError

  /** The decimal digit for `d`. */
  function Digit(d: nat): (c: char)
    requires d < 10
    ensures '0' <= c <= '9'
  {
    "0123456789"[d]
  }

  predicate IsDigit(c: char) {
    '0' <= c <= '9'
  }

  /** `str(n)` for a non-negative integer: its decimal digits, without leading zeros. */
  function NatToDecimal(n: nat): (s: string)
    ensures s != [] && forall k | 0 <= k < |s| :: IsDigit(s[k])
    ensures |s| > 1 ==> s[0] != '0'
  {
    if n < 10 then [Digit(n)] else NatToDecimal(n / 10) + [Digit(n % 10)]
  }

  /** `int(s)` for a string of decimal digits. */
  function ParseDecimal(s: string): nat
    requires forall k | 0 <= k < |s| :: IsDigit(s[k])
  {
    if s == [] then 0
    else
      assert IsDigit(s[|s| - 1]);
      10 * ParseDecimal(s[..|s| - 1]) + (s[|s| - 1] as int - '0' as int)
  }

  /** `str(i)` for any integer: a minus sign for negative numbers. */
  function IntToDecimal(i: int): string {
    if i < 0 then "-" + NatToDecimal(-i) else NatToDecimal(i)
  }

  /** `int(s)` for what `str(i)` produces; `None` for anything else. */
  function ParseInt(s: string): Option<int>
  {
    if |s| > 1 && s[0] == '-' && forall k | 1 <= k < |s| :: IsDigit(s[k]) then
      Some(-(ParseDecimal(s[1..]) as int))
    else if s != [] && forall k | 0 <= k < |s| :: IsDigit(s[k]) then
      Some(ParseDecimal(s))
    else None
  }

  /** Reading back the decimal digits of a natural number gives the number. */
  lemma {:induction false} NatDecimalRoundTrip(n: nat)
    ensures ParseDecimal(NatToDecimal(n)) == n
  {
    if n >= 10 {
      NatDecimalRoundTrip(n / 10);
      var s := NatToDecimal(n);
      assert s[..|s| - 1] == NatToDecimal(n / 10);
    }
  }

  /** `int(str(i)) == i`. */
  lemma IntDecimalRoundTrip(i: int)
    ensures ParseInt(IntToDecimal(i)) == Some(i)
  {
    if i < 0 {
      NegativeRoundTrip(i);
    } else {
      NonNegativeRoundTrip(i);
    }
  }

  lemma NegativeRoundTrip(i: int)
    requires i < 0
    ensures ParseInt("-" + NatToDecimal(-i)) == Some(i)
  {
    var n: nat := -i;
    var d := NatToDecimal(n);
    NegatedDigits(d);
    NatDecimalRoundTrip(n);
    assert -(ParseDecimal(d) as int) == i;
  }

  /** A minus sign followed by digits reads as the negated number. */
  lemma NegatedDigits(d: string)
    requires d != [] && forall k | 0 <= k < |d| :: IsDigit(d[k])
    ensures ParseInt("-" + d) == Some(-(ParseDecimal(d) as int))
  {
    var s := "-" + d;
    assert s[1..] == d;
    assert forall k | 1 <= k < |s| :: s[k] == d[k - 1];
  }

  lemma NonNegativeRoundTrip(n: nat)
    ensures ParseInt(NatToDecimal(n)) == Some(n)
  {
    var d := NatToDecimal(n);
    assert IsDigit(d[0]);
    NatDecimalRoundTrip(n);
  }

  /** `str(v)`. */
  function ToStr(v: PyValue): string {
    match v
    case Str(s) => s
    case Int(i) => IntToDecimal(i)
    case Bool(b) => if b then "True" else "False"
    case NoneValue => "None"
  }

  /** `str()` of each value, in order. */
  function ToStrs(vs: seq<PyValue>): (r: seq<string>)
    ensures |r| == |vs| && forall k | 0 <= k < |vs| :: r[k] == ToStr(vs[k])
  {
    if vs == [] then [] else [ToStr(vs[0])] + ToStrs(vs[1..])
  }

  /** Strings wrapped as `str` values. */
  function Strs(ss: seq<string>): (r: seq<PyValue>)
    ensures |r| == |ss| && forall k | 0 <= k < |ss| :: r[k] == Str(ss[k])
  {
    if ss == [] then [] else [Str(ss[0])] + Strs(ss[1..])
  }

  /** `str()` is applied element by element. */
  lemma ToStrsAppend(a: seq<PyValue>, b: seq<PyValue>)
    ensures ToStrs(a + b) == ToStrs(a) + ToStrs(b)
  {
    assert forall k | 0 <= k < |a + b| :: (a + b)[k] == if k < |a| then a[k] else b[k - |a|];
  }

  /** `str()` of a `str` is the string itself. */
  lemma ToStrsOfStrs(ss: seq<string>)
    ensures ToStrs(Strs(ss)) == ss
  {
  }
}
