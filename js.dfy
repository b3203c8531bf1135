/**
  The few pieces of JavaScript value semantics the handlers rely on:
  optional request-body fields and their truthiness, `Number()` applied to a
  path parameter followed by the `isNaN(id) || id < 0` guard, template-string
  interpolation of integers, and `Array.prototype.join`.
 */
module Js {

  datatype Option<+T> = None | Some(value: T)

  /** A request-body field after destructuring: `undefined`/`null`, or a value. */
  datatype Field<+T> = Absent | Given(value: T)

  /** `!!f` for a text field: absent and "" are falsy. */
  predicate TextTruthy(f: Field<string>): (t: bool)
    ensures !t <==> f == Absent || f == Given("")
  {
    f.Given? && f.value != ""
  }

  /** `!!f` for a numeric field: absent and 0 are falsy. */
  predicate NumberTruthy(f: Field<int>): (t: bool)
    ensures !t <==> f == Absent || f == Given(0)
  {
    f.Given? && f.value != 0
  }

  /** `!!f` for a boolean field: absent and false are falsy. */
  predicate FlagTruthy(f: Field<bool>): (t: bool)
    ensures !t <==> f == Absent || f == Given(false)
  {
    f.Given? && f.value
  }

  /** The result of `Number(req.params.x)`: NaN, or an integer. */
  datatype NumParam = NaN | Num(n: int)

  /** The guard `isNaN(id) || id < 0`: the accepted id, or None when the guard fires. */
  function ValidId(p: NumParam): (r: Option<nat>)
    ensures r.None? <==> p.NaN? || p.n < 0
    ensures r.Some? ==> r.value == p.n
  {
    match p
    case NaN => None
    case Num(n) => if n < 0 then None else Some(n)
  }

  // ---------------------------------------------------------------------------
  // Decimal rendering of integers, as `${n}` does for an integral number.

  function DigitChar(d: nat): (c: char)
    requires d < 10
    ensures '0' <= c <= '9'
  {
    ('0' as int + d) as char
  }

  function DigitValue(c: char): nat {
    if '0' <= c <= '9' then c as int - '0' as int else 0
  }

  predicate AllDigits(s: string) {
    forall i :: 0 <= i < |s| ==> '0' <= s[i] <= '9'
  }

  function NatToString(n: nat): (s: string)
    ensures |s| >= 1 && AllDigits(s)
    ensures s[0] == '0' ==> n == 0
    decreases n
  {
    if n < 10 then [DigitChar(n)] else NatToString(n / 10) + [DigitChar(n % 10)]
  }

  /** `${n}`: an optional '-', then decimal digits without a leading zero, unless n is 0. */
  function IntToString(n: int): (s: string)
    ensures |s| >= 1
    ensures s[0] == '-' <==> n < 0
    ensures var digits := if n < 0 then s[1..] else s;
            |digits| >= 1 && AllDigits(digits) && (digits[0] == '0' ==> n == 0)
  {
    if n < 0 then "-" + NatToString(-n) else NatToString(n)
  }

  /** The inverse reading of a decimal string, used to state what the messages carry. */
  function ParseNat(s: string): nat
    decreases |s|
  {
    if s == [] then 0 else ParseNat(s[..|s| - 1]) * 10 + DigitValue(s[|s| - 1])
  }

  function ParseInt(s: string): int {
    if |s| > 0 && s[0] == '-' then 0 - ParseNat(s[1..]) as int else ParseNat(s) as int
  }

  lemma {:induction false} ParseNatToString(n: nat)
    ensures ParseNat(NatToString(n)) == n
    decreases n
  {
    var s := NatToString(n);
    if n >= 10 {
      ParseNatToString(n / 10);
      assert s[..|s| - 1] == NatToString(n / 10);
    }
  }

  /** Interpolating an id into a message loses nothing: the id can be read back. */
  lemma {:induction false} ParseIntToString(n: int)
    ensures ParseInt(IntToString(n)) == n
  {
    if n < 0 {
      ParseNatToString(-n);
      assert IntToString(n)[1..] == NatToString(-n);
    } else {
      ParseNatToString(n);
    }
  }

  /** Two different ids never render to the same text. */
  lemma IntToStringInjective(a: int, b: int)
    requires IntToString(a) == IntToString(b)
    ensures a == b
  {
    ParseIntToString(a);
    ParseIntToString(b);
  }

  // ---------------------------------------------------------------------------

  /** `parts.join(sep)`. */
  function Join(parts: seq<string>, sep: string): (r: string)
    ensures |parts| == 0 ==> r == ""
    ensures |parts| == 1 ==> r == parts[0]
    ensures |parts| >= 1 ==> |r| >= |parts[0]|
  {
    if |parts| == 0 then ""
    else if |parts| == 1 then parts[0]
    else parts[0] + sep + Join(parts[1..], sep)
  }

}
