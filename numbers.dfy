/**
 * `Number(v)` on the strings the campaign list reads from its query string: the StringToNumber
 * grammar of ECMAScript. Surrounding whitespace is ignored and an empty string is 0. Otherwise it
 * reads an optional sign and then `Infinity` or decimal digits, with an optional fraction and
 * exponent. It also reads the unsigned `0x`, `0o` and `0b` integer forms. Anything else is NaN.
 * Values are kept exact; a magnitude of 2^1024 - 2^970 or more (one that rounds past the largest
 * double) becomes Infinity.
 */
module Numbers {
  import opened Options
  import opened Strings

  datatype JsNumber = NaN | Infinity(negative: bool) | Finite(value: real)

  function Pow(b: nat, e: nat): (r: nat)
    ensures b >= 1 ==> r >= 1
  {
    if e == 0 then 1 else b * Pow(b, e - 1)
  }

  /** 2^1024 - 2^970: the smallest magnitude that rounds to Infinity under round-to-nearest-even. */
  const OverflowBound: int := 179769313486231580793728971405303415079934132710037826936173778980444968292764750946649017977587207096330286416692887910946555547851940402630657488671505820681908902000708383676273854845817711531764475730270069855571366959622842914819860834936475292719074168444365510704342711559699508093042880177904174497792

  /** 2^53: every integer below it is held exactly by a double. */
  const SafeLimit: int := 9007199254740992

  /** The value of a digit character in bases up to 16; 16 for any other character. */
  function DigitValue(c: char): nat {
    if '0' <= c <= '9' then c as int - '0' as int
    else if 'a' <= c <= 'f' then c as int - 'a' as int + 10
    else if 'A' <= c <= 'F' then c as int - 'A' as int + 10
    else 16
  }

  predicate AllDigits(s: string, radix: nat) {
    forall i :: 0 <= i < |s| ==> DigitValue(s[i]) < radix
  }

  /** The value of a digit string in `radix`, most significant digit first. */
  function DigitsValue(s: string, radix: nat): nat
    decreases |s|
  {
    if s == [] then 0 else DigitsValue(s[..|s| - 1], radix) * radix + DigitValue(s[|s| - 1])
  }

  /** The first position holding `a` or `b`, or `|s|` when there is none. */
  function IndexOfEither(s: string, a: char, b: char): (i: nat)
    ensures i <= |s|
    ensures i < |s| ==> s[i] == a || s[i] == b
    ensures forall j :: 0 <= j < i ==> s[j] != a && s[j] != b
  {
    if s == [] then 0
    else if s[0] == a || s[0] == b then 0
    else 1 + IndexOfEither(s[1..], a, b)
  }

  /** Rounding an exact non-negative magnitude: only the overflow to Infinity is modelled. */
  function Rounded(negative: bool, v: real): JsNumber {
    if v >= OverflowBound as real then Infinity(negative)
    else Finite(if negative then -v else v)
  }

  /** A `0x`/`0o`/`0b` literal's digits: at least one, every one below the radix. */
  function NonDecimal(digits: string, radix: nat): JsNumber {
    if digits != [] && AllDigits(digits, radix) then Rounded(false, DigitsValue(digits, radix) as real)
    else NaN
  }

  /** An exponent: an optional sign and at least one decimal digit. */
  function Exponent(x: string): Option<int> {
    var negative := x != [] && x[0] == '-';
    var digits := if x != [] && (x[0] == '-' || x[0] == '+') then x[1..] else x;
    var v: int := DigitsValue(digits, 10);
    if digits != [] && AllDigits(digits, 10) then Some(if negative then -v else v)
    else None
  }

  /** The unsigned decimal forms `d.dEx`, `d.`, `.dEx` and `d` with an optional exponent. */
  function UnsignedDecimal(u: string): Option<real> {
    var e := IndexOfEither(u, 'e', 'E');
    var mantissa := u[..e];
    var dot := IndexOfEither(mantissa, '.', '.');
    var whole := mantissa[..dot];
    var fraction := if dot < |mantissa| then mantissa[dot + 1..] else [];
    if |whole| + |fraction| == 0 || !AllDigits(whole, 10) || !AllDigits(fraction, 10) then None
    else
      var m := DigitsValue(whole, 10) as real + DigitsValue(fraction, 10) as real / Pow(10, |fraction|) as real;
      if e == |u| then Some(m)
      else match Exponent(u[e + 1..])
        case None => None
        case Some(x) => Some(if x >= 0 then m * Pow(10, x) as real else m / Pow(10, -x) as real)
  }

  function SignedDecimal(t: string): JsNumber
    requires t != []
  {
    var negative := t[0] == '-';
    var u := if t[0] == '-' || t[0] == '+' then t[1..] else t;
    if u == "Infinity" then Infinity(negative)
    else match UnsignedDecimal(u)
      case None => NaN
      case Some(v) => Rounded(negative, v)
  }

  /** `Number(s)`: blank text is 0, a signed `Infinity` is infinite, and decimal text is read exactly. */
  function StringToNumber(s: string): (r: JsNumber)
    ensures Trim(s) == [] ==> r == Finite(0.0)
    ensures Trim(s) == "Infinity" || Trim(s) == "+Infinity" ==> r == Infinity(false)
    ensures Trim(s) == "-Infinity" ==> r == Infinity(true)
  {
    var t := Trim(s);
    if t == [] then Finite(0.0)
    else if |t| >= 2 && t[0] == '0' && (t[1] == 'x' || t[1] == 'X') then NonDecimal(t[2..], 16)
    else if |t| >= 2 && t[0] == '0' && (t[1] == 'o' || t[1] == 'O') then NonDecimal(t[2..], 8)
    else if |t| >= 2 && t[0] == '0' && (t[1] == 'b' || t[1] == 'B') then NonDecimal(t[2..], 2)
    else SignedDecimal(t)
  }

  /** `Number` ignores the whitespace around its text. */
  lemma NumberIgnoresBlanks(s: string)
    ensures StringToNumber(Trim(s)) == StringToNumber(s)
  {
  }

  /** `Number(v)` for an optional query-string value; `Number(undefined)` is NaN. */
  function ToNumber(v: Option<string>): (r: JsNumber)
    ensures v.None? ==> r.NaN?
    ensures v.Some? && Trim(v.value) == [] ==> r == Finite(0.0)
  {
    match v
    case None => NaN
    case Some(s) => StringToNumber(s)
  }

  function DigitChar(d: nat): (c: char)
    requires d < 10
    ensures DigitValue(c) == d
  {
    ('0' as int + d) as char
  }

  /** `String(n)` for a non-negative integer below 10^21: its decimal digits, without leading zeros. */
  function DecimalString(n: nat): (s: string)
    ensures s != [] && AllDigits(s, 10)
    ensures s[0] == '0' ==> n == 0
    ensures DigitsValue(s, 10) == n
    decreases n
  {
    if n < 10 then [DigitChar(n)]
    else
      var s := DecimalString(n / 10) + [DigitChar(n % 10)];
      assert s[..|s| - 1] == DecimalString(n / 10);
      s
  }

  /** A digit string carries no whitespace, sign, radix prefix, dot or exponent. */
  lemma DigitsAreTrimmed(s: string)
    requires s != [] && AllDigits(s, 10)
    ensures IsTrimmed(s)
    ensures IndexOfEither(s, 'e', 'E') == |s| && IndexOfEither(s, '.', '.') == |s|
  {
    assert DigitValue(s[0]) < 10 && DigitValue(s[|s| - 1]) < 10;
    assert forall j :: 0 <= j < |s| ==> s[j] != 'e' && s[j] != 'E' && s[j] != '.' by {
      forall j | 0 <= j < |s| ensures s[j] != 'e' && s[j] != 'E' && s[j] != '.' {
        assert DigitValue(s[j]) < 10;
      }
    }
  }

  /** `Number(String(n))` is `n` for every safe non-negative integer: the page links read back exactly. */
  lemma NumberOfDecimalString(n: nat)
    requires n < SafeLimit
    ensures StringToNumber(DecimalString(n)) == Finite(n as real)
  {
    var s := DecimalString(n);
    DigitsAreTrimmed(s);
    assert Trim(s) == s;
    assert DigitValue(s[0]) < 10;
    assert s[0] != '-' && s[0] != '+';
    assert s != "Infinity" by { assert DigitValue('I') == 16; }
    if |s| >= 2 {
      assert DigitValue(s[1]) < 10;
      assert s[1] != 'x' && s[1] != 'X' && s[1] != 'o' && s[1] != 'O' && s[1] != 'b' && s[1] != 'B';
    }
    assert s[..|s|] == s;
    assert UnsignedDecimal(s) == Some(n as real);
  }
}
