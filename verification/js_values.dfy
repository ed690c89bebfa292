/** The part of JavaScript's value semantics that the authentication flow
    depends on: truthiness (`!x`), the `Number(...)` coercion, strict equality
    `===` on numbers and JSON scalars, the `<` comparison against a `Date`, and
    the decimal text of a non-negative integer (`${n}`).

    Numbers are exact reals: rounding to IEEE-754 binary64 and overflow to
    Infinity are not modelled. */
module JsValues {
  import opened Wrappers

  /** A JavaScript number value. The two zeros are one real here, which is
      harmless because `===` does not distinguish them either. */
  datatype Number = Finite(value: real) | PosInfinity | NegInfinity | NaN

  /** A scalar read out of a parsed JSON document (a request body or a token
      payload); `Undefined` is a property that is not there. Arrays and objects
      are not modelled. */
  datatype Value = Undefined | Null | Bool(b: bool) | Num(n: real) | Str(s: string)

  /** `!!v` */
  predicate Truthy(v: Value) {
    match v
    case Undefined => false
    case Null => false
    case Bool(b) => b
    case Num(n) => n != 0.0
    case Str(s) => s != ""
  }

  /** The JSON value of an optional string field (`undefined` when absent). */
  function FromOption(o: Option<string>): (v: Value)
    ensures Truthy(v) <==> o.Some? && o.value != ""
  {
    match o
    case None => Undefined
    case Some(s) => Str(s)
  }

  /** `a === b` on two numbers: NaN equals nothing, not even itself. */
  predicate NumberEquals(a: Number, b: Number) {
    match (a, b)
    case (Finite(x), Finite(y)) => x == y
    case (PosInfinity, PosInfinity) => true
    case (NegInfinity, NegInfinity) => true
    case _ => false
  }

  /** `a < b` on two numbers: any comparison with NaN is false. */
  predicate NumberLess(a: Number, b: Number) {
    match (a, b)
    case (Finite(x), Finite(y)) => x < y
    case (NegInfinity, Finite(_)) => true
    case (NegInfinity, PosInfinity) => true
    case (Finite(_), PosInfinity) => true
    case _ => false
  }

  /** `a === b` on two JSON scalars. */
  predicate StrictEquals(a: Value, b: Value) {
    match (a, b)
    case (Undefined, Undefined) => true
    case (Null, Null) => true
    case (Bool(x), Bool(y)) => x == y
    case (Num(x), Num(y)) => x == y
    case (Str(x), Str(y)) => x == y
    case _ => false
  }

  /** `Number(v)` for a JSON scalar. */
  function ToNumber(v: Value): Number {
    match v
    case Undefined => NaN
    case Null => Finite(0.0)
    case Bool(b) => Finite(if b then 1.0 else 0.0)
    case Num(n) => Finite(n)
    case Str(s) => StringToNumber(s)
  }

  /** `v < date`, where the right operand is a `Date` whose time value is
      `timeMs`: the Date becomes its time value, so the left operand is
      converted with `Number(...)` and the two numbers are compared. */
  predicate LessThanDate(v: Value, timeMs: int) {
    NumberLess(ToNumber(v), Finite(timeMs as real))
  }

  // ---------------------------------------------------------------------
  // Number(string): the StringNumericLiteral grammar of ECMAScript
  // ---------------------------------------------------------------------

  /** The white-space and line-terminator code points that `Number(...)`
      strips from both ends of its argument. */
  predicate IsWhiteSpace(c: char) {
    || c == '\t' || c == '\n' || c == '\U{000B}' || c == '\U{000C}' || c == '\r'
    || c == ' ' || c == '\U{00A0}' || c == '\U{1680}'
    || ('\U{2000}' <= c <= '\U{200A}')
    || c == '\U{2028}' || c == '\U{2029}' || c == '\U{202F}' || c == '\U{205F}'
    || c == '\U{3000}' || c == '\U{FEFF}'
  }

  function TrimStart(s: string): (r: string)
    ensures |r| <= |s| && r == s[|s| - |r|..]
    ensures |r| > 0 ==> !IsWhiteSpace(r[0])
    decreases |s|
  {
    if |s| > 0 && IsWhiteSpace(s[0]) then TrimStart(s[1..]) else s
  }

  function TrimEnd(s: string): (r: string)
    ensures |r| <= |s| && r == s[..|r|]
    ensures |r| > 0 ==> !IsWhiteSpace(r[|r| - 1])
    decreases |s|
  {
    if |s| > 0 && IsWhiteSpace(s[|s| - 1]) then TrimEnd(s[..|s| - 1]) else s
  }

  function Trim(s: string): string {
    TrimEnd(TrimStart(s))
  }

  /** The value of a hexadecimal digit of either case, -1 for anything else. */
  function DigitValue(c: char): (d: int)
    ensures -1 <= d < 16
  {
    if '0' <= c <= '9' then c as int - '0' as int
    else if 'a' <= c <= 'f' then c as int - 'a' as int + 10
    else if 'A' <= c <= 'F' then c as int - 'A' as int + 10
    else -1
  }

  predicate AllDigits(s: string, radix: nat) {
    forall i :: 0 <= i < |s| ==> 0 <= DigitValue(s[i]) < radix
  }

  /** The value of a digit string read most significant digit first. */
  function DigitsValue(s: string, radix: nat): nat
    requires AllDigits(s, radix)
    decreases |s|
  {
    if s == [] then 0
    else DigitsValue(s[..|s| - 1], radix) * radix + DigitValue(s[|s| - 1])
  }

  function Pow10(n: nat): (p: real)
    ensures p >= 1.0
  {
    if n == 0 then 1.0 else 10.0 * Pow10(n - 1)
  }

  /** The index of the first character of `s` that is in `stops`, or `|s|`. */
  function IndexOf(s: string, stops: set<char>): (k: nat)
    ensures k <= |s|
    ensures k < |s| ==> s[k] in stops
    ensures forall i :: 0 <= i < k ==> s[i] !in stops
    decreases |s|
  {
    if s == [] then 0
    else if s[0] in stops then 0
    else 1 + IndexOf(s[1..], stops)
  }

  /** The radix announced by the letter after a leading `0` (`0x`, `0o`, `0b`),
      or 0 when the letter announces none. */
  function RadixOf(c: char): nat {
    if c == 'x' || c == 'X' then 16
    else if c == 'o' || c == 'O' then 8
    else if c == 'b' || c == 'B' then 2
    else 0
  }

  function Negate(n: Number): Number {
    match n
    case Finite(x) => Finite(-x)
    case PosInfinity => NegInfinity
    case NegInfinity => PosInfinity
    case NaN => NaN
  }

  /** Digits with an optional fraction: `12`, `12.`, `12.5`, `.5`. */
  function Mantissa(m: string): Option<real> {
    var j := IndexOf(m, {'.'});
    if j == |m| then
      if m != "" && AllDigits(m, 10) then Some(DigitsValue(m, 10) as real) else None
    else
      var whole := m[..j];
      var fraction := m[j + 1..];
      if |whole| + |fraction| > 0 && AllDigits(whole, 10) && AllDigits(fraction, 10)
      then Some(DigitsValue(whole, 10) as real + DigitsValue(fraction, 10) as real / Pow10(|fraction|))
      else None
  }

  /** The digits after `e`/`E`, with an optional sign. */
  function Exponent(x: string): Option<int> {
    if x == "" then None
    else if x[0] == '+' || x[0] == '-' then
      var digits := x[1..];
      if digits != "" && AllDigits(digits, 10) then
        var magnitude: int := DigitsValue(digits, 10);
        Some(if x[0] == '-' then -magnitude else magnitude)
      else None
    else if AllDigits(x, 10) then Some(DigitsValue(x, 10))
    else None
  }

  function Scale(m: real, e: int): real {
    if e >= 0 then m * Pow10(e) else m / Pow10(-e)
  }

  function UnsignedDecimal(u: string): Number {
    if u == "Infinity" then PosInfinity
    else
      var k := IndexOf(u, {'e', 'E'});
      var mantissa := Mantissa(u[..k]);
      var exponent := if k == |u| then Some(0) else Exponent(u[k + 1..]);
      if mantissa.Some? && exponent.Some? then Finite(Scale(mantissa.value, exponent.value))
      else NaN
  }

  function SignedDecimal(t: string): Number
    requires t != ""
  {
    if t[0] == '+' then UnsignedDecimal(t[1..])
    else if t[0] == '-' then Negate(UnsignedDecimal(t[1..]))
    else UnsignedDecimal(t)
  }

  /** `Number(s)` for a string `s`: surrounding white space is ignored, an
      empty or all-blank string is 0, `0x`/`0o`/`0b` introduce an unsigned
      integer in radix 16/8/2, and otherwise the text must be a signed decimal
      literal (with optional fraction and exponent) or `Infinity`; anything
      else is NaN. */
  function StringToNumber(s: string): Number {
    var t := Trim(s);
    if t == "" then Finite(0.0)
    else if |t| >= 2 && t[0] == '0' && RadixOf(t[1]) > 0 then
      var digits := t[2..];
      if digits != "" && AllDigits(digits, RadixOf(t[1]))
      then Finite(DigitsValue(digits, RadixOf(t[1])) as real)
      else NaN
    else SignedDecimal(t)
  }

  // ---------------------------------------------------------------------
  // `${n}` for a non-negative integer
  // ---------------------------------------------------------------------

  function DigitChar(d: nat): (c: char)
    requires d < 10
    ensures DigitValue(c) == d
  {
    (d + '0' as int) as char
  }

  /** The decimal text of `n` without leading zeros, as a template literal
      renders an integer-valued number. */
  function IntegerText(n: nat): (s: string)
    ensures |s| > 0 && AllDigits(s, 10)
    decreases n
  {
    if n < 10 then [DigitChar(n)] else IntegerText(n / 10) + [DigitChar(n % 10)]
  }

  // ---------------------------------------------------------------------
  // Lemmas
  // ---------------------------------------------------------------------

  /** Reading back the decimal text of `n` gives `n`. */
  lemma {:induction false} IntegerTextValue(n: nat)
    ensures DigitsValue(IntegerText(n), 10) == n
    decreases n
  {
    if n >= 10 {
      var s := IntegerText(n);
      assert s[..|s| - 1] == IntegerText(n / 10);
      IntegerTextValue(n / 10);
    }
  }

  lemma TrimOfNonBlankEnds(s: string)
    requires |s| > 0 && !IsWhiteSpace(s[0]) && !IsWhiteSpace(s[|s| - 1])
    ensures Trim(s) == s
  {
  }

  lemma DecimalDigitIsNot(c: char)
    requires 0 <= DigitValue(c) < 10
    ensures !IsWhiteSpace(c) && RadixOf(c) == 0
    ensures c != '+' && c != '-' && c != '.' && c != 'e' && c != 'E' && c != 'I'
  {
  }

  lemma IndexOfMissing(s: string, stops: set<char>)
    requires forall i :: 0 <= i < |s| ==> s[i] !in stops
    ensures IndexOf(s, stops) == |s|
  {
  }

  lemma MantissaOfDecimalDigits(s: string)
    requires |s| > 0 && AllDigits(s, 10)
    ensures Mantissa(s) == Some(DigitsValue(s, 10) as real)
  {
    forall i | 0 <= i < |s|
      ensures s[i] !in {'.'}
    {
      DecimalDigitIsNot(s[i]);
    }
    IndexOfMissing(s, {'.'});
  }

  lemma UnsignedOfDecimalDigits(s: string)
    requires |s| > 0 && AllDigits(s, 10)
    ensures UnsignedDecimal(s) == Finite(DigitsValue(s, 10) as real)
  {
    DecimalDigitIsNot(s[0]);
    assert s != "Infinity" by {
      assert s[0] != 'I';
    }
    forall i | 0 <= i < |s|
      ensures s[i] !in {'e', 'E'}
    {
      DecimalDigitIsNot(s[i]);
    }
    IndexOfMissing(s, {'e', 'E'});
    assert s[..|s|] == s;
    MantissaOfDecimalDigits(s);
  }

  /** A non-empty string of decimal digits is read by `Number` as the integer
      it spells. */
  lemma NumberOfDecimalDigits(s: string)
    requires |s| > 0 && AllDigits(s, 10)
    ensures StringToNumber(s) == Finite(DigitsValue(s, 10) as real)
  {
    DecimalDigitIsNot(s[0]);
    DecimalDigitIsNot(s[|s| - 1]);
    TrimOfNonBlankEnds(s);
    if |s| >= 2 {
      DecimalDigitIsNot(s[1]);
    }
    assert SignedDecimal(s) == UnsignedDecimal(s);
    UnsignedOfDecimalDigits(s);
  }

  /** `Number` reads the decimal text of an integer back as that integer: the
      string `"1234"` submitted for the stored code 1234 compares equal. */
  lemma NumberOfIntegerText(n: nat)
    ensures StringToNumber(IntegerText(n)) == Finite(n as real)
  {
    NumberOfDecimalDigits(IntegerText(n));
    IntegerTextValue(n);
  }

  /** `Number("")` is 0. */
  lemma EmptyTextIsZero()
    ensures StringToNumber("") == Finite(0.0)
  {
    assert TrimStart("") == "";
    assert TrimEnd("") == "";
  }

  /** A value `Number` maps to NaN is never less than a date. */
  lemma NaNIsNeverEarlier(v: Value, timeMs: int)
    requires ToNumber(v) == NaN
    ensures !LessThanDate(v, timeMs)
  {
  }

  /** `Number("0")` is 0. */
  lemma ZeroText()
    ensures StringToNumber("0") == Finite(0.0)
  {
    NumberOfIntegerText(0);
    assert IntegerText(0) == "0";
  }

  /** The characters a numeric string can be made of once trimmed. */
  predicate NumericChar(c: char) {
    || '0' <= c <= '9' || 'a' <= c <= 'f' || 'A' <= c <= 'F'
    || c == 'x' || c == 'X' || c == 'o' || c == 'O' || c == 'b' || c == 'B'
    || c == '+' || c == '-' || c == '.' || c == 'e' || c == 'E'
    || c == 'I' || c == 'n' || c == 'i' || c == 't' || c == 'y'
  }

  predicate NumericText(s: string) {
    forall i :: 0 <= i < |s| ==> NumericChar(s[i])
  }

  lemma DigitsAreNumeric(s: string, radix: nat)
    requires AllDigits(s, radix)
    ensures NumericText(s)
  {
    forall i | 0 <= i < |s|
      ensures NumericChar(s[i])
    {
      assert 0 <= DigitValue(s[i]);
    }
  }

  lemma MantissaIsNumeric(m: string)
    requires Mantissa(m).Some?
    ensures NumericText(m)
  {
    var j := IndexOf(m, {'.'});
    if j == |m| {
      DigitsAreNumeric(m, 10);
    } else {
      DigitsAreNumeric(m[..j], 10);
      DigitsAreNumeric(m[j + 1..], 10);
      forall i | 0 <= i < |m|
        ensures NumericChar(m[i])
      {
        if i < j {
          assert m[i] == m[..j][i];
        } else if i > j {
          assert m[i] == m[j + 1..][i - j - 1];
        }
      }
    }
  }

  lemma ExponentIsNumeric(x: string)
    requires Exponent(x).Some?
    ensures NumericText(x)
  {
    if x[0] == '+' || x[0] == '-' {
      DigitsAreNumeric(x[1..], 10);
      forall i | 1 <= i < |x|
        ensures NumericChar(x[i])
      {
        assert x[i] == x[1..][i - 1];
      }
    } else {
      DigitsAreNumeric(x, 10);
    }
  }

  lemma InfinityIsNumeric()
    ensures NumericText("Infinity")
  {
    var w := "Infinity";
    assert w[0] == 'I' && w[1] == 'n' && w[2] == 'f' && w[3] == 'i';
    assert w[4] == 'n' && w[5] == 'i' && w[6] == 't' && w[7] == 'y';
  }

  lemma FiniteDecimalIsNumeric(u: string)
    requires u != "Infinity" && UnsignedDecimal(u) != NaN
    ensures NumericText(u)
  {
    var k := IndexOf(u, {'e', 'E'});
    MantissaIsNumeric(u[..k]);
    if k < |u| {
      ExponentIsNumeric(u[k + 1..]);
    }
    forall i | 0 <= i < |u|
      ensures NumericChar(u[i])
    {
      if i < k {
        assert u[i] == u[..k][i];
      } else if i > k {
        assert u[i] == u[k + 1..][i - k - 1];
      }
    }
  }

  lemma UnsignedIsNumeric(u: string)
    requires UnsignedDecimal(u) != NaN
    ensures NumericText(u)
  {
    if u == "Infinity" {
      InfinityIsNumeric();
    } else {
      FiniteDecimalIsNumeric(u);
    }
  }

  /** A string `Number` does not map to NaN consists, after trimming, only of
      digits, signs, `.`, exponent and radix letters and the letters of
      `Infinity`. */
  lemma {:induction false} NonNaNIsNumericText(s: string)
    requires StringToNumber(s) != NaN
    ensures NumericText(Trim(s))
  {
    var t := Trim(s);
    if t == "" {
    } else if |t| >= 2 && t[0] == '0' && RadixOf(t[1]) > 0 {
      DigitsAreNumeric(t[2..], RadixOf(t[1]));
      forall i | 2 <= i < |t|
        ensures NumericChar(t[i])
      {
        assert t[i] == t[2..][i - 2];
      }
    } else if t[0] == '+' || t[0] == '-' {
      UnsignedIsNumeric(t[1..]);
      forall i | 1 <= i < |t|
        ensures NumericChar(t[i])
      {
        assert t[i] == t[1..][i - 1];
      }
    } else {
      UnsignedIsNumeric(t);
    }
  }

  /** Trimming the start never removes a last character that is not white
      space. */
  lemma {:induction false} TrimStartKeepsLast(s: string)
    requires |s| > 0 && !IsWhiteSpace(s[|s| - 1])
    ensures |TrimStart(s)| > 0 && TrimStart(s)[|TrimStart(s)| - 1] == s[|s| - 1]
    decreases |s|
  {
    if IsWhiteSpace(s[0]) {
      assert |s| > 1;
      var rest := s[1..];
      assert rest[|rest| - 1] == s[|s| - 1];
      TrimStartKeepsLast(rest);
      assert TrimStart(s) == TrimStart(rest);
    } else {
      assert TrimStart(s) == s;
    }
  }

  lemma TrimEndOfNonBlankEnd(u: string)
    requires |u| > 0 && !IsWhiteSpace(u[|u| - 1])
    ensures TrimEnd(u) == u
  {
  }

  /** Trimming never removes a last character that is not white space. */
  lemma TrimKeepsLastNonBlank(s: string)
    requires |s| > 0 && !IsWhiteSpace(s[|s| - 1])
    ensures |Trim(s)| > 0 && Trim(s)[|Trim(s)| - 1] == s[|s| - 1]
  {
    TrimStartKeepsLast(s);
    TrimEndOfNonBlankEnd(TrimStart(s));
  }

  /** Any string whose last character is neither white space (which `Number`
      trims) nor in the numeric alphabet — such as the `Z` that closes an
      ISO 8601 date — is NaN to `Number`. */
  lemma NonNumericEndIsNaN(s: string)
    requires |s| > 0 && !IsWhiteSpace(s[|s| - 1]) && !NumericChar(s[|s| - 1])
    ensures StringToNumber(s) == NaN
  {
    TrimKeepsLastNonBlank(s);
    var t := Trim(s);
    assert !NumericText(t) by {
      assert !NumericChar(t[|t| - 1]);
    }
    if StringToNumber(s) != NaN {
      NonNaNIsNumericText(s);
      assert false;
    }
  }

  /** A string ending in `Z` is NaN to `Number`. */
  lemma ZEndedTextIsNaN(s: string)
    requires |s| > 0 && s[|s| - 1] == 'Z'
    ensures ToNumber(Str(s)) == NaN
  {
    NonNumericEndIsNaN(s);
  }
}
