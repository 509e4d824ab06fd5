/**
 * PHP's implicit conversions as the analyser performs them on concrete values:
 * to boolean, to integer, to string, and the scanner that reads the leading
 * number out of a PHP string.
 *
 * The two copies of the conversion class (the analysis and the tainted-analysis
 * projects) agree on every conversion modelled here; the tainted copy reads
 * integers out of strings with the library parser directly
 * (`TaintedTryConvertToInteger`).
 */
module TypeConversion {
  import opened CSharp
  import opened Values
  import opened Wrappers

  // ----- boolean, integer and string conversions of scalars -----

  function ToBooleanInt(v: int): bool { v != 0 }

  /** A PHP string is falsy exactly when it is empty or is the single digit zero. */
  function ToBooleanString(s: string): (r: bool)
    ensures !r <==> (s == "" || s == "0")
  {
    |s| != 0 && s != "0"
  }

  /** `true` prints as "1" and `false` as the empty string; reading the text back gives the boolean. */
  function ToStringBool(b: bool): (r: string)
    ensures ToBooleanString(r) == b
    ensures |r| <= 1
  {
    if b then "1" else ""
  }

  /** `Convert.ToInt32` of a boolean: 1 or 0, which converts back to the same boolean. */
  function ToIntegerBool(b: bool): (r: int)
    ensures ToBooleanInt(r) == b
    ensures 0 <= r <= 1
  {
    if b then 1 else 0
  }

  /**
   * Narrowing of a `long` to an `int`: it succeeds exactly when the value is in the
   * range of `int`, and reports 0 otherwise.
   */
  function TryConvertToIntegerLong(v: Int64): (r: (bool, Int32))
    ensures r.0 <==> InInt32(v)
    ensures r.0 ==> r.1 == v
    ensures !r.0 ==> r.1 == 0
  {
    if v < MinValue || v > MaxValue then (false, 0) else (true, v)
  }

  /** Every number of the interval converts to the boolean `b`. */
  ghost predicate AllConvertTo(i: Interval, b: bool) {
    forall x :: i.Contains(x) ==> ToBooleanInt(x) == b
  }

  /**
   * Conversion of an interval to one boolean: `true` when zero is outside it,
   * `false` for the interval [0, 0], and no conversion for any other interval
   * that contains zero. The answer, when given, holds for every number of the
   * interval, and it is given whenever all numbers of a non-empty interval agree.
   */
  function TryConvertToBoolean(i: Interval): (r: (bool, bool))
    ensures r.0 && r.1 <==> !i.Contains(0)
    ensures r.0 && !r.1 <==> i.Start == 0 && i.End == 0
    ensures !r.0 ==> !r.1
    ensures r.0 ==> AllConvertTo(i, r.1)
    ensures forall b :: i.NonEmpty() && AllConvertTo(i, b) ==> r == (true, b)
  {
    assert i.Contains(i.Start) || !i.NonEmpty();
    if i.Start <= 0 && i.End >= 0 then
      if i.Start == 0 && i.End == 0 then (true, false)
      else
        assert !AllConvertTo(i, true) by { assert i.Contains(0); }
        assert !AllConvertTo(i, false) by {
          if i.Start != 0 { assert i.Contains(i.Start); } else { assert i.Contains(i.End); }
        }
        (false, false)
    else (true, true)
  }

  /**
   * Narrowing of a `long` interval to an `int` interval. Both endpoints are
   * narrowed left to right and the second is skipped once the first fails, so
   * a failed conversion reports [0, 0] or [Start, 0].
   */
  function TryConvertToIntegerInterval(start: Int64, end: Int64): (r: (bool, Interval))
    ensures r.0 <==> InInt32(start) && InInt32(end)
    ensures r.0 ==> r.1 == Interval(start, end)
    ensures !InInt32(start) ==> r.1 == Interval(0, 0)
    ensures InInt32(start) && !InInt32(end) ==> r.1 == Interval(start, 0)
  {
    var (okStart, castedStart) := TryConvertToIntegerLong(start);
    if okStart then
      var (okEnd, castedEnd) := TryConvertToIntegerLong(end);
      (okEnd, Interval(castedStart, castedEnd))
    else (false, Interval(castedStart, 0))
  }

  // ----- the type tests of ValueTypeResolver -----

  predicate IsIntType(v: Value) { v.IntInterval? || v.Int? || v.AnyInt? }
  predicate IsLongType(v: Value) { v.Long? || v.AnyLong? || v.LongInterval? }
  predicate IsFloatType(v: Value) { v.FloatInterval? || v.Float? || v.AnyFloat? }
  predicate IsBoolType(v: Value) { v.Bool? || v.AnyBool? }
  predicate IsStringType(v: Value) { v.Str? || v.AnyString? }
  predicate IsObjectType(v: Value) { v.Object? || v.AnyObject? }
  predicate IsArrayType(v: Value) { v.Array? || v.AnyArray? }

  /** Values of the boolean, integer, float and long kinds carry no taint; every other value can. */
  predicate CanBeDirty(v: Value)
  {
    !(IsBoolType(v) || IsIntType(v) || IsFloatType(v) || IsLongType(v))
  }

  lemma CanBeDirtyExactlyNonNumericNonBoolean(v: Value)
    ensures CanBeDirty(v) <==> !v.IsNumeric() && !v.Bool? && !v.AnyBool?
  {
  }

  // ----- characters -----

  /** The ASCII decimal digits, which stand for `char.IsDigit`. */
  predicate IsDigit(c: char) { '0' <= c <= '9' }

  /** The characters `char.IsWhiteSpace` accepts. */
  predicate IsWhiteSpace(c: char)
  {
    var n := c as int;
    (0x09 <= n <= 0x0D) || n == 0x20 || n == 0x85 || n == 0xA0 || n == 0x1680 ||
    (0x2000 <= n <= 0x200A) || n == 0x2028 || n == 0x2029 || n == 0x202F ||
    n == 0x205F || n == 0x3000
  }

  predicate IsHexDigit(c: char) { IsDigit(c) || ('a' <= c <= 'f') || ('A' <= c <= 'F') }

  /** The value of one hexadecimal digit, or nothing for any other character. */
  function HexDigitValue(c: char): (r: Option<int>)
    ensures r.Some? <==> IsHexDigit(c)
    ensures r.Some? ==> 0 <= r.value < 16
    ensures IsDigit(c) ==> r == Some(c as int - '0' as int)
  {
    if IsDigit(c) then Some(c as int - '0' as int)
    else if 'a' <= c <= 'f' then Some(10 + (c as int - 'a' as int))
    else if 'A' <= c <= 'F' then Some(10 + (c as int - 'A' as int))
    else None
  }

  // ----- the positions the scanner skips to -----

  /** The end of the run of digits starting at `i`. */
  function DigitsEnd(s: string, i: nat): (r: nat)
    requires i <= |s|
    ensures i <= r <= |s|
    ensures forall k :: i <= k < r ==> IsDigit(s[k])
    ensures r == |s| || !IsDigit(s[r])
    decreases |s| - i
  {
    if i == |s| || !IsDigit(s[i]) then i else DigitsEnd(s, i + 1)
  }

  /** The end of the run of white space starting at `i`. */
  function WhiteSpaceEnd(s: string, i: nat): (r: nat)
    requires i <= |s|
    ensures i <= r <= |s|
    ensures forall k :: i <= k < r ==> IsWhiteSpace(s[k])
    ensures r == |s| || !IsWhiteSpace(s[r])
    decreases |s| - i
  {
    if i == |s| || !IsWhiteSpace(s[i]) then i else WhiteSpaceEnd(s, i + 1)
  }

  /** Skips one optional sign character. */
  function SkipSign(s: string, i: nat): (r: nat)
    requires i <= |s|
    ensures r == i + 1 <==> i < |s| && (s[i] == '+' || s[i] == '-')
    ensures r == i || r == i + 1
  {
    if i < |s| && (s[i] == '+' || s[i] == '-') then i + 1 else i
  }

  /**
   * The end of an exponent `e`/`E`, optional sign, digits starting at `i`; `i`
   * itself when there is no exponent or no digit follows it.
   */
  function ExponentEnd(s: string, i: nat): (r: nat)
    requires i <= |s|
    ensures i <= r <= |s|
    ensures r > i ==> s[i] == 'e' || s[i] == 'E'
    ensures r > i ==> r == DigitsEnd(s, SkipSign(s, i + 1)) && r > SkipSign(s, i + 1)
  {
    if i < |s| && (s[i] == 'e' || s[i] == 'E') then
      var afterSign := SkipSign(s, i + 1);
      var end := DigitsEnd(s, afterSign);
      if end > afterSign then end else i
    else i
  }

  method SkipDigits(s: string, index: nat) returns (r: nat)
    requires index <= |s|
    ensures r == DigitsEnd(s, index)
  {
    r := index;
    while r < |s| && IsDigit(s[r])
      invariant index <= r <= |s|
      invariant DigitsEnd(s, r) == DigitsEnd(s, index)
      decreases |s| - r
    {
      r := r + 1;
    }
  }

  method SkipWhiteSpace(s: string) returns (r: nat)
    ensures r == WhiteSpaceEnd(s, 0)
  {
    r := 0;
    while r < |s| && IsWhiteSpace(s[r])
      invariant r <= |s|
      invariant WhiteSpaceEnd(s, r) == WhiteSpaceEnd(s, 0)
      decreases |s| - r
    {
      r := r + 1;
    }
  }

  method SkipExponent(s: string, index: nat) returns (r: nat)
    requires index <= |s|
    ensures r == ExponentEnd(s, index)
  {
    if index < |s| {
      var c := s[index];
      if c != 'e' && c != 'E' {
        return index;
      }
    } else {
      return index;
    }
    var start := index;
    var afterSign := SkipSign(s, index + 1);
    var end := SkipDigits(s, afterSign);
    r := if end > afterSign then end else start;
  }

  // ----- reading integers -----

  ghost predicate AllDigits(d: string) { forall k :: 0 <= k < |d| ==> IsDigit(d[k]) }

  function DigitValue(c: char): (r: nat)
    requires IsDigit(c)
    ensures r < 10
  {
    c as int - '0' as int
  }

  /** The number a string of decimal digits denotes. */
  function DecimalValue(d: string): nat
    requires AllDigits(d)
  {
    if |d| == 0 then 0 else 10 * DecimalValue(d[..|d| - 1]) + DigitValue(d[|d| - 1])
  }

  /**
   * `int.TryParse` on text made of an optional sign and digits: the signed
   * value when it fits in `int`, nothing otherwise.
   */
  function Int32Parse(t: string): (r: Option<Int32>)
    ensures r.Some? ==> |t| > 0
  {
    var digits := if |t| > 0 && (t[0] == '-' || t[0] == '+') then t[1..] else t;
    if |digits| == 0 || exists k :: 0 <= k < |digits| && !IsDigit(digits[k]) then None
    else
      var magnitude: int := DecimalValue(digits);
      var v := if t[0] == '-' then -magnitude else magnitude;
      if InInt32(v) then Some(v) else None
  }

  /** The characters `int.TryParse` allows around the number. */
  predicate IsParseWhite(c: char) { (0x09 <= c as int <= 0x0D) || c == ' ' }

  function TrimParseWhite(s: string): (r: string)
    ensures |r| <= |s|
    ensures |r| > 0 ==> !IsParseWhite(r[0]) && !IsParseWhite(r[|r| - 1])
  {
    if |s| > 0 && IsParseWhite(s[0]) then TrimParseWhite(s[1..])
    else if |s| > 0 && IsParseWhite(s[|s| - 1]) then TrimParseWhite(s[..|s| - 1])
    else s
  }

  /**
   * The tainted-analysis copy reads an integer out of a string with
   * `int.TryParse` alone: surrounding white space and a sign are accepted,
   * anything else makes the conversion fail with 0.
   */
  function TaintedTryConvertToInteger(s: string): (r: (bool, Int32))
    ensures !r.0 ==> r.1 == 0
    ensures r.0 ==> Int32Parse(TrimParseWhite(s)) == Some(r.1)
  {
    match Int32Parse(TrimParseWhite(s))
    case Some(v) => (true, v)
    case None => (false, 0)
  }

  /**
   * The hexadecimal digits from `i` on, appended to `acc`: nothing once the
   * number exceeds `int.MaxValue` (the scanner then switches to a float).
   */
  function HexScan(s: string, i: nat, acc: int): (r: Option<Int32>)
    requires i <= |s| && 0 <= acc <= MaxValue
    ensures r.Some? ==> acc <= r.value
    decreases |s| - i
  {
    if i == |s| then Some(acc)
    else match HexDigitValue(s[i])
      case None => Some(acc)
      case Some(h) =>
        var next := acc * 16 + h;
        if next > MaxValue then None else HexScan(s, i + 1, next)
  }

  /** The end of the run of hexadecimal digits that starts at `i`. */
  function HexRunEnd(s: string, i: nat): (r: nat)
    requires i <= |s|
    ensures i <= r <= |s|
    ensures forall k | i <= k < r :: IsHexDigit(s[k])
    ensures r == |s| || !IsHexDigit(s[r])
    decreases |s| - i
  {
    if i == |s| || !IsHexDigit(s[i]) then i else HexRunEnd(s, i + 1)
  }

  predicate AllHexDigits(d: string) { forall k | 0 <= k < |d| :: IsHexDigit(d[k]) }

  /** The number a run of hexadecimal digits spells, most significant digit first. */
  function HexValue(d: string): (r: nat)
    requires AllHexDigits(d)
  {
    if |d| == 0 then 0 else 16 * HexValue(d[..|d| - 1]) + HexDigitValue(d[|d| - 1]).value
  }

  /** The digits of `d` read one by one after the value `acc`, as the scanner reads them. */
  function HexFold(acc: nat, d: string): (r: nat)
    requires AllHexDigits(d)
    ensures r >= acc
    decreases |d|
  {
    if |d| == 0 then acc else HexFold(16 * acc + HexDigitValue(d[0]).value, d[1..])
  }

  lemma {:induction false} HexFoldAppend(acc: nat, d: string, c: char)
    requires AllHexDigits(d) && IsHexDigit(c)
    ensures AllHexDigits(d + [c])
    ensures HexFold(acc, d + [c]) == 16 * HexFold(acc, d) + HexDigitValue(c).value
    decreases |d|
  {
    assert forall k | 0 <= k < |d + [c]| :: (d + [c])[k] == if k < |d| then d[k] else c;
    if |d| > 0 {
      assert (d + [c])[1..] == d[1..] + [c];
      HexFoldAppend(16 * acc + HexDigitValue(d[0]).value, d[1..], c);
    } else {
      assert (d + [c])[1..] == [];
    }
  }

  /** Reading the digits from nothing gives the number they spell. */
  lemma {:induction false} HexFoldValue(d: string)
    requires AllHexDigits(d)
    ensures HexFold(0, d) == HexValue(d)
    decreases |d|
  {
    if |d| > 0 {
      var p := d[..|d| - 1];
      assert d == p + [d[|d| - 1]];
      HexFoldValue(p);
      HexFoldAppend(0, p, d[|d| - 1]);
    }
  }

  /** The number the hexadecimal digits from `i` on spell, written after the digits of `acc`. */
  function HexNumber(s: string, i: nat, acc: nat): (r: nat)
    requires i <= |s|
  {
    var j := HexRunEnd(s, i);
    assert AllHexDigits(s[i..j]);
    HexFold(acc, s[i..j])
  }

  /** One more digit read moves it from the run into the accumulated value. */
  lemma HexNumberStep(s: string, i: nat, acc: nat)
    requires i < |s| && IsHexDigit(s[i])
    ensures HexNumber(s, i, acc) == HexNumber(s, i + 1, 16 * acc + HexDigitValue(s[i]).value)
  {
    var j := HexRunEnd(s, i);
    assert j == HexRunEnd(s, i + 1);
    assert s[i..j][1..] == s[i + 1..j];
  }

  /** The scan gives the number the digits spell, or nothing once it passes `int.MaxValue`. */
  lemma {:induction false} HexScanValue(s: string, i: nat, acc: nat)
    requires i <= |s| && acc <= MaxValue
    ensures HexScan(s, i, acc) == if HexNumber(s, i, acc) <= MaxValue then Some(HexNumber(s, i, acc) as Int32) else None
    decreases |s| - i
  {
    if i < |s| && IsHexDigit(s[i]) {
      var next := acc * 16 + HexDigitValue(s[i]).value;
      HexNumberStep(s, i, acc);
      if next <= MaxValue {
        HexScanValue(s, i + 1, next);
      }
    }
  }

  method TryParseHexadecimal(s: string, index: nat, integerValue: int) returns (ok: bool, value: Int32)
    requires index <= |s|
    requires 0 <= integerValue < 16
    ensures ok <==> HexNumber(s, index, integerValue) <= MaxValue
    ensures ok ==> value == HexNumber(s, index, integerValue)
    ensures !ok ==> value == 0
  {
    HexScanValue(s, index, integerValue);
    var converted: int := integerValue;
    var i := index;
    while i < |s|
      invariant index <= i <= |s|
      invariant 0 <= converted <= MaxValue
      invariant HexScan(s, i, converted) == HexScan(s, index, integerValue)
      decreases |s| - i
    {
      var hexaValue := HexDigitValue(s[i]);
      if hexaValue.None? {
        break;
      }
      converted := converted * 16 + hexaValue.value;
      if converted > MaxValue {
        return false, 0;
      }
      i := i + 1;
    }
    return true, converted;
  }

  // ----- the number scanner -----

  /**
   * What the scanner reports; the float value it also produces is not modelled.
   */
  datatype NumberConversion = NumberConversion(success: bool, integerValue: Int32, isInteger: bool, isHexadecimal: bool)

  /** The outcome of a string with no number at its start. */
  const ParsingFailure := NumberConversion(false, 0, true, false)

  /** A well-formed floating-point number: success, but no integer. */
  const FloatNumber := NumberConversion(true, 0, false, false)

  /** The outcome of handing sign-and-digits text to `int.TryParse`. */
  function IntegerNumber(t: string): (r: NumberConversion)
    ensures r.success == r.isInteger && !r.isHexadecimal
    ensures !r.success ==> r.integerValue == 0
  {
    match Int32Parse(t)
    case Some(v) => NumberConversion(true, v, true, false)
    case None => NumberConversion(false, 0, false, false)
  }

  /**
   * The leading number of a PHP string. White space is skipped; with
   * `canBeHexadecimal`, "0x"/"0X" followed by at least one more character starts
   * a hexadecimal number; otherwise an optional sign, digits, an optional
   * fraction and an optional exponent are read and the rest of the string is
   * ignored. A number with a fraction or an exponent is a float.
   */
  function ConvertToNumber(s: string, canBeHexadecimal: bool): (r: NumberConversion)
    ensures !r.success ==> r.integerValue == 0
    ensures r.isHexadecimal ==> canBeHexadecimal
  {
    var i := WhiteSpaceEnd(s, 0);
    if canBeHexadecimal && |s| > i + 2 && s[i] == '0' && (s[i + 1] == 'x' || s[i + 1] == 'X') then
      match HexDigitValue(s[i + 2])
      case Some(first) =>
        (match HexScan(s, i + 3, first)
         case Some(v) => NumberConversion(true, v, true, true)
         case None => NumberConversion(false, 0, false, true))
      case None => NumberConversion(true, 0, true, false)
    else DecimalNumber(s, i)
  }

  /** The decimal branch of the scanner, from index `start` on. */
  function DecimalNumber(s: string, start: nat): (r: NumberConversion)
    requires start <= |s|
    ensures !r.success ==> r.integerValue == 0
    ensures !r.isHexadecimal
  {
    var afterSign := SkipSign(s, start);
    var index := DigitsEnd(s, afterSign);
    var isIntegerPart := index > afterSign;
    if index >= |s| then
      if isIntegerPart then IntegerNumber(s[start..]) else ParsingFailure
    else if s[index] == '.' then
      if DigitsEnd(s, index + 1) > index + 1 || isIntegerPart then FloatNumber else ParsingFailure
    else if !isIntegerPart then ParsingFailure
    else if ExponentEnd(s, index) > index then FloatNumber
    else IntegerNumber(s[start..index])
  }

  method TryConvertToNumber(s: string, canBeHexadecimal: bool) returns (r: NumberConversion)
    ensures r == ConvertToNumber(s, canBeHexadecimal)
  {
    var index := SkipWhiteSpace(s);
    if canBeHexadecimal && |s| > index + 2 && s[index] == '0' && (s[index + 1] == 'x' || s[index + 1] == 'X') {
      index := index + 2;
      var first := HexDigitValue(s[index]);
      if first.Some? {
        var isInteger, integerValue := TryParseHexadecimal(s, index + 1, first.value);
        r := NumberConversion(isInteger, integerValue, isInteger, true);
        assert r == ConvertToNumber(s, canBeHexadecimal) by {
          HexScanValue(s, index + 1, first.value);
        }
        return;
      } else {
        return NumberConversion(true, 0, true, false);
      }
    }
    assert ConvertToNumber(s, canBeHexadecimal) == DecimalNumber(s, index);
    var start := index;
    index := SkipSign(s, index);
    var startDigits := index;
    index := SkipDigits(s, index);
    var isIntegerPart := index > startDigits;
    var isFractionalPart: bool;
    if index >= |s| {
      if isIntegerPart {
        return IntegerNumber(s[start..]);
      } else {
        return ParsingFailure;
      }
    } else if s[index] == '.' {
      index := index + 1;
      startDigits := index;
      index := SkipDigits(s, index);
      if index > startDigits || isIntegerPart {
        isFractionalPart := true;
      } else {
        return ParsingFailure;
      }
    } else {
      if isIntegerPart {
        isFractionalPart := false;
      } else {
        return ParsingFailure;
      }
    }
    var end := SkipExponent(s, index);
    if isFractionalPart || end > index {
      return FloatNumber;
    } else {
      return IntegerNumber(s[start..end]);
    }
  }

  /** `TryConvertToInteger(string)`: the scanner without hexadecimal, accepted only for integers. */
  function TryConvertToIntegerString(s: string): (r: (bool, Int32))
    ensures !r.0 ==> r.1 == 0
    ensures r.0 ==> ConvertToNumber(s, false).isInteger
  {
    var c := ConvertToNumber(s, false);
    (c.success && c.isInteger, c.integerValue)
  }

  // ----- printing integers -----

  function DigitChar(d: nat): (r: char)
    requires d < 10
    ensures IsDigit(r) && DigitValue(r) == d
  {
    ('0' as int + d) as char
  }

  /** The decimal digits of a natural number, without leading zeros. */
  function NatToDigits(m: nat): (r: string)
    ensures |r| > 0 && AllDigits(r)
    ensures DecimalValue(r) == m
    ensures r[0] == '0' ==> m == 0
  {
    if m < 10 then [DigitChar(m)]
    else
      var prefix := NatToDigits(m / 10);
      var r := prefix + [DigitChar(m % 10)];
      assert r[..|r| - 1] == prefix;
      r
  }

  /** `Convert.ToString` of an `int`: a minus sign for negative numbers, then the digits. */
  function ToStringInt(n: Int32): (r: string)
    ensures |r| > 0
    ensures r[0] == '-' <==> n < 0
    ensures forall k :: 0 < k < |r| ==> IsDigit(r[k])
  {
    if n < 0 then "-" + NatToDigits(Abs(n)) else NatToDigits(n)
  }

  /** Reading back the text of an integer with the scanner gives the integer. */
  lemma ToStringIntRoundTrip(n: Int32)
    ensures ConvertToNumber(ToStringInt(n), false) == NumberConversion(true, n, true, false)
    ensures TryConvertToIntegerString(ToStringInt(n)) == (true, n)
  {
    var s := ToStringInt(n);
    assert IsDigit(s[0]) || s[0] == '-';
    assert WhiteSpaceEnd(s, 0) == 0;
    var afterSign := SkipSign(s, 0);
    assert afterSign == if n < 0 then 1 else 0;
    assert DigitsEnd(s, afterSign) == |s|;
    assert s[0..] == s;
    var digits := if n < 0 then s[1..] else s;
    assert digits == NatToDigits(Abs(n));
    assert Int32Parse(s) == Some(n);
  }

  /** The same text read with the library parser of the tainted-analysis copy gives the same integer. */
  lemma TaintedToStringIntRoundTrip(n: Int32)
    ensures TaintedTryConvertToInteger(ToStringInt(n)) == (true, n)
  {
    var s := ToStringInt(n);
    assert IsDigit(s[0]) || s[0] == '-';
    assert IsDigit(s[|s| - 1]) by {
      if |s| == 1 { assert n >= 0; }
    }
    assert TrimParseWhite(s) == s;
    var digits := if n < 0 then s[1..] else s;
    assert digits == NatToDigits(Abs(n));
    assert Int32Parse(s) == Some(n);
  }

  /** A string whose first non-blank character after an optional sign is neither a digit nor a point holds no number. */
  lemma NoLeadingDigitsNoNumber(s: string, canBeHexadecimal: bool)
    requires var j := SkipSign(s, WhiteSpaceEnd(s, 0)); j == |s| || (!IsDigit(s[j]) && s[j] != '.')
    ensures ConvertToNumber(s, canBeHexadecimal) == ParsingFailure
  {
    var j := SkipSign(s, WhiteSpaceEnd(s, 0));
    assert DigitsEnd(s, j) == j;
  }

  /**
   * After blanks and "0x" or "0X", a hexadecimal digit starts a number whose
   * value is that of the whole run of digits, and which fails as an integer
   * once it passes `int.MaxValue`; any other character gives integer 0.
   */
  lemma ConvertToNumberHexadecimal(s: string)
    requires var i := WhiteSpaceEnd(s, 0); |s| > i + 2 && s[i] == '0' && (s[i + 1] == 'x' || s[i + 1] == 'X')
    ensures var i := WhiteSpaceEnd(s, 0);
      !IsHexDigit(s[i + 2]) ==> ConvertToNumber(s, true) == NumberConversion(true, 0, true, false)
    ensures var i := WhiteSpaceEnd(s, 0);
      IsHexDigit(s[i + 2]) ==>
        var v := HexValue(s[i + 2..HexRunEnd(s, i + 2)]);
        ConvertToNumber(s, true) == if v <= MaxValue then NumberConversion(true, v as Int32, true, true) else NumberConversion(false, 0, false, true)
  {
    var i := WhiteSpaceEnd(s, 0);
    if IsHexDigit(s[i + 2]) {
      var first := HexDigitValue(s[i + 2]).value;
      HexNumberStep(s, i + 2, 0);
      HexScanValue(s, i + 3, first);
      HexFoldValue(s[i + 2..HexRunEnd(s, i + 2)]);
    }
  }

  /** Leading blanks and trailing garbage around an integer are ignored. */
  lemma ScannerReadsSignedPrefix()
    ensures ConvertToNumber(" -42abc", false) == NumberConversion(true, -42, true, false)
  {
    var s := " -42abc";
    assert WhiteSpaceEnd(s, 0) == 1 by { assert WhiteSpaceEnd(s, 1) == 1; }
    assert DigitsEnd(s, 2) == 4 by { assert DigitsEnd(s, 4) == 4; }
    assert ExponentEnd(s, 4) == 4;
    assert s[1..4] == "-42";
    assert "-42"[1..] == "42";
    assert DecimalValue("42") == 42 by { assert "42"[..1] == "4"; assert "4"[..0] == ""; }
  }
}
