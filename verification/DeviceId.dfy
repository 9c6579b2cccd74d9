/** Numeric public device ids with a Luhn check digit (packages/auth/src/device_id.rs);
    the check digit is that of Annex B of ISO/IEC 7812-1. */
module DeviceId {
  import opened Common
  import opened Text

  const BODY_DIGITS: nat := 9
  const TOTAL_DIGITS: nat := BODY_DIGITS + 1

  datatype IdError = WrongLength | NotNumeric | BadCheckDigit | EmptyBody

  datatype Result<+T> = Ok(value: T) | Err(error: IdError)

  function DigitOf(c: char): (d: nat)
    requires IsDigit(c)
    ensures d <= 9 && CharOf(d) == c
  {
    c as int - '0' as int
  }

  function CharOf(d: nat): (c: char)
    requires d <= 9
    ensures IsDigit(c) && c as int - '0' as int == d
  {
    ('0' as int + d) as char
  }

  /** What a doubled digit contributes. */
  function Doubled(d: nat): nat
    requires d <= 9
  {
    if 2 * d > 9 then 2 * d - 9 else 2 * d
  }

  function Weight(d: nat, double: bool): nat
    requires d <= 9
  {
    if double then Doubled(d) else d
  }

  /** The Luhn sum read from the right; `double` says whether the last digit is doubled. */
  function LuhnSum(s: string, double: bool): nat
    requires AllDigits(s)
  {
    if s == "" then 0
    else Weight(DigitOf(s[|s| - 1]), double) + LuhnSum(s[..|s| - 1], !double)
  }

  ghost predicate ValidLuhn(s: string) {
    s != "" && AllDigits(s) && LuhnSum(s, false) % 10 == 0
  }

  // ---- the loops ---------------------------------------------------------------------------

  method SumFromRight(s: string, start: bool) returns (sum: nat)
    requires AllDigits(s)
    ensures sum == LuhnSum(s, start)
  {
    sum := 0;
    var double := start;
    var i := |s|;
    assert s[..|s|] == s;
    while i > 0
      invariant 0 <= i <= |s|
      invariant sum + LuhnSum(s[..i], double) == LuhnSum(s, start)
    {
      assert s[..i][..i - 1] == s[..i - 1];
      var d := DigitOf(s[i - 1]);
      if double {
        d := d * 2;
        if d > 9 {
          d := d - 9;
        }
      }
      sum := sum + d;
      double := !double;
      i := i - 1;
    }
  }

  method CheckDigits(s: string) returns (ok: bool)
    ensures ok <==> AllDigits(s)
  {
    var i := 0;
    while i < |s|
      invariant 0 <= i <= |s| && AllDigits(s[..i])
    {
      if !IsDigit(s[i]) {
        return false;
      }
      i := i + 1;
    }
    return true;
  }

  /** The check digit completes the body to a valid number, and no other digit does. */
  method LuhnCheckDigit(body: string) returns (r: Result<nat>)
    ensures r.Ok? <==> body != "" && AllDigits(body)
    ensures r.Ok? ==> r.value <= 9 && forall d: nat :: d <= 9 ==> (ValidLuhn(body + [CharOf(d)]) <==> d == r.value)
    ensures r.Err? ==> r.error == if body == "" then EmptyBody else NotNumeric
  {
    if body == "" {
      return Err(EmptyBody);
    }
    var numeric := CheckDigits(body);
    if !numeric {
      return Err(NotNumeric);
    }
    var sum := SumFromRight(body, true);
    r := Ok((10 - sum % 10) % 10);
    forall d: nat | d <= 9
      ensures ValidLuhn(body + [CharOf(d)]) <==> d == r.value
    {
      SumSnoc(body, d);
      Completes(sum, d);
    }
  }

  method ValidateLuhn(s: string) returns (ok: bool)
    ensures ok <==> ValidLuhn(s)
  {
    if s == "" {
      return false;
    }
    var numeric := CheckDigits(s);
    if !numeric {
      return false;
    }
    var sum := SumFromRight(s, false);
    return sum % 10 == 0;
  }

  lemma Completes(sum: nat, d: nat)
    requires d <= 9
    ensures (d + sum) % 10 == 0 <==> d == (10 - sum % 10) % 10
  {
  }

  lemma ShiftedMultiple(x: int, y: int, k: int)
    requires x % 10 == 0 && y == x + k
    ensures y % 10 == 0 <==> k % 10 == 0
  {
  }

  lemma SumSnoc(body: string, d: nat)
    requires AllDigits(body) && d <= 9
    ensures AllDigits(body + [CharOf(d)]) && LuhnSum(body + [CharOf(d)], false) == d + LuhnSum(body, true)
  {
    var s := body + [CharOf(d)];
    assert s[..|s| - 1] == body;
  }

  // ---- error detection ---------------------------------------------------------------------

  /** Whether position i of a number of length n is doubled when the last one is or is not. */
  predicate DoubledAt(n: nat, i: nat, last: bool)
    requires i < n
  {
    if (n - 1 - i) % 2 == 0 then last else !last
  }

  /** Changing one digit changes the sum by the change of that digit's weight. */
  lemma {:induction false} SumUpdate(s: string, i: nat, c: char, double: bool)
    requires AllDigits(s) && i < |s| && IsDigit(c)
    ensures AllDigits(s[i := c])
    ensures LuhnSum(s[i := c], double) - Weight(DigitOf(c), DoubledAt(|s|, i, double))
         == LuhnSum(s, double) - Weight(DigitOf(s[i]), DoubledAt(|s|, i, double))
  {
    var n := |s| - 1;
    var t := s[i := c];
    if i == n {
      assert t[..n] == s[..n];
    } else {
      assert t[..n] == s[..n][i := c];
      SumUpdate(s[..n], i, c, !double);
      assert DoubledAt(|s|, i, double) == DoubledAt(n, i, !double);
    }
  }

  /** The weights of the ten digits are all different modulo 10. */
  lemma WeightsDiffer(a: nat, b: nat, double: bool)
    requires a <= 9 && b <= 9 && a != b
    ensures (Weight(a, double) - Weight(b, double)) % 10 != 0
  {
  }

  /** Every single-digit error in a valid number is detected. */
  lemma SingleDigitErrorDetected(s: string, i: nat, c: char)
    requires ValidLuhn(s) && i < |s| && IsDigit(c) && c != s[i]
    ensures !ValidLuhn(s[i := c])
  {
    SumUpdate(s, i, c, false);
    var d := DoubledAt(|s|, i, false);
    WeightsDiffer(DigitOf(c), DigitOf(s[i]), d);
    ShiftedMultiple(LuhnSum(s, false), LuhnSum(s[i := c], false), Weight(DigitOf(c), d) - Weight(DigitOf(s[i]), d));
  }

  /** Swapping two different neighbours keeps a valid number valid exactly when they are 0 and 9. */
  lemma SwapUndetectedOnlyFor09(s: string, i: nat)
    requires ValidLuhn(s) && i + 1 < |s| && s[i] != s[i + 1]
    ensures ValidLuhn(s[i := s[i + 1]][i + 1 := s[i]]) <==> OneEach(s[i], s[i + 1], '0', '9')
  {
    var a, b := DigitOf(s[i]), DigitOf(s[i + 1]);
    var d := DoubledAt(|s|, i, false);
    SwapSum(s, i);
    SwapArithmetic(LuhnSum(s, false), LuhnSum(s[i := s[i + 1]][i + 1 := s[i]], false), a, b, d);
    assert s[i] == CharOf(a) && s[i + 1] == CharOf(b);
  }

  lemma SwapSum(s: string, i: nat)
    requires AllDigits(s) && i + 1 < |s|
    ensures AllDigits(s[i := s[i + 1]][i + 1 := s[i]])
    ensures var (a, b, d) := (DigitOf(s[i]), DigitOf(s[i + 1]), DoubledAt(|s|, i, false));
      LuhnSum(s[i := s[i + 1]][i + 1 := s[i]], false)
        == LuhnSum(s, false) + Weight(b, d) - Weight(a, d) + Weight(a, !d) - Weight(b, !d)
  {
    SumUpdate(s, i, s[i + 1], false);
    SumUpdate(s[i := s[i + 1]], i + 1, s[i], false);
  }

  lemma SwapArithmetic(x: nat, y: nat, a: nat, b: nat, d: bool)
    requires a <= 9 && b <= 9 && a != b && x % 10 == 0
    requires y == x + Weight(b, d) - Weight(a, d) + Weight(a, !d) - Weight(b, !d)
    ensures y % 10 == 0 <==> OneEach(a, b, 0, 9)
  {
    SwapWeights(a, b);
    ShiftedMultiple(x, y, y - x);
  }

  predicate OneEach<T(==)>(x: T, y: T, a: T, b: T) {
    (x == a && y == b) || (x == b && y == a)
  }

  lemma SwapWeights(a: nat, b: nat)
    requires a <= 9 && b <= 9 && a != b
    ensures (Doubled(a) - a - Doubled(b) + b) % 10 == 0 <==> OneEach(a, b, 0, 9)
    ensures (Doubled(b) - b - Doubled(a) + a) % 10 == 0 <==> OneEach(a, b, 0, 9)
  {
  }

  // ---- ids ---------------------------------------------------------------------------------

  predicate IsSeparator(c: char) {
    IsWhitespace(c) || c == '-' || c == '_'
  }

  function Kept(c: char): string {
    if IsSeparator(c) then "" else [c]
  }

  function Compact(s: string): string {
    if s == "" then "" else Kept(s[0]) + Compact(s[1..])
  }

  /** A parsed id is a ten-digit valid number: the input without separators. */
  ghost predicate IsId(digits: string) {
    |digits| == TOTAL_DIGITS && ValidLuhn(digits)
  }

  /** Length, measured in bytes, is checked first, then the digits, then the check digit. */
  function Refusal(digits: string): IdError {
    if ByteLen(digits) != TOTAL_DIGITS then WrongLength
    else if !AllDigits(digits) then NotNumeric
    else BadCheckDigit
  }

  method Parse(input: string) returns (r: Result<string>)
    ensures r.Ok? <==> IsId(Compact(input))
    ensures r.Ok? ==> r.value == Compact(input)
    ensures r.Err? ==> r.error == Refusal(Compact(input))
  {
    var digits := Compact(input);
    if AllDigits(digits) { AsciiUtf8(digits); }
    if ByteLen(digits) != TOTAL_DIGITS {
      return Err(WrongLength);
    }
    var numeric := CheckDigits(digits);
    if !numeric {
      return Err(NotNumeric);
    }
    var ok := ValidateLuhn(digits);
    if !ok {
      return Err(BadCheckDigit);
    }
    return Ok(digits);
  }

  function DisplayGrouped(digits: string): string
    requires |digits| == TOTAL_DIGITS
  {
    digits[0..3] + " " + digits[3..6] + " " + digits[6..10]
  }

  lemma {:induction false} CompactConcat(a: string, b: string)
    ensures Compact(a + b) == Compact(a) + Compact(b)
  {
    if a == "" {
      assert a + b == b;
    } else {
      CompactConcat(a[1..], b);
      assert (a + b)[1..] == a[1..] + b;
      Assoc(Kept(a[0]), Compact(a[1..]), Compact(b));
    }
  }

  lemma Assoc(a: string, b: string, c: string)
    ensures a + (b + c) == (a + b) + c
  {
  }

  /** White space, hyphens and underscores may stand anywhere in the input, and nothing else may be left out. */
  lemma SeparatorsDoNotMatter(a: string, c: char, b: string)
    ensures Compact(a + [c] + b) == Compact(a + b) <==> IsWhitespace(c) || c == '-' || c == '_'
  {
    CompactConcat(a + [c], b);
    CompactConcat(a, [c]);
    CompactConcat(a, b);
    assert [c][1..] == "" && Compact([c]) == Kept(c);
    assert Compact(a) + "" == Compact(a);
  }

  lemma {:induction false} CompactDigits(s: string)
    requires AllDigits(s)
    ensures Compact(s) == s
  {
    if s != "" { CompactDigits(s[1..]); }
  }

  /** Parsing the display form gives the id back. */
  lemma DisplayRoundTrip(digits: string)
    requires IsId(digits)
    ensures Compact(DisplayGrouped(digits)) == digits
  {
    var a, b, c := digits[0..3], digits[3..6], digits[6..10];
    assert DisplayGrouped(digits) == a + " " + b + " " + c;
    CompactGroups(a, b, c);
    assert digits == a + b + c;
  }

  lemma CompactGroups(a: string, b: string, c: string)
    requires AllDigits(a) && AllDigits(b) && AllDigits(c)
    ensures Compact(a + " " + b + " " + c) == a + b + c
  {
    CompactDigits(a);
    CompactDigits(b);
    CompactDigits(c);
    CompactSpaced(a, b);
    CompactSpaced(a + " " + b, c);
  }

  lemma CompactSpaced(a: string, b: string)
    ensures Compact(a + " " + b) == Compact(a) + Compact(b)
  {
    CompactConcat(a + " ", b);
    CompactConcat(a, " ");
    assert " "[1..] == "";
    assert Compact(" ") == "";
  }

  /** Nine drawn digits, the first of them not zero, and the check digit: always an id that parses. */
  method Generate(draw: nat -> nat) returns (digits: string)
    requires forall i :: 0 <= i < BODY_DIGITS ==> draw(i) < (if i == 0 then 9 else 10)
    ensures IsId(digits) && digits[0] != '0'
    ensures DigitOf(digits[0]) == draw(0) + 1 && forall i :: 1 <= i < BODY_DIGITS ==> DigitOf(digits[i]) == draw(i)
    ensures Compact(digits) == digits
  {
    var body := "";
    for k := 0 to BODY_DIGITS
      invariant |body| == k && AllDigits(body)
      invariant k > 0 ==> DigitOf(body[0]) == draw(0) + 1
      invariant forall i :: 1 <= i < k ==> DigitOf(body[i]) == draw(i)
    {
      if body == "" {
        body := body + [CharOf(1 + draw(k))];
      } else {
        body := body + [CharOf(draw(k))];
      }
    }
    var check := LuhnCheckDigit(body);
    digits := body + [CharOf(check.value)];
    CompactDigits(digits);
  }
}
