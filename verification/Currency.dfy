/** Rupees and paise: packages/libs/src/currency.ts, and the amount format of
    packages/zod-schema/src/wallet.schema.ts.

    JavaScript's floating-point operations are the exact ones followed by a rounding, of which only the bound of
    IEEE 754, section 4.3.1, is used: a relative error of at most 2^-53. Overflow is not modelled.
  */
module Currency {
  import opened Arithmetic

  const UNIT := 1.0 / 9007199254740992.0   // 2^-53

  const LIMIT := 0x8_0000_0000_0000        // 2^51

  function Abs(x: real): real { if x < 0.0 then -x else x }

  /** `r` is an admissible rounding of `x`. */
  predicate Near(x: real, r: real) {
    Abs(r - x) <= UNIT * Abs(x)
  }

  ghost predicate Rounds(fl: real -> real) {
    forall x {:trigger Near(x, fl(x))} :: Near(x, fl(x))
  }

  datatype Number = NaN | Infinite(negative: bool) | Finite(value: real)

  datatype Paise = Paise(n: int) | InvalidAmount | NegativeAmount | NotAnInteger

  function ToPaise(amount: Number, fl: real -> real): Paise {
    match amount
    case NaN => InvalidAmount
    case Infinite(negative) => if negative then NegativeAmount else NotAnInteger
    case Finite(x) => if x < 0.0 then NegativeAmount else Paise(Round(fl(x * 100.0)))
  }

  // ---------------------------------------------------------------------------------------------
  // Decimal strings
  // ---------------------------------------------------------------------------------------------

  predicate IsDigit(c: char) { '0' <= c <= '9' }

  predicate AllDigits(s: string) {
    forall i :: 0 <= i < |s| ==> IsDigit(s[i])
  }

  function DigitChar(d: int): char
    requires 0 <= d < 10
  {
    '0' + d as char
  }

  function DigitValue(c: char): nat
    requires IsDigit(c)
  {
    c as int - '0' as int
  }

  function Natural(s: string): nat
    requires AllDigits(s)
  {
    if s == "" then 0 else 10 * Natural(s[..|s| - 1]) + DigitValue(s[|s| - 1])
  }

  function Decimal(n: nat): string {
    if n < 10 then [DigitChar(n)] else Decimal(n / 10) + [DigitChar(n % 10)]
  }

  lemma {:induction false} DecimalParses(n: nat)
    ensures Decimal(n) != "" && AllDigits(Decimal(n)) && Natural(Decimal(n)) == n
  {
    if n >= 10 {
      DecimalParses(n / 10);
      assert Decimal(n)[..|Decimal(n)| - 1] == Decimal(n / 10);
    } else {
      assert Decimal(n)[..0] == "";
    }
  }

  /** How many digits the string begins with. */
  function LeadingDigits(s: string): (k: nat)
    ensures k <= |s| && (forall i :: 0 <= i < k ==> IsDigit(s[i])) && (k < |s| ==> !IsDigit(s[k]))
  {
    if s == "" || !IsDigit(s[0]) then 0
    else
      assert forall i :: 0 < i < |s| ==> s[i] == s[1..][i - 1];
      1 + LeadingDigits(s[1..])
  }

  lemma {:induction false} LeadingDigitsOf(s: string, rest: string)
    requires AllDigits(s) && (rest != "" ==> !IsDigit(rest[0]))
    ensures LeadingDigits(s + rest) == |s|
  {
    if s == "" {
      assert s + rest == rest;
    } else {
      assert (s + rest)[1..] == s[1..] + rest;
      LeadingDigitsOf(s[1..], rest);
    }
  }

  /** Whole digits, then the digits after a point if there is one. */
  function Parts(s: string): (p: (string, string))
    ensures AllDigits(p.0) && AllDigits(p.1)
  {
    var k := LeadingDigits(s);
    if k < |s| && s[k] == '.' then (s[..k], s[k + 1..][..LeadingDigits(s[k + 1..])]) else (s[..k], "")
  }

  /** No exponent, no surrounding blanks and no "Infinity": the strings `ParseFloat` covers. */
  predicate Plain(s: string) {
    forall c :: c in s ==> c != 'e' && c != 'E' && c != 'I' && c > ' ' && c < '\U{7F}'
  }

  /** The number with these digits before and after the point. */
  function Magnitude(whole: string, fraction: string): real
    requires AllDigits(whole) && AllDigits(fraction)
  {
    Natural(whole) as real + Natural(fraction) as real / Pow(10, |fraction|) as real
  }

  /** `parseFloat`: the longest numeric prefix, rounded. */
  function ParseFloat(s: string, fl: real -> real): Number
    requires Plain(s)
  {
    var negative := s != "" && s[0] == '-';
    var p := Parts(if s != "" && (s[0] == '-' || s[0] == '+') then s[1..] else s);
    if p.0 == "" && p.1 == "" then NaN
    else
      Finite(fl(if negative then -Magnitude(p.0, p.1) else Magnitude(p.0, p.1)))
  }

  function ToPaiseText(s: string, fl: real -> real): Paise
    requires Plain(s)
  {
    ToPaise(ParseFloat(s, fl), fl)
  }

  /** n hundredths with two decimals. */
  function Fixed2(n: nat): string {
    Decimal(n / 100) + "." + [DigitChar(n % 100 / 10), DigitChar(n % 100 % 10)]
  }

  /** `toFixed(2)`, ECMA-262, section 21.1.3.3: the nearest number of hundredths, the larger of two. */
  function ToFixed2(x: real): string {
    if x < 0.0 then "-" + Fixed2(Round(-x * 100.0)) else Fixed2(Round(x * 100.0))
  }

  function ToRupees(paise: int, fl: real -> real): string {
    ToFixed2(fl(fl(paise as real) / 100.0))
  }

  /** The transfer schema's `^\d+(\.\d{1,2})?$`. */
  predicate SchemaValid(s: string) {
    var k := LeadingDigits(s);
    k > 0 && (k == |s| || (s[k] == '.' && k + 2 <= |s| <= k + 3 && AllDigits(s[k + 1..])))
  }

  /** The amount a schema-valid string writes, in paise. */
  function Hundredths(s: string): nat
    requires SchemaValid(s)
  {
    var k := LeadingDigits(s);
    100 * Natural(s[..k])
    + if k == |s| then 0 else if |s| == k + 2 then 10 * Natural(s[k + 1..]) else Natural(s[k + 1..])
  }

  lemma AllLeading(s: string)
    requires AllDigits(s)
    ensures LeadingDigits(s) == |s|
  {
    assert s + "" == s;
    LeadingDigitsOf(s, "");
  }

  lemma SchemaValidIsPlain(s: string)
    requires SchemaValid(s)
    ensures Plain(s) && Plain("-" + s)
  {
    var k := LeadingDigits(s);
    forall c | c in s ensures IsDigit(c) || c == '.' {
      var i :| 0 <= i < |s| && s[i] == c;
      if i < k { assert s[..k][i] == c; } else if i > k { assert s[k + 1..][i - k - 1] == c; }
    }
  }

  lemma SchemaValidParts(s: string)
    requires SchemaValid(s)
    ensures var k := LeadingDigits(s);
            Parts(s) == (s[..k], if k == |s| then "" else s[k + 1..])
  {
    var k := LeadingDigits(s);
    if k < |s| {
      AllLeading(s[k + 1..]);
      assert s[k + 1..][..|s| - k - 1] == s[k + 1..];
    }
  }

  lemma UpToTwoDecimals(whole: string, fraction: string)
    requires AllDigits(whole) && AllDigits(fraction) && |fraction| <= 2
    ensures Magnitude(whole, fraction) * 100.0
         == (100 * Natural(whole)
             + if |fraction| == 2 then Natural(fraction) else 10 * Natural(fraction)) as real
  {
    assert Pow(10, 0) == 1 && Pow(10, 1) == 10 && Pow(10, 2) == 100;
    assert |fraction| == 0 ==> Natural(fraction) == 0;
  }

  lemma SchemaMagnitude(s: string)
    requires SchemaValid(s)
    ensures Magnitude(Parts(s).0, Parts(s).1) == Hundredths(s) as real / 100.0
  {
    SchemaValidParts(s);
    UpToTwoDecimals(Parts(s).0, Parts(s).1);
  }

  /** What `ParseFloat` makes of a schema-valid string, without and with a minus sign. */
  lemma SchemaValidParses(s: string, fl: real -> real)
    requires SchemaValid(s)
    ensures Plain(s) && ParseFloat(s, fl) == Finite(fl(Hundredths(s) as real / 100.0))
    ensures Plain("-" + s) && ParseFloat("-" + s, fl) == Finite(fl(-(Hundredths(s) as real / 100.0)))
  {
    SchemaValidIsPlain(s);
    SchemaValidParts(s);
    SchemaMagnitude(s);
    assert IsDigit(s[0]);
    assert ("-" + s)[1..] == s;
  }

  lemma TwoDigits(n: nat)
    requires n < 100
    ensures var cents := [DigitChar(n / 10), DigitChar(n % 10)];
            AllDigits(cents) && Natural(cents) == n
  {
    var cents := [DigitChar(n / 10), DigitChar(n % 10)];
    assert cents[..1] == [DigitChar(n / 10)] && cents[..1][..0] == "";
    assert Natural(cents[..1]) == n / 10;
  }

  lemma TwoDecimalsAreValid(whole: string, cents: string)
    requires AllDigits(whole) && AllDigits(cents) && whole != "" && |cents| == 2
    ensures SchemaValid(whole + "." + cents)
    ensures Hundredths(whole + "." + cents) == 100 * Natural(whole) + Natural(cents)
  {
    var s := whole + "." + cents;
    assert s == whole + ("." + cents);
    LeadingDigitsOf(whole, "." + cents);
    assert s[..|whole|] == whole && s[|whole| + 1..] == cents;
  }

  /** Two-decimal strings are schema-valid and write their number. */
  lemma Fixed2Parses(n: nat)
    ensures SchemaValid(Fixed2(n)) && Hundredths(Fixed2(n)) == n
  {
    DecimalParses(n / 100);
    TwoDigits(n % 100);
    TwoDecimalsAreValid(Decimal(n / 100), [DigitChar(n % 100 / 10), DigitChar(n % 100 % 10)]);
  }

  // ---------------------------------------------------------------------------------------------
  // Rounding errors
  // ---------------------------------------------------------------------------------------------

  lemma Product(a: real, b: real, c: real)
    requires 0.0 <= a <= b && 0.0 <= c
    ensures a * c <= b * c
  {
    assert (b - a) * c >= 0.0;
  }

  /** Two roundings in a row, on a magnitude below the limit, stay within less than a half. */
  lemma SmallError(v: real, a: real, b: real)
    requires 0.0 <= v <= (LIMIT - 1) as real
    requires Near(v, a) && Near(a, b)
    ensures Abs(b - v) < 0.5
    ensures 0.0 <= a && (v > 0.0 ==> a > 0.0)
  {
    Product(v, (LIMIT - 1) as real, UNIT);
    assert UNIT * v <= (LIMIT - 1) as real * UNIT < 0.25;
    Product(Abs(a), (LIMIT - 1) as real + 0.25, UNIT);
    assert UNIT * Abs(a) <= ((LIMIT - 1) as real + 0.25) * UNIT;
    Product(UNIT, 0.5, v);
  }

  lemma NearScales(x: real, r: real)
    requires Near(x, r)
    ensures Near(x * 100.0, r * 100.0) && Near(-x, -r)
  {
    assert Abs(x * 100.0) == Abs(x) * 100.0 && Abs(r * 100.0 - x * 100.0) == Abs(r - x) * 100.0;
  }

  lemma NearestIs(n: int, x: real)
    requires Abs(x - n as real) < 0.5
    ensures Round(x) == n
  {
  }

  /** Reading n hundredths: y is the rounded number, z the rounded product by 100. */
  lemma ReadingIsExact(n: nat, y: real, z: real)
    requires n < LIMIT && Near(n as real / 100.0, y) && Near(y * 100.0, z)
    ensures y >= 0.0 && Round(z) == n
  {
    NearScales(n as real / 100.0, y);
    SmallError(n as real, y * 100.0, z);
    NearestIs(n, z);
  }

  /** Writing n paise: a is the rounded integer, x the rounded quotient by 100. */
  lemma WritingIsExact(n: nat, a: real, x: real)
    requires n < LIMIT && Near(n as real, a) && Near(a / 100.0, x)
    ensures ToFixed2(x) == Fixed2(n)
    ensures n > 0 ==> ToFixed2(-x) == "-" + Fixed2(n)
  {
    NearScales(a / 100.0, x);
    SmallError(n as real, a, x * 100.0);
    NearestIs(n, x * 100.0);
    Product(UNIT, 0.5, Abs(a / 100.0));
    assert x >= 0.0 && (n > 0 ==> x > 0.0);
  }

  lemma WritingNegativeIsExact(n: nat, a: real, x: real)
    requires 0 < n < LIMIT && Near(-(n as real), a) && Near(a / 100.0, x)
    ensures ToFixed2(x) == "-" + Fixed2(n)
  {
    NearScales(-(n as real), a);
    NearScales(a / 100.0, x);
    assert -(a / 100.0) == -a / 100.0;
    WritingIsExact(n, -a, -x);
  }

  lemma FormattingIsExact(n: nat, fl: real -> real)
    requires Rounds(fl) && n < LIMIT
    ensures ToRupees(n, fl) == Fixed2(n)
  {
    var a := fl(n as real);
    assert Near(n as real, a) && Near(a / 100.0, fl(a / 100.0));
    WritingIsExact(n, a, fl(a / 100.0));
  }

  lemma FormattingNegativeIsExact(paise: int, fl: real -> real)
    requires Rounds(fl) && -LIMIT < paise < 0
    ensures ToRupees(paise, fl) == "-" + Fixed2(-paise)
  {
    var a := fl(paise as real);
    assert Near(paise as real, a) && Near(a / 100.0, fl(a / 100.0));
    assert -((-paise) as real) == paise as real;
    WritingNegativeIsExact(-paise, a, fl(a / 100.0));
  }

  /** Reading the rounded number of n hundredths, and minus that. */
  lemma ReadingNumberIsExact(n: nat, fl: real -> real)
    requires Rounds(fl) && n < LIMIT
    ensures ToPaise(Finite(fl(n as real / 100.0)), fl) == Paise(n)
    ensures n > 0 ==> ToPaise(Finite(fl(-(n as real / 100.0))), fl) == NegativeAmount
  {
    var x := n as real / 100.0;
    assert Near(x, fl(x)) && Near(fl(x) * 100.0, fl(fl(x) * 100.0)) && Near(-x, fl(-x));
    ReadingIsExact(n, fl(x), fl(fl(x) * 100.0));
    Product(UNIT, 0.5, x);
  }

  lemma ReadingTextIsExact(s: string, fl: real -> real)
    requires Rounds(fl) && SchemaValid(s) && Hundredths(s) < LIMIT
    ensures Plain(s) && ToPaiseText(s, fl) == Paise(Hundredths(s))
    ensures Plain("-" + s) && (Hundredths(s) > 0 ==> ToPaiseText("-" + s, fl) == NegativeAmount)
  {
    SchemaValidParses(s, fl);
    ReadingNumberIsExact(Hundredths(s), fl);
  }

  /** Below the limit, writing an amount in rupees and reading it back is the identity, and a negative amount is
      refused. */
  lemma RupeesRoundTrip(paise: int, fl: real -> real)
    requires Rounds(fl) && -LIMIT < paise < LIMIT
    ensures Plain(ToRupees(paise, fl))
    ensures ToPaiseText(ToRupees(paise, fl), fl) == if paise >= 0 then Paise(paise) else NegativeAmount
  {
    var n := if paise >= 0 then paise else -paise;
    if paise >= 0 { FormattingIsExact(paise, fl); } else { FormattingNegativeIsExact(paise, fl); }
    Fixed2Parses(n);
    ReadingTextIsExact(Fixed2(n), fl);
  }

  /** Below the limit, every amount the schema accepts becomes exactly the paise it writes, and is printed back
      with two decimals. */
  lemma SchemaAmountsAreExact(s: string, fl: real -> real)
    requires Rounds(fl) && SchemaValid(s) && Hundredths(s) < LIMIT
    ensures Plain(s) && ToPaiseText(s, fl) == Paise(Hundredths(s))
    ensures SchemaValid(ToRupees(Hundredths(s), fl)) && Hundredths(ToRupees(Hundredths(s), fl)) == Hundredths(s)
  {
    ReadingTextIsExact(s, fl);
    FormattingIsExact(Hundredths(s), fl);
    Fixed2Parses(Hundredths(s));
  }

  // ---------------------------------------------------------------------------------------------
  // Other text
  // ---------------------------------------------------------------------------------------------

  /** Text that begins with neither a digit, nor a point and a digit, after a sign if there is one, is no amount. */
  lemma TextWithoutNumberIsInvalid(s: string, fl: real -> real)
    requires Plain(s)
    requires var t := if s != "" && (s[0] == '-' || s[0] == '+') then s[1..] else s;
             t == "" || (!IsDigit(t[0]) && (t[0] == '.' ==> |t| == 1 || !IsDigit(t[1])))
    ensures ToPaiseText(s, fl) == InvalidAmount
  {
  }

  /** A number becomes an amount exactly if it is finite and not negative; one below zero, however large, is refused as
      negative, and an infinite one is no integer. */
  lemma OnlyFiniteNumbersAreAmounts(x: Number, fl: real -> real)
    ensures ToPaise(x, fl).Paise? <==> x.Finite? && x.value >= 0.0
    ensures ToPaise(x, fl) == NegativeAmount <==> x == Infinite(true) || (x.Finite? && x.value < 0.0)
    ensures ToPaise(x, fl) == InvalidAmount <==> x == NaN
  {
  }

  lemma PartsAroundPoint(whole: string, digits: string)
    requires AllDigits(whole) && AllDigits(digits)
    ensures Parts(whole + "." + digits) == (whole, digits)
  {
    var s := whole + "." + digits;
    assert s == whole + ("." + digits);
    LeadingDigitsOf(whole, "." + digits);
    AllLeading(digits);
    assert s[..|whole|] == whole && s[|whole| + 1..] == digits && digits[..|digits|] == digits;
  }

  lemma DigitsAndPointArePlain(whole: string, digits: string)
    requires AllDigits(whole) && AllDigits(digits)
    ensures Plain(whole + "." + digits)
  {
    forall c | c in whole + "." + digits ensures IsDigit(c) || c == '.' {
      assert c in whole || c == '.' || c in digits;
    }
  }

  /** Digits around a point read as their number, also if there are none before it. */
  lemma DigitsAroundPointRead(whole: string, digits: string, fl: real -> real)
    requires AllDigits(whole) && AllDigits(digits) && digits != ""
    ensures Plain(whole + "." + digits)
    ensures ParseFloat(whole + "." + digits, fl) == Finite(fl(Magnitude(whole, digits)))
  {
    DigitsAndPointArePlain(whole, digits);
    PartsAroundPoint(whole, digits);
    assert (whole + "." + digits)[0] == if whole == "" then '.' else whole[0];
  }

  /** So the digits before the point may be missing. */
  lemma PointAloneReadsAsZero(digits: string, fl: real -> real)
    requires AllDigits(digits) && digits != ""
    ensures Plain("" + "." + digits) && Plain("0" + "." + digits)
    ensures ToPaiseText("" + "." + digits, fl) == ToPaiseText("0" + "." + digits, fl) != InvalidAmount
  {
    DigitsAroundPointRead("", digits, fl);
    DigitsAroundPointRead("0", digits, fl);
    assert "0"[..0] == "" && Natural("0") == 0;
  }

  /** A plus sign changes nothing. */
  lemma PlusIsIgnored(s: string, fl: real -> real)
    requires SchemaValid(s)
    ensures Plain(s) && Plain("+" + s) && ToPaiseText("+" + s, fl) == ToPaiseText(s, fl)
  {
    SchemaValidIsPlain(s);
    assert ("+" + s)[1..] == s && IsDigit(s[0]);
  }

  lemma {:induction false} LeadingDigitsAreFirst(s: string, rest: string)
    requires LeadingDigits(s) < |s| || rest == "" || !IsDigit(rest[0])
    ensures LeadingDigits(s + rest) == LeadingDigits(s)
  {
    if s == "" {
      assert s + rest == rest;
    } else {
      assert (s + rest)[1..] == s[1..] + rest;
      if IsDigit(s[0]) { LeadingDigitsAreFirst(s[1..], rest); }
    }
  }

  lemma TrailingParts(s: string, rest: string)
    requires SchemaValid(s) && rest != "" && !IsDigit(rest[0]) && rest[0] != '.'
    ensures Parts(s + rest) == Parts(s)
  {
    var k := LeadingDigits(s);
    SchemaValidParts(s);
    LeadingDigitsAreFirst(s, rest);
    assert (s + rest)[..k] == s[..k];
    if k < |s| {
      var fraction := s[k + 1..];
      assert (s + rest)[k + 1..] == fraction + rest;
      LeadingDigitsOf(fraction, rest);
      assert (fraction + rest)[..|fraction|] == fraction;
    }
  }

  /** What follows a number that the schema accepts is ignored, if it begins with neither a digit nor a point. */
  lemma TrailingTextIsIgnored(s: string, rest: string, fl: real -> real)
    requires SchemaValid(s) && Plain(s + rest) && rest != "" && !IsDigit(rest[0]) && rest[0] != '.'
    ensures Plain(s) && ToPaiseText(s + rest, fl) == ToPaiseText(s, fl)
  {
    SchemaValidIsPlain(s);
    TrailingParts(s, rest);
    assert IsDigit(s[0]);
  }

  // ---------------------------------------------------------------------------------------------
  // From the limit on
  // ---------------------------------------------------------------------------------------------

  /** The rounding that errs upwards as far as it may. */
  function Up(x: real): real {
    x * (1.0 + UNIT)
  }

  lemma UpRounds()
    ensures Rounds(Up)
  {
    forall x ensures Near(x, Up(x)) {
      assert Up(x) - x == UNIT * x;
      if x < 0.0 { assert UNIT * -x == -(UNIT * x) && UNIT * -x >= 0.0; } else { assert UNIT * x >= 0.0; }
    }
  }

  /** n after two upward errors. */
  function Inflated(n: nat): real {
    n as real * (1.0 + UNIT) * (1.0 + UNIT)
  }

  lemma InflatedBounds(n: nat)
    ensures Inflated(n) >= n as real
    ensures n >= LIMIT ==> Inflated(n) >= n as real + 0.5
  {
    var x := n as real;
    Product(0.0, UNIT, x);
    Product(0.0, UNIT * UNIT, x);
    assert Inflated(n) == x + 2.0 * (UNIT * x) + UNIT * UNIT * x;
    if n >= LIMIT { Product(LIMIT as real, x, UNIT); }
  }

  /** What n becomes when it is rounded up twice and then to an integer. */
  function Overshot(n: nat): (m: nat)
    ensures m >= n && (n >= LIMIT ==> m > n)
  {
    InflatedBounds(n);
    Round(Inflated(n))
  }

  /** A schema-valid amount read with upward errors. */
  lemma ReadingUp(s: string)
    requires SchemaValid(s)
    ensures Plain(s) && ToPaiseText(s, Up) == Paise(Overshot(Hundredths(s)))
    ensures Plain("-" + s) && (Hundredths(s) > 0 ==> ToPaiseText("-" + s, Up) == NegativeAmount)
  {
    SchemaValidParses(s, Up);
    var x := Hundredths(s) as real / 100.0;
    assert Up(Up(x) * 100.0) == Inflated(Hundredths(s));
    Product(0.0, UNIT, x);
    assert Up(x) == x + UNIT * x && Up(-x) == -Up(x);
  }

  lemma UpTwice(x: real)
    ensures Up(Up(x) / 100.0) * 100.0 == x * (1.0 + UNIT) * (1.0 + UNIT)
  {
  }

  lemma WritingUp(n: nat)
    ensures ToRupees(n, Up) == Fixed2(Overshot(n))
  {
    InflatedBounds(n);
    UpTwice(n as real);
  }

  lemma UpIsOdd(x: real)
    ensures Up(-x) == -Up(x) && Up(-x / 100.0) == -Up(x / 100.0)
  {
  }

  lemma WritingNegativeUp(paise: int)
    requires paise < 0
    ensures ToRupees(paise, Up) == "-" + Fixed2(Overshot(-paise))
  {
    var x := (-paise) as real;
    InflatedBounds(-paise);
    UpTwice(x);
    assert paise as real == -x;
    UpIsOdd(x);
    UpIsOdd(Up(x));
  }

  lemma RoundTripUp(paise: int)
    ensures var n := if paise >= 0 then paise else -paise;
            && Plain(ToRupees(paise, Up))
            && ToPaiseText(ToRupees(paise, Up), Up) == if paise >= 0 then Paise(Overshot(Overshot(n))) else NegativeAmount
  {
    var n := if paise >= 0 then paise else -paise;
    if paise >= 0 { WritingUp(paise); } else { WritingNegativeUp(paise); }
    Fixed2Parses(Overshot(n));
    ReadingUp(Fixed2(Overshot(n)));
  }

  /** Every rounding within the error bound lets the amount survive being written and read. */
  ghost predicate SurvivesRoundTrip(paise: int) {
    forall fl :: Rounds(fl) ==>
      Plain(ToRupees(paise, fl)) && ToPaiseText(ToRupees(paise, fl), fl) == Paise(paise)
  }

  /** Main result: writing an amount in rupees and reading it back is the identity, for every rounding within the
      error bound, exactly for the amounts from nothing to below 2^51 paise. */
  lemma RoundTripsBelowTheLimit(paise: int)
    ensures SurvivesRoundTrip(paise) <==> 0 <= paise < LIMIT
  {
    if 0 <= paise < LIMIT {
      forall fl | Rounds(fl)
        ensures Plain(ToRupees(paise, fl)) && ToPaiseText(ToRupees(paise, fl), fl) == Paise(paise)
      {
        RupeesRoundTrip(paise, fl);
      }
    } else {
      UpRounds();
      RoundTripUp(paise);
    }
  }

  /** Every rounding within the error bound reads the amount exactly. */
  ghost predicate ReadsExactly(s: string)
    requires SchemaValid(s)
  {
    forall fl :: Rounds(fl) ==> Plain(s) && ToPaiseText(s, fl) == Paise(Hundredths(s))
  }

  /** Main result: an amount the schema accepts is read exactly, for every rounding within the error bound,
      exactly when it is below 2^51 paise. The schema sets no upper bound. */
  lemma SchemaAmountsAreExactBelowTheLimit(s: string)
    requires SchemaValid(s)
    ensures ReadsExactly(s) <==> Hundredths(s) < LIMIT
  {
    if Hundredths(s) < LIMIT {
      forall fl | Rounds(fl) ensures Plain(s) && ToPaiseText(s, fl) == Paise(Hundredths(s)) {
        SchemaAmountsAreExact(s, fl);
      }
    } else {
      UpRounds();
      ReadingUp(s);
    }
  }
}
