/**
 * `formatNumber` (utils/formatNumber.ts): renders an integer with an SI suffix
 * ("K", "M", ... "De") and at most two truncated decimal places, using only exact
 * integer division.
 */
module FormatNumber {
  import opened BigNum

  const SI_SYMBOLS: seq<string> := ["", "K", "M", "B", "T", "Qa", "Qi", "Sx", "Sp", "Oc", "No", "De"]

  /** The highest tier, 11 ("De"). */
  const MAX_TIER: nat := |SI_SYMBOLS| - 1

  /** The argument is either a BigInt or a JS number. */
  datatype Numeric = BigIntArg(n: int) | NumberArg(x: real)

  /** A number argument is floored before it is converted to a BigInt. */
  function ToBigInt(num: Numeric): (value: int)
    ensures num.NumberArg? ==> value as real <= num.x < value as real + 1.0
    ensures num.BigIntArg? ==> value == num.n
  {
    match num
    case BigIntArg(n) => n
    case NumberArg(x) => x.Floor
  }

  /** How many times 1000 divides into v before dropping below 1000. */
  function Log1000(v: int): nat
    decreases v
  {
    if v < 1000 then 0 else 1 + Log1000(v / 1000)
  }

  /** The tier the loop settles on: the thousands-exponent of the value, capped at MAX_TIER. */
  function Tier(value: int): nat {
    if Log1000(value) < MAX_TIER then Log1000(value) else MAX_TIER
  }

  /**
   * `str.padStart(width, fill)` with a one-character fill: as many fill
   * characters as the string falls short of the width, then the string.
   */
  function PadStart(s: string, width: nat, fill: char): (r: string)
    ensures |r| == if |s| < width then width else |s|
    ensures r[|r| - |s|..] == s
    ensures forall i :: 0 <= i < |r| - |s| ==> r[i] == fill
  {
    if |s| >= width then s else seq(width - |s|, _ => fill) + s
  }

  /** The string assembled once the tier is known: mantissa, optional two-digit fraction, suffix. */
  function Assemble(value: int, tier: nat): string
    requires tier <= MAX_TIER
  {
    var divisor := Pow(10, tier * 3);
    var remainder := value % divisor;
    Render(value / divisor, remainder, (remainder * 100) / divisor, tier)
  }

  /** The template literal: `${mainPart}.${decimals}${suffix}` or `${mainPart}${suffix}`. */
  function Render(mainPart: int, remainder: int, decimalPart: int, tier: nat): string
    requires tier <= MAX_TIER
  {
    if tier > 0 && remainder > 0 && decimalPart > 0 then
      DecimalString(mainPart) + "." + PadStart(DecimalString(decimalPart), 2, '0') + SI_SYMBOLS[tier]
    else
      DecimalString(mainPart) + SI_SYMBOLS[tier]
  }

  /** What `formatNumber` returns for the BigInt `value`. */
  function Formatted(value: int): string {
    if value < 1000 then DecimalString(value) else Assemble(value, Tier(value))
  }

  /** The function itself: the tier loop followed by the string assembly. */
  method FormatNumber(num: Numeric) returns (s: string)
    ensures s == Formatted(ToBigInt(num))
  {
    var value := ToBigInt(num);
    if value < 1000 {
      return DecimalString(value);
    }
    var tier: nat := 0;
    var tempValue := value;
    while tempValue >= 1000 && tier < MAX_TIER
      invariant tier <= MAX_TIER && tier <= Log1000(value)
      invariant Log1000(tempValue) == Log1000(value) - tier
      decreases MAX_TIER - tier
    {
      tempValue := tempValue / 1000;
      tier := tier + 1;
    }
    s := Assemble(value, tier);
  }

  /** 1000^Log1000(v) <= v < 1000^(Log1000(v) + 1) for every positive v. */
  lemma {:induction false} Log1000Bounds(v: int)
    requires v >= 1
    ensures Pow(1000, Log1000(v)) <= v < Pow(1000, Log1000(v) + 1)
  {
    if v >= 1000 {
      var q := v / 1000;
      Log1000Bounds(q);
      var k := Log1000(q);
      assert Log1000(v) == k + 1;
      assert Pow(1000, k + 1) == 1000 * Pow(1000, k);
      assert Pow(1000, k + 2) == 1000 * Pow(1000, k + 1);
      assert 1000 * q <= v < 1000 * q + 1000;
    }
  }

  /** 10^(3t) and 1000^t are the same divisor. */
  lemma {:induction false} ThousandPower(t: nat)
    ensures Pow(10, t * 3) == Pow(1000, t)
  {
    if t > 0 {
      ThousandPower(t - 1);
      calc {
        Pow(10, t * 3);
        10 * Pow(10, t * 3 - 1);
        10 * (10 * Pow(10, t * 3 - 2));
        10 * (10 * (10 * Pow(10, (t - 1) * 3)));
        1000 * Pow(1000, t - 1);
      }
    }
  }

  /**
   * After the loop, 1000^tier <= value, and either the tier is capped at 11 or
   * value < 1000^(tier + 1); the tier is at least 1 for any value of 1000 or more.
   */
  lemma TierBounds(value: int)
    requires value >= 1000
    ensures 1 <= Tier(value) <= MAX_TIER
    ensures Pow(1000, Tier(value)) <= value
    ensures Tier(value) == MAX_TIER || value < Pow(1000, Tier(value) + 1)
  {
    Log1000Bounds(value);
    var t := Tier(value);
    if t < Log1000(value) {
      PowStrictlyIncreasing(1000, t, Log1000(value));
    }
  }

  /** Integer division by a divisor no larger than the dividend gives at least 1. */
  lemma QuotientAtLeastOne(v: int, d: int)
    requires 0 < d <= v
    ensures v / d >= 1
  {
  }

  /** A dividend below k divisors gives a quotient below k. */
  lemma QuotientBelow(v: int, d: int, k: int)
    requires d > 0 && 0 <= v < k * d
    ensures v / d < k
  {
  }

  /** The mantissa is at least 1, and at most 999 unless the tier is capped. */
  lemma MainPartRange(value: int)
    requires value >= 1000
    ensures var divisor := Pow(10, Tier(value) * 3);
      && 1 <= value / divisor
      && (Tier(value) < MAX_TIER ==> value / divisor <= 999)
  {
    TierBounds(value);
    var t := Tier(value);
    ThousandPower(t);
    var divisor := Pow(1000, t);
    QuotientAtLeastOne(value, divisor);
    if t < MAX_TIER {
      assert Pow(1000, t + 1) == 1000 * divisor;
      QuotientBelow(value, divisor, 1000);
    }
  }

  /** A one-digit number padded to width 2 gets a single leading zero. */
  lemma PadOneDigit(d: int)
    requires 0 < d < 10
    ensures PadStart(DecimalString(d), 2, '0') == ['0', DigitChar(d)]
  {
    assert DecimalString(d) == [DigitChar(d)];
    assert seq(1, _ => '0') == ['0'];
  }

  /** A number between 10 and 99 prints as its tens digit followed by its units digit. */
  lemma TwoDigitString(d: int)
    requires 10 <= d < 100
    ensures DecimalString(d) == [DigitChar(d / 10), DigitChar(d % 10)]
  {
    assert NatDigits(d / 10) == [DigitChar(d / 10)];
  }

  /** A number between 1 and 99 padded to width 2 is exactly its two decimal digits. */
  lemma PadTwoDigits(d: int)
    requires 0 < d < 100
    ensures PadStart(DecimalString(d), 2, '0') == [DigitChar(d / 10), DigitChar(d % 10)]
    ensures "." + PadStart(DecimalString(d), 2, '0') == FractionText(d)
  {
    var digits := [DigitChar(d / 10), DigitChar(d % 10)];
    if d < 10 {
      PadOneDigit(d);
      assert d / 10 == 0 && d % 10 == d;
    } else {
      TwoDigitString(d);
      assert PadStart(digits, 2, '0') == digits;
    }
    DotThenTwo(digits[0], digits[1]);
  }

  /** A point followed by a two-character string is the three-character string. */
  lemma DotThenTwo(a: char, b: char)
    ensures "." + [a, b] == ['.', a, b]
  {
  }

  /** The truncated hundredths of a remainder below the divisor. */
  lemma Hundredths(remainder: int, divisor: int)
    requires 0 <= remainder < divisor
    ensures var decimalPart := (remainder * 100) / divisor;
      && 0 <= decimalPart < 100
      && decimalPart * divisor <= remainder * 100 < (decimalPart + 1) * divisor
      && (decimalPart > 0 ==> remainder > 0)
  {
    QuotientBelow(remainder * 100, divisor, 100);
  }

  /** The printed hundredths: nothing when they are zero, otherwise a point and exactly two digits. */
  function FractionText(decimalPart: int): string
    requires 0 <= decimalPart < 100
  {
    if decimalPart > 0 then ['.', DigitChar(decimalPart / 10), DigitChar(decimalPart % 10)] else ""
  }

  /** Regrouping a four-part concatenation. */
  lemma Regroup(a: string, b: string, c: string, d: string)
    ensures a + b + c + d == a + (b + c) + d
  {
  }

  /** For a tier of 1 or more the text is the mantissa, then ".dd" iff the hundredths are non-zero, then the suffix. */
  lemma RenderShape(mainPart: int, remainder: int, decimalPart: int, tier: nat)
    requires 0 <= decimalPart < 100 && (decimalPart > 0 ==> remainder > 0) && 1 <= tier <= MAX_TIER
    ensures Render(mainPart, remainder, decimalPart, tier)
      == DecimalString(mainPart) + FractionText(decimalPart) + SI_SYMBOLS[tier]
  {
    var mainDigits := DecimalString(mainPart);
    var suffix := SI_SYMBOLS[tier];
    if decimalPart > 0 {
      var padded := PadStart(DecimalString(decimalPart), 2, '0');
      calc {
        Render(mainPart, remainder, decimalPart, tier);
        mainDigits + "." + padded + suffix;
        { Regroup(mainDigits, ".", padded, suffix); }
        mainDigits + ("." + padded) + suffix;
        { PadTwoDigits(decimalPart); }
        mainDigits + FractionText(decimalPart) + suffix;
      }
    } else {
      calc {
        Render(mainPart, remainder, decimalPart, tier);
        mainDigits + suffix;
        { assert mainDigits + "" == mainDigits; }
        mainDigits + FractionText(decimalPart) + suffix;
      }
    }
  }

  /**
   * The shape of the output for a value of 1000 or more: the mantissa's digits,
   * then ".dd" exactly when the truncated hundredths are non-zero, then the tier's
   * suffix. The hundredths are floor(remainder * 100 / divisor), never rounded up.
   */
  lemma FormattedShape(value: int)
    requires value >= 1000
    ensures var tier := Tier(value);
      var divisor := Pow(10, tier * 3);
      var remainder := value % divisor;
      var decimalPart := (remainder * 100) / divisor;
      && 0 <= decimalPart < 100
      && decimalPart * divisor <= remainder * 100 < (decimalPart + 1) * divisor
      && Formatted(value) == DecimalString(value / divisor)
           + FractionText(decimalPart)
           + SI_SYMBOLS[tier]
  {
    TierBounds(value);
    var tier := Tier(value);
    var divisor := Pow(10, tier * 3);
    var remainder := value % divisor;
    Hundredths(remainder, divisor);
    RenderShape(value / divisor, remainder, (remainder * 100) / divisor, tier);
  }

  /** Values below 1000, negatives included, come out as plain integers that read back as themselves. */
  lemma SmallValuesPlain(value: int)
    requires value < 1000
    ensures IsIntegerLiteral(Formatted(value)) && ParseInteger(Formatted(value)) == value
  {
    ParseDecimalString(value);
  }

  /** Values below 1000 print as they are; 1005 drops its ".00" and prints "1K". */
  lemma FormattedExamplesWhole()
    ensures Formatted(999) == "999"
    ensures Formatted(-5000) == "-5000"
    ensures Formatted(1005) == "1K"
  {
    assert NatDigits(99) == "99";
    assert NatDigits(500) == "500";
    assert Tier(1005) == 1;
    var divisor := Pow(10, 1 * 3);
    assert divisor == 1000;
    assert 1005 / divisor == 1 && 1005 % divisor == 5 && (5 * 100) / divisor == 0;
    assert Render(1, 5, 0, 1) == "1K";
  }

  /** 1500 prints "1.50K": two decimal places, zero-padded on the right of the point. */
  lemma FormattedExample1500()
    ensures Formatted(1500) == "1.50K"
  {
    assert Render(1, 500, 50, 1) == "1.50K" by {
      assert DecimalString(1) == "1" && DecimalString(50) == "50";
      assert PadStart("50", 2, '0') == "50";
    }
    assert Tier(1500) == 1;
    var divisor := Pow(10, 1 * 3);
    assert divisor == 1000;
    assert 1500 / divisor == 1 && 1500 % divisor == 500 && (500 * 100) / divisor == 50;
  }

  /** 1999 prints "1.99K", not "2.00K": the hundredths are truncated, never rounded. */
  lemma FormattedExample1999()
    ensures Formatted(1999) == "1.99K"
  {
    assert Render(1, 999, 99, 1) == "1.99K" by {
      assert DecimalString(1) == "1" && DecimalString(99) == "99";
      assert PadStart("99", 2, '0') == "99";
    }
    assert Tier(1999) == 1;
    var divisor := Pow(10, 1 * 3);
    assert divisor == 1000;
    assert 1999 / divisor == 1 && 1999 % divisor == 999 && (999 * 100) / divisor == 99;
  }
}
