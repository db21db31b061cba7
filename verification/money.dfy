/** Cart arithmetic. Prices reach the cart as strings and are read with `Number(...)`; the
    model keeps money in whole cents and writes NaN, the value `Number` yields for text
    that is not a number, as its own case, which then absorbs every sum and product. */
module Money {

  import opened Wrappers
  import opened Text

  datatype Amount = Cents(cents: nat) | NaN

  function Plus(a: Amount, b: Amount): Amount {
    if a.Cents? && b.Cents? then Cents(a.cents + b.cents) else NaN
  }

  function Times(a: Amount, q: nat): Amount {
    match a
    case Cents(c) => Cents(c * q)
    case NaN => NaN
  }

  lemma PlusAssociative(a: Amount, b: Amount, c: Amount)
    ensures Plus(Plus(a, b), c) == Plus(a, Plus(b, c))
  {
  }

  lemma PlusCommutative(a: Amount, b: Amount)
    ensures Plus(a, b) == Plus(b, a)
  {
  }

  /** One more unit adds the unit amount once more. */
  lemma TimesSucc(a: Amount, q: nat)
    ensures Times(a, q + 1) == Plus(Times(a, q), a)
  {
    match a
    case NaN =>
    case Cents(c) =>
      assert c * (q + 1) == c * q + c;
  }

  /** A product is NaN exactly when its amount is. */
  lemma TimesNaN(a: Amount, q: nat)
    ensures Times(a, q) == NaN <==> a == NaN
  {
  }

  /** Cents written by up to two digits after the decimal point ("" is 0, "5" is 50). */
  function FractionCents(f: string): nat
    requires AllDigits(f) && |f| <= 2
  {
    if |f| == 0 then 0
    else if |f| == 1 then 10 * DigitValue(f[0])
    else 10 * DigitValue(f[0]) + DigitValue(f[1])
  }

  /** `Number(s)` for a price string, in cents. Surrounding white space is skipped and blank
      text reads as 0. */
  function PriceOf(s: string): (a: Amount)
    ensures |s| > 0 && AllDigits(s) ==> a == Cents(100 * DigitsValue(s))
    decreases |s|
  {
    if |s| > 0 && IsSpace(s[0]) then PriceOf(s[1..])
    else if |s| > 0 && IsSpace(s[|s| - 1]) then PriceOf(s[..|s| - 1])
    else NumeralValue(s)
  }

  /** The value of price text with no white space at its ends: decimal digits with at most
      one point, at most two digits after it, and at least one digit overall; the empty text
      is 0. Anything else is NaN. */
  function NumeralValue(t: string): Amount {
    if t == [] then Cents(0)
    else
      match IndexOf(t, '.')
      case None =>
        if AllDigits(t) then Cents(100 * DigitsValue(t)) else NaN
      case Some(d) =>
        var whole := t[..d];
        var frac := t[d + 1..];
        if AllDigits(whole) && AllDigits(frac) && |frac| <= 2 && |whole| + |frac| > 0
        then Cents(100 * DigitsValue(whole) + FractionCents(frac))
        else NaN
  }

  /** Reading a price is reading its trimmed text. */
  lemma {:induction false} PriceOfTrimmed(s: string)
    ensures PriceOf(s) == NumeralValue(Trim(s))
    decreases |s|
  {
    if |s| > 0 && IsSpace(s[0]) {
      PriceOfTrimmed(s[1..]);
      TrimDropFirst(s);
    } else if |s| > 0 && IsSpace(s[|s| - 1]) {
      PriceOfTrimmed(s[..|s| - 1]);
      TrimDropLast(s);
    } else {
      TrimUntouched(s);
    }
  }

  /** `x.toFixed(2)` for an amount of `c` cents: whole units, a point, two digits. */
  function FormatCents(c: nat): string {
    DecimalString(c / 100) + "." + [DigitChar(c % 100 / 10), DigitChar(c % 10)]
  }

  /** The money text the cart shows: a dollar sign followed by the two-decimal rendering. */
  function AmountText(a: Amount): string {
    match a
    case Cents(c) => "$" + FormatCents(c)
    case NaN => "$NaN"
  }

  /** A whole-unit price written as `String(n)` reads back as `n` units. */
  lemma PriceOfDecimal(n: nat)
    ensures PriceOf(DecimalString(n)) == Cents(100 * n)
  {
    var s := DecimalString(n);
    assert IsDigit(s[0]) && IsDigit(s[|s| - 1]);
    DigitsHaveNoPoint(s);
    DecimalRoundTrip(n);
  }

  /** Digits, a point and two more digits: no white space at the ends, and the point is the
      first one, sitting right after the leading digits. */
  lemma PointedShape(w: string, f: string)
    requires |w| >= 1 && AllDigits(w) && |f| == 2 && AllDigits(f)
    ensures !IsSpace((w + ['.'] + f)[0]) && !IsSpace((w + ['.'] + f)[|w| + 2])
    ensures IndexOf(w + ['.'] + f, '.') == Some(|w|)
    ensures (w + ['.'] + f)[..|w|] == w && (w + ['.'] + f)[|w| + 1..] == f
  {
    var s := w + ['.'] + f;
    assert s[0] == w[0] && IsDigit(w[0]);
    assert s[|w| + 2] == f[1] && IsDigit(f[1]);
    DigitsHaveNoPoint(w);
    IndexOfAfter(w, '.', f);
    assert s[..|w|] == w;
    assert s[|w| + 1..] == f;
  }

  /** Digits, a point and two more digits read as the whole units and the two-digit
      fraction. */
  lemma PointedValue(w: string, f: string)
    requires |w| >= 1 && AllDigits(w) && |f| == 2 && AllDigits(f)
    ensures PriceOf(w + ['.'] + f) == Cents(100 * DigitsValue(w) + FractionCents(f))
  {
    var s := w + ['.'] + f;
    PointedShape(w, f);
    assert PriceOf(s) == NumeralValue(s);
  }

  /** Reading back what `toFixed(2)` wrote gives the same number of cents. */
  lemma PriceOfFormatted(c: nat)
    ensures PriceOf(FormatCents(c)) == Cents(c)
  {
    var w := DecimalString(c / 100);
    var tens, ones := c % 100 / 10, c % 10;
    var f := [DigitChar(tens), DigitChar(ones)];
    assert FormatCents(c) == w + ['.'] + f;
    PointedValue(w, f);
    DecimalRoundTrip(c / 100);
    TwoDigitFraction(tens, ones);
    CentsDigits(c);
  }

  /** The last two decimal digits of `c` are its cents below one unit. */
  lemma CentsDigits(c: nat)
    ensures 10 * (c % 100 / 10) + c % 10 == c % 100
    ensures 100 * (c / 100) + c % 100 == c
  {
    var q, r := c / 100, c % 100;
    var t, o := r / 10, r % 10;
    assert r == 10 * t + o;
    LastDigit(c, 10 * q + t, o);
  }

  /** The remainder by ten is the digit left over after whole tens. */
  lemma LastDigit(c: nat, k: nat, o: nat)
    requires o < 10 && c == 10 * k + o
    ensures c % 10 == o
  {
  }

  /** Two fraction digits read as tens and ones of cents. */
  lemma TwoDigitFraction(tens: nat, ones: nat)
    requires tens < 10 && ones < 10
    ensures AllDigits([DigitChar(tens), DigitChar(ones)])
    ensures FractionCents([DigitChar(tens), DigitChar(ones)]) == 10 * tens + ones
  {
    var f := [DigitChar(tens), DigitChar(ones)];
    assert DigitValue(f[0]) == tens && DigitValue(f[1]) == ones;
  }


  /** The money text shown for an amount is a dollar sign followed by text that reads back
      as the same amount; for NaN that text is "NaN". */
  lemma AmountTextReadsBack(a: Amount)
    ensures AmountText(a)[0] == '$' && PriceOf(AmountText(a)[1..]) == a
  {
    if a.Cents? {
      assert AmountText(a)[1..] == FormatCents(a.cents);
      PriceOfFormatted(a.cents);
    } else {
      assert AmountText(a)[1..] == "NaN";
    }
  }

  /** Blank price text counts as zero, as `Number("")` does. */
  lemma PriceOfBlank(s: string)
    requires AllSpace(s)
    ensures PriceOf(s) == Cents(0)
  {
    PriceOfTrimmed(s);
  }

  /** A price whose trimmed text holds anything but digits and points is NaN. */
  lemma PriceOfNonNumeric(s: string, k: nat)
    requires k < |Trim(s)|
    requires !IsDigit(Trim(s)[k]) && Trim(s)[k] != '.'
    ensures PriceOf(s) == NaN
  {
    var t := Trim(s);
    PriceOfTrimmed(s);
    match IndexOf(t, '.')
    case None =>
    case Some(d) =>
      if k < d {
        assert t[..d][k] == t[k];
      } else {
        assert t[d + 1..][k - d - 1] == t[k];
      }
  }
}
