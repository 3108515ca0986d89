/** Laws of the amount normalizer: a canonical currency formatting that it
    reads back exactly, the sign convention, and the behaviour on the
    examples the ledger format is built around. */
module AmountFormat {
  import opened Results
  import opened AmountNormalizer

  /** The digit character for `d`. */
  function DigitChar(d: nat): (c: char)
    requires d < 10
    ensures IsDigit(c) && DigitValue(c) == d
  {
    ('0' as int + d) as char
  }

  /** Shortest decimal spelling of `n`; `DigitsValue` is its inverse. */
  function NatDigits(n: nat): (s: string)
    ensures |s| >= 1 && AllDigits(s)
    ensures DigitsValue(s) == n
    decreases n
  {
    var prefix := if n < 10 then [] else NatDigits(n / 10);
    var s := prefix + [DigitChar(n % 10)];
    assert s[..|s| - 1] == prefix;
    assert DigitsValue(s) == DigitsValue(prefix) * 10 + n % 10;
    assert n == (n / 10) * 10 + n % 10;
    s
  }

  /** Exactly two digits for the cents part, `0 <= n < 100`. */
  function TwoDigits(n: nat): (s: string)
    requires n < 100
    ensures |s| == 2 && AllDigits(s)
    ensures DigitsValue(s) == n
  {
    var s := [DigitChar(n / 10), DigitChar(n % 10)];
    assert s[..1] == [DigitChar(n / 10)];
    assert s[..1][..0] == [];
    assert DigitsValue(s[..1]) == n / 10;
    s
  }

  /** Inserts a `,` between every group of three digits, counted from the right. */
  function GroupThousands(d: string): (g: string)
    decreases |d|
  {
    if |d| <= 3 then d else GroupThousands(d[..|d| - 3]) + "," + d[|d| - 3..]
  }

  /** The minus sign written before a negative amount. */
  function SignText(negative: bool): string {
    if negative then "-" else ""
  }

  function Abs(x: int): nat {
    if x < 0 then -x else x
  }

  /** The whole currency units of an amount given in cents, as digits. */
  function UnitsText(cents: int): string {
    NatDigits(Abs(cents) / 100)
  }

  /** The decimal point and the two cent digits of an amount given in cents. */
  function CentsText(cents: int): string {
    "." + TwoDigits(Abs(cents) % 100)
  }

  /** A number of cents as plain decimal text: `-1234.56`. */
  function FormatPlain(cents: int): string {
    SignText(cents < 0) + (UnitsText(cents) + CentsText(cents))
  }

  /** A number of cents as currency text, minus sign before the symbol:
      `-$1,234.56`. */
  function FormatCurrency(cents: int): string {
    SignText(cents < 0) + ("$" + (GroupThousands(UnitsText(cents)) + CentsText(cents)))
  }

  /** A separator between two pieces disappears when stripping. */
  lemma StripJoin(x: string, c: char, y: string)
    requires IsSeparator(c) && Clean(y)
    ensures Strip(x + [c] + y) == Strip(x) + y
  {
    StripAppend(x + [c], y);
    StripAppend(x, [c]);
    StripSeparator(c);
    StripClean(y);
    assert Strip(x) + [] == Strip(x);
  }

  /** Removing the thousands separators of grouped digits gives the digits back. */
  lemma {:induction false} StripGroupThousands(d: string)
    requires AllDigits(d)
    ensures Strip(GroupThousands(d)) == d
    decreases |d|
  {
    if |d| <= 3 {
      StripClean(d);
    } else {
      var hi, lo := d[..|d| - 3], d[|d| - 3..];
      assert GroupThousands(d) == GroupThousands(hi) + [','] + lo;
      StripGroupThousands(hi);
      StripJoin(GroupThousands(hi), ',', lo);
      assert hi + lo == d;
    }
  }

  /** Stripping the currency text leaves the plain decimal text. */
  lemma StripFormatCurrency(cents: int)
    ensures Strip(FormatCurrency(cents)) == FormatPlain(cents)
  {
    var sign, units, tail := SignText(cents < 0), UnitsText(cents), CentsText(cents);
    var grouped := GroupThousands(units);
    assert Clean(tail) by {
      assert forall i :: 1 <= i < |tail| ==> IsDigit(tail[i]);
    }
    StripClean(tail);
    StripGroupThousands(units);
    StripAppend(grouped, tail);
    StripAppend("$", grouped + tail);
    StripSeparator('$');
    assert Strip("$" + (grouped + tail)) == units + tail;
    StripAppend(sign, "$" + (grouped + tail));
    StripClean(sign);
  }

  /** In `whole "." frac` with all-digit `whole`, the first point is the
      one after `whole`. */
  lemma PointIndex(whole: string, frac: string)
    requires AllDigits(whole)
    ensures FirstIndexOf(whole + "." + frac, {'.'}) == |whole|
  {
    var m := whole + "." + frac;
    var p := FirstIndexOf(m, {'.'});
    assert m[|whole|] == '.';
    assert forall j :: 0 <= j < |whole| ==> m[j] == whole[j];
  }

  /** Reading `whole "." frac` for digit strings gives their decimal value. */
  lemma ParseMantissaPoint(whole: string, frac: string)
    requires AllDigits(whole) && AllDigits(frac) && |whole| > 0
    ensures ParseMantissa(whole + "." + frac) == Some(DecimalValue(whole, frac))
  {
    var m := whole + "." + frac;
    PointIndex(whole, frac);
    assert m[..|whole|] == whole;
    assert m[|whole| + 1..] == frac;
  }

  /** `q` units and `rem` hundredths. */
  function Hundredths(q: nat, rem: nat): real {
    q as real + rem as real / 100.0
  }

  /** Two cent digits after the point are worth `n` hundredths. */
  lemma FracTwoDigits(n: nat)
    requires n < 100
    ensures FracValue(TwoDigits(n)) == n as real / 100.0
  {
    var s := TwoDigits(n);
    var hi, lo := DigitValue(s[0]), DigitValue(s[1]);
    assert s[..1] == [s[0]];
    assert DigitsValue(s) == hi * 10 + lo;
    assert s[1..][1..] == [];
    assert FracValue(s[1..]) == lo as real / 10.0;
    assert FracValue(s) == (hi as real + lo as real / 10.0) / 10.0;
    assert (hi * 10 + lo) as real == hi as real * 10.0 + lo as real;
  }

  /** The unsigned part of the plain text reads back as `q` units and
      `rem` hundredths. */
  lemma ParseUnsignedPlain(q: nat, rem: nat)
    requires rem < 100
    ensures ParseUnsigned(NatDigits(q) + "." + TwoDigits(rem)) == Some(Hundredths(q, rem))
  {
    var digits, frac := NatDigits(q), TwoDigits(rem);
    var body := digits + "." + frac;
    forall j | 0 <= j < |body|
      ensures IsDigit(body[j]) || body[j] == '.'
    {
      if j < |digits| {
        assert body[j] == digits[j];
      } else if j > |digits| {
        assert body[j] == frac[j - |digits| - 1];
      }
    }
    assert FirstIndexOf(body, {'e', 'E'}) == |body|;
    assert body[..|body|] == body;
    ParseMantissaPoint(digits, frac);
    FracTwoDigits(rem);
    assert DecimalValue(digits, frac) == Hundredths(q, rem);
  }

  /** Units and hundredths of `|cents|`, with the sign put back, are `cents / 100`. */
  lemma CentsSplit(cents: int)
    ensures var h := Hundredths(Abs(cents) / 100, Abs(cents) % 100);
            (if cents < 0 then -h else h) == cents as real / 100.0
  {
    var m := Abs(cents);
    assert m == (m / 100) * 100 + m % 100;
    assert m as real == (m / 100) as real * 100.0 + (m % 100) as real;
  }

  /** The plain text without its sign reads back as units and hundredths. */
  lemma ParsePlainBody(cents: int)
    ensures ParseUnsigned(UnitsText(cents) + CentsText(cents)) == Some(Hundredths(Abs(cents) / 100, Abs(cents) % 100))
    ensures var body := UnitsText(cents) + CentsText(cents);
            |body| > 0 && IsDigit(body[0]) && IsDigit(body[|body| - 1])
  {
    var q, rem := Abs(cents) / 100, Abs(cents) % 100;
    assert UnitsText(cents) + CentsText(cents) == NatDigits(q) + "." + TwoDigits(rem);
    ParseUnsignedPlain(q, rem);
  }

  /** A numeral is its sign applied to the magnitude read after it. */
  lemma ParseNumeralSigned(t: string, negative: bool, body: string, v: real)
    requires SplitSign(t) == (negative, body)
    requires ParseUnsigned(body) == Some(v)
    ensures ParseNumeral(t) == Some(if negative then -v else v)
  {
  }

  /** Text that needs no trimming parses as the numeral it is. */
  lemma ParseTrimmed(t: string, v: real)
    requires |t| > 0 && Trim(t) == t
    requires ParseNumeral(t) == Some(v)
    ensures Parse(t) == Ok(v)
  {
  }

  /** A sign text followed by a numeral that starts and ends with a digit
      needs no trimming and splits back into that sign and numeral. */
  lemma SignedNumeral(negative: bool, body: string)
    requires |body| > 0 && IsDigit(body[0]) && IsDigit(body[|body| - 1])
    ensures Trim(SignText(negative) + body) == SignText(negative) + body
    ensures SplitSign(SignText(negative) + body) == (negative, body)
  {
    var t := SignText(negative) + body;
    assert !IsSpace(t[0]) && !IsSpace(t[|t| - 1]);
    TrimNoSpaces(t);
    if negative {
      assert t[1..] == body;
    } else {
      assert t == body;
    }
  }

  /** A sign followed by a numeral that reads as `v` parses as the signed `v`. */
  lemma ParseSignedBody(negative: bool, body: string, v: real)
    requires |body| > 0 && IsDigit(body[0]) && IsDigit(body[|body| - 1])
    requires ParseUnsigned(body) == Some(v)
    ensures Parse(SignText(negative) + body) == Ok(if negative then -v else v)
  {
    SignedNumeral(negative, body);
    ParseNumeralSigned(SignText(negative) + body, negative, body, v);
    ParseTrimmed(SignText(negative) + body, if negative then -v else v);
  }

  /** The plain text reads back as its sign applied to units and hundredths. */
  lemma ParseFormatPlainParts(cents: int)
    ensures var h := Hundredths(Abs(cents) / 100, Abs(cents) % 100);
            Parse(FormatPlain(cents)) == Ok(if cents < 0 then -h else h)
  {
    hide Parse, ParseUnsigned;
    ParsePlainBody(cents);
    ParseSignedBody(cents < 0, UnitsText(cents) + CentsText(cents), Hundredths(Abs(cents) / 100, Abs(cents) % 100));
  }

  /** Round trip: the plain decimal text of a number of cents reads back as
      exactly that many hundredths. */
  lemma ParseFormatPlain(cents: int)
    ensures Parse(FormatPlain(cents)) == Ok(cents as real / 100.0)
  {
    hide Parse;
    ParseFormatPlainParts(cents);
    CentsSplit(cents);
  }

  /** Round trip through the currency text: `clean_amount` reads the
      formatted amount back exactly, for every sign and magnitude. */
  lemma CleanAmountFormatCurrency(cents: int)
    ensures CleanAmount(FormatCurrency(cents)) == Ok(cents as real / 100.0)
  {
    hide Parse, Strip;
    StripFormatCurrency(cents);
    ParseFormatPlain(cents);
  }

  /** Deleting one `$` or `,` anywhere in the text does not change the amount. */
  lemma CleanAmountIgnoresSeparator(a: string, c: char, b: string)
    requires IsSeparator(c)
    ensures CleanAmount(a + [c] + b) == CleanAmount(a + b)
  {
    StripAppend(a + [c], b);
    StripAppend(a, [c]);
    StripAppend(a, b);
    StripSeparator(c);
    assert Strip(a) + [] == Strip(a);
  }

  /** Text without `$` or `,` is parsed as it stands. */
  lemma CleanAmountOfClean(s: string)
    requires Clean(s)
    ensures CleanAmount(s) == Parse(s)
  {
    StripClean(s);
  }

  /** Cleaning already stripped text gives the same amount. */
  lemma CleanAmountOfStripped(s: string)
    ensures CleanAmount(Strip(s)) == CleanAmount(s)
  {
    StripIdempotent(s);
  }

  /** A leading minus sign negates the amount and keeps the verdict. */
  lemma ParseNegate(t: string)
    requires |t| > 0 && t[0] != '-' && t[0] != '+'
    requires forall i :: 0 <= i < |t| ==> !IsSpace(t[i])
    ensures Parse("-" + t).Ok? <==> Parse(t).Ok?
    ensures Parse(t).Ok? ==> Parse("-" + t).value == -Parse(t).value
  {
  }

  /** Amounts below a thousand units are written without a thousands
      separator. */
  lemma FormatCurrencySmall(cents: int)
    requires |UnitsText(cents)| <= 3
    ensures FormatCurrency(cents) == SignText(cents < 0) + "$" + UnitsText(cents) + CentsText(cents)
  {
  }

  lemma NatDigits1234()
    ensures NatDigits(1234) == "1234"
  {
    assert NatDigits(1) == "1";
    assert NatDigits(12) == NatDigits(1) + "2";
    assert NatDigits(123) == NatDigits(12) + "3";
    assert NatDigits(1234) == NatDigits(123) + "4";
  }

  lemma Units123456()
    ensures UnitsText(123456) == "1234"
  {
    NatDigits1234();
    assert Abs(123456) / 100 == 1234;
    hide NatDigits;
  }

  lemma Cents123456()
    ensures CentsText(123456) == ".56"
  {
    assert TwoDigits(56) == "56";
    assert Abs(123456) % 100 == 56;
    hide TwoDigits;
  }

  lemma Group1234()
    ensures GroupThousands("1234") == "1,234"
  {
    assert GroupThousands("1234") == "1" + "," + "234";
  }

  /** 123456 cents are written `$1,234.56` and `1234.56`. */
  lemma Format123456()
    ensures FormatCurrency(123456) == "$1,234.56"
    ensures FormatPlain(123456) == "1234.56"
  {
    Units123456();
    Cents123456();
    Group1234();
    hide NatDigits, TwoDigits, UnitsText, CentsText, GroupThousands;
  }

  lemma Clean123456()
    ensures Clean("1234.56")
  {
  }

  /** The amount in the ledger's own format and the same amount without
      symbol and separator both read as 1234.56. */
  lemma CleanAmountThousands()
    ensures CleanAmount("$1,234.56") == Ok(1234.56)
    ensures CleanAmount("1234.56") == Ok(1234.56)
  {
    hide *;
    Format123456();
    Clean123456();
    CleanAmountFormatCurrency(123456);
    ParseFormatPlain(123456);
    CleanAmountOfClean("1234.56");
  }

  lemma Units1200()
    ensures UnitsText(-1200) == "12"
  {
    assert NatDigits(12) == NatDigits(1) + "2";
    assert Abs(-1200) / 100 == 12;
    hide NatDigits;
  }

  lemma Cents1200()
    ensures CentsText(-1200) == ".00"
  {
    assert TwoDigits(0) == "00";
    assert Abs(-1200) % 100 == 0;
    hide TwoDigits;
  }

  /** -1200 cents are written `-$12.00`. */
  lemma FormatRefund()
    ensures FormatCurrency(-1200) == "-$12.00"
  {
    Units1200();
    Cents1200();
    FormatCurrencySmall(-1200);
    hide NatDigits, TwoDigits, UnitsText, CentsText, GroupThousands, FormatCurrency;
  }

  /** A minus sign in front of the currency symbol gives a negative amount. */
  lemma CleanAmountRefund()
    ensures CleanAmount("-$12.00") == Ok(-12.0)
  {
    hide *;
    FormatRefund();
    CleanAmountFormatCurrency(-1200);
  }

  /** Text without digits is an error, not an amount. */
  lemma CleanAmountRejectsWord()
    ensures CleanAmount("abc").Err?
  {
    var abc := "abc";
    assert !IsDigit(abc[0]) && !IsDigit(abc[1]) && !IsDigit(abc[2]);
  }

  /** A lone currency symbol is blank once stripped. */
  lemma CleanAmountRejectsSymbol()
    ensures CleanAmount("$") == Err(EmptyAmount)
  {
    assert IsSeparator("$"[0]);
  }
}
