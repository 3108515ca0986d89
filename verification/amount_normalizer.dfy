/** The amount normalizer: `clean_amount` deletes every currency symbol `$`
    and every thousands separator `,` from a text value, then reads what is
    left as a decimal number the way Python's `float()` does.

    Amounts are exact `real`s, so the binary rounding of `float()` is not part
    of this model. */
module AmountNormalizer {
  import opened Results

  // ---------------------------------------------------------------------------
  // Stripping the currency symbol and thousands separators
  // ---------------------------------------------------------------------------

  /** The two characters `clean_amount` deletes. */
  predicate IsSeparator(c: char) {
    c == '$' || c == ','
  }

  /** `s.replace(c, '')`: every occurrence of `c` deleted, the rest kept. */
  function RemoveAll(s: string, c: char): string {
    if |s| == 0 then [] else (if s[0] == c then [] else [s[0]]) + RemoveAll(s[1..], c)
  }

  /** `replace` deletes every occurrence of `c`, wherever it stands, and
      keeps every other character as often as it occurred. */
  lemma {:induction false} RemoveAllSpec(s: string, c: char)
    ensures forall i :: 0 <= i < |RemoveAll(s, c)| ==> RemoveAll(s, c)[i] != c
    ensures |RemoveAll(s, c)| == |s| - multiset(s)[c]
    ensures forall d :: d != c ==> multiset(RemoveAll(s, c))[d] == multiset(s)[d]
  {
    if |s| > 0 {
      var head, tail := if s[0] == c then [] else [s[0]], RemoveAll(s[1..], c);
      RemoveAllSpec(s[1..], c);
      assert RemoveAll(s, c) == head + tail;
      assert s == [s[0]] + s[1..];
      assert multiset(s) == multiset([s[0]]) + multiset(s[1..]);
      assert multiset(RemoveAll(s, c)) == multiset(head) + multiset(tail);
    }
  }

  /** The text `clean_amount` hands to `float()`: `$` removed first, then `,`. */
  function Strip(s: string): (r: string)
    ensures Clean(r)
  {
    var once := RemoveAll(s, '$');
    var r := RemoveAll(once, ',');
    RemoveAllSpec(s, '$');
    RemoveAllSpec(once, ',');
    assert forall i :: 0 <= i < |r| ==> r[i] != '$' by {
      forall i | 0 <= i < |r|
        ensures r[i] != '$'
      {
        assert r[i] in multiset(r);
      }
    }
    r
  }

  /** Stripping shortens the text by exactly the number of `$` and `,` it
      held, and keeps every other character as often as it occurred. */
  lemma StripSpec(s: string)
    ensures |Strip(s)| == |s| - multiset(s)['$'] - multiset(s)[',']
    ensures forall d :: !IsSeparator(d) ==> multiset(Strip(s))[d] == multiset(s)[d]
  {
    RemoveAllSpec(s, '$');
    RemoveAllSpec(RemoveAll(s, '$'), ',');
  }

  /** Reference definition of stripping: one left-to-right pass that keeps
      exactly the characters that are not separators, in their order. */
  function Keep(s: string): string {
    if |s| == 0 then [] else (if IsSeparator(s[0]) then [] else [s[0]]) + Keep(s[1..])
  }

  /** Text without any currency symbol or thousands separator. */
  predicate Clean(s: string) {
    forall i :: 0 <= i < |s| ==> !IsSeparator(s[i])
  }

  lemma {:induction false} KeepAppend(a: string, b: string)
    ensures Keep(a + b) == Keep(a) + Keep(b)
  {
    if |a| == 0 {
      assert a + b == b;
    } else {
      assert (a + b)[1..] == a[1..] + b;
      KeepAppend(a[1..], b);
    }
  }

  lemma {:induction false} KeepClean(s: string)
    requires Clean(s)
    ensures Keep(s) == s
  {
    if |s| > 0 {
      KeepClean(s[1..]);
    }
  }

  lemma {:induction false} RemoveAllAppend(a: string, b: string, c: char)
    ensures RemoveAll(a + b, c) == RemoveAll(a, c) + RemoveAll(b, c)
  {
    if |a| == 0 {
      assert a + b == b;
    } else {
      assert (a + b)[1..] == a[1..] + b;
      RemoveAllAppend(a[1..], b, c);
    }
  }

  /** The two chained `replace` calls delete the same characters as one
      filtering pass: every `$` and `,` anywhere goes, everything else stays
      in its original order. */
  lemma {:induction false} StripIsKeep(s: string)
    ensures Strip(s) == Keep(s)
  {
    if |s| > 0 {
      var head := if s[0] == '$' then [] else [s[0]];
      assert RemoveAll(s, '$') == head + RemoveAll(s[1..], '$');
      RemoveAllAppend(head, RemoveAll(s[1..], '$'), ',');
      assert RemoveAll(head, ',') == (if IsSeparator(s[0]) then [] else [s[0]]);
      StripIsKeep(s[1..]);
    }
  }

  /** Deleting separators is compositional: text can be stripped piece by
      piece, so no occurrence depends on its position. */
  lemma StripAppend(a: string, b: string)
    ensures Strip(a + b) == Strip(a) + Strip(b)
  {
    StripIsKeep(a + b);
    StripIsKeep(a);
    StripIsKeep(b);
    KeepAppend(a, b);
  }

  /** Text that has no separator is left as it is. */
  lemma StripClean(s: string)
    requires Clean(s)
    ensures Strip(s) == s
  {
    StripIsKeep(s);
    KeepClean(s);
  }

  /** A lone `$` or `,` strips to nothing. */
  lemma StripSeparator(c: char)
    requires IsSeparator(c)
    ensures Strip([c]) == []
  {
    StripSpec([c]);
    assert multiset([c])[c] == 1;
  }

  /** Stripping an already stripped text changes nothing. */
  lemma StripIdempotent(s: string)
    ensures Strip(Strip(s)) == Strip(s)
  {
    StripClean(Strip(s));
  }

  // ---------------------------------------------------------------------------
  // Reading decimal text (the part of Python's `float()` grammar used here)
  // ---------------------------------------------------------------------------

  predicate IsDigit(c: char) {
    '0' <= c <= '9'
  }

  predicate AllDigits(s: string) {
    forall i :: 0 <= i < |s| ==> IsDigit(s[i])
  }

  /** Some character of `s` is a decimal digit. */
  predicate HasDigit(s: string) {
    exists i :: 0 <= i < |s| && IsDigit(s[i])
  }

  /** Some character of `s` is `c`. */
  predicate Contains(s: string, c: char) {
    exists i :: 0 <= i < |s| && s[i] == c
  }

  /** The whitespace `float()` ignores around a number (its ASCII part). */
  predicate IsSpace(c: char) {
    c == ' ' || c == '\t' || c == '\n' || c == '\r' || c == '\U{0B}' || c == '\U{0C}'
  }

  /** Every character of `s` is whitespace. */
  predicate Blank(s: string) {
    forall i :: 0 <= i < |s| ==> IsSpace(s[i])
  }

  function DigitValue(c: char): (d: nat)
    requires IsDigit(c)
    ensures d < 10
  {
    c as int - '0' as int
  }

  /** The value of a string of decimal digits, most significant first. */
  function DigitsValue(s: string): nat
    requires AllDigits(s)
  {
    if |s| == 0 then 0 else DigitsValue(s[..|s| - 1]) * 10 + DigitValue(s[|s| - 1])
  }

  /** The value of the digits after a decimal point: `FracValue("25") == 0.25`. */
  function FracValue(s: string): (v: real)
    requires AllDigits(s)
    ensures 0.0 <= v <= 1.0
  {
    if |s| == 0 then 0.0 else (DigitValue(s[0]) as real + FracValue(s[1..])) / 10.0
  }

  /** `x` times ten to the power `e`, one factor of ten at a time. */
  function ScaleBy(x: real, e: int): (r: real)
    ensures x >= 0.0 ==> r >= 0.0
    decreases if e < 0 then -e else e
  {
    if e == 0 then x
    else if e > 0 then ScaleBy(x * 10.0, e - 1)
    else ScaleBy(x / 10.0, e + 1)
  }

  /** `s` without its leading whitespace. */
  function TrimStart(s: string): string {
    if |s| > 0 && IsSpace(s[0]) then TrimStart(s[1..]) else s
  }

  /** `s` without its trailing whitespace. */
  function TrimEnd(s: string): string {
    if |s| > 0 && IsSpace(s[|s| - 1]) then TrimEnd(s[..|s| - 1]) else s
  }

  /** `s` without its leading and trailing whitespace. */
  function Trim(s: string): string {
    TrimEnd(TrimStart(s))
  }

  lemma {:induction false} TrimStartBounds(s: string) returns (lo: nat)
    ensures lo <= |s| && TrimStart(s) == s[lo..]
    ensures forall i :: 0 <= i < lo ==> IsSpace(s[i])
    ensures lo < |s| ==> !IsSpace(s[lo])
  {
    if |s| > 0 && IsSpace(s[0]) {
      var k := TrimStartBounds(s[1..]);
      lo := k + 1;
      assert s[1..][k..] == s[lo..];
    } else {
      lo := 0;
    }
  }

  lemma {:induction false} TrimEndBounds(s: string) returns (hi: nat)
    ensures hi <= |s| && TrimEnd(s) == s[..hi]
    ensures forall i :: hi <= i < |s| ==> IsSpace(s[i])
    ensures hi > 0 ==> !IsSpace(s[hi - 1])
  {
    if |s| > 0 && IsSpace(s[|s| - 1]) {
      hi := TrimEndBounds(s[..|s| - 1]);
      assert s[..|s| - 1][..hi] == s[..hi];
    } else {
      hi := |s|;
    }
  }

  /** The trimmed text is the slice `s[lo..hi]`; everything outside it is
      whitespace and its two ends are not. */
  lemma TrimBounds(s: string) returns (lo: nat, hi: nat)
    ensures lo <= hi <= |s| && Trim(s) == s[lo..hi]
    ensures forall i :: 0 <= i < lo || hi <= i < |s| ==> IsSpace(s[i])
    ensures lo < hi ==> !IsSpace(s[lo]) && !IsSpace(s[hi - 1])
  {
    lo := TrimStartBounds(s);
    var k := TrimEndBounds(s[lo..]);
    hi := lo + k;
    assert s[lo..][..k] == s[lo..hi];
    forall i | hi <= i < |s|
      ensures IsSpace(s[i])
    {
      assert s[i] == s[lo..][i - lo];
    }
    if lo < hi {
      assert s[hi - 1] == s[lo..][k - 1];
    }
  }

  /** Trimming leaves nothing exactly when the text is all whitespace. */
  lemma TrimBlank(s: string)
    ensures |Trim(s)| == 0 <==> Blank(s)
  {
    var lo, hi := TrimBounds(s);
    if lo < hi {
      assert !IsSpace(s[lo]);
    }
  }

  /** Text with no whitespace at either end is its own trimming. */
  lemma TrimNoSpaces(s: string)
    requires |s| > 0 ==> !IsSpace(s[0]) && !IsSpace(s[|s| - 1])
    ensures Trim(s) == s
  {
  }

  /** A digit, or a leading `-`, of the trimmed text is one of `s`. */
  lemma TrimKeeps(s: string)
    ensures HasDigit(Trim(s)) ==> HasDigit(s)
    ensures |Trim(s)| > 0 && Trim(s)[0] == '-' ==> Contains(s, '-')
  {
    var lo, hi := TrimBounds(s);
    if HasDigit(Trim(s)) {
      var i :| 0 <= i < hi - lo && IsDigit(Trim(s)[i]);
      assert s[lo + i] == Trim(s)[i];
    }
    if |Trim(s)| > 0 {
      assert s[lo] == Trim(s)[0];
    }
  }

  /** First index in `s` holding a character of `cs`, or `|s|` if none. */
  function FirstIndexOf(s: string, cs: set<char>): (i: nat)
    ensures i <= |s|
    ensures i < |s| ==> s[i] in cs
    ensures forall j :: 0 <= j < i ==> s[j] !in cs
  {
    if |s| == 0 || s[0] in cs then 0 else 1 + FirstIndexOf(s[1..], cs)
  }

  /** Splits an optional leading `-` or `+` off `t`; `true` means negative. */
  function SplitSign(t: string): (bool, string) {
    if |t| > 0 && (t[0] == '-' || t[0] == '+') then (t[0] == '-', t[1..]) else (false, t)
  }

  /** The value of the decimal `whole.frac`. */
  function DecimalValue(whole: string, frac: string): (v: real)
    requires AllDigits(whole) && AllDigits(frac)
    ensures v >= 0.0
  {
    DigitsValue(whole) as real + FracValue(frac)
  }

  /** Digits with an optional decimal point: `12`, `12.`, `12.5` or `.5`;
      at least one digit on one side of the point. */
  function ParseMantissa(m: string): Option<real> {
    var p := FirstIndexOf(m, {'.'});
    var whole := m[..p];
    var frac := if p < |m| then m[p + 1..] else [];
    if AllDigits(whole) && AllDigits(frac) && |whole| + |frac| > 0 then
      Some(DecimalValue(whole, frac))
    else
      None
  }

  lemma ParseMantissaSpec(m: string)
    ensures ParseMantissa(m).Some? ==> ParseMantissa(m).value >= 0.0 && HasDigit(m)
  {
    var p := FirstIndexOf(m, {'.'});
    if ParseMantissa(m).Some? {
      if p > 0 {
        assert IsDigit(m[..p][0]);
      } else {
        assert IsDigit(m[p + 1..][0]);
      }
    }
  }

  /** The exponent after `e` or `E`: an optional sign and at least one digit. */
  function ParseExponent(x: string): Option<int> {
    var (negative, digits) := SplitSign(x);
    if |digits| > 0 && AllDigits(digits) then
      var magnitude: int := DigitsValue(digits);
      Some(if negative then -magnitude else magnitude)
    else
      None
  }

  /** Reads the text after the sign: a mantissa, then optionally `e` or `E`
      and an exponent. */
  function ParseUnsigned(body: string): Option<real> {
    var e := FirstIndexOf(body, {'e', 'E'});
    var mantissa := ParseMantissa(body[..e]);
    var exponent := if e < |body| then ParseExponent(body[e + 1..]) else Some(0);
    if mantissa.Some? && exponent.Some? then Some(ScaleBy(mantissa.value, exponent.value)) else None
  }

  lemma ParseUnsignedSpec(body: string)
    ensures ParseUnsigned(body).Some? ==> ParseUnsigned(body).value >= 0.0 && HasDigit(body)
  {
    var e := FirstIndexOf(body, {'e', 'E'});
    var m := body[..e];
    ParseMantissaSpec(m);
    if ParseUnsigned(body).Some? {
      var i :| 0 <= i < |m| && IsDigit(m[i]);
      assert body[i] == m[i];
    }
  }

  /** Reads trimmed, non-empty text as a signed decimal with an optional
      exponent; `None` when the text is not of that shape. */
  function ParseNumeral(t: string): Option<real> {
    var (negative, body) := SplitSign(t);
    match ParseUnsigned(body)
    case None => None
    case Some(magnitude) => Some(if negative then -magnitude else magnitude)
  }

  lemma ParseNumeralSpec(t: string)
    ensures ParseNumeral(t).Some? ==> HasDigit(t)
    ensures ParseNumeral(t).Some? && ParseNumeral(t).value < 0.0 ==> |t| > 0 && t[0] == '-'
  {
    var (negative, body) := SplitSign(t);
    ParseUnsignedSpec(body);
    if ParseNumeral(t).Some? {
      var i :| 0 <= i < |body| && IsDigit(body[i]);
      assert t[i + |t| - |body|] == body[i];
    }
  }

  /** Why a text value is not an amount. */
  datatype AmountError =
    | EmptyAmount                   // nothing but whitespace was left
    | MalformedAmount(text: string) // the text `float()` was given does not read as a number

  /** Python's `float(s)` on decimal text: surrounding whitespace ignored,
      blank text and text that is not a decimal numeral rejected. */
  function Parse(s: string): (r: Result<real, AmountError>)
    ensures r == Err(EmptyAmount) <==> Blank(s)
    ensures r.Err? ==> r.error == EmptyAmount || r.error == MalformedAmount(s)
    ensures r.Ok? ==> HasDigit(s)
    ensures r.Ok? && r.value < 0.0 ==> Contains(s, '-')
  {
    TrimBlank(s);
    TrimKeeps(s);
    ParseNumeralSpec(Trim(s));
    var t := Trim(s);
    if |t| == 0 then
      Err(EmptyAmount)
    else
      match ParseNumeral(t)
      case Some(v) => Ok(v)
      case None => Err(MalformedAmount(s))
  }

  /** Every character that survives stripping occurs in the original text. */
  lemma StripKeeps(s: string)
    ensures HasDigit(Strip(s)) ==> HasDigit(s)
    ensures Contains(Strip(s), '-') ==> Contains(s, '-')
  {
    var t := Strip(s);
    StripSpec(s);
    if HasDigit(t) {
      var j :| 0 <= j < |t| && IsDigit(t[j]);
      assert t[j] in multiset(t);
      assert t[j] in multiset(s);
      var i :| 0 <= i < |s| && s[i] == t[j];
    }
    if Contains(t, '-') {
      var j :| 0 <= j < |t| && t[j] == '-';
      assert t[j] in multiset(t);
      assert '-' in multiset(s);
      var i :| 0 <= i < |s| && s[i] == '-';
    }
  }

  /** Stripping leaves only whitespace exactly when the text held nothing but
      whitespace and separators. */
  lemma BlankAfterStrip(s: string)
    ensures Blank(Strip(s)) <==> (forall i :: 0 <= i < |s| ==> IsSpace(s[i]) || IsSeparator(s[i]))
  {
    var t := Strip(s);
    StripSpec(s);
    if Blank(t) {
      forall i | 0 <= i < |s|
        ensures IsSpace(s[i]) || IsSeparator(s[i])
      {
        if !IsSeparator(s[i]) {
          assert s[i] in multiset(s);
          assert s[i] in multiset(t);
          var j :| 0 <= j < |t| && t[j] == s[i];
        }
      }
    }
    if forall i :: 0 <= i < |s| ==> IsSpace(s[i]) || IsSeparator(s[i]) {
      forall j | 0 <= j < |t|
        ensures IsSpace(t[j])
      {
        assert t[j] in multiset(t);
        assert t[j] in multiset(s);
        var i :| 0 <= i < |s| && s[i] == t[j];
      }
    }
  }

  /** `clean_amount`: strip every `$` and `,`, then read the rest as a number.
      Blank input (after stripping) and input without a number are errors,
      never a silent zero. */
  function CleanAmount(s: string): (r: Result<real, AmountError>)
    ensures r == Err(EmptyAmount) <==> forall i :: 0 <= i < |s| ==> IsSpace(s[i]) || IsSeparator(s[i])
    ensures r.Ok? ==> HasDigit(s)
    ensures r.Ok? && r.value < 0.0 ==> Contains(s, '-')
  {
    StripKeeps(s);
    BlankAfterStrip(s);
    Parse(Strip(s))
  }
}
