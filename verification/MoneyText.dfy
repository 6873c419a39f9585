/** Decimal text of money (internal/accounting/money.go): printing and parsing. */
module MoneyText {
  import opened Wrappers
  import opened Money

  predicate IsDigit(c: char) { '0' <= c <= '9' }

  predicate AllDigits(s: string) { s != "" && forall i :: 0 <= i < |s| ==> IsDigit(s[i]) }

  function DigitOf(d: nat): (c: char)
    requires d < 10
    ensures IsDigit(c) && c as int - '0' as int == d
  {
    ('0' as int + d) as char
  }

  /** FormatInt in base ten. */
  function Digits(n: nat): (s: string)
    ensures AllDigits(s)
  {
    if n < 10 then [DigitOf(n)] else Digits(n / 10) + [DigitOf(n % 10)]
  }

  /** The number a string of digits spells. */
  function Value(s: string): nat
    requires forall i :: 0 <= i < |s| ==> IsDigit(s[i])
  {
    if s == "" then 0
    else
      assert IsDigit(s[|s| - 1]);
      10 * Value(s[..|s| - 1]) + (s[|s| - 1] as int - '0' as int)
  }

  function Zeros(n: nat): (s: string)
    ensures |s| == n && forall i :: 0 <= i < n ==> s[i] == '0'
  {
    if n == 0 then "" else Zeros(n - 1) + "0"
  }

  function TrimRight(s: string): string {
    if s != "" && s[|s| - 1] == '0' then TrimRight(s[..|s| - 1]) else s
  }

  function Padded(s: string): string { if |s| < 6 then Zeros(6 - |s|) + s else s }

  function String(m: Money): string {
    if m.Unknown? then "unknown"
    else
      var whole, fraction := m.micros / MICROS_PER_USD, m.micros % MICROS_PER_USD;
      if fraction == 0 then Digits(whole) else TrimRight(Digits(whole) + "." + Padded(Digits(fraction)))
  }

  /** The position of the first dot, or the length. */
  function Dot(s: string): (d: nat)
    ensures d <= |s| && (d < |s| ==> s[d] == '.') && forall i :: 0 <= i < d ==> s[i] != '.'
  {
    if s == "" || s[0] == '.' then 0 else 1 + Dot(s[1..])
  }

  function ParseParts(whole: string, fraction: string): Result<Money, MoneyError> {
    if 6 < |fraction| || !AllDigits(whole) || (fraction != "" && !AllDigits(fraction)) then Err(Invalid)
    else if MAX_INT64 < Value(whole) then Err(Overflow)
    else
      var micros := Value(fraction + Zeros(6 - |fraction|));
      if MAX_MICROS / MICROS_PER_USD < Value(whole)
         || (Value(whole) == MAX_MICROS / MICROS_PER_USD && MAX_MICROS % MICROS_PER_USD < micros)
      then Err(Overflow)
      else assert Value(whole) * MICROS_PER_USD + micros <= MAX_MICROS by { FractionBelowOne(fraction); }
           Ok(Known(Value(whole) * MICROS_PER_USD + micros))
  }

  function ParseMoney(text: string): Result<Money, MoneyError> {
    if text == "" then Err(Invalid)
    else if text[0] == '-' then Err(Negative)
    else
      var dot := Dot(text);
      if dot == |text| then ParseParts(text, "")
      else if '.' in text[dot + 1..] || dot == 0 || dot == |text| - 1 then Err(Invalid)
      else ParseParts(text[..dot], text[dot + 1..])
  }

  // ---- Round trip ----

  function Ten(n: nat): nat { if n == 0 then 1 else 10 * Ten(n - 1) }

  lemma {:induction false} ValueBelow(s: string)
    requires forall i :: 0 <= i < |s| ==> IsDigit(s[i])
    ensures Value(s) < Ten(|s|)
    decreases |s|
  {
    if s != "" { ValueBelow(s[..|s| - 1]); }
  }

  lemma FractionBelowOne(fraction: string)
    requires |fraction| <= 6 && forall i :: 0 <= i < |fraction| ==> IsDigit(fraction[i])
    ensures Value(fraction + Zeros(6 - |fraction|)) < MICROS_PER_USD
  {
    ValueBelow(fraction + Zeros(6 - |fraction|));
    TenIs();
  }

  lemma TenIs()
    ensures Ten(6) == MICROS_PER_USD
  {
    assert Ten(6) == 10 * Ten(5) == 100 * Ten(4) == 1000 * Ten(3) == 10_000 * Ten(2) == 100_000 * Ten(1) == 1_000_000;
  }

  lemma {:induction false} DigitsValue(n: nat)
    ensures Value(Digits(n)) == n
  {
    if 10 <= n {
      DigitsValue(n / 10);
      assert Digits(n)[..|Digits(n)| - 1] == Digits(n / 10);
    }
  }

  lemma {:induction false} DigitsShort(n: nat, k: nat)
    requires n < Ten(k) && 0 < k
    ensures |Digits(n)| <= k
    decreases k
  {
    if 10 <= n { DigitsShort(n / 10, k - 1); }
  }

  lemma {:induction false} LeadingZeros(k: nat, s: string)
    requires forall i :: 0 <= i < |s| ==> IsDigit(s[i])
    ensures Value(Zeros(k) + s) == Value(s)
    decreases k + |s|
  {
    if s != "" {
      assert (Zeros(k) + s)[..k + |s| - 1] == Zeros(k) + s[..|s| - 1];
      LeadingZeros(k, s[..|s| - 1]);
    } else if 0 < k {
      assert Zeros(k) + s == Zeros(k) && Zeros(k)[..k - 1] == Zeros(k - 1) && Zeros(k - 1) + "" == Zeros(k - 1);
      LeadingZeros(k - 1, "");
    } else {
      assert Zeros(k) + s == s;
    }
  }

  /** Trimming digits that are not all zero drops some zeros from the end, and leaves a non-zero digit last. */
  lemma {:induction false} TrimDigits(front: string, digits: string) returns (k: nat)
    requires forall i :: 0 <= i < |digits| ==> IsDigit(digits[i])
    requires Value(digits) != 0
    ensures 0 < k <= |digits| && TrimRight(front + digits) == front + digits[..k]
    ensures digits == digits[..k] + Zeros(|digits| - k)
    decreases |digits|
  {
    var n := |digits| - 1;
    assert (front + digits)[|front| + n] == digits[n];
    if digits[n] == '0' {
      k := TrimDigits(front, digits[..n]);
      assert (front + digits)[..|front| + n] == front + digits[..n];
      assert digits[..n][..k] == digits[..k];
      assert digits == digits[..n] + "0" && Zeros(|digits| - k) == Zeros(n - k) + "0";
    } else {
      k := n + 1;
      assert digits[..k] == digits && digits + Zeros(0) == digits;
    }
  }

  lemma NoDotIn(whole: string, rest: string)
    requires AllDigits(whole)
    ensures Dot(whole) == |whole| && Dot(whole + "." + rest) == |whole|
  {
    var text := whole + "." + rest;
    assert forall i :: 0 <= i < |whole| ==> text[i] == whole[i] && IsDigit(whole[i]);
    assert text[|whole|] == '.';
  }

  lemma ParseWhole(n: nat)
    requires n <= MAX_MICROS / MICROS_PER_USD
    ensures ParseMoney(Digits(n)) == Ok(Known(n * MICROS_PER_USD))
  {
    DigitsValue(n);
    NoDotIn(Digits(n), "");
    LeadingZeros(6, "");
    assert "" + Zeros(6) == Zeros(6) + "" && IsDigit(Digits(n)[0]);
  }

  lemma ParseSplits(whole: string, digits: string)
    requires AllDigits(whole) && AllDigits(digits)
    ensures ParseMoney(whole + "." + digits) == ParseParts(whole, digits)
  {
    var text := whole + "." + digits;
    NoDotIn(whole, digits);
    assert text[0] == whole[0] && IsDigit(whole[0]);
    assert text[..|whole|] == whole && text[|whole| + 1..] == digits;
    assert forall i :: 0 <= i < |digits| ==> IsDigit(digits[i]);
  }

  lemma PartsAdd(whole: string, digits: string, n: nat, fraction: nat)
    requires AllDigits(whole) && Value(whole) == n && AllDigits(digits) && |digits| <= 6
    requires Value(digits + Zeros(6 - |digits|)) == fraction && n * MICROS_PER_USD + fraction <= MAX_MICROS
    ensures ParseParts(whole, digits) == Ok(Known(n * MICROS_PER_USD + fraction))
  {
    FractionBelowOne(digits);
  }

  lemma PaddedDigits(fraction: nat)
    requires fraction < MICROS_PER_USD
    ensures |Padded(Digits(fraction))| == 6 && AllDigits(Padded(Digits(fraction)))
    ensures Value(Padded(Digits(fraction))) == fraction
  {
    TenIs();
    var digits := Digits(fraction);
    DigitsShort(fraction, 6);
    DigitsValue(fraction);
    LeadingZeros(6 - |digits|, digits);
  }

  /** What is printed after the dot: one to six digits that spell the fraction once the zeros are back. */
  lemma PrintedFraction(front: string, padded: string, fraction: nat) returns (digits: string)
    requires |padded| == 6 && AllDigits(padded) && Value(padded) == fraction != 0
    ensures TrimRight(front + padded) == front + digits
    ensures AllDigits(digits) && |digits| <= 6 && Value(digits + Zeros(6 - |digits|)) == fraction
  {
    var k := TrimDigits(front, padded);
    digits := padded[..k];
  }

  lemma PrintedParts(m: Micros, whole: string, padded: string)
    requires m % MICROS_PER_USD != 0 && whole == Digits(m / MICROS_PER_USD)
             && padded == Padded(Digits(m % MICROS_PER_USD))
    ensures String(Known(m)) == TrimRight(whole + "." + padded)
  {
  }

  /** Parsing the printed form of any known amount gives exactly that amount. */
  lemma PrintThenParse(m: Micros)
    ensures ParseMoney(String(Known(m))) == Ok(Known(m))
  {
    var whole, fraction := m / MICROS_PER_USD, m % MICROS_PER_USD;
    if fraction == 0 {
      ParseWhole(whole);
    } else {
      var text, padded := Digits(whole), Padded(Digits(fraction));
      DigitsValue(whole);
      PaddedDigits(fraction);
      PrintedParts(m, text, padded);
      var digits := PrintedFraction(text + ".", padded, fraction);
      ParseSplits(text, digits);
      PartsAdd(text, digits, whole, fraction);
    }
  }

  /** So no two amounts print alike, and unknown prints as no amount does. */
  lemma PrintIsInjective(a: Money, b: Money)
    ensures String(a) == String(b) <==> a == b
  {
    if a.Known? { PrintThenParse(a.micros); }
    if b.Known? { PrintThenParse(b.micros); }
    assert ParseMoney("unknown").Err?;
  }

  // ---- What is accepted ----

  /** A decimal numeral with at most six digits after the dot, and the micros it stands for exactly. */
  ghost predicate Denotes(text: string, whole: string, fraction: string, m: Micros) {
    && AllDigits(whole) && |fraction| <= 6
    && (if fraction == "" then text == whole else AllDigits(fraction) && text == whole + "." + fraction)
    && m == Value(whole) * MICROS_PER_USD + Value(fraction + Zeros(6 - |fraction|))
  }

  /** Every numeral that stands for a representable amount is parsed to exactly that amount. */
  lemma NumeralsParse(text: string, whole: string, fraction: string, m: Micros)
    requires Denotes(text, whole, fraction, m)
    ensures ParseMoney(text) == Ok(Known(m))
  {
    if fraction == "" {
      NoDotIn(whole, fraction);
      assert IsDigit(whole[0]);
    } else {
      ParseSplits(whole, fraction);
    }
    FractionBelowOne(fraction);
  }

  /** And nothing else is: what is parsed was such a numeral, so no parse rounds. */
  lemma ParsedIsNumeral(text: string)
    requires ParseMoney(text).Ok?
    ensures exists whole, fraction, m :: Denotes(text, whole, fraction, m) && ParseMoney(text) == Ok(Known(m))
  {
    var dot := Dot(text);
    var m := ParseMoney(text).value.micros;
    if dot == |text| {
      assert Denotes(text, text, "", m);
    } else {
      assert text == text[..dot] + "." + text[dot + 1..];
      assert Denotes(text, text[..dot], text[dot + 1..], m);
    }
  }
}
