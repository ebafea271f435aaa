/** The entry normaliser in `bookkeeping.create`: the GBP amount stored with a
    new entry is its own amount, unless the currency is not GBP and an exchange
    rate string is given, in which case it is `Math.round(amount * parseFloat(rate))`. */
module Bookkeeping {
  import opened Basics
  import opened Ledger

  // ---------------------------------------------------------------------------
  // parseFloat on decimal text, with exact values

  predicate IsDigit(c: char) { '0' <= c <= '9' }

  predicate AllDigits(s: string) { forall i :: 0 <= i < |s| ==> IsDigit(s[i]) }

  /** The ASCII white space `parseFloat` skips before the number. */
  predicate IsSpace(c: char) {
    c == ' ' || c == '\t' || c == '\n' || c == '\r' || c as int == 11 || c as int == 12
  }

  /** `s` without its leading white space. */
  function TrimStart(s: string): (t: string)
    ensures |t| <= |s| && t == s[|s| - |t|..]
    ensures |t| > 0 ==> !IsSpace(t[0])
    ensures forall i :: 0 <= i < |s| - |t| ==> IsSpace(s[i])
  {
    if |s| > 0 && IsSpace(s[0]) then
      var t := TrimStart(s[1..]);
      assert s[1..][|s| - 1 - |t|..] == s[|s| - |t|..];
      assert forall i :: 1 <= i < |s| - |t| ==> s[i] == s[1..][i - 1];
      t
    else s
  }

  /** The longest prefix of `s` made of digits. */
  function DigitPrefix(s: string): (p: string)
    ensures p <= s && AllDigits(p)
    ensures |p| < |s| ==> !IsDigit(s[|p|])
  {
    if |s| > 0 && IsDigit(s[0]) then [s[0]] + DigitPrefix(s[1..]) else ""
  }

  function DigitsValue(ds: string): nat
    requires AllDigits(ds)
  {
    if |ds| == 0 then 0 else DigitsValue(ds[..|ds| - 1]) * 10 + (ds[|ds| - 1] as int - '0' as int)
  }

  /** The value of the digits `f` read after a decimal point: 0.d1d2d3... */
  function FractionValue(f: string): (r: real)
    requires AllDigits(f)
    ensures 0.0 <= r < 1.0
  {
    if |f| == 0 then 0.0 else ((f[0] as int - '0' as int) as real + FractionValue(f[1..])) / 10.0
  }

  /** The value of the digits `whole`, a point and the digits `fraction`. */
  function DecimalValue(whole: string, fraction: string): (r: real)
    requires AllDigits(whole) && AllDigits(fraction)
    ensures DigitsValue(whole) as real <= r < DigitsValue(whole) as real + 1.0
  {
    DigitsValue(whole) as real + FractionValue(fraction)
  }

  /** The digits after a leading decimal point, if `s` starts with one. */
  function FractionDigits(s: string): (f: string)
    ensures AllDigits(f)
  {
    if |s| > 0 && s[0] == '.' then DigitPrefix(s[1..]) else ""
  }

  /** Text that starts an unsigned number: a digit, or a point and a digit. */
  predicate StartsNumber(u: string) {
    |u| > 0 && (IsDigit(u[0]) || (|u| > 1 && u[0] == '.' && IsDigit(u[1])))
  }

  /** An unsigned decimal prefix: digits, optionally a point and digits, with
      at least one digit in all. */
  function ParseUnsigned(u: string): (r: Option<real>)
    ensures r.Some? <==> StartsNumber(u)
  {
    var whole := DigitPrefix(u);
    var fraction := FractionDigits(u[|whole|..]);
    assert StartsNumber(u) ==> whole != "" || fraction != "" by {
      if |u| > 0 && !IsDigit(u[0]) && |u| > 1 && u[0] == '.' && IsDigit(u[1]) {
        assert whole == "";
        assert u[1..][0] == u[1];
      }
    }
    if whole == "" && fraction == "" then None else Some(DecimalValue(whole, fraction))
  }

  /** A leading sign: whether it is a minus, and the text after it. */
  function SplitSign(t: string): (bool, string) {
    if |t| > 0 && (t[0] == '-' || t[0] == '+') then (t[0] == '-', t[1..]) else (false, t)
  }

  function Negate(r: Option<real>): Option<real> {
    if r.Some? then Some(-r.value) else None
  }

  /** `parseFloat`: the value of the longest decimal prefix after white space
      and an optional sign; `None` (NaN) exactly when no number starts there. */
  function ParseFloat(s: string): (r: Option<real>)
    ensures r.Some? <==> StartsNumber(SplitSign(TrimStart(s)).1)
    ensures r.Some? ==> exists i :: 0 <= i < |s| && IsDigit(s[i])
  {
    var t := TrimStart(s);
    var (negative, u) := SplitSign(t);
    var magnitude := ParseUnsigned(u);
    assert magnitude.Some? ==> IsDigit(s[|s| - |u|]) || IsDigit(s[|s| - |u| + 1]);
    if negative then Negate(magnitude) else magnitude
  }

  lemma {:induction false} DigitPrefixOfDigits(ds: string, rest: string)
    requires AllDigits(ds)
    requires |rest| > 0 ==> !IsDigit(rest[0])
    ensures DigitPrefix(ds + rest) == ds
  {
    if |ds| > 0 {
      assert (ds + rest)[1..] == ds[1..] + rest;
      DigitPrefixOfDigits(ds[1..], rest);
      assert ds == [ds[0]] + ds[1..];
    } else {
      assert ds + rest == rest;
    }
  }

  lemma ParseUnsignedOfDecimal(whole: string, fraction: string, rest: string)
    requires AllDigits(whole) && AllDigits(fraction) && |whole| > 0
    requires |rest| > 0 ==> !IsDigit(rest[0])
    ensures ParseUnsigned(whole + "." + fraction + rest) == Some(DecimalValue(whole, fraction))
  {
    var tail := "." + fraction + rest;
    var u := whole + tail;
    assert whole + "." + fraction + rest == u;
    assert DigitPrefix(u) == whole by { DigitPrefixOfDigits(whole, tail); }
    assert u[|whole|..] == tail;
    assert FractionDigits(tail) == fraction by {
      assert tail[1..] == fraction + rest;
      DigitPrefixOfDigits(fraction, rest);
    }
  }

  /** Text with no leading white space or sign is read unsigned. */
  lemma ParseFloatOfUnsigned(u: string)
    requires SplitSign(TrimStart(u)) == (false, u)
    ensures ParseFloat(u) == ParseUnsigned(u)
  {
  }

  /** Text that does not start with white space is left as it is. */
  lemma TrimStartOfNonSpace(s: string)
    requires |s| > 0 ==> !IsSpace(s[0])
    ensures TrimStart(s) == s
  {
  }

  /** Text starting with a digit is read unsigned. */
  lemma ParseFloatOfDigitStart(u: string)
    requires |u| > 0 && IsDigit(u[0])
    ensures ParseFloat(u) == ParseUnsigned(u)
  {
    TrimStartOfNonSpace(u);
    ParseFloatOfUnsigned(u);
  }

  /** After a minus sign, text starting with a digit is read negated. */
  lemma ParseFloatOfMinus(u: string)
    requires |u| > 0 && IsDigit(u[0])
    ensures ParseFloat("-" + u) == Negate(ParseUnsigned(u))
  {
    var n := "-" + u;
    assert TrimStart(n) == n;
    assert n[1..] == u;
    assert SplitSign(n) == (true, u);
  }

  /** Decimal text `whole.fraction` followed by anything but a digit reads as
      exactly `whole.fraction`. */
  lemma ParseFloatOfDecimal(whole: string, fraction: string, rest: string)
    requires AllDigits(whole) && AllDigits(fraction) && |whole| > 0
    requires |rest| > 0 ==> !IsDigit(rest[0])
    ensures ParseFloat(whole + "." + fraction + rest) == Some(DecimalValue(whole, fraction))
  {
    var s := whole + "." + fraction + rest;
    assert s[0] == whole[0];
    ParseUnsignedOfDecimal(whole, fraction, rest);
    ParseFloatOfDigitStart(s);
  }

  /** Digits followed by anything but a digit or a point read as a whole number. */
  lemma ParseFloatOfWhole(whole: string, rest: string)
    requires AllDigits(whole) && |whole| > 0
    requires |rest| > 0 ==> !IsDigit(rest[0]) && rest[0] != '.'
    ensures ParseFloat(whole + rest) == Some(DigitsValue(whole) as real)
  {
    var u := whole + rest;
    assert u[0] == whole[0];
    assert DigitPrefix(u) == whole by { DigitPrefixOfDigits(whole, rest); }
    assert u[|whole|..] == rest;
    assert ParseUnsigned(u) == Some(DecimalValue(whole, ""));
    ParseFloatOfDigitStart(u);
  }

  /** A point and digits, with no whole part, read as the fraction alone. */
  lemma ParseUnsignedOfFraction(fraction: string, rest: string)
    requires AllDigits(fraction) && |fraction| > 0
    requires |rest| > 0 ==> !IsDigit(rest[0])
    ensures ParseUnsigned("." + fraction + rest) == Some(FractionValue(fraction))
  {
    var u := "." + fraction + rest;
    assert DigitPrefix(u) == "";
    assert u[0..] == u;
    assert FractionDigits(u) == fraction by {
      assert u[1..] == fraction + rest;
      DigitPrefixOfDigits(fraction, rest);
    }
    assert DigitsValue("") == 0;
  }

  /** Leading white space does not change the reading. */
  lemma {:induction false} TrimStartOfSpaces(ws: string, s: string)
    requires forall i :: 0 <= i < |ws| ==> IsSpace(ws[i])
    ensures TrimStart(ws + s) == TrimStart(s)
  {
    if |ws| > 0 {
      assert (ws + s)[0] == ws[0];
      assert (ws + s)[1..] == ws[1..] + s;
      TrimStartOfSpaces(ws[1..], s);
    } else {
      assert ws + s == s;
    }
  }

  lemma ParseFloatSkipsSpace(ws: string, s: string)
    requires forall i :: 0 <= i < |ws| ==> IsSpace(ws[i])
    ensures ParseFloat(ws + s) == ParseFloat(s)
  {
    TrimStartOfSpaces(ws, s);
  }

  /** A plus sign before a number is dropped. */
  lemma ParseFloatOfPlus(u: string)
    requires StartsNumber(u)
    ensures ParseFloat("+" + u) == ParseUnsigned(u)
  {
    var n := "+" + u;
    assert TrimStart(n) == n;
    assert n[1..] == u;
    assert SplitSign(n) == (false, u);
  }

  // ---------------------------------------------------------------------------
  // The GBP amount of a new entry

  /** The GBP amount is an integer, or NaN when the rate text has no number in it. */
  datatype Converted = Amount(value: int) | NotANumber

  /** `amountGbp` as `bookkeeping.create` computes it. A rate string is present
      when it is given and not empty. */
  function AmountGbp(amount: int, currency: string, exchangeRate: Option<string>): (r: Converted)
    ensures (currency == "GBP" || exchangeRate.None? || exchangeRate == Some("")) ==> r == Amount(amount)
    ensures r.NotANumber? <==> currency != "GBP" && exchangeRate.Some? && exchangeRate.value != ""
                                && ParseFloat(exchangeRate.value).None?
    ensures currency != "GBP" && exchangeRate.Some? && exchangeRate.value != "" && ParseFloat(exchangeRate.value).Some?
            ==> var rate := ParseFloat(exchangeRate.value).value;
                r.Amount? && r.value as real - 0.5 <= amount as real * rate < r.value as real + 0.5
  {
    if currency != "GBP" && exchangeRate.Some? && exchangeRate.value != "" then
      Convert(amount, ParseFloat(exchangeRate.value))
    else Amount(amount)
  }

  /** `Math.round(amount * rate)`, NaN when there is no rate. */
  function Convert(amount: int, rate: Option<real>): (r: Converted)
    ensures rate.None? <==> r.NotANumber?
    ensures rate.Some? ==> r.value as real - 0.5 <= amount as real * rate.value < r.value as real + 0.5
  {
    if rate.Some? then Amount(Round(amount as real * rate.value)) else NotANumber
  }

  /** The entry `bookkeeping.create` stores; `None` when its GBP amount would be NaN. */
  function NewEntry(entryType: EntryType, amount: int, currency: string, exchangeRate: Option<string>,
                    jurisdiction: string, category: string): (r: Option<LedgerEntry>)
    ensures r.None? <==> AmountGbp(amount, currency, exchangeRate).NotANumber?
    ensures r.Some? ==> r.value == LedgerEntry(entryType, amount, currency, Some(AmountGbp(amount, currency, exchangeRate).value),
                                               exchangeRate, jurisdiction, category)
  {
    match AmountGbp(amount, currency, exchangeRate)
    case Amount(gbp) => Some(LedgerEntry(entryType, amount, currency, Some(gbp), exchangeRate, jurisdiction, category))
    case NotANumber => None
  }

  // ---------------------------------------------------------------------------
  // Properties

  /** GBP entries, and entries without a rate (missing or empty), keep their own amount. */
  lemma NoConversionKeepsAmount(amount: int, currency: string, exchangeRate: Option<string>)
    requires currency == "GBP" || exchangeRate.None? || exchangeRate == Some("")
    ensures AmountGbp(amount, currency, exchangeRate) == Amount(amount)
  {
  }

  /** Otherwise the amount is converted at the rate the text parses to, and is
      NaN when the text has no number in it. */
  lemma ConversionUsesParsedRate(amount: int, currency: string, text: string)
    requires currency != "GBP" && text != ""
    ensures AmountGbp(amount, currency, Some(text)) == Convert(amount, ParseFloat(text))
  {
  }

  /** A stored entry always carries a GBP amount, and the report counts it
      unless it is 0, when the report falls back to the original amount. */
  lemma StoredEntryReportsConverted(entryType: EntryType, amount: int, currency: string,
                                    exchangeRate: Option<string>, jurisdiction: string, category: string)
    requires AmountGbp(amount, currency, exchangeRate).Amount?
    ensures var gbp := AmountGbp(amount, currency, exchangeRate).value;
            var e := NewEntry(entryType, amount, currency, exchangeRate, jurisdiction, category);
            && e.Some? && e.value.amountGbp == Some(gbp) && e.value.amount == amount
            && ReportedAmount(e.value) == (if gbp != 0 then gbp else amount)
  {
  }

  /** A rate typed as "0.85" reads as exactly 0.85. */
  lemma ParsesPlainRate()
    ensures ParseFloat("0.85") == Some(0.85)
  {
    assert "0.85" == "0" + "." + "85" + "";
    assert DecimalValue("0", "85") == 0.85 by {
      assert DigitsValue("0") == 0 by { assert "0"[..0] == ""; }
      assert FractionValue("85") == 0.85 by { assert "85"[1..] == "5"; assert "5"[1..] == ""; }
    }
    ParseFloatOfDecimal("0", "85", "");
  }

  lemma ParsesShortRate()
    ensures ParseFloat("0.4") == Some(0.4)
  {
    assert "0.4" == "0" + "." + "4" + "";
    assert DecimalValue("0", "4") == 0.4 by {
      assert DigitsValue("0") == 0 by { assert "0"[..0] == ""; }
      assert FractionValue("4") == 0.4 by { assert "4"[1..] == ""; }
    }
    ParseFloatOfDecimal("0", "4", "");
  }

  /** Parsing stops at the first character that cannot continue the number:
      "1.17 EUR" reads as 1.17. */
  lemma ParsesRateBeforeText()
    ensures ParseFloat("1.17 EUR") == Some(1.17)
  {
    assert "1.17 EUR" == "1" + "." + "17" + " EUR";
    assert DecimalValue("1", "17") == 1.17 by {
      assert DigitsValue("1") == 1 by { assert "1"[..0] == ""; }
      assert FractionValue("17") == 0.17 by { assert "17"[1..] == "7"; assert "7"[1..] == ""; }
    }
    ParseFloatOfDecimal("1", "17", " EUR");
  }

  /** A minus sign negates: "-1.17" reads as -1.17. */
  lemma ParsesNegativeRate()
    ensures ParseFloat("-1.17") == Some(-1.17)
  {
    assert "-1.17" == "-" + "1.17";
    assert "1.17" == "1" + "." + "17" + "";
    assert DecimalValue("1", "17") == 1.17 by {
      assert DigitsValue("1") == 1 by { assert "1"[..0] == ""; }
      assert FractionValue("17") == 0.17 by { assert "17"[1..] == "7"; assert "7"[1..] == ""; }
    }
    ParseUnsignedOfDecimal("1", "17", "");
    ParseFloatOfMinus("1.17");
  }

  /** A rate without a point, as for a currency at par: "1" reads as 1. */
  lemma ParsesWholeRate()
    ensures ParseFloat("1") == Some(1.0)
  {
    assert "1" == "1" + "";
    assert DigitsValue("1") == 1 by { assert "1"[..0] == ""; }
    ParseFloatOfWhole("1", "");
  }

  /** Whole digits stop at the first other character: "2 EUR" reads as 2. */
  lemma ParsesWholeRateBeforeText()
    ensures ParseFloat("2 EUR") == Some(2.0)
  {
    assert "2 EUR" == "2" + " EUR";
    assert DigitsValue("2") == 2 by { assert "2"[..0] == ""; }
    assert " EUR"[0] == ' ';
    ParseFloatOfWhole("2", " EUR");
  }

  /** Leading white space is skipped: " 0.85" reads as 0.85. */
  lemma ParsesSpacedRate()
    ensures ParseFloat(" 0.85") == Some(0.85)
  {
    assert " 0.85" == " " + "0.85";
    ParseFloatSkipsSpace(" ", "0.85");
    ParsesPlainRate();
  }

  /** A plus sign and a missing whole part are accepted: "+.5" reads as 0.5. */
  lemma ParsesSignedFraction()
    ensures ParseFloat("+.5") == Some(0.5)
  {
    assert "+.5" == "+" + ".5";
    assert ".5" == "." + "5" + "";
    assert FractionValue("5") == 0.5 by { assert "5"[1..] == ""; }
    ParseUnsignedOfFraction("5", "");
    ParseFloatOfPlus(".5");
  }

  /** Text that does not start with a number is NaN. */
  lemma RejectsWord()
    ensures ParseFloat("rate") == None
  {
    assert TrimStart("rate") == "rate";
    assert DigitPrefix("rate") == "";
    assert "rate"[0..] == "rate";
    assert FractionDigits("rate") == "";
  }

  /** Rounding at rate 0.85: 10000 gives 8500, and 1 gives 1 (0.85 rounds up). */
  lemma ConvertsAtPlainRate()
    ensures Convert(10000, Some(0.85)) == Amount(8500)
    ensures Convert(1, Some(0.85)) == Amount(1)
  {
  }

  lemma ConvertsEuroAmount()
    ensures AmountGbp(10000, "EUR", Some("0.85")) == Amount(8500)
  {
    ConvertsAtPlainRate();
    ParsesPlainRate();
    ConversionUsesParsedRate(10000, "EUR", "0.85");
  }

  lemma ConvertsSingleCent()
    ensures AmountGbp(1, "EUR", Some("0.85")) == Amount(1)
  {
    ConvertsAtPlainRate();
    ParsesPlainRate();
    ConversionUsesParsedRate(1, "EUR", "0.85");
  }

  /** A euro amount of 100.00 at rate "0.85" is stored as 85.00 pounds, a
      single cent at that rate rounds to 1 penny, and a rate of "rate" is NaN. */
  lemma ConversionExamples()
    ensures AmountGbp(10000, "EUR", Some("0.85")) == Amount(8500)
    ensures AmountGbp(1, "EUR", Some("0.85")) == Amount(1)
    ensures AmountGbp(10000, "EUR", Some("rate")) == NotANumber
  {
    ConvertsEuroAmount();
    ConvertsSingleCent();
    RejectsWord();
  }

  /** A cent at rate "0.4" is stored as 0 pence, which the report then reads
      as the original cent. */
  lemma ZeroConversionReportsOriginal()
    ensures AmountGbp(1, "EUR", Some("0.4")) == Amount(0)
    ensures NewEntry(Expense, 1, "EUR", Some("0.4"), "NL", "Travel").Some?
    ensures ReportedAmount(NewEntry(Expense, 1, "EUR", Some("0.4"), "NL", "Travel").value) == 1
  {
    assert Convert(1, Some(0.4)) == Amount(0);
    ParsesShortRate();
    ConversionUsesParsedRate(1, "EUR", "0.4");
  }
}
