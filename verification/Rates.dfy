/**
 Commercial rates: the parser of rate texts, what is stored of a rate, and the text shown for it.

 Numbers are exact decimals in canonical form and are printed the way JavaScript prints numbers. The
 parser is the grammar of the accepted texts, on lower-cased text since every pattern ignores case.
*/
module Rates {
  import opened Prelude
  import opened Digits
  import opened Text

  // ---- Numbers ----

  /** A non-negative decimal: the digits before and after the point. */
  datatype Decimal = Decimal(whole: string, fraction: string)

  predicate Canonical(d: Decimal) {
    && AllDigits(d.whole) && AllDigits(d.fraction)
    && d.whole != "" && (|d.whole| > 1 ==> d.whole[0] != '0')
    && (d.fraction != "" ==> d.fraction[|d.fraction| - 1] != '0')
  }

  function DropLeadingZeros(s: string): (r: string)
    requires AllDigits(s)
    ensures AllDigits(r) && (r != "" ==> r[0] != '0')
  {
    if s != "" && s[0] == '0' then DropLeadingZeros(s[1..]) else s
  }

  function DropTrailingZeros(s: string): (r: string)
    requires AllDigits(s)
    ensures AllDigits(r) && (r != "" ==> r[|r| - 1] != '0')
  {
    if s != "" && s[|s| - 1] == '0' then DropTrailingZeros(s[..|s| - 1]) else s
  }

  function ToDecimal(whole: string, fraction: string): (d: Decimal)
    requires AllDigits(whole) && AllDigits(fraction)
    ensures Canonical(d)
  {
    var w := DropLeadingZeros(whole);
    Decimal(if w == "" then "0" else w, DropTrailingZeros(fraction))
  }

  function LexLess(a: string, b: string): bool {
    if b == "" then false
    else if a == "" then true
    else a[0] < b[0] || (a[0] == b[0] && LexLess(a[1..], b[1..]))
  }

  predicate Less(a: Decimal, b: Decimal) {
    || |a.whole| < |b.whole|
    || (|a.whole| == |b.whole|
      && (LexLess(a.whole, b.whole) || (a.whole == b.whole && LexLess(a.fraction, b.fraction))))
  }

  function LeadingZeros(s: string): (n: nat)
    ensures n <= |s| && forall i :: 0 <= i < n ==> s[i] == '0'
    ensures n < |s| ==> s[n] != '0'
  {
    if s != "" && s[0] == '0' then 1 + LeadingZeros(s[1..]) else 0
  }

  /** Numbers from a millionth up to below 10^21, and zero, are printed without an exponent. */
  predicate Plain(d: Decimal) {
    |d.whole| <= 21 && (d.whole == "0" && d.fraction != "" ==> LeadingZeros(d.fraction) <= 5)
  }

  /** In value: below 10^21, and zero or with a digit that counts among the first six decimals. */
  lemma PlainExactly(d: Decimal)
    requires Canonical(d)
    ensures var first := d.fraction[..if |d.fraction| < 6 then |d.fraction| else 6];
      Plain(d) <==> |d.whole| <= 21 && (d.whole != "0" || d.fraction == "" || exists ch :: ch in first && ch != '0')
  {
    var n, first := LeadingZeros(d.fraction), d.fraction[..if |d.fraction| < 6 then |d.fraction| else 6];
    if n <= 5 && n < |d.fraction| {
      assert first[n] != '0' && first[n] in first;
    }
  }

  function PrintExponent(d: Decimal): string
    requires Canonical(d) && !Plain(d)
  {
    var large := |d.whole| > 21;
    var zeros := LeadingZeros(d.fraction);
    var digits := if large then DropTrailingZeros(d.whole + d.fraction) else d.fraction[zeros..];
    if digits == "" then ""
    else
      [digits[0]] + (if |digits| > 1 then "." + digits[1..] else "")
      + (if large then "e+" + NatText(|d.whole| - 1) else "e-" + NatText(zeros + 1))
  }

  function Print(d: Decimal): string
    requires Canonical(d)
  {
    if Plain(d) then d.whole + (if d.fraction == "" then "" else "." + d.fraction) else PrintExponent(d)
  }

  // ---- The grammar ----

  /** Digits with an optional fraction, and what follows. */
  function Number(s: string): (r: Option<(Decimal, string)>)
    ensures r.Some? ==> Canonical(r.value.0)
  {
    var n := DigitRun(s);
    if n == 0 then None
    else if n < |s| && s[n] == '.' && DigitRun(s[n + 1..]) > 0 then
      var m := DigitRun(s[n + 1..]);
      Some((ToDecimal(s[..n], s[n + 1..][..m]), s[n + 1..][m..]))
    else Some((ToDecimal(s[..n], ""), s[n..]))
  }

  datatype Currency = INR | USD

  datatype Term = LPA | Monthly | Hourly | Yearly

  datatype Error = InvalidRate | MaximumBelowMinimum | InvalidCommission | MustUseInr | ColumnOverflow

  datatype Rate = Rate(
    min: Option<Decimal>, max: Option<Decimal>, currency: Option<Currency>, term: Option<Term>,
    commission: Option<Decimal>)

  const NO_RATE := Rate(None, None, None, None, None)

  const HUNDRED := Decimal("100", "")

  function CurrencyPrefix(t: string): Option<Currency> {
    if "inr" <= t then Some(INR) else if "usd" <= t then Some(USD) else None
  }

  /** A dash between the currency and the amount counts as a blank. */
  function DropDash(t: string): string {
    if CurrencyPrefix(t).None? then t
    else
      var rest := TrimLeft(t[3..]);
      if rest != "" && rest[0] == '-' then t[..3] + " " + TrimLeft(rest[1..]) else t
  }

  function RemoveCommas(s: string): string {
    if s == "" then "" else (if s[0] == ',' then "" else [s[0]]) + RemoveCommas(s[1..])
  }

  function Prepared(value: string): string {
    DropDash(Lower(Trim(RemoveCommas(value))))
  }

  predicate Dollar(s: string) {
    s != "" && s[0] == '$'
  }

  /** An amount with an optional dollar sign: whether it has one, the number, and what follows. */
  function Amount(s: string): (r: Option<(bool, Decimal, string)>)
    ensures r.Some? ==> Canonical(r.value.1)
  {
    var n := Number(if Dollar(s) then s[1..] else s);
    if n.None? then None else Some((Dollar(s), n.value.0, n.value.1))
  }

  /** ` to ` and a second amount. */
  function SecondAmount(rest: string): (r: Option<(bool, Decimal, string)>)
    ensures r.Some? ==> Canonical(r.value.1)
  {
    var word := TrimLeft(rest);
    if word != rest && "to" <= word && TrimLeft(word[2..]) != word[2..] then Amount(TrimLeft(word[2..])) else None
  }

  /** The unit at the end: none, a known one, or something else. */
  function Unit(rest: string): Option<Option<Term>> {
    var word := TrimLeft(rest);
    if rest == "" then Some(None)
    else if word == "lpa" then Some(Some(LPA))
    else if word == "/mo" || word == "monthly" then Some(Some(Monthly))
    else if word == "/hr" || word == "hourly" then Some(Some(Hourly))
    else if word == "/yr" || word == "yearly" then Some(Some(Yearly))
    else None
  }

  function LabelWords(): string {
    "placement" + " commission"
  }

  function ParseCommission(t: string): Option<Decimal> {
    var n := Number(t);
    if n.Some? && n.value.1 != "" && n.value.1[0] == '%' && TrimLeft(n.value.1[1..]) == LabelWords()
    then Some(n.value.0) else None
  }

  function AfterCurrency(t: string): string {
    if CurrencyPrefix(t).Some? then TrimLeft(t[3..]) else t
  }

  function ParseAmounts(t: string): Result<Rate, Error> {
    var first := Amount(AfterCurrency(t));
    if first.None? then Err(InvalidRate)
    else
      var second := SecondAmount(first.value.2);
      var unit := Unit(if second.Some? then second.value.2 else first.value.2);
      var dollar := first.value.0 || (second.Some? && second.value.0);
      var max := if second.Some? then second.value.1 else first.value.1;
      if unit.None? then Err(InvalidRate)
      else if Less(max, first.value.1) then Err(MaximumBelowMinimum)
      else Ok(Rate(Some(first.value.1), Some(max), if dollar then Some(USD) else CurrencyPrefix(t), unit.value, None))
  }

  /** The parsed rate of a text, null counting as no rate. */
  function ParseRate(value: Option<string>): Result<Rate, Error> {
    if value.None? || value.value == "" || value.value == "N/A" then Ok(NO_RATE)
    else
      var t := Prepared(value.value);
      var commission := ParseCommission(t);
      if commission.None? then ParseAmounts(t)
      else if Less(HUNDRED, commission.value) then Err(InvalidCommission)
      else Ok(NO_RATE.(commission := commission))
  }

  // ---- Storing and showing ----

  datatype Side = Pay | ClientBill

  /** What is stored: rates in India are in rupees, and only the client's side keeps a commission. */
  function Stored(value: Option<string>, india: bool, side: Side): Result<Rate, Error> {
    var rate := ParseRate(value);
    if rate.Err? then rate
    else if india && rate.value.currency == Some(USD) then Err(MustUseInr)
    else Ok(rate.value.(currency := if india then Some(INR) else rate.value.currency,
                        commission := if side == ClientBill then rate.value.commission else None))
  }

  datatype Fields = Fields(clientBill: Option<Rate>, pay: Option<Rate>)

  function Expected(f: Field<string>, india: bool, side: Side): Result<Option<Rate>, Error> {
    if f.Absent? then Ok(None)
    else match Stored(f.value, india, side) case Ok(r) => Ok(Some(r)) case Err(e) => Err(e)
  }

  /** Both rates of a request; the first one that is not accepted decides the error. */
  method CommercialFields(clientBillRate: Field<string>, payRate: Field<string>, india: bool)
      returns (result: Result<Fields, Error>)
    ensures result == match Expected(clientBillRate, india, ClientBill)
                      case Err(e) => Err(e)
                      case Ok(bill) => match Expected(payRate, india, Pay)
                        case Err(e) => Err(e)
                        case Ok(pay) => Ok(Fields(bill, pay))
  {
    hide ParseRate;
    var fields := Fields(None, None);
    for i := 0 to 2
      invariant i == 0 ==> fields == Fields(None, None)
      invariant i >= 1 ==> Expected(clientBillRate, india, ClientBill) == Ok(fields.clientBill)
      invariant i == 1 ==> fields.pay == None
      invariant i == 2 ==> Expected(payRate, india, Pay) == Ok(fields.pay)
    {
      var side := if i == 0 then ClientBill else Pay;
      var input := if i == 0 then clientBillRate else payRate;
      if input.Given? {
        var rate := ParseRate(input.value);
        if rate.Err? {
          return Err(rate.error);
        }
        if india && rate.value.currency == Some(USD) {
          return Err(MustUseInr);
        }
        var stored := rate.value.(currency := if india then Some(INR) else rate.value.currency,
                                  commission := if side == ClientBill then rate.value.commission else None);
        fields := if side == ClientBill then fields.(clientBill := Some(stored)) else fields.(pay := Some(stored));
      }
    }
    return Ok(fields);
  }

  function CurrencyText(c: Option<Currency>): string {
    match c case None => "" case Some(INR) => "INR" case Some(USD) => "USD"
  }

  function Suffix(t: Option<Term>): string {
    match t
    case None => ""
    case Some(LPA) => "LPA"
    case Some(Monthly) => "/mo"
    case Some(Hourly) => "/hr"
    case Some(Yearly) => "/yr"
  }

  predicate CanonicalRate(r: Rate) {
    && (r.min.Some? ==> Canonical(r.min.value))
    && (r.max.Some? ==> Canonical(r.max.value))
    && (r.commission.Some? ==> Canonical(r.commission.value))
  }

  function Amounts(min: Decimal, max: Option<Decimal>): string
    requires Canonical(min) && (max.Some? ==> Canonical(max.value))
  {
    Print(min) + if max.Some? && max.value != min then " to " + Print(max.value) else ""
  }

  function CommissionLabel(): string {
    "% " + ("Placement" + " Commission")
  }

  function Display(r: Rate, side: Side): string
    requires CanonicalRate(r)
  {
    if side == ClientBill && r.commission.Some? then Print(r.commission.value) + CommissionLabel()
    else if r.min.None? then "N/A"
    else Trim(CurrencyText(r.currency) + " - " + Amounts(r.min.value, r.max) + " " + Suffix(r.term))
  }

  // ---- Reading a printed number ----

  /** Text after a number that does not continue it. */
  predicate EndsNumber(rest: string) {
    rest != "" ==> !IsDigit(rest[0]) && rest[0] != '.'
  }

  lemma ToDecimalOf(d: Decimal)
    requires Canonical(d)
    ensures ToDecimal(d.whole, d.fraction) == d
  {
    if d.whole[0] == '0' {
      assert d.whole[1..] == "";
      assert DropLeadingZeros(d.whole) == "";
      assert d.whole == ['0'];
    } else {
      assert DropLeadingZeros(d.whole) == d.whole;
    }
    assert DropTrailingZeros(d.fraction) == d.fraction;
  }

  lemma WholeNumberOf(whole: string, rest: string)
    requires AllDigits(whole) && whole != "" && EndsNumber(rest)
    ensures Number(whole + rest) == Some((ToDecimal(whole, ""), rest))
  {
    hide ToDecimal, DigitRun;
    DigitRunOf(whole, rest);
    assert (whole + rest)[..|whole|] == whole && (whole + rest)[|whole|..] == rest;
  }

  lemma FractionNumberOf(whole: string, fraction: string, rest: string)
    requires AllDigits(whole) && AllDigits(fraction) && whole != "" && fraction != "" && EndsNumber(rest)
    ensures Number(whole + ("." + (fraction + rest))) == Some((ToDecimal(whole, fraction), rest))
  {
    hide ToDecimal, DigitRun;
    var tail := fraction + rest;
    var s := whole + ("." + tail);
    DigitRunOf(whole, "." + tail);
    assert s[..|whole|] == whole && s[|whole|] == '.';
    assert s[|whole| + 1..] == tail;
    DigitRunOf(fraction, rest);
    assert tail[..|fraction|] == fraction && tail[|fraction|..] == rest;
  }

  /** Any digits with an optional fraction are read whole. */
  lemma NumberOf(whole: string, fraction: string, rest: string)
    requires AllDigits(whole) && AllDigits(fraction) && whole != "" && EndsNumber(rest)
    ensures Number(whole + (if fraction == "" then "" else "." + fraction) + rest)
      == Some((ToDecimal(whole, fraction), rest))
  {
    hide Number, ToDecimal, AllDigits, EndsNumber;
    if fraction == "" {
      WholeNumberOf(whole, rest);
      assert whole + "" + rest == whole + rest;
    } else {
      FractionNumberOf(whole, fraction, rest);
      assert whole + ("." + fraction) + rest == whole + ("." + (fraction + rest));
    }
  }

  /** A plainly printed number is read back. */
  lemma PlainNumber(d: Decimal, rest: string)
    requires Canonical(d) && Plain(d) && EndsNumber(rest)
    ensures Number(Print(d) + rest) == Some((d, rest))
  {
    hide Number, ToDecimal;
    NumberOf(d.whole, d.fraction, rest);
    ToDecimalOf(d);
  }

  lemma {:induction false} DropTrailingZerosKeepsFront(s: string)
    requires AllDigits(s) && s != "" && s[0] != '0'
    ensures DropTrailingZeros(s) != "" && DropTrailingZeros(s)[0] == s[0]
  {
    if s[|s| - 1] == '0' {
      DropTrailingZerosKeepsFront(s[..|s| - 1]);
    }
  }

  /** How a number with an exponent is printed: digits with an optional fraction, then the exponent. */
  lemma ExponentShape(d: Decimal) returns (whole: string, fraction: string, exponent: string)
    requires Canonical(d) && !Plain(d)
    ensures AllDigits(whole) && AllDigits(fraction) && AllDigits(exponent) && |whole| == 1 && exponent != ""
    ensures Print(d) == whole + (if fraction == "" then "" else "." + fraction) + ("e+" + exponent)
         || Print(d) == whole + (if fraction == "" then "" else "." + fraction) + ("e-" + exponent)
  {
    var large := |d.whole| > 21;
    var zeros := LeadingZeros(d.fraction);
    var digits;
    if large {
      digits := DropTrailingZeros(d.whole + d.fraction);
      DropTrailingZerosKeepsFront(d.whole + d.fraction);
      exponent := NatText(|d.whole| - 1);
    } else {
      digits := d.fraction[zeros..];
      exponent := NatText(zeros + 1);
    }
    hide LeadingZeros, DropTrailingZeros, NatText, Canonical;
    whole, fraction := [digits[0]], digits[1..];
    assert Print(d) == PrintExponent(d);
  }

  /** A number printed with an exponent is read only up to its `e`. */
  lemma ExponentNumber(d: Decimal, rest: string)
    requires Canonical(d) && !Plain(d)
    ensures Number(Print(d) + rest).Some? && Number(Print(d) + rest).value.1 != ""
      && Number(Print(d) + rest).value.1[0] == 'e'
  {
    hide Print, Number, ToDecimal;
    var whole, fraction, exponent := ExponentShape(d);
    var front := whole + (if fraction == "" then "" else "." + fraction);
    if Print(d) == front + ("e+" + exponent) {
      NumberOf(whole, fraction, "e+" + exponent + rest);
      assert Print(d) + rest == front + ("e+" + exponent + rest);
    } else {
      NumberOf(whole, fraction, "e-" + exponent + rest);
      assert Print(d) + rest == front + ("e-" + exponent + rest);
    }
  }

  // ---- The characters of a shown rate ----

  /** No comma and no capital letter. */
  predicate Settled(s: string) {
    forall i :: 0 <= i < |s| ==> s[i] != ',' && !('A' <= s[i] <= 'Z')
  }

  /** Settled, and a digit at both ends. */
  predicate Numeric(s: string) {
    s != "" && Settled(s) && IsDigit(s[0]) && IsDigit(s[|s| - 1])
  }

  lemma NumericJoin(a: string, between: string, b: string)
    requires Numeric(a) && Numeric(b) && Settled(between)
    ensures Numeric(a + (between + b))
  {
  }

  lemma DigitsAreNumeric(digits: string)
    requires AllDigits(digits) && digits != ""
    ensures Numeric(digits)
  {
  }

  lemma PrintIsNumeric(d: Decimal)
    requires Canonical(d)
    ensures Numeric(Print(d))
  {
    if Plain(d) {
      hide Plain, Numeric;
      DigitsAreNumeric(d.whole);
      if d.fraction != "" {
        DigitsAreNumeric(d.fraction);
        NumericJoin(d.whole, ".", d.fraction);
        assert Print(d) == d.whole + ("." + d.fraction);
      } else {
        assert Print(d) == d.whole + "" == d.whole;
      }
    } else {
      hide Print, Numeric, Plain;
      var whole, fraction, exponent := ExponentShape(d);
      ExponentIsNumeric(whole, fraction, exponent);
    }
  }

  lemma ExponentIsNumeric(whole: string, fraction: string, exponent: string)
    requires AllDigits(whole) && AllDigits(fraction) && AllDigits(exponent) && whole != "" && exponent != ""
    ensures var front := whole + (if fraction == "" then "" else "." + fraction);
      Numeric(front + ("e+" + exponent)) && Numeric(front + ("e-" + exponent))
  {
    var front := whole + (if fraction == "" then "" else "." + fraction);
    assert Numeric(front);
    assert Numeric(exponent);
    hide Numeric;
    NumericJoin(front, "e+", exponent);
    NumericJoin(front, "e-", exponent);
  }

  lemma AmountsAreNumeric(min: Decimal, max: Option<Decimal>)
    requires Canonical(min) && (max.Some? ==> Canonical(max.value))
    ensures Numeric(Amounts(min, max))
  {
    hide Print, Numeric, Canonical;
    PrintIsNumeric(min);
    if max.Some? && max.value != min {
      PrintIsNumeric(max.value);
      NumericJoin(Print(min), " to ", Print(max.value));
    } else {
      assert Print(min) + "" == Print(min);
    }
  }

  predicate NoComma(s: string) {
    forall i :: 0 <= i < |s| ==> s[i] != ','
  }

  lemma {:induction false} RemoveCommasOf(s: string)
    requires NoComma(s)
    ensures RemoveCommas(s) == s
  {
    if s != "" {
      RemoveCommasOf(s[1..]);
      assert s == [s[0]] + s[1..];
    }
  }

  lemma LowerConcat(a: string, b: string)
    ensures Lower(a + b) == Lower(a) + Lower(b)
  {
  }

  lemma LowerOfSettled(s: string)
    requires Settled(s)
    ensures Lower(s) == s
  {
  }

  /** What the parser sees of a text that needs no trimming. */
  lemma PreparedOf(s: string)
    requires NoComma(s) && Trimmed(s)
    ensures Prepared(s) == DropDash(Lower(s))
  {
    RemoveCommasOf(s);
    TrimOfTrimmed(s);
  }

  // ---- Parsing shown amounts ----

  function UnitText(t: Option<Term>): string {
    match t
    case None => ""
    case Some(LPA) => " lpa"
    case Some(Monthly) => " /mo"
    case Some(Hourly) => " /hr"
    case Some(Yearly) => " /yr"
  }

  lemma {:induction false} TrimLeftBlank(s: string)
    requires s != "" && !IsSpace(s[0])
    ensures TrimLeft(" " + s) == s
  {
    assert (" " + s)[1..] == s;
  }

  lemma UnitOf(t: Option<Term>)
    ensures Unit(UnitText(t)) == Some(t) && EndsNumber(UnitText(t)) && SecondAmount(UnitText(t)).None?
  {
    if t.Some? {
      var word := UnitText(t)[1..];
      assert UnitText(t) == " " + word;
      TrimLeftBlank(word);
      assert word[0] != 't';
    }
  }

  lemma NotAUnit(rest: string)
    requires rest != "" && rest[0] == 'e'
    ensures Unit(rest).None? && SecondAmount(rest).None?
  {
    assert TrimLeft(rest) == rest;
  }

  lemma SecondAmountOf(s: string)
    requires s != "" && IsDigit(s[0])
    ensures SecondAmount(" to " + s) == Amount(s)
  {
    hide Amount;
    TrimLeftBlank("to " + s);
    assert " " + ("to " + s) == " to " + s;
    assert ("to " + s)[2..] == " " + s;
    TrimLeftBlank(s);
  }

  /** An amount followed by neither a unit nor a second amount. */
  predicate Unreadable(a: Option<(bool, Decimal, string)>) {
    a.Some? && Unit(a.value.2).None? && SecondAmount(a.value.2).None?
  }

  /** A printed amount is read, or read up to the `e` of its exponent. */
  lemma AmountOf(d: Decimal, rest: string)
    requires Canonical(d) && EndsNumber(rest)
    ensures Plain(d) ==> Amount(Print(d) + rest) == Some((false, d, rest))
    ensures !Plain(d) ==> Unreadable(Amount(Print(d) + rest))
  {
    PrintIsNumeric(d);
    hide Number, Print, Canonical, Plain, Unit, SecondAmount;
    if Plain(d) {
      PlainNumber(d, rest);
    } else {
      ExponentNumber(d, rest);
      NotAUnit(Number(Print(d) + rest).value.1);
    }
  }

  lemma LessIsStrict(d: Decimal)
    ensures !Less(d, d)
  {
    LexLessIsStrict(d.whole);
    LexLessIsStrict(d.fraction);
  }

  lemma {:induction false} LexLessIsStrict(s: string)
    ensures !LexLess(s, s)
  {
    if s != "" {
      LexLessIsStrict(s[1..]);
    }
  }

  /** One amount and its unit. */
  lemma OneAmountRead(c: Currency, d: Decimal, t: Option<Term>, text: string)
    requires Canonical(d)
    requires CurrencyPrefix(text) == Some(c) && AfterCurrency(text) == Print(d) + UnitText(t)
    ensures ParseAmounts(text) == if Plain(d) then Ok(Rate(Some(d), Some(d), Some(c), t, None)) else Err(InvalidRate)
  {
    UnitOf(t);
    AmountOf(d, UnitText(t));
    LessIsStrict(d);
    hide Print, Canonical, Plain, Less, Unit, SecondAmount, UnitText, CurrencyPrefix, AfterCurrency, Amount;
  }

  /** Two amounts and their unit. */
  lemma TwoAmountsRead(c: Currency, min: Decimal, max: Decimal, t: Option<Term>, text: string)
    requires Canonical(min) && Canonical(max) && !Less(max, min)
    requires CurrencyPrefix(text) == Some(c)
      && AfterCurrency(text) == Print(min) + (" to " + (Print(max) + UnitText(t)))
    ensures ParseAmounts(text)
      == if Plain(min) && Plain(max) then Ok(Rate(Some(min), Some(max), Some(c), t, None)) else Err(InvalidRate)
  {
    UnitOf(t);
    PrintIsNumeric(max);
    hide Print, Canonical, Plain, Less, Unit, SecondAmount, UnitText, CurrencyPrefix, AfterCurrency, Amount;
    AmountOf(min, " to " + (Print(max) + UnitText(t)));
    SecondAmountOf(Print(max) + UnitText(t));
    AmountOf(max, UnitText(t));
  }

  /** The amounts of a shown rate, its currency already read. */
  lemma AmountsRead(c: Currency, min: Decimal, max: Decimal, t: Option<Term>, text: string)
    requires Canonical(min) && Canonical(max) && !Less(max, min)
    requires CurrencyPrefix(text) == Some(c) && AfterCurrency(text) == Amounts(min, Some(max)) + UnitText(t)
    ensures ParseAmounts(text)
      == if Plain(min) && Plain(max) then Ok(Rate(Some(min), Some(max), Some(c), t, None)) else Err(InvalidRate)
  {
    hide Print, Canonical, Plain, Less, Unit, SecondAmount, UnitText, CurrencyPrefix, AfterCurrency, Amount,
      ParseAmounts;
    if max == min {
      assert Amounts(min, Some(max)) == Print(min) + "";
      assert Amounts(min, Some(max)) + UnitText(t) == Print(min) + UnitText(t);
      OneAmountRead(c, min, t, text);
    } else {
      assert Amounts(min, Some(max)) + UnitText(t) == Print(min) + (" to " + (Print(max) + UnitText(t)));
      TwoAmountsRead(c, min, max, t, text);
    }
  }

  // ---- The text shown for a rate ----

  function LowerCurrency(c: Currency): string {
    match c case INR => "inr" case USD => "usd"
  }

  /** A shown rate with a currency, as the parser sees it. */
  lemma ShownPrepared(c: Currency, amounts: string, t: Option<Term>)
    requires Numeric(amounts)
    ensures var text := Prepared(Trim(CurrencyText(Some(c)) + " - " + amounts + " " + Suffix(t)));
      text == LowerCurrency(c) + " " + (amounts + UnitText(t))
  {
    var shown := ShownTrimmed(c, amounts, t);
    hide Numeric;
    PreparedOf(shown);
    ShownLower(c, amounts, t);
    DashDropped(c, amounts + UnitText(t));
  }

  function CapitalUnit(t: Option<Term>): string {
    if t.None? then "" else " " + Suffix(t)
  }

  lemma ShownTrimmed(c: Currency, amounts: string, t: Option<Term>) returns (shown: string)
    requires Numeric(amounts)
    ensures shown == CurrencyText(Some(c)) + " - " + (amounts + CapitalUnit(t))
    ensures Trim(CurrencyText(Some(c)) + " - " + amounts + " " + Suffix(t)) == shown
    ensures NoComma(shown) && Trimmed(shown)
  {
    hide Trim, Numeric, CapitalUnit, Suffix, CurrencyText, NoComma, Trimmed;
    shown := CurrencyText(Some(c)) + " - " + (amounts + CapitalUnit(t));
    ShownChars(c, amounts, t);
    TrimOfTrimmed(shown);
    ShownPadded(c, amounts, t);
    TrimOfPadded("", shown, if t.None? then " " else "");
  }

  lemma ShownChars(c: Currency, amounts: string, t: Option<Term>)
    requires Numeric(amounts)
    ensures NoComma(CurrencyText(Some(c)) + " - " + (amounts + CapitalUnit(t)))
    ensures Trimmed(CurrencyText(Some(c)) + " - " + (amounts + CapitalUnit(t)))
  {
    assert NoComma(CapitalUnit(t));
    assert t.Some? ==> !IsSpace(CapitalUnit(t)[|CapitalUnit(t)| - 1]);
    hide CapitalUnit;
  }

  lemma ShownPadded(c: Currency, amounts: string, t: Option<Term>)
    ensures CurrencyText(Some(c)) + " - " + amounts + " " + Suffix(t)
      == "" + (CurrencyText(Some(c)) + " - " + (amounts + CapitalUnit(t))) + if t.None? then " " else ""
  {
    hide CurrencyText;
  }

  lemma ShownLower(c: Currency, amounts: string, t: Option<Term>)
    requires Numeric(amounts)
    ensures Lower(CurrencyText(Some(c)) + " - " + (amounts + CapitalUnit(t)))
      == LowerCurrency(c) + " - " + (amounts + UnitText(t))
  {
    LowerOfSettled(amounts);
    LowerConcat(amounts, CapitalUnit(t));
    LowerConcat(CurrencyText(Some(c)) + " - ", amounts + CapitalUnit(t));
    assert Lower(CapitalUnit(t)) == UnitText(t);
    assert Lower(CurrencyText(Some(c)) + " - ") == LowerCurrency(c) + " - ";
  }

  lemma DashDropped(c: Currency, rest: string)
    requires rest != "" && IsDigit(rest[0])
    ensures DropDash(LowerCurrency(c) + " - " + rest) == LowerCurrency(c) + " " + rest
    ensures AfterCurrency(LowerCurrency(c) + " " + rest) == rest
      && CurrencyPrefix(LowerCurrency(c) + " " + rest) == Some(c)
  {
    var t := LowerCurrency(c) + " - " + rest;
    assert t[3..] == " " + ("- " + rest);
    TrimLeftBlank("- " + rest);
    assert ("- " + rest)[1..] == " " + rest;
    TrimLeftBlank(rest);
    assert t[..3] == LowerCurrency(c);
    assert (LowerCurrency(c) + " " + rest)[3..] == " " + rest;
  }

  function ReadLabel(): string {
    "% " + LabelWords()
  }

  lemma LabelChars()
    ensures NoComma(CommissionLabel()) && |CommissionLabel()| == 22 && !IsSpace(CommissionLabel()[21])
  {
  }

  lemma LabelLowers()
    ensures Lower(CommissionLabel()) == ReadLabel()
  {
    LabelParts();
    LowerConcat("Placement", " Commission");
    LowerConcat("% ", "Placement" + " Commission");
    hide Lower;
  }

  lemma LabelParts()
    ensures Lower("% ") == "% " && Lower("Placement") == "placement" && Lower(" Commission") == " commission"
  {
  }

  lemma LabelStarts()
    ensures |LabelWords()| > 0 && !IsSpace(LabelWords()[0])
  {
  }

  lemma LabelRead()
    ensures EndsNumber(ReadLabel()) && ReadLabel() != "" && ReadLabel()[0] == '%'
      && TrimLeft(ReadLabel()[1..]) == LabelWords()
  {
    LabelStarts();
    hide LabelWords, TrimLeft;
    assert ReadLabel()[1..] == " " + LabelWords();
    TrimLeftBlank(LabelWords());
  }

  lemma CommissionPrepared(c: Decimal)
    requires Canonical(c)
    ensures Prepared(Print(c) + CommissionLabel()) == Print(c) + ReadLabel()
    ensures CurrencyPrefix(Print(c) + ReadLabel()).None?
  {
    hide Print, Canonical, Prepared, CommissionLabel, ReadLabel, Lower;
    PrintIsNumeric(c);
    LabelChars();
    LabelLowers();
    LabelRead();
    PreparedOf(Print(c) + CommissionLabel());
    LowerConcat(Print(c), CommissionLabel());
    LowerOfSettled(Print(c));
    assert (Print(c) + ReadLabel())[0] == Print(c)[0];
  }

  lemma ReadCommission(c: Decimal, t: string)
    requires Canonical(c) && t == Print(c) + ReadLabel() && CurrencyPrefix(t).None?
    ensures Plain(c) ==> ParseCommission(t) == Some(c)
    ensures !Plain(c) ==> ParseCommission(t).None? && ParseAmounts(t) == Err(InvalidRate)
  {
    hide Print, Plain, Canonical, Number, Unit, SecondAmount, ReadLabel, CurrencyPrefix, LabelWords, TrimLeft;
    LabelRead();
    PrintIsNumeric(c);
    if Plain(c) {
      PlainNumber(c, ReadLabel());
    } else {
      ExponentNumber(c, ReadLabel());
      NotAUnit(Number(t).value.1);
    }
  }

  /** A shown commission is read back when it is printed plainly. */
  lemma CommissionRead(c: Decimal)
    requires Canonical(c) && !Less(HUNDRED, c)
    ensures ParseRate(Some(Print(c) + CommissionLabel()))
      == if Plain(c) then Ok(NO_RATE.(commission := Some(c))) else Err(InvalidRate)
  {
    hide Print, Plain, Canonical, Prepared, Less, CommissionLabel, ReadLabel, ParseCommission, ParseAmounts,
      CurrencyPrefix, Lower;
    CommissionPrepared(c);
    ReadCommission(c, Print(c) + ReadLabel());
    LabelChars();
    assert |Print(c) + CommissionLabel()| >= 22;
  }

  function ShownWithoutCurrency(amounts: string, t: Option<Term>): string {
    "- " + (amounts + CapitalUnit(t))
  }

  lemma WithoutCurrencyChars(amounts: string, t: Option<Term>)
    requires Numeric(amounts)
    ensures NoComma(ShownWithoutCurrency(amounts, t)) && Trimmed(ShownWithoutCurrency(amounts, t))
  {
    assert NoComma(CapitalUnit(t));
    assert t.Some? ==> !IsSpace(CapitalUnit(t)[|CapitalUnit(t)| - 1]);
    hide CapitalUnit;
  }

  lemma WithoutCurrencyTrimmed(amounts: string, t: Option<Term>)
    requires Numeric(amounts)
    ensures Trim(CurrencyText(None) + " - " + amounts + " " + Suffix(t)) == ShownWithoutCurrency(amounts, t)
    ensures NoComma(ShownWithoutCurrency(amounts, t)) && Trimmed(ShownWithoutCurrency(amounts, t))
  {
    hide Trim, ShownWithoutCurrency, Numeric, Suffix, CurrencyText;
    var shown := ShownWithoutCurrency(amounts, t);
    WithoutCurrencyChars(amounts, t);
    TrimOfTrimmed(shown);
    WithoutCurrencyPadded(amounts, t);
    TrimOfPadded(" ", shown, if t.None? then " " else "");
  }

  lemma WithoutCurrencyPadded(amounts: string, t: Option<Term>)
    ensures CurrencyText(None) + " - " + amounts + " " + Suffix(t)
      == " " + ShownWithoutCurrency(amounts, t) + if t.None? then " " else ""
  {
  }

  lemma DashUnread(t: string)
    requires t != "" && t[0] == '-'
    ensures ParseCommission(t).None? && ParseAmounts(t).Err? && DropDash(t) == t
  {
    assert Number(t).None? by {
      DigitRunOf("", t);
      assert "" + t == t;
    }
    hide Number;
  }

  /** Without a currency the shown text starts with a dash and is not accepted. */
  lemma NoCurrencyUnread(amounts: string, t: Option<Term>)
    requires Numeric(amounts)
    ensures ParseRate(Some(Trim(CurrencyText(None) + " - " + amounts + " " + Suffix(t)))).Err?
  {
    hide Trim, Prepared, ParseCommission, ParseAmounts, Suffix, DropDash;
    WithoutCurrencyTrimmed(amounts, t);
    var shown := ShownWithoutCurrency(amounts, t);
    PreparedOf(shown);
    assert shown[0] == '-' && Lower(shown)[0] == '-';
    DashUnread(Lower(shown));
    assert |shown| >= 3 && shown[0] != "N/A"[0];
  }

  /** A shown rate with a currency is read back when its amounts are printed plainly. */
  lemma AmountsShownRead(c: Currency, min: Decimal, max: Decimal, t: Option<Term>)
    requires Canonical(min) && Canonical(max) && !Less(max, min)
    ensures ParseRate(Some(Display(Rate(Some(min), Some(max), Some(c), t, None), ClientBill)))
      == if Plain(min) && Plain(max) then Ok(Rate(Some(min), Some(max), Some(c), t, None)) else Err(InvalidRate)
  {
    hide Print, Plain, Canonical, Amounts, Prepared, Less, Trim, ParseAmounts, ParseCommission;
    hide AfterCurrency, UnitText, CurrencyText, Suffix, LowerCurrency, CapitalUnit, NoComma, Trimmed;
    var amounts := Amounts(min, Some(max));
    AmountsAreNumeric(min, Some(max));
    ShownPrepared(c, amounts, t);
    var shown := ShownTrimmed(c, amounts, t);
    var text := LowerCurrency(c) + " " + (amounts + UnitText(t));
    DashDropped(c, amounts + UnitText(t));
    AmountsRead(c, min, max, t, text);
    NoCommission(c, amounts + UnitText(t));
    NotNone(c, amounts + CapitalUnit(t));
  }

  lemma NoCommission(c: Currency, rest: string)
    ensures ParseCommission(LowerCurrency(c) + " " + rest).None?
  {
    var text := LowerCurrency(c) + " " + rest;
    assert !IsDigit(text[0]);
    DigitRunOf("", text);
    assert "" + text == text;
  }

  lemma NotNone(c: Currency, rest: string)
    ensures CurrencyText(Some(c)) + " - " + rest != "" && CurrencyText(Some(c)) + " - " + rest != "N/A"
  {
    assert |CurrencyText(Some(c)) + " - " + rest| >= 6;
  }

  // ---- Saving a shown rate ----

  /** A rate as the service stores it. */
  predicate StoredForm(f: Rate, india: bool, side: Side) {
    var none := Rate(None, None, if india then Some(INR) else None, None, None);
    && CanonicalRate(f)
    && (india ==> f.currency == Some(INR))
    && (f.commission.Some? ==>
      side == ClientBill && f == none.(commission := f.commission) && !Less(HUNDRED, f.commission.value))
    && (f.min.None? && f.commission.None? ==> f == none)
    && (f.min.Some? ==> f.commission.None? && f.max.Some? && !Less(f.max.value, f.min.value))
  }

  /** What an accepted text leaves to store. */
  lemma StoredShape(value: Option<string>, india: bool, side: Side)
    requires Stored(value, india, side).Ok?
    ensures StoredForm(Stored(value, india, side).value, india, side)
  {
    hide Prepared, Less, Amount, SecondAmount, Unit, Canonical, Number;
  }

  /** The shown text can be read: the currency is known and the numbers are printed without an exponent. */
  predicate Readable(f: Rate) {
    if f.commission.Some? then Plain(f.commission.value)
    else f.min.Some? ==> f.currency.Some? && Plain(f.min.value) && f.max.Some? && Plain(f.max.value)
  }

  lemma DisplayIgnoresSide(f: Rate)
    requires CanonicalRate(f) && f.commission.None?
    ensures Display(f, Pay) == Display(f, ClientBill)
  {
  }

  /** Saving the text shown for a rate gives the same rate if that text is readable, and is refused if not. */
  lemma ResaveForm(f: Rate, india: bool, side: Side)
    requires StoredForm(f, india, side)
    ensures if Readable(f) then Stored(Some(Display(f, side)), india, side) == Ok(f)
            else Stored(Some(Display(f, side)), india, side).Err?
  {
    hide Plain, Canonical, Less, Print, Trim, ParseRate, Amounts;
    if f.commission.Some? {
      CommissionRead(f.commission.value);
    } else if f.min.None? {
      NothingShown();
    } else if f.currency.None? {
      AmountsAreNumeric(f.min.value, f.max);
      NoCurrencyUnread(Amounts(f.min.value, f.max), f.term);
    } else {
      DisplayIgnoresSide(f);
      AmountsShownRead(f.currency.value, f.min.value, f.max.value, f.term);
    }
  }

  /** Before rounding: the shown text gives the same rate again exactly when it is readable. */
  lemma ResaveExactlyWhen(value: Option<string>, india: bool, side: Side)
    requires Stored(value, india, side).Ok?
    ensures CanonicalRate(Stored(value, india, side).value)
    ensures var f := Stored(value, india, side).value;
      Stored(Some(Display(f, side)), india, side) == Ok(f) <==> Readable(f)
  {
    hide Stored, Readable;
    StoredShape(value, india, side);
    ResaveForm(Stored(value, india, side).value, india, side);
  }

  lemma NothingShown()
    ensures ParseRate(Some("N/A")) == Ok(NO_RATE)
  {
  }

  // ---- What the columns keep ----

  function DigitAt(s: string, i: nat): (d: nat)
    requires AllDigits(s)
    ensures d <= 9
  {
    if i < |s| then s[i] as int - '0' as int else 0
  }

  /** A number in hundredths, rounded half up: what a column with two decimals stores. */
  function Hundredths(d: Decimal): nat
    requires Canonical(d)
  {
    100 * NatOf(d.whole) + Rounded(d.fraction)
  }

  function Rounded(fraction: string): (n: nat)
    requires AllDigits(fraction)
    ensures n <= 100
  {
    (100 * DigitAt(fraction, 0) + 10 * DigitAt(fraction, 1) + DigitAt(fraction, 2) + 5) / 10
  }

  function DigitText(n: nat): string
    requires n <= 9
  {
    [('0' as int + n) as char]
  }

  function Cents(n: nat): string
    requires n < 100
  {
    if n == 0 then "" else DigitText(n / 10) + if n % 10 == 0 then "" else DigitText(n % 10)
  }

  function FromHundredths(n: nat): (d: Decimal)
    ensures Canonical(d)
  {
    NoLeadingZero(n / 100);
    Decimal(NatText(n / 100), Cents(n % 100))
  }

  /** A column of `digits` digits, two of them decimals, refuses what does not fit. */
  function Column(d: Decimal, digits: nat): (r: Option<Decimal>)
    requires Canonical(d)
    ensures r.Some? ==> Canonical(r.value)
  {
    if Hundredths(d) < Pow10(digits) then Some(FromHundredths(Hundredths(d))) else None
  }

  function OptionalColumn(d: Option<Decimal>, digits: nat): (r: Result<Option<Decimal>, Error>)
    requires d.Some? ==> Canonical(d.value)
    ensures r.Ok? && r.value.Some? ==> Canonical(r.value.value)
  {
    if d.None? then Ok(None)
    else
      var c := Column(d.value, digits);
      if c.None? then Err(ColumnOverflow) else Ok(c)
  }

  function InColumns(r: Rate): (stored: Result<Rate, Error>)
    requires CanonicalRate(r)
    ensures stored.Ok? ==> CanonicalRate(stored.value)
  {
    var min, max, commission := OptionalColumn(r.min, 10), OptionalColumn(r.max, 10), OptionalColumn(r.commission, 5);
    if min.Err? || max.Err? || commission.Err? then Err(ColumnOverflow)
    else Ok(r.(min := min.value, max := max.value, commission := commission.value))
  }

  /** What the database holds after a text has been saved. */
  function Persisted(value: Option<string>, india: bool, side: Side): (r: Result<Rate, Error>)
    ensures r.Ok? ==> CanonicalRate(r.value)
  {
    var stored := Stored(value, india, side);
    if stored.Err? then stored
    else
      StoredShape(value, india, side);
      InColumns(stored.value)
  }

  // Rounding is exact on what a column holds, and keeps the order.

  lemma {:induction false} NoLeadingZero(n: nat)
    ensures |NatText(n)| > 1 ==> NatText(n)[0] != '0'
    ensures n > 0 ==> NatText(n)[0] != '0'
  {
    if n >= 10 {
      NoLeadingZero(n / 10);
    }
  }

  lemma RoundedCents(n: nat)
    requires n < 100
    ensures AllDigits(Cents(n)) && Rounded(Cents(n)) == n
  {
  }

  lemma HundredthsOfText(n: nat)
    ensures Hundredths(FromHundredths(n)) == n
  {
    NatOfText(n / 100);
    RoundedCents(n % 100);
    hide NatOf, NatText, Cents, Rounded;
  }

  /** A column value is printed plainly. */
  lemma ColumnIsPlain(d: Decimal, digits: nat)
    requires Canonical(d) && Column(d, digits).Some? && 2 < digits <= 10
    ensures Plain(Column(d, digits).value) && Column(Column(d, digits).value, digits) == Column(d, digits)
  {
    var n := Hundredths(d);
    HundredthsOfText(n);
    hide Hundredths, NatText;
    HundredthsShrink(n, digits);
    TextLength(n / 100, digits - 2);
    CentsHaveFewZeros(n % 100);
  }

  lemma HundredthsShrink(n: nat, digits: nat)
    requires digits >= 2 && n < Pow10(digits)
    ensures n / 100 < Pow10(digits - 2)
  {
    assert Pow10(digits) == 10 * Pow10(digits - 1) && Pow10(digits - 1) == 10 * Pow10(digits - 2);
  }

  lemma CentsHaveFewZeros(n: nat)
    requires n < 100
    ensures LeadingZeros(Cents(n)) <= 5
  {
  }

  lemma {:induction false} NatBounds(s: string)
    requires AllDigits(s)
    ensures NatOf(s) < Pow10(|s|)
    ensures s != "" && s[0] != '0' ==> NatOf(s) >= Pow10(|s| - 1)
  {
    if s != "" {
      NatBounds(s[..|s| - 1]);
    }
  }

  lemma {:induction false} PowersGrow(j: nat, k: nat)
    requires j <= k
    ensures Pow10(j) <= Pow10(k)
  {
    if j < k {
      PowersGrow(j, k - 1);
    }
  }

  /** Texts of one length compare by their fronts, then by their last characters. */
  lemma {:induction false} LexLessByLast(a: string, b: string)
    requires |a| == |b| > 0 && LexLess(a, b)
    ensures var i := |a| - 1; LexLess(a[..i], b[..i]) || (a[..i] == b[..i] && a[i] < b[i])
  {
    if |a| > 1 && a[0] == b[0] {
      var i := |a| - 1;
      LexLessByLast(a[1..], b[1..]);
      assert a[..i][1..] == a[1..][..i - 1] && b[..i][1..] == b[1..][..i - 1];
      assert a[..i] == [a[0]] + a[..i][1..] && b[..i] == [b[0]] + b[..i][1..];
    }
  }

  lemma {:induction false} LexLessIsLess(a: string, b: string)
    requires AllDigits(a) && AllDigits(b) && |a| == |b| && LexLess(a, b)
    ensures NatOf(a) < NatOf(b)
  {
    if a != "" {
      var i := |a| - 1;
      LexLessByLast(a, b);
      if LexLess(a[..i], b[..i]) {
        LexLessIsLess(a[..i], b[..i]);
      }
    }
  }

  lemma WholeIsLess(a: Decimal, b: Decimal)
    requires Canonical(a) && Canonical(b)
    requires |a.whole| < |b.whole| || (|a.whole| == |b.whole| && LexLess(a.whole, b.whole))
    ensures NatOf(a.whole) < NatOf(b.whole)
  {
    if |a.whole| < |b.whole| {
      NatBounds(a.whole);
      NatBounds(b.whole);
      PowersGrow(|a.whole|, |b.whole| - 1);
    } else {
      LexLessIsLess(a.whole, b.whole);
    }
  }

  lemma {:induction false} OneDigitGrows(a: string, b: string)
    requires AllDigits(a) && AllDigits(b) && LexLess(a, b)
    ensures DigitAt(a, 0) <= DigitAt(b, 0)
  {
  }

  lemma {:induction false} TwoDigitsGrow(a: string, b: string)
    requires AllDigits(a) && AllDigits(b) && LexLess(a, b)
    ensures 10 * DigitAt(a, 0) + DigitAt(a, 1) <= 10 * DigitAt(b, 0) + DigitAt(b, 1)
  {
    if a != "" && a[0] == b[0] {
      OneDigitGrows(a[1..], b[1..]);
      assert DigitAt(a[1..], 0) == DigitAt(a, 1) && DigitAt(b[1..], 0) == DigitAt(b, 1);
    }
  }

  /** Only the first three decimals matter, and they compare like the text. */
  lemma {:induction false} FractionsRound(a: string, b: string)
    requires AllDigits(a) && AllDigits(b) && LexLess(a, b)
    ensures Rounded(a) <= Rounded(b)
  {
    if a != "" && a[0] == b[0] {
      TwoDigitsGrow(a[1..], b[1..]);
      assert DigitAt(a[1..], 0) == DigitAt(a, 1) && DigitAt(b[1..], 0) == DigitAt(b, 1);
      assert DigitAt(a[1..], 1) == DigitAt(a, 2) && DigitAt(b[1..], 1) == DigitAt(b, 2);
    }
  }

  /** Rounding keeps the order. */
  lemma RoundingKeepsOrder(a: Decimal, b: Decimal)
    requires Canonical(a) && Canonical(b) && Less(a, b)
    ensures Hundredths(a) <= Hundredths(b)
  {
    hide NatOf, Rounded, LexLess;
    if |a.whole| < |b.whole| || (|a.whole| == |b.whole| && LexLess(a.whole, b.whole)) {
      WholeIsLess(a, b);
    } else {
      FractionsRound(a.fraction, b.fraction);
    }
  }

  lemma {:induction false} LexLessIsTotal(a: string, b: string)
    ensures LexLess(a, b) || LexLess(b, a) || a == b
  {
    if a != "" && b != "" && a[0] == b[0] {
      LexLessIsTotal(a[1..], b[1..]);
      assert a == [a[0]] + a[1..] && b == [b[0]] + b[1..];
    }
  }

  /** Numbers in order stay in order in their columns. */
  lemma ColumnsKeepOrder(a: Decimal, b: Decimal, digits: nat)
    requires Canonical(a) && Canonical(b) && !Less(b, a)
    requires Column(a, digits).Some? && Column(b, digits).Some?
    ensures !Less(Column(b, digits).value, Column(a, digits).value)
  {
    hide Hundredths, FromHundredths, LexLess, Canonical;
    LexLessIsTotal(a.whole, b.whole);
    LexLessIsTotal(a.fraction, b.fraction);
    if a != b {
      RoundingKeepsOrder(a, b);
    }
    var m, n := FromHundredths(Hundredths(a)), FromHundredths(Hundredths(b));
    HundredthsOfText(Hundredths(a));
    HundredthsOfText(Hundredths(b));
    if Less(n, m) {
      RoundingKeepsOrder(n, m);
      LessIsStrict(m);
    }
  }

  lemma OneAndZeros()
    ensures NatOf("1") == 1 && NatOf("10") == 10 && NatOf("100") == 100
    ensures NatText(1) == "1" && NatText(10) == "10" && NatText(100) == "100"
  {
    assert "100"[..2] == "10" && "10"[..1] == "1" && "1"[..0] == "";
    assert NatOf("") == 0;
    assert NatText(10) == NatText(1) + "0";
    assert NatText(100) == NatText(10) + "0";
  }

  lemma HundredIsExact()
    ensures Canonical(HUNDRED) && Column(HUNDRED, 5) == Some(HUNDRED)
  {
    OneAndZeros();
    hide NatOf, NatText;
    NoCents();
    assert Hundredths(HUNDRED) == 10000;
    assert Pow10(5) == 10 * Pow10(4) == 100 * Pow10(3) == 1000 * Pow10(2);
  }

  lemma CommissionColumn(c: Decimal)
    requires Canonical(c) && !Less(HUNDRED, c)
    ensures Column(c, 5).Some? && !Less(HUNDRED, Column(c, 5).value)
  {
    HundredIsExact();
    hide Hundredths, FromHundredths, LexLess, Canonical, Pow10;
    LexLessIsTotal(c.whole, HUNDRED.whole);
    LexLessIsTotal(c.fraction, HUNDRED.fraction);
    if c != HUNDRED {
      RoundingKeepsOrder(c, HUNDRED);
    }
    ColumnsKeepOrder(c, HUNDRED, 5);
  }

  // ---- Saving what the database holds ----

  lemma ColumnsKeepForm(f: Rate, india: bool, side: Side)
    requires StoredForm(f, india, side) && InColumns(f).Ok?
    ensures var g := InColumns(f).value;
      StoredForm(g, india, side) && InColumns(g) == Ok(g) && (Readable(g) <==> g.min.None? || g.currency.Some?)
  {
    hide Column, Less, Plain, Canonical;
    if f.commission.Some? {
      CommissionColumn(f.commission.value);
      ColumnIsPlain(f.commission.value, 5);
    } else if f.min.Some? {
      ColumnsKeepOrder(f.min.value, f.max.value, 10);
      ColumnIsPlain(f.min.value, 10);
      ColumnIsPlain(f.max.value, 10);
    }
  }

  /**
   Saving the text shown for what the database holds leaves it as it is exactly when there is no amount
   or its currency is known; otherwise the text is refused. In India the currency is always known.
  */
  lemma PersistedResavesExactlyWhen(value: Option<string>, india: bool, side: Side)
    requires Persisted(value, india, side).Ok?
    ensures var f := Persisted(value, india, side).value;
      && (Persisted(Some(Display(f, side)), india, side) == Ok(f) <==> f.min.None? || f.currency.Some?)
      && (Persisted(Some(Display(f, side)), india, side).Ok? <==> f.min.None? || f.currency.Some?)
      && (india ==> f.currency.Some?)
  {
    hide Stored, InColumns, Readable, Display;
    StoredShape(value, india, side);
    ColumnsKeepForm(Stored(value, india, side).value, india, side);
    ResaveForm(Persisted(value, india, side).value, india, side);
  }

  const FIVE := Decimal("5", "")

  lemma FiveIsExact()
    ensures Canonical(FIVE) && Column(FIVE, 10) == Some(FIVE) && Print(FIVE) == "5"
  {
    hide NatOf, NatText, Pow10, Rounded, Cents, LeadingZeros;
    FiveAsNumber();
    NoCents();
    FiveFits();
    assert Hundredths(FIVE) == 500;
  }

  lemma FiveAsNumber()
    ensures NatOf("5") == 5 && NatText(5) == "5"
  {
    assert "5"[..0] == "" && NatOf("") == 0;
  }

  lemma NoCents()
    ensures Rounded("") == 0 && Cents(0) == ""
  {
  }

  lemma FiveFits()
    ensures Pow10(10) > 500
  {
    PowersGrow(3, 10);
    assert Pow10(3) == 10 * Pow10(2) == 100 * Pow10(1) == 1000 * Pow10(0);
  }

  /** A bare amount has neither a currency nor a unit. */
  lemma BareAmountRead(d: Decimal, text: string)
    requires Canonical(d) && Plain(d) && text == Print(d) && CurrencyPrefix(text).None?
    ensures ParseCommission(text).None? && ParseAmounts(text) == Ok(Rate(Some(d), Some(d), None, None, None))
  {
    UnitOf(None);
    AmountOf(d, "");
    PlainNumber(d, "");
    LessIsStrict(d);
    hide Print, Canonical, Plain, Less, Unit, SecondAmount, CurrencyPrefix, Amount, Number;
    assert Print(d) + "" == Print(d);
  }

  lemma FiveIsPrepared()
    ensures Prepared("5") == "5" && CurrencyPrefix("5").None?
  {
    hide RemoveCommas, Trim;
    assert Lower("5") == "5";
    PreparedOf("5");
  }

  lemma FiveIsRead()
    ensures ParseRate(Some("5")) == Ok(Rate(Some(FIVE), Some(FIVE), None, None, None))
  {
    hide Prepared, ParseCommission, ParseAmounts, Print, Column, CurrencyPrefix;
    FiveIsExact();
    FiveIsPrepared();
    BareAmountRead(FIVE, "5");
  }

  lemma FiveIsPersisted()
    ensures Persisted(Some("5"), false, Pay) == Ok(Rate(Some(FIVE), Some(FIVE), None, None, None))
  {
    hide ParseRate, Column, Canonical;
    FiveIsExact();
    FiveIsRead();
  }

  lemma FiveIsDisplayed()
    ensures var r := Rate(Some(FIVE), Some(FIVE), None, None, None); CanonicalRate(r) && Display(r, Pay) == "- 5"
  {
    hide Canonical, Print, Trim, Suffix, CurrencyText, Column;
    FiveIsExact();
    FiveIsShown();
    assert "5" + "" == "5";
  }

  /** The failing case: "5" is stored without a currency, shown as "- 5", and refused when saved as shown. */
  lemma FiveIsNotReadBack()
    ensures Persisted(Some("5"), false, Pay) == Ok(Rate(Some(FIVE), Some(FIVE), None, None, None))
    ensures Display(Persisted(Some("5"), false, Pay).value, Pay) == "- 5"
    ensures Persisted(Some("- 5"), false, Pay).Err?
  {
    FiveIsPersisted();
    hide Persisted, Display;
    FiveIsDisplayed();
    PersistedResavesExactlyWhen(Some("5"), false, Pay);
  }

  lemma FiveIsShown()
    ensures Trim(CurrencyText(None) + " - " + "5" + " " + Suffix(None)) == "- 5"
  {
    WithoutCurrencyTrimmed("5", None);
  }

  // ---- Every accepted form of an amount ----

  /** The words for a unit of time. */
  predicate NamesTerm(word: string, t: Option<Term>) {
    match t
    case None => word == ""
    case Some(LPA) => word == "lpa"
    case Some(Monthly) => word == "/mo" || word == "monthly"
    case Some(Hourly) => word == "/hr" || word == "hourly"
    case Some(Yearly) => word == "/yr" || word == "yearly"
  }

  predicate StartsDark(s: string) {
    s != "" && !IsSpace(s[0])
  }

  lemma {:induction false} TrimLeftOf(gap: string, s: string)
    requires AllSpace(gap) && (s == "" || StartsDark(s))
    ensures TrimLeft(gap + s) == s
  {
    TrimLeftOfPadded(gap, s);
  }

  lemma WordsAreDark(word: string, t: Option<Term>)
    requires NamesTerm(word, t) && t.Some?
    ensures StartsDark(word) && !IsDigit(word[0]) && word[0] != '.' && !("to" <= word)
  {
    if word == "lpa" {
      assert word[0] == 'l';
    } else if word == "monthly" {
      assert word[0] == 'm';
    } else if word == "hourly" {
      assert word[0] == 'h';
    } else if word == "yearly" {
      assert word[0] == 'y';
    } else {
      assert word[0] == '/';
    }
  }

  /** After a number there may be a unit, with or without white space before it, and nothing else. */
  lemma UnitExactly(gap: string, word: string, t: Option<Term>)
    requires AllSpace(gap) && (if word == "" then gap == "" else StartsDark(word))
    ensures Unit(gap + word) == Some(t) <==> NamesTerm(word, t)
  {
    if word != "" {
      TrimLeftOf(gap, word);
    }
    hide TrimLeft, IsSpace;
  }

  lemma UnitEndsNumber(gap: string, word: string, t: Option<Term>)
    requires AllSpace(gap) && NamesTerm(word, t) && (t.None? ==> gap == "")
    ensures EndsNumber(gap + word) && SecondAmount(gap + word).None?
  {
    if t.Some? {
      WordsAreDark(word, t);
      TrimLeftOf(gap, word);
    }
    hide TrimLeft, NamesTerm, Amount;
  }

  function DollarText(dollar: bool): string {
    if dollar then "$" else ""
  }

  function FractionText(fraction: string): string {
    if fraction == "" then "" else "." + fraction
  }

  /** The text of an amount, as a person may write it. */
  function Entered(dollar: bool, whole: string, fraction: string): string {
    DollarText(dollar) + (whole + FractionText(fraction))
  }

  predicate IsNumber(whole: string, fraction: string) {
    whole != "" && AllDigits(whole) && AllDigits(fraction)
  }

  lemma EnteredRead(dollar: bool, whole: string, fraction: string, rest: string)
    requires IsNumber(whole, fraction) && EndsNumber(rest)
    ensures Amount(Entered(dollar, whole, fraction) + rest) == Some((dollar, ToDecimal(whole, fraction), rest))
  {
    NumberOf(whole, fraction, rest);
    hide Number, ToDecimal, AllDigits, EndsNumber;
    var number := whole + FractionText(fraction) + rest;
    hide FractionText;
    EnteredShape(dollar, whole, fraction, rest);
    assert number[0] == whole[0];
    DigitIsNoDollar(whole);
  }

  lemma EnteredShape(dollar: bool, whole: string, fraction: string, rest: string)
    ensures var number := whole + FractionText(fraction) + rest;
      && Entered(dollar, whole, fraction) + rest == (if dollar then "$" + number else number)
      && ("$" + number)[1..] == number && Dollar("$" + number)
  {
    hide FractionText;
    var number := whole + FractionText(fraction) + rest;
    if dollar {
      assert "$" + (whole + FractionText(fraction)) + rest == "$" + number;
    } else {
      assert "" + (whole + FractionText(fraction)) + rest == number;
    }
  }

  lemma DigitIsNoDollar(whole: string)
    requires AllDigits(whole) && whole != ""
    ensures whole[0] != '$'
  {
  }

  lemma EnteredIsDark(dollar: bool, whole: string, fraction: string, rest: string)
    requires IsNumber(whole, fraction)
    ensures StartsDark(Entered(dollar, whole, fraction) + rest)
    ensures CurrencyPrefix(Entered(dollar, whole, fraction) + rest).None?
  {
    var text := Entered(dollar, whole, fraction) + rest;
    assert text[0] == if dollar then '$' else whole[0];
  }

  /** The currency words. */
  predicate NamesCurrency(word: string, c: Option<Currency>) {
    match c case None => word == "" case Some(INR) => word == "inr" case Some(USD) => word == "usd"
  }

  lemma CurrencyWord(word: string, c: Currency, rest: string)
    requires NamesCurrency(word, Some(c))
    ensures |word| == 3 && CurrencyPrefix(word + rest) == Some(c) && (word + rest)[3..] == rest
  {
    if c == USD {
      assert (word + rest)[0] == 'u';
    }
  }

  lemma CurrencyRead(word: string, c: Option<Currency>, gap: string, s: string)
    requires NamesCurrency(word, c) && AllSpace(gap) && (c.None? ==> gap == "")
    requires StartsDark(s) && CurrencyPrefix(s).None?
    ensures CurrencyPrefix(word + (gap + s)) == c && AfterCurrency(word + (gap + s)) == s
  {
    TrimLeftOf(gap, s);
    hide TrimLeft, IsSpace, CurrencyPrefix;
    match c
    case Some(currency) =>
      hide NamesCurrency;
      CurrencyWord(word, currency, gap + s);
    case None =>
      assert word + (gap + s) == s;
  }

  /** One amount: a currency word or a dollar sign gives the currency, a dollar sign wins; a unit may follow. */
  lemma OneAmountAccepted(word: string, c: Option<Currency>, gap: string, dollar: bool, whole: string, fraction: string,
      space: string, unit: string, t: Option<Term>)
    requires NamesCurrency(word, c) && AllSpace(gap) && (c.None? ==> gap == "") && IsNumber(whole, fraction)
    requires NamesTerm(unit, t) && AllSpace(space) && (t.None? ==> space == "")
    ensures var d := ToDecimal(whole, fraction);
      ParseAmounts(word + (gap + (Entered(dollar, whole, fraction) + (space + unit))))
        == Ok(Rate(Some(d), Some(d), if dollar then Some(USD) else c, t, None))
  {
    hide NamesCurrency, Entered, ToDecimal, Amount, SecondAmount, Unit, Less, CurrencyPrefix, AfterCurrency, TrimLeft;
    var rest := space + unit;
    UnitEndsNumber(space, unit, t);
    if t.Some? {
      WordsAreDark(unit, t);
    }
    UnitExactly(space, unit, t);
    EnteredRead(dollar, whole, fraction, rest);
    EnteredIsDark(dollar, whole, fraction, rest);
    CurrencyRead(word, c, gap, Entered(dollar, whole, fraction) + rest);
    LessIsStrict(ToDecimal(whole, fraction));
  }

  lemma SecondRead(before: string, after: string, s: string)
    requires AllSpace(before) && before != "" && AllSpace(after) && after != "" && StartsDark(s)
    ensures SecondAmount(before + ("to" + (after + s))) == Amount(s) && EndsNumber(before + ("to" + (after + s)))
  {
    var tail := "to" + (after + s);
    TrimLeftOf(before, tail);
    TrimLeftOf(after, s);
    assert tail[2..] == after + s;
    assert before + tail != tail && after + s != s;
    assert (before + tail)[0] == before[0];
    hide TrimLeft, Amount;
  }

  /** Two amounts with `to` between them: the second must not be smaller, and a dollar sign on either counts. */
  lemma TwoAmountsAccepted(word: string, c: Option<Currency>, gap: string, d1: bool, w1: string, f1: string,
      before: string, after: string, d2: bool, w2: string, f2: string, space: string, unit: string, t: Option<Term>)
    requires NamesCurrency(word, c) && AllSpace(gap) && (c.None? ==> gap == "") && IsNumber(w1, f1) && IsNumber(w2, f2)
    requires AllSpace(before) && before != "" && AllSpace(after) && after != ""
    requires NamesTerm(unit, t) && AllSpace(space) && (t.None? ==> space == "")
    ensures var min, max := ToDecimal(w1, f1), ToDecimal(w2, f2);
      ParseAmounts(word + (gap + (Entered(d1, w1, f1)
          + (before + ("to" + (after + (Entered(d2, w2, f2) + (space + unit))))))))
        == if Less(max, min) then Err(MaximumBelowMinimum)
           else Ok(Rate(Some(min), Some(max), if d1 || d2 then Some(USD) else c, t, None))
  {
    hide NamesCurrency, Entered, ToDecimal, Amount, SecondAmount, Unit, Less, CurrencyPrefix, AfterCurrency, TrimLeft;
    var rest := space + unit;
    UnitEndsNumber(space, unit, t);
    if t.Some? {
      WordsAreDark(unit, t);
    }
    UnitExactly(space, unit, t);
    EnteredRead(d2, w2, f2, rest);
    EnteredIsDark(d2, w2, f2, rest);
    var second := Entered(d2, w2, f2) + rest;
    SecondRead(before, after, second);
    var tail := before + ("to" + (after + second));
    EnteredRead(d1, w1, f1, tail);
    EnteredIsDark(d1, w1, f1, tail);
    CurrencyRead(word, c, gap, Entered(d1, w1, f1) + tail);
  }

  // ---- What else a text may hold ----

  /** A dot that no digit follows is not part of the number, and without a digit in front there is no number. */
  lemma NumberEndsAtDot(whole: string, rest: string)
    requires AllDigits(whole) && whole != "" && (rest != "" ==> !IsDigit(rest[0]))
    ensures Number(whole + ("." + rest)) == Some((ToDecimal(whole, ""), "." + rest))
    ensures Number(rest).None?
  {
    hide ToDecimal, DigitRun;
    var s := whole + ("." + rest);
    DigitRunOf(whole, "." + rest);
    DigitRunOf("", rest);
    assert "" + rest == rest;
    assert s[..|whole|] == whole && s[|whole|..] == "." + rest && s[|whole| + 1..] == rest;
  }

  lemma RemoveCommasFirst(ch: char, s: string)
    ensures RemoveCommas([ch] + s) == (if ch == ',' then "" else [ch]) + RemoveCommas(s)
  {
    assert ([ch] + s)[1..] == s;
  }

  lemma {:induction false} CommaGone(a: string, b: string)
    ensures RemoveCommas(a + ("," + b)) == RemoveCommas(a + b)
  {
    hide RemoveCommas;
    if a == "" {
      RemoveCommasFirst(',', b);
      assert a + b == b && a + ("," + b) == [','] + b && "" + RemoveCommas(b) == RemoveCommas(b);
    } else {
      CommaGone(a[1..], b);
      RemoveCommasFirst(a[0], a[1..] + b);
      RemoveCommasFirst(a[0], a[1..] + ("," + b));
      assert a + b == [a[0]] + (a[1..] + b) && a + ("," + b) == [a[0]] + (a[1..] + ("," + b));
    }
  }

  lemma SamePrepared(a: string, b: string)
    requires RemoveCommas(a) == RemoveCommas(b)
    ensures Prepared(a) == Prepared(b)
  {
    hide RemoveCommas, Trim, Lower, DropDash;
  }

  /** Commas do not count, wherever they are. */
  lemma CommasDoNotCount(a: string, b: string)
    requires a + b !in {"", "N/A"}
    ensures ParseRate(Some(a + ("," + b))) == ParseRate(Some(a + b))
  {
    CommaGone(a, b);
    SamePrepared(a + ("," + b), a + b);
    assert (a + ("," + b))[|a|] == ',';
    hide Prepared, RemoveCommas, ParseCommission, ParseAmounts;
  }

  /** A rate without amounts and without a commission comes of nothing entered, or "N/A", and of nothing else. */
  lemma NoRateExactly(value: Option<string>)
    ensures ParseRate(value) == Ok(Rate(None, None, None, None, None)) <==> value in {None, Some(""), Some("N/A")}
  {
    hide Prepared, ParseCommission, Amount, SecondAmount, Unit, Less;
  }

  /** The rate given for one side is accepted. */
  predicate Acceptable(f: Field<string>, india: bool) {
    f.Given? ==> ParseRate(f.value).Ok? && !(india && ParseRate(f.value).value.currency == Some(USD))
  }

  /** What is written for one side: the parsed rate, in rupees in India, without a commission unless it may have one. */
  predicate Written(r: Option<Rate>, f: Field<string>, india: bool, mayHaveCommission: bool)
    requires Acceptable(f, india)
  {
    match f
    case Absent => r == None
    case Given(text) =>
      var parsed := ParseRate(text).value;
      r == Some(Rate(parsed.min, parsed.max, if india then Some(INR) else parsed.currency, parsed.term,
                     if mayHaveCommission then parsed.commission else None))
  }

  /** A request is accepted exactly when both sides are; the first one that is not decides the error. */
  lemma FieldsExactly(bill: Field<string>, pay: Field<string>, india: bool)
    ensures Expected(bill, india, ClientBill).Ok? <==> Acceptable(bill, india)
    ensures Expected(pay, india, Pay).Ok? <==> Acceptable(pay, india)
    ensures Acceptable(bill, india) ==> Written(Expected(bill, india, ClientBill).value, bill, india, true)
    ensures Acceptable(pay, india) ==> Written(Expected(pay, india, Pay).value, pay, india, false)
    ensures forall side, f :: !Acceptable(f, india) ==>
      Expected(f, india, side) == Err(if ParseRate(f.value).Err? then ParseRate(f.value).error else MustUseInr)
  {
    hide ParseRate;
  }

  /** A column keeps the nearest hundredth, and of two the larger one; only the first three decimals decide. */
  lemma RoundsHalfUp(d: Decimal)
    requires Canonical(d)
    ensures var thousandths := 1000 * NatOf(d.whole) + 100 * DigitAt(d.fraction, 0) + 10 * DigitAt(d.fraction, 1)
        + DigitAt(d.fraction, 2);
      10 * Hundredths(d) - 5 <= thousandths < 10 * Hundredths(d) + 5
  {
    hide NatOf;
  }
}
