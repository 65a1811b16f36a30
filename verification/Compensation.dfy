/**
 Compensation amounts: entered with at most two decimals, in a unit that may stand for 100000 of the
 stored one, computed in whole cents and stored with exactly two decimals.
*/
module Compensation {
  import opened Digits
  import opened Prelude

  datatype Unit = LPA | MONTH | YEAR | OtherUnit(name: string)

  datatype Error = UnitRequired | UnitMismatch | InvalidCurrency | InvalidAmount | OutOfRange

  const MAX_CENTS := 999999999999

  /** An entered amount: digits, with one or two decimals or none. */
  predicate WellFormed(text: string) {
    var n := DigitRun(text);
    n > 0 && (n == |text| || (text[n] == '.' && 2 <= |text| - n <= 3 && AllDigits(text[n + 1..])))
  }

  /** The decimals of an amount, filled up to two. */
  function Decimals(text: string): (d: string)
    requires WellFormed(text)
    ensures AllDigits(d) && |d| == 2
  {
    var n := DigitRun(text);
    var fraction := if n == |text| then "" else text[n + 1..];
    if fraction == "" then "00" else if |fraction| == 1 then fraction + "0" else fraction
  }

  /** The amount in cents: all its digits read as one number. */
  function Hundredths(text: string): nat
    requires WellFormed(text)
  {
    NatOf(text[..DigitRun(text)] + Decimals(text))
  }

  function Multiplier(unit: Unit): nat {
    if unit == LPA then 100000 else 1
  }

  /** The two decimals written for an amount. */
  function LowText(cents: nat): string {
    var fraction := NatText(cents % 100);
    if |fraction| < 2 then "0" + fraction else fraction
  }

  function CentsText(cents: nat): string {
    NatText(cents / 100) + "." + LowText(cents)
  }

  /** The service's computation: the whole part times 100 plus the decimals, times the unit. */
  function Cents(text: string, unit: Unit): nat
    requires WellFormed(text)
  {
    (NatOf(text[..DigitRun(text)]) * 100 + NatOf(Decimals(text))) * Multiplier(unit)
  }

  function Normalize(value: Option<string>, unit: Unit, optional: bool, positive: bool): Result<Option<string>, Error> {
    if (value.None? || value.value == "") && optional then Ok(None)
    else
      var text := if value.Some? then value.value else "";
      if !WellFormed(text) then Err(InvalidAmount)
      else if Cents(text, unit) > MAX_CENTS || (positive && Cents(text, unit) <= 0) then Err(OutOfRange)
      else Ok(Some(CentsText(Cents(text, unit))))
  }

  // ---- The computation is exact ----

  lemma CentsAreHundredths(text: string)
    requires WellFormed(text)
    ensures Cents(text, YEAR) == Hundredths(text)
  {
    assert NatOf([]) == 0;
    hide WellFormed, Decimals, DigitRun, NatOf;
    var whole, d := text[..DigitRun(text)], Decimals(text);
    assert d == [] + [d[0]] + [d[1]] && whole + d == whole + [d[0]] + [d[1]];
    NatOfMore(whole, d[0]);
    NatOfMore(whole + [d[0]], d[1]);
    NatOfMore([], d[0]);
    NatOfMore([] + [d[0]], d[1]);
  }

  lemma {:induction false} SmallText(n: nat)
    requires n < 100
    ensures var s := NatText(n);
      if n < 10 then s == [('0' as int + n) as char]
      else s == [('0' as int + n / 10) as char, ('0' as int + n % 10) as char]
  {
    if n >= 10 {
      assert NatText(n / 10) == [('0' as int + n / 10) as char];
    }
  }

  lemma LowTextDigits(cents: nat)
    ensures var d := LowText(cents);
      |d| == 2 && AllDigits(d) && 10 * (d[0] as int - '0' as int) + (d[1] as int - '0' as int) == cents % 100
  {
    SmallText(cents % 100);
  }

  lemma SplitText(whole: string, d: string)
    requires AllDigits(whole) && whole != "" && AllDigits(d) && |d| == 2
    ensures var text := whole + ("." + d);
      WellFormed(text) && text[..DigitRun(text)] == whole && Decimals(text) == d
  {
    var text := whole + ("." + d);
    DigitRunOf(whole, "." + d);
    assert text[..|whole|] == whole && text[|whole| + 1..] == d;
  }

  /** An entered amount: a whole part, and up to two decimals after a point. */
  predicate IsAmount(text: string, whole: string, fraction: string) {
    && whole != "" && AllDigits(whole) && AllDigits(fraction) && |fraction| <= 2
    && text == if fraction == "" then whole else whole + ("." + fraction)
  }

  lemma {:induction false} AmountParts(text: string, whole: string, fraction: string)
    requires IsAmount(text, whole, fraction)
    ensures WellFormed(text) && text[..DigitRun(text)] == whole
    ensures Decimals(text) == if fraction == "" then "00" else if |fraction| == 1 then fraction + "0" else fraction
  {
    if fraction == "" {
      DigitRunOf(whole, "");
      assert whole + "" == whole;
    } else {
      DigitRunOf(whole, "." + fraction);
      assert text[..|whole|] == whole && text[|whole| + 1..] == fraction;
    }
  }

  /** Well-formed amounts are those, and no others. */
  lemma WellFormedExactly(text: string)
    ensures WellFormed(text) <==> exists whole, fraction :: IsAmount(text, whole, fraction)
  {
    if WellFormed(text) {
      var n := DigitRun(text);
      if n == |text| {
        assert IsAmount(text, text[..n], "");
      } else {
        assert text == text[..n] + ("." + text[n + 1..]);
        assert IsAmount(text, text[..n], text[n + 1..]);
      }
    }
    forall whole, fraction | IsAmount(text, whole, fraction)
      ensures WellFormed(text)
    {
      AmountParts(text, whole, fraction);
    }
  }

  lemma FilledReads(fraction: string)
    requires AllDigits(fraction) && |fraction| <= 2
    ensures var d := if fraction == "" then "00" else if |fraction| == 1 then fraction + "0" else fraction;
      NatOf(d) == if |fraction| == 1 then 10 * NatOf(fraction) else NatOf(fraction)
  {
    if fraction == "" {
      NatOfMore("", '0');
      NatOfMore("0", '0');
      assert "" + ['0'] == "0" && "0" + ['0'] == "00";
    } else if |fraction| == 1 {
      NatOfMore(fraction, '0');
      assert fraction + ['0'] == fraction + "0";
    }
    hide NatOf;
  }

  lemma AmountNumbers(text: string, whole: string, fraction: string)
    requires IsAmount(text, whole, fraction)
    ensures WellFormed(text) && text[..DigitRun(text)] == whole
    ensures NatOf(Decimals(text)) == if |fraction| == 1 then 10 * NatOf(fraction) else NatOf(fraction)
  {
    AmountParts(text, whole, fraction);
    FilledReads(fraction);
    hide WellFormed, Decimals, DigitRun, NatOf, AllDigits;
  }

  /** One decimal counts tens of cents, two count cents, and a lakh stands for 100000 of the stored unit. */
  lemma AmountRead(text: string, whole: string, fraction: string, unit: Unit)
    requires IsAmount(text, whole, fraction)
    ensures WellFormed(text)
    ensures var low := if |fraction| == 1 then 10 * NatOf(fraction) else NatOf(fraction);
      var cents := 100 * NatOf(whole) + low;
      Cents(text, unit) == if unit == LPA then 100_000 * cents else cents
  {
    hide WellFormed, Decimals, DigitRun, NatOf, IsAmount;
    AmountNumbers(text, whole, fraction);
    var cents := 100 * NatOf(whole) + NatOf(Decimals(text));
    assert Cents(text, unit) == cents * Multiplier(unit);
  }

  /** Stored text is well formed, and reads as the cents it was written for. */
  lemma CentsTextReads(cents: nat)
    ensures WellFormed(CentsText(cents)) && Hundredths(CentsText(cents)) == cents
  {
    hide WellFormed, Decimals, NatText, NatOf, DigitRun;
    var whole, d := NatText(cents / 100), LowText(cents);
    LowTextDigits(cents);
    SplitText(whole, d);
    assert CentsText(cents) == whole + ("." + d);
    assert whole + d == whole + [d[0]] + [d[1]];
    NatOfMore(whole, d[0]);
    NatOfMore(whole + [d[0]], d[1]);
    NatOfText(cents / 100);
  }

  lemma CentsOfUnit(text: string, unit: Unit)
    requires WellFormed(text)
    ensures Cents(text, unit) == Hundredths(text) * Multiplier(unit)
  {
    CentsAreHundredths(text);
  }

  /** The stored amount is exactly the entered one times what its unit stands for. */
  lemma NormalizeIsExact(value: Option<string>, unit: Unit, optional: bool, positive: bool)
    requires Normalize(value, unit, optional, positive).Ok? && Normalize(value, unit, optional, positive).value.Some?
    ensures var stored := Normalize(value, unit, optional, positive).value.value;
      && value.Some? && WellFormed(value.value) && WellFormed(stored)
      && Hundredths(stored) == Hundredths(value.value) * (if unit == LPA then 100_000 else 1)
      && Hundredths(stored) <= 999_999_999_999
      && (positive ==> Hundredths(stored) > 0)
  {
    EmptyIsNotWellFormed();
    hide WellFormed, CentsText, Cents, Hundredths;
    CentsOfUnit(value.value, unit);
    CentsTextReads(Cents(value.value, unit));
  }

  /** An amount is accepted exactly when it may be left out and is, or is well formed and in range. */
  lemma AcceptedExactlyWhen(value: Option<string>, unit: Unit, optional: bool, positive: bool)
    ensures Normalize(value, unit, optional, positive).Ok? <==>
      (value in {None, Some("")} && optional)
      || (value.Some? && WellFormed(value.value)
          && var cents := Hundredths(value.value) * (if unit == LPA then 100_000 else 1);
             (positive ==> cents > 0) && cents <= 999_999_999_999)
  {
    EmptyIsNotWellFormed();
    hide WellFormed, Cents, Hundredths, CentsText;
    if value.Some? && WellFormed(value.value) {
      CentsOfUnit(value.value, unit);
    }
  }

  /** A stored amount fits a column of twelve digits, two of them decimals. */
  lemma StoredFits(value: Option<string>, unit: Unit, optional: bool, positive: bool)
    requires Normalize(value, unit, optional, positive).Ok? && Normalize(value, unit, optional, positive).value.Some?
    ensures |Normalize(value, unit, optional, positive).value.value| <= 13
  {
    EmptyIsNotWellFormed();
    hide WellFormed, Cents;
    var cents := Cents(value.value, unit);
    SmallText(cents % 100);
    assert Pow10(10) == 10000000000 by {
      assert Pow10(5) == 100000;
    }
    TextLength(cents / 100, 10);
  }

  // ---- Sending stored amounts back ----

  datatype Entry = Entry(current: Field<string>, expected: Field<string>, currency: Field<string>, unit: Field<Unit>)

  datatype Saved = Saved(current: Option<string>, expected: Option<string>, currency: string, period: Unit, unit: Unit)

  const CURRENCIES := ["INR", "USD", "CAD", "GBP", "EUR"]

  function ValueOf<T>(f: Field<T>): Option<T> {
    if f.Given? then f.value else None
  }

  predicate UnitFits(unit: Option<Unit>, contract: bool) {
    if contract then unit == Some(MONTH) else unit in {Some(LPA), Some(YEAR)}
  }

  predicate CurrencyFits(currency: Option<string>, unit: Option<Unit>) {
    currency.Some? && currency.value in CURRENCIES && (unit == Some(LPA) ==> currency.value == "INR")
  }

  /** A request's compensation; one that has none of it stores nothing. */
  function SubmissionCompensation(dto: Entry, contract: bool): Result<Option<Saved>, Error> {
    var unit, currency := ValueOf(dto.unit), ValueOf(dto.currency);
    if dto.unit.Absent? then
      if dto.current.Given? || dto.expected.Given? || dto.currency.Given? then Err(UnitRequired) else Ok(None)
    else if !UnitFits(unit, contract) then Err(UnitMismatch)
    else if !CurrencyFits(currency, unit) then Err(InvalidCurrency)
    else
      var current := Normalize(ValueOf(dto.current), unit.value, contract, false);
      if current.Err? then Err(current.error)
      else
        var expected := Normalize(ValueOf(dto.expected), unit.value, false, true);
        if expected.Err? then Err(expected.error)
        else
          Ok(Some(Saved(current.value, expected.value, currency.value, if contract then MONTH else YEAR, unit.value)))
  }

  /** A stored amount stays as it is. */
  lemma NormalizeStored(cents: nat, unit: Unit, optional: bool, positive: bool)
    requires cents <= MAX_CENTS && (positive ==> cents > 0) && unit != LPA
    ensures Normalize(Some(CentsText(cents)), unit, optional, positive) == Ok(Some(CentsText(cents)))
  {
    EmptyIsNotWellFormed();
    hide WellFormed, CentsText, Cents, Hundredths;
    CentsTextReads(cents);
    CentsOfUnit(CentsText(cents), unit);
  }

  lemma EmptyIsNotWellFormed()
    ensures !WellFormed("")
  {
  }

  lemma NormalizeAgain(value: Option<string>, unit: Unit, optional: bool, positive: bool, again: Unit)
    requires Normalize(value, unit, optional, positive).Ok? && again != LPA
    ensures Normalize(Normalize(value, unit, optional, positive).value, again, optional, positive)
      == Normalize(value, unit, optional, positive)
  {
    EmptyIsNotWellFormed();
    hide WellFormed, CentsText, Cents;
    if Normalize(value, unit, optional, positive).value.Some? {
      NormalizeStored(Cents(value.value, unit), again, optional, positive);
    }
  }

  /** Sending the stored amounts back in their stored period stores the same amounts again. */
  lemma ResubmitIsFixedPoint(dto: Entry, contract: bool)
    requires SubmissionCompensation(dto, contract).Ok? && SubmissionCompensation(dto, contract).value.Some?
    ensures var s := SubmissionCompensation(dto, contract).value.value;
      var again := Entry(Given(s.current), Given(s.expected), Given(Some(s.currency)), Given(Some(s.period)));
      SubmissionCompensation(again, contract) == Ok(Some(s.(unit := s.period)))
  {
    hide Normalize;
    var s := SubmissionCompensation(dto, contract).value.value;
    NormalizeAgain(ValueOf(dto.current), s.unit, contract, false, s.period);
    NormalizeAgain(ValueOf(dto.expected), s.unit, false, true, s.period);
  }

  /** A request may leave compensation out altogether, but not give parts of it without the unit. */
  lemma NothingStoredExactly(dto: Entry, contract: bool)
    ensures SubmissionCompensation(dto, contract) == Ok(None)
       <==> dto.unit == Absent && dto.current == Absent && dto.expected == Absent && dto.currency == Absent
    ensures SubmissionCompensation(dto, contract) == Err(UnitRequired)
       <==> dto.unit == Absent && !(dto.current == Absent && dto.expected == Absent && dto.currency == Absent)
  {
    hide Normalize;
    if dto.unit.Given? {
      NormalizeErrors(ValueOf(dto.current), ValueOf(dto.unit), contract, false);
      NormalizeErrors(ValueOf(dto.expected), ValueOf(dto.unit), false, true);
    }
  }

  lemma NormalizeErrors(value: Option<string>, unit: Option<Unit>, optional: bool, positive: bool)
    ensures unit.Some? && Normalize(value, unit.value, optional, positive).Err? ==>
      Normalize(value, unit.value, optional, positive).error in {InvalidAmount, OutOfRange}
  {
    hide WellFormed, Cents, CentsText;
  }

  /** A contract is paid by the month, any other job by the year or in lakhs; lakhs are rupees. */
  lemma StoredExactly(dto: Entry, contract: bool, unit: Unit, currency: string, now: Option<string>,
      wish: Option<string>)
    requires dto.unit == Given(Some(unit)) && dto.currency == Given(Some(currency))
    requires dto.current == Given(now) || (dto.current == Absent && now == None)
    requires dto.expected == Given(wish) || (dto.expected == Absent && wish == None)
    ensures var r := SubmissionCompensation(dto, contract);
      var current, expected := Normalize(now, unit, contract, false), Normalize(wish, unit, false, true);
      && (r.Ok? <==>
            && unit in (if contract then {MONTH} else {YEAR, LPA})
            && currency in {"INR", "USD", "CAD", "GBP", "EUR"} && (unit == LPA ==> currency == "INR")
            && current.Ok? && expected.Ok?)
      && (r.Ok? ==>
            r.value == Some(Saved(current.value, expected.value, currency, if contract then MONTH else YEAR, unit)))
  {
    hide Normalize;
  }

  /** Without a unit or a currency nothing but nothing is stored. */
  lemma UnitAndCurrencyNeeded(dto: Entry, contract: bool)
    requires SubmissionCompensation(dto, contract).Ok? && SubmissionCompensation(dto, contract).value.Some?
    ensures exists unit, currency :: dto.unit == Given(Some(unit)) && dto.currency == Given(Some(currency))
  {
    hide Normalize;
    assert dto.unit == Given(Some(dto.unit.value.value)) && dto.currency == Given(Some(dto.currency.value.value));
  }
}
