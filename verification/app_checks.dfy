/**
 * The input checks of the command-line front end: `validate`, run before an expense
 * is recorded, and `symbolFor`, used when amounts are shown.
 */
module AppChecks {
  import opened Wrappers
  import opened JavaText
  import opened Currencies

  /** What `validate` does: return normally, throw `IllegalArgumentException` with a
      message, or throw `NullPointerException` (calling `matches` on a null currency). */
  datatype Validation = Passed | Rejected(message: string) | NullCurrency

  const CategoryRequired := "Category is required."
  const AmountNotPositive := "Amount must be > 0."
  const CurrencyNotCode := "Currency must be a 3-letter code (e.g., USD)."

  /** A full match of the regular expression `[A-Z]{3}`. */
  predicate IsThreeLetterCode(s: string)
  {
    |s| == 3 && forall i :: 0 <= i < 3 ==> IsAsciiUpper(s[i])
  }

  /** `validate(category, amount, currency)`: the checks run in the order category,
      amount, currency, and the first failure is reported. */
  function Validate(category: NullableString, amount: real, currency: NullableString): (r: Validation)
    ensures r == Passed <==>
      category.Some? && category.value != "" && amount > 0.0
      && currency.Some? && IsThreeLetterCode(currency.value)
    ensures (category.None? || category.value == "") ==> r == Rejected(CategoryRequired)
    ensures r == Rejected(AmountNotPositive) <==>
      category.Some? && category.value != "" && amount <= 0.0
    ensures r == NullCurrency <==>
      category.Some? && category.value != "" && amount > 0.0 && currency.None?
    ensures r == Rejected(CurrencyNotCode) <==>
      category.Some? && category.value != "" && amount > 0.0
      && currency.Some? && !IsThreeLetterCode(currency.value)
  {
    if category.None? || category.value == "" then Rejected(CategoryRequired)
    else if amount <= 0.0 then Rejected(AmountNotPositive)
    else if currency.None? then NullCurrency
    else if !IsThreeLetterCode(currency.value) then Rejected(CurrencyNotCode)
    else Passed
  }

  /** Every supported currency's name passes the currency check, but the check does
      not consult the enum: a well-formed code such as "XYZ" passes too, and a
      lower-case supported code such as "usd" does not. */
  lemma ValidateVersusSupported(c: Currency)
    ensures Validate(Some("x"), 1.0, Some(Name(c))) == Passed
    ensures Validate(Some("x"), 1.0, Some("XYZ")) == Passed && !IsSupported(Some("XYZ"))
    ensures Validate(Some("x"), 1.0, Some("usd")) == Rejected(CurrencyNotCode) && IsSupported(Some("usd"))
  {
    assert ToUpper("XYZ") == "XYZ";
    assert ToUpper("usd") == "USD";
    assert !IsAsciiUpper("usd"[0]);
  }

  /** `symbolFor(code)`: the symbol of the upper-cased code, or the code itself, in
      its original case; `None` where `code.toUpperCase` throws on null. */
  function SymbolFor(code: NullableString): (r: NullableString)
    ensures code.None? <==> r.None?
    ensures code.Some? && ToUpper(code.value) in SymbolCodes ==> r == KnownSymbol(ToUpper(code.value))
    ensures code.Some? && ToUpper(code.value) !in SymbolCodes ==> r == code
  {
    if code.None? then None
    else Some(KnownSymbol(ToUpper(code.value)).GetOr(code.value))
  }

  /** The lookup ignores case. */
  lemma {:induction false} SymbolForIgnoresCase(s: string)
    requires ToUpper(s) in SymbolCodes
    ensures SymbolFor(Some(ToLower(s))) == SymbolFor(Some(s))
  {
    ToUpperOfToLower(s);
  }
}
