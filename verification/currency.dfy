/**
 * The currency tables: the `Currency` enum with its `isSupported` test, and the
 * code-to-symbol table shared by `Expense.currencySymbol` and `App.symbolFor`.
 */
module Currencies {
  import opened Wrappers
  import opened JavaText

  /** The constants of the `Currency` enum, in declaration order. */
  datatype Currency = USD | EUR | GBP | JPY | CAD | AUD | CHF | CNY | INR | MXN

  /** `name()` of a constant. */
  function Name(c: Currency): (r: string)
    ensures |r| == 3 && forall i :: 0 <= i < 3 ==> IsAsciiUpper(r[i])
  {
    match c
    case USD => "USD"
    case EUR => "EUR"
    case GBP => "GBP"
    case JPY => "JPY"
    case CAD => "CAD"
    case AUD => "AUD"
    case CHF => "CHF"
    case CNY => "CNY"
    case INR => "INR"
    case MXN => "MXN"
  }

  /** `Currency.valueOf(name)`; `None` where it throws `IllegalArgumentException`. */
  function ValueOf(name: string): (r: Option<Currency>)
    ensures r.Some? ==> Name(r.value) == name
    ensures r.None? ==> forall c: Currency :: Name(c) != name
  {
    if name == "USD" then Some(USD)
    else if name == "EUR" then Some(EUR)
    else if name == "GBP" then Some(GBP)
    else if name == "JPY" then Some(JPY)
    else if name == "CAD" then Some(CAD)
    else if name == "AUD" then Some(AUD)
    else if name == "CHF" then Some(CHF)
    else if name == "CNY" then Some(CNY)
    else if name == "INR" then Some(INR)
    else if name == "MXN" then Some(MXN)
    else None
  }

  /** `valueOf` inverts `name()`. */
  lemma ValueOfName(c: Currency)
    ensures ValueOf(Name(c)) == Some(c)
  {
  }

  /** `Currency.isSupported(code)`: `valueOf(code.toUpperCase())` succeeds; a `null`
      code throws inside the `try`, which answers false. */
  predicate IsSupported(code: NullableString)
  {
    code.Some? && ValueOf(ToUpper(code.value)).Some?
  }

  /** Supported means: non-null, and upper-casing gives exactly one constant's name. */
  lemma IsSupportedIff(code: NullableString)
    ensures IsSupported(code) <==> code.Some? && exists c :: Name(c) == ToUpper(code.value)
  {
    if code.Some? && ValueOf(ToUpper(code.value)).Some? {
      var c := ValueOf(ToUpper(code.value)).value;
      assert Name(c) == ToUpper(code.value);
    }
  }

  /** The test ignores case. */
  lemma {:induction false} IsSupportedIgnoresCase(s: string)
    ensures IsSupported(Some(ToLower(s))) == IsSupported(Some(s))
  {
    ToUpperOfToLower(s);
  }

  /** Every constant's own name, in any case, is supported. */
  lemma {:induction false} NameIsSupported(c: Currency)
    ensures IsSupported(Some(Name(c)))
    ensures IsSupported(Some(ToLower(Name(c))))
  {
    var n := Name(c);
    assert ToUpper(n) == n;
    ValueOfName(c);
    IsSupportedIgnoresCase(n);
  }

  /** A supported code is three ASCII letters; in particular it holds no
      whitespace, since there is no trimming. */
  lemma {:induction false} SupportedShape(s: string)
    ensures IsSupported(Some(s)) ==> |s| == 3
    ensures IsSupported(Some(s)) ==> forall i :: 0 <= i < |s| ==> IsAsciiLetter(s[i]) && !IsJavaWhitespace(s[i])
  {
    if !IsSupported(Some(s)) {
      return;
    }
    var n := ToUpper(s);
    var c := ValueOf(n).value;
    assert Name(c) == n;
    forall i | 0 <= i < |s|
      ensures IsAsciiLetter(s[i]) && !IsJavaWhitespace(s[i])
    {
      assert IsAsciiUpper(n[i]);
      assert n[i] == UpperChar(s[i]);
    }
  }

  /** Surrounding whitespace makes any code unsupported. */
  lemma {:induction false} PaddedIsUnsupported(s: string, w: char)
    requires IsJavaWhitespace(w)
    ensures !IsSupported(Some([w] + s)) && !IsSupported(Some(s + [w]))
  {
    SupportedShape([w] + s);
    assert ([w] + s)[0] == w;
    SupportedShape(s + [w]);
    assert (s + [w])[|s|] == w;
  }

  // -------------------------------------------------------------- symbols

  /** The currency codes the symbol tables know. */
  const SymbolCodes: set<string> :=
    {"USD", "EUR", "GBP", "JPY", "CNY", "INR", "AUD", "CAD", "CHF", "KRW", "RUB"}

  /** The `switch` of `currencySymbol`/`symbolFor` without its `default` arm. */
  function KnownSymbol(code: string): (r: Option<string>)
    ensures r.Some? <==> code in SymbolCodes
  {
    if code == "USD" then Some("$")
    else if code == "EUR" then Some("€")
    else if code == "GBP" then Some("£")
    else if code == "JPY" then Some("¥")
    else if code == "CNY" then Some("¥")
    else if code == "INR" then Some("₹")
    else if code == "AUD" then Some("A$")
    else if code == "CAD" then Some("C$")
    else if code == "CHF" then Some("CHF")
    else if code == "KRW" then Some("₩")
    else if code == "RUB" then Some("₽")
    else None
  }

  /** Every supported currency except MXN has a symbol; MXN falls through to the
      default arm and shows as its own code. */
  lemma SupportedSymbols(c: Currency)
    ensures KnownSymbol(Name(c)).Some? <==> c != MXN
  {
  }
}
