/**
 * The mutable `Expense` bean of the ledger: two constructors, getters, one setter per
 * field except the id, and the private symbol table used by `toString`.
 */
module Expenses {
  import opened Wrappers
  import opened JavaText
  import opened Currencies
  import AppChecks

  /** What the getters of an `Expense` return at one moment. */
  datatype ExpenseRow = ExpenseRow(
    id: NullableString,
    category: NullableString,
    currency: NullableString,
    amount: real,
    description: NullableString,
    date: NullableString)

  class Expense {
    /** There is no setter for the id, so it never changes after construction. */
    const id: NullableString
    var category: NullableString
    var currency: NullableString
    var amount: real
    var description: NullableString
    var date: NullableString

    /** `new Expense(category, currency, amount, description, date)`; the random UUID
        it draws is the parameter `generatedId`. */
    constructor Create(category: NullableString, currency: NullableString, amount: real,
                       description: NullableString, date: NullableString, generatedId: string)
      ensures Snapshot() == ExpenseRow(Some(generatedId), category, currency, amount, description, date)
    {
      this.id := Some(generatedId);
      this.category := category;
      this.currency := currency;
      this.amount := amount;
      this.description := description;
      this.date := date;
    }

    /** `new Expense(id, category, currency, amount, description, date)`. */
    constructor WithId(id: NullableString, category: NullableString, currency: NullableString, amount: real,
                       description: NullableString, date: NullableString)
      ensures Snapshot() == ExpenseRow(id, category, currency, amount, description, date)
    {
      this.id := id;
      this.category := category;
      this.currency := currency;
      this.amount := amount;
      this.description := description;
      this.date := date;
    }

    /** The six getters, `getID` … `getDate`, read together. */
    function Snapshot(): (r: ExpenseRow)
      reads this
      ensures r.id == id && r.category == category && r.currency == currency
      ensures r.amount == amount && r.description == description && r.date == date
    {
      ExpenseRow(id, category, currency, amount, description, date)
    }

    method SetCategory(category: NullableString)
      modifies this`category
      ensures Snapshot() == old(Snapshot()).(category := category)
    {
      this.category := category;
    }

    method SetCurrency(currency: NullableString)
      modifies this`currency
      ensures Snapshot() == old(Snapshot()).(currency := currency)
    {
      this.currency := currency;
    }

    method SetAmount(amount: real)
      modifies this`amount
      ensures Snapshot() == old(Snapshot()).(amount := amount)
    {
      this.amount := amount;
    }

    method SetDescription(description: NullableString)
      modifies this`description
      ensures Snapshot() == old(Snapshot()).(description := description)
    {
      this.description := description;
    }

    method SetDate(date: NullableString)
      modifies this`date
      ensures Snapshot() == old(Snapshot()).(date := date)
    {
      this.date := date;
    }

    /** `currencySymbol()`: a `switch` on the currency as stored, so case matters;
        `None` where switching on a null currency throws. */
    function CurrencySymbol(): (r: NullableString)
      reads this
      ensures currency.None? <==> r.None?
      ensures currency.Some? && currency.value in SymbolCodes ==> r == KnownSymbol(currency.value)
      ensures currency.Some? && currency.value !in SymbolCodes ==> r == currency
    {
      if currency.None? then None
      else Some(KnownSymbol(currency.value).GetOr(currency.value))
    }
  }

  /** For a currency stored in upper case, the bean's symbol table and the front end's
      `symbolFor` agree. */
  lemma {:induction false} CurrencySymbolAgrees(e: Expense)
    requires e.currency.Some? && ToUpper(e.currency.value) == e.currency.value
    ensures e.CurrencySymbol() == AppChecks.SymbolFor(e.currency)
  {
    var code := e.currency.value;
    assert AppChecks.SymbolFor(e.currency) == Some(KnownSymbol(ToUpper(code)).GetOr(code));
  }

  /** A lower-case code shows as itself in the bean, but as its symbol in `symbolFor`. */
  lemma CurrencySymbolIsCaseSensitive(e: Expense)
    requires e.currency == Some("usd")
    ensures e.CurrencySymbol() == Some("usd")
    ensures AppChecks.SymbolFor(e.currency) == Some("$")
  {
    assert ToUpper("usd") == "USD";
  }
}
