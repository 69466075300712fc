# HiveFi core, modelled in Dafny

HiveFi is a personal-finance program. It records expenses in a ledger, where each write is guarded by an idempotency check on the request id and logged in a hash-chained audit table. It also converts trip expenses into a home currency and looks up exchange rates from an HTTP provider, with caching. This project models the deterministic core of HiveFi and proves its contracts.

The modules follow the program's classes:

- `Ledger` models `LedgerService`: the write path, the list queries and the category-by-currency breakdown.
- `Stores` holds in-memory stand-ins for the expense table, the processed-request table and the transaction table, with their key and NOT NULL constraints.
- `Transactions` models the `Transaction` record. It covers the fixed-order payload, the lower-case hex encoding of the digest, and the chain link `prevHash`.
- `Expenses` models the mutable `Expense` bean and its symbol table.
- `Categories` covers the category enum and its synonym table.
- `Currencies` covers the currency enum and the symbol table.
- `AppChecks` covers the front end's `validate` and `symbolFor`.
- `TripExpenses` and `Conversion` model the trip service `ExpenseService` and `Converter`, with half-up rounding as an exact real function.
- `ApiRates` and `SimpleCache` model the stub-or-scrape rate service and its single-key cache.
- `Fx`, `FxJson` and `TtlCache` model `FXService`: the pair cache, the JSON shape extractor, the error preview and the URL builder, plus the TTL map with lazy eviction.
- `JavaText`, `Collections` and `Wrappers` are shared helpers. They cover `String` operations, `filter` and `LinkedHashMap` folds, and the `Option`/`Result` types that stand for `null` and thrown exceptions.

Where the source keeps state in an object, the model uses a class. Examples are the stores, the ledger service, the expense bean, both caches and both rate services. Each method states its new state and its result through a pure function of the old state. The properties are then proved about those functions:

- the chain-link and seal invariants kept by every `recordExpense`;
- a repeated request changing nothing;
- cache hits, misses and expiry;
- the first-match order of the JSON shapes;
- the rounding laws;
- the loop invariants of the trip totals.

## Model

| member | source | states |
|---|---|---|
| AppChecks.Validate | src/main/java/com/hivefi/App.java:277-287 | passes iff the category is non-null and non-empty, the amount is positive and the currency is exactly three ASCII upper-case letters; otherwise the first failing check in the order category, amount, currency decides the message, and a null currency (reaching `matches`) is a null-pointer failure |
| AppChecks.ValidateVersusSupported | src/main/java/com/hivefi/App.java:284-286 | the shape check is not the enum: every supported code passes, "XYZ" passes though unsupported, "usd" is rejected though supported |
| AppChecks.SymbolFor | src/main/java/com/hivefi/App.java:309-323 | a null code has no result (the upper-casing throws); a code whose upper-case form is one of the eleven known codes gets that code's symbol; any other code is returned unchanged, in its original case |
| AppChecks.SymbolForIgnoresCase | src/main/java/com/hivefi/App.java:310 | the symbol of a known code does not depend on its case |
| Currencies.Name | src/com/hivefi/model/Currency.java:4 | every constant's name is three ASCII upper-case letters |
| Currencies.ValueOf | src/com/hivefi/model/Currency.java:8 | `valueOf` succeeds exactly on a constant's name and returns that constant |
| Currencies.ValueOfName | src/com/hivefi/model/Currency.java:4-8 | `valueOf` inverts `name()` for all ten constants |
| Currencies.IsSupportedIff | src/com/hivefi/model/Currency.java:6-13 | `isSupported` holds iff the code is non-null and its ASCII upper-case form is exactly one constant's name (a null code is caught and answers false) |
| Currencies.IsSupportedIgnoresCase | src/com/hivefi/model/Currency.java:8 | with ASCII case mapping (a non-Turkic default locale), the test is case-insensitive |
| Currencies.NameIsSupported | src/com/hivefi/model/Currency.java:4-9 | with ASCII case mapping (a non-Turkic default locale), every constant's name, upper- or lower-case, is supported |
| Currencies.SupportedShape | src/com/hivefi/model/Currency.java:8 | with ASCII case mapping, a supported code is three ASCII letters and holds no whitespace, since nothing is trimmed |
| Currencies.PaddedIsUnsupported | src/com/hivefi/model/Currency.java:8 | a code with leading or trailing whitespace is unsupported |
| Currencies.KnownSymbol | src/main/java/com/hivefi/models/Expense.java:78-93 | the symbol table answers exactly for the eleven listed codes |
| Currencies.SupportedSymbols | src/main/java/com/hivefi/models/Expense.java:78-93 | every supported currency except MXN has a symbol; MXN falls through to the default arm |
| JavaText.ValueOf | src/main/java/com/hivefi/models/Transaction.java:59 | concatenating a reference appends its text, or "null" for a null reference |
| JavaText.NullSafe | src/main/java/com/hivefi/models/Transaction.java:69 | `nullSafe` gives the text itself, or "" for null |
| JavaText.ToUpper | src/com/hivefi/model/Currency.java:8 | upper-casing keeps the length and maps each ASCII lower-case letter to upper case, leaving every other character alone |
| JavaText.ToLower | src/main/java/com/hivefi/models/Category.java:33 | lower-casing keeps the length and maps each ASCII upper-case letter to lower case, leaving every other character alone |
| JavaText.ToUpperIdempotent | src/com/hivefi/service/Converter.java:32-33 | upper-casing twice is upper-casing once |
| JavaText.ToUpperOfToLower | src/main/java/com/hivefi/App.java:310 | upper-casing a lower-cased string is upper-casing the original |
| JavaText.ToLowerIdempotent | src/main/java/com/hivefi/models/Category.java:33 | lower-casing twice is lower-casing once |
| JavaText.Trim | src/main/java/com/hivefi/models/Category.java:33 | `trim` removes leading and trailing characters up to U+0020 and keeps the rest; the result neither starts nor ends with such a character |
| JavaText.TrimIdempotent | src/main/java/com/hivefi/models/Category.java:33 | trimming twice is trimming once |
| JavaText.TrimOfLower | src/main/java/com/hivefi/models/Category.java:33 | lower-casing commutes with trimming |
| JavaText.TrimPadded | src/main/java/com/hivefi/models/Category.java:33 | padding of strippable characters on either side does not change the trimmed text |
| JavaText.IndexOf | src/com/hivefi/service/ApiRateService.java:69 | `indexOf` gives the first position where the token occurs, or none when it occurs nowhere |
| JavaText.ContainsIff | src/main/java/com/hivefi/services/FXService.java:125 | `contains` holds iff the token occurs somewhere |
| Categories.CodeIsUpperDisplay | src/main/java/com/hivefi/models/Category.java:6-29 | `code()` (the constant's name) is the display name in upper case |
| Categories.Display | src/main/java/com/hivefi/models/Category.java:23-25 | every display name is non-empty and starts with an ASCII capital |
| Categories.Code | src/main/java/com/hivefi/models/Category.java:27-29 | every code is non-empty and all ASCII capitals |
| Categories.DisplayInjective | src/main/java/com/hivefi/models/Category.java:6-25 | distinct constants have distinct display names |
| Categories.ToString | src/main/java/com/hivefi/models/Category.java:75-78 | `toString` gives the display name |
| Categories.Lookup | src/main/java/com/hivefi/models/Category.java:34-68 | the switch returns a category only for one of that category's listed labels, and OTHER exactly when the key is no label at all |
| Categories.From | src/main/java/com/hivefi/models/Category.java:31-33 | null gives OTHER; any other input is trimmed and lower-cased before the switch |
| Categories.Normalize | src/main/java/com/hivefi/models/Category.java:71-73 | `normalize` is the display name of what `from` selects |
| Categories.SelectsFood | src/main/java/com/hivefi/models/Category.java:36-37 | each Food label selects FOOD |
| Categories.SelectsLodging | src/main/java/com/hivefi/models/Category.java:39-40 | each Lodging label selects LODGING |
| Categories.SelectsTransport | src/main/java/com/hivefi/models/Category.java:42-45 | each Transport label, e.g. "taxi" or "flight", selects TRANSPORT |
| Categories.SelectsEntertainment | src/main/java/com/hivefi/models/Category.java:47-49 | each Entertainment label selects ENTERTAINMENT |
| Categories.SelectsGroceries | src/main/java/com/hivefi/models/Category.java:51-52 | each Groceries label selects GROCERIES |
| Categories.SelectsTuition | src/main/java/com/hivefi/models/Category.java:54-55 | each Tuition label selects TUITION |
| Categories.SelectsRent | src/main/java/com/hivefi/models/Category.java:57-58 | each Rent label selects RENT |
| Categories.SelectsUtilities | src/main/java/com/hivefi/models/Category.java:60-62 | each Utilities label, e.g. "gas" or "wifi", selects UTILITIES |
| Categories.SelectsHealth | src/main/java/com/hivefi/models/Category.java:64-65 | each Health label selects HEALTH |
| Categories.SynonymSelects | src/main/java/com/hivefi/models/Category.java:34-65 | every listed label selects its own category, so no label is shadowed by an earlier arm |
| Categories.UnlistedIsOther | src/main/java/com/hivefi/models/Category.java:66-67 | a key that is no label gives OTHER |
| Categories.FromIgnoresCase | src/main/java/com/hivefi/models/Category.java:33 | `from` does not depend on the input's case |
| Categories.FromIgnoresPadding | src/main/java/com/hivefi/models/Category.java:33 | `from` ignores leading and trailing characters that `trim` strips |
| Categories.LowerDisplay | src/main/java/com/hivefi/models/Category.java:6-65 | every display name, lower-cased, is a label of its own category, except "other" |
| Categories.OtherIsUnlisted | src/main/java/com/hivefi/models/Category.java:66-67 | "other" is not a label; OTHER is reached through the default arm |
| Categories.DisplayTrimmed | src/main/java/com/hivefi/models/Category.java:6-33 | no display name has characters that `trim` strips at either end |
| Categories.FromDisplay | src/main/java/com/hivefi/models/Category.java:23-68 | `from` of a display name gives back that constant |
| Categories.FromDisplayLooksUp | src/main/java/com/hivefi/models/Category.java:31-33 | a display name needs no trimming, so `from` looks up its lower-case form |
| Categories.LookupLowerDisplay | src/main/java/com/hivefi/models/Category.java:34-68 | the lower-cased display name selects its own constant |
| Categories.NormalizeIdempotent | src/main/java/com/hivefi/models/Category.java:71-73 | normalising a normalised name changes nothing |
| Expenses.Expense.Create | src/main/java/com/hivefi/models/Expense.java:14-21 | the five-argument constructor stores the five given fields as given, plus the freshly generated id |
| Expenses.Expense.WithId | src/main/java/com/hivefi/models/Expense.java:23-30 | the six-argument constructor stores id, category, currency, amount, description and date exactly as given |
| Expenses.Expense.Snapshot | src/main/java/com/hivefi/models/Expense.java:33-55 | each getter returns its field's current value |
| Expenses.Expense.SetCategory | src/main/java/com/hivefi/models/Expense.java:58-60 | sets the category and changes no other field; the id is a constant, since no setter exists for it |
| Expenses.Expense.SetCurrency | src/main/java/com/hivefi/models/Expense.java:62-64 | sets the currency and changes no other field |
| Expenses.Expense.SetAmount | src/main/java/com/hivefi/models/Expense.java:66-68 | sets the amount and changes no other field |
| Expenses.Expense.SetDescription | src/main/java/com/hivefi/models/Expense.java:70-72 | sets the description and changes no other field |
| Expenses.Expense.SetDate | src/main/java/com/hivefi/models/Expense.java:74-76 | sets the date and changes no other field |
| Expenses.Expense.CurrencySymbol | src/main/java/com/hivefi/models/Expense.java:78-93 | a null currency has no result (the switch throws); one of the eleven listed codes, matched case-sensitively, gets its symbol; any other currency is returned itself |
| Expenses.CurrencySymbolAgrees | src/main/java/com/hivefi/models/Expense.java:78-93 | for an upper-case currency the bean's symbol is the one the front end's `symbolFor` gives |
| Expenses.CurrencySymbolIsCaseSensitive | src/main/java/com/hivefi/models/Expense.java:79 | "usd" shows as itself in the bean but as "$" in `symbolFor` |
| Transactions.Unsigned | src/main/java/com/hivefi/models/Transaction.java:76 | `%02x` reads a byte as unsigned: a value below 256 congruent to the byte modulo 256 |
| Transactions.Signed | src/main/java/com/hivefi/models/Transaction.java:76 | the byte whose unsigned reading is the given value, so the unsigned reading is onto 0..255 |
| Transactions.HexDigit | src/main/java/com/hivefi/models/Transaction.java:76 | every digit value prints as a lower-case hexadecimal digit |
| Transactions.DigitValueOfHexDigit | src/main/java/com/hivefi/models/Transaction.java:76 | reading a printed digit gives its value back |
| Transactions.HexByte | src/main/java/com/hivefi/models/Transaction.java:76 | `%02x` prints each byte as exactly two lower-case hexadecimal digits |
| Transactions.HexOf | src/main/java/com/hivefi/models/Transaction.java:75-77 | the hex text is twice as long as the digest |
| Transactions.HexDecode | src/main/java/com/hivefi/models/Transaction.java:75-77 | reading hex text back, two digits per byte, gives half as many bytes |
| Transactions.HexDecodeOf | src/main/java/com/hivefi/models/Transaction.java:75-77 | the encoding loses nothing: decoding the hex text gives back the digest bytes |
| Transactions.HexOfInjective | src/main/java/com/hivefi/models/Transaction.java:75-77 | different digests give different hex texts |
| Transactions.HexOfIsLowerHex | src/main/java/com/hivefi/models/Transaction.java:76 | every character of the hex text is a lower-case hexadecimal digit |
| Transactions.Sha256Hex | src/main/java/com/hivefi/models/Transaction.java:71-81 | the `StringBuilder` loop over the digest of `s` produces exactly the two-digits-per-byte encoding of that digest |
| Transactions.JoinedSnoc | src/main/java/com/hivefi/models/Transaction.java:55-65 | one more labelled field adds its label and value at the end of the payload text |
| Transactions.PayloadLayout | src/main/java/com/hivefi/models/Transaction.java:54-66 | the hashed payload is `id=…\|ts=…\|action=…\|expenseId=…\|category=…\|currency=…\|amount=…\|date=…\|desc=…\|prev=…`, in exactly that order, with the expense id concatenated as is and the other nullable fields through `nullSafe` |
| Transactions.Seal | src/main/java/com/hivefi/models/Transaction.java:36-66 | setting `txHash` to `computeHash()` makes the stored hash match a recomputation from the stored fields, and changes no other field |
| Transactions.NewTransaction | src/main/java/com/hivefi/models/Transaction.java:25-37 | the constructor copies expense id, category, currency, amount, date and description from the expense's getters, stores a null previous hash as "", and seals the result |
| Transactions.PayloadOfNulls | src/main/java/com/hivefi/models/Transaction.java:59-69 | a null category, currency, date or description hashes like "", a null expense id like the text "null" |
| Transactions.PayloadBindsPrev | src/main/java/com/hivefi/models/Transaction.java:65 | the payload ends with the previous hash, so it determines it |
| Transactions.SealBindsPrev | src/main/java/com/hivefi/models/Transaction.java:54-66 | a sealed record re-linked to another predecessor keeps a valid hash only if the two payloads differ yet have the same digest, i.e. only through a digest collision |
| Stores.TextLeTotal | src/main/java/com/hivefi/db/ExpenseDAO.java:117 | the text order used by `BETWEEN` on ISO dates compares any two strings |
| Stores.TextLeAntisymmetric | src/main/java/com/hivefi/db/ExpenseDAO.java:117 | two strings each at most the other are equal |
| Stores.TextLeTransitive | src/main/java/com/hivefi/db/ExpenseDAO.java:117 | text order is transitive |
| Stores.TextLeCommonPrefix | src/main/java/com/hivefi/db/TransactionDAO.java:84 | after a common prefix, text order is decided by what follows it |
| Stores.InsertKeepsValid | src/main/java/com/hivefi/db/ExpenseDAO.java:22-70 | an accepted insert keeps the table's NOT NULL and primary-key constraints |
| Stores.ExpenseStore.constructor | src/main/java/com/hivefi/db/ExpenseDAO.java:16-18 | a fresh store holds no expenses and no processed ids |
| Stores.ExpenseStore.MarkProcessed | src/main/java/com/hivefi/db/ExpenseDAO.java:133-144 | `INSERT OR IGNORE` answers true iff the id is new, and the id is processed afterwards either way |
| Stores.ExpenseStore.Insert | src/main/java/com/hivefi/db/ExpenseDAO.java:52-70 | the insert succeeds iff the date parses and category, currency and a fresh (or null) id satisfy the table's constraints; on success the row is added at the end, on failure nothing is stored |
| Stores.ExpenseStore.FindAll | src/main/java/com/hivefi/db/ExpenseDAO.java:86-97 | every stored row, each exactly once, in insertion order (the `ORDER BY date_iso DESC` is left out) |
| Stores.ExpenseStore.FindByCategory | src/main/java/com/hivefi/db/ExpenseDAO.java:99-113 | nothing for a null category; otherwise exactly the stored rows of that category, as a subsequence of the store |
| Stores.ExpenseStore.FindByDateRange | src/main/java/com/hivefi/db/ExpenseDAO.java:115-130 | exactly the stored rows whose parsed ISO date lies between the bounds inclusive in text order, as a subsequence of the store |
| Stores.ChainLinkedAppend | src/main/java/com/hivefi/db/TransactionDAO.java:42-93 | appending keeps the log linked exactly when the new entry's `prevHash` is the current last hash ("" for an empty log) |
| Stores.TransactionLog.constructor | src/main/java/com/hivefi/db/TransactionDAO.java:11-13 | a fresh log is empty |
| Stores.TransactionLog.Append | src/main/java/com/hivefi/db/TransactionDAO.java:42-63 | the append succeeds iff the id is new and the expense id is non-null; on success the entry is added at the end, on failure nothing is stored |
| Stores.TransactionLog.LastHash | src/main/java/com/hivefi/db/TransactionDAO.java:82-93 | "" for an empty log, else the `txHash` of the entry appended last (the intended head; see Findings) |
| Stores.TransactionLog.FindAll | src/main/java/com/hivefi/db/TransactionDAO.java:65-80 | every entry, each exactly once, in append order (the `ORDER BY timestamp ASC` is left out) |
| Stores.LatestByText | src/main/java/com/hivefi/db/TransactionDAO.java:84 | the position `ORDER BY timestamp DESC LIMIT 1` picks holds a greatest timestamp in text order |
| Stores.LastHashByTimestamp | src/main/java/com/hivefi/db/TransactionDAO.java:82-93 | `lastHash` as queried: "" for an empty table, else the hash of an entry whose timestamp text is greatest |
| Stores.TimestampOrderForks | src/main/java/com/hivefi/db/TransactionDAO.java:84 | for entries stamped `…Z` and then `….100Z` (an `Instant.toString` at a whole second and one a tenth later), the query names the earlier entry as the head though the later one was appended last, and a record linked to it breaks the chain |
| Ledger.RecordDuplicate | src/main/java/com/hivefi/services/LedgerService.java:28-33 | a request id seen before makes the call throw `Duplicate request: <id>` and changes neither store |
| Ledger.RecordMarks | src/main/java/com/hivefi/services/LedgerService.java:28-29 | a null or blank request id skips the check and leaves the processed ids alone; any other id is processed afterwards, whatever happens next |
| Ledger.RecordInsertFails | src/main/java/com/hivefi/services/LedgerService.java:34-35 | the insert fails exactly when the id is not a duplicate and the store refuses the row; then no expense and no record are added |
| Ledger.RecordAppendFails | src/main/java/com/hivefi/services/LedgerService.java:37-39 | the append fails exactly when the insert succeeded and the record id is taken; the inserted expense stays and no record is added |
| Ledger.RecordSucceeds | src/main/java/com/hivefi/services/LedgerService.java:34-41 | on success exactly one expense, carrying the supplied category, currency, amount, description and date, and exactly one CREATE record snapshotting it and linked to the previous last hash are appended; nothing else in either store changes |
| Ledger.RecordKeepsValid | src/main/java/com/hivefi/services/LedgerService.java:22-42 | every call keeps the table constraints, the chain-link invariant (each `prevHash` is its predecessor's `txHash`, the first is "") and the seals |
| Ledger.LedgerService.constructor | src/main/java/com/hivefi/services/LedgerService.java:17-20 | the service works on the given expense store and transaction log |
| Ledger.LedgerService.RecordExpense | src/main/java/com/hivefi/services/LedgerService.java:22-42 | on any stores, they end up as the test-and-set, insert, head read, seal and append prescribe; the returned expense (a new object) has exactly the request's values; an escaping exception is the one that step raises; and stores that were valid (constraints kept, log linked and sealed) stay valid |
| Ledger.LedgerService.InsertAndLogStep | src/main/java/com/hivefi/services/LedgerService.java:34-41 | the steps after the idempotency check: insert, read the last hash, build the sealed CREATE record, append |
| Ledger.LedgerService.ListAll | src/main/java/com/hivefi/services/LedgerService.java:44-46 | every stored expense, in store order |
| Ledger.LedgerService.ListByCategory | src/main/java/com/hivefi/services/LedgerService.java:48-50 | exactly the stored expenses of that category, none for null (SQL `=` never matches NULL) |
| Ledger.ListByCategoryInOrder | src/main/java/com/hivefi/services/LedgerService.java:48-50 | the listing keeps the store's order |
| Ledger.LedgerService.ListByDateRange | src/main/java/com/hivefi/services/LedgerService.java:52-54 | exactly the stored expenses whose ISO date lies between the bounds, both included |
| Ledger.LedgerService.Transactions | src/main/java/com/hivefi/services/LedgerService.java:66-68 | the audit log in append order (the source sorts by timestamp text; see Left out and Findings) |
| Ledger.LedgerService.Count | src/main/java/com/hivefi/services/LedgerService.java:70-72 | the number of stored expenses |
| Ledger.LedgerService.CategoryBreakdownByCurrency | src/main/java/com/hivefi/services/LedgerService.java:56-64 | the `computeIfAbsent`/`merge` loop builds the breakdown of all stored expenses |
| Ledger.CategoryList | src/main/java/com/hivefi/services/LedgerService.java:59-60 | one category per expense |
| Ledger.BreakdownValid | src/main/java/com/hivefi/services/LedgerService.java:58-62 | the outer map lists each category once |
| Ledger.BreakdownDomain | src/main/java/com/hivefi/services/LedgerService.java:60 | a category has an entry exactly when some expense has it |
| Ledger.BreakdownKeys | src/main/java/com/hivefi/services/LedgerService.java:58-60 | categories appear in the order of their first expense |
| Ledger.InCategoryAbsent | src/main/java/com/hivefi/services/LedgerService.java:60 | a category no expense has selects no expenses |
| Ledger.InCategoryLast | src/main/java/com/hivefi/services/LedgerService.java:59-61 | the last expense adds its (currency, amount) pair to its own category only |
| Ledger.GroupSumSnoc | src/main/java/com/hivefi/services/LedgerService.java:61 | one more pair merges its amount into the currency totals |
| Ledger.BreakdownGet | src/main/java/com/hivefi/services/LedgerService.java:56-64 | each category maps to the currency-to-sum map of its own expenses, raw amounts with no conversion, and absent categories map to nothing |
| Ledger.DuplicateRequestKeepsCount | src/test/com/hivefi/db/ExpenseDAOTest.java:16-22 | recording "Food", 10 USD, "Pizza" with request id "req-xyz" twice: the first call succeeds, the retry throws the duplicate error and changes nothing, and one expense is stored |
| Collections.Filter | src/com/hivefi/service/ExpenseService.java:23 | a stream filter keeps exactly the elements that pass the test and never grows the list |
| Collections.FilterIsSubsequence | src/com/hivefi/service/ExpenseService.java:23 | filtering keeps the survivors in their original relative order |
| Collections.FilterAppend | src/com/hivefi/service/ExpenseService.java:19-23 | filtering distributes over appending, so adding an element at the end adds it, if it passes, at the end of the filtered list |
| Collections.FilterImplied | src/com/hivefi/service/ExpenseService.java:33 | filtering first by a weaker test changes nothing |
| Collections.FilterShrinksIff | src/com/hivefi/service/ExpenseService.java:28 | `removeIf` removes something iff some element matches |
| Collections.Distinct | src/main/java/com/hivefi/services/LedgerService.java:58-60 | the distinct elements of a list, each once, at its first appearance |
| Collections.DistinctIsSubsequence | src/main/java/com/hivefi/services/LedgerService.java:58-60 | first appearances keep the list's order |
| Collections.EmptyMap | src/main/java/com/hivefi/services/LedgerService.java:58 | `new LinkedHashMap<>()` has no keys |
| Collections.Get | src/main/java/com/hivefi/services/LedgerService.java:60 | `get` is absent exactly for a key not in the map |
| Collections.Put | src/main/java/com/hivefi/services/LedgerService.java:60 | `put` replaces an existing key's value in place or appends a new key at the end, and leaves every other key's value alone |
| Collections.PutValid | src/main/java/com/hivefi/services/LedgerService.java:60 | `put` keeps each key listed once |
| Collections.MergeAdd | src/main/java/com/hivefi/services/LedgerService.java:61 | `merge(k, v, Double::sum)` adds `v` to an existing key or inserts it at the end, leaving other keys alone |
| Collections.MapValues | src/com/hivefi/service/ExpenseService.java:54 | `replaceAll` applies the function to every value and keeps the keys and their order |
| Collections.Firsts | src/com/hivefi/service/ExpenseService.java:51 | one key per pair |
| Collections.GroupSumValid | src/com/hivefi/service/ExpenseService.java:47-52 | the merged map lists each key once |
| Collections.SumForAbsent | src/com/hivefi/service/ExpenseService.java:51 | a key no pair has sums to zero |
| Collections.GroupSumKeys | src/com/hivefi/service/ExpenseService.java:47-52 | the merged map's keys are the pairs' keys in first-appearance order |
| Collections.GroupSumGet | src/com/hivefi/service/ExpenseService.java:47-52 | each key of the merged map carries the sum of that key's values, and absent keys map to nothing |
| Collections.SumOverUpdateAbsent | src/com/hivefi/service/ExpenseService.java:51 | changing a key outside the listed keys does not change their sum |
| Collections.SumOverUpdate | src/com/hivefi/service/ExpenseService.java:51 | changing one listed key's value changes the sum by the difference |
| Collections.SumValuesMergeAdd | src/com/hivefi/service/ExpenseService.java:51 | merging a value adds exactly that value to the map's total |
| Collections.GroupSumPreservesTotal | src/com/hivefi/service/ExpenseService.java:47-52 | grouping neither loses nor invents money: the group totals add up to the overall total |
| TripExpenses.OfTrip | src/com/hivefi/service/ExpenseService.java:22-24 | exactly the stored records of that trip (compared with `Objects.equals`, so null matches null), in store order |
| TripExpenses.AnyAsksSome | src/com/hivefi/service/ExpenseService.java:38-39 | some conversion of the trip consults the rate service iff some record's currency differs from the home currency, both being non-null |
| TripExpenses.AnyAsksSnoc | src/com/hivefi/service/ExpenseService.java:38-39 | one more record asks iff the earlier ones did or it does |
| TripExpenses.ConvertedSkipsUnavailable | src/com/hivefi/service/ExpenseService.java:39-50 | a NaN conversion is skipped; every counted amount is the conversion of some record of that category |
| TripExpenses.ConvertedCategories | src/com/hivefi/service/ExpenseService.java:48-51 | a category is among the counted pairs iff at least one of its records converts |
| TripExpenses.ConvertedSnoc | src/com/hivefi/service/ExpenseService.java:38-40 | one more record adds its (category, converted amount) pair at the end, or nothing when its conversion is NaN |
| TripExpenses.SumSndSnoc | src/com/hivefi/service/ExpenseService.java:40 | `sum += converted` adds the new amount to the total |
| TripExpenses.GroupSumSnocPair | src/com/hivefi/service/ExpenseService.java:51 | one more pair merges into the category map |
| TripExpenses.CategoryTotalsSplitTotal | src/com/hivefi/service/ExpenseService.java:36-56 | before rounding, the category totals add up to the trip total; each category with a counted amount has exactly one entry, in first-appearance order, holding the sum of its amounts |
| TripExpenses.ExpenseService.constructor | src/com/hivefi/service/ExpenseService.java:11-16 | a new service has an empty store and the given converter |
| TripExpenses.ExpenseService.Add | src/com/hivefi/service/ExpenseService.java:19 | appends the record at the end of the store, and so at the end of its trip's listing |
| TripExpenses.ExpenseService.ListByTrip | src/com/hivefi/service/ExpenseService.java:22-24 | the trip's records in store order |
| TripExpenses.ExpenseService.Remove | src/com/hivefi/service/ExpenseService.java:27-29 | drops every record with that id and keeps the others in order; answers true iff some record had the id |
| TripExpenses.ExpenseService.ClearTrip | src/com/hivefi/service/ExpenseService.java:32-34 | drops every record of the trip, so its listing is empty, and leaves every other trip's listing unchanged |
| TripExpenses.ExpenseService.TotalTripInHome | src/com/hivefi/service/ExpenseService.java:36-43 | the loop sums the available conversions of the trip's records, in order, and rounds the sum half-up to two decimals; the rate cache is consulted and filled at most once |
| TripExpenses.ExpenseService.CategoryTotalsInHome | src/com/hivefi/service/ExpenseService.java:46-56 | the loop merges each available conversion into its category, in first-appearance order, then rounds every total half-up to two decimals |
| TripExpenses.TotalStep | src/com/hivefi/service/ExpenseService.java:39-40 | one turn of the summing loop keeps the running sum equal to the sum of the conversions so far |
| TripExpenses.MergeStep | src/com/hivefi/service/ExpenseService.java:49-51 | one turn of the merging loop keeps the map equal to the grouping of the conversions so far |
| TripExpenses.CacheStep | src/com/hivefi/service/ExpenseService.java:39 | after each turn the cache holds the settled answer once any conversion has asked, and is untouched before |
| TripExpenses.SameAnswer | src/com/hivefi/service/ExpenseService.java:39-49 | once settled, the cache gives every later conversion of the same call the same rates |
| TripExpenses.FilterOther | src/com/hivefi/service/ExpenseService.java:33 | clearing one trip does not change another trip's listing |
| TripExpenses.TripConverted | test/ExpenseServiceTests.java:13-14 | with the stub rates, a 200 EUR hotel converts to 217.391 USD and a 50 USD meal to 50 USD, in that order |
| TripExpenses.TripInUsd | test/ExpenseServiceTests.java:15-18 | with the stub rates the trip total is 267.39 USD, and both Hotel and Food appear in the breakdown, in that order |
| Conversion.Pow10 | src/com/hivefi/service/Converter.java:44-47 | a power of ten is at least one |
| Conversion.Round | src/com/hivefi/service/Converter.java:44-48 | half-up rounding never changes sign: a non-negative value rounds to a non-negative one, a non-positive value to a non-positive one |
| Conversion.ScaledIsPow10 | src/com/hivefi/service/Converter.java:44-47 | shifting a value by `scale` decimal places multiplies it by `10^scale` |
| Conversion.RoundIsNearest | src/com/hivefi/service/Converter.java:44-47 | `round(v, s)` is a whole number of units of `10^-s` within half a unit of `v` |
| Conversion.RoundHalfUp | src/com/hivefi/service/Converter.java:46 | an exact tie rounds away from zero, for positive and negative values alike |
| Conversion.RoundNegate | src/com/hivefi/service/Converter.java:46 | rounding is symmetric about zero |
| Conversion.RoundExact | src/com/hivefi/service/Converter.java:44-47 | a value that already has `s` decimals is unchanged |
| Conversion.RoundIdempotent | src/com/hivefi/service/Converter.java:44-47 | rounding twice is rounding once |
| Conversion.ConvertWith | src/com/hivefi/service/Converter.java:25-41 | a null code gives NaN; codes equal ignoring case give the amount rounded to three decimals without asking for rates |
| Conversion.ConvertWithCrossRate | src/com/hivefi/service/Converter.java:29-40 | for different codes the result is available iff rates came back with quotes for both upper-cased codes and a non-zero source quote, and it is then `round(amount / rFrom * rTo, 3)` |
| Conversion.ConvertWithIgnoresCase | src/com/hivefi/service/Converter.java:27-34 | the codes' case never matters |
| Conversion.Converter.constructor | src/com/hivefi/service/Converter.java:11-15 | the converter uses the given rate service |
| Conversion.Converter.Convert | src/com/hivefi/service/Converter.java:25-41 | returns the conversion of the rate service's answer for base "USD", and the service (and its cache) is consulted only when both codes are present and differ |
| Conversion.StubRoundTrip | test/ConverterTests.java:8-11 | with the stub rates, 100 USD is 92 EUR and 92 EUR is 100 USD again |
| ApiRates.IsStaleBoundary | src/com/hivefi/service/ApiRateService.java:43-45 | a Rate exactly twelve hours (43 200 000 ms) old is still fresh; one millisecond more is stale |
| ApiRates.IsStale | src/com/hivefi/service/ApiRateService.java:43-45 | stale iff strictly more than 43 200 000 ms (twelve hours) old |
| ApiRates.Stub | src/com/hivefi/service/ApiRateService.java:89-99 | the fixed table (USD 1.0, EUR 0.92, GBP 0.79, JPY 146, CAD 1.36, AUD 1.52), tagged with the requested base and the current time |
| ApiRates.SpanEnd | src/com/hivefi/service/ApiRateService.java:73-81 | the end of a run is the first index from the start on where the predicate fails, or the end of the text |
| ApiRates.SpanEndUnique | src/com/hivefi/service/ApiRateService.java:73-81 | any index bounding a maximal run is the run's end |
| ApiRates.ExtractRateReads | src/com/hivefi/service/ApiRateService.java:68-87 | the text parsed is exactly the longest run of number characters after the token's first occurrence and the whitespace that follows it |
| ApiRates.ExtractRate | src/com/hivefi/service/ApiRateService.java:68-87 | the two index-advancing loops return what the scraping specification gives: null without the token, else the parse of the number run |
| ApiRates.ScrapedQuotes | src/com/hivefi/service/ApiRateService.java:50-58 | USD maps to 1.0; each of EUR, GBP, JPY, CAD, AUD is present iff its quote was extracted, and holds that quote; no other key is present |
| ApiRates.ScrapedEur | src/com/hivefi/service/ApiRateService.java:54 | the EUR entry is the extracted EUR quote |
| ApiRates.FetchFromPrimary | src/com/hivefi/service/ApiRateService.java:47-65 | null iff the request fails, EUR is missing or EUR is zero; otherwise a Rate with the requested base, the current time and the scraped quotes |
| ApiRates.FreshRate | src/com/hivefi/service/ApiRateService.java:33 | with live rates off a miss gets the stub; any Rate obtained carries the current time |
| ApiRates.LatestRatesHit | src/com/hivefi/service/ApiRateService.java:27-30 | a cached Rate that is not stale is returned unchanged, whatever the provider would answer, and the cache is untouched |
| ApiRates.LatestRatesMiss | src/com/hivefi/service/ApiRateService.java:33-40 | on a miss the obtained Rate is stored under "rates:USD" whatever the requested base and returned; a null leaves the cache as it was and gives an empty answer |
| ApiRates.LatestRatesStub | src/com/hivefi/service/ApiRateService.java:13-38 | as shipped, a miss returns and caches the stub table tagged with the requested base |
| ApiRates.LatestRatesSettles | src/com/hivefi/service/ApiRateService.java:25-41 | asking again at the same instant gives the same answer and leaves the cache as it is |
| ApiRates.LatestRatesStubOnly | src/com/hivefi/service/ApiRateService.java:13-41 | as shipped, every answer and every cached Rate carries the stub table |
| ApiRates.ApiRateService.constructor | src/com/hivefi/service/ApiRateService.java:13-22 | live rates are off and the cache starts empty |
| ApiRates.ApiRateService.FetchLatestRates | src/com/hivefi/service/ApiRateService.java:25-41 | the answer and the new cache are those of the cached-lookup specification on the old cache |
| SimpleCache.Cache.constructor | src/com/hivefi/utils/Cache.java:7 | the map starts empty |
| SimpleCache.Cache.Put | src/com/hivefi/utils/Cache.java:8 | the key now reads back as the value, and every other key reads as before |
| SimpleCache.Cache.Get | src/com/hivefi/utils/Cache.java:10 | null exactly for a key never put, else the value last put |
| TtlCache.Fresh | src/main/java/com/hivefi/services/CacheManager.java:14-22 | a value comes back iff the key has an entry whose expiry is not before now, and it is that entry's value |
| TtlCache.CacheManager.constructor | src/main/java/com/hivefi/services/CacheManager.java:12 | the map starts empty |
| TtlCache.CacheManager.GetIfFresh | src/main/java/com/hivefi/services/CacheManager.java:14-22 | returns the fresh value, if any; a stale entry for the key is removed and nothing else changes |
| TtlCache.CacheManager.Put | src/main/java/com/hivefi/services/CacheManager.java:24-26 | the key's entry is replaced by the value expiring at now plus the time-to-live; other keys keep theirs |
| TtlCache.CacheManager.Clear | src/main/java/com/hivefi/services/CacheManager.java:28 | no entries remain |
| TtlCache.PutThenFresh | src/main/java/com/hivefi/services/CacheManager.java:17-26 | a value put at `t` with time-to-live `ttl` is returned at every instant up to and including `t + ttl`, and at none after |
| TtlCache.OtherKeysUntouched | src/main/java/com/hivefi/services/CacheManager.java:18-25 | putting or looking up one key leaves every other key's entry and answer as they were |
| TtlCache.LookupIsInvisible | src/main/java/com/hivefi/services/CacheManager.java:14-22 | removing a stale entry never changes what a lookup at the same or a later time returns |
| FxJson.LastValue | src/main/java/com/hivefi/services/FXService.java:85-86 | a field's value is found iff some field has that name, and it is the value of one such field |
| FxJson.Member | src/main/java/com/hivefi/services/FXService.java:85-104 | only an object node has members; `has` and `get` agree |
| FxJson.NumberOf | src/main/java/com/hivefi/services/FXService.java:85-86 | a number comes back iff the node is present and numeric (`isNumber` then `asDouble`) |
| FxJson.Candidates | src/main/java/com/hivefi/services/FXService.java:85-115 | there are exactly six shapes, tried in the order of the source |
| FxJson.ParseRateJson | src/main/java/com/hivefi/services/FXService.java:81-121 | unparsable JSON gives null; parsable JSON gives what the chain of shapes gives on its tree |
| FxJson.ParseRateFirstMatch | src/main/java/com/hivefi/services/FXService.java:85-115 | the first shape that matches is the answer, whatever the later shapes hold |
| FxJson.ParseRateNone | src/main/java/com/hivefi/services/FXService.java:85-118 | the answer is null iff none of the six shapes matches |
| FxJson.LastValueDistinct | src/main/java/com/hivefi/services/FXService.java:109-111 | when no key repeats, a key's value is the one beside it |
| FxJson.FirstValueFromDistinct | src/main/java/com/hivefi/services/FXService.java:109-115 | when no key repeats, the field loop returns the first field, in document order, whose node has a numeric `value` |
| FxJson.ParsesFrankfurter | src/main/java/com/hivefi/services/FXService.java:96-101 | the Frankfurter answer `{"amount":1,...,"rates":{"USD":1.10}}` yields 1.10 for USD |
| Fx.CollapseSpaces | src/main/java/com/hivefi/services/FXService.java:71 | never longer than the text, empty iff the text is, and ends in a space exactly where the text ends in whitespace |
| Fx.CollapseSpacesShape | src/main/java/com/hivefi/services/FXService.java:71 | afterwards the only whitespace is single plain spaces, never two in a row |
| Fx.CollapseSpacesKeepsText | src/main/java/com/hivefi/services/FXService.java:71 | every non-whitespace character is kept, in order |
| Fx.CollapseSpacesFixed | src/main/java/com/hivefi/services/FXService.java:71 | a text whose whitespace is already single spaces is unchanged |
| Fx.CollapseSpacesIdempotent | src/main/java/com/hivefi/services/FXService.java:71 | collapsing twice is collapsing once |
| Fx.Preview | src/main/java/com/hivefi/services/FXService.java:71-72 | the collapsed body when it has at most 240 characters (code points), else its first 240 characters and "...", so never more than 243 |
| Fx.FormatUrl | src/main/java/com/hivefi/services/FXService.java:124-131 | a template containing `%s` is formatted with the two codes; if formatting throws, or the template has no `%s`, the fallback URL |
| Fx.FallbackUrlShape | src/main/java/com/hivefi/services/FXService.java:129-130 | the fallback extends the configured URL by `&` iff it already has a `?` (else by `?`) and then `from=..&to=..&amount=1`, so it always carries a query |
| Fx.Configure | src/main/java/com/hivefi/services/FXService.java:29-40 | the parser and formatter are kept as given |
| Fx.ConfigureDefaults | src/main/java/com/hivefi/services/FXService.java:34-39 | the URL is never blank: the given one unless that is null or blank, else the Frankfurter template; the key is null iff the given one is null or blank, else kept; the TTL is the minutes in milliseconds |
| Fx.DefaultApiUrlNotBlank | src/main/java/com/hivefi/services/FXService.java:37 | the Frankfurter template is not blank |
| Fx.ReadTtlMinutesEnv | src/main/java/com/hivefi/services/FXService.java:133-138 | the default for a missing, blank or unparsable value; otherwise the trimmed value's number, raised to at least 1 |
| Fx.RateRequest | src/main/java/com/hivefi/services/FXService.java:58-62 | the formatted URL, the fixed user agent first, and the `apikey` header exactly when a key is configured |
| Fx.FetchRate | src/main/java/com/hivefi/services/FXService.java:57-79 | a rate iff the response is 2xx with a body whose JSON yields a rate for the target code, and then that rate; an I/O failure gives the request error with its message; a status outside 200-299 or a missing body gives the HTTP error with the code; a 2xx body with no recognised rate gives the parse error with the body's preview |
| Fx.CacheKeyInjective | src/main/java/com/hivefi/services/FXService.java:48 | for codes of one length, the key `F->T` determines the pair |
| Fx.RateLookupIdentity | src/main/java/com/hivefi/services/FXService.java:44-46 | codes equal ignoring case give 1.0 and touch neither cache nor provider |
| Fx.RateLookupHit | src/main/java/com/hivefi/services/FXService.java:48-50 | a fresh cached rate for the pair is returned, whatever the provider would say, and the cache is unchanged |
| Fx.RateLookupMiss | src/main/java/com/hivefi/services/FXService.java:48-54 | on a miss the provider is asked with the upper-cased codes; a rate is stored under the key for the TTL and returned; a failure stores nothing; other keys keep their entries |
| Fx.RateLookupRepeats | src/main/java/com/hivefi/services/FXService.java:43-55 | after a fetch, asking again for the pair before expiry gives the same rate without the provider and changes nothing |
| Fx.FXService.constructor | src/main/java/com/hivefi/services/FXService.java:29-40 | the settings are those of the configuration function, and the cache starts empty |
| Fx.FXService.FromEnvironment | src/main/java/com/hivefi/services/FXService.java:23-27 | URL and key from `FX_API_URL` and `FX_API_KEY`, TTL from `FX_TTL_MINUTES` with 30 minutes by default |
| Fx.FXService.GetRate | src/main/java/com/hivefi/services/FXService.java:43-55 | the answer and the new cache are those of the lookup specification on the old cache |
| Fx.FrankfurterThenCached | src/test/com/hivefi/FXServiceTest.java:16-28 | EUR to USD against the Frankfurter answer gives 1.10, and asked again within the hour after the provider has gone, 1.10 again from the cache |
| JavaText.TrimStart | src/main/java/com/hivefi/models/Category.java:33 | drops exactly the leading characters up to U+0020 and keeps the rest as a suffix |
| JavaText.TrimEnd | src/main/java/com/hivefi/models/Category.java:33 | drops exactly the trailing characters up to U+0020 and keeps the rest as a prefix |
| JavaText.IndexOfFrom | src/com/hivefi/service/ApiRateService.java:69 | the first occurrence of the token at or after the start position, or none when there is none |
| TtlCache.AfterLookup | src/main/java/com/hivefi/services/CacheManager.java:17-19 | a stale entry for the looked-up key is removed; otherwise the map is unchanged |
| TripExpenses.TotalTurn | src/com/hivefi/service/ExpenseService.java:38-40 | one turn of the summing loop, including its call into the converter, keeps the sum and the cache invariants |
| TripExpenses.MergeTurn | src/com/hivefi/service/ExpenseService.java:48-51 | one turn of the merging loop, including its call into the converter, keeps the map and the cache invariants |

## Left out

- Input and output: the command-line menus, prompts, argument handling and printing of `App` are not modelled. Only `validate` and `symbolFor` are.
- Dates: parsing `dd/MM/yyyy` and printing ISO dates (`parseDate`, `ExpenseDAO.toIso`) is the parameter `toIso`. Amount parsing (`parseAmount`) is not part of this model.
- Storage:
  - JDBC and SQLite are replaced by in-memory stores that keep the tables' constraints.
  - A date that fails to parse in `insert` is folded into the same refused-insert outcome as a constraint violation.
  - `findAll`, `findByCategory` and `findByDateRange` return rows in insertion order. The SQL `ORDER BY date_iso DESC` is not modelled.
  - `DatabaseManager`, `Db` and the `ExpenseDao` of the trip service are not part of this model.
- Stores.TransactionLog.LastHash: returns the entry appended last. The source's query (`ORDER BY timestamp DESC LIMIT 1`, TransactionDAO.java:84) picks the greatest timestamp text instead. Timestamps are `Instant.toString()`, which prints 0, 3, 6 or 9 fraction digits, so text order can disagree with time order (see Findings). Equal timestamps are not resolved either.
- Ledger.LedgerService.Transactions: lists the log in append order. The source's `findAll` sorts by `ORDER BY timestamp ASC` (TransactionDAO.java:68), which is text order and so not always time order.
- Ledger.LedgerService.constructor: the source creates its own `TransactionDAO` on the same database. The model passes the two stores in.
- Foreign primitives become parameters or fields holding functions:
  - SHA-256 (`MessageDigest`), `Double.toString`, Jackson's `readTree`, `String.format`, `Double.parseDouble`, `Integer.parseInt` and `System.getenv`.
  - `UUID.randomUUID` and the clock (`Instant.now`, `System.currentTimeMillis`).
  - The HTTP clients (OkHttp and `HttpClientUtil`). The `IllegalArgumentException` that OkHttp's `Request.Builder.url` throws for a malformed URL, before the `try` (FXService.java:59-60), has no error value in `FxError`.
  - Their own behaviour is not modelled.
- Time:
  - Instants are whole milliseconds.
  - In the model every conversion in one call of `totalTripInHome` or `categoryTotalsInHome` sees the same instant. The source reads `System.currentTimeMillis()` again on each conversion, through `fetchLatestRates` and `isStale` (ApiRateService.java:43-45), so a cached rate can go stale partway through a call.
- Numbers:
  - Amounts and rates are exact reals, with no IEEE-754 rounding error.
  - A `NaN` conversion result is `None`.
  - NaN and infinite input amounts are not modelled. `parseAmount("NaN")` yields NaN, which passes `validate` because `NaN <= 0` is false (App.java:281), but the model's amounts are reals.
  - The `%.2f` and `%.6f` formatting in `toString` methods is not modelled.
  - `long` and `int` overflow are not modelled, for example in `ttlMinutes * 60000` or `now + ttlMillis`.
- Case mapping is ASCII only. `Category.from`, `App.symbolFor` and `FXService.getRate` pass `Locale.ROOT`, and for ASCII input the model matches them exactly. Non-ASCII folding is not modelled, for example `"uſd".toUpperCase()` giving `"USD"`.
- Currencies.IsSupportedIff: `Currency.isSupported` upper-cases with the JVM's default locale (Currency.java:8). The model assumes a non-Turkic default locale and ASCII input. Under a Turkic locale `"inr"` upper-cases to `"İNR"` and is unsupported. Non-ASCII spellings such as `"uſd"` are supported by the source but not by the model.
- Currencies.IsSupportedIgnoresCase, Currencies.NameIsSupported, Currencies.SupportedShape: these hold under the same assumption, a non-Turkic default locale and ASCII case mapping.
- Conversion.ConvertWith: `Converter.convert` also upper-cases with the default locale (Converter.java:33-34), and the model makes the same non-Turkic, ASCII assumption. The same holds for Conversion.ConvertWithIgnoresCase and Conversion.ConvertWithCrossRate.
- Fx.Preview: lengths are counted in code points. Java's `length()` and `substring(0, 240)` count UTF-16 units (FXService.java:72), so a body with characters outside the Basic Multilingual Plane is cut differently, and the source can cut through a surrogate pair.
- Concurrency: `ConcurrentHashMap` in `CacheManager`, and any interleaving of ledger writes, are modelled as sequential.
- Fx.FXService.GetRate: a null `from` or `to` (a `NullPointerException` in the source) is not modelled. The codes are plain strings.
- Exception messages: only the duplicate-request message and the parse-error preview are modelled. Other failures are distinct error values without their text.
- `Rate.java` is not part of this model. `Rate` is the record `(base, fetchedAtMillis, quotes)`, where a quote stored as `null` reads as absent.
- The tamper-verification walk and the repair pass over the audit log are not part of the source. The chain-link invariant is instead stated as a predicate that every `recordExpense` keeps.
- Transactions.ComputeHash: no contract of its own. The payload layout and the hex encoding are stated by `PayloadLayout` and `HexOfIsLowerHex`.

## Findings

| source | as written | input that shows it | evidently intended | confidence | as-written member | corrected member |
|---|---|---|---|---|---|---|
| src/main/java/com/hivefi/db/TransactionDAO.java:82-93 | `lastHash` takes the row with the greatest `timestamp` text, where timestamps are `Instant.toString()` values whose fraction has 0, 3, 6 or 9 digits | a record stamped `2025-09-01T10:00:05Z`, then one stamped `2025-09-01T10:00:05.100Z`: '.' sorts before 'Z', so the earlier record is returned, and the next record links to it instead of to the last one, forking the chain | the hash of the record appended last, so that every new record links to its predecessor | high (not executed) | Stores.TimestampOrderForks | Stores.TransactionLog.LastHash |
