/**
 * `LedgerService`: records expenses with an idempotency check and a hash-chained
 * audit log, answers the list queries, and groups amounts by category and currency.
 */
module Ledger {
  import opened Wrappers
  import opened JavaText
  import opened Collections
  import opened Expenses
  import opened Transactions
  import opened Stores

  /** The exceptions `recordExpense` lets escape. */
  datatype LedgerError =
    | DuplicateRequest(message: string)  // IllegalStateException
    | InsertFailed                       // RuntimeException from ExpenseDAO.insert
    | AppendFailed                       // RuntimeException from TransactionDAO.append

  /** The arguments of one `recordExpense` call, with the two random UUIDs and
      `Instant.now()` it draws. */
  datatype Request = Request(
    category: NullableString,
    currency: NullableString,
    amount: real,
    description: NullableString,
    dateDisplay: NullableString,
    requestId: NullableString,
    expenseId: string,
    txId: string,
    timestamp: string)

  /** The getter values of the expense the request creates. */
  function NewRow(q: Request): ExpenseRow
  {
    ExpenseRow(Some(q.expenseId), q.category, q.currency, q.amount, q.description, q.dateDisplay)
  }

  /** The message of the `IllegalStateException` for a repeated request id. */
  function DuplicateMessage(requestId: string): string
  {
    "Duplicate request: " + requestId
  }

  /** Whether the request id takes part in the idempotency check. */
  predicate Checked(q: Request)
  {
    q.requestId.Some? && !IsBlank(q.requestId.value)
  }

  /** The request id was seen before. */
  predicate Duplicate(s: LedgerState, q: Request)
  {
    Checked(q) && q.requestId.value in s.processed
  }

  /** What the ledger's stores hold. */
  datatype LedgerState = LedgerState(processed: set<string>, rows: seq<ExpenseRow>, log: seq<Transaction>)

  /** The stores' constraints hold, and the log is linked and sealed. */
  predicate StateValid(toIso: string -> Option<string>, h: Hasher, s: LedgerState)
  {
    TableValid(toIso, s.rows) && ChainLinked(s.log) && Sealed(h, s.log)
  }

  /** How a `recordExpense` call ends: it returns the new expense, or throws. */
  datatype Outcome = Recorded(row: ExpenseRow) | Failed(error: LedgerError)

  /** The new state and outcome of one `recordExpense` call: the test-and-set, then
      the insert, the read of the chain head, the sealed CREATE record, and the append.
      A step that fails stops the call and the steps before it stay done. */
  function Record(toIso: string -> Option<string>, h: Hasher, s: LedgerState, q: Request): (Outcome, LedgerState)
  {
    if Duplicate(s, q) then (Failed(DuplicateRequest(DuplicateMessage(q.requestId.value))), s)
    else InsertAndLog(toIso, h, s.(processed := if Checked(q) then s.processed + {q.requestId.value} else s.processed), q)
  }

  /** The steps of `recordExpense` after the idempotency check. */
  function InsertAndLog(toIso: string -> Option<string>, h: Hasher, s: LedgerState, q: Request): (Outcome, LedgerState)
  {
    var row := NewRow(q);
    if !InsertAccepts(toIso, s.rows, row) then (Failed(InsertFailed), s)
    else
      var t := Seal(h, Draft(CREATE, row, Some(ChainHead(s.log)), q.txId, q.timestamp));
      if !AppendAccepts(s.log, t) then (Failed(AppendFailed), s.(rows := s.rows + [row]))
      else (Recorded(row), s.(rows := s.rows + [row], log := s.log + [t]))
  }

  /** `t` is a sealed CREATE record of `row`. */
  predicate Records(h: Hasher, t: Transaction, row: ExpenseRow)
  {
    t.action == CREATE && t.expenseId == row.id && t.category == row.category
    && t.currency == row.currency && t.amount == row.amount && t.date == row.date
    && t.description == row.description && HashValid(h, t)
  }

  /** A request id seen before makes the call throw and changes nothing. */
  lemma RecordDuplicate(toIso: string -> Option<string>, h: Hasher, s: LedgerState, q: Request)
    requires Duplicate(s, q)
    ensures Record(toIso, h, s, q) == (Failed(DuplicateRequest(DuplicateMessage(q.requestId.value))), s)
  {
  }

  /** A null or blank request id skips the check and leaves the processed ids alone;
      any other id is processed afterwards, whatever else happens. */
  lemma RecordMarks(toIso: string -> Option<string>, h: Hasher, s: LedgerState, q: Request)
    ensures !Checked(q) ==> Record(toIso, h, s, q).1.processed == s.processed
    ensures Checked(q) ==> Record(toIso, h, s, q).1.processed == s.processed + {q.requestId.value}
  {
  }

  /** A refused insert stores nothing, though the request id stays processed. */
  lemma RecordInsertFails(toIso: string -> Option<string>, h: Hasher, s: LedgerState, q: Request)
    ensures var (out, s') := Record(toIso, h, s, q);
      out == Failed(InsertFailed) <==> !Duplicate(s, q) && !InsertAccepts(toIso, s.rows, NewRow(q))
    ensures var (out, s') := Record(toIso, h, s, q);
      out == Failed(InsertFailed) ==> s'.rows == s.rows && s'.log == s.log
  {
  }

  /** A refused append keeps the inserted expense and adds no record. */
  lemma RecordAppendFails(toIso: string -> Option<string>, h: Hasher, s: LedgerState, q: Request)
    ensures var (out, s') := Record(toIso, h, s, q);
      out == Failed(AppendFailed) <==>
        !Duplicate(s, q) && InsertAccepts(toIso, s.rows, NewRow(q)) && HasTxId(s.log, q.txId)
    ensures var (out, s') := Record(toIso, h, s, q);
      out == Failed(AppendFailed) ==> s'.rows == s.rows + [NewRow(q)] && s'.log == s.log
  {
  }

  /** On success exactly one expense, carrying the supplied values, and exactly one
      sealed CREATE record of it, linked to the previous head, are added. */
  lemma RecordSucceeds(toIso: string -> Option<string>, h: Hasher, s: LedgerState, q: Request)
    ensures var (out, s') := Record(toIso, h, s, q);
      out.Recorded? <==> !Duplicate(s, q) && InsertAccepts(toIso, s.rows, NewRow(q)) && !HasTxId(s.log, q.txId)
    ensures var (out, s') := Record(toIso, h, s, q);
      out.Recorded? ==>
        out.row == NewRow(q) && s'.rows == s.rows + [out.row]
        && |s'.log| == |s.log| + 1 && s'.log[..|s.log|] == s.log
        && var t := s'.log[|s.log|];
           t.id == q.txId && t.timestamp == q.timestamp && Records(h, t, out.row)
           && t.prevHash == ChainHead(s.log)
  {
    var (out, s') := Record(toIso, h, s, q);
    if out.Recorded? {
      assert s'.log[..|s.log|] == s.log;
    }
  }

  /** Every call keeps the stores' constraints, the chain links and the seals. */
  lemma {:induction false} RecordKeepsValid(toIso: string -> Option<string>, h: Hasher, s: LedgerState, q: Request)
    requires StateValid(toIso, h, s)
    ensures StateValid(toIso, h, Record(toIso, h, s, q).1)
  {
    if !Duplicate(s, q) && InsertAccepts(toIso, s.rows, NewRow(q)) {
      InsertKeepsValid(toIso, s.rows, NewRow(q));
      var t := Seal(h, Draft(CREATE, NewRow(q), Some(ChainHead(s.log)), q.txId, q.timestamp));
      ChainLinkedAppend(s.log, t);
      assert Sealed(h, s.log + [t]) by {
        forall i | 0 <= i < |s.log| + 1
          ensures HashValid(h, (s.log + [t])[i])
        {
          if i < |s.log| {
            assert (s.log + [t])[i] == s.log[i];
          }
        }
      }
    }
  }

  class LedgerService {
    const dao: ExpenseStore
    /** The transactions table; `new TransactionDAO()` opens the same database, so the
        log it sees is whatever that database already holds. */
    const txDao: TransactionLog
    const hasher: Hasher

    /** The stores' contents. */
    function State(): LedgerState
      reads this, dao, txDao
    {
      LedgerState(dao.processed, dao.rows, txDao.entries)
    }

    predicate Valid()
      reads this, dao, txDao
    {
      StateValid(dao.toIso, hasher, State())
    }

    constructor(dao: ExpenseStore, txDao: TransactionLog, hasher: Hasher)
      ensures this.dao == dao && this.txDao == txDao && this.hasher == hasher
    {
      this.dao := dao;
      this.txDao := txDao;
      this.hasher := hasher;
    }

    /** `recordExpense(category, currency, amount, description, dateDisplay, requestId)`;
        the two random UUIDs and `Instant.now()` are the parameters `expenseId`, `txId`
        and `timestamp`. */
    method RecordExpense(category: NullableString, currency: NullableString, amount: real,
                         description: NullableString, dateDisplay: NullableString,
                         requestId: NullableString, expenseId: string, txId: string, timestamp: string)
      returns (r: Result<Expense, LedgerError>)
      modifies dao, txDao
      ensures old(Valid()) ==> Valid()
      ensures var (out, s') := Record(dao.toIso, hasher, old(State()),
                Request(category, currency, amount, description, dateDisplay, requestId, expenseId, txId, timestamp));
        State() == s'
        && (r.Ok? <==> out.Recorded?)
        && (r.Ok? ==> fresh(r.value) && r.value.Snapshot() == out.row)
        && (r.Err? ==> out == Failed(r.error))
    {
      var q := Request(category, currency, amount, description, dateDisplay, requestId, expenseId, txId, timestamp);
      if Valid() {
        RecordKeepsValid(dao.toIso, hasher, State(), q);
      }
      if requestId.Some? && !IsBlank(requestId.value) {
        var firstTime := dao.MarkProcessed(requestId.value);
        if !firstTime {
          return Err(DuplicateRequest(DuplicateMessage(requestId.value)));
        }
      }
      r := InsertAndLogStep(q);
    }

    /** The insert, the read of the chain head and the append. */
    method InsertAndLogStep(q: Request) returns (r: Result<Expense, LedgerError>)
      modifies dao, txDao
      ensures var (out, s') := InsertAndLog(dao.toIso, hasher, old(State()), q);
        State() == s'
        && (r.Ok? <==> out.Recorded?)
        && (r.Ok? ==> fresh(r.value) && r.value.Snapshot() == out.row)
        && (r.Err? ==> out == Failed(r.error))
    {
      var e := new Expense.Create(q.category, q.currency, q.amount, q.description, q.dateDisplay, q.expenseId);
      var inserted := dao.Insert(e);
      if !inserted {
        return Err(InsertFailed);
      }
      var prev := txDao.LastHash();
      var t := NewTransaction(hasher, CREATE, e, Some(prev), q.txId, q.timestamp);
      var appended := txDao.Append(t);
      if !appended {
        return Err(AppendFailed);
      }
      r := Ok(e);
    }

    /** `listAll()`: every stored expense, in the store's order. */
    function ListAll(): (r: seq<ExpenseRow>)
      reads this, dao
      ensures r == dao.rows
    {
      dao.FindAll()
    }

    /** `listByCategory(category)`: exactly the stored expenses of that (exactly
        spelled) category; none for null. */
    function ListByCategory(category: NullableString): (r: seq<ExpenseRow>)
      reads this, dao
      ensures category.None? ==> r == []
      ensures category.Some? ==> forall e :: e in r <==> e in dao.rows && e.category == category
    {
      dao.FindByCategory(category)
    }

    /** `listByDateRange(from, to)`: exactly the stored expenses whose ISO date lies
        between the two bounds, both included. */
    function ListByDateRange(fromIso: string, toIso: string): (r: seq<ExpenseRow>)
      reads this, dao
      ensures forall e :: e in r <==>
        e in dao.rows && HasIsoDate(dao.toIso, e)
        && TextLe(fromIso, dao.toIso(e.date.value).value) && TextLe(dao.toIso(e.date.value).value, toIso)
    {
      dao.FindByDateRange(fromIso, toIso)
    }

    /** `transactions()`: the audit log in append order. */
    function Transactions(): (r: seq<Transaction>)
      reads this, txDao
      ensures r == txDao.entries
    {
      txDao.FindAll()
    }

    /** `count()`. */
    function Count(): (r: nat)
      reads this, dao
      ensures r == |ListAll()|
    {
      |dao.FindAll()|
    }

    /** `categoryBreakdownByCurrency()`: the `computeIfAbsent`/`merge` loop. */
    method CategoryBreakdownByCurrency() returns (out: LinkedMap<NullableString, LinkedMap<NullableString, real>>)
      ensures out == Breakdown(ListAll())
    {
      var all := dao.FindAll();
      out := EmptyMap();
      for i := 0 to |all|
        invariant out == Breakdown(all[..i])
      {
        assert all[..i + 1][..i] == all[..i];
        var e := all[i];
        var inner := Get(out, e.category).GetOr(EmptyMap());
        out := Put(out, e.category, MergeAdd(inner, e.currency, e.amount));
      }
      assert all[..|all|] == all;
    }
  }

  /** Listing by category keeps the store's order. */
  lemma ListByCategoryInOrder(ledger: LedgerService, category: NullableString)
    ensures IsSubsequence(ledger.ListByCategory(category), ledger.ListAll())
  {
    if category.Some? {
      FilterIsSubsequence(ledger.dao.rows, (e: ExpenseRow) => e.category == category);
    }
  }

  // ------------------------------------------------------------ breakdown

  /** The category of each expense, in order. */
  function CategoryList(rows: seq<ExpenseRow>): (r: seq<NullableString>)
    ensures |r| == |rows|
  {
    if rows == [] then [] else CategoryList(rows[..|rows| - 1]) + [rows[|rows| - 1].category]
  }

  /** The (currency, amount) pairs of the expenses, in order. */
  function CurrencyAmounts(rows: seq<ExpenseRow>): seq<(NullableString, real)>
  {
    if rows == [] then [] else CurrencyAmounts(rows[..|rows| - 1]) + [(rows[|rows| - 1].currency, rows[|rows| - 1].amount)]
  }

  /** The expenses of one category, in order. */
  function InCategory(rows: seq<ExpenseRow>, c: NullableString): seq<ExpenseRow>
  {
    Filter(rows, (e: ExpenseRow) => e.category == c)
  }

  /** The nested map the breakdown loop builds over `rows`. */
  function Breakdown(rows: seq<ExpenseRow>): LinkedMap<NullableString, LinkedMap<NullableString, real>>
  {
    if rows == [] then EmptyMap()
    else
      var b := Breakdown(rows[..|rows| - 1]);
      var e := rows[|rows| - 1];
      Put(b, e.category, MergeAdd(Get(b, e.category).GetOr(EmptyMap()), e.currency, e.amount))
  }

  /** Every category is listed once in the outer map. */
  lemma {:induction false} BreakdownValid(rows: seq<ExpenseRow>)
    ensures Valid(Breakdown(rows))
  {
    if rows != [] {
      var p := rows[..|rows| - 1];
      var e := rows[|rows| - 1];
      var b := Breakdown(p);
      BreakdownValid(p);
      var inner := MergeAdd(Get(b, e.category).GetOr(EmptyMap()), e.currency, e.amount);
      assert Breakdown(rows) == Put(b, e.category, inner);
      PutValid(b, e.category, inner);
    }
  }

  /** A category has an entry exactly when some expense has it. */
  lemma {:induction false} BreakdownDomain(rows: seq<ExpenseRow>, c: NullableString)
    ensures c in Breakdown(rows).values <==> c in CategoryList(rows)
  {
    if rows != [] {
      var p := rows[..|rows| - 1];
      var e := rows[|rows| - 1];
      var b := Breakdown(p);
      BreakdownDomain(p, c);
      var inner := MergeAdd(Get(b, e.category).GetOr(EmptyMap()), e.currency, e.amount);
      assert Breakdown(rows) == Put(b, e.category, inner);
      assert c in Put(b, e.category, inner).values <==> c in b.values || c == e.category;
      assert CategoryList(rows) == CategoryList(p) + [e.category];
    }
  }

  /** The categories appear in the order of their first expense, once each. */
  lemma {:induction false} BreakdownKeys(rows: seq<ExpenseRow>)
    ensures Breakdown(rows).keys == Distinct(CategoryList(rows))
  {
    if rows != [] {
      var p := rows[..|rows| - 1];
      var e := rows[|rows| - 1];
      var b := Breakdown(p);
      BreakdownKeys(p);
      BreakdownDomain(p, e.category);
      var inner := MergeAdd(Get(b, e.category).GetOr(EmptyMap()), e.currency, e.amount);
      assert Breakdown(rows).keys == if e.category in b.values then b.keys else b.keys + [e.category];
      assert CategoryList(rows)[..|rows| - 1] == CategoryList(p);
      assert CategoryList(rows)[|rows| - 1] == e.category;
    }
  }

  lemma {:induction false} InCategoryAbsent(rows: seq<ExpenseRow>, c: NullableString)
    requires c !in CategoryList(rows)
    ensures InCategory(rows, c) == []
  {
    if rows != [] {
      var p := rows[..|rows| - 1];
      var e := rows[|rows| - 1];
      assert CategoryList(rows) == CategoryList(p) + [e.category];
      InCategoryAbsent(p, c);
      assert rows == p + [e];
      FilterAppend(p, [e], (x: ExpenseRow) => x.category == c);
    }
  }

  lemma {:induction false} InCategoryLast(rows: seq<ExpenseRow>, c: NullableString)
    requires rows != []
    ensures var e := rows[|rows| - 1];
      CurrencyAmounts(InCategory(rows, c)) ==
        CurrencyAmounts(InCategory(rows[..|rows| - 1], c)) + (if e.category == c then [(e.currency, e.amount)] else [])
  {
    var p := rows[..|rows| - 1];
    var e := rows[|rows| - 1];
    var q := InCategory(p, c);
    assert InCategory(rows, c) == q + (if e.category == c then [e] else []) by {
      assert rows == p + [e];
      FilterAppend(p, [e], (x: ExpenseRow) => x.category == c);
    }
    if e.category == c {
      assert (q + [e])[..|q|] == q;
    } else {
      assert q + [] == q;
    }
  }

  lemma GroupSumSnoc(pairs: seq<(NullableString, real)>, k: NullableString, v: real)
    ensures GroupSum(pairs + [(k, v)]) == MergeAdd(GroupSum(pairs), k, v)
  {
    assert (pairs + [(k, v)])[..|pairs|] == pairs;
  }

  /** Each category maps to the currency-to-total map of its own expenses, raw
      amounts summed with no conversion. */
  lemma {:induction false} BreakdownGet(rows: seq<ExpenseRow>, c: NullableString)
    ensures Get(Breakdown(rows), c) ==
      if c in CategoryList(rows) then Some(GroupSum(CurrencyAmounts(InCategory(rows, c)))) else None
  {
    if rows != [] {
      var p := rows[..|rows| - 1];
      var e := rows[|rows| - 1];
      var b := Breakdown(p);
      var pairs := CurrencyAmounts(InCategory(p, c));
      assert CategoryList(rows) == CategoryList(p) + [e.category];
      BreakdownGet(p, c);
      InCategoryLast(rows, c);
      var inner := MergeAdd(Get(b, e.category).GetOr(EmptyMap()), e.currency, e.amount);
      assert Breakdown(rows) == Put(b, e.category, inner);
      if e.category == c {
        if c !in CategoryList(p) {
          InCategoryAbsent(p, c);
        }
        assert Get(b, c).GetOr(EmptyMap()) == GroupSum(pairs);
        GroupSumSnoc(pairs, e.currency, e.amount);
      } else {
        assert Get(Breakdown(rows), c) == Get(b, c);
        assert c in CategoryList(rows) <==> c in CategoryList(p);
        assert pairs + [] == pairs;
      }
    }
  }

  // ------------------------------------------------------------ scenario

  /** The request of the ledger's idempotency test, and its retry with fresh UUIDs and
      clock reading. */
  const PizzaRequest := Request(Some("Food"), Some("USD"), 10.0, Some("Pizza"), Some("01/09/2025"),
                                Some("req-xyz"), "e1", "t1", "ts1")
  const PizzaRetry := PizzaRequest.(expenseId := "e2", txId := "t2", timestamp := "ts2")

  /** Recording the same request twice into empty stores: the first call succeeds,
      the second throws as a duplicate and changes nothing, and one expense is stored. */
  lemma {:induction false} DuplicateRequestKeepsCount(toIso: string -> Option<string>, h: Hasher)
    requires toIso("01/09/2025").Some?
    ensures Record(toIso, h, LedgerState({}, [], []), PizzaRequest).0.Recorded?
    ensures var s1 := Record(toIso, h, LedgerState({}, [], []), PizzaRequest).1;
      Record(toIso, h, s1, PizzaRetry) == (Failed(DuplicateRequest(DuplicateMessage("req-xyz"))), s1)
      && |s1.rows| == 1
  {
    var s0 := LedgerState({}, [], []);
    var q1 := PizzaRequest;
    var q2 := PizzaRetry;
    assert !IsJavaWhitespace("req-xyz"[0]);
    assert Checked(q1) && Checked(q2) && !Duplicate(s0, q1);
    assert InsertAccepts(toIso, s0.rows, NewRow(q1)) && !HasTxId(s0.log, q1.txId);
    RecordSucceeds(toIso, h, s0, q1);
    RecordMarks(toIso, h, s0, q1);
    var s1 := Record(toIso, h, s0, q1).1;
    assert Duplicate(s1, q2);
    RecordDuplicate(toIso, h, s1, q2);
  }
}
