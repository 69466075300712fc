/**
 * In-memory stand-ins for the two SQLite tables the ledger writes: the expenses table
 * with its processed-request table, and the append-only transactions table. Each keeps
 * the table's constraints (primary keys, NOT NULL columns) as the conditions under
 * which a write is refused.
 */
module Stores {
  import opened Wrappers
  import opened JavaText
  import opened Collections
  import opened Expenses
  import opened Transactions

  /** SQLite's default comparison of two TEXT values: code point by code point, a
      proper prefix first. */
  predicate TextLe(a: string, b: string)
    decreases |a|
  {
    a == [] || (b != [] && (a[0] < b[0] || (a[0] == b[0] && TextLe(a[1..], b[1..]))))
  }

  lemma {:induction false} TextLeTotal(a: string, b: string)
    ensures TextLe(a, b) || TextLe(b, a)
    decreases |a|
  {
    if a != [] && b != [] && a[0] == b[0] {
      TextLeTotal(a[1..], b[1..]);
    }
  }

  lemma {:induction false} TextLeAntisymmetric(a: string, b: string)
    requires TextLe(a, b) && TextLe(b, a)
    ensures a == b
    decreases |a|
  {
    if a != [] {
      TextLeAntisymmetric(a[1..], b[1..]);
      assert a == [a[0]] + a[1..];
      assert b == [b[0]] + b[1..];
    }
  }

  lemma {:induction false} TextLeTransitive(a: string, b: string, c: string)
    requires TextLe(a, b) && TextLe(b, c)
    ensures TextLe(a, c)
    decreases |a|
  {
    if a != [] && a[0] == b[0] && b[0] == c[0] {
      TextLeTransitive(a[1..], b[1..], c[1..]);
    }
  }

  /** Text order after a common prefix is the order of what follows it. */
  lemma {:induction false} TextLeCommonPrefix(p: string, x: string, y: string)
    ensures TextLe(p + x, p + y) == TextLe(x, y)
    decreases |p|
  {
    if p != [] {
      assert (p + x)[0] == p[0] && (p + y)[0] == p[0];
      assert (p + x)[1..] == p[1..] + x;
      assert (p + y)[1..] == p[1..] + y;
      TextLeCommonPrefix(p[1..], x, y);
      assert TextLe(p + x, p + y) == TextLe(p[1..] + x, p[1..] + y);
    } else {
      assert p + x == x && p + y == y;
    }
  }

  /** `date_iso`: the display date parsed and printed as ISO; `toIso` is `None` where
      parsing throws (a null date throws too). */
  predicate HasIsoDate(toIso: string -> Option<string>, e: ExpenseRow)
  {
    e.date.Some? && toIso(e.date.value).Some?
  }

  /** The expenses table's constraints, which every stored row meets: the NOT NULL
      columns are set and no two rows share an id. (SQLite lets a TEXT primary key be
      NULL, and NULLs never clash.) */
  predicate TableValid(toIso: string -> Option<string>, rows: seq<ExpenseRow>)
  {
    (forall i :: 0 <= i < |rows| ==> rows[i].category.Some? && rows[i].currency.Some? && HasIsoDate(toIso, rows[i]))
    && (forall i, j :: 0 <= i < j < |rows| && rows[i].id.Some? ==> rows[i].id != rows[j].id)
  }

  /** Whether `insert` of an expense with these getter values succeeds. */
  predicate InsertAccepts(toIso: string -> Option<string>, rows: seq<ExpenseRow>, e: ExpenseRow)
  {
    HasIsoDate(toIso, e) && e.category.Some? && e.currency.Some?
    && (e.id.None? || forall i :: 0 <= i < |rows| ==> rows[i].id != e.id)
  }

  /** An accepted insert keeps the constraints. */
  lemma InsertKeepsValid(toIso: string -> Option<string>, rows: seq<ExpenseRow>, e: ExpenseRow)
    requires TableValid(toIso, rows) && InsertAccepts(toIso, rows, e)
    ensures TableValid(toIso, rows + [e])
  {
  }

  /** The expenses table (`ExpenseDAO`) and its processed-request table. Rows are kept
      in insertion order. */
  class ExpenseStore {
    var rows: seq<ExpenseRow>
    var processed: set<string>
    /** Parsing the display date `dd/MM/yyyy` and printing it as ISO `yyyy-MM-dd`. */
    const toIso: string -> Option<string>

    constructor(toIso: string -> Option<string>)
      ensures rows == [] && processed == {} && this.toIso == toIso
    {
      rows := [];
      processed := {};
      this.toIso := toIso;
    }

    /** `markProcessed(requestId)`: `INSERT OR IGNORE`; true iff a row was added. */
    method MarkProcessed(requestId: string) returns (firstTime: bool)
      modifies this`processed
      ensures firstTime <==> requestId !in old(processed)
      ensures processed == old(processed) + {requestId}
    {
      firstTime := requestId !in processed;
      processed := processed + {requestId};
    }

    /** `insert(e)`: false where the statement throws (the date does not parse, or a
        constraint is violated), and then nothing is stored. */
    method Insert(e: Expense) returns (ok: bool)
      modifies this`rows
      ensures ok <==> InsertAccepts(toIso, old(rows), e.Snapshot())
      ensures rows == if ok then old(rows) + [e.Snapshot()] else old(rows)
    {
      var row := e.Snapshot();
      if row.date.None? || toIso(row.date.value).None? {
        return false;
      }
      if row.category.None? || row.currency.None? {
        return false;
      }
      if row.id.Some? && exists i :: 0 <= i < |rows| && rows[i].id == row.id {
        return false;
      }
      rows := rows + [row];
      ok := true;
    }

    /** `findAll()`, in insertion order. */
    function FindAll(): (r: seq<ExpenseRow>)
      reads this
      ensures |r| == |rows| && forall i :: 0 <= i < |r| ==> r[i] == rows[i]
    {
      rows
    }

    /** `findByCategory(category)`: `WHERE category = ?`, which a null never satisfies. */
    function FindByCategory(category: NullableString): (r: seq<ExpenseRow>)
      reads this
      ensures category.None? ==> r == []
      ensures forall e :: e in r <==> e in rows && e.category == category && category.Some?
      ensures IsSubsequence(r, rows)
    {
      if category.None? then []
      else
        FilterIsSubsequence(rows, (e: ExpenseRow) => e.category == category);
        Filter(rows, (e: ExpenseRow) => e.category == category)
    }

    /** `findByDateRange(from, to)` with both bounds already printed as ISO dates:
        `date_iso BETWEEN from AND to`. */
    function FindByDateRange(fromIso: string, toIsoDate: string): (r: seq<ExpenseRow>)
      reads this
      ensures forall e :: e in r <==> (e in rows && HasIsoDate(toIso, e)
                                       && TextLe(fromIso, toIso(e.date.value).value)
                                       && TextLe(toIso(e.date.value).value, toIsoDate))
      ensures IsSubsequence(r, rows)
    {
      var inRange := (e: ExpenseRow) =>
        HasIsoDate(toIso, e)
        && TextLe(fromIso, toIso(e.date.value).value) && TextLe(toIso(e.date.value).value, toIsoDate);
      FilterIsSubsequence(rows, inRange);
      Filter(rows, inRange)
    }
  }

  /** The hash a new entry must link to: the last entry's `txHash`, or "" for an empty
      log. */
  function ChainHead(log: seq<Transaction>): string
  {
    if log == [] then "" else log[|log| - 1].txHash
  }

  /** Each entry's `prevHash` is its predecessor's `txHash`; the first entry's is "". */
  predicate ChainLinked(log: seq<Transaction>)
  {
    forall i :: 0 <= i < |log| ==> log[i].prevHash == ChainHead(log[..i])
  }

  /** Appending keeps the log linked exactly when the new entry links to the head. */
  lemma {:induction false} ChainLinkedAppend(log: seq<Transaction>, t: Transaction)
    ensures ChainLinked(log + [t]) <==> ChainLinked(log) && t.prevHash == ChainHead(log)
  {
    var l := log + [t];
    assert l[..|log|] == log;
    forall i | 0 <= i < |log|
      ensures l[i] == log[i] && l[..i] == log[..i]
    {
    }
  }

  /** Every entry's hash matches its fields. */
  predicate Sealed(h: Hasher, log: seq<Transaction>)
  {
    forall i :: 0 <= i < |log| ==> HashValid(h, log[i])
  }

  /** Some entry has this id. */
  predicate HasTxId(log: seq<Transaction>, id: string)
  {
    exists i :: 0 <= i < |log| && log[i].id == id
  }

  /** Whether `append(t)` succeeds: the id is new and `expense_id` is not NULL. */
  predicate AppendAccepts(log: seq<Transaction>, t: Transaction)
  {
    t.expenseId.Some? && !HasTxId(log, t.id)
  }

  /** The transactions table (`TransactionDAO`), in append order. */
  class TransactionLog {
    var entries: seq<Transaction>

    constructor()
      ensures entries == []
    {
      entries := [];
    }

    /** `append(t)`: false where the insert throws, and then nothing is stored. */
    method Append(t: Transaction) returns (ok: bool)
      modifies this
      ensures ok <==> AppendAccepts(old(entries), t)
      ensures entries == if ok then old(entries) + [t] else old(entries)
    {
      if t.expenseId.None? || HasTxId(entries, t.id) {
        return false;
      }
      entries := entries + [t];
      ok := true;
    }

    /** `lastHash()`, taken as the hash of the entry appended last. */
    function LastHash(): (r: string)
      reads this
      ensures entries == [] ==> r == ""
      ensures entries != [] ==> r == entries[|entries| - 1].txHash
    {
      ChainHead(entries)
    }

    /** `findAll()`, in append order. */
    function FindAll(): (r: seq<Transaction>)
      reads this
      ensures |r| == |entries| && forall i :: 0 <= i < |r| ==> r[i] == entries[i]
    {
      entries
    }
  }

  // ------------------------------------------------------ lastHash as queried

  /** The position `ORDER BY timestamp DESC LIMIT 1` picks: a greatest timestamp in text
      order; among equal timestamps the model takes the one appended last. */
  function LatestByText(log: seq<Transaction>): (k: nat)
    requires log != []
    ensures k < |log|
    ensures forall j :: 0 <= j < |log| ==> TextLe(log[j].timestamp, log[k].timestamp)
  {
    var n := |log|;
    if n == 1 then
      TextLeTotal(log[0].timestamp, log[0].timestamp);
      0
    else
      var k := LatestByText(log[..n - 1]);
      assert forall j :: 0 <= j < n - 1 ==> log[..n - 1][j] == log[j];
      var last := log[n - 1].timestamp;
      if TextLe(last, log[k].timestamp) && last != log[k].timestamp then k
      else
        TextLeTotal(last, log[k].timestamp);
        assert TextLe(log[k].timestamp, last);
        assert forall j :: 0 <= j < n ==> TextLe(log[j].timestamp, last) by {
          forall j | 0 <= j < n
            ensures TextLe(log[j].timestamp, last)
          {
            if j < n - 1 {
              TextLeTransitive(log[j].timestamp, log[k].timestamp, last);
            } else {
              TextLeTotal(last, last);
            }
          }
        }
        n - 1
  }

  /** `lastHash()` as its query is written: the hash of the entry with the greatest
      timestamp text, or "" for an empty table. */
  function LastHashByTimestamp(log: seq<Transaction>): (r: string)
    ensures log == [] ==> r == ""
    ensures log != [] ==> exists i :: (0 <= i < |log| && r == log[i].txHash
                                       && forall j :: 0 <= j < |log| ==> TextLe(log[j].timestamp, log[i].timestamp))
  {
    if log == [] then "" else log[LatestByText(log)].txHash
  }

  /** `Instant.toString()` leaves out a zero fraction of a second, and '.' sorts before
      'Z'. So an entry stamped at a whole second and a later one stamped a fraction of
      a second after it compare the wrong way round. The query then names the earlier
      entry as the head, and a record linked to it breaks the chain. */
  lemma TimestampOrderForks(second: string, a: Transaction, b: Transaction, c: Transaction)
    requires a.timestamp == second + "Z" && b.timestamp == second + ".100Z"
    requires a.txHash != b.txHash
    requires c.prevHash == LastHashByTimestamp([a, b])
    ensures LastHashByTimestamp([a, b]) == a.txHash
    ensures ChainHead([a, b]) == b.txHash
    ensures !ChainLinked([a, b, c])
  {
    TextLeCommonPrefix(second, ".100Z", "Z");
    TextLeCommonPrefix(second, "Z", ".100Z");
    assert TextLe(".100Z", "Z");
    assert !TextLe("Z", ".100Z");
    var log := [a, b, c];
    assert log[..2] == [a, b];
  }
}
