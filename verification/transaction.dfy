/**
 * The ledger's `Transaction` record: a snapshot of an expense, linked to the previous
 * record by `prevHash` and sealed by `txHash`, the lower-case hexadecimal SHA-256 of a
 * fixed-order payload. SHA-256 itself and `Double.toString` are parameters.
 */
module Transactions {
  import opened Wrappers
  import opened JavaText
  import opened Expenses

  // ------------------------------------------------------------ hex encoding

  /** A Java `byte`. */
  type JByte = b: int | -128 <= b < 128

  /** The byte read as unsigned, as `%02x` prints it. */
  function Unsigned(b: JByte): (r: nat)
    ensures r < 256
    ensures r % 256 == b % 256
  {
    if b < 0 then b + 256 else b
  }

  /** The byte whose unsigned reading is `u`. */
  function Signed(u: nat): (r: JByte)
    requires u < 256
    ensures Unsigned(r) == u
  {
    if u < 128 then u else u - 256
  }

  predicate IsLowerHexDigit(c: char)
  {
    '0' <= c <= '9' || 'a' <= c <= 'f'
  }

  function HexDigit(d: nat): (r: char)
    requires d < 16
    ensures IsLowerHexDigit(r)
  {
    if d < 10 then ('0' as int + d) as char else ('a' as int + d - 10) as char
  }

  /** The value of a lower-case hexadecimal digit; other characters read as 0. */
  function DigitValue(c: char): (r: nat)
    ensures r < 16
  {
    if '0' <= c <= '9' then c as int - '0' as int
    else if 'a' <= c <= 'f' then c as int - 'a' as int + 10
    else 0
  }

  lemma DigitValueOfHexDigit(d: nat)
    requires d < 16
    ensures DigitValue(HexDigit(d)) == d
  {
  }

  /** `String.format("%02x", b)`. */
  function HexByte(b: JByte): (r: string)
    ensures |r| == 2 && IsLowerHexDigit(r[0]) && IsLowerHexDigit(r[1])
  {
    [HexDigit(Unsigned(b) / 16), HexDigit(Unsigned(b) % 16)]
  }

  /** The text `sha256Hex` builds from digest bytes: two digits per byte, in order. */
  function HexOf(dig: seq<JByte>): (r: string)
    ensures |r| == 2 * |dig|
  {
    if dig == [] then "" else HexOf(dig[..|dig| - 1]) + HexByte(dig[|dig| - 1])
  }

  /** Reading the text back, two digits at a time. */
  function HexDecode(s: string): (r: seq<JByte>)
    requires |s| % 2 == 0
    ensures |r| == |s| / 2
  {
    if s == [] then []
    else
      var n := |s|;
      HexDecode(s[..n - 2]) + [Signed(DigitValue(s[n - 2]) * 16 + DigitValue(s[n - 1]))]
  }

  /** The encoding loses nothing: decoding gives back the digest bytes. */
  lemma {:induction false} HexDecodeOf(dig: seq<JByte>)
    ensures HexDecode(HexOf(dig)) == dig
  {
    if dig != [] {
      var p := dig[..|dig| - 1];
      var b := dig[|dig| - 1];
      var s := HexOf(dig);
      var u := Unsigned(b);
      assert s == HexOf(p) + HexByte(b);
      assert s[..|s| - 2] == HexOf(p);
      DigitValueOfHexDigit(u / 16);
      DigitValueOfHexDigit(u % 16);
      HexDecodeOf(p);
      assert dig == p + [b];
    }
  }

  /** Different digests give different texts. */
  lemma HexOfInjective(a: seq<JByte>, b: seq<JByte>)
    requires HexOf(a) == HexOf(b)
    ensures a == b
  {
    HexDecodeOf(a);
    HexDecodeOf(b);
  }

  /** Every character is a lower-case hexadecimal digit. */
  lemma {:induction false} HexOfIsLowerHex(dig: seq<JByte>)
    ensures forall i :: 0 <= i < |HexOf(dig)| ==> IsLowerHexDigit(HexOf(dig)[i])
  {
    if dig != [] {
      var p := dig[..|dig| - 1];
      HexOfIsLowerHex(p);
      var s := HexOf(dig);
      var hb := HexByte(dig[|dig| - 1]);
      assert s == HexOf(p) + hb;
      forall i | 0 <= i < |s|
        ensures IsLowerHexDigit(s[i])
      {
        if i < |HexOf(p)| {
          assert s[i] == HexOf(p)[i];
        } else {
          assert s[i] == hb[i - |HexOf(p)|];
        }
      }
    }
  }

  /** `sha256Hex(s)`: the `StringBuilder` loop over the digest of `s`. */
  method Sha256Hex(digest: string -> seq<JByte>, s: string) returns (hex: string)
    ensures hex == HexOf(digest(s))
  {
    var dig := digest(s);
    var sb := "";
    for i := 0 to |dig|
      invariant sb == HexOf(dig[..i])
    {
      assert dig[..i + 1][..i] == dig[..i];
      sb := sb + HexByte(dig[i]);
    }
    assert dig[..|dig|] == dig;
    hex := sb;
  }

  // ------------------------------------------------------------ transactions

  datatype Action = CREATE | UPDATE | DELETE

  /** The enum constant's `toString()`, its name. */
  function ActionName(a: Action): string
  {
    match a
    case CREATE => "CREATE"
    case UPDATE => "UPDATE"
    case DELETE => "DELETE"
  }

  /** A `Transaction`'s final fields. `prevHash` is never null. */
  datatype Transaction = Transaction(
    id: string,
    action: Action,
    expenseId: NullableString,
    category: NullableString,
    currency: NullableString,
    amount: real,
    date: NullableString,
    description: NullableString,
    timestamp: string,
    prevHash: string,
    txHash: string)

  /** The foreign primitives hashing relies on: the SHA-256 digest of a string's UTF-8
      bytes, and `Double.toString`. */
  datatype Hasher = Hasher(digest: string -> seq<JByte>, showDouble: real -> string)

  /** Everything the payload says before the previous hash: each field's label, with
      the `|` that separates it from the field before, followed by its value. */
  function PayloadHead(show: real -> string, t: Transaction): string
  {
    Joined(HeadFields(show, t))
  }

  function HeadFields(show: real -> string, t: Transaction): seq<(string, string)>
  {
    [("id=", t.id), ("|ts=", t.timestamp), ("|action=", ActionName(t.action)),
     ("|expenseId=", ValueOf(t.expenseId)), ("|category=", NullSafe(t.category)),
     ("|currency=", NullSafe(t.currency)), ("|amount=", show(t.amount)),
     ("|date=", NullSafe(t.date)), ("|desc=", NullSafe(t.description))]
  }

  /** The labelled values, concatenated in order. */
  function Joined(fields: seq<(string, string)>): string
  {
    if fields == [] then ""
    else Joined(fields[..|fields| - 1]) + fields[|fields| - 1].0 + fields[|fields| - 1].1
  }

  /** The string `computeHash` digests; `txHash` is not part of it. */
  function Payload(show: real -> string, t: Transaction): string
  {
    PayloadHead(show, t) + "|prev=" + t.prevHash
  }

  /** `computeHash()`. */
  function ComputeHash(h: Hasher, t: Transaction): string
  {
    HexOf(h.digest(Payload(h.showDouble, t)))
  }

  /** Recomputing the hash from the stored fields reproduces the stored hash. */
  predicate HashValid(h: Hasher, t: Transaction)
  {
    t.txHash == ComputeHash(h, t)
  }

  /** The fields the constructor sets before hashing: a snapshot of the expense `row`
      taken as it is, and a null previous hash already replaced by "". */
  function Draft(action: Action, row: ExpenseRow, prevHash: NullableString, id: string, timestamp: string): Transaction
  {
    Transaction(id, action, row.id, row.category, row.currency, row.amount, row.date,
                row.description, timestamp, NullSafe(prevHash), "")
  }

  /** Setting `txHash` to `computeHash()`: the result is valid and differs from `t` in
      its hash only. */
  function Seal(h: Hasher, t: Transaction): (r: Transaction)
    ensures HashValid(h, r)
    ensures r.(txHash := t.txHash) == t
  {
    t.(txHash := ComputeHash(h, t))
  }

  /** `new Transaction(action, expense, prevHash)`; the random UUID and `Instant.now()`
      are the parameters `id` and `timestamp`. */
  method NewTransaction(h: Hasher, action: Action, e: Expense, prevHash: NullableString,
                        id: string, timestamp: string) returns (t: Transaction)
    ensures t == Seal(h, Draft(action, e.Snapshot(), prevHash, id, timestamp))
  {
    var unsealed := Draft(action, e.Snapshot(), prevHash, id, timestamp);
    var hash := Sha256Hex(h.digest, Payload(h.showDouble, unsealed));
    t := unsealed.(txHash := hash);
  }

  /** The payload spelled out: ten `key=value` fields, separated by `|`, in the order
      id, ts, action, expenseId, category, currency, amount, date, desc, prev. */
  lemma PayloadLayout(show: real -> string, t: Transaction)
    ensures Payload(show, t)
      == "id=" + t.id + "|ts=" + t.timestamp + "|action=" + ActionName(t.action)
         + "|expenseId=" + ValueOf(t.expenseId) + "|category=" + NullSafe(t.category)
         + "|currency=" + NullSafe(t.currency) + "|amount=" + show(t.amount)
         + "|date=" + NullSafe(t.date) + "|desc=" + NullSafe(t.description)
         + "|prev=" + t.prevHash
  {
    var f := HeadFields(show, t);
    assert Joined(f[..1]) == "id=" + t.id by { assert f[..1][..0] == []; }
    assert Joined(f[..2]) == Joined(f[..1]) + "|ts=" + t.timestamp by { assert f[..2][..1] == f[..1]; }
    assert Joined(f[..3]) == Joined(f[..2]) + "|action=" + ActionName(t.action) by { assert f[..3][..2] == f[..2]; }
    assert Joined(f[..4]) == Joined(f[..3]) + "|expenseId=" + ValueOf(t.expenseId) by { assert f[..4][..3] == f[..3]; }
    assert Joined(f[..5]) == Joined(f[..4]) + "|category=" + NullSafe(t.category) by { assert f[..5][..4] == f[..4]; }
    assert Joined(f[..6]) == Joined(f[..5]) + "|currency=" + NullSafe(t.currency) by { assert f[..6][..5] == f[..5]; }
    assert Joined(f[..7]) == Joined(f[..6]) + "|amount=" + show(t.amount) by { assert f[..7][..6] == f[..6]; }
    assert Joined(f[..8]) == Joined(f[..7]) + "|date=" + NullSafe(t.date) by { assert f[..8][..7] == f[..7]; }
    assert Joined(f) == Joined(f[..8]) + "|desc=" + NullSafe(t.description) by { assert f[..|f| - 1] == f[..8]; }
  }

  /** A null category, currency, date or description hashes like the empty string; a
      null expense id hashes like the text "null". */
  lemma PayloadOfNulls(show: real -> string, t: Transaction)
    ensures Payload(show, t.(category := None)) == Payload(show, t.(category := Some("")))
    ensures Payload(show, t.(currency := None)) == Payload(show, t.(currency := Some("")))
    ensures Payload(show, t.(date := None)) == Payload(show, t.(date := Some("")))
    ensures Payload(show, t.(description := None)) == Payload(show, t.(description := Some("")))
    ensures Payload(show, t.(expenseId := None)) == Payload(show, t.(expenseId := Some("null")))
  {
  }

  /** The payload ends with the previous hash, so it determines it. */
  lemma PayloadBindsPrev(show: real -> string, t: Transaction, prev: string)
    requires Payload(show, t.(prevHash := prev)) == Payload(show, t)
    ensures prev == t.prevHash
  {
    var head := PayloadHead(show, t) + "|prev=";
    assert PayloadHead(show, t.(prevHash := prev)) == PayloadHead(show, t);
    assert Payload(show, t.(prevHash := prev)) == head + prev;
    assert Payload(show, t) == head + t.prevHash;
    assert prev == (head + prev)[|head|..];
    assert t.prevHash == (head + t.prevHash)[|head|..];
  }

  /** A sealed transaction cannot be re-linked to a different predecessor while keeping
      its hash, unless the two payloads collide under the digest. */
  lemma SealBindsPrev(h: Hasher, t: Transaction, prev: string)
    requires HashValid(h, t) && HashValid(h, t.(prevHash := prev))
    ensures prev == t.prevHash
         || (Payload(h.showDouble, t.(prevHash := prev)) != Payload(h.showDouble, t)
             && h.digest(Payload(h.showDouble, t.(prevHash := prev))) == h.digest(Payload(h.showDouble, t)))
  {
    var u := t.(prevHash := prev);
    HexOfInjective(h.digest(Payload(h.showDouble, u)), h.digest(Payload(h.showDouble, t)));
    if Payload(h.showDouble, u) == Payload(h.showDouble, t) {
      PayloadBindsPrev(h.showDouble, t, prev);
    }
  }
}
