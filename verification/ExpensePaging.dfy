/** Keyset paging of a year's expenses: app/expense_ledger.py (fetch_expense_rows, fetch_expense_page) and
    app/api_expenses.py (list_expenses). */
module ExpensePaging {
  import opened Common
  import opened Bytes
  import opened Cursor

  type AccountId = nat
  type VehicleId = nat

  /** A row of the table, with its date as days since the Unix epoch. */
  datatype Row = Row(account: AccountId, vehicle: VehicleId, day: int, id: int)

  datatype Key = Key(day: int, id: int)

  function KeyOf(r: Row): Key {
    Key(r.day, r.id)
  }

  /** The row comparison of SQL. */
  predicate Less(a: Key, b: Key) {
    a.day < b.day || (a.day == b.day && a.id < b.id)
  }

  // -------- the query --------

  /** The clauses and parameters that fetch_expense_rows collects. */
  datatype Query = Query(account: AccountId, start: int, end: int, vehicle: Option<VehicleId>, after: Option<Key>)

  predicate Matches(q: Query, r: Row) {
    && r.account == q.account && q.start <= r.day < q.end
    && (q.vehicle.Some? ==> r.vehicle == q.vehicle.value)
    && (q.after.Some? ==> Less(KeyOf(r), q.after.value))
  }

  datatype Clause =
    | OfAccount(account: AccountId) | FromDay(day: int) | BeforeDay(day: int)
    | OfVehicle(vehicle: VehicleId) | Below(key: Key)

  predicate Satisfies(c: Clause, r: Row) {
    match c
    case OfAccount(a) => r.account == a
    case FromDay(d) => r.day >= d
    case BeforeDay(d) => r.day < d
    case OfVehicle(v) => r.vehicle == v
    case Below(key) => Less(KeyOf(r), key)
  }

  predicate SatisfiesAll(clauses: seq<Clause>, r: Row) {
    if clauses == [] then true
    else SatisfiesAll(clauses[..|clauses| - 1], r) && Satisfies(clauses[|clauses| - 1], r)
  }

  lemma OneMoreClause(clauses: seq<Clause>, c: Clause)
    ensures forall r :: SatisfiesAll(clauses + [c], r) <==> SatisfiesAll(clauses, r) && Satisfies(c, r)
  {
    assert (clauses + [c])[..|clauses|] == clauses;
  }

  /** The WHERE clause that fetch_expense_rows puts together selects exactly the rows that are meant. */
  method Where(q: Query) returns (clauses: seq<Clause>)
    ensures forall r :: SatisfiesAll(clauses, r) <==> Matches(q, r)
  {
    hide SatisfiesAll;
    NoClause();
    OneMoreClause([], OfAccount(q.account));
    OneMoreClause([] + [OfAccount(q.account)], FromDay(q.start));
    OneMoreClause([] + [OfAccount(q.account)] + [FromDay(q.start)], BeforeDay(q.end));
    clauses := [] + [OfAccount(q.account)] + [FromDay(q.start)] + [BeforeDay(q.end)];
    if q.vehicle.Some? {
      OneMoreClause(clauses, OfVehicle(q.vehicle.value));
      clauses := clauses + [OfVehicle(q.vehicle.value)];
    }
    if q.after.Some? {
      OneMoreClause(clauses, Below(q.after.value));
      clauses := clauses + [Below(q.after.value)];
    }
  }

  lemma NoClause()
    ensures forall r :: SatisfiesAll([], r)
  {
  }

  function Insert(r: Row, rows: seq<Row>): seq<Row> {
    if rows == [] || Less(KeyOf(rows[0]), KeyOf(r)) then [r] + rows else [rows[0]] + Insert(r, rows[1..])
  }

  /** WHERE, and ORDER BY incurred_on DESC, id DESC. */
  function Select(q: Query, table: seq<Row>): seq<Row> {
    if table == [] then []
    else if Matches(q, table[0]) then Insert(table[0], Select(q, table[1..]))
    else Select(q, table[1..])
  }

  function Limited(rows: seq<Row>, limit: nat): seq<Row> {
    if |rows| > limit then rows[..limit] else rows
  }

  ghost predicate UniqueKeys(table: seq<Row>) {
    forall i, j :: 0 <= i < j < |table| ==> KeyOf(table[i]) != KeyOf(table[j])
  }

  ghost predicate NewestFirst(rows: seq<Row>) {
    forall i, j :: 0 <= i < j < |rows| ==> Less(KeyOf(rows[j]), KeyOf(rows[i]))
  }

  lemma {:induction false} InsertHas(r: Row, rows: seq<Row>, x: Row)
    ensures x in Insert(r, rows) <==> x == r || x in rows
  {
    if rows != [] && !Less(KeyOf(rows[0]), KeyOf(r)) {
      InsertHas(r, rows[1..], x);
      assert x in rows <==> x == rows[0] || x in rows[1..];
    }
  }

  lemma {:induction false} InsertKeepsOrder(r: Row, rows: seq<Row>)
    requires NewestFirst(rows) && forall x :: x in rows ==> KeyOf(x) != KeyOf(r)
    ensures NewestFirst(Insert(r, rows))
  {
    if rows == [] {
    } else if Less(KeyOf(rows[0]), KeyOf(r)) {
      var s := [r] + rows;
      forall j | 0 < j < |s|
        ensures Less(KeyOf(s[j]), KeyOf(r))
      {
        assert s[j] == rows[j - 1];
      }
    } else {
      var rest := Insert(r, rows[1..]);
      assert NewestFirst(rows[1..]);
      assert rows[0] in rows;
      InsertKeepsOrder(r, rows[1..]);
      forall j | 0 <= j < |rest|
        ensures Less(KeyOf(rest[j]), KeyOf(rows[0]))
      {
        InsertHas(r, rows[1..], rest[j]);
        if rest[j] != r {
          var i :| 0 <= i < |rows[1..]| && rows[1..][i] == rest[j];
          assert rows[i + 1] == rest[j];
        }
      }
    }
  }

  /** The query returns exactly the matching rows, newest first, each once. */
  lemma {:induction false} SelectIsExact(q: Query, table: seq<Row>)
    requires UniqueKeys(table)
    ensures NewestFirst(Select(q, table)) && forall r :: r in Select(q, table) <==> r in table && Matches(q, r)
  {
    if table != [] {
      var rest := Select(q, table[1..]);
      assert UniqueKeys(table[1..]);
      SelectIsExact(q, table[1..]);
      forall r
        ensures r in table <==> r == table[0] || r in table[1..]
      {
      }
      if Matches(q, table[0]) {
        forall r | r in rest
          ensures KeyOf(r) != KeyOf(table[0])
        {
          var i :| 0 <= i < |table[1..]| && table[1..][i] == r;
          assert table[i + 1] == r;
        }
        InsertKeepsOrder(table[0], rest);
        forall r
          ensures r in Insert(table[0], rest) <==> r == table[0] || r in rest
        {
          InsertHas(table[0], rest, r);
        }
      }
    }
  }

  // -------- pages --------

  datatype Page = Page(rows: seq<Row>, more: bool)

  /** fetch_expense_page. */
  function FetchPage(q: Query, table: seq<Row>, limit: nat): Page {
    var rows := Limited(Select(q, table), limit + 1);
    Page(Limited(rows, limit), |rows| > limit)
  }

  /** A year, as the days it begins on and ends before, and the digest of its filter. */
  datatype Year = Year(start: int, end: int, digest: seq<Byte>)

  const DAY_MICROS := 86_400_000_000

  predicate IsYear(y: Year) {
    MIN_MICROS <= y.start * DAY_MICROS && y.start < y.end && y.end * DAY_MICROS <= MAX_MICROS + 1
  }

  datatype Response = Listed(rows: seq<Row>, next: Option<seq<Byte>>) | BadCursor

  /** list_expenses: the cursor must be at midnight of a day of the year. */
  function After(hash: Hash, y: Year, cursor: Option<seq<Byte>>): Option<Option<Key>> {
    match cursor
    case None => Some(None)
    case Some(text) =>
      match Decode(hash, Expenses, text, y.digest)
      case InvalidCursor => None
      case Ok(p) =>
        if p.micros % DAY_MICROS != 0 || !(y.start <= p.micros / DAY_MICROS < y.end) then None
        else Some(Some(Key(p.micros / DAY_MICROS, p.id)))
  }

  predicate IdsInRange(table: seq<Row>) {
    forall r :: r in table ==> 1 <= r.id <= MAX_ID
  }

  function List(hash: Hash, account: AccountId, y: Year, table: seq<Row>, cursor: Option<seq<Byte>>,
        limit: nat): Response
    requires IsYear(y) && IdsInRange(table) && UniqueKeys(table) && limit >= 1
  {
    match After(hash, y, cursor)
    case None => BadCursor
    case Some(after) =>
      var q := Query(account, y.start, y.end, None, after);
      var page := FetchPage(q, table, limit);
      if page.more then
        SelectIsExact(q, table);
        LastRowFits(q, y, table, page.rows, limit);
        var last := page.rows[|page.rows| - 1];
        Listed(page.rows, Some(Encode(hash, Expenses, PositionOf(last), y.digest)))
      else Listed(page.rows, None)
  }

  function PositionOf(r: Row): Position {
    Position(r.day * DAY_MICROS, r.id)
  }

  lemma LastRowFits(q: Query, y: Year, table: seq<Row>, rows: seq<Row>, limit: nat)
    requires IsYear(y) && IdsInRange(table) && limit >= 1 && q.start == y.start && q.end == y.end
    requires forall r :: r in Select(q, table) ==> r in table && Matches(q, r)
    requires rows == FetchPage(q, table, limit).rows && FetchPage(q, table, limit).more
    ensures rows != [] && InRange(PositionOf(rows[|rows| - 1]))
    ensures y.start <= rows[|rows| - 1].day < y.end
  {
    var all := Select(q, table);
    var last := rows[|rows| - 1];
    assert last == all[|rows| - 1] && last in all;
  }

  // -------- following the cursors --------

  /** Two listings of the same rows are the same. */
  lemma {:induction false} SameListing(a: seq<Row>, b: seq<Row>)
    requires NewestFirst(a) && NewestFirst(b) && forall r :: r in a <==> r in b
    ensures a == b
  {
    if a == [] {
      SomeRow(b);
    } else {
      assert a[0] in a && a[0] in b;
      assert b[0] in b && b[0] in a;
      var i :| 0 <= i < |a| && a[i] == b[0];
      var j :| 0 <= j < |b| && b[j] == a[0];
      assert i == 0;
      forall r
        ensures r in a[1..] <==> r in b[1..]
      {
        TailHas(a, r);
        TailHas(b, r);
      }
      SameListing(a[1..], b[1..]);
      assert a == [a[0]] + a[1..] && b == [b[0]] + b[1..];
    }
  }

  lemma SomeRow(rows: seq<Row>)
    ensures rows != [] ==> exists r :: r in rows
  {
    if rows != [] {
      assert rows[0] in rows;
    }
  }

  lemma TailHas(a: seq<Row>, r: Row)
    requires NewestFirst(a) && a != []
    ensures r in a[1..] <==> r in a && r != a[0]
  {
    if r in a[1..] {
      var i :| 0 <= i < |a[1..]| && a[1..][i] == r;
      assert a[i + 1] == r && Less(KeyOf(a[i + 1]), KeyOf(a[0]));
    }
    if r in a && r != a[0] {
      var i :| 0 <= i < |a| && a[i] == r;
      assert a[1..][i - 1] == r;
    }
  }

  /** Continuing after the n-th row lists the rows after it. */
  lemma SelectAfter(q: Query, table: seq<Row>, n: nat)
    requires UniqueKeys(table) && 0 < n <= |Select(q, table)|
    ensures Select(q.(after := Some(KeyOf(Select(q, table)[n - 1]))), table) == Select(q, table)[n..]
  {
    var all := Select(q, table);
    var key := KeyOf(all[n - 1]);
    var rest := q.(after := Some(key));
    SelectIsExact(q, table);
    SelectIsExact(rest, table);
    assert all[n - 1] in all && Matches(q, all[n - 1]);
    forall r
      ensures r in all[n..] <==> r in Select(rest, table)
    {
      if r in all[n..] {
        var i :| 0 <= i < |all[n..]| && all[n..][i] == r;
        assert all[n + i] == r && r in all;
      }
      if r in Select(rest, table) {
        MatchesBefore(q, key, r);
        assert r in all;
        var i :| 0 <= i < |all| && all[i] == r;
        BelowIsBehind(all, n, i);
        assert all[n..][i - n] == r;
      }
    }
    SameListing(all[n..], Select(rest, table));
  }

  lemma BelowIsBehind(rows: seq<Row>, n: nat, i: nat)
    requires NewestFirst(rows) && 0 < n <= |rows| && i < |rows| && Less(KeyOf(rows[i]), KeyOf(rows[n - 1]))
    ensures i >= n
  {
  }

  /** A row below a matching key also matches the bound that the key obeys. */
  lemma MatchesBefore(q: Query, key: Key, r: Row)
    requires Matches(q.(after := Some(key)), r) && (q.after.Some? ==> Less(key, q.after.value))
    ensures Matches(q, r)
  {
  }

  /** The cursor of a page continues after its last row. */
  lemma NextCursorContinues(hash: Hash, y: Year, r: Row)
    requires IsHash(hash) && IsYear(y) && InRange(PositionOf(r)) && y.start <= r.day < y.end
    ensures After(hash, y, Some(Encode(hash, Expenses, PositionOf(r), y.digest))) == Some(Some(KeyOf(r)))
  {
    hide Cursor.Encode, Cursor.Decode;
    DecodeUndoesEncode(hash, Expenses, PositionOf(r), y.digest, Expenses, y.digest);
    assert (r.day * DAY_MICROS) % DAY_MICROS == 0 && (r.day * DAY_MICROS) / DAY_MICROS == r.day;
  }

  /** A cursor is taken exactly if it was made for an expense at midnight of a day of the year, and continues there. */
  lemma CursorsAreOfTheYear(hash: Hash, y: Year, text: seq<Byte>, key: Key)
    requires IsYear(y)
    ensures After(hash, y, Some(text)) == Some(Some(key))
       <==> Decode(hash, Expenses, text, y.digest) == Ok(Position(key.day * DAY_MICROS, key.id)) && y.start <= key.day < y.end
  {
    hide Cursor.Decode;
    var d := Decode(hash, Expenses, text, y.digest);
    assert (key.day * DAY_MICROS) % DAY_MICROS == 0 && (key.day * DAY_MICROS) / DAY_MICROS == key.day;
    if d.Ok? {
      assert d.position.micros == d.position.micros / DAY_MICROS * DAY_MICROS + d.position.micros % DAY_MICROS;
    }
  }

  function QueryAfter(account: AccountId, y: Year, after: Option<Key>): Query {
    Query(account, y.start, y.end, None, after)
  }

  /** How many rows are left after a cursor. */
  ghost function Left(hash: Hash, account: AccountId, y: Year, table: seq<Row>, cursor: Option<seq<Byte>>): nat {
    match After(hash, y, cursor)
    case None => 0
    case Some(after) => |Select(QueryAfter(account, y, after), table)|
  }

  /** What one request does: the first limit rows after the cursor, and a cursor for the others if there are any. */
  lemma ListIsOnePage(hash: Hash, account: AccountId, y: Year, table: seq<Row>, cursor: Option<seq<Byte>>, limit: nat)
    requires IsHash(hash) && IsYear(y) && IdsInRange(table) && UniqueKeys(table) && limit >= 1
    requires After(hash, y, cursor).Some?
    ensures var all := Select(QueryAfter(account, y, After(hash, y, cursor).value), table);
            var r := List(hash, account, y, table, cursor, limit);
            && r.Listed? && r.rows == Limited(all, limit) && (r.next.Some? <==> |all| > limit)
            && (r.next.Some? ==>
                  && After(hash, y, r.next).Some?
                  && Select(QueryAfter(account, y, After(hash, y, r.next).value), table) == all[limit..])
  {
    hide Cursor.Encode, Cursor.Decode, Select;
    var q := QueryAfter(account, y, After(hash, y, cursor).value);
    var all := Select(q, table);
    var page := FetchPage(q, table, limit);
    SelectIsExact(q, table);
    if page.more {
      LastRowFits(q, y, table, page.rows, limit);
      assert page.rows[limit - 1] == all[limit - 1];
      NextCursorContinues(hash, y, page.rows[limit - 1]);
      SelectAfter(q, table, limit);
      assert q.(after := Some(KeyOf(all[limit - 1]))) == QueryAfter(account, y, Some(KeyOf(all[limit - 1])));
    } else {
      assert Limited(Limited(all, limit + 1), limit) == Limited(all, limit);
    }
  }

  /** A client that follows the cursors to the end; it stops because every page leaves fewer rows. */
  ghost function Follow(hash: Hash, account: AccountId, y: Year, table: seq<Row>, cursor: Option<seq<Byte>>,
        limit: nat): seq<Row>
    requires IsHash(hash) && IsYear(y) && IdsInRange(table) && UniqueKeys(table) && limit >= 1
    requires After(hash, y, cursor).Some?
    decreases Left(hash, account, y, table, cursor)
  {
    ListIsOnePage(hash, account, y, table, cursor, limit);
    var page := List(hash, account, y, table, cursor, limit);
    if page.next.None? then page.rows else page.rows + Follow(hash, account, y, table, page.next, limit)
  }

  lemma {:induction false} FollowListsTheRest(hash: Hash, account: AccountId, y: Year, table: seq<Row>,
                                              cursor: Option<seq<Byte>>, limit: nat)
    requires IsHash(hash) && IsYear(y) && IdsInRange(table) && UniqueKeys(table) && limit >= 1
    requires After(hash, y, cursor).Some?
    ensures Follow(hash, account, y, table, cursor, limit)
         == Select(QueryAfter(account, y, After(hash, y, cursor).value), table)
    decreases Left(hash, account, y, table, cursor)
  {
    hide Select, List, After;
    ListIsOnePage(hash, account, y, table, cursor, limit);
    var page := List(hash, account, y, table, cursor, limit);
    if page.next.Some? {
      LeftIsLess(hash, account, y, table, cursor, limit);
      FollowListsTheRest(hash, account, y, table, page.next, limit);
      var all := Select(QueryAfter(account, y, After(hash, y, cursor).value), table);
      assert all == all[..limit] + all[limit..];
    }
  }

  lemma LeftIsLess(hash: Hash, account: AccountId, y: Year, table: seq<Row>, cursor: Option<seq<Byte>>, limit: nat)
    requires IsHash(hash) && IsYear(y) && IdsInRange(table) && UniqueKeys(table) && limit >= 1
    requires After(hash, y, cursor).Some? && List(hash, account, y, table, cursor, limit).Listed?
    requires List(hash, account, y, table, cursor, limit).next.Some?
    ensures Left(hash, account, y, table, List(hash, account, y, table, cursor, limit).next)
         < Left(hash, account, y, table, cursor)
  {
    ListIsOnePage(hash, account, y, table, cursor, limit);
  }

  /** Following the cursors from the first page lists the rows of the account's year exactly once, newest first. */
  lemma PagingListsTheYear(hash: Hash, account: AccountId, y: Year, table: seq<Row>, limit: nat)
    requires IsHash(hash) && IsYear(y) && IdsInRange(table) && UniqueKeys(table) && limit >= 1
    ensures var rows := Follow(hash, account, y, table, None, limit);
            && NewestFirst(rows)
            && forall r :: r in rows <==> r in table && r.account == account && y.start <= r.day < y.end
  {
    FollowListsTheRest(hash, account, y, table, None, limit);
    SelectIsExact(QueryAfter(account, y, None), table);
  }
}
