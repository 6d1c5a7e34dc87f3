/**
 * The `people` table and the five statements the service issues against it
 * (person.go). The table is a class: a map from id to the stored columns, the
 * sequence in which a full scan returns the ids, and the next value of the
 * `SERIAL` sequence behind `id`. Every statement sent to the database is
 * appended to a ghost log, so that callers can state how many statements a
 * request issues.
 *
 * A storage failure that the database or the driver may report at any time
 * (lost connection, a violated constraint) is the parameter `fault`: `Some(text)`
 * makes the statement fail with that text and change nothing. A connection lost
 * in the middle of the listing scan is the separate parameter `cut` of
 * `GetPeople`, because there the source does not report it.
 */
module PersonStore {
  import opened Wrappers

  /** The JSON and Go shape of a person: `id`, `name`, `age`, `gender`. */
  datatype Person = Person(id: int, name: string, age: int, gender: string)

  /** The columns of a stored row other than its key. */
  datatype Row = Row(name: string, age: int, gender: string)

  function RowOf(p: Person): Row {
    Row(p.name, p.age, p.gender)
  }

  function ToPerson(id: int, row: Row): Person {
    Person(id, row.name, row.age, row.gender)
  }

  /** `sql.ErrNoRows` from a point lookup, or any other error with its text. */
  datatype StoreError = NotFound | StorageError(message: string)

  /** What `err.Error()` gives for each error. */
  function ErrorText(e: StoreError): (text: string)
    ensures e.NotFound? ==> text == "sql: no rows in result set"
    ensures e.StorageError? ==> text == e.message
  {
    match e
    case NotFound => "sql: no rows in result set"
    case StorageError(m) => m
  }

  /** PostgreSQL's refusals of a negative OFFSET and a negative LIMIT. */
  const NegativeOffsetText := "pq: OFFSET must not be negative"
  const NegativeLimitText := "pq: LIMIT must not be negative"

  /** The statements of person.go and of the test suite's `clearTable`. */
  datatype Statement =
    | SqlSelect(id: int)
    | SqlInsert(row: Row)
    | SqlUpdate(id: int, row: Row)
    | SqlDelete(id: int)
    | SqlSelectRange(limit: int, offset: int)
    | SqlDeleteAll
    | SqlRestartSequence

  function Min(a: int, b: int): int {
    if a <= b then a else b
  }

  /** No id occurs twice. */
  ghost predicate Distinct(s: seq<int>) {
    forall i, j :: 0 <= i < j < |s| ==> s[i] != s[j]
  }

  /** `order` lists exactly the keys of `rows`. */
  ghost predicate Listed(rows: map<int, Row>, order: seq<int>) {
    && (forall i :: 0 <= i < |order| ==> order[i] in rows)
    && (forall id :: id in rows ==> id in order)
  }

  /** `s` with `x` taken out, the others in their order. */
  function Without(s: seq<int>, x: int): (r: seq<int>)
    ensures forall y :: y in r <==> y in s && y != x
    ensures x !in s ==> r == s
    ensures Distinct(s) ==> Distinct(r)
  {
    if s == [] then []
    else if s[0] == x then Without(s[1..], x)
    else
      var rest := Without(s[1..], x);
      assert Distinct(s) ==> Distinct([s[0]] + rest) by {
        if Distinct(s) {
          assert s[0] !in s[1..];
        }
      }
      [s[0]] + rest
  }

  /**
   * Taking out an id that is listed once, at position `k`, leaves the ids before
   * it and the ids after it exactly as they were: a delete keeps the others in
   * their order.
   */
  lemma {:induction false} WithoutKeepsOrder(s: seq<int>, x: int, k: nat)
    requires Distinct(s) && k < |s| && s[k] == x
    ensures Without(s, x) == s[..k] + s[k + 1..]
    decreases k
  {
    if k == 0 {
      assert s[0] !in s[1..] by {
        forall i | 0 <= i < |s[1..]| ensures s[1..][i] != s[0] {
          assert s[1..][i] == s[i + 1];
        }
      }
      assert s[..0] + s[1..] == s[1..];
    } else {
      assert s[0] != x;
      assert Distinct(s[1..]) by {
        forall i, j | 0 <= i < j < |s[1..]| ensures s[1..][i] != s[1..][j] {
          assert s[1..][i] == s[i + 1] && s[1..][j] == s[j + 1];
        }
      }
      assert s[1..][k - 1] == x;
      WithoutKeepsOrder(s[1..], x, k - 1);
      assert s[1..][..k - 1] + s[1..][k..] == s[1..k] + s[k + 1..];
      assert [s[0]] + (s[1..k] + s[k + 1..]) == s[..k] + s[k + 1..];
    }
  }

  /**
   * `s` with `x` placed at position `k`, or last when `k` is past the end. A
   * scan without ORDER BY may list a newly written row version anywhere: at the
   * end of the table, or in space an earlier delete or update freed.
   */
  function InsertAt(s: seq<int>, k: nat, x: int): (r: seq<int>)
    ensures |r| == |s| + 1
    ensures r[Min(k, |s|)] == x
    ensures r[..Min(k, |s|)] == s[..Min(k, |s|)] && r[Min(k, |s|) + 1..] == s[Min(k, |s|)..]
    ensures forall y :: y in r <==> y in s || y == x
    ensures Distinct(s) && x !in s ==> Distinct(r)
  {
    s[..Min(k, |s|)] + [x] + s[Min(k, |s|)..]
  }

  /** The records the rows `ids` scan into, in that order. */
  function FetchRows(rows: map<int, Row>, ids: seq<int>): (ps: seq<Person>)
    requires forall i :: 0 <= i < |ids| ==> ids[i] in rows
    ensures |ps| == |ids|
    ensures forall k :: 0 <= k < |ids| ==> ps[k] == ToPerson(ids[k], rows[ids[k]])
  {
    if ids == [] then []
    else FetchRows(rows, ids[..|ids| - 1]) + [ToPerson(ids[|ids| - 1], rows[ids[|ids| - 1]])]
  }

  /** Scanning a prefix of the ids gives the same prefix of the records. */
  lemma FetchRowsPrefix(rows: map<int, Row>, ids: seq<int>, m: nat)
    requires forall i :: 0 <= i < |ids| ==> ids[i] in rows
    requires m <= |ids|
    ensures FetchRows(rows, ids[..m]) == FetchRows(rows, ids)[..m]
  {
    var a, b := FetchRows(rows, ids[..m]), FetchRows(rows, ids)[..m];
    assert |a| == |b|;
    forall k | 0 <= k < m ensures a[k] == b[k] {
      assert ids[..m][k] == ids[k];
    }
  }

  /**
   * The result of `SELECT ... LIMIT count OFFSET start` over a table whose scan
   * returns the ids `order`: the rows at positions start .. start+count-1.
   */
  function Listing(rows: map<int, Row>, order: seq<int>, start: nat, count: nat): (ps: seq<Person>)
    requires forall i :: 0 <= i < |order| ==> order[i] in rows
    ensures |ps| <= count
    ensures |ps| == if start >= |order| then 0 else Min(count, |order| - start)
    ensures forall k :: 0 <= k < |ps| ==> ps[k] == ToPerson(order[start + k], rows[order[start + k]])
    ensures Distinct(order) ==> forall i, j :: 0 <= i < j < |ps| ==> ps[i].id != ps[j].id
  {
    FetchRows(rows, order[Min(start, |order|)..Min(start + count, |order|)])
  }

  class Table {
    /** The stored rows by primary key. */
    var rows: map<int, Row>
    /** The ids in the order a scan without ORDER BY currently returns them. */
    var order: seq<int>
    /** The next value of `people_id_seq`. */
    var nextId: int
    /** The statements sent so far. */
    ghost var log: seq<Statement>

    ghost predicate Valid()
      reads this
    {
      && 1 <= nextId
      && Distinct(order)
      && Listed(rows, order)
      && (forall id :: id in rows ==> 1 <= id < nextId)
    }

    /** A newly created, empty table whose sequence starts at 1. */
    constructor ()
      ensures Valid()
      ensures rows == map[] && order == [] && nextId == 1 && log == []
    {
      rows := map[];
      order := [];
      nextId := 1;
      log := [];
    }

    /** `clearTable`: delete every row and restart the sequence at 1. */
    method Clear()
      modifies this
      ensures Valid()
      ensures rows == map[] && order == [] && nextId == 1
      ensures log == old(log) + [SqlDeleteAll, SqlRestartSequence]
    {
      rows := map[];
      order := [];
      nextId := 1;
      log := log + [SqlDeleteAll, SqlRestartSequence];
    }

    /** `getPerson`: the row with key `id`, or NotFound. */
    method GetPerson(id: int, fault: Option<string>) returns (r: Result<Person, StoreError>)
      requires Valid()
      modifies this`log
      ensures Valid()
      ensures log == old(log) + [SqlSelect(id)]
      ensures fault.Some? ==> r == Err(StorageError(fault.value))
      ensures fault.None? ==> (r == Err(NotFound) <==> id !in rows)
      ensures fault.None? && id in rows ==> r == Ok(ToPerson(id, rows[id]))
    {
      log := log + [SqlSelect(id)];
      if fault.Some? {
        return Err(StorageError(fault.value));
      }
      if id !in rows {
        return Err(NotFound);
      }
      r := Ok(ToPerson(id, rows[id]));
    }

    /**
     * `createPerson`: insert name, age and gender under the next sequence value
     * and hand back the record with its `id` set to that value (any `id` the
     * caller's record carried is ignored). Later scans list the new row at
     * position `place` (or last).
     */
    method CreatePerson(p: Person, fault: Option<string>, place: nat) returns (r: Result<Person, StoreError>)
      requires Valid()
      modifies this
      ensures Valid()
      ensures log == old(log) + [SqlInsert(RowOf(p))]
      ensures fault.Some? ==>
        && r == Err(StorageError(fault.value))
        && rows == old(rows) && order == old(order) && nextId == old(nextId)
      ensures fault.None? ==>
        && r.Ok?
        && r.value == p.(id := old(nextId))
        && r.value.id !in old(rows)
        && (forall id :: id in old(rows) ==> id < r.value.id)
        && rows == old(rows)[r.value.id := RowOf(p)]
        && order == InsertAt(old(order), place, r.value.id)
        && nextId == old(nextId) + 1
    {
      log := log + [SqlInsert(RowOf(p))];
      if fault.Some? {
        return Err(StorageError(fault.value));
      }
      var id := nextId;
      rows := rows[id := RowOf(p)];
      order := InsertAt(order, place, id);
      nextId := nextId + 1;
      r := Ok(p.(id := id));
    }

    /**
     * `updatePerson`: overwrite name, age and gender of the row `p.id`; when
     * there is no such row nothing changes and the call still succeeds. The
     * update writes a new version of the row, which later scans list at
     * position `place` (or last) among the other rows.
     */
    method UpdatePerson(p: Person, fault: Option<string>, place: nat) returns (r: Outcome<StoreError>)
      requires Valid()
      modifies this`rows, this`order, this`log
      ensures Valid()
      ensures log == old(log) + [SqlUpdate(p.id, RowOf(p))]
      ensures fault.Some? ==>
        r == Fail(StorageError(fault.value)) && rows == old(rows) && order == old(order)
      ensures fault.None? ==> r == Pass
      ensures fault.None? && p.id in old(rows) ==>
        && rows == old(rows)[p.id := RowOf(p)]
        && order == InsertAt(Without(old(order), p.id), place, p.id)
      ensures fault.None? && p.id !in old(rows) ==> rows == old(rows) && order == old(order)
    {
      log := log + [SqlUpdate(p.id, RowOf(p))];
      if fault.Some? {
        return Fail(StorageError(fault.value));
      }
      if p.id in rows {
        rows := rows[p.id := RowOf(p)];
        order := InsertAt(Without(order, p.id), place, p.id);
        forall i | 0 <= i < |order| ensures order[i] in rows {
          assert order[i] in order;
        }
      }
      r := Pass;
    }

    /**
     * `deletePerson`: remove the row `id`; when there is no such row nothing
     * changes and the call still succeeds.
     */
    method DeletePerson(id: int, fault: Option<string>) returns (r: Outcome<StoreError>)
      requires Valid()
      modifies this`rows, this`order, this`log
      ensures Valid()
      ensures log == old(log) + [SqlDelete(id)]
      ensures fault.Some? ==>
        r == Fail(StorageError(fault.value)) && rows == old(rows) && order == old(order)
      ensures fault.None? ==>
        && r == Pass
        && rows == old(rows) - {id}
        && order == Without(old(order), id)
    {
      log := log + [SqlDelete(id)];
      if fault.Some? {
        return Fail(StorageError(fault.value));
      }
      rows := rows - {id};
      order := Without(order, id);
      forall i | 0 <= i < |order| ensures order[i] in rows {
        assert order[i] in order;
      }
      r := Pass;
    }

    /**
     * `getPeople`: LIMIT `count` OFFSET `start`, collected row by row into a
     * list that starts empty (so an empty result is `[]`, never absent).
     *
     * `cut` is a failure during the scan: `Some(k)` means the connection is lost
     * after `k` rows of the result have arrived. `rows.Next()` then reports
     * false, and since `rows.Err()` is never consulted, the rows read so far
     * come back as a success.
     */
    method GetPeople(start: int, count: int, fault: Option<string>, cut: Option<nat>)
      returns (r: Result<seq<Person>, StoreError>)
      requires Valid()
      modifies this`log
      ensures Valid()
      ensures log == old(log) + [SqlSelectRange(count, start)]
      ensures fault.Some? ==> r == Err(StorageError(fault.value))
      ensures fault.None? && start < 0 ==> r == Err(StorageError(NegativeOffsetText))
      ensures fault.None? && 0 <= start && count < 0 ==> r == Err(StorageError(NegativeLimitText))
      ensures fault.None? && 0 <= start && 0 <= count && cut.None? ==>
        r == Ok(Listing(rows, order, start, count))
      ensures fault.None? && 0 <= start && 0 <= count && cut.Some? ==>
        var full := Listing(rows, order, start, count);
        r == Ok(full[..Min(cut.value, |full|)])
    {
      log := log + [SqlSelectRange(count, start)];
      if fault.Some? {
        return Err(StorageError(fault.value));
      }
      if start < 0 {
        return Err(StorageError(NegativeOffsetText));
      }
      if count < 0 {
        return Err(StorageError(NegativeLimitText));
      }
      var ids := order[Min(start, |order|)..Min(start + count, |order|)];
      assert forall k :: 0 <= k < |ids| ==> ids[k] in rows;
      var people: seq<Person> := [];
      var n := 0;
      while n < |ids| && (cut.None? || n < cut.value)
        invariant n <= |ids|
        invariant cut.Some? ==> n <= cut.value
        invariant people == FetchRows(rows, ids[..n])
      {
        assert ids[..n + 1][..n] == ids[..n];
        people := people + [ToPerson(ids[n], rows[ids[n]])];
        n := n + 1;
      }
      FetchRowsPrefix(rows, ids, n);
      assert ids[..|ids|] == ids;
      r := Ok(people);
    }
  }
}
