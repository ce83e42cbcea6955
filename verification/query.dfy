/**
 * What the SQL statements of the entity packages do to rows, independent
 * of any one table: a WHERE clause keeps the rows a predicate accepts,
 * `LIMIT ? OFFSET ?` takes a contiguous run, UPDATE rewrites the accepted
 * rows and DELETE removes them. A table is its rows in storage order plus
 * the next auto-increment id.
 */
module Query {

  import opened Wrappers
  import opened Ints
  import opened Errors

  function Min(a: int, b: int): int {
    if a <= b then a else b
  }

  /** WHERE: the accepted rows, in storage order. */
  function Filter<R(!new)>(rows: seq<R>, keep: R -> bool): (r: seq<R>)
    decreases |rows|
    ensures |r| <= |rows|
    ensures forall x :: x in r <==> x in rows && keep(x)
  {
    if |rows| == 0 then []
    else if keep(rows[0]) then [rows[0]] + Filter(rows[1..], keep)
    else Filter(rows[1..], keep)
  }

  /** `SELECT COUNT(...) ... WHERE`. */
  function Count<R(!new)>(rows: seq<R>, keep: R -> bool): (n: nat)
    ensures n <= |rows|
    ensures n == 0 <==> forall x :: x in rows ==> !keep(x)
  {
    var r := Filter(rows, keep);
    assert |r| == 0 <== forall x :: x in rows ==> !keep(x) by {
      if |r| > 0 { assert r[0] in r; }
    }
    |r|
  }

  /** `QueryRow` with a WHERE clause: the position of the first accepted row, if any. */
  function FindFirst<R>(rows: seq<R>, keep: R -> bool): (r: Option<nat>)
    decreases |rows|
    ensures r.Some? ==> r.value < |rows| && keep(rows[r.value])
    ensures r.Some? ==> forall j :: 0 <= j < r.value ==> !keep(rows[j])
    ensures r.None? ==> forall j :: 0 <= j < |rows| ==> !keep(rows[j])
  {
    if |rows| == 0 then None
    else if keep(rows[0]) then Some(0)
    else match FindFirst(rows[1..], keep)
      case None => None
      case Some(i) => Some(i + 1)
  }

  /** The first accepted row is the head of the filtered rows. */
  lemma {:induction false} FindFirstIsFilterHead<R(!new)>(rows: seq<R>, keep: R -> bool)
    decreases |rows|
    ensures FindFirst(rows, keep).None? <==> Filter(rows, keep) == []
    ensures FindFirst(rows, keep).Some? ==> rows[FindFirst(rows, keep).value] == Filter(rows, keep)[0]
  {
    if |rows| > 0 && !keep(rows[0]) {
      FindFirstIsFilterHead(rows[1..], keep);
    }
  }

  /** UPDATE: every accepted row rewritten, every other row kept, in place. */
  function Rewrite<R>(rows: seq<R>, hit: R -> bool, f: R -> R): (r: seq<R>)
    ensures |r| == |rows|
    ensures forall i :: 0 <= i < |rows| && hit(rows[i]) ==> r[i] == f(rows[i])
    ensures forall i :: 0 <= i < |rows| && !hit(rows[i]) ==> r[i] == rows[i]
  {
    seq(|rows|, i requires 0 <= i < |rows| => if hit(rows[i]) then f(rows[i]) else rows[i])
  }

  /** An UPDATE whose WHERE clause matches nothing leaves the rows as they were. */
  lemma RewriteNothing<R>(rows: seq<R>, hit: R -> bool, f: R -> R)
    requires forall x :: x in rows ==> !hit(x)
    ensures Rewrite(rows, hit, f) == rows
  {
    var r := Rewrite(rows, hit, f);
    forall i | 0 <= i < |rows| ensures r[i] == rows[i] {
      assert rows[i] in rows;
    }
  }

  /**
   * An UPDATE that leaves every accepted row as it was and accepts no row it
   * rewrites changes nothing a filter shows.
   */
  lemma {:induction false} FilterUnaffected<R(!new)>(rows: seq<R>, after: seq<R>, keep: R -> bool)
    decreases |rows|
    requires |after| == |rows|
    requires forall i :: 0 <= i < |rows| ==> if keep(rows[i]) then after[i] == rows[i] else !keep(after[i])
    ensures Filter(after, keep) == Filter(rows, keep)
  {
    if |rows| > 0 {
      assert forall i :: 0 <= i < |rows| - 1 ==> rows[1..][i] == rows[i + 1] && after[1..][i] == after[i + 1];
      FilterUnaffected(rows[1..], after[1..], keep);
    }
  }

  /** One value per row, in order. */
  function Project<R, E>(rows: seq<R>, f: R -> E): (r: seq<E>)
    ensures |r| == |rows|
    ensures forall i :: 0 <= i < |rows| ==> r[i] == f(rows[i])
  {
    seq(|rows|, i requires 0 <= i < |rows| => f(rows[i]))
  }

  /** The store refuses a negative LIMIT or OFFSET argument. */
  const NegativeWindow := Opaque("Incorrect arguments to LIMIT")

  /**
   * `LIMIT limit OFFSET offset`: the run of at most `limit` rows starting at
   * position `offset`, or nothing when the offset is past the end.
   */
  function Window<R>(rows: seq<R>, limit: Int64, offset: Int64): (r: Result<seq<R>, Error>)
    ensures r.Failure? <==> limit < 0 || offset < 0
    ensures r.Failure? ==> r.error == NegativeWindow
    ensures r.Success? ==> |r.value| == if offset >= |rows| then 0 else Min(limit, |rows| - offset)
    ensures r.Success? ==> forall i :: 0 <= i < |r.value| ==> r.value[i] == rows[offset + i]
  {
    if limit < 0 || offset < 0 then Failure(NegativeWindow)
    else if offset >= |rows| then Success([])
    else Success(rows[offset .. Min(|rows|, offset + limit)])
  }

  /** The OFFSET argument `page*pageSize`, computed in int64 and so wrapping around. */
  function Offset(page: Int64, pageSize: Int64): (r: Int64)
    ensures 0 <= page * pageSize <= MaxInt64 ==> r == page * pageSize
  {
    Wrap(page * pageSize)
  }

  /** One page of a list query: `LIMIT pageSize OFFSET page*pageSize`. */
  function Page<R>(rows: seq<R>, page: Int64, pageSize: Int64): (r: Result<seq<R>, Error>)
    ensures r.Success? ==> |r.value| <= pageSize
    ensures page >= 0 && pageSize >= 0 && page * pageSize <= MaxInt64 ==> r.Success?
    ensures pageSize >= 0 && 0 <= page * pageSize <= MaxInt64 && page * pageSize >= |rows| ==> r == Success([])
  {
    Window(rows, pageSize, Offset(page, pageSize))
  }

  /**
   * Pages tile the rows: with no overflow, the row at position `i` is on
   * page `i / n`, at position `i % n`.
   */
  lemma RowOnItsPage<R>(rows: seq<R>, i: nat, n: Int64)
    requires i < |rows| && i <= MaxInt64 && 0 < n
    ensures var p := Page(rows, (i / n) as Int64, n);
            p.Success? && i % n < |p.value| && p.value[i % n] == rows[i]
  {
    var page, off := PageOf(i, n);
    var p := Window(rows, n, off as Int64);
    assert Page(rows, page as Int64, n) == p;
    assert p.Success? && |p.value| == Min(n, |rows| - off);
    assert p.value[i - off] == rows[i];
  }

  /** Euclidean division of a row position by the page size. */
  lemma PageOf(i: nat, n: int) returns (page: nat, off: nat)
    requires 0 < n
    ensures page == i / n && off == page * n && off <= i && i - off == i % n < n
  {
    page := i / n;
    off := page * n;
  }

  /** With no overflow, the first page starts at the first row. */
  lemma FirstPageIsPrefix<R>(rows: seq<R>, n: Int64)
    requires 0 <= n
    ensures Page(rows, 0, n) == Success(rows[..Min(n, |rows|)])
  {
    assert Offset(0, n) == 0;
  }

  /**
   * The offset overflows: page 2^61 of size 8 computes OFFSET 0, so a
   * request far past the end is served the first page.
   */
  lemma HugePageWrapsToFirstPage<R>(rows: seq<R>)
    ensures Page(rows, 0x2000_0000_0000_0000, 8) == Page(rows, 0, 8)
  {
    assert 0x2000_0000_0000_0000 * 8 == TwoTo64;
    assert Offset(0x2000_0000_0000_0000, 8) == 0;
    assert Offset(0, 8) == 0;
  }

  /** And page 2^62 of size 2 computes a negative OFFSET, which the store refuses. */
  lemma HugePageCanFail<R>(rows: seq<R>)
    ensures Page(rows, 0x4000_0000_0000_0000, 2) == Failure(NegativeWindow)
  {
    assert Offset(0x4000_0000_0000_0000, 2) == MinInt64;
  }

  /** Rows whose keys strictly increase in storage order. */
  predicate Ascending<R>(rows: seq<R>, key: R -> int) {
    forall i, j :: 0 <= i < j < |rows| ==> key(rows[i]) < key(rows[j])
  }

  /** Keeping some rows keeps them in ascending order. */
  lemma {:induction false} FilterKeepsAscending<R(!new)>(rows: seq<R>, keep: R -> bool, key: R -> int)
    requires Ascending(rows, key)
    decreases |rows|
    ensures Ascending(Filter(rows, keep), key)
  {
    if |rows| > 0 {
      var tail := rows[1..];
      assert Ascending(tail, key) by {
        forall i, j | 0 <= i < j < |tail| ensures key(tail[i]) < key(tail[j]) {
          assert tail[i] == rows[i + 1] && tail[j] == rows[j + 1];
        }
      }
      FilterKeepsAscending(tail, keep, key);
      var rest := Filter(tail, keep);
      if keep(rows[0]) {
        var r := [rows[0]] + rest;
        forall i, j | 0 <= i < j < |r| ensures key(r[i]) < key(r[j]) {
          if i == 0 {
            assert r[j] in rest;
            var k :| 0 <= k < |tail| && tail[k] == r[j];
            assert tail[k] == rows[k + 1];
          } else {
            assert r[i] == rest[i - 1] && r[j] == rest[j - 1];
          }
        }
      }
    }
  }

  /** A page of ascending rows is ascending: `ORDER BY ID` survives `LIMIT`/`OFFSET`. */
  lemma PageKeepsAscending<R>(rows: seq<R>, page: Int64, pageSize: Int64, key: R -> int)
    requires Ascending(rows, key)
    ensures Page(rows, page, pageSize).Success? ==> Ascending(Page(rows, page, pageSize).value, key)
  {
    var p := Page(rows, page, pageSize);
    if p.Success? {
      var off := Offset(page, pageSize);
      forall i, j | 0 <= i < j < |p.value| ensures key(p.value[i]) < key(p.value[j]) {
        assert p.value[i] == rows[off + i] && p.value[j] == rows[off + j];
      }
    }
  }

  /** Strictly increasing keys inside `[lo, hi)` number at most `hi - lo`. */
  lemma {:induction false} AscendingWithinBound<R>(rows: seq<R>, key: R -> int, lo: int, hi: int)
    requires Ascending(rows, key)
    requires forall i :: 0 <= i < |rows| ==> lo <= key(rows[i]) < hi
    decreases |rows|
    ensures |rows| <= if hi > lo then hi - lo else 0
  {
    if |rows| > 0 {
      var tail := rows[1..];
      forall i | 0 <= i < |tail| ensures key(rows[0]) + 1 <= key(tail[i]) < hi {
        assert tail[i] == rows[i + 1];
      }
      assert Ascending(tail, key) by {
        forall i, j | 0 <= i < j < |tail| ensures key(tail[i]) < key(tail[j]) {
          assert tail[i] == rows[i + 1] && tail[j] == rows[j + 1];
        }
      }
      AscendingWithinBound(tail, key, key(rows[0]) + 1, hi);
    }
  }

  /** A table: rows in storage order and the id the next insert will get. */
  datatype Table<R> = Table(rows: seq<R>, nextId: int)

  /**
   * The auto-increment invariant: ids are positive, below the next id,
   * and increase in storage order, so storage order is `ORDER BY ID`.
   */
  predicate WellFormed<R>(t: Table<R>, key: R -> int) {
    1 <= t.nextId <= MaxInt64 + 1 &&
    (forall i :: 0 <= i < |t.rows| ==> 1 <= key(t.rows[i]) < t.nextId) &&
    Ascending(t.rows, key)
  }

  /** A well-formed table holds at most `MaxInt64` rows, so every count fits an int64. */
  lemma WellFormedSize<R>(t: Table<R>, key: R -> int)
    requires WellFormed(t, key)
    ensures |t.rows| <= MaxInt64
  {
    AscendingWithinBound(t.rows, key, 1, t.nextId);
  }

  /** Counting through a filter also fits an int64. */
  function CountInt64<R(!new)>(t: Table<R>, key: R -> int, keep: R -> bool): (n: Int64)
    requires WellFormed(t, key)
    ensures n == Count(t.rows, keep)
  {
    WellFormedSize(t, key);
    Count(t.rows, keep)
  }

  /** The store has run out of auto-increment ids. */
  const IdsExhausted := Opaque("Failed to read auto-increment value from storage engine")

  /** How an insert can go wrong: before the commit, or only when reading the new id back. */
  datatype InsertFault = NoInsertFault | FailsBeforeCommit(error: Error) | LastIdUnavailable(error: Error)

  /**
   * How the statements of one request fare, in the order a handler runs
   * them: the account lookup, the first domain statement (a fetch or a page
   * query), the second (a write or a count), and an insert.
   */
  datatype Io = Io(account: Option<Error>, first: Option<Error>, second: Option<Error>, insert: InsertFault)

  /** No statement fails. */
  const Clean := Io(None, None, None, NoInsertFault)

  /** An insert appends the row with the next id; ids stay ascending. */
  lemma InsertKeepsWellFormed<R>(t: Table<R>, key: R -> int, row: R)
    requires WellFormed(t, key) && t.nextId <= MaxInt64
    requires key(row) == t.nextId
    ensures WellFormed(Table(t.rows + [row], t.nextId + 1), key)
  {
    var rows := t.rows + [row];
    forall i | 0 <= i < |rows| ensures 1 <= key(rows[i]) < t.nextId + 1 {
      if i < |t.rows| { assert rows[i] == t.rows[i]; }
    }
    forall i, j | 0 <= i < j < |rows| ensures key(rows[i]) < key(rows[j]) {
      assert rows[i] == t.rows[i];
      if j < |t.rows| { assert rows[j] == t.rows[j]; }
    }
  }

  /** An update that keeps every id keeps the table well formed. */
  lemma RewriteKeepsWellFormed<R>(t: Table<R>, key: R -> int, hit: R -> bool, f: R -> R)
    requires WellFormed(t, key)
    requires forall x :: hit(x) ==> key(f(x)) == key(x)
    ensures WellFormed(Table(Rewrite(t.rows, hit, f), t.nextId), key)
  {
    var r := Rewrite(t.rows, hit, f);
    forall i | 0 <= i < |r| ensures key(r[i]) == key(t.rows[i]) {
    }
  }

  /** A delete that removes rows keeps the table well formed. */
  lemma FilterKeepsWellFormed<R(!new)>(t: Table<R>, key: R -> int, keep: R -> bool)
    requires WellFormed(t, key)
    ensures WellFormed(Table(Filter(t.rows, keep), t.nextId), key)
  {
    FilterKeepsAscending(t.rows, keep, key);
    var r := Filter(t.rows, keep);
    forall i | 0 <= i < |r| ensures 1 <= key(r[i]) < t.nextId {
      assert r[i] in r;
      var k :| 0 <= k < |t.rows| && t.rows[k] == r[i];
    }
  }

  /** In a well-formed table at most one row has a given id. */
  lemma IdsUnique<R>(t: Table<R>, key: R -> int, i: int, j: int)
    requires WellFormed(t, key)
    requires 0 <= i < |t.rows| && 0 <= j < |t.rows| && key(t.rows[i]) == key(t.rows[j])
    ensures i == j
  {
  }
  /** A page of records together with the total the matching count query reported. */
  datatype Listing<T> = Listing(items: seq<T>, total: Int64)

  /**
   * The domain's list operations: the page query runs first and its
   * failure is returned before the count query runs; then the count's.
   */
  function ListThenCount<T>(list: Result<seq<T>, Error>, count: Result<Int64, Error>): (r: Result<Listing<T>, Error>)
    ensures list.Failure? ==> r == Failure(list.error)
    ensures list.Success? && count.Failure? ==> r == Failure(count.error)
    ensures r.Success? <==> list.Success? && count.Success?
    ensures r.Success? ==> r.value.items == list.value && r.value.total == count.value
  {
    match list
    case Failure(e) => Failure(e)
    case Success(items) =>
      match count
      case Failure(e) => Failure(e)
      case Success(n) => Success(Listing(items, n))
  }
}
