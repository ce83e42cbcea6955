/**
 * The `accounts` table. Deletion is soft: it clears the `active` flag, and
 * every read, count and list sees active rows only. Each operation takes
 * the store's fault for its statement (`None` when the statement runs).
 */
module AccountTable {

  import opened Wrappers
  import opened Ints
  import opened Errors
  import opened Query
  import opened AccountEntity

  datatype AccountRow = AccountRow(account: Account, active: bool)

  function Key(row: AccountRow): int {
    row.account.id
  }

  type Accounts = t: Table<AccountRow> | WellFormed(t, Key) witness Table([], 1)

  predicate IsActive(row: AccountRow) {
    row.active
  }

  function RowAccount(row: AccountRow): Account {
    row.account
  }

  /** The rows every read of this table sees. */
  function Active(t: Accounts): (r: seq<AccountRow>)
    ensures forall x :: x in r <==> x in t.rows && x.active
  {
    Filter(t.rows, IsActive)
  }

  /** The outcome of an insert: the table, the caller's record and the error returned. */
  datatype Added = Added(table: Accounts, account: Account, err: Option<Error>)

  /**
   * `AddAccount`: every column is inserted and the row starts active. The
   * record learns its id only when the commit succeeded and the id could
   * be read back.
   */
  function AddAccount(t: Accounts, a: Account, fault: InsertFault): (r: Added)
    ensures fault.FailsBeforeCommit? ==> r == Added(t, a, Some(fault.error))
    ensures !fault.FailsBeforeCommit? && t.nextId > MaxInt64 ==> r == Added(t, a, Some(IdsExhausted))
    ensures !fault.FailsBeforeCommit? && t.nextId <= MaxInt64 ==>
              r.table.rows == t.rows + [AccountRow(a.(id := t.nextId), true)] && r.table.nextId == t.nextId + 1
    ensures fault.NoInsertFault? && t.nextId <= MaxInt64 ==> r.account == a.(id := t.nextId) && r.err == None
    ensures fault.LastIdUnavailable? && t.nextId <= MaxInt64 ==> r.account == a && r.err == Some(fault.error)
  {
    if fault.FailsBeforeCommit? then Added(t, a, Some(fault.error))
    else if t.nextId > MaxInt64 then Added(t, a, Some(IdsExhausted))
    else
      var id: Int64 := t.nextId;
      var row := AccountRow(a.(id := id), true);
      InsertKeepsWellFormed(t, Key, row);
      var t2: Accounts := Table(t.rows + [row], t.nextId + 1);
      if fault.LastIdUnavailable? then Added(t2, a, Some(fault.error))
      else Added(t2, a.(id := id), None)
  }

  /** `GetAccountByID`: the active row with that id, else `ErrNotFoundAccountByID`. */
  function GetAccountByID(t: Accounts, id: Int64, fault: Option<Error>): (r: Result<Account, Error>)
    ensures fault.Some? ==> r == Failure(fault.value)
    ensures fault.None? ==>
              (r.Success? <==> exists i :: 0 <= i < |t.rows| && t.rows[i].active && t.rows[i].account.id == id)
    ensures fault.None? && r.Failure? ==> r.error == NotFoundAccountByID
    ensures r.Success? ==> r.value.id == id && AccountRow(r.value, true) in t.rows
  {
    if fault.Some? then Failure(fault.value)
    else match FindFirst(t.rows, (row: AccountRow) => row.active && row.account.id == id)
      case None => Failure(NotFoundAccountByID)
      case Some(i) => Success(t.rows[i].account)
  }

  /** `GetAccountByEmail`: the first active row with that email, else `ErrNotFoundAccountByEmail`. */
  function GetAccountByEmail(t: Accounts, email: string, fault: Option<Error>): (r: Result<Account, Error>)
    ensures fault.Some? ==> r == Failure(fault.value)
    ensures fault.None? ==>
              (r.Success? <==> exists i :: 0 <= i < |t.rows| && t.rows[i].active && t.rows[i].account.email == email)
    ensures fault.None? && r.Failure? ==> r.error == NotFoundAccountByEmail
    ensures r.Success? ==> r.value.email == email && AccountRow(r.value, true) in t.rows
  {
    if fault.Some? then Failure(fault.value)
    else match FindFirst(t.rows, (row: AccountRow) => row.active && row.account.email == email)
      case None => Failure(NotFoundAccountByEmail)
      case Some(i) => Success(t.rows[i].account)
  }

  /** `CountAccounts`: the number of active rows. */
  function CountAccounts(t: Accounts, fault: Option<Error>): (r: Result<Int64, Error>)
    ensures fault.Some? ==> r == Failure(fault.value)
    ensures fault.None? ==> r.Success? && r.value == |Active(t)|
  {
    if fault.Some? then Failure(fault.value)
    else Success(CountInt64(t, Key, IsActive))
  }

  /** `ListAccounts`: one LIMIT/OFFSET window of the active rows, in storage order. */
  function ListAccounts(t: Accounts, page: Int64, pageSize: Int64, fault: Option<Error>): (r: Result<seq<Account>, Error>)
    ensures fault.Some? ==> r == Failure(fault.value)
    ensures fault.None? ==> r.Success? == Page(Active(t), page, pageSize).Success?
    ensures r.Success? ==> r.value == Project(Page(Active(t), page, pageSize).value, RowAccount)
    ensures r.Success? ==> |r.value| <= pageSize && forall x :: x in r.value ==> AccountRow(x, true) in t.rows
  {
    if fault.Some? then Failure(fault.value)
    else match Page(Active(t), page, pageSize)
      case Failure(e) => Failure(e)
      case Success(rows) =>
        var r := Project(rows, RowAccount);
        assert forall x :: x in r ==> AccountRow(x, true) in t.rows by {
          forall x | x in r ensures AccountRow(x, true) in t.rows {
            var i :| 0 <= i < |r| && r[i] == x;
            assert rows[i] in Active(t);
          }
        }
        Success(r)
  }

  /** The columns `UpdateAccount` writes. */
  function Updated(stored: Account, a: Account): Account {
    stored.(email := a.email, name := a.name, receivesUpdates := a.receivesUpdates,
            verified := a.verified, modifiedAt := a.modifiedAt)
  }

  /**
   * `UpdateAccount`: on the active row with the record's id, writes email,
   * name, receive-updates, verified and modified-at from the record. Every
   * other row and column is left alone; a row that is not active is not
   * matched, which is not an error.
   */
  function UpdateAccount(t: Accounts, a: Account, fault: Option<Error>): (r: Result<Accounts, Error>)
    ensures fault.Some? ==> r == Failure(fault.value)
    ensures fault.None? ==> r.Success? && |r.value.rows| == |t.rows| && r.value.nextId == t.nextId
    ensures r.Success? ==>
              forall i :: 0 <= i < |t.rows| ==>
                r.value.rows[i] == if t.rows[i].active && t.rows[i].account.id == a.id
                                   then AccountRow(Updated(t.rows[i].account, a), true)
                                   else t.rows[i]
  {
    if fault.Some? then Failure(fault.value)
    else
      var hit := (row: AccountRow) => row.active && row.account.id == a.id;
      var write := (row: AccountRow) => AccountRow(Updated(row.account, a), row.active);
      RewriteKeepsWellFormed(t, Key, hit, write);
      var t2: Accounts := Table(Rewrite(t.rows, hit, write), t.nextId);
      Success(t2)
  }

  /** `DeleteAccount`: clears `active` on the row with that id, whether or not it was active. */
  function DeleteAccount(t: Accounts, id: Int64, fault: Option<Error>): (r: Result<Accounts, Error>)
    ensures fault.Some? ==> r == Failure(fault.value)
    ensures fault.None? ==> r.Success? && |r.value.rows| == |t.rows| && r.value.nextId == t.nextId
    ensures r.Success? ==>
              forall i :: 0 <= i < |t.rows| ==>
                r.value.rows[i] == if t.rows[i].account.id == id then t.rows[i].(active := false) else t.rows[i]
  {
    if fault.Some? then Failure(fault.value)
    else
      var hit := (row: AccountRow) => row.account.id == id;
      var clear := (row: AccountRow) => row.(active := false);
      RewriteKeepsWellFormed(t, Key, hit, clear);
      var t2: Accounts := Table(Rewrite(t.rows, hit, clear), t.nextId);
      Success(t2)
  }

  /** An account just added can be read back by its new id, exactly as it was stored. */
  lemma AddThenGet(t: Accounts, a: Account)
    requires t.nextId <= MaxInt64
    ensures var r := AddAccount(t, a, NoInsertFault);
            r.err == None && GetAccountByID(r.table, r.account.id, None) == Success(r.account)
  {
    var r := AddAccount(t, a, NoInsertFault);
    var n := |t.rows|;
    assert r.table.rows[n] == AccountRow(r.account, true);
    forall j | 0 <= j < n ensures r.table.rows[j].account.id != r.account.id {
      assert r.table.rows[j] == t.rows[j];
    }
  }

  /**
   * After an update, reading the account back shows the written columns
   * from the record and the password hash, salt and creation time it had.
   */
  lemma UpdateThenGet(t: Accounts, a: Account)
    requires GetAccountByID(t, a.id, None).Success?
    ensures var before := GetAccountByID(t, a.id, None).value;
            GetAccountByID(UpdateAccount(t, a, None).value, a.id, None) == Success(Updated(before, a))
  {
    var before := GetAccountByID(t, a.id, None).value;
    var t2 := UpdateAccount(t, a, None).value;
    var i :| 0 <= i < |t.rows| && t.rows[i] == AccountRow(before, true);
    assert t2.rows[i] == AccountRow(Updated(before, a), true);
    forall j | 0 <= j < |t2.rows| && j != i ensures t2.rows[j].account.id != a.id {
      if t.rows[j].account.id == a.id {
        IdsUnique(t, Key, i, j);
      }
    }
    var found := FindFirst(t2.rows, (row: AccountRow) => row.active && row.account.id == a.id);
    assert found == Some(i);
  }

  /** A deleted account is gone from reads and from the active rows, and nothing else leaves them. */
  lemma DeleteHides(t: Accounts, id: Int64)
    ensures var t2 := DeleteAccount(t, id, None).value;
            GetAccountByID(t2, id, None) == Failure(NotFoundAccountByID) &&
            forall x :: x in Active(t2) <==> x in Active(t) && x.account.id != id
  {
    var t2 := DeleteAccount(t, id, None).value;
    forall x ensures x in Active(t2) <==> x in Active(t) && x.account.id != id {
      if x in Active(t2) {
        var i :| 0 <= i < |t2.rows| && t2.rows[i] == x;
        assert t.rows[i] == x;
      }
      if x in Active(t) && x.account.id != id {
        var i :| 0 <= i < |t.rows| && t.rows[i] == x;
        assert t2.rows[i] == x;
      }
    }
  }

  /** Deleting twice is deleting once. */
  lemma DeleteIdempotent(t: Accounts, id: Int64)
    ensures var t2 := DeleteAccount(t, id, None).value;
            DeleteAccount(t2, id, None).value == t2
  {
    var t2 := DeleteAccount(t, id, None).value;
    var t3 := DeleteAccount(t2, id, None).value;
    assert t3.rows == t2.rows;
  }
}
