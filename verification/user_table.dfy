/**
 * The `users` table, soft-deleted through `active`. Reads, counts and lists
 * are scoped to one account and see active rows only; the update and the
 * delete match on id and account alone.
 */
module UserTable {

  import opened Wrappers
  import opened Ints
  import opened Errors
  import opened Query
  import opened UserEntity

  datatype UserRow = UserRow(user: User, active: bool)

  function Key(row: UserRow): int {
    row.user.id
  }

  type Users = t: Table<UserRow> | WellFormed(t, Key) witness Table([], 1)

  function RowUser(row: UserRow): User {
    row.user
  }

  /** The rows lists and counts see for one account: its active users. */
  function Owned(t: Users, accountId: Int64): (r: seq<UserRow>)
    ensures forall x :: x in r <==> x in t.rows && x.active && x.user.accountId == accountId
  {
    Filter(t.rows, (row: UserRow) => row.active && row.user.accountId == accountId)
  }

  datatype Added = Added(table: Users, user: User, err: Option<Error>)

  /** `AddUser`: every column is inserted, the row starts active, and the id is learnt only after the commit. */
  function AddUser(t: Users, u: User, fault: InsertFault): (r: Added)
    ensures fault.FailsBeforeCommit? ==> r == Added(t, u, Some(fault.error))
    ensures !fault.FailsBeforeCommit? && t.nextId > MaxInt64 ==> r == Added(t, u, Some(IdsExhausted))
    ensures !fault.FailsBeforeCommit? && t.nextId <= MaxInt64 ==>
              r.table.rows == t.rows + [UserRow(u.(id := t.nextId), true)] && r.table.nextId == t.nextId + 1
    ensures fault.NoInsertFault? && t.nextId <= MaxInt64 ==> r.user == u.(id := t.nextId) && r.err == None
    ensures fault.LastIdUnavailable? && t.nextId <= MaxInt64 ==> r.user == u && r.err == Some(fault.error)
  {
    if fault.FailsBeforeCommit? then Added(t, u, Some(fault.error))
    else if t.nextId > MaxInt64 then Added(t, u, Some(IdsExhausted))
    else
      var id: Int64 := t.nextId;
      var row := UserRow(u.(id := id), true);
      InsertKeepsWellFormed(t, Key, row);
      var t2: Users := Table(t.rows + [row], t.nextId + 1);
      if fault.LastIdUnavailable? then Added(t2, u, Some(fault.error))
      else Added(t2, u.(id := id), None)
  }

  /** `GetUserByEmail`: the first active user with that email, in any account. */
  function GetUserByEmail(t: Users, email: string, fault: Option<Error>): (r: Result<User, Error>)
    ensures fault.Some? ==> r == Failure(fault.value)
    ensures fault.None? ==>
              (r.Success? <==> exists i :: 0 <= i < |t.rows| && t.rows[i].active && t.rows[i].user.email == email)
    ensures fault.None? && r.Failure? ==> r.error == NotFoundUserByEmail
    ensures r.Success? ==> r.value.email == email && UserRow(r.value, true) in t.rows
  {
    if fault.Some? then Failure(fault.value)
    else match FindFirst(t.rows, (row: UserRow) => row.active && row.user.email == email)
      case None => Failure(NotFoundUserByEmail)
      case Some(i) => Success(t.rows[i].user)
  }

  /** `GetUserByID`: the active user with that id, provided it belongs to the account given. */
  function GetUserByID(t: Users, accountId: Int64, id: Int64, fault: Option<Error>): (r: Result<User, Error>)
    ensures fault.Some? ==> r == Failure(fault.value)
    ensures fault.None? ==>
              (r.Success? <==> exists i :: 0 <= i < |t.rows| && t.rows[i].active && t.rows[i].user.id == id && t.rows[i].user.accountId == accountId)
    ensures fault.None? && r.Failure? ==> r.error == NotFoundUserByID
    ensures r.Success? ==> r.value.id == id && r.value.accountId == accountId && UserRow(r.value, true) in t.rows
  {
    if fault.Some? then Failure(fault.value)
    else match FindFirst(t.rows, (row: UserRow) => row.active && row.user.id == id && row.user.accountId == accountId)
      case None => Failure(NotFoundUserByID)
      case Some(i) => Success(t.rows[i].user)
  }

  /** `CountUsers`: the account's active users. */
  function CountUsers(t: Users, accountId: Int64, fault: Option<Error>): (r: Result<Int64, Error>)
    ensures fault.Some? ==> r == Failure(fault.value)
    ensures fault.None? ==> r.Success? && r.value == |Owned(t, accountId)|
  {
    if fault.Some? then Failure(fault.value)
    else Success(CountInt64(t, Key, (row: UserRow) => row.active && row.user.accountId == accountId))
  }

  /** `ListUsers`: one LIMIT/OFFSET window of the account's active users, in storage order. */
  function ListUsers(t: Users, accountId: Int64, page: Int64, pageSize: Int64, fault: Option<Error>): (r: Result<seq<User>, Error>)
    ensures fault.Some? ==> r == Failure(fault.value)
    ensures fault.None? ==> r.Success? == Page(Owned(t, accountId), page, pageSize).Success?
    ensures r.Success? ==> r.value == Project(Page(Owned(t, accountId), page, pageSize).value, RowUser)
    ensures r.Success? ==> |r.value| <= pageSize && forall x :: x in r.value ==> x.accountId == accountId && UserRow(x, true) in t.rows
  {
    if fault.Some? then Failure(fault.value)
    else match Page(Owned(t, accountId), page, pageSize)
      case Failure(e) => Failure(e)
      case Success(rows) =>
        var r := Project(rows, RowUser);
        assert forall x :: x in r ==> x.accountId == accountId && UserRow(x, true) in t.rows by {
          forall x | x in r ensures x.accountId == accountId && UserRow(x, true) in t.rows {
            var i :| 0 <= i < |r| && r[i] == x;
            assert rows[i] in Owned(t, accountId);
          }
        }
        Success(r)
  }

  /** The columns `UpdateUser` writes. */
  function Updated(stored: User, u: User): User {
    stored.(email := u.email, cell := u.cell, firstName := u.firstName, lastName := u.lastName,
            receivesUpdates := u.receivesUpdates, verified := u.verified, modifiedAt := u.modifiedAt)
  }

  /**
   * `UpdateUser`: rewrites the content columns of the row with the record's
   * id and account, whether or not that row is still active.
   */
  function UpdateUser(t: Users, u: User, fault: Option<Error>): (r: Result<Users, Error>)
    ensures fault.Some? ==> r == Failure(fault.value)
    ensures fault.None? ==> r.Success? && |r.value.rows| == |t.rows| && r.value.nextId == t.nextId
    ensures r.Success? ==>
              forall i :: 0 <= i < |t.rows| ==>
                r.value.rows[i] == if t.rows[i].user.id == u.id && t.rows[i].user.accountId == u.accountId
                                   then t.rows[i].(user := Updated(t.rows[i].user, u))
                                   else t.rows[i]
  {
    if fault.Some? then Failure(fault.value)
    else
      var hit := (row: UserRow) => row.user.id == u.id && row.user.accountId == u.accountId;
      var write := (row: UserRow) => row.(user := Updated(row.user, u));
      RewriteKeepsWellFormed(t, Key, hit, write);
      var t2: Users := Table(Rewrite(t.rows, hit, write), t.nextId);
      Success(t2)
  }

  /** `DeleteUser`: clears `active` on the row with that id and account. */
  function DeleteUser(t: Users, id: Int64, accountId: Int64, fault: Option<Error>): (r: Result<Users, Error>)
    ensures fault.Some? ==> r == Failure(fault.value)
    ensures fault.None? ==> r.Success? && |r.value.rows| == |t.rows| && r.value.nextId == t.nextId
    ensures r.Success? ==>
              forall i :: 0 <= i < |t.rows| ==>
                r.value.rows[i] == if t.rows[i].user.id == id && t.rows[i].user.accountId == accountId
                                   then t.rows[i].(active := false)
                                   else t.rows[i]
  {
    if fault.Some? then Failure(fault.value)
    else
      var hit := (row: UserRow) => row.user.id == id && row.user.accountId == accountId;
      var clear := (row: UserRow) => row.(active := false);
      RewriteKeepsWellFormed(t, Key, hit, clear);
      var t2: Users := Table(Rewrite(t.rows, hit, clear), t.nextId);
      Success(t2)
  }

  /** A user just added can be read back under its own account by its new id. */
  lemma AddThenGet(t: Users, u: User)
    requires t.nextId <= MaxInt64
    ensures var r := AddUser(t, u, NoInsertFault);
            r.err == None && GetUserByID(r.table, u.accountId, r.user.id, None) == Success(r.user)
  {
    var r := AddUser(t, u, NoInsertFault);
    var n := |t.rows|;
    assert r.table.rows[n] == UserRow(r.user, true);
    forall j | 0 <= j < n ensures r.table.rows[j].user.id != r.user.id {
      assert r.table.rows[j] == t.rows[j];
    }
  }

  /** A user read under one account is never found under another. */
  lemma ReadsAreAccountScoped(t: Users, accountId: Int64, other: Int64, id: Int64)
    requires accountId != other
    requires GetUserByID(t, accountId, id, None).Success?
    ensures GetUserByID(t, other, id, None) == Failure(NotFoundUserByID)
  {
    var i :| 0 <= i < |t.rows| && t.rows[i].active && t.rows[i].user.id == id && t.rows[i].user.accountId == accountId;
    forall j | 0 <= j < |t.rows| && t.rows[j].user.id == id ensures t.rows[j].user.accountId != other {
      IdsUnique(t, Key, i, j);
    }
  }

  /**
   * A deleted user is gone from reads and lists, but an update naming it
   * still rewrites its row, and it stays deleted.
   */
  lemma DeletedUserStillUpdated(t: Users, u: User)
    ensures var t2 := DeleteUser(t, u.id, u.accountId, None).value;
            var t3 := UpdateUser(t2, u, None).value;
            GetUserByID(t3, u.accountId, u.id, None) == Failure(NotFoundUserByID) &&
            forall i :: 0 <= i < |t.rows| && t.rows[i].user.id == u.id && t.rows[i].user.accountId == u.accountId ==>
              t3.rows[i] == UserRow(Updated(t.rows[i].user, u), false)
  {
    var t2 := DeleteUser(t, u.id, u.accountId, None).value;
    var t3 := UpdateUser(t2, u, None).value;
    forall j | 0 <= j < |t3.rows| && t3.rows[j].user.id == u.id && t3.rows[j].user.accountId == u.accountId
      ensures !t3.rows[j].active
    {
      assert t2.rows[j].user.id == u.id;
    }
  }
}
