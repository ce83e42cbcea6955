/**
 * The `addresses` table, soft-deleted through `active`. Lists and counts
 * are scoped to one account; the single-address read is not.
 */
module AddressTable {

  import opened Wrappers
  import opened Ints
  import opened Errors
  import opened Query
  import opened AddressEntity

  datatype AddressRow = AddressRow(address: Address, active: bool)

  function Key(row: AddressRow): int {
    row.address.id
  }

  type Addresses = t: Table<AddressRow> | WellFormed(t, Key) witness Table([], 1)

  function RowAddress(row: AddressRow): Address {
    row.address
  }

  /** The rows lists and counts see for one account: its active addresses. */
  function Owned(t: Addresses, accountId: Int64): (r: seq<AddressRow>)
    ensures forall x :: x in r <==> x in t.rows && x.active && x.address.accountId == accountId
  {
    Filter(t.rows, (row: AddressRow) => row.active && row.address.accountId == accountId)
  }

  datatype Added = Added(table: Addresses, address: Address, err: Option<Error>)

  /** `AddAddress`: every column is inserted, the row starts active, and the id is learnt only after the commit. */
  function AddAddress(t: Addresses, a: Address, fault: InsertFault): (r: Added)
    ensures fault.FailsBeforeCommit? ==> r == Added(t, a, Some(fault.error))
    ensures !fault.FailsBeforeCommit? && t.nextId > MaxInt64 ==> r == Added(t, a, Some(IdsExhausted))
    ensures !fault.FailsBeforeCommit? && t.nextId <= MaxInt64 ==>
              r.table.rows == t.rows + [AddressRow(a.(id := t.nextId), true)] && r.table.nextId == t.nextId + 1
    ensures fault.NoInsertFault? && t.nextId <= MaxInt64 ==> r.address == a.(id := t.nextId) && r.err == None
    ensures fault.LastIdUnavailable? && t.nextId <= MaxInt64 ==> r.address == a && r.err == Some(fault.error)
  {
    if fault.FailsBeforeCommit? then Added(t, a, Some(fault.error))
    else if t.nextId > MaxInt64 then Added(t, a, Some(IdsExhausted))
    else
      var id: Int64 := t.nextId;
      var row := AddressRow(a.(id := id), true);
      InsertKeepsWellFormed(t, Key, row);
      var t2: Addresses := Table(t.rows + [row], t.nextId + 1);
      if fault.LastIdUnavailable? then Added(t2, a, Some(fault.error))
      else Added(t2, a.(id := id), None)
  }

  /** `GetAddressByID`: the active address with that id, whichever account owns it. */
  function GetAddressByID(t: Addresses, id: Int64, fault: Option<Error>): (r: Result<Address, Error>)
    ensures fault.Some? ==> r == Failure(fault.value)
    ensures fault.None? ==>
              (r.Success? <==> exists i :: 0 <= i < |t.rows| && t.rows[i].active && t.rows[i].address.id == id)
    ensures fault.None? && r.Failure? ==> r.error == NotFoundAddressByID
    ensures r.Success? ==> r.value.id == id && AddressRow(r.value, true) in t.rows
  {
    if fault.Some? then Failure(fault.value)
    else match FindFirst(t.rows, (row: AddressRow) => row.active && row.address.id == id)
      case None => Failure(NotFoundAddressByID)
      case Some(i) => Success(t.rows[i].address)
  }

  /** `CountAddresses`: the account's active addresses. */
  function CountAddresses(t: Addresses, accountId: Int64, fault: Option<Error>): (r: Result<Int64, Error>)
    ensures fault.Some? ==> r == Failure(fault.value)
    ensures fault.None? ==> r.Success? && r.value == |Owned(t, accountId)|
  {
    if fault.Some? then Failure(fault.value)
    else Success(CountInt64(t, Key, (row: AddressRow) => row.active && row.address.accountId == accountId))
  }

  /** `ListAddresses`: one LIMIT/OFFSET window of the account's active addresses, in storage order. */
  function ListAddresses(t: Addresses, accountId: Int64, page: Int64, pageSize: Int64, fault: Option<Error>): (r: Result<seq<Address>, Error>)
    ensures fault.Some? ==> r == Failure(fault.value)
    ensures fault.None? ==> r.Success? == Page(Owned(t, accountId), page, pageSize).Success?
    ensures r.Success? ==> r.value == Project(Page(Owned(t, accountId), page, pageSize).value, RowAddress)
    ensures r.Success? ==> |r.value| <= pageSize && forall x :: x in r.value ==> x.accountId == accountId && AddressRow(x, true) in t.rows
  {
    if fault.Some? then Failure(fault.value)
    else match Page(Owned(t, accountId), page, pageSize)
      case Failure(e) => Failure(e)
      case Success(rows) =>
        var r := Project(rows, RowAddress);
        assert forall x :: x in r ==> x.accountId == accountId && AddressRow(x, true) in t.rows by {
          forall x | x in r ensures x.accountId == accountId && AddressRow(x, true) in t.rows {
            var i :| 0 <= i < |r| && r[i] == x;
            assert rows[i] in Owned(t, accountId);
          }
        }
        Success(r)
  }

  /** The columns `UpdateAddress` writes. */
  function Updated(stored: Address, a: Address): Address {
    stored.(name := a.name, addressLine1 := a.addressLine1, addressLine2 := a.addressLine2, city := a.city,
            state := a.state, postalCode := a.postalCode, country := a.country, verified := a.verified,
            modifiedAt := a.modifiedAt)
  }

  /** `UpdateAddress`: rewrites the content columns of the active row with the record's id and account. */
  function UpdateAddress(t: Addresses, a: Address, fault: Option<Error>): (r: Result<Addresses, Error>)
    ensures fault.Some? ==> r == Failure(fault.value)
    ensures fault.None? ==> r.Success? && |r.value.rows| == |t.rows| && r.value.nextId == t.nextId
    ensures r.Success? ==>
              forall i :: 0 <= i < |t.rows| ==>
                r.value.rows[i] == if t.rows[i].active && t.rows[i].address.id == a.id && t.rows[i].address.accountId == a.accountId
                                   then AddressRow(Updated(t.rows[i].address, a), true)
                                   else t.rows[i]
  {
    if fault.Some? then Failure(fault.value)
    else
      var hit := (row: AddressRow) => row.active && row.address.id == a.id && row.address.accountId == a.accountId;
      var write := (row: AddressRow) => AddressRow(Updated(row.address, a), row.active);
      RewriteKeepsWellFormed(t, Key, hit, write);
      var t2: Addresses := Table(Rewrite(t.rows, hit, write), t.nextId);
      Success(t2)
  }

  /** `DeleteAddress`: clears `active` on the active row with that id and account. */
  function DeleteAddress(t: Addresses, id: Int64, accountId: Int64, fault: Option<Error>): (r: Result<Addresses, Error>)
    ensures fault.Some? ==> r == Failure(fault.value)
    ensures fault.None? ==> r.Success? && |r.value.rows| == |t.rows| && r.value.nextId == t.nextId
    ensures r.Success? ==>
              forall i :: 0 <= i < |t.rows| ==>
                r.value.rows[i] == if t.rows[i].active && t.rows[i].address.id == id && t.rows[i].address.accountId == accountId
                                   then t.rows[i].(active := false)
                                   else t.rows[i]
  {
    if fault.Some? then Failure(fault.value)
    else
      var hit := (row: AddressRow) => row.active && row.address.id == id && row.address.accountId == accountId;
      var clear := (row: AddressRow) => row.(active := false);
      RewriteKeepsWellFormed(t, Key, hit, clear);
      var t2: Addresses := Table(Rewrite(t.rows, hit, clear), t.nextId);
      Success(t2)
  }

  /** An address just added can be read back by its new id. */
  lemma AddThenGet(t: Addresses, a: Address)
    requires t.nextId <= MaxInt64
    ensures var r := AddAddress(t, a, NoInsertFault);
            r.err == None && GetAddressByID(r.table, r.address.id, None) == Success(r.address)
  {
    var r := AddAddress(t, a, NoInsertFault);
    var n := |t.rows|;
    assert r.table.rows[n] == AddressRow(r.address, true);
    forall j | 0 <= j < n ensures r.table.rows[j].address.id != r.address.id {
      assert r.table.rows[j] == t.rows[j];
    }
  }

  /** Neither an update nor a delete naming one account changes what another account lists. */
  lemma WritesAreAccountScoped(t: Addresses, a: Address, id: Int64, accountId: Int64, other: Int64)
    ensures other != a.accountId ==> Owned(UpdateAddress(t, a, None).value, other) == Owned(t, other)
    ensures other != accountId ==> Owned(DeleteAddress(t, id, accountId, None).value, other) == Owned(t, other)
  {
    var keep := (row: AddressRow) => row.active && row.address.accountId == other;
    if other != a.accountId {
      FilterUnaffected(t.rows, UpdateAddress(t, a, None).value.rows, keep);
    }
    if other != accountId {
      FilterUnaffected(t.rows, DeleteAddress(t, id, accountId, None).value.rows, keep);
    }
  }

  /** A delete hides the address from reads and lists; deleting again changes nothing. */
  lemma DeleteHidesAndIsIdempotent(t: Addresses, id: Int64, accountId: Int64)
    ensures var t2 := DeleteAddress(t, id, accountId, None).value;
            DeleteAddress(t2, id, accountId, None).value == t2 &&
            forall x :: x in Owned(t2, accountId) <==> x in Owned(t, accountId) && x.address.id != id
  {
    var t2 := DeleteAddress(t, id, accountId, None).value;
    var t3 := DeleteAddress(t2, id, accountId, None).value;
    assert t3.rows == t2.rows;
    forall x ensures x in Owned(t2, accountId) <==> x in Owned(t, accountId) && x.address.id != id {
      if x in Owned(t2, accountId) {
        var i :| 0 <= i < |t2.rows| && t2.rows[i] == x;
        assert t.rows[i] == x;
      }
      if x in Owned(t, accountId) && x.address.id != id {
        var i :| 0 <= i < |t.rows| && t.rows[i] == x;
        assert t2.rows[i] == x;
      }
    }
  }
}
