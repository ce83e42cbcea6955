/**
 * The `devices` table. There is no `active` column: a delete removes the
 * row. Reads by id or serial number fill a receiver record, and the
 * configuration column is decoded INTO the receiver's existing map, so keys
 * the receiver already held survive unless the stored map overrides them.
 */
module DeviceTable {

  import opened Wrappers
  import opened Ints
  import opened Errors
  import opened Json
  import opened Query
  import opened DeviceEntity

  function Key(d: Device): int {
    d.id
  }

  type Devices = t: Table<Device> | WellFormed(t, Key) witness Table([], 1)

  /** The devices of one account, in id order. */
  function Owned(t: Devices, accountId: Int64): (r: seq<Device>)
    ensures forall x :: x in r <==> x in t.rows && x.accountId == accountId
  {
    Filter(t.rows, (d: Device) => d.accountId == accountId)
  }

  /** What a read of `stored` leaves in `receiver`: every selected column, and the configuration merged in. */
  function Fill(receiver: Device, stored: Device): Device {
    stored.(modelConfig := receiver.modelConfig + stored.modelConfig)
  }

  datatype Added = Added(table: Devices, device: Device, err: Option<Error>)

  /** `AddDevice`: every column but the id is inserted; the id is learnt only after the commit. */
  function AddDevice(t: Devices, d: Device, fault: InsertFault): (r: Added)
    ensures fault.FailsBeforeCommit? ==> r == Added(t, d, Some(fault.error))
    ensures !fault.FailsBeforeCommit? && t.nextId > MaxInt64 ==> r == Added(t, d, Some(IdsExhausted))
    ensures !fault.FailsBeforeCommit? && t.nextId <= MaxInt64 ==>
              r.table.rows == t.rows + [d.(id := t.nextId)] && r.table.nextId == t.nextId + 1
    ensures fault.NoInsertFault? && t.nextId <= MaxInt64 ==> r.device == d.(id := t.nextId) && r.err == None
    ensures fault.LastIdUnavailable? && t.nextId <= MaxInt64 ==> r.device == d && r.err == Some(fault.error)
  {
    if fault.FailsBeforeCommit? then Added(t, d, Some(fault.error))
    else if t.nextId > MaxInt64 then Added(t, d, Some(IdsExhausted))
    else
      var id: Int64 := t.nextId;
      var row := d.(id := id);
      InsertKeepsWellFormed(t, Key, row);
      var t2: Devices := Table(t.rows + [row], t.nextId + 1);
      if fault.LastIdUnavailable? then Added(t2, d, Some(fault.error))
      else Added(t2, row, None)
  }

  /** `GetDeviceByID`: fills the receiver from the row with the receiver's id, in whatever account. */
  function GetDeviceByID(t: Devices, receiver: Device, fault: Option<Error>): (r: Result<Device, Error>)
    ensures fault.Some? ==> r == Failure(fault.value)
    ensures fault.None? ==> (r.Success? <==> exists i :: 0 <= i < |t.rows| && t.rows[i].id == receiver.id)
    ensures fault.None? && r.Failure? ==> r.error == NotFoundDeviceByID
    ensures r.Success? ==> exists i :: 0 <= i < |t.rows| && t.rows[i].id == receiver.id && r.value == Fill(receiver, t.rows[i])
  {
    if fault.Some? then Failure(fault.value)
    else match FindFirst(t.rows, (d: Device) => d.id == receiver.id)
      case None => Failure(NotFoundDeviceByID)
      case Some(i) => Success(Fill(receiver, t.rows[i]))
  }

  /** `GetDeviceBySerialNumber`: fills the receiver from the first row with the receiver's serial number. */
  function GetDeviceBySerialNumber(t: Devices, receiver: Device, fault: Option<Error>): (r: Result<Device, Error>)
    ensures fault.Some? ==> r == Failure(fault.value)
    ensures fault.None? ==> (r.Success? <==> exists i :: 0 <= i < |t.rows| && t.rows[i].serialNumber == receiver.serialNumber)
    ensures fault.None? && r.Failure? ==> r.error == NotFoundDeviceBySerialNumber
    ensures r.Success? ==>
              exists i :: 0 <= i < |t.rows| && t.rows[i].serialNumber == receiver.serialNumber && r.value == Fill(receiver, t.rows[i])
  {
    if fault.Some? then Failure(fault.value)
    else match FindFirst(t.rows, (d: Device) => d.serialNumber == receiver.serialNumber)
      case None => Failure(NotFoundDeviceBySerialNumber)
      case Some(i) => Success(Fill(receiver, t.rows[i]))
  }

  /** `CountDevices`: the account's devices. */
  function CountDevices(t: Devices, accountId: Int64, fault: Option<Error>): (r: Result<Int64, Error>)
    ensures fault.Some? ==> r == Failure(fault.value)
    ensures fault.None? ==> r.Success? && r.value == |Owned(t, accountId)|
  {
    if fault.Some? then Failure(fault.value)
    else Success(CountInt64(t, Key, (d: Device) => d.accountId == accountId))
  }

  /**
   * `ListDevices`: one LIMIT/OFFSET window of the account's devices ordered
   * by id. Each row is scanned into a fresh record, so the devices listed
   * are the stored rows exactly.
   */
  function ListDevices(t: Devices, accountId: Int64, page: Int64, pageSize: Int64, fault: Option<Error>): (r: Result<seq<Device>, Error>)
    ensures fault.Some? ==> r == Failure(fault.value)
    ensures fault.None? ==> r.Success? == Page(Owned(t, accountId), page, pageSize).Success?
    ensures r.Success? ==> r.value == Page(Owned(t, accountId), page, pageSize).value
    ensures r.Success? ==> |r.value| <= pageSize && forall x :: x in r.value ==> x.accountId == accountId && x in t.rows
    ensures r.Success? ==> Ascending(r.value, Key)
  {
    if fault.Some? then Failure(fault.value)
    else
      var owned := Owned(t, accountId);
      FilterKeepsAscending(t.rows, (d: Device) => d.accountId == accountId, Key);
      PageKeepsAscending(owned, page, pageSize, Key);
      Page(owned, page, pageSize)
  }

  /** The columns `UpdateDevice` writes. */
  function Updated(stored: Device, d: Device): Device {
    stored.(name := d.name, serialNumber := d.serialNumber, modelId := d.modelId,
            modelConfig := d.modelConfig, modifiedAt := d.modifiedAt)
  }

  /** `UpdateDevice`: rewrites the content columns of the row with the record's id and account. */
  function UpdateDevice(t: Devices, d: Device, fault: Option<Error>): (r: Result<Devices, Error>)
    ensures fault.Some? ==> r == Failure(fault.value)
    ensures fault.None? ==> r.Success? && |r.value.rows| == |t.rows| && r.value.nextId == t.nextId
    ensures r.Success? ==>
              forall i :: 0 <= i < |t.rows| ==>
                r.value.rows[i] == if t.rows[i].id == d.id && t.rows[i].accountId == d.accountId
                                   then Updated(t.rows[i], d)
                                   else t.rows[i]
  {
    if fault.Some? then Failure(fault.value)
    else
      var hit := (x: Device) => x.id == d.id && x.accountId == d.accountId;
      var write := (x: Device) => Updated(x, d);
      RewriteKeepsWellFormed(t, Key, hit, write);
      var t2: Devices := Table(Rewrite(t.rows, hit, write), t.nextId);
      Success(t2)
  }

  /** `DeleteDevice`: removes the row with that id and account. */
  function DeleteDevice(t: Devices, id: Int64, accountId: Int64, fault: Option<Error>): (r: Result<Devices, Error>)
    ensures fault.Some? ==> r == Failure(fault.value)
    ensures fault.None? ==> r.Success? && r.value.nextId == t.nextId
    ensures r.Success? ==> forall x :: x in r.value.rows <==> x in t.rows && !(x.id == id && x.accountId == accountId)
  {
    if fault.Some? then Failure(fault.value)
    else
      var keep := (x: Device) => !(x.id == id && x.accountId == accountId);
      FilterKeepsWellFormed(t, Key, keep);
      var t2: Devices := Table(Filter(t.rows, keep), t.nextId);
      Success(t2)
  }

  /** A stored device is the only row with its id. */
  lemma OnlyRowWithItsId(t: Devices, d: Device)
    requires d in t.rows
    ensures forall i :: 0 <= i < |t.rows| && t.rows[i].id == d.id ==> t.rows[i] == d
    ensures forall x :: x in t.rows && x.id == d.id ==> x == d
  {
    var j :| 0 <= j < |t.rows| && t.rows[j] == d;
    forall i | 0 <= i < |t.rows| && t.rows[i].id == d.id ensures t.rows[i] == d {
      IdsUnique(t, Key, i, j);
    }
    forall x | x in t.rows && x.id == d.id ensures x == d {
      var i :| 0 <= i < |t.rows| && t.rows[i] == x;
      IdsUnique(t, Key, i, j);
    }
  }

  /** Reading into a receiver that holds only an id gives back the stored row itself. */
  lemma FreshReceiverReadsStoredRow(t: Devices, id: Int64)
    ensures var r := GetDeviceByID(t, Zero.(id := id), None);
            r.Success? ==> r.value in t.rows && r.value.id == id
  {
    var r := GetDeviceByID(t, Zero.(id := id), None);
    if r.Success? {
      var i :| 0 <= i < |t.rows| && t.rows[i].id == id && r.value == Fill(Zero.(id := id), t.rows[i]);
      assert map[] + t.rows[i].modelConfig == t.rows[i].modelConfig;
    }
  }

  /** A receiver's configuration keys that the stored map lacks survive the read. */
  lemma ReceiverKeysSurvive(t: Devices, receiver: Device, key: string)
    requires key in receiver.modelConfig
    ensures var r := GetDeviceByID(t, receiver, None);
            r.Success? ==> key in r.value.modelConfig
  {
  }

  /** A device just added can be read back by its new id. */
  lemma AddThenGet(t: Devices, d: Device)
    requires t.nextId <= MaxInt64
    ensures var r := AddDevice(t, d, NoInsertFault);
            r.err == None && GetDeviceByID(r.table, Zero.(id := r.device.id), None) == Success(r.device)
  {
    var r := AddDevice(t, d, NoInsertFault);
    var n := |t.rows|;
    assert r.table.rows[n] == r.device;
    forall j | 0 <= j < n ensures r.table.rows[j].id != r.device.id {
      assert r.table.rows[j] == t.rows[j];
    }
    assert map[] + r.device.modelConfig == r.device.modelConfig;
  }

  /** After a delete the device is gone for good; the other accounts' devices are untouched. */
  lemma DeleteThenGet(t: Devices, id: Int64, accountId: Int64)
    requires GetDeviceByID(t, Zero.(id := id), None).Success?
    requires GetDeviceByID(t, Zero.(id := id), None).value.accountId == accountId
    ensures var t2 := DeleteDevice(t, id, accountId, None).value;
            GetDeviceByID(t2, Zero.(id := id), None) == Failure(NotFoundDeviceByID) &&
            forall other :: other != accountId ==> Owned(t2, other) == Owned(t, other)
  {
    var t2 := DeleteDevice(t, id, accountId, None).value;
    DeleteRemovesId(t, id, accountId);
    forall other | other != accountId ensures Owned(t2, other) == Owned(t, other) {
      FilterOfFilter(t.rows, id, accountId, other);
    }
  }

  /** No row with the deleted id is left once the owning account's row is removed. */
  lemma DeleteRemovesId(t: Devices, id: Int64, accountId: Int64)
    requires GetDeviceByID(t, Zero.(id := id), None).Success?
    requires GetDeviceByID(t, Zero.(id := id), None).value.accountId == accountId
    ensures forall x :: x in DeleteDevice(t, id, accountId, None).value.rows ==> x.id != id
  {
    var t2 := DeleteDevice(t, id, accountId, None).value;
    var i :| 0 <= i < |t.rows| && t.rows[i].id == id && GetDeviceByID(t, Zero.(id := id), None).value == Fill(Zero.(id := id), t.rows[i]);
    forall x | x in t2.rows ensures x.id != id {
      var j :| 0 <= j < |t.rows| && t.rows[j] == x;
      if x.id == id { IdsUnique(t, Key, i, j); }
    }
  }

  /** Removing one account's row and then selecting another account is selecting that account. */
  lemma {:induction false} FilterOfFilter(rows: seq<Device>, id: Int64, accountId: Int64, other: Int64)
    requires other != accountId
    ensures Filter(Filter(rows, (x: Device) => !(x.id == id && x.accountId == accountId)), (d: Device) => d.accountId == other)
            == Filter(rows, (d: Device) => d.accountId == other)
  {
    if rows != [] {
      FilterOfFilter(rows[1..], id, accountId, other);
    }
  }
}
