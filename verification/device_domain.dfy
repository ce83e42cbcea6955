/**
 * The device domain service: device operations checked against the owning
 * account, and read-only access to sensors, units and models. Each store
 * statement takes its own fault; every read starts from a fresh receiver
 * that holds only the id.
 */
module DeviceDomain {

  import opened Wrappers
  import opened Ints
  import opened Errors
  import opened Tokens
  import opened Json
  import opened Query
  import opened DeviceEntity
  import opened ReferenceEntities
  import DeviceTable
  import SensorTable
  import UnitTable
  import ModelTable

  type Devices = DeviceTable.Devices

  /** The body of a device request. */
  datatype DevicePayload = DevicePayload(serialNumber: string, name: string, modelId: Int64, modelConfig: map<string, Json>)

  /** The table after a write, and what the caller is told. */
  datatype DeviceWrite = DeviceWrite(table: Devices, result: Result<Device, Error>)

  datatype Removal = Removal(table: Devices, err: Option<Error>)

  /**
   * `AddDevice`: a new device for the account built from the payload, then
   * inserted. When the id cannot be read back the row is stored all the
   * same but the caller sees only the error.
   */
  function AddDevice(t: Devices, accountId: Int64, payload: DevicePayload, now: Instant, fault: InsertFault): (r: DeviceWrite)
    ensures r.result.Success? <==> fault.NoInsertFault? && t.nextId <= MaxInt64
    ensures r.result.Success? ==>
              r.result.value == Device(t.nextId, accountId, payload.name, payload.serialNumber, payload.modelId, payload.modelConfig, now, now) &&
              r.table.rows == t.rows + [r.result.value]
    ensures fault.FailsBeforeCommit? ==> r == DeviceWrite(t, Failure(fault.error))
    ensures fault.LastIdUnavailable? && t.nextId <= MaxInt64 ==> r.result == Failure(fault.error) && |r.table.rows| == |t.rows| + 1
  {
    var d := NewDevice(accountId, payload.modelId, payload.name, payload.serialNumber, payload.modelConfig, now);
    var added := DeviceTable.AddDevice(t, d, fault);
    match added.err
    case Some(e) => DeviceWrite(added.table, Failure(e))
    case None => DeviceWrite(added.table, Success(added.device))
  }

  /**
   * `FetchDevice`: the device with that id, refused with
   * `ErrNotOwnedDeviceByID` when it belongs to another account.
   */
  function FetchDevice(t: Devices, accountId: Int64, deviceId: Int64, fault: Option<Error>): (r: Result<Device, Error>)
    ensures fault.Some? ==> r == Failure(fault.value)
    ensures fault.None? ==>
              (r.Success? <==> exists i :: 0 <= i < |t.rows| && t.rows[i].id == deviceId && t.rows[i].accountId == accountId)
    ensures fault.None? ==>
              (r == Failure(NotOwnedDeviceByID) <==> exists i :: 0 <= i < |t.rows| && t.rows[i].id == deviceId && t.rows[i].accountId != accountId)
    ensures fault.None? ==> (r == Failure(NotFoundDeviceByID) <==> forall i :: 0 <= i < |t.rows| ==> t.rows[i].id != deviceId)
    ensures r.Success? ==> r.value in t.rows && r.value.id == deviceId && r.value.accountId == accountId
  {
    DeviceTable.FreshReceiverReadsStoredRow(t, deviceId);
    match DeviceTable.GetDeviceByID(t, Zero.(id := deviceId), fault)
    case Failure(e) => Failure(e)
    case Success(d) =>
      DeviceTable.OnlyRowWithItsId(t, d);
      if d.accountId != accountId then Failure(NotOwnedDeviceByID) else Success(d)
  }

  /**
   * `UpdateDevice`: fetch with the ownership check, then take the name and
   * the configuration from the payload, stamping the modification time, and
   * write the record back. The payload's serial number and model id are
   * not used: the stored ones are written back unchanged.
   */
  function UpdateDevice(t: Devices, accountId: Int64, deviceId: Int64, payload: DevicePayload, now: Instant,
                        readFault: Option<Error>, writeFault: Option<Error>): (r: DeviceWrite)
    ensures FetchDevice(t, accountId, deviceId, readFault).Failure? ==>
              r == DeviceWrite(t, Failure(FetchDevice(t, accountId, deviceId, readFault).error))
    ensures FetchDevice(t, accountId, deviceId, readFault).Success? && writeFault.Some? ==>
              r == DeviceWrite(t, Failure(writeFault.value))
    ensures r.result.Success? ==>
              var stored := FetchDevice(t, accountId, deviceId, readFault).value;
              r.result.value == stored.(name := payload.name, modelConfig := payload.modelConfig, modifiedAt := now)
    ensures r.result.Success? ==>
              |r.table.rows| == |t.rows| &&
              forall i :: 0 <= i < |t.rows| ==> r.table.rows[i] == if t.rows[i].id == deviceId then r.result.value else t.rows[i]
  {
    match FetchDevice(t, accountId, deviceId, readFault)
    case Failure(e) => DeviceWrite(t, Failure(e))
    case Success(d) =>
      var named := Apply(d, SetName(payload.name), now);
      var configured := Apply(named, SetModelConfig(payload.modelConfig), now);
      assert configured == d.(name := payload.name, modelConfig := payload.modelConfig, modifiedAt := now);
      match DeviceTable.UpdateDevice(t, configured, writeFault)
      case Failure(e) => DeviceWrite(t, Failure(e))
      case Success(t2) =>
        DeviceTable.OnlyRowWithItsId(t, d);
        DeviceWrite(t2, Success(configured))
  }

  /** `DeleteDevice`: fetch with the ownership check, then remove the row. */
  function DeleteDevice(t: Devices, accountId: Int64, deviceId: Int64, readFault: Option<Error>, writeFault: Option<Error>): (r: Removal)
    ensures FetchDevice(t, accountId, deviceId, readFault).Failure? ==>
              r == Removal(t, Some(FetchDevice(t, accountId, deviceId, readFault).error))
    ensures FetchDevice(t, accountId, deviceId, readFault).Success? && writeFault.Some? ==> r == Removal(t, writeFault)
    ensures r.err.None? <==> FetchDevice(t, accountId, deviceId, readFault).Success? && writeFault.None?
    ensures r.err.None? ==> forall x :: x in r.table.rows <==> x in t.rows && x.id != deviceId
  {
    match FetchDevice(t, accountId, deviceId, readFault)
    case Failure(e) => Removal(t, Some(e))
    case Success(d) =>
      match DeviceTable.DeleteDevice(t, deviceId, accountId, writeFault)
      case Failure(e) => Removal(t, Some(e))
      case Success(t2) =>
        DeviceTable.OnlyRowWithItsId(t, d);
        Removal(t2, None)
  }

  /** `ListDevices`: the account's page of devices, then the account's device count. */
  function ListDevices(t: Devices, accountId: Int64, page: Int64, pageSize: Int64,
                       listFault: Option<Error>, countFault: Option<Error>): (r: Result<Listing<Device>, Error>)
    ensures listFault.Some? ==> r == Failure(listFault.value)
    ensures listFault.None? && countFault.Some? && DeviceTable.ListDevices(t, accountId, page, pageSize, None).Success? ==>
              r == Failure(countFault.value)
    ensures listFault.None? && countFault.None? ==> (r.Success? <==> Page(DeviceTable.Owned(t, accountId), page, pageSize).Success?)
    ensures r.Success? ==>
              Page(DeviceTable.Owned(t, accountId), page, pageSize).Success? &&
              r.value.items == Page(DeviceTable.Owned(t, accountId), page, pageSize).value
    ensures r.Success? ==>
              r.value.total == |DeviceTable.Owned(t, accountId)| &&
              |r.value.items| <= r.value.total &&
              forall x :: x in r.value.items ==> x in t.rows && x.accountId == accountId
  {
    ListThenCount(DeviceTable.ListDevices(t, accountId, page, pageSize, listFault),
                  DeviceTable.CountDevices(t, accountId, countFault))
  }

  /** Another account can neither read, change nor remove a device. */
  lemma OtherAccountsAreRefused(t: Devices, owner: Int64, other: Int64, deviceId: Int64, payload: DevicePayload, now: Instant)
    requires owner != other
    requires FetchDevice(t, owner, deviceId, None).Success?
    ensures FetchDevice(t, other, deviceId, None) == Failure(NotOwnedDeviceByID)
    ensures UpdateDevice(t, other, deviceId, payload, now, None, None) == DeviceWrite(t, Failure(NotOwnedDeviceByID))
    ensures DeleteDevice(t, other, deviceId, None, None) == Removal(t, Some(NotOwnedDeviceByID))
  {
  }

  /** Once its owner deletes a device, fetching it reports that no such device exists. */
  lemma DeleteThenFetch(t: Devices, accountId: Int64, deviceId: Int64)
    requires DeleteDevice(t, accountId, deviceId, None, None).err.None?
    ensures FetchDevice(DeleteDevice(t, accountId, deviceId, None, None).table, accountId, deviceId, None) == Failure(NotFoundDeviceByID)
  {
    var t2 := DeleteDevice(t, accountId, deviceId, None, None).table;
    forall i | 0 <= i < |t2.rows| ensures t2.rows[i].id != deviceId {
      assert t2.rows[i] in t2.rows;
    }
  }

  /** What an update reports is what a later fetch returns. */
  lemma UpdateThenFetch(t: Devices, accountId: Int64, deviceId: Int64, payload: DevicePayload, now: Instant)
    requires UpdateDevice(t, accountId, deviceId, payload, now, None, None).result.Success?
    ensures var w := UpdateDevice(t, accountId, deviceId, payload, now, None, None);
            FetchDevice(w.table, accountId, deviceId, None) == w.result
  {
    var w := UpdateDevice(t, accountId, deviceId, payload, now, None, None);
    var d := w.result.value;
    var stored := FetchDevice(t, accountId, deviceId, None).value;
    var i :| 0 <= i < |t.rows| && t.rows[i] == stored;
    assert w.table.rows[i] == d;
    DeviceTable.OnlyRowWithItsId(w.table, d);
  }

  /** `FetchSensor`: the sensor with that id, read into a fresh record, so with zero timestamps. */
  function FetchSensor(t: SensorTable.Sensors, sensorId: Int64, fault: Option<Error>): (r: Result<Sensor, Error>)
    ensures fault.Some? ==> r == Failure(fault.value)
    ensures fault.None? ==> (r.Success? <==> exists i :: 0 <= i < |t.rows| && t.rows[i].id == sensorId)
    ensures fault.None? && r.Failure? ==> r.error == NotFoundSensorByID
    ensures r.Success? ==> exists i :: 0 <= i < |t.rows| && t.rows[i].id == sensorId && r.value == SensorTable.Listed(t.rows[i])
  {
    var r := SensorTable.GetSensorByID(t, ZeroSensor.(id := sensorId), fault);
    assert r.Success? ==> exists i :: 0 <= i < |t.rows| && t.rows[i].id == sensorId && r.value == SensorTable.Listed(t.rows[i]) by {
      if r.Success? {
        var i :| 0 <= i < |t.rows| && t.rows[i].id == sensorId && r.value == SensorTable.Fill(ZeroSensor.(id := sensorId), t.rows[i]);
        SensorTable.FreshReceiverIsListed(t.rows[i]);
      }
    }
    r
  }

  /** `ListSensors`: a page of sensors, then the sensor count. */
  function ListSensors(t: SensorTable.Sensors, page: Int64, pageSize: Int64,
                       listFault: Option<Error>, countFault: Option<Error>): (r: Result<Listing<Sensor>, Error>)
    ensures listFault.Some? ==> r == Failure(listFault.value)
    ensures listFault.None? && countFault.Some? && Page(t.rows, page, pageSize).Success? ==> r == Failure(countFault.value)
    ensures listFault.None? && countFault.None? ==> (r.Success? <==> Page(t.rows, page, pageSize).Success?)
    ensures r.Success? ==>
              Page(t.rows, page, pageSize).Success? &&
              r.value.items == Project(Page(t.rows, page, pageSize).value, SensorTable.Listed)
    ensures r.Success? ==>
              r.value.total == |t.rows| && |r.value.items| <= r.value.total &&
              forall k :: 0 <= k < |r.value.items| ==> FetchSensor(t, r.value.items[k].id, None) == Success(r.value.items[k])
  {
    var r := ListThenCount(SensorTable.ListSensors(t, page, pageSize, listFault), SensorTable.CountSensors(t, countFault));
    assert r.Success? ==> forall k :: 0 <= k < |r.value.items| ==> FetchSensor(t, r.value.items[k].id, None) == Success(r.value.items[k]) by {
      if r.Success? {
        forall k | 0 <= k < |r.value.items| ensures FetchSensor(t, r.value.items[k].id, None) == Success(r.value.items[k]) {
          SensorTable.ListedAgreesWithFetched(t, page, pageSize, k);
        }
      }
    }
    r
  }

  /** `FetchUnit`: the unit with that id. */
  function FetchUnit(t: UnitTable.Units, unitId: Int64, fault: Option<Error>): (r: Result<Unit, Error>)
    ensures fault.Some? ==> r == Failure(fault.value)
    ensures fault.None? ==> (r.Success? <==> exists i :: 0 <= i < |t.rows| && t.rows[i].id == unitId)
    ensures fault.None? && r.Failure? ==> r.error == NotFoundUnitByID
    ensures r.Success? ==> r.value in t.rows && r.value.id == unitId
  {
    UnitTable.GetUnitByID(t, unitId, fault)
  }

  /** `ListUnits`: a page of units, then the unit count. */
  function ListUnits(t: UnitTable.Units, page: Int64, pageSize: Int64,
                     listFault: Option<Error>, countFault: Option<Error>): (r: Result<Listing<Unit>, Error>)
    ensures listFault.Some? ==> r == Failure(listFault.value)
    ensures listFault.None? && countFault.Some? && Page(t.rows, page, pageSize).Success? ==> r == Failure(countFault.value)
    ensures listFault.None? && countFault.None? ==> (r.Success? <==> Page(t.rows, page, pageSize).Success?)
    ensures r.Success? ==>
              Page(t.rows, page, pageSize).Success? &&
              r.value.items == Page(t.rows, page, pageSize).value
    ensures r.Success? ==>
              r.value.total == |t.rows| && |r.value.items| <= r.value.total &&
              forall k :: 0 <= k < |r.value.items| ==> FetchUnit(t, r.value.items[k].id, None) == Success(r.value.items[k])
  {
    var r := ListThenCount(UnitTable.ListUnits(t, page, pageSize, listFault), UnitTable.CountUnits(t, countFault));
    assert r.Success? ==> forall k :: 0 <= k < |r.value.items| ==> FetchUnit(t, r.value.items[k].id, None) == Success(r.value.items[k]) by {
      if r.Success? {
        forall k | 0 <= k < |r.value.items| ensures FetchUnit(t, r.value.items[k].id, None) == Success(r.value.items[k]) {
          UnitTable.ListedAgreesWithFetched(t, page, pageSize, k);
        }
      }
    }
    r
  }

  /** `FetchModel`: the model with that id. */
  function FetchModel(t: ModelTable.Models, modelId: Int64, fault: Option<Error>): (r: Result<Model, Error>)
    ensures fault.Some? ==> r == Failure(fault.value)
    ensures fault.None? ==> (r.Success? <==> exists i :: 0 <= i < |t.rows| && t.rows[i].id == modelId)
    ensures fault.None? && r.Failure? ==> r.error == NotFoundModelByID
    ensures r.Success? ==> r.value in t.rows && r.value.id == modelId
  {
    ModelTable.GetModelByID(t, modelId, fault)
  }

  /** `ListModels`: a page of models, then the model count. */
  function ListModels(t: ModelTable.Models, page: Int64, pageSize: Int64,
                      listFault: Option<Error>, countFault: Option<Error>): (r: Result<Listing<Model>, Error>)
    ensures listFault.Some? ==> r == Failure(listFault.value)
    ensures listFault.None? && countFault.Some? && Page(t.rows, page, pageSize).Success? ==> r == Failure(countFault.value)
    ensures listFault.None? && countFault.None? ==> (r.Success? <==> Page(t.rows, page, pageSize).Success?)
    ensures r.Success? ==>
              Page(t.rows, page, pageSize).Success? &&
              r.value.items == Page(t.rows, page, pageSize).value
    ensures r.Success? ==>
              r.value.total == |t.rows| && |r.value.items| <= r.value.total &&
              forall k :: 0 <= k < |r.value.items| ==> FetchModel(t, r.value.items[k].id, None) == Success(r.value.items[k])
  {
    var r := ListThenCount(ModelTable.ListModels(t, page, pageSize, listFault), ModelTable.CountModels(t, countFault));
    assert r.Success? ==> forall k :: 0 <= k < |r.value.items| ==> FetchModel(t, r.value.items[k].id, None) == Success(r.value.items[k]) by {
      if r.Success? {
        forall k | 0 <= k < |r.value.items| ensures FetchModel(t, r.value.items[k].id, None) == Success(r.value.items[k]) {
          ModelTable.ListedAgreesWithFetched(t, page, pageSize, k);
        }
      }
    }
    r
  }
}
