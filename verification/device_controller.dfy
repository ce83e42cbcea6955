/**
 * The device controller: the handlers behind the device, sensor, unit and
 * model routes. Each handler runs its checks in a fixed order and answers
 * the first failure through `RespondWithError`; only the device handlers
 * look the path account up, and device ownership is judged against that
 * path account, never against the caller's token.
 *
 * The request arrives already taken apart: the decoded body and each path
 * parameter are results (a decode or parse failure is the error that
 * `ReadJSON` or `GetInt64` returned), and the outcome of every statement
 * the handler runs against the store is an input.
 */
module DeviceController {

  import opened Wrappers
  import opened Ints
  import opened Errors
  import opened Tokens
  import opened HttpHelpers
  import opened DeviceEntity
  import opened ReferenceEntities
  import opened Query
  import DeviceTable
  import SensorTable
  import UnitTable
  import ModelTable
  import AccountEntity
  import CustomerDomain
  import DeviceDomain

  /** The tables the controller's handlers reach. */
  datatype Store = Store(
    accounts: CustomerDomain.Accounts,
    devices: DeviceDomain.Devices,
    sensors: SensorTable.Sensors,
    units: UnitTable.Units,
    models: ModelTable.Models)

  /** A write handler's answer together with the device table it leaves behind. */
  datatype Handled = Handled(devices: DeviceDomain.Devices, reply: Reply<Device>)

  function AccountLookup(s: Store, accountId: Int64, io: Io): Result<AccountEntity.Account, Error> {
    CustomerDomain.FetchAccount(s.accounts, accountId, io.account)
  }

  /** `HandlePostDevice`: body, account parameter, account lookup, then the insert; 201 on success. */
  function HandlePostDevice(s: Store, requestId: string, body: Result<DeviceDomain.DevicePayload, Error>,
                            accountParam: Result<Int64, Error>, now: Instant, io: Io): (r: Handled)
    ensures body.Failure? ==> r == Handled(s.devices, Refused(RespondWithError(requestId, body.error)))
    ensures body.Success? && accountParam.Failure? ==>
              r == Handled(s.devices, Refused(RespondWithError(requestId, accountParam.error)))
    ensures body.Success? && accountParam.Success? && AccountLookup(s, accountParam.value, io).Failure? ==>
              r == Handled(s.devices, Refused(RespondWithError(requestId, AccountLookup(s, accountParam.value, io).error)))
    ensures r.reply.Data? <==>
              body.Success? && accountParam.Success? && AccountLookup(s, accountParam.value, io).Success? &&
              io.insert.NoInsertFault? && s.devices.nextId <= MaxInt64
    ensures r.reply.Data? ==>
              var d := r.reply.data;
              r.reply.status == StatusCreated && r.reply.requestId == requestId &&
              d.id == s.devices.nextId && d.accountId == accountParam.value &&
              d.name == body.value.name && d.serialNumber == body.value.serialNumber &&
              d.modelId == body.value.modelId && d.modelConfig == body.value.modelConfig &&
              d.createdAt == now && d.modifiedAt == now &&
              r.devices.rows == s.devices.rows + [d]
    ensures !r.reply.Data? ==> r.reply.Refused?
  {
    if body.Failure? then Handled(s.devices, Refused(RespondWithError(requestId, body.error)))
    else if accountParam.Failure? then Handled(s.devices, Refused(RespondWithError(requestId, accountParam.error)))
    else match AccountLookup(s, accountParam.value, io)
      case Failure(e) => Handled(s.devices, Refused(RespondWithError(requestId, e)))
      case Success(_) =>
        var w := DeviceDomain.AddDevice(s.devices, accountParam.value, body.value, now, io.insert);
        match w.result
        case Failure(e) => Handled(w.table, Refused(RespondWithError(requestId, e)))
        case Success(d) => Handled(w.table, RespondWithJSON(d, StatusCreated, requestId))
  }

  /**
   * `HandlePutDevice`: body, account parameter, account lookup, device
   * parameter, then the update under the path account; 200 on success.
   */
  function HandlePutDevice(s: Store, requestId: string, body: Result<DeviceDomain.DevicePayload, Error>,
                           accountParam: Result<Int64, Error>, deviceParam: Result<Int64, Error>, now: Instant, io: Io): (r: Handled)
    ensures body.Failure? ==> r == Handled(s.devices, Refused(RespondWithError(requestId, body.error)))
    ensures body.Success? && accountParam.Failure? ==>
              r == Handled(s.devices, Refused(RespondWithError(requestId, accountParam.error)))
    ensures body.Success? && accountParam.Success? && AccountLookup(s, accountParam.value, io).Failure? ==>
              r == Handled(s.devices, Refused(RespondWithError(requestId, AccountLookup(s, accountParam.value, io).error)))
    ensures body.Success? && accountParam.Success? && AccountLookup(s, accountParam.value, io).Success? && deviceParam.Failure? ==>
              r == Handled(s.devices, Refused(RespondWithError(requestId, deviceParam.error)))
    ensures r.reply.Data? ==>
              body.Success? && accountParam.Success? && deviceParam.Success? && AccountLookup(s, accountParam.value, io).Success? &&
              io.first.None? && io.second.None?
    ensures r.reply.Data? ==>
              var d := r.reply.data;
              r.reply.status == StatusOK && r.reply.requestId == requestId &&
              d.id == deviceParam.value && d.accountId == accountParam.value &&
              d.name == body.value.name && d.modelConfig == body.value.modelConfig && d.modifiedAt == now &&
              (exists i :: 0 <= i < |s.devices.rows| && s.devices.rows[i].id == d.id &&
                           d == s.devices.rows[i].(name := d.name, modelConfig := d.modelConfig, modifiedAt := now))
    ensures !r.reply.Data? ==> r.reply.Refused? && r.devices == s.devices
  {
    if body.Failure? then Handled(s.devices, Refused(RespondWithError(requestId, body.error)))
    else if accountParam.Failure? then Handled(s.devices, Refused(RespondWithError(requestId, accountParam.error)))
    else match AccountLookup(s, accountParam.value, io)
      case Failure(e) => Handled(s.devices, Refused(RespondWithError(requestId, e)))
      case Success(_) =>
        if deviceParam.Failure? then Handled(s.devices, Refused(RespondWithError(requestId, deviceParam.error)))
        else
          var w := DeviceDomain.UpdateDevice(s.devices, accountParam.value, deviceParam.value, body.value, now, io.first, io.second);
          match w.result
          case Failure(e) => Handled(s.devices, Refused(RespondWithError(requestId, e)))
          case Success(d) =>
            var stored := DeviceDomain.FetchDevice(s.devices, accountParam.value, deviceParam.value, io.first).value;
            assert stored in s.devices.rows;
            Handled(w.table, RespondWithJSON(d, StatusOK, requestId))
  }

  /**
   * `HandleGetDevice`: account parameter, account lookup, device parameter,
   * then the fetch under the path account; 200 on success.
   */
  function HandleGetDevice(s: Store, requestId: string, accountParam: Result<Int64, Error>,
                           deviceParam: Result<Int64, Error>, io: Io): (r: Reply<Device>)
    ensures accountParam.Failure? ==> r == Refused(RespondWithError(requestId, accountParam.error))
    ensures accountParam.Success? && AccountLookup(s, accountParam.value, io).Failure? ==>
              r == Refused(RespondWithError(requestId, AccountLookup(s, accountParam.value, io).error))
    ensures accountParam.Success? && AccountLookup(s, accountParam.value, io).Success? && deviceParam.Failure? ==>
              r == Refused(RespondWithError(requestId, deviceParam.error))
    ensures r.Data? <==>
              accountParam.Success? && AccountLookup(s, accountParam.value, io).Success? && deviceParam.Success? && io.first.None? &&
              exists i :: 0 <= i < |s.devices.rows| && s.devices.rows[i].id == deviceParam.value && s.devices.rows[i].accountId == accountParam.value
    ensures r.Data? ==>
              r.status == StatusOK && r.requestId == requestId && r.data in s.devices.rows &&
              r.data.id == deviceParam.value && r.data.accountId == accountParam.value
    ensures !r.Data? ==> r.Refused?
  {
    if accountParam.Failure? then Refused(RespondWithError(requestId, accountParam.error))
    else match AccountLookup(s, accountParam.value, io)
      case Failure(e) => Refused(RespondWithError(requestId, e))
      case Success(_) =>
        if deviceParam.Failure? then Refused(RespondWithError(requestId, deviceParam.error))
        else match DeviceDomain.FetchDevice(s.devices, accountParam.value, deviceParam.value, io.first)
          case Failure(e) => Refused(RespondWithError(requestId, e))
          case Success(d) => RespondWithJSON(d, StatusOK, requestId)
  }

  /**
   * `HandleGetDevices`: paging first, then the account parameter and the
   * account lookup, then the account's page; the envelope echoes the
   * validated paging and the account's device count.
   */
  function HandleGetDevices(s: Store, requestId: string, size: ParamRead, index: ParamRead,
                            accountParam: Result<Int64, Error>, io: Io): (r: Reply<Device>)
    ensures GetPageAndPageSize(size, index).Failure? ==> r == Refused(RespondWithError(requestId, GetPageAndPageSize(size, index).error))
    ensures GetPageAndPageSize(size, index).Success? && accountParam.Failure? ==>
              r == Refused(RespondWithError(requestId, accountParam.error))
    ensures GetPageAndPageSize(size, index).Success? && accountParam.Success? && AccountLookup(s, accountParam.value, io).Failure? ==>
              r == Refused(RespondWithError(requestId, AccountLookup(s, accountParam.value, io).error))
    ensures r.Listing? ==>
              var paging := GetPageAndPageSize(size, index);
              paging.Success? && accountParam.Success? && io.first.None? && io.second.None? &&
              r.status == StatusOK && r.requestId == requestId &&
              r.page == paging.value.page && r.pageSize == paging.value.pageSize &&
              r.total == |DeviceTable.Owned(s.devices, accountParam.value)| &&
              forall x :: x in r.items ==> x in s.devices.rows && x.accountId == accountParam.value
    ensures var paging := GetPageAndPageSize(size, index);
            paging.Success? && accountParam.Success? && AccountLookup(s, accountParam.value, io).Success? ==>
              var rows := Page(DeviceTable.Owned(s.devices, accountParam.value), paging.value.page, paging.value.pageSize);
              (io.first.None? && io.second.None? ==> (r.Listing? <==> rows.Success?)) &&
              (r.Listing? ==> rows.Success? && r.items == rows.value)
    ensures !r.Listing? ==> r.Refused?
  {
    match GetPageAndPageSize(size, index)
    case Failure(e) => Refused(RespondWithError(requestId, e))
    case Success(paging) =>
      if accountParam.Failure? then Refused(RespondWithError(requestId, accountParam.error))
      else match AccountLookup(s, accountParam.value, io)
        case Failure(e) => Refused(RespondWithError(requestId, e))
        case Success(account) =>
          match DeviceDomain.ListDevices(s.devices, account.id, paging.page, paging.pageSize, io.first, io.second)
          case Failure(e) => Refused(RespondWithError(requestId, e))
          case Success(list) => RespondWithList(list.items, paging.page, paging.pageSize, list.total, StatusOK, requestId)
  }

  /** `HandleGetSensor`: the sensor parameter, then the fetch; no account is involved. */
  function HandleGetSensor(t: SensorTable.Sensors, requestId: string, sensorParam: Result<Int64, Error>, fault: Option<Error>): (r: Reply<Sensor>)
    ensures sensorParam.Failure? ==> r == Refused(RespondWithError(requestId, sensorParam.error))
    ensures r.Data? <==> sensorParam.Success? && fault.None? && exists i :: 0 <= i < |t.rows| && t.rows[i].id == sensorParam.value
    ensures r.Data? ==> r.status == StatusOK && r.requestId == requestId && r.data.id == sensorParam.value
    ensures sensorParam.Success? && fault.None? && !r.Data? ==> r == Refused(RespondWithError(requestId, NotFoundSensorByID))
    ensures !r.Data? ==> r.Refused?
  {
    if sensorParam.Failure? then Refused(RespondWithError(requestId, sensorParam.error))
    else match DeviceDomain.FetchSensor(t, sensorParam.value, fault)
      case Failure(e) => Refused(RespondWithError(requestId, e))
      case Success(x) => RespondWithJSON(x, StatusOK, requestId)
  }

  /** `HandleGetSensors`: paging, then the page and the count; every listed sensor is what its own fetch route answers. */
  function HandleGetSensors(t: SensorTable.Sensors, requestId: string, size: ParamRead, index: ParamRead,
                            listFault: Option<Error>, countFault: Option<Error>): (r: Reply<Sensor>)
    ensures GetPageAndPageSize(size, index).Failure? ==> r == Refused(RespondWithError(requestId, GetPageAndPageSize(size, index).error))
    ensures r.Listing? ==>
              var paging := GetPageAndPageSize(size, index);
              paging.Success? && r.status == StatusOK && r.page == paging.value.page && r.pageSize == paging.value.pageSize &&
              r.total == |t.rows| &&
              forall k :: 0 <= k < |r.items| ==>
                HandleGetSensor(t, requestId, Success(r.items[k].id), None) == RespondWithJSON(r.items[k], StatusOK, requestId)
    ensures var paging := GetPageAndPageSize(size, index);
            paging.Success? ==>
              var rows := Page(t.rows, paging.value.page, paging.value.pageSize);
              (listFault.None? && countFault.None? ==> (r.Listing? <==> rows.Success?)) &&
              (r.Listing? ==> rows.Success? && r.items == Project(rows.value, SensorTable.Listed))
    ensures !r.Listing? ==> r.Refused?
  {
    match GetPageAndPageSize(size, index)
    case Failure(e) => Refused(RespondWithError(requestId, e))
    case Success(paging) =>
      match DeviceDomain.ListSensors(t, paging.page, paging.pageSize, listFault, countFault)
      case Failure(e) => Refused(RespondWithError(requestId, e))
      case Success(list) => RespondWithList(list.items, paging.page, paging.pageSize, list.total, StatusOK, requestId)
  }

  /** `HandleGetUnit`: the unit parameter, then the fetch. */
  function HandleGetUnit(t: UnitTable.Units, requestId: string, unitParam: Result<Int64, Error>, fault: Option<Error>): (r: Reply<Unit>)
    ensures unitParam.Failure? ==> r == Refused(RespondWithError(requestId, unitParam.error))
    ensures r.Data? <==> unitParam.Success? && fault.None? && exists i :: 0 <= i < |t.rows| && t.rows[i].id == unitParam.value
    ensures r.Data? ==> r.status == StatusOK && r.requestId == requestId && r.data in t.rows && r.data.id == unitParam.value
    ensures unitParam.Success? && fault.None? && !r.Data? ==> r == Refused(RespondWithError(requestId, NotFoundUnitByID))
    ensures !r.Data? ==> r.Refused?
  {
    if unitParam.Failure? then Refused(RespondWithError(requestId, unitParam.error))
    else match DeviceDomain.FetchUnit(t, unitParam.value, fault)
      case Failure(e) => Refused(RespondWithError(requestId, e))
      case Success(x) => RespondWithJSON(x, StatusOK, requestId)
  }

  /** `HandleGetUnits`: paging, then the page and the count. */
  function HandleGetUnits(t: UnitTable.Units, requestId: string, size: ParamRead, index: ParamRead,
                          listFault: Option<Error>, countFault: Option<Error>): (r: Reply<Unit>)
    ensures GetPageAndPageSize(size, index).Failure? ==> r == Refused(RespondWithError(requestId, GetPageAndPageSize(size, index).error))
    ensures r.Listing? ==>
              var paging := GetPageAndPageSize(size, index);
              paging.Success? && r.status == StatusOK && r.page == paging.value.page && r.pageSize == paging.value.pageSize &&
              r.total == |t.rows| &&
              forall k :: 0 <= k < |r.items| ==>
                HandleGetUnit(t, requestId, Success(r.items[k].id), None) == RespondWithJSON(r.items[k], StatusOK, requestId)
    ensures var paging := GetPageAndPageSize(size, index);
            paging.Success? ==>
              var rows := Page(t.rows, paging.value.page, paging.value.pageSize);
              (listFault.None? && countFault.None? ==> (r.Listing? <==> rows.Success?)) &&
              (r.Listing? ==> rows.Success? && r.items == rows.value)
    ensures !r.Listing? ==> r.Refused?
  {
    match GetPageAndPageSize(size, index)
    case Failure(e) => Refused(RespondWithError(requestId, e))
    case Success(paging) =>
      match DeviceDomain.ListUnits(t, paging.page, paging.pageSize, listFault, countFault)
      case Failure(e) => Refused(RespondWithError(requestId, e))
      case Success(list) => RespondWithList(list.items, paging.page, paging.pageSize, list.total, StatusOK, requestId)
  }

  /** `HandleGetModel`: the model parameter, then the fetch. */
  function HandleGetModel(t: ModelTable.Models, requestId: string, modelParam: Result<Int64, Error>, fault: Option<Error>): (r: Reply<Model>)
    ensures modelParam.Failure? ==> r == Refused(RespondWithError(requestId, modelParam.error))
    ensures r.Data? <==> modelParam.Success? && fault.None? && exists i :: 0 <= i < |t.rows| && t.rows[i].id == modelParam.value
    ensures r.Data? ==> r.status == StatusOK && r.requestId == requestId && r.data in t.rows && r.data.id == modelParam.value
    ensures modelParam.Success? && fault.None? && !r.Data? ==> r == Refused(RespondWithError(requestId, NotFoundModelByID))
    ensures !r.Data? ==> r.Refused?
  {
    if modelParam.Failure? then Refused(RespondWithError(requestId, modelParam.error))
    else match DeviceDomain.FetchModel(t, modelParam.value, fault)
      case Failure(e) => Refused(RespondWithError(requestId, e))
      case Success(x) => RespondWithJSON(x, StatusOK, requestId)
  }

  /** `HandleGetModels`: paging, then the page and the count. */
  function HandleGetModels(t: ModelTable.Models, requestId: string, size: ParamRead, index: ParamRead,
                           listFault: Option<Error>, countFault: Option<Error>): (r: Reply<Model>)
    ensures GetPageAndPageSize(size, index).Failure? ==> r == Refused(RespondWithError(requestId, GetPageAndPageSize(size, index).error))
    ensures r.Listing? ==>
              var paging := GetPageAndPageSize(size, index);
              paging.Success? && r.status == StatusOK && r.page == paging.value.page && r.pageSize == paging.value.pageSize &&
              r.total == |t.rows| &&
              forall k :: 0 <= k < |r.items| ==>
                HandleGetModel(t, requestId, Success(r.items[k].id), None) == RespondWithJSON(r.items[k], StatusOK, requestId)
    ensures var paging := GetPageAndPageSize(size, index);
            paging.Success? ==>
              var rows := Page(t.rows, paging.value.page, paging.value.pageSize);
              (listFault.None? && countFault.None? ==> (r.Listing? <==> rows.Success?)) &&
              (r.Listing? ==> rows.Success? && r.items == rows.value)
    ensures !r.Listing? ==> r.Refused?
  {
    match GetPageAndPageSize(size, index)
    case Failure(e) => Refused(RespondWithError(requestId, e))
    case Success(paging) =>
      match DeviceDomain.ListModels(t, paging.page, paging.pageSize, listFault, countFault)
      case Failure(e) => Refused(RespondWithError(requestId, e))
      case Success(list) => RespondWithList(list.items, paging.page, paging.pageSize, list.total, StatusOK, requestId)
  }

  /** A device created through POST is what GET answers for its id under the same path account. */
  lemma PostThenGet(s: Store, requestId: string, payload: DeviceDomain.DevicePayload, accountId: Int64, now: Instant)
    requires HandlePostDevice(s, requestId, Success(payload), Success(accountId), now, Clean).reply.Data?
    ensures var h := HandlePostDevice(s, requestId, Success(payload), Success(accountId), now, Clean);
            HandleGetDevice(s.(devices := h.devices), requestId, Success(accountId), Success(h.reply.data.id), Clean)
              == RespondWithJSON(h.reply.data, StatusOK, requestId)
  {
    var h := HandlePostDevice(s, requestId, Success(payload), Success(accountId), now, Clean);
    var d := h.reply.data;
    assert h.devices.rows[|s.devices.rows|] == d;
    DeviceTable.OnlyRowWithItsId(h.devices, d);
  }

  /** What PUT answers is what a later GET answers under the same path account. */
  lemma PutThenGet(s: Store, requestId: string, payload: DeviceDomain.DevicePayload, accountId: Int64, deviceId: Int64, now: Instant)
    requires HandlePutDevice(s, requestId, Success(payload), Success(accountId), Success(deviceId), now, Clean).reply.Data?
    ensures var h := HandlePutDevice(s, requestId, Success(payload), Success(accountId), Success(deviceId), now, Clean);
            HandleGetDevice(s.(devices := h.devices), requestId, Success(accountId), Success(deviceId), Clean)
              == RespondWithJSON(h.reply.data, StatusOK, requestId)
  {
    DeviceDomain.UpdateThenFetch(s.devices, accountId, deviceId, payload, now);
  }

  /**
   * Whoever sends the request, naming the owner's account in the path is
   * enough to read the device; naming another existing account is refused
   * with the not-owned error, which answers 404.
   */
  lemma PathAccountDecidesOwnership(s: Store, requestId: string, owner: Int64, other: Int64, deviceId: Int64)
    requires owner != other
    requires AccountLookup(s, owner, Clean).Success? && AccountLookup(s, other, Clean).Success?
    requires exists i :: 0 <= i < |s.devices.rows| && s.devices.rows[i].id == deviceId && s.devices.rows[i].accountId == owner
    ensures HandleGetDevice(s, requestId, Success(owner), Success(deviceId), Clean).Data?
    ensures HandleGetDevice(s, requestId, Success(other), Success(deviceId), Clean) == Refused(RespondWithError(requestId, NotOwnedDeviceByID))
    ensures RespondWithError(requestId, NotOwnedDeviceByID).status == StatusNotFound
  {
    var i :| 0 <= i < |s.devices.rows| && s.devices.rows[i].id == deviceId && s.devices.rows[i].accountId == owner;
    assert DeviceDomain.FetchDevice(s.devices, other, deviceId, None) == Failure(NotOwnedDeviceByID);
    ErrorStatuses(requestId, NotOwnedDeviceByID);
  }

  /**
   * A body or path parameter that fails to decode is not a named error, so
   * it is answered 400 with the internal-exception code and description.
   */
  lemma UndecodableInputIsInternalException(s: Store, requestId: string, reason: string, accountParam: Result<Int64, Error>, now: Instant, io: Io)
    ensures var h := HandlePostDevice(s, requestId, Failure(Opaque(reason)), accountParam, now, io);
            h.reply.Refused? && h.reply.failure.status == StatusBadRequest &&
            h.reply.failure.body.code == InternalExceptionCode && h.reply.failure.body.error == InternalExceptionDesc &&
            h.devices == s.devices
  {
  }

  /** In the devices list, bad paging is reported whatever the path account, even one that does not exist. */
  lemma PagingCheckedBeforeAccount(s: Store, requestId: string, size: ParamRead, index: ParamRead,
                                   accountParam: Result<Int64, Error>, io: Io)
    requires !Acceptable(size)
    ensures HandleGetDevices(s, requestId, size, index, accountParam, io) == Refused(RespondWithError(requestId, BadPageSize))
  {
  }
}
