/**
 * The `sensors` table. A read fills a receiver record: the two configuration
 * columns are decoded into the receiver's existing maps, and the timestamps
 * are never selected, so a read keeps the receiver's and a listed sensor
 * carries the zero time.
 */
module SensorTable {

  import opened Wrappers
  import opened Ints
  import opened Errors
  import opened Tokens
  import opened Query
  import opened ReferenceEntities

  function Key(s: Sensor): int {
    s.id
  }

  type Sensors = t: Table<Sensor> | WellFormed(t, Key) witness Table([], 1)

  /** What a read of `stored` leaves in `receiver`. */
  function Fill(receiver: Sensor, stored: Sensor): Sensor {
    receiver.(id := stored.id, unitId := stored.unitId, code := stored.code, name := stored.name,
              configRequired := receiver.configRequired + stored.configRequired,
              defaultConfig := receiver.defaultConfig + stored.defaultConfig)
  }

  /** A sensor as a list query returns it: scanned into a fresh record, timestamps never selected. */
  function Listed(stored: Sensor): Sensor {
    stored.(createdAt := ZeroTime, modifiedAt := ZeroTime)
  }

  /** A receiver that holds only the id reads back exactly what a list shows. */
  lemma FreshReceiverIsListed(stored: Sensor)
    ensures Fill(ZeroSensor.(id := stored.id), stored) == Listed(stored)
  {
    assert map[] + stored.configRequired == stored.configRequired;
    assert map[] + stored.defaultConfig == stored.defaultConfig;
  }

  datatype Added = Added(table: Sensors, sensor: Sensor, err: Option<Error>)

  /**
   * `AddSensor`: inserts unit, code, name and both configurations. The
   * timestamp columns are left to the store's defaults; since no read
   * selects them, the stored row keeps the record's values in their place.
   */
  function AddSensor(t: Sensors, s: Sensor, fault: InsertFault): (r: Added)
    ensures fault.FailsBeforeCommit? ==> r == Added(t, s, Some(fault.error))
    ensures !fault.FailsBeforeCommit? && t.nextId > MaxInt64 ==> r == Added(t, s, Some(IdsExhausted))
    ensures !fault.FailsBeforeCommit? && t.nextId <= MaxInt64 ==>
              r.table.rows == t.rows + [s.(id := t.nextId)] && r.table.nextId == t.nextId + 1
    ensures fault.NoInsertFault? && t.nextId <= MaxInt64 ==> r.sensor == s.(id := t.nextId) && r.err == None
    ensures fault.LastIdUnavailable? && t.nextId <= MaxInt64 ==> r.sensor == s && r.err == Some(fault.error)
  {
    if fault.FailsBeforeCommit? then Added(t, s, Some(fault.error))
    else if t.nextId > MaxInt64 then Added(t, s, Some(IdsExhausted))
    else
      var id: Int64 := t.nextId;
      var row := s.(id := id);
      InsertKeepsWellFormed(t, Key, row);
      var t2: Sensors := Table(t.rows + [row], t.nextId + 1);
      if fault.LastIdUnavailable? then Added(t2, s, Some(fault.error))
      else Added(t2, row, None)
  }

  /** `GetSensorByID`: fills the receiver from the row with the receiver's id. */
  function GetSensorByID(t: Sensors, receiver: Sensor, fault: Option<Error>): (r: Result<Sensor, Error>)
    ensures fault.Some? ==> r == Failure(fault.value)
    ensures fault.None? ==> (r.Success? <==> exists i :: 0 <= i < |t.rows| && t.rows[i].id == receiver.id)
    ensures fault.None? && r.Failure? ==> r.error == NotFoundSensorByID
    ensures r.Success? ==> exists i :: 0 <= i < |t.rows| && t.rows[i].id == receiver.id && r.value == Fill(receiver, t.rows[i])
  {
    if fault.Some? then Failure(fault.value)
    else match FindFirst(t.rows, (s: Sensor) => s.id == receiver.id)
      case None => Failure(NotFoundSensorByID)
      case Some(i) => Success(Fill(receiver, t.rows[i]))
  }

  /** `GetSensorByCode`: fills the receiver from the first row with the receiver's code. */
  function GetSensorByCode(t: Sensors, receiver: Sensor, fault: Option<Error>): (r: Result<Sensor, Error>)
    ensures fault.Some? ==> r == Failure(fault.value)
    ensures fault.None? ==> (r.Success? <==> exists i :: 0 <= i < |t.rows| && t.rows[i].code == receiver.code)
    ensures fault.None? && r.Failure? ==> r.error == NotFoundSensorByCode
    ensures r.Success? ==> exists i :: 0 <= i < |t.rows| && t.rows[i].code == receiver.code && r.value == Fill(receiver, t.rows[i])
  {
    if fault.Some? then Failure(fault.value)
    else match FindFirst(t.rows, (s: Sensor) => s.code == receiver.code)
      case None => Failure(NotFoundSensorByCode)
      case Some(i) => Success(Fill(receiver, t.rows[i]))
  }

  /** `CountSensors`: every row. */
  function CountSensors(t: Sensors, fault: Option<Error>): (r: Result<Int64, Error>)
    ensures fault.Some? ==> r == Failure(fault.value)
    ensures fault.None? ==> r.Success? && r.value == |t.rows|
  {
    if fault.Some? then Failure(fault.value)
    else
      WellFormedSize(t, Key);
      Success(|t.rows|)
  }

  /** `ListSensors`: one LIMIT/OFFSET window of all rows ordered by id. */
  function ListSensors(t: Sensors, page: Int64, pageSize: Int64, fault: Option<Error>): (r: Result<seq<Sensor>, Error>)
    ensures fault.Some? ==> r == Failure(fault.value)
    ensures fault.None? ==> r.Success? == Page(t.rows, page, pageSize).Success?
    ensures r.Success? ==> r.value == Project(Page(t.rows, page, pageSize).value, Listed)
    ensures r.Success? ==> |r.value| <= pageSize && Ascending(r.value, Key)
  {
    if fault.Some? then Failure(fault.value)
    else match Page(t.rows, page, pageSize)
      case Failure(e) => Failure(e)
      case Success(rows) =>
        PageKeepsAscending(t.rows, page, pageSize, Key);
        var r := Project(rows, Listed);
        assert forall i :: 0 <= i < |r| ==> Key(r[i]) == Key(rows[i]);
        Success(r)
  }

  /**
   * Fetching a listed sensor by id gives what the list showed, except for
   * the timestamps: a fresh receiver keeps the zero time too, so the two
   * agree exactly.
   */
  lemma ListedAgreesWithFetched(t: Sensors, page: Int64, pageSize: Int64, k: int)
    requires ListSensors(t, page, pageSize, None).Success?
    requires 0 <= k < |ListSensors(t, page, pageSize, None).value|
    ensures var x := ListSensors(t, page, pageSize, None).value[k];
            GetSensorByID(t, ZeroSensor.(id := x.id), None) == Success(x)
  {
    var rows := Page(t.rows, page, pageSize).value;
    var x := ListSensors(t, page, pageSize, None).value[k];
    var off := Offset(page, pageSize);
    assert rows[k] == t.rows[off + k];
    assert x == Listed(t.rows[off + k]);
    var fetched := GetSensorByID(t, ZeroSensor.(id := x.id), None);
    var i :| 0 <= i < |t.rows| && t.rows[i].id == x.id && fetched.value == Fill(ZeroSensor.(id := x.id), t.rows[i]);
    IdsUnique(t, Key, i, off + k);
    FreshReceiverIsListed(t.rows[i]);
  }
}

/** The `units` table: read-only here; every read selects every column it needs. */
module UnitTable {

  import opened Wrappers
  import opened Ints
  import opened Errors
  import opened Query
  import opened ReferenceEntities

  function Key(u: Unit): int {
    u.id
  }

  type Units = t: Table<Unit> | WellFormed(t, Key) witness Table([], 1)

  /** `GetUnitByID`: the row with that id. */
  function GetUnitByID(t: Units, id: Int64, fault: Option<Error>): (r: Result<Unit, Error>)
    ensures fault.Some? ==> r == Failure(fault.value)
    ensures fault.None? ==> (r.Success? <==> exists i :: 0 <= i < |t.rows| && t.rows[i].id == id)
    ensures fault.None? && r.Failure? ==> r.error == NotFoundUnitByID
    ensures r.Success? ==> r.value.id == id && r.value in t.rows
  {
    if fault.Some? then Failure(fault.value)
    else match FindFirst(t.rows, (u: Unit) => u.id == id)
      case None => Failure(NotFoundUnitByID)
      case Some(i) => Success(t.rows[i])
  }

  /** `GetUnitByName`: the first row with that name. */
  function GetUnitByName(t: Units, name: string, fault: Option<Error>): (r: Result<Unit, Error>)
    ensures fault.Some? ==> r == Failure(fault.value)
    ensures fault.None? ==> (r.Success? <==> exists i :: 0 <= i < |t.rows| && t.rows[i].name == name)
    ensures fault.None? && r.Failure? ==> r.error == NotFoundUnitByName
    ensures r.Success? ==> r.value.name == name && r.value in t.rows
  {
    if fault.Some? then Failure(fault.value)
    else match FindFirst(t.rows, (u: Unit) => u.name == name)
      case None => Failure(NotFoundUnitByName)
      case Some(i) => Success(t.rows[i])
  }

  /** `CountUnits`: every row. */
  function CountUnits(t: Units, fault: Option<Error>): (r: Result<Int64, Error>)
    ensures fault.Some? ==> r == Failure(fault.value)
    ensures fault.None? ==> r.Success? && r.value == |t.rows|
  {
    if fault.Some? then Failure(fault.value)
    else
      WellFormedSize(t, Key);
      Success(|t.rows|)
  }

  /** `ListUnits`: one LIMIT/OFFSET window of all rows ordered by id. */
  function ListUnits(t: Units, page: Int64, pageSize: Int64, fault: Option<Error>): (r: Result<seq<Unit>, Error>)
    ensures fault.Some? ==> r == Failure(fault.value)
    ensures fault.None? ==> r == Page(t.rows, page, pageSize)
    ensures r.Success? ==> |r.value| <= pageSize && Ascending(r.value, Key)
  {
    if fault.Some? then Failure(fault.value)
    else
      PageKeepsAscending(t.rows, page, pageSize, Key);
      Page(t.rows, page, pageSize)
  }

  /** A listed unit fetched by its id is the same unit. */
  lemma ListedAgreesWithFetched(t: Units, page: Int64, pageSize: Int64, k: int)
    requires ListUnits(t, page, pageSize, None).Success?
    requires 0 <= k < |ListUnits(t, page, pageSize, None).value|
    ensures var x := ListUnits(t, page, pageSize, None).value[k];
            GetUnitByID(t, x.id, None) == Success(x)
  {
    var x := ListUnits(t, page, pageSize, None).value[k];
    var off := Offset(page, pageSize);
    assert x == t.rows[off + k];
    var j := off + k;
    assert 0 <= j < |t.rows| && t.rows[j].id == x.id;
    var v := GetUnitByID(t, x.id, None).value;
    var i :| 0 <= i < |t.rows| && t.rows[i] == v;
    IdsUnique(t, Key, i, j);
  }
}

/** The `models` table: read-only here. */
module ModelTable {

  import opened Wrappers
  import opened Ints
  import opened Errors
  import opened Query
  import opened ReferenceEntities

  function Key(m: Model): int {
    m.id
  }

  type Models = t: Table<Model> | WellFormed(t, Key) witness Table([], 1)

  /** `GetModelByID`: the row with that id. */
  function GetModelByID(t: Models, id: Int64, fault: Option<Error>): (r: Result<Model, Error>)
    ensures fault.Some? ==> r == Failure(fault.value)
    ensures fault.None? ==> (r.Success? <==> exists i :: 0 <= i < |t.rows| && t.rows[i].id == id)
    ensures fault.None? && r.Failure? ==> r.error == NotFoundModelByID
    ensures r.Success? ==> r.value.id == id && r.value in t.rows
  {
    if fault.Some? then Failure(fault.value)
    else match FindFirst(t.rows, (m: Model) => m.id == id)
      case None => Failure(NotFoundModelByID)
      case Some(i) => Success(t.rows[i])
  }

  /** `CountModels`: every row. */
  function CountModels(t: Models, fault: Option<Error>): (r: Result<Int64, Error>)
    ensures fault.Some? ==> r == Failure(fault.value)
    ensures fault.None? ==> r.Success? && r.value == |t.rows|
  {
    if fault.Some? then Failure(fault.value)
    else
      WellFormedSize(t, Key);
      Success(|t.rows|)
  }

  /** `ListModels`: one LIMIT/OFFSET window of all rows ordered by id. */
  function ListModels(t: Models, page: Int64, pageSize: Int64, fault: Option<Error>): (r: Result<seq<Model>, Error>)
    ensures fault.Some? ==> r == Failure(fault.value)
    ensures fault.None? ==> r == Page(t.rows, page, pageSize)
    ensures r.Success? ==> |r.value| <= pageSize && Ascending(r.value, Key)
  {
    if fault.Some? then Failure(fault.value)
    else
      PageKeepsAscending(t.rows, page, pageSize, Key);
      Page(t.rows, page, pageSize)
  }

  /** A listed model fetched by its id is the same model. */
  lemma ListedAgreesWithFetched(t: Models, page: Int64, pageSize: Int64, k: int)
    requires ListModels(t, page, pageSize, None).Success?
    requires 0 <= k < |ListModels(t, page, pageSize, None).value|
    ensures var x := ListModels(t, page, pageSize, None).value[k];
            GetModelByID(t, x.id, None) == Success(x)
  {
    var x := ListModels(t, page, pageSize, None).value[k];
    var off := Offset(page, pageSize);
    assert x == t.rows[off + k];
    var j := off + k;
    assert 0 <= j < |t.rows| && t.rows[j].id == x.id;
    var v := GetModelByID(t, x.id, None).value;
    var i :| 0 <= i < |t.rows| && t.rows[i] == v;
    IdsUnique(t, Key, i, j);
  }
}
