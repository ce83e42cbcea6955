/** The device record: a unit of some model, owned by an account, with its configuration. */
module DeviceEntity {

  import opened Wrappers
  import opened Ints
  import opened Tokens
  import opened Json
  import opened Records

  datatype Device = Device(
    id: Int64,
    accountId: Int64,
    name: string,
    serialNumber: string,
    modelId: Int64,
    modelConfig: map<string, Json>,
    createdAt: Instant,
    modifiedAt: Instant)

  const Zero := Device(0, 0, "", "", 0, map[], ZeroTime, ZeroTime)

  datatype Field = Id | AccountId | Name | SerialNumber | ModelId | ModelConfig | CreatedAt | ModifiedAt

  /** The getters; `GetModelConfig` returns the stored map itself. */
  function Read(d: Device, f: Field): FieldValue {
    match f
    case Id => IdVal(d.id)
    case AccountId => IdVal(d.accountId)
    case Name => TextVal(d.name)
    case SerialNumber => TextVal(d.serialNumber)
    case ModelId => IdVal(d.modelId)
    case ModelConfig => ConfigVal(d.modelConfig)
    case CreatedAt => TimeVal(d.createdAt)
    case ModifiedAt => TimeVal(d.modifiedAt)
  }

  lemma ReadDeterminesDevice(a: Device, b: Device)
    requires forall f :: Read(a, f) == Read(b, f)
    ensures a == b
  {
    assert Read(a, Id) == Read(b, Id) && Read(a, AccountId) == Read(b, AccountId);
    assert Read(a, Name) == Read(b, Name) && Read(a, SerialNumber) == Read(b, SerialNumber);
    assert Read(a, ModelId) == Read(b, ModelId) && Read(a, ModelConfig) == Read(b, ModelConfig);
    assert Read(a, CreatedAt) == Read(b, CreatedAt) && Read(a, ModifiedAt) == Read(b, ModifiedAt);
  }

  /** `NewDevice`: every field but the id from the arguments, both timestamps from the clock. */
  function NewDevice(accountId: Int64, modelId: Int64, name: string, serialNumber: string,
                     config: map<string, Json>, now: Instant): (r: Device)
    ensures forall f ::
              Read(r, f) == match f
                            case Id => IdVal(0)
                            case AccountId => IdVal(accountId)
                            case Name => TextVal(name)
                            case SerialNumber => TextVal(serialNumber)
                            case ModelId => IdVal(modelId)
                            case ModelConfig => ConfigVal(config)
                            case CreatedAt => TimeVal(now)
                            case ModifiedAt => TimeVal(now)
  {
    Device(0, accountId, name, serialNumber, modelId, config, now, now)
  }

  datatype Setter =
    | SetID(newId: Int64)
    | SetAccountId(newAccountId: Int64)
    | SetName(newName: string)
    | SetSerialNumber(newSerialNumber: string)
    | SetModelId(newModelId: Int64)
    | SetModelConfig(newConfig: map<string, Json>)
    | SetCreatedAt(newCreatedAt: Instant)
    | SetModifiedAt(newModifiedAt: Instant)

  function Target(s: Setter): Field {
    match s
    case SetID(_) => Id
    case SetAccountId(_) => AccountId
    case SetName(_) => Name
    case SetSerialNumber(_) => SerialNumber
    case SetModelId(_) => ModelId
    case SetModelConfig(_) => ModelConfig
    case SetCreatedAt(_) => CreatedAt
    case SetModifiedAt(_) => ModifiedAt
  }

  function Written(s: Setter): FieldValue {
    match s
    case SetID(v) => IdVal(v)
    case SetAccountId(v) => IdVal(v)
    case SetName(v) => TextVal(v)
    case SetSerialNumber(v) => TextVal(v)
    case SetModelId(v) => IdVal(v)
    case SetModelConfig(v) => ConfigVal(v)
    case SetCreatedAt(v) => TimeVal(v)
    case SetModifiedAt(v) => TimeVal(v)
  }

  predicate Stamps(s: Setter) {
    !(s.SetID? || s.SetCreatedAt? || s.SetModifiedAt?)
  }

  function Apply(d: Device, s: Setter, now: Instant): (r: Device)
    ensures forall f ::
              Read(r, f) == if f == Target(s) then Written(s)
                            else if f == ModifiedAt && Stamps(s) then TimeVal(now)
                            else Read(d, f)
  {
    match s
    case SetID(v) => d.(id := v)
    case SetAccountId(v) => d.(accountId := v, modifiedAt := now)
    case SetName(v) => d.(name := v, modifiedAt := now)
    case SetSerialNumber(v) => d.(serialNumber := v, modifiedAt := now)
    case SetModelId(v) => d.(modelId := v, modifiedAt := now)
    case SetModelConfig(v) => d.(modelConfig := v, modifiedAt := now)
    case SetCreatedAt(v) => d.(createdAt := v)
    case SetModifiedAt(v) => d.(modifiedAt := v)
  }

  lemma ApplyIdempotent(d: Device, s: Setter, now: Instant)
    ensures Apply(Apply(d, s, now), s, now) == Apply(d, s, now)
  {
    var once := Apply(d, s, now);
    var twice := Apply(once, s, now);
    forall f ensures Read(twice, f) == Read(once, f) {
    }
    ReadDeterminesDevice(twice, once);
  }

  /** Setters of different fields commute when they share a clock reading. */
  lemma SettersCommute(d: Device, s1: Setter, s2: Setter, now: Instant)
    requires Target(s1) != Target(s2)
    requires s1.SetModifiedAt? ==> !Stamps(s2)
    requires s2.SetModifiedAt? ==> !Stamps(s1)
    ensures Apply(Apply(d, s1, now), s2, now) == Apply(Apply(d, s2, now), s1, now)
  {
    var left := Apply(Apply(d, s1, now), s2, now);
    var right := Apply(Apply(d, s2, now), s1, now);
    forall f ensures Read(left, f) == Read(right, f) {
    }
    ReadDeterminesDevice(left, right);
  }
}

/**
 * The reference records: sensors, units and models. They are plain field
 * holders; only the tables over them have behaviour.
 */
module ReferenceEntities {

  import opened Ints
  import opened Tokens
  import opened Json

  datatype Sensor = Sensor(
    id: Int64,
    unitId: Int64,
    code: string,
    name: string,
    configRequired: map<string, Json>,
    defaultConfig: map<string, Json>,
    createdAt: Instant,
    modifiedAt: Instant)

  const ZeroSensor := Sensor(0, 0, "", "", map[], map[], ZeroTime, ZeroTime)

  datatype Unit = Unit(id: Int64, name: string, symbol: string)

  const ZeroUnit := Unit(0, "", "")

  datatype Model = Model(id: Int64, name: string, code: string, createdAt: Instant, modifiedAt: Instant)

  const ZeroModel := Model(0, "", "", ZeroTime, ZeroTime)
}
