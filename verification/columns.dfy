/**
 * The column types of the entity packages and their `Scan`/`Value` pair:
 * `Scan` decodes whatever the SQL driver hands over, `Value` encodes for a
 * statement argument. The account's own `accountText`, `accountBool` and
 * `accountDate` share the rules of the customer package's `mysqlText`,
 * `mysqlBool` and `mysqlDate`, so both are modelled by the one set of
 * functions below. `accountRecordId` has no `Scan` of its own.
 */
module Columns {

  import opened Wrappers
  import opened Ints
  import opened Errors
  import opened Tokens
  import opened Json

  /** The values `database/sql/driver` may pass to `Scan`. */
  datatype DriverValue =
    | DNull
    | DInt64(i: Int64)
    | DFloat64(bits: bv64)
    | DBool(b: bool)
    | DBytes(bytes: seq<char>)
    | DString(s: string)
    | DTime(t: Instant)

  const NotInt64 := Opaque("type assertion to int64 failed")
  const NotBytes := Opaque("type assertion to []byte failed")
  const NotBool := Opaque("type assertion to bool failed")
  const NotTime := Opaque("type assertion to time.Time failed")

  /** Record ids accept only an int64; even a NULL is refused. */
  function ScanRecordId(v: DriverValue): (r: Result<Int64, Error>)
    ensures r.Success? <==> v.DInt64?
    ensures r.Failure? ==> r.error == NotInt64
  {
    match v
    case DInt64(i) => Success(i)
    case _ => Failure(NotInt64)
  }

  function RecordIdValue(id: Int64): DriverValue {
    DInt64(id)
  }

  /** Text accepts NULL (as "") and raw bytes; a driver string is refused. */
  function ScanText(v: DriverValue): (r: Result<string, Error>)
    ensures r.Success? <==> v.DNull? || v.DBytes?
    ensures v.DNull? ==> r == Success("")
    ensures v.DBytes? ==> r == Success(v.bytes)
    ensures r.Failure? ==> r.error == NotBytes
  {
    match v
    case DNull => Success("")
    case DBytes(b) => Success(b)
    case _ => Failure(NotBytes)
  }

  function TextValue(s: string): DriverValue {
    DString(s)
  }

  /** Booleans: NULL is false, int64 is "non-zero", and of strings only "true" is true. */
  function ScanBool(v: DriverValue): (r: Result<bool, Error>)
    ensures r.Success? <==> v.DNull? || v.DBool? || v.DInt64? || v.DString?
    ensures r.Success? ==> (r.value <==> (v.DBool? && v.b) || (v.DInt64? && v.i != 0) || (v.DString? && v.s == "true"))
    ensures r.Failure? ==> r.error == NotBool
  {
    match v
    case DNull => Success(false)
    case DBool(b) => Success(b)
    case DInt64(i) => Success(i != 0)
    case DString(s) => Success(s == "true")
    case _ => Failure(NotBool)
  }

  function BoolValue(b: bool): DriverValue {
    DBool(b)
  }

  /** Dates: NULL is Go's zero time, anything but a time is refused. */
  function ScanDate(v: DriverValue): (r: Result<Instant, Error>)
    ensures r.Success? <==> v.DNull? || v.DTime?
    ensures v.DNull? ==> r == Success(ZeroTime)
    ensures v.DTime? ==> r == Success(v.t)
    ensures r.Failure? ==> r.error == NotTime
  {
    match v
    case DNull => Success(ZeroTime)
    case DTime(t) => Success(t)
    case _ => Failure(NotTime)
  }

  function DateValue(t: Instant): DriverValue {
    DTime(t)
  }

  /** Record ids, booleans and dates survive a `Value` then `Scan` round trip. */
  lemma RoundTrips(id: Int64, b: bool, t: Instant)
    ensures ScanRecordId(RecordIdValue(id)) == Success(id)
    ensures ScanBool(BoolValue(b)) == Success(b)
    ensures ScanDate(DateValue(t)) == Success(t)
  {
  }

  /** Text does not: `Value` yields a driver string, which `Scan` refuses. */
  lemma TextDoesNotRoundTrip(s: string)
    ensures ScanText(TextValue(s)) == Failure(NotBytes)
    ensures ScanText(DBytes(s)) == Success(s)
  {
  }

  /** A record id never decodes from NULL, while text, booleans and dates all give their zero. */
  lemma NullDecodesToZero()
    ensures ScanRecordId(DNull).Failure?
    ensures ScanText(DNull) == Success("") && ScanBool(DNull) == Success(false) && ScanDate(DNull) == Success(ZeroTime)
  {
  }
}

/**
 * `mysqlJson`: a device's model configuration, a map from keys to decoded
 * JSON values stored as a JSON document.
 */
module JsonColumn {

  import opened Wrappers
  import opened Errors
  import opened Json
  import opened Columns

  type JsonMap = map<string, Json>

  const KeyNotFound := Opaque("key not found")

  /**
   * What `json.Unmarshal` makes of a byte string aimed at a map: an object,
   * JSON null (`None`), or an error. It is an oracle of the model.
   */
  type MapDecoder = seq<char> -> Result<Option<JsonMap>, Error>

  /**
   * `Scan`: anything but bytes is refused (with the int64 message the source
   * reuses). Decoding into a non-nil map keeps its entries and overwrites
   * the decoded keys; JSON null resets the map.
   */
  function Scan(m: JsonMap, v: DriverValue, decode: MapDecoder): (r: Result<JsonMap, Error>)
    ensures !v.DBytes? ==> r == Failure(NotInt64)
    ensures v.DBytes? && decode(v.bytes).Failure? ==> r == Failure(decode(v.bytes).error)
    ensures v.DBytes? && decode(v.bytes) == Success(None) ==> r == Success(map[])
    ensures v.DBytes? && decode(v.bytes).Success? && decode(v.bytes).value.Some? ==>
      var d := decode(v.bytes).value.value;
      r.Success? && r.value.Keys == m.Keys + d.Keys &&
      (forall k :: k in d ==> r.value[k] == d[k]) &&
      (forall k :: k in m && k !in d ==> r.value[k] == m[k])
  {
    if !v.DBytes? then Failure(NotInt64)
    else match decode(v.bytes)
      case Failure(e) => Failure(e)
      case Success(None) => Success(map[])
      case Success(Some(d)) => Success(m + d)
  }

  function Get(m: JsonMap, key: string): (r: Result<Json, Error>)
    ensures r.Success? <==> key in m
    ensures r.Success? ==> r.value == m[key]
    ensures r.Failure? ==> r.error == KeyNotFound
  {
    if key in m then Success(m[key]) else Failure(KeyNotFound)
  }

  function Set(m: JsonMap, key: string, value: Json): (r: JsonMap)
    ensures r.Keys == m.Keys + {key}
  {
    m[key := value]
  }

  function Delete(m: JsonMap, key: string): (r: JsonMap)
    ensures r.Keys == m.Keys - {key}
  {
    m - {key}
  }

  /** `Map` hands back the underlying map itself. */
  function AsMap(m: JsonMap): (r: map<string, Json>)
    ensures forall k :: Get(m, k).Success? <==> k in r
    ensures forall k :: k in r ==> Get(m, k) == Success(r[k])
  {
    m
  }

  /** `Get` after `Set` reads the value just set, and every other key reads as before. */
  lemma GetAfterSet(m: JsonMap, key: string, value: Json, other: string)
    ensures Get(Set(m, key, value), key) == Success(value)
    ensures other != key ==> Get(Set(m, key, value), other) == Get(m, other)
  {
  }

  /** `Get` after `Delete` fails, other keys read as before, and deleting an absent key changes nothing. */
  lemma GetAfterDelete(m: JsonMap, key: string, other: string)
    ensures Get(Delete(m, key), key) == Failure(KeyNotFound)
    ensures other != key ==> Get(Delete(m, key), other) == Get(m, other)
    ensures key !in m ==> Delete(m, key) == m
  {
  }

  /** Setting a key and then deleting it leaves the map as it was without that key. */
  lemma DeleteUndoesSet(m: JsonMap, key: string, value: Json)
    ensures Delete(Set(m, key, value), key) == Delete(m, key)
  {
  }

  /** Scanning into an empty receiver gives exactly the decoded object. */
  lemma ScanIntoEmptyIsDecoded(bytes: seq<char>, d: JsonMap, decode: MapDecoder)
    requires decode(bytes) == Success(Some(d))
    ensures Scan(map[], DBytes(bytes), decode) == Success(d)
  {
    var e: JsonMap := map[];
    assert e + d == d;
  }
}
