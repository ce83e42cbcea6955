/**
 * The postal address record. Address line 2 and state are optional
 * (nil-able fields in the source): absent until their setter runs, and read back
 * as "" while absent.
 */
module AddressEntity {

  import opened Wrappers
  import opened Ints
  import opened Tokens
  import opened Records

  datatype Address = Address(
    id: Int64,
    accountId: Int64,
    name: string,
    addressLine1: string,
    addressLine2: Option<string>,
    city: string,
    state: Option<string>,
    postalCode: string,
    country: string,
    verified: bool,
    createdAt: Instant,
    modifiedAt: Instant)

  /** Go's zero `Address{}`: both optional fields nil. */
  const Zero := Address(0, 0, "", "", None, "", None, "", "", false, ZeroTime, ZeroTime)

  datatype Field =
    | Id | AccountId | Name | AddressLine1 | AddressLine2 | City | State
    | PostalCode | Country | Verified | CreatedAt | ModifiedAt

  /** Each field as stored; the optional ones keep their absence. */
  function Read(a: Address, f: Field): FieldValue {
    match f
    case Id => IdVal(a.id)
    case AccountId => IdVal(a.accountId)
    case Name => TextVal(a.name)
    case AddressLine1 => TextVal(a.addressLine1)
    case AddressLine2 => OptTextVal(a.addressLine2)
    case City => TextVal(a.city)
    case State => OptTextVal(a.state)
    case PostalCode => TextVal(a.postalCode)
    case Country => TextVal(a.country)
    case Verified => BoolVal(a.verified)
    case CreatedAt => TimeVal(a.createdAt)
    case ModifiedAt => TimeVal(a.modifiedAt)
  }

  lemma ReadDeterminesAddress(a: Address, b: Address)
    requires forall f :: Read(a, f) == Read(b, f)
    ensures a == b
  {
    assert Read(a, Id) == Read(b, Id) && Read(a, AccountId) == Read(b, AccountId);
    assert Read(a, Name) == Read(b, Name) && Read(a, AddressLine1) == Read(b, AddressLine1);
    assert Read(a, AddressLine2) == Read(b, AddressLine2) && Read(a, City) == Read(b, City);
    assert Read(a, State) == Read(b, State) && Read(a, PostalCode) == Read(b, PostalCode);
    assert Read(a, Country) == Read(b, Country) && Read(a, Verified) == Read(b, Verified);
    assert Read(a, CreatedAt) == Read(b, CreatedAt) && Read(a, ModifiedAt) == Read(b, ModifiedAt);
  }

  /** `GetAddressLine2`: the stored line, or "" when there is none. */
  function GetAddressLine2(a: Address): (r: string)
    ensures a.addressLine2.Some? ==> r == a.addressLine2.value
    ensures a.addressLine2.None? ==> r == ""
  {
    a.addressLine2.GetOr("")
  }

  /** `GetState`: the stored state, or "" when there is none. */
  function GetState(a: Address): (r: string)
    ensures a.state.Some? ==> r == a.state.value
    ensures a.state.None? ==> r == ""
  {
    a.state.GetOr("")
  }

  /** `NewAddress`: the owning account and both timestamps; text empty, optional fields absent. */
  function NewAddress(accountId: Int64, now: Instant): (r: Address)
    ensures forall f ::
              Read(r, f) == match f
                            case AccountId => IdVal(accountId)
                            case CreatedAt => TimeVal(now)
                            case ModifiedAt => TimeVal(now)
                            case _ => Read(Zero, f)
  {
    Zero.(accountId := accountId, createdAt := now, modifiedAt := now)
  }

  datatype Setter =
    | SetID(newId: Int64)
    | SetAccountId(newAccountId: Int64)
    | SetName(newName: string)
    | SetAddressLine1(newLine1: string)
    | SetAddressLine2(newLine2: string)
    | SetCity(newCity: string)
    | SetState(newState: string)
    | SetPostalCode(newPostalCode: string)
    | SetCountry(newCountry: string)
    | SetVerified(newVerified: bool)
    | SetCreatedAt(newCreatedAt: Instant)
    | SetModifiedAt(newModifiedAt: Instant)

  function Target(s: Setter): Field {
    match s
    case SetID(_) => Id
    case SetAccountId(_) => AccountId
    case SetName(_) => Name
    case SetAddressLine1(_) => AddressLine1
    case SetAddressLine2(_) => AddressLine2
    case SetCity(_) => City
    case SetState(_) => State
    case SetPostalCode(_) => PostalCode
    case SetCountry(_) => Country
    case SetVerified(_) => Verified
    case SetCreatedAt(_) => CreatedAt
    case SetModifiedAt(_) => ModifiedAt
  }

  /** The optional fields' setters always store a present value, "" included. */
  function Written(s: Setter): FieldValue {
    match s
    case SetID(v) => IdVal(v)
    case SetAccountId(v) => IdVal(v)
    case SetName(v) => TextVal(v)
    case SetAddressLine1(v) => TextVal(v)
    case SetAddressLine2(v) => OptTextVal(Some(v))
    case SetCity(v) => TextVal(v)
    case SetState(v) => OptTextVal(Some(v))
    case SetPostalCode(v) => TextVal(v)
    case SetCountry(v) => TextVal(v)
    case SetVerified(v) => BoolVal(v)
    case SetCreatedAt(v) => TimeVal(v)
    case SetModifiedAt(v) => TimeVal(v)
  }

  /** Every content setter stamps the clock, the account id's included. */
  predicate Stamps(s: Setter) {
    !(s.SetID? || s.SetCreatedAt? || s.SetModifiedAt?)
  }

  function Apply(a: Address, s: Setter, now: Instant): (r: Address)
    ensures forall f ::
              Read(r, f) == if f == Target(s) then Written(s)
                            else if f == ModifiedAt && Stamps(s) then TimeVal(now)
                            else Read(a, f)
  {
    match s
    case SetID(v) => a.(id := v)
    case SetAccountId(v) => a.(accountId := v, modifiedAt := now)
    case SetName(v) => a.(name := v, modifiedAt := now)
    case SetAddressLine1(v) => a.(addressLine1 := v, modifiedAt := now)
    case SetAddressLine2(v) => a.(addressLine2 := Some(v), modifiedAt := now)
    case SetCity(v) => a.(city := v, modifiedAt := now)
    case SetState(v) => a.(state := Some(v), modifiedAt := now)
    case SetPostalCode(v) => a.(postalCode := v, modifiedAt := now)
    case SetCountry(v) => a.(country := v, modifiedAt := now)
    case SetVerified(v) => a.(verified := v, modifiedAt := now)
    case SetCreatedAt(v) => a.(createdAt := v)
    case SetModifiedAt(v) => a.(modifiedAt := v)
  }

  lemma ApplyIdempotent(a: Address, s: Setter, now: Instant)
    ensures Apply(Apply(a, s, now), s, now) == Apply(a, s, now)
  {
    var once := Apply(a, s, now);
    var twice := Apply(once, s, now);
    forall f ensures Read(twice, f) == Read(once, f) {
    }
    ReadDeterminesAddress(twice, once);
  }

  /**
   * The optional getters read back what their setter stored, and a fresh
   * address reads "" for both although nothing is stored.
   */
  lemma OptionalGettersAfterSetters(a: Address, line2: string, state: string, accountId: Int64, now: Instant)
    ensures GetAddressLine2(Apply(a, SetAddressLine2(line2), now)) == line2
    ensures GetState(Apply(a, SetState(state), now)) == state
    ensures GetAddressLine2(NewAddress(accountId, now)) == "" && GetState(NewAddress(accountId, now)) == ""
    ensures Apply(a, SetAddressLine2(""), now).addressLine2.Some?
    ensures NewAddress(accountId, now).addressLine2.None?
  {
    assert Read(Apply(a, SetAddressLine2(line2), now), AddressLine2) == OptTextVal(Some(line2));
    assert Read(Apply(a, SetState(state), now), State) == OptTextVal(Some(state));
    assert Read(Apply(a, SetAddressLine2(""), now), AddressLine2) == OptTextVal(Some(""));
    assert Read(NewAddress(accountId, now), AddressLine2) == OptTextVal(None);
    assert Read(NewAddress(accountId, now), State) == OptTextVal(None);
  }
}
