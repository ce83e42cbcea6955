/**
 * The customer account record: constructor, setters and password setting.
 * Every setter that changes content also stamps `ModifiedAt` with the
 * clock; the clock is the `now` argument.
 */
module AccountEntity {

  import opened Wrappers
  import opened Ints
  import opened Errors
  import opened Tokens
  import opened Records

  datatype Account = Account(
    id: Int64,
    email: string,
    passwordHash: string,
    salt: string,
    name: string,
    verified: bool,
    receivesUpdates: bool,
    createdAt: Instant,
    modifiedAt: Instant)

  /** Go's zero `Account{}`. */
  const Zero := Account(0, "", "", "", "", false, false, ZeroTime, ZeroTime)

  datatype Field = Id | Email | PasswordHash | Salt | Name | Verified | ReceivesUpdates | CreatedAt | ModifiedAt

  /** The getters: each field read as it is stored. */
  function Read(a: Account, f: Field): FieldValue {
    match f
    case Id => IdVal(a.id)
    case Email => TextVal(a.email)
    case PasswordHash => TextVal(a.passwordHash)
    case Salt => TextVal(a.salt)
    case Name => TextVal(a.name)
    case Verified => BoolVal(a.verified)
    case ReceivesUpdates => BoolVal(a.receivesUpdates)
    case CreatedAt => TimeVal(a.createdAt)
    case ModifiedAt => TimeVal(a.modifiedAt)
  }

  /** The getters together determine the record. */
  lemma ReadDeterminesAccount(a: Account, b: Account)
    requires forall f :: Read(a, f) == Read(b, f)
    ensures a == b
  {
    assert Read(a, Id) == Read(b, Id) && Read(a, Email) == Read(b, Email);
    assert Read(a, PasswordHash) == Read(b, PasswordHash) && Read(a, Salt) == Read(b, Salt);
    assert Read(a, Name) == Read(b, Name) && Read(a, Verified) == Read(b, Verified);
    assert Read(a, ReceivesUpdates) == Read(b, ReceivesUpdates);
    assert Read(a, CreatedAt) == Read(b, CreatedAt) && Read(a, ModifiedAt) == Read(b, ModifiedAt);
  }

  /** `NewAccount`: email, name and both timestamps set; every other field zero. */
  function NewAccount(email: string, name: string, now: Instant): (r: Account)
    ensures forall f ::
              Read(r, f) == match f
                            case Email => TextVal(email)
                            case Name => TextVal(name)
                            case CreatedAt => TimeVal(now)
                            case ModifiedAt => TimeVal(now)
                            case _ => Read(Zero, f)
  {
    Zero.(email := email, name := name, createdAt := now, modifiedAt := now)
  }

  /** The setters, one constructor each, carrying the value they store. */
  datatype Setter =
    | SetID(newId: Int64)
    | SetEmail(newEmail: string)
    | SetPasswordHash(newHash: string)
    | SetSalt(newSalt: string)
    | SetName(newName: string)
    | SetVerified(newVerified: bool)
    | SetReceivesUpdates(newReceivesUpdates: bool)
    | SetCreatedAt(newCreatedAt: Instant)
    | SetModifiedAt(newModifiedAt: Instant)

  /** The field a setter writes. */
  function Target(s: Setter): Field {
    match s
    case SetID(_) => Id
    case SetEmail(_) => Email
    case SetPasswordHash(_) => PasswordHash
    case SetSalt(_) => Salt
    case SetName(_) => Name
    case SetVerified(_) => Verified
    case SetReceivesUpdates(_) => ReceivesUpdates
    case SetCreatedAt(_) => CreatedAt
    case SetModifiedAt(_) => ModifiedAt
  }

  /** The value a setter writes, as its getter reads it back. */
  function Written(s: Setter): FieldValue {
    match s
    case SetID(v) => IdVal(v)
    case SetEmail(v) => TextVal(v)
    case SetPasswordHash(v) => TextVal(v)
    case SetSalt(v) => TextVal(v)
    case SetName(v) => TextVal(v)
    case SetVerified(v) => BoolVal(v)
    case SetReceivesUpdates(v) => BoolVal(v)
    case SetCreatedAt(v) => TimeVal(v)
    case SetModifiedAt(v) => TimeVal(v)
  }

  /** Content setters stamp the clock; the id and the two timestamps do not. */
  predicate Stamps(s: Setter) {
    !(s.SetID? || s.SetCreatedAt? || s.SetModifiedAt?)
  }

  /**
   * A setter call: its own field takes the new value, a content setter
   * also sets `ModifiedAt` to `now`, and every other field is unchanged.
   */
  function Apply(a: Account, s: Setter, now: Instant): (r: Account)
    ensures forall f ::
              Read(r, f) == if f == Target(s) then Written(s)
                            else if f == ModifiedAt && Stamps(s) then TimeVal(now)
                            else Read(a, f)
  {
    match s
    case SetID(v) => a.(id := v)
    case SetEmail(v) => a.(email := v, modifiedAt := now)
    case SetPasswordHash(v) => a.(passwordHash := v, modifiedAt := now)
    case SetSalt(v) => a.(salt := v, modifiedAt := now)
    case SetName(v) => a.(name := v, modifiedAt := now)
    case SetVerified(v) => a.(verified := v, modifiedAt := now)
    case SetReceivesUpdates(v) => a.(receivesUpdates := v, modifiedAt := now)
    case SetCreatedAt(v) => a.(createdAt := v)
    case SetModifiedAt(v) => a.(modifiedAt := v)
  }

  /** Calling the same setter twice is the same as calling it once. */
  lemma ApplyIdempotent(a: Account, s: Setter, now: Instant)
    ensures Apply(Apply(a, s, now), s, now) == Apply(a, s, now)
  {
    var once := Apply(a, s, now);
    var twice := Apply(once, s, now);
    forall f ensures Read(twice, f) == Read(once, f) {
    }
    ReadDeterminesAccount(twice, once);
  }

  /** Setters of different fields commute when they share a clock reading. */
  lemma SettersCommute(a: Account, s1: Setter, s2: Setter, now: Instant)
    requires Target(s1) != Target(s2)
    requires s1.SetModifiedAt? ==> !Stamps(s2)
    requires s2.SetModifiedAt? ==> !Stamps(s1)
    ensures Apply(Apply(a, s1, now), s2, now) == Apply(Apply(a, s2, now), s1, now)
  {
    var left := Apply(Apply(a, s1, now), s2, now);
    var right := Apply(Apply(a, s2, now), s1, now);
    forall f ensures Read(left, f) == Read(right, f) {
    }
    ReadDeterminesAccount(left, right);
  }

  /** bcrypt's `GenerateFromPassword`, an oracle: the hash of its input, or an error. */
  type Hasher = string -> Result<string, Error>

  /**
   * `SetPassword`: hashes password and salt concatenated. A hashing failure
   * is returned and the record is not touched; on success the hash and the
   * salt are stored and `ModifiedAt` is stamped.
   */
  function SetPassword(a: Account, password: string, salt: string, hash: Hasher, now: Instant): (r: Result<Account, Error>)
    ensures r.Failure? <==> hash(password + salt).Failure?
    ensures r.Failure? ==> r.error == hash(password + salt).error
    ensures r.Success? ==>
              forall f ::
                Read(r.value, f) == match f
                                    case PasswordHash => TextVal(hash(password + salt).value)
                                    case Salt => TextVal(salt)
                                    case ModifiedAt => TimeVal(now)
                                    case _ => Read(a, f)
  {
    match hash(password + salt)
    case Failure(e) => Failure(e)
    case Success(h) => Success(a.(passwordHash := h, salt := salt, modifiedAt := now))
  }

  /** A successful `SetPassword` is `SetPasswordHash` of the hash followed by `SetSalt`. */
  lemma SetPasswordIsHashThenSalt(a: Account, password: string, salt: string, hash: Hasher, now: Instant)
    requires hash(password + salt).Success?
    ensures SetPassword(a, password, salt, hash, now) ==
      Success(Apply(Apply(a, SetPasswordHash(hash(password + salt).value), now), SetSalt(salt), now))
  {
    var r := SetPassword(a, password, salt, hash, now).value;
    var s := Apply(Apply(a, SetPasswordHash(hash(password + salt).value), now), SetSalt(salt), now);
    forall f ensures Read(r, f) == Read(s, f) {
    }
    ReadDeterminesAccount(r, s);
  }
}
