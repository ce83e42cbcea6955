/** The user record: a person belonging to an account. */
module UserEntity {

  import opened Wrappers
  import opened Ints
  import opened Tokens
  import opened Records

  datatype User = User(
    id: Int64,
    accountId: Int64,
    email: string,
    cell: string,
    firstName: string,
    lastName: string,
    verified: bool,
    receivesUpdates: bool,
    createdAt: Instant,
    modifiedAt: Instant)

  const Zero := User(0, 0, "", "", "", "", false, false, ZeroTime, ZeroTime)

  datatype Field =
    | Id | AccountId | Email | Cell | FirstName | LastName
    | Verified | ReceivesUpdates | CreatedAt | ModifiedAt

  function Read(u: User, f: Field): FieldValue {
    match f
    case Id => IdVal(u.id)
    case AccountId => IdVal(u.accountId)
    case Email => TextVal(u.email)
    case Cell => TextVal(u.cell)
    case FirstName => TextVal(u.firstName)
    case LastName => TextVal(u.lastName)
    case Verified => BoolVal(u.verified)
    case ReceivesUpdates => BoolVal(u.receivesUpdates)
    case CreatedAt => TimeVal(u.createdAt)
    case ModifiedAt => TimeVal(u.modifiedAt)
  }

  lemma ReadDeterminesUser(a: User, b: User)
    requires forall f :: Read(a, f) == Read(b, f)
    ensures a == b
  {
    assert Read(a, Id) == Read(b, Id) && Read(a, AccountId) == Read(b, AccountId);
    assert Read(a, Email) == Read(b, Email) && Read(a, Cell) == Read(b, Cell);
    assert Read(a, FirstName) == Read(b, FirstName) && Read(a, LastName) == Read(b, LastName);
    assert Read(a, Verified) == Read(b, Verified) && Read(a, ReceivesUpdates) == Read(b, ReceivesUpdates);
    assert Read(a, CreatedAt) == Read(b, CreatedAt) && Read(a, ModifiedAt) == Read(b, ModifiedAt);
  }

  /** `NewUser`: account, email, both flags false and both timestamps set; names and cell empty. */
  function NewUser(accountId: Int64, email: string, now: Instant): (r: User)
    ensures forall f ::
              Read(r, f) == match f
                            case AccountId => IdVal(accountId)
                            case Email => TextVal(email)
                            case Verified => BoolVal(false)
                            case ReceivesUpdates => BoolVal(false)
                            case CreatedAt => TimeVal(now)
                            case ModifiedAt => TimeVal(now)
                            case _ => Read(Zero, f)
  {
    Zero.(accountId := accountId, email := email, verified := false, receivesUpdates := false, createdAt := now, modifiedAt := now)
  }

  datatype Setter =
    | SetID(newId: Int64)
    | SetAccountId(newAccountId: Int64)
    | SetEmail(newEmail: string)
    | SetCell(newCell: string)
    | SetFirstName(newFirstName: string)
    | SetLastName(newLastName: string)
    | SetVerified(newVerified: bool)
    | SetReceivesUpdates(newReceivesUpdates: bool)
    | SetCreatedAt(newCreatedAt: Instant)
    | SetModifiedAt(newModifiedAt: Instant)

  function Target(s: Setter): Field {
    match s
    case SetID(_) => Id
    case SetAccountId(_) => AccountId
    case SetEmail(_) => Email
    case SetCell(_) => Cell
    case SetFirstName(_) => FirstName
    case SetLastName(_) => LastName
    case SetVerified(_) => Verified
    case SetReceivesUpdates(_) => ReceivesUpdates
    case SetCreatedAt(_) => CreatedAt
    case SetModifiedAt(_) => ModifiedAt
  }

  function Written(s: Setter): FieldValue {
    match s
    case SetID(v) => IdVal(v)
    case SetAccountId(v) => IdVal(v)
    case SetEmail(v) => TextVal(v)
    case SetCell(v) => TextVal(v)
    case SetFirstName(v) => TextVal(v)
    case SetLastName(v) => TextVal(v)
    case SetVerified(v) => BoolVal(v)
    case SetReceivesUpdates(v) => BoolVal(v)
    case SetCreatedAt(v) => TimeVal(v)
    case SetModifiedAt(v) => TimeVal(v)
  }

  predicate Stamps(s: Setter) {
    !(s.SetID? || s.SetCreatedAt? || s.SetModifiedAt?)
  }

  function Apply(u: User, s: Setter, now: Instant): (r: User)
    ensures forall f ::
              Read(r, f) == if f == Target(s) then Written(s)
                            else if f == ModifiedAt && Stamps(s) then TimeVal(now)
                            else Read(u, f)
  {
    match s
    case SetID(v) => u.(id := v)
    case SetAccountId(v) => u.(accountId := v, modifiedAt := now)
    case SetEmail(v) => u.(email := v, modifiedAt := now)
    case SetCell(v) => u.(cell := v, modifiedAt := now)
    case SetFirstName(v) => u.(firstName := v, modifiedAt := now)
    case SetLastName(v) => u.(lastName := v, modifiedAt := now)
    case SetVerified(v) => u.(verified := v, modifiedAt := now)
    case SetReceivesUpdates(v) => u.(receivesUpdates := v, modifiedAt := now)
    case SetCreatedAt(v) => u.(createdAt := v)
    case SetModifiedAt(v) => u.(modifiedAt := v)
  }

  lemma ApplyIdempotent(u: User, s: Setter, now: Instant)
    ensures Apply(Apply(u, s, now), s, now) == Apply(u, s, now)
  {
    var once := Apply(u, s, now);
    var twice := Apply(once, s, now);
    forall f ensures Read(twice, f) == Read(once, f) {
    }
    ReadDeterminesUser(twice, once);
  }
}
