/**
 * The customer controller: the handlers behind the account, address and
 * user routes. A body that fails to decode or validate, and a path
 * parameter that fails to parse, are answered with the mapping-error
 * envelope; failures of the domain are answered through
 * `RespondWithError`, except where noted. Every handler that names an
 * account in its path looks it up first and acts on the account it found;
 * none of them consults the caller's token.
 */
module CustomerController {

  import opened Wrappers
  import opened Ints
  import opened Errors
  import opened Tokens
  import opened HttpHelpers
  import opened Query
  import AccountEntity
  import AddressEntity
  import UserEntity
  import AccountTable
  import AddressTable
  import UserTable
  import CustomerDomain

  /** The body of an account request. */
  datatype AccountRequest = AccountRequest(email: string, password: string, name: string, receivesUpdates: bool)

  const BlankAccountRequest := AccountRequest("", "", "", false)

  /** The body of an address request. */
  datatype AddressRequest = AddressRequest(
    name: string, addressLine1: string, addressLine2: string, city: string,
    state: string, postalCode: string, country: string)

  const BlankAddressRequest := AddressRequest("", "", "", "", "", "", "")

  /** The body of a user request; its account id is never read. */
  datatype UserRequest = UserRequest(
    accountId: Int64, email: string, cell: string, firstName: string, lastName: string,
    verified: bool, receivesUpdates: bool)

  const BlankUserRequest := UserRequest(0, "", "", "", "", false, false)

  /** What a client is shown of an account: never the password hash or the salt. */
  datatype AccountView = AccountView(
    id: Int64, email: string, name: string, receivesUpdates: bool, createdAt: Instant, modifiedAt: Instant)

  datatype AddressView = AddressView(
    id: Int64, name: string, addressLine1: string, addressLine2: string, city: string,
    state: string, postalCode: string, country: string, createdAt: Instant, modifiedAt: Instant)

  datatype UserView = UserView(
    id: Int64, email: string, cell: string, firstName: string, lastName: string,
    verified: bool, receivesUpdates: bool, createdAt: Instant, modifiedAt: Instant)

  function ViewAccount(a: AccountEntity.Account): AccountView {
    AccountView(a.id, a.email, a.name, a.receivesUpdates, a.createdAt, a.modifiedAt)
  }

  function ViewAddress(a: AddressEntity.Address): AddressView {
    AddressView(a.id, a.name, a.addressLine1, AddressEntity.GetAddressLine2(a), a.city,
                AddressEntity.GetState(a), a.postalCode, a.country, a.createdAt, a.modifiedAt)
  }

  /** The single-address read leaves both timestamps out of its envelope, so they go out as the zero time. */
  function ViewAddressUndated(a: AddressEntity.Address): AddressView {
    ViewAddress(a).(createdAt := ZeroTime, modifiedAt := ZeroTime)
  }

  function ViewUser(u: UserEntity.User): UserView {
    UserView(u.id, u.email, u.cell, u.firstName, u.lastName, u.verified, u.receivesUpdates, u.createdAt, u.modifiedAt)
  }

  /** The tables the controller reaches. */
  datatype Store = Store(
    accounts: CustomerDomain.Accounts,
    addresses: CustomerDomain.Addresses,
    users: CustomerDomain.Users)

  /** A write handler's answer together with the store it leaves behind. */
  datatype Handled<P> = Handled(store: Store, reply: Reply<P>)

  function AccountLookup(s: Store, accountId: Int64, io: Io): Result<AccountEntity.Account, Error> {
    CustomerDomain.FetchAccount(s.accounts, accountId, io.account)
  }

  /** The seven address setters the handlers call, in order: every content field comes from the request. */
  function FillAddress(a: AddressEntity.Address, req: AddressRequest, now: Instant): (r: AddressEntity.Address)
    ensures r == a.(name := req.name, addressLine1 := req.addressLine1, addressLine2 := Some(req.addressLine2),
                    city := req.city, state := Some(req.state), postalCode := req.postalCode,
                    country := req.country, modifiedAt := now)
  {
    var a1 := AddressEntity.Apply(a, AddressEntity.SetName(req.name), now);
    var a2 := AddressEntity.Apply(a1, AddressEntity.SetAddressLine1(req.addressLine1), now);
    var a3 := AddressEntity.Apply(a2, AddressEntity.SetAddressLine2(req.addressLine2), now);
    var a4 := AddressEntity.Apply(a3, AddressEntity.SetCity(req.city), now);
    var a5 := AddressEntity.Apply(a4, AddressEntity.SetState(req.state), now);
    var a6 := AddressEntity.Apply(a5, AddressEntity.SetPostalCode(req.postalCode), now);
    AddressEntity.Apply(a6, AddressEntity.SetCountry(req.country), now)
  }

  /** The five user setters the handlers call, in order; the email is not among them. */
  function FillUser(u: UserEntity.User, req: UserRequest, now: Instant): (r: UserEntity.User)
    ensures r == u.(cell := req.cell, firstName := req.firstName, lastName := req.lastName,
                    verified := req.verified, receivesUpdates := req.receivesUpdates, modifiedAt := now)
  {
    var u1 := UserEntity.Apply(u, UserEntity.SetCell(req.cell), now);
    var u2 := UserEntity.Apply(u1, UserEntity.SetFirstName(req.firstName), now);
    var u3 := UserEntity.Apply(u2, UserEntity.SetLastName(req.lastName), now);
    var u4 := UserEntity.Apply(u3, UserEntity.SetVerified(req.verified), now);
    UserEntity.Apply(u4, UserEntity.SetReceivesUpdates(req.receivesUpdates), now)
  }

  // Accounts

  /**
   * `HandlePostAccount`: the body, then the password hash under a fresh
   * salt, then the insert; 201 with the stored account on success.
   */
  function HandlePostAccount(s: Store, requestId: string, body: Body<AccountRequest>, salt: string,
                             hash: AccountEntity.Hasher, now: Instant, io: Io): (r: Handled<AccountView>)
    ensures ReadBody(body, BlankAccountRequest).Failure? ==>
              r == Handled(s, Mapped(requestId, ReadBody(body, BlankAccountRequest).error))
    ensures ReadBody(body, BlankAccountRequest).Success? ==>
              var req := ReadBody(body, BlankAccountRequest).value;
              hash(req.password + salt).Failure? ==> r == Handled(s, Mapped(requestId, hash(req.password + salt).error))
    ensures r.reply.Data? <==>
              ReadBody(body, BlankAccountRequest).Success? &&
              hash(ReadBody(body, BlankAccountRequest).value.password + salt).Success? &&
              io.insert.NoInsertFault? && s.accounts.nextId <= MaxInt64
    ensures r.reply.Data? ==>
              var req := ReadBody(body, BlankAccountRequest).value;
              var stored := AccountEntity.Account(s.accounts.nextId, req.email, hash(req.password + salt).value, salt,
                                                  req.name, false, req.receivesUpdates, now, now);
              r.reply.status == StatusCreated && r.reply.requestId == requestId &&
              r.reply.data == AccountView(s.accounts.nextId, req.email, req.name, req.receivesUpdates, now, now) &&
              r.store == s.(accounts := r.store.accounts) &&
              r.store.accounts.rows == s.accounts.rows + [AccountTable.AccountRow(stored, true)]
    ensures !r.reply.Data? ==> r.reply.Refused?
  {
    match ReadBody(body, BlankAccountRequest)
    case Failure(e) => Handled(s, Mapped(requestId, e))
    case Success(req) =>
      match AccountEntity.SetPassword(AccountEntity.NewAccount(req.email, req.name, now), req.password, salt, hash, now)
      case Failure(e) => Handled(s, Mapped(requestId, e))
      case Success(withPassword) =>
        var a := AccountEntity.Apply(withPassword, AccountEntity.SetReceivesUpdates(req.receivesUpdates), now);
        var added := AccountTable.AddAccount(s.accounts, a, io.insert);
        match added.err
        case Some(e) => Handled(s.(accounts := added.table), Failed(requestId, e))
        case None => Handled(s.(accounts := added.table), RespondWithJSON(ViewAccount(added.account), StatusCreated, requestId))
  }

  /**
   * `HandlePutAccount`: the body, the account parameter, the lookup, then
   * name and receive-updates from the body written back; 200 on success.
   * Email and password are never taken from the body.
   */
  function HandlePutAccount(s: Store, requestId: string, body: Body<AccountRequest>, accountParam: Result<Int64, Error>,
                            now: Instant, io: Io): (r: Handled<AccountView>)
    ensures ReadBody(body, BlankAccountRequest).Failure? ==>
              r == Handled(s, Mapped(requestId, ReadBody(body, BlankAccountRequest).error))
    ensures ReadBody(body, BlankAccountRequest).Success? && accountParam.Failure? ==>
              r == Handled(s, Mapped(requestId, accountParam.error))
    ensures ReadBody(body, BlankAccountRequest).Success? && accountParam.Success? && AccountLookup(s, accountParam.value, io).Failure? ==>
              r == Handled(s, Failed(requestId, AccountLookup(s, accountParam.value, io).error))
    ensures r.reply.Data? <==>
              ReadBody(body, BlankAccountRequest).Success? && accountParam.Success? &&
              AccountLookup(s, accountParam.value, io).Success? && io.second.None?
    ensures r.reply.Data? ==>
              var req := ReadBody(body, BlankAccountRequest).value;
              var before := AccountLookup(s, accountParam.value, io).value;
              r.reply.status == StatusOK && r.reply.requestId == requestId &&
              r.reply.data == ViewAccount(before).(name := req.name, receivesUpdates := req.receivesUpdates, modifiedAt := now) &&
              r.reply.data.id == accountParam.value &&
              r.store == s.(accounts := r.store.accounts)
    ensures !r.reply.Data? ==> r.reply.Refused? && r.store == s
  {
    match ReadBody(body, BlankAccountRequest)
    case Failure(e) => Handled(s, Mapped(requestId, e))
    case Success(req) =>
      if accountParam.Failure? then Handled(s, Mapped(requestId, accountParam.error))
      else match AccountLookup(s, accountParam.value, io)
        case Failure(e) => Handled(s, Failed(requestId, e))
        case Success(before) =>
          var named := AccountEntity.Apply(before, AccountEntity.SetName(req.name), now);
          var a := AccountEntity.Apply(named, AccountEntity.SetReceivesUpdates(req.receivesUpdates), now);
          match AccountTable.UpdateAccount(s.accounts, a, io.second)
          case Failure(e) => Handled(s, Failed(requestId, e))
          case Success(t2) => Handled(s.(accounts := t2), RespondWithJSON(ViewAccount(a), StatusOK, requestId))
  }

  /** `HandleGetAccount`: the account parameter, then the lookup; 200 with the account. */
  function HandleGetAccount(s: Store, requestId: string, accountParam: Result<Int64, Error>, io: Io): (r: Reply<AccountView>)
    ensures accountParam.Failure? ==> r == Mapped(requestId, accountParam.error)
    ensures accountParam.Success? && AccountLookup(s, accountParam.value, io).Failure? ==>
              r == Failed(requestId, AccountLookup(s, accountParam.value, io).error)
    ensures r.Data? <==>
              accountParam.Success? && io.account.None? &&
              exists i :: 0 <= i < |s.accounts.rows| && s.accounts.rows[i].active && s.accounts.rows[i].account.id == accountParam.value
    ensures r.Data? ==>
              r.status == StatusOK && r.requestId == requestId && r.data.id == accountParam.value &&
              exists a :: AccountTable.AccountRow(a, true) in s.accounts.rows && r.data == ViewAccount(a)
    ensures !r.Data? ==> r.Refused?
  {
    if accountParam.Failure? then Mapped(requestId, accountParam.error)
    else match AccountLookup(s, accountParam.value, io)
      case Failure(e) => Failed(requestId, e)
      case Success(a) => RespondWithJSON(ViewAccount(a), StatusOK, requestId)
  }

  /** An active account is what a read of its id returns. */
  lemma ActiveAccountIsFetched(t: CustomerDomain.Accounts, a: AccountEntity.Account)
    requires AccountTable.AccountRow(a, true) in t.rows
    ensures AccountTable.GetAccountByID(t, a.id, None) == Success(a)
  {
    var i :| 0 <= i < |t.rows| && t.rows[i] == AccountTable.AccountRow(a, true);
    var v := AccountTable.GetAccountByID(t, a.id, None).value;
    var j :| 0 <= j < |t.rows| && t.rows[j] == AccountTable.AccountRow(v, true);
    IdsUnique(t, AccountTable.Key, i, j);
  }

  /**
   * `HandleGetAccounts`: paging first, then the page and the count; every
   * listed account is what its own read route answers.
   */
  function HandleGetAccounts(s: Store, requestId: string, size: ParamRead, index: ParamRead, io: Io): (r: Reply<AccountView>)
    ensures GetPageAndPageSize(size, index).Failure? ==> r == Failed(requestId, GetPageAndPageSize(size, index).error)
    ensures r.Listing? ==>
              var paging := GetPageAndPageSize(size, index);
              paging.Success? && io.first.None? && io.second.None? &&
              r.status == StatusOK && r.requestId == requestId &&
              r.page == paging.value.page && r.pageSize == paging.value.pageSize &&
              r.total == |AccountTable.Active(s.accounts)| &&
              forall k :: 0 <= k < |r.items| ==>
                HandleGetAccount(s, requestId, Success(r.items[k].id), Clean) == RespondWithJSON(r.items[k], StatusOK, requestId)
    ensures var paging := GetPageAndPageSize(size, index);
            paging.Success? ==>
              var rows := Page(AccountTable.Active(s.accounts), paging.value.page, paging.value.pageSize);
              (io.first.None? && io.second.None? ==> (r.Listing? <==> rows.Success?)) &&
              (r.Listing? ==> rows.Success? && r.items == Project(Project(rows.value, AccountTable.RowAccount), ViewAccount))
    ensures !r.Listing? ==> r.Refused?
  {
    match GetPageAndPageSize(size, index)
    case Failure(e) => Failed(requestId, e)
    case Success(paging) =>
      match CustomerDomain.ListAccounts(s.accounts, paging.page, paging.pageSize, io.first, io.second)
      case Failure(e) => Failed(requestId, e)
      case Success(list) =>
        var views := Project(list.items, ViewAccount);
        assert forall k :: 0 <= k < |views| ==>
                 HandleGetAccount(s, requestId, Success(views[k].id), Clean) == RespondWithJSON(views[k], StatusOK, requestId) by {
          forall k | 0 <= k < |views|
            ensures HandleGetAccount(s, requestId, Success(views[k].id), Clean) == RespondWithJSON(views[k], StatusOK, requestId)
          {
            assert list.items[k] in list.items;
            ActiveAccountIsFetched(s.accounts, list.items[k]);
          }
        }
        RespondWithList(views, paging.page, paging.pageSize, list.total, StatusOK, requestId)
  }

  // Addresses

  /** The view shows an active address of the account. */
  ghost predicate ShowsOwnedAddress(t: CustomerDomain.Addresses, accountId: Int64, v: AddressView) {
    exists a :: AddressTable.AddressRow(a, true) in t.rows && a.accountId == accountId && v == ViewAddress(a)
  }

  /** Addresses read from the account's rows show as views of those rows. */
  lemma OwnedAddressViews(t: CustomerDomain.Addresses, accountId: Int64, items: seq<AddressEntity.Address>)
    requires forall x :: x in items ==> x.accountId == accountId && AddressTable.AddressRow(x, true) in t.rows
    ensures forall k :: 0 <= k < |items| ==> ShowsOwnedAddress(t, accountId, Project(items, ViewAddress)[k])
  {
    var views := Project(items, ViewAddress);
    forall k | 0 <= k < |items| ensures ShowsOwnedAddress(t, accountId, views[k]) {
      assert items[k] in items;
      assert views[k] == ViewAddress(items[k]);
    }
  }

  /**
   * `HandlePostAddressForAccount`: the body, the account parameter, the
   * lookup, then a new address of the found account filled from the body
   * and inserted; 201 on success.
   */
  function HandlePostAddressForAccount(s: Store, requestId: string, body: Body<AddressRequest>,
                                       accountParam: Result<Int64, Error>, now: Instant, io: Io): (r: Handled<AddressView>)
    ensures ReadBody(body, BlankAddressRequest).Failure? ==>
              r == Handled(s, Mapped(requestId, ReadBody(body, BlankAddressRequest).error))
    ensures ReadBody(body, BlankAddressRequest).Success? && accountParam.Failure? ==>
              r == Handled(s, Mapped(requestId, accountParam.error))
    ensures ReadBody(body, BlankAddressRequest).Success? && accountParam.Success? && AccountLookup(s, accountParam.value, io).Failure? ==>
              r == Handled(s, Failed(requestId, AccountLookup(s, accountParam.value, io).error))
    ensures r.reply.Data? <==>
              ReadBody(body, BlankAddressRequest).Success? && accountParam.Success? &&
              AccountLookup(s, accountParam.value, io).Success? && io.insert.NoInsertFault? && s.addresses.nextId <= MaxInt64
    ensures r.reply.Data? ==>
              var req := ReadBody(body, BlankAddressRequest).value;
              var stored := AddressEntity.Address(s.addresses.nextId, accountParam.value, req.name, req.addressLine1,
                                                  Some(req.addressLine2), req.city, Some(req.state), req.postalCode,
                                                  req.country, false, now, now);
              r.reply.status == StatusCreated && r.reply.requestId == requestId &&
              r.reply.data == ViewAddress(stored) &&
              r.store == s.(addresses := r.store.addresses) &&
              r.store.addresses.rows == s.addresses.rows + [AddressTable.AddressRow(stored, true)]
    ensures !r.reply.Data? ==> r.reply.Refused?
  {
    match ReadBody(body, BlankAddressRequest)
    case Failure(e) => Handled(s, Mapped(requestId, e))
    case Success(req) =>
      if accountParam.Failure? then Handled(s, Mapped(requestId, accountParam.error))
      else match AccountLookup(s, accountParam.value, io)
        case Failure(e) => Handled(s, Failed(requestId, e))
        case Success(account) =>
          var a := FillAddress(AddressEntity.NewAddress(account.id, now), req, now);
          var added := AddressTable.AddAddress(s.addresses, a, io.insert);
          match added.err
          case Some(e) => Handled(s.(addresses := added.table), Failed(requestId, e))
          case None => Handled(s.(addresses := added.table), RespondWithJSON(ViewAddress(added.address), StatusCreated, requestId))
  }

  /**
   * `HandlePutAddressForAccount`: the body, the account parameter, the
   * lookup, the address parameter, then the address fetch, whose failure
   * is answered with the mapping envelope; the fetched address is filled
   * from the body and written back; 201 on success.
   */
  function HandlePutAddressForAccount(s: Store, requestId: string, body: Body<AddressRequest>, accountParam: Result<Int64, Error>,
                                      addressParam: Result<Int64, Error>, now: Instant, io: Io): (r: Handled<AddressView>)
    ensures ReadBody(body, BlankAddressRequest).Failure? ==>
              r == Handled(s, Mapped(requestId, ReadBody(body, BlankAddressRequest).error))
    ensures ReadBody(body, BlankAddressRequest).Success? && accountParam.Failure? ==>
              r == Handled(s, Mapped(requestId, accountParam.error))
    ensures ReadBody(body, BlankAddressRequest).Success? && accountParam.Success? && AccountLookup(s, accountParam.value, io).Failure? ==>
              r == Handled(s, Failed(requestId, AccountLookup(s, accountParam.value, io).error))
    ensures ReadBody(body, BlankAddressRequest).Success? && accountParam.Success? && AccountLookup(s, accountParam.value, io).Success? ==>
              (addressParam.Failure? ==> r == Handled(s, Mapped(requestId, addressParam.error))) &&
              (addressParam.Success? && AddressTable.GetAddressByID(s.addresses, addressParam.value, io.first).Failure? ==>
                 r == Handled(s, Mapped(requestId, AddressTable.GetAddressByID(s.addresses, addressParam.value, io.first).error)))
    ensures r.reply.Data? <==>
              ReadBody(body, BlankAddressRequest).Success? && accountParam.Success? && addressParam.Success? &&
              AccountLookup(s, accountParam.value, io).Success? &&
              AddressTable.GetAddressByID(s.addresses, addressParam.value, io.first).Success? && io.second.None?
    ensures r.reply.Data? ==>
              var req := ReadBody(body, BlankAddressRequest).value;
              var before := AddressTable.GetAddressByID(s.addresses, addressParam.value, io.first).value;
              r.reply.status == StatusCreated && r.reply.requestId == requestId &&
              r.reply.data == ViewAddress(FillAddress(before, req, now)) &&
              r.reply.data.id == addressParam.value &&
              r.store == s.(addresses := r.store.addresses)
    ensures !r.reply.Data? ==> r.reply.Refused? && r.store == s
  {
    match ReadBody(body, BlankAddressRequest)
    case Failure(e) => Handled(s, Mapped(requestId, e))
    case Success(req) =>
      if accountParam.Failure? then Handled(s, Mapped(requestId, accountParam.error))
      else match AccountLookup(s, accountParam.value, io)
        case Failure(e) => Handled(s, Failed(requestId, e))
        case Success(account) =>
          if addressParam.Failure? then Handled(s, Mapped(requestId, addressParam.error))
          else match CustomerDomain.FetchAddressForAccount(s.addresses, account, addressParam.value, io.first)
            case Failure(e) => Handled(s, Mapped(requestId, e))
            case Success(before) =>
              var a := FillAddress(before, req, now);
              match AddressTable.UpdateAddress(s.addresses, a, io.second)
              case Failure(e) => Handled(s, Failed(requestId, e))
              case Success(t2) => Handled(s.(addresses := t2), RespondWithJSON(ViewAddress(a), StatusCreated, requestId))
  }

  /**
   * `HandleGetAddressForAccount`: the account parameter, the lookup, the
   * address parameter, then the address fetch; 200 with the address, its
   * timestamps left out.
   */
  function HandleGetAddressForAccount(s: Store, requestId: string, accountParam: Result<Int64, Error>,
                                      addressParam: Result<Int64, Error>, io: Io): (r: Reply<AddressView>)
    ensures accountParam.Failure? ==> r == Mapped(requestId, accountParam.error)
    ensures accountParam.Success? && AccountLookup(s, accountParam.value, io).Failure? ==>
              r == Failed(requestId, AccountLookup(s, accountParam.value, io).error)
    ensures accountParam.Success? && AccountLookup(s, accountParam.value, io).Success? ==>
              (addressParam.Failure? ==> r == Mapped(requestId, addressParam.error)) &&
              (addressParam.Success? && AddressTable.GetAddressByID(s.addresses, addressParam.value, io.first).Failure? ==>
                 r == Failed(requestId, AddressTable.GetAddressByID(s.addresses, addressParam.value, io.first).error))
    ensures r.Data? <==>
              accountParam.Success? && AccountLookup(s, accountParam.value, io).Success? && addressParam.Success? && io.first.None? &&
              exists i :: 0 <= i < |s.addresses.rows| && s.addresses.rows[i].active && s.addresses.rows[i].address.id == addressParam.value
    ensures r.Data? ==>
              r.status == StatusOK && r.requestId == requestId && r.data.id == addressParam.value &&
              exists a :: AddressTable.AddressRow(a, true) in s.addresses.rows && r.data == ViewAddressUndated(a)
    ensures !r.Data? ==> r.Refused?
  {
    if accountParam.Failure? then Mapped(requestId, accountParam.error)
    else match AccountLookup(s, accountParam.value, io)
      case Failure(e) => Failed(requestId, e)
      case Success(account) =>
        if addressParam.Failure? then Mapped(requestId, addressParam.error)
        else match CustomerDomain.FetchAddressForAccount(s.addresses, account, addressParam.value, io.first)
          case Failure(e) => Failed(requestId, e)
          case Success(a) => RespondWithJSON(ViewAddressUndated(a), StatusOK, requestId)
  }

  /**
   * `HandleGetAddressesForAccount`: the account parameter and the lookup
   * come before paging; then the account's page and count.
   */
  function HandleGetAddressesForAccount(s: Store, requestId: string, accountParam: Result<Int64, Error>,
                                        size: ParamRead, index: ParamRead, io: Io): (r: Reply<AddressView>)
    ensures accountParam.Failure? ==> r == Mapped(requestId, accountParam.error)
    ensures accountParam.Success? && AccountLookup(s, accountParam.value, io).Failure? ==>
              r == Failed(requestId, AccountLookup(s, accountParam.value, io).error)
    ensures accountParam.Success? && AccountLookup(s, accountParam.value, io).Success? && GetPageAndPageSize(size, index).Failure? ==>
              r == Failed(requestId, GetPageAndPageSize(size, index).error)
    ensures r.Listing? ==>
              var paging := GetPageAndPageSize(size, index);
              accountParam.Success? && paging.Success? && io.first.None? && io.second.None? &&
              r.status == StatusOK && r.requestId == requestId &&
              r.page == paging.value.page && r.pageSize == paging.value.pageSize &&
              r.total == |AddressTable.Owned(s.addresses, accountParam.value)| &&
              forall k :: 0 <= k < |r.items| ==> ShowsOwnedAddress(s.addresses, accountParam.value, r.items[k])
    ensures var paging := GetPageAndPageSize(size, index);
            accountParam.Success? && AccountLookup(s, accountParam.value, io).Success? && paging.Success? ==>
              var rows := Page(AddressTable.Owned(s.addresses, accountParam.value), paging.value.page, paging.value.pageSize);
              (io.first.None? && io.second.None? ==> (r.Listing? <==> rows.Success?)) &&
              (r.Listing? ==> rows.Success? && r.items == Project(Project(rows.value, AddressTable.RowAddress), ViewAddress))
    ensures !r.Listing? ==> r.Refused?
  {
    if accountParam.Failure? then Mapped(requestId, accountParam.error)
    else match AccountLookup(s, accountParam.value, io)
      case Failure(e) => Failed(requestId, e)
      case Success(account) =>
        match GetPageAndPageSize(size, index)
        case Failure(e) => Failed(requestId, e)
        case Success(paging) =>
          match CustomerDomain.ListAddressesForAccount(s.addresses, account, paging.page, paging.pageSize, io.first, io.second)
          case Failure(e) => Failed(requestId, e)
          case Success(list) =>
            var views := Project(list.items, ViewAddress);
            OwnedAddressViews(s.addresses, accountParam.value, list.items);
            RespondWithList(views, paging.page, paging.pageSize, list.total, StatusOK, requestId)
  }

  // Users

  /** The view shows an active user of the account. */
  ghost predicate ShowsOwnedUser(t: CustomerDomain.Users, accountId: Int64, v: UserView) {
    exists u :: UserTable.UserRow(u, true) in t.rows && u.accountId == accountId && v == ViewUser(u)
  }

  /** Users read from the account's rows show as views of those rows. */
  lemma OwnedUserViews(t: CustomerDomain.Users, accountId: Int64, items: seq<UserEntity.User>)
    requires forall x :: x in items ==> x.accountId == accountId && UserTable.UserRow(x, true) in t.rows
    ensures forall k :: 0 <= k < |items| ==> ShowsOwnedUser(t, accountId, Project(items, ViewUser)[k])
  {
    var views := Project(items, ViewUser);
    forall k | 0 <= k < |items| ensures ShowsOwnedUser(t, accountId, views[k]) {
      assert items[k] in items;
      assert views[k] == ViewUser(items[k]);
    }
  }

  /**
   * `HandlePostUserForAccount`: the body, the account parameter, the
   * lookup, then a new user of the found account filled from the body and
   * inserted; 201 on success. The body's account id is not read.
   */
  function HandlePostUserForAccount(s: Store, requestId: string, body: Body<UserRequest>,
                                    accountParam: Result<Int64, Error>, now: Instant, io: Io): (r: Handled<UserView>)
    ensures ReadBody(body, BlankUserRequest).Failure? ==>
              r == Handled(s, Mapped(requestId, ReadBody(body, BlankUserRequest).error))
    ensures ReadBody(body, BlankUserRequest).Success? && accountParam.Failure? ==>
              r == Handled(s, Mapped(requestId, accountParam.error))
    ensures ReadBody(body, BlankUserRequest).Success? && accountParam.Success? && AccountLookup(s, accountParam.value, io).Failure? ==>
              r == Handled(s, Failed(requestId, AccountLookup(s, accountParam.value, io).error))
    ensures r.reply.Data? <==>
              ReadBody(body, BlankUserRequest).Success? && accountParam.Success? &&
              AccountLookup(s, accountParam.value, io).Success? && io.insert.NoInsertFault? && s.users.nextId <= MaxInt64
    ensures r.reply.Data? ==>
              var req := ReadBody(body, BlankUserRequest).value;
              var stored := UserEntity.User(s.users.nextId, accountParam.value, req.email, req.cell, req.firstName, req.lastName,
                                            req.verified, req.receivesUpdates, now, now);
              r.reply.status == StatusCreated && r.reply.requestId == requestId &&
              r.reply.data == ViewUser(stored) &&
              r.store == s.(users := r.store.users) &&
              r.store.users.rows == s.users.rows + [UserTable.UserRow(stored, true)]
    ensures !r.reply.Data? ==> r.reply.Refused?
  {
    match ReadBody(body, BlankUserRequest)
    case Failure(e) => Handled(s, Mapped(requestId, e))
    case Success(req) =>
      if accountParam.Failure? then Handled(s, Mapped(requestId, accountParam.error))
      else match AccountLookup(s, accountParam.value, io)
        case Failure(e) => Handled(s, Failed(requestId, e))
        case Success(account) =>
          var u := FillUser(UserEntity.NewUser(account.id, req.email, now), req, now);
          var added := UserTable.AddUser(s.users, u, io.insert);
          match added.err
          case Some(e) => Handled(s.(users := added.table), Failed(requestId, e))
          case None => Handled(s.(users := added.table), RespondWithJSON(ViewUser(added.user), StatusCreated, requestId))
  }

  /**
   * `HandlePutUserForAccount`: the body, the account parameter, the lookup,
   * the user parameter, then the user fetch; the fetched user is filled
   * from the body and written back; 200 on success.
   */
  function HandlePutUserForAccount(s: Store, requestId: string, body: Body<UserRequest>, accountParam: Result<Int64, Error>,
                                   userParam: Result<Int64, Error>, now: Instant, io: Io): (r: Handled<UserView>)
    ensures ReadBody(body, BlankUserRequest).Failure? ==>
              r == Handled(s, Mapped(requestId, ReadBody(body, BlankUserRequest).error))
    ensures ReadBody(body, BlankUserRequest).Success? && accountParam.Failure? ==>
              r == Handled(s, Mapped(requestId, accountParam.error))
    ensures ReadBody(body, BlankUserRequest).Success? && accountParam.Success? && AccountLookup(s, accountParam.value, io).Failure? ==>
              r == Handled(s, Failed(requestId, AccountLookup(s, accountParam.value, io).error))
    ensures ReadBody(body, BlankUserRequest).Success? && accountParam.Success? && AccountLookup(s, accountParam.value, io).Success? ==>
              var account := AccountLookup(s, accountParam.value, io).value;
              (userParam.Failure? ==> r == Handled(s, Mapped(requestId, userParam.error))) &&
              (userParam.Success? && CustomerDomain.FetchUserForAccount(s.users, account, userParam.value, io.first).Failure? ==>
                 r == Handled(s, Failed(requestId, CustomerDomain.FetchUserForAccount(s.users, account, userParam.value, io.first).error)))
    ensures r.reply.Data? ==>
              var req := ReadBody(body, BlankUserRequest).value;
              r.reply.status == StatusOK && r.reply.requestId == requestId &&
              userParam.Success? && r.reply.data.id == userParam.value &&
              r.reply.data.cell == req.cell && r.reply.data.firstName == req.firstName && r.reply.data.lastName == req.lastName &&
              r.reply.data.verified == req.verified && r.reply.data.receivesUpdates == req.receivesUpdates &&
              r.reply.data.modifiedAt == now &&
              r.store == s.(users := r.store.users)
    ensures !r.reply.Data? ==> r.reply.Refused? && r.store == s
  {
    match ReadBody(body, BlankUserRequest)
    case Failure(e) => Handled(s, Mapped(requestId, e))
    case Success(req) =>
      if accountParam.Failure? then Handled(s, Mapped(requestId, accountParam.error))
      else match AccountLookup(s, accountParam.value, io)
        case Failure(e) => Handled(s, Failed(requestId, e))
        case Success(account) =>
          if userParam.Failure? then Handled(s, Mapped(requestId, userParam.error))
          else match CustomerDomain.FetchUserForAccount(s.users, account, userParam.value, io.first)
            case Failure(e) => Handled(s, Failed(requestId, e))
            case Success(before) =>
              var u := FillUser(before, req, now);
              match UserTable.UpdateUser(s.users, u, io.second)
              case Failure(e) => Handled(s, Failed(requestId, e))
              case Success(t2) => Handled(s.(users := t2), RespondWithJSON(ViewUser(u), StatusOK, requestId))
  }

  /**
   * `HandleGetUserForAccount`: the account parameter, the lookup, the user
   * parameter, then the user fetch; 200 with the user.
   */
  function HandleGetUserForAccount(s: Store, requestId: string, accountParam: Result<Int64, Error>,
                                   userParam: Result<Int64, Error>, io: Io): (r: Reply<UserView>)
    ensures accountParam.Failure? ==> r == Mapped(requestId, accountParam.error)
    ensures accountParam.Success? && AccountLookup(s, accountParam.value, io).Failure? ==>
              r == Failed(requestId, AccountLookup(s, accountParam.value, io).error)
    ensures accountParam.Success? && AccountLookup(s, accountParam.value, io).Success? ==>
              var account := AccountLookup(s, accountParam.value, io).value;
              (userParam.Failure? ==> r == Mapped(requestId, userParam.error)) &&
              (userParam.Success? && CustomerDomain.FetchUserForAccount(s.users, account, userParam.value, io.first).Failure? ==>
                 r == Failed(requestId, CustomerDomain.FetchUserForAccount(s.users, account, userParam.value, io.first).error))
    ensures r.Data? ==>
              r.status == StatusOK && r.requestId == requestId && userParam.Success? && r.data.id == userParam.value
    ensures !r.Data? ==> r.Refused?
  {
    if accountParam.Failure? then Mapped(requestId, accountParam.error)
    else match AccountLookup(s, accountParam.value, io)
      case Failure(e) => Failed(requestId, e)
      case Success(account) =>
        if userParam.Failure? then Mapped(requestId, userParam.error)
        else match CustomerDomain.FetchUserForAccount(s.users, account, userParam.value, io.first)
          case Failure(e) => Failed(requestId, e)
          case Success(u) =>
            assert u.id == userParam.value by {
              var i :| 0 <= i < |s.users.rows| && s.users.rows[i].user == u;
            }
            RespondWithJSON(ViewUser(u), StatusOK, requestId)
  }

  /**
   * `HandleGetUsersForAccount`: the account parameter and the lookup come
   * before paging; then the account's page and count.
   */
  function HandleGetUsersForAccount(s: Store, requestId: string, accountParam: Result<Int64, Error>,
                                    size: ParamRead, index: ParamRead, io: Io): (r: Reply<UserView>)
    ensures accountParam.Failure? ==> r == Mapped(requestId, accountParam.error)
    ensures accountParam.Success? && AccountLookup(s, accountParam.value, io).Failure? ==>
              r == Failed(requestId, AccountLookup(s, accountParam.value, io).error)
    ensures accountParam.Success? && AccountLookup(s, accountParam.value, io).Success? && GetPageAndPageSize(size, index).Failure? ==>
              r == Failed(requestId, GetPageAndPageSize(size, index).error)
    ensures r.Listing? ==>
              var paging := GetPageAndPageSize(size, index);
              accountParam.Success? && paging.Success? && io.first.None? && io.second.None? &&
              r.status == StatusOK && r.requestId == requestId &&
              r.page == paging.value.page && r.pageSize == paging.value.pageSize &&
              r.total == |UserTable.Owned(s.users, accountParam.value)| &&
              forall k :: 0 <= k < |r.items| ==> ShowsOwnedUser(s.users, accountParam.value, r.items[k])
    ensures var paging := GetPageAndPageSize(size, index);
            accountParam.Success? && AccountLookup(s, accountParam.value, io).Success? && paging.Success? ==>
              var rows := Page(UserTable.Owned(s.users, accountParam.value), paging.value.page, paging.value.pageSize);
              (io.first.None? && io.second.None? ==> (r.Listing? <==> rows.Success?)) &&
              (r.Listing? ==> rows.Success? && r.items == Project(Project(rows.value, UserTable.RowUser), ViewUser))
    ensures !r.Listing? ==> r.Refused?
  {
    if accountParam.Failure? then Mapped(requestId, accountParam.error)
    else match AccountLookup(s, accountParam.value, io)
      case Failure(e) => Failed(requestId, e)
      case Success(account) =>
        match GetPageAndPageSize(size, index)
        case Failure(e) => Failed(requestId, e)
        case Success(paging) =>
          match CustomerDomain.ListUsersForAccount(s.users, account, paging.page, paging.pageSize, io.first, io.second)
          case Failure(e) => Failed(requestId, e)
          case Success(list) =>
            var views := Project(list.items, ViewUser);
            OwnedUserViews(s.users, accountParam.value, list.items);
            RespondWithList(views, paging.page, paging.pageSize, list.total, StatusOK, requestId)
  }

  // What the handlers promise together

  /** An account created through POST is what GET answers for its id. */
  lemma PostAccountThenGet(s: Store, requestId: string, body: Body<AccountRequest>, salt: string,
                           hash: AccountEntity.Hasher, now: Instant)
    requires HandlePostAccount(s, requestId, body, salt, hash, now, Clean).reply.Data?
    ensures var h := HandlePostAccount(s, requestId, body, salt, hash, now, Clean);
            HandleGetAccount(h.store, requestId, Success(h.reply.data.id), Clean) == RespondWithJSON(h.reply.data, StatusOK, requestId)
  {
    var h := HandlePostAccount(s, requestId, body, salt, hash, now, Clean);
    var row := h.store.accounts.rows[|s.accounts.rows|];
    assert row in h.store.accounts.rows;
    ActiveAccountIsFetched(h.store.accounts, row.account);
  }

  /**
   * What PUT answers is what a later GET answers, and the stored account
   * keeps its email, password hash and salt.
   */
  lemma PutAccountThenGet(s: Store, requestId: string, body: Body<AccountRequest>, accountId: Int64, now: Instant)
    requires HandlePutAccount(s, requestId, body, Success(accountId), now, Clean).reply.Data?
    ensures var h := HandlePutAccount(s, requestId, body, Success(accountId), now, Clean);
            var before := AccountTable.GetAccountByID(s.accounts, accountId, None).value;
            var after := AccountTable.GetAccountByID(h.store.accounts, accountId, None);
            HandleGetAccount(h.store, requestId, Success(accountId), Clean) == RespondWithJSON(h.reply.data, StatusOK, requestId) &&
            after.Success? && after.value.email == before.email &&
            after.value.passwordHash == before.passwordHash && after.value.salt == before.salt
  {
    var req := ReadBody(body, BlankAccountRequest).value;
    var before := AccountTable.GetAccountByID(s.accounts, accountId, None).value;
    var a := PutAccountRecord(before, req, now);
    var h := HandlePutAccount(s, requestId, body, Success(accountId), now, Clean);
    assert h.store.accounts == AccountTable.UpdateAccount(s.accounts, a, None).value;
    AccountTable.UpdateThenGet(s.accounts, a);
    assert AccountTable.Updated(before, a) == a;
  }

  /** The record HandlePutAccount writes back: the two setters applied to the stored account. */
  function PutAccountRecord(before: AccountEntity.Account, req: AccountRequest, now: Instant): (r: AccountEntity.Account)
    ensures r == AccountEntity.Apply(AccountEntity.Apply(before, AccountEntity.SetName(req.name), now),
                                     AccountEntity.SetReceivesUpdates(req.receivesUpdates), now)
    ensures r == before.(name := req.name, receivesUpdates := req.receivesUpdates, modifiedAt := now)
  {
    before.(name := req.name, receivesUpdates := req.receivesUpdates, modifiedAt := now)
  }

  /** An empty body is not refused: POST then creates an account with no email and no name. */
  lemma EmptyBodyCreatesBlankAccount(s: Store, requestId: string, body: Body<AccountRequest>, salt: string,
                                     hash: AccountEntity.Hasher, now: Instant)
    requires body.contentLength == 0 && hash("" + salt).Success? && s.accounts.nextId <= MaxInt64
    ensures var h := HandlePostAccount(s, requestId, body, salt, hash, now, Clean);
            h.reply.Data? && h.reply.data.email == "" && h.reply.data.name == "" && !h.reply.data.receivesUpdates
  {
  }

  /** An active address is what a read of its id returns. */
  lemma ActiveAddressIsFetched(t: CustomerDomain.Addresses, a: AddressEntity.Address)
    requires AddressTable.AddressRow(a, true) in t.rows
    ensures AddressTable.GetAddressByID(t, a.id, None) == Success(a)
  {
    var i :| 0 <= i < |t.rows| && t.rows[i] == AddressTable.AddressRow(a, true);
    var v := AddressTable.GetAddressByID(t, a.id, None).value;
    var j :| 0 <= j < |t.rows| && t.rows[j] == AddressTable.AddressRow(v, true);
    IdsUnique(t, AddressTable.Key, i, j);
  }

  /** An address created through POST is what GET answers for its id, less the timestamps. */
  lemma PostAddressThenGet(s: Store, requestId: string, body: Body<AddressRequest>, accountId: Int64, now: Instant)
    requires HandlePostAddressForAccount(s, requestId, body, Success(accountId), now, Clean).reply.Data?
    ensures var h := HandlePostAddressForAccount(s, requestId, body, Success(accountId), now, Clean);
            HandleGetAddressForAccount(h.store, requestId, Success(accountId), Success(h.reply.data.id), Clean)
              == RespondWithJSON(h.reply.data.(createdAt := ZeroTime, modifiedAt := ZeroTime), StatusOK, requestId)
  {
    var h := HandlePostAddressForAccount(s, requestId, body, Success(accountId), now, Clean);
    var row := h.store.addresses.rows[|s.addresses.rows|];
    assert row in h.store.addresses.rows;
    ActiveAddressIsFetched(h.store.addresses, row.address);
  }

  /**
   * The address routes do not check the owner: under any existing path
   * account, GET hands over another account's address and PUT rewrites it.
   */
  lemma AddressRoutesIgnoreOwner(s: Store, requestId: string, body: Body<AddressRequest>, asker: Int64, i: int, now: Instant)
    requires AccountLookup(s, asker, Clean).Success? && ReadBody(body, BlankAddressRequest).Success?
    requires 0 <= i < |s.addresses.rows| && s.addresses.rows[i].active && s.addresses.rows[i].address.accountId != asker
    ensures var x := s.addresses.rows[i].address;
            HandleGetAddressForAccount(s, requestId, Success(asker), Success(x.id), Clean)
              == RespondWithJSON(ViewAddressUndated(x), StatusOK, requestId)
    ensures var x := s.addresses.rows[i].address;
            var h := HandlePutAddressForAccount(s, requestId, body, Success(asker), Success(x.id), now, Clean);
            h.reply.Data? &&
            h.store.addresses.rows[i] == AddressTable.AddressRow(FillAddress(x, ReadBody(body, BlankAddressRequest).value, now), true)
  {
    var x := s.addresses.rows[i].address;
    assert s.addresses.rows[i] == AddressTable.AddressRow(x, true);
    ActiveAddressIsFetched(s.addresses, x);
  }

  /**
   * A missing address is answered differently by the two routes: PUT with
   * the 400 mapping envelope, GET with the 404 not-found envelope.
   */
  lemma MissingAddressAnswers(s: Store, requestId: string, body: Body<AddressRequest>, accountId: Int64, addressId: Int64, now: Instant)
    requires AccountLookup(s, accountId, Clean).Success? && ReadBody(body, BlankAddressRequest).Success?
    requires forall i :: 0 <= i < |s.addresses.rows| ==> !(s.addresses.rows[i].active && s.addresses.rows[i].address.id == addressId)
    ensures var h := HandlePutAddressForAccount(s, requestId, body, Success(accountId), Success(addressId), now, Clean);
            h == Handled(s, Mapped(requestId, NotFoundAddressByID)) &&
            h.reply.failure.status == StatusBadRequest && h.reply.failure.body.code == BadPayload
    ensures var g := HandleGetAddressForAccount(s, requestId, Success(accountId), Success(addressId), Clean);
            g == Failed(requestId, NotFoundAddressByID) &&
            g.failure.status == StatusNotFound && g.failure.body.code == Code(NotFoundAddressByID)
  {
    assert AddressTable.GetAddressByID(s.addresses, addressId, None) == Failure(NotFoundAddressByID);
    ErrorStatuses(requestId, NotFoundAddressByID);
  }

  /**
   * With every stored user owned by a real account, the single-user routes
   * never find anyone: GET and PUT answer not-found and change nothing.
   */
  lemma UserRoutesNeverFind(s: Store, requestId: string, body: Body<UserRequest>, accountId: Int64, userId: Int64, now: Instant)
    requires CustomerDomain.OwnedByRealAccounts(s.addresses, s.users)
    requires AccountLookup(s, accountId, Clean).Success? && ReadBody(body, BlankUserRequest).Success?
    ensures HandleGetUserForAccount(s, requestId, Success(accountId), Success(userId), Clean) == Failed(requestId, NotFoundUserByID)
    ensures HandlePutUserForAccount(s, requestId, body, Success(accountId), Success(userId), now, Clean)
              == Handled(s, Failed(requestId, NotFoundUserByID))
  {
    CustomerDomain.UserFetchNeverFinds(s.addresses, s.users, AccountLookup(s, accountId, Clean).value, userId);
  }

  /**
   * A user created through POST is listed under its account, yet GET on
   * its id answers not-found.
   */
  lemma PostUserThenGetMisses(s: Store, requestId: string, body: Body<UserRequest>, accountId: Int64, now: Instant)
    requires HandlePostUserForAccount(s, requestId, body, Success(accountId), now, Clean).reply.Data?
    ensures var h := HandlePostUserForAccount(s, requestId, body, Success(accountId), now, Clean);
            var row := h.store.users.rows[|s.users.rows|];
            row.active && row.user.accountId == accountId && row.user.id == h.reply.data.id &&
            HandleGetUserForAccount(h.store, requestId, Success(accountId), Success(h.reply.data.id), Clean)
              == Failed(requestId, NotFoundUserByID)
  {
    var h := HandlePostUserForAccount(s, requestId, body, Success(accountId), now, Clean);
    var t := h.store.users;
    var n := |s.users.rows|;
    var k :| 0 <= k < |s.accounts.rows| && s.accounts.rows[k].active && s.accounts.rows[k].account.id == accountId;
    assert accountId >= 1;
    forall j | 0 <= j < |t.rows| && t.rows[j].user.id == t.rows[n].user.id ensures t.rows[j].user.accountId != 0 {
      IdsUnique(t, UserTable.Key, j, n);
    }
  }

  /**
   * The address and user lists look the account up before paging, so a
   * missing account is reported even when the paging is bad; the account
   * list has no account to look up and reports the paging.
   */
  lemma MissingAccountBeforeBadPaging(s: Store, requestId: string, accountId: Int64, size: ParamRead, index: ParamRead)
    requires forall i :: 0 <= i < |s.accounts.rows| ==> !(s.accounts.rows[i].active && s.accounts.rows[i].account.id == accountId)
    requires !Acceptable(size)
    ensures HandleGetAddressesForAccount(s, requestId, Success(accountId), size, index, Clean) == Failed(requestId, NotFoundAccountByID)
    ensures HandleGetUsersForAccount(s, requestId, Success(accountId), size, index, Clean) == Failed(requestId, NotFoundAccountByID)
    ensures HandleGetAccounts(s, requestId, size, index, Clean) == Failed(requestId, BadPageSize)
  {
  }
}
