/**
 * The customer domain service over accounts, addresses and users. Inserts
 * and updates are handed to the tables unchanged (the table functions
 * `AddAccount`, `UpdateAccount`, `AddAddress`, `UpdateAddress`, `AddUser`
 * and `UpdateUser` are those operations). Fetches and deletes build a fresh
 * receiver holding only the id, so for addresses and users the account the
 * caller names never reaches the query: an address is fetched whatever its
 * owner, and a user fetch or delete runs against account 0.
 */
module CustomerDomain {

  import opened Wrappers
  import opened Ints
  import opened Errors
  import opened Query
  import opened AccountEntity
  import opened AddressEntity
  import opened UserEntity
  import AccountTable
  import AddressTable
  import UserTable

  type Accounts = AccountTable.Accounts
  type Addresses = AddressTable.Addresses
  type Users = UserTable.Users

  /** `FetchAccount`: the active account with that id. */
  function FetchAccount(t: Accounts, accountId: Int64, fault: Option<Error>): (r: Result<Account, Error>)
    ensures fault.Some? ==> r == Failure(fault.value)
    ensures fault.None? ==>
              (r.Success? <==> exists i :: 0 <= i < |t.rows| && t.rows[i].active && t.rows[i].account.id == accountId)
    ensures fault.None? && r.Failure? ==> r.error == NotFoundAccountByID
    ensures r.Success? ==> r.value.id == accountId && AccountTable.AccountRow(r.value, true) in t.rows
  {
    AccountTable.GetAccountByID(t, accountId, fault)
  }

  /** `DeleteAccount`: deactivates the account with that id. */
  function DeleteAccount(t: Accounts, accountId: Int64, fault: Option<Error>): (r: Result<Accounts, Error>)
    ensures fault.Some? ==> r == Failure(fault.value)
    ensures fault.None? ==> r.Success? && |r.value.rows| == |t.rows|
    ensures r.Success? ==>
              forall i :: 0 <= i < |t.rows| ==>
                r.value.rows[i] == if t.rows[i].account.id == accountId then t.rows[i].(active := false) else t.rows[i]
  {
    AccountTable.DeleteAccount(t, accountId, fault)
  }

  /** `ListAccounts`: a page of active accounts, then their count. */
  function ListAccounts(t: Accounts, page: Int64, pageSize: Int64, listFault: Option<Error>, countFault: Option<Error>): (r: Result<Listing<Account>, Error>)
    ensures listFault.Some? ==> r == Failure(listFault.value)
    ensures listFault.None? && countFault.Some? && Page(AccountTable.Active(t), page, pageSize).Success? ==> r == Failure(countFault.value)
    ensures listFault.None? && countFault.None? ==> (r.Success? <==> Page(AccountTable.Active(t), page, pageSize).Success?)
    ensures r.Success? ==>
              Page(AccountTable.Active(t), page, pageSize).Success? &&
              r.value.items == Project(Page(AccountTable.Active(t), page, pageSize).value, AccountTable.RowAccount)
    ensures r.Success? ==>
              r.value.total == |AccountTable.Active(t)| && |r.value.items| <= r.value.total &&
              forall x :: x in r.value.items ==> AccountTable.AccountRow(x, true) in t.rows
  {
    ListThenCount(AccountTable.ListAccounts(t, page, pageSize, listFault), AccountTable.CountAccounts(t, countFault))
  }

  /** `FetchAddressForAccount`: the active address with that id; the account argument takes no part. */
  function FetchAddressForAccount(t: Addresses, account: Account, addressId: Int64, fault: Option<Error>): (r: Result<Address, Error>)
    ensures fault.Some? ==> r == Failure(fault.value)
    ensures fault.None? ==>
              (r.Success? <==> exists i :: 0 <= i < |t.rows| && t.rows[i].active && t.rows[i].address.id == addressId)
    ensures fault.None? && r.Failure? ==> r.error == NotFoundAddressByID
    ensures r.Success? ==> r.value.id == addressId && AddressTable.AddressRow(r.value, true) in t.rows
  {
    AddressTable.GetAddressByID(t, addressId, fault)
  }

  /** `DeleteAddressForAccount`: deactivates the active address with that id owned by account 0. */
  function DeleteAddressForAccount(t: Addresses, account: Account, addressId: Int64, fault: Option<Error>): (r: Result<Addresses, Error>)
    ensures fault.Some? ==> r == Failure(fault.value)
    ensures fault.None? ==> r.Success? && |r.value.rows| == |t.rows|
    ensures r.Success? ==>
              forall i :: 0 <= i < |t.rows| ==>
                r.value.rows[i] == if t.rows[i].active && t.rows[i].address.id == addressId && t.rows[i].address.accountId == 0
                                   then t.rows[i].(active := false)
                                   else t.rows[i]
  {
    AddressTable.DeleteAddress(t, addressId, 0, fault)
  }

  /** `ListAddressesForAccount`: a page of the account's active addresses, then their count. */
  function ListAddressesForAccount(t: Addresses, account: Account, page: Int64, pageSize: Int64,
                                   listFault: Option<Error>, countFault: Option<Error>): (r: Result<Listing<Address>, Error>)
    ensures listFault.Some? ==> r == Failure(listFault.value)
    ensures listFault.None? && countFault.Some? && Page(AddressTable.Owned(t, account.id), page, pageSize).Success? ==>
              r == Failure(countFault.value)
    ensures listFault.None? && countFault.None? ==> (r.Success? <==> Page(AddressTable.Owned(t, account.id), page, pageSize).Success?)
    ensures r.Success? ==>
              Page(AddressTable.Owned(t, account.id), page, pageSize).Success? &&
              r.value.items == Project(Page(AddressTable.Owned(t, account.id), page, pageSize).value, AddressTable.RowAddress)
    ensures r.Success? ==>
              r.value.total == |AddressTable.Owned(t, account.id)| && |r.value.items| <= r.value.total &&
              forall x :: x in r.value.items ==> x.accountId == account.id && AddressTable.AddressRow(x, true) in t.rows
  {
    ListThenCount(AddressTable.ListAddresses(t, account.id, page, pageSize, listFault),
                  AddressTable.CountAddresses(t, account.id, countFault))
  }

  /** `FetchUserForAccount`: the active user with that id, looked up under account 0. */
  function FetchUserForAccount(t: Users, account: Account, userId: Int64, fault: Option<Error>): (r: Result<User, Error>)
    ensures fault.Some? ==> r == Failure(fault.value)
    ensures fault.None? ==>
              (r.Success? <==> exists i :: 0 <= i < |t.rows| && t.rows[i].active && t.rows[i].user.id == userId && t.rows[i].user.accountId == 0)
    ensures fault.None? && r.Failure? ==> r.error == NotFoundUserByID
  {
    UserTable.GetUserByID(t, 0, userId, fault)
  }

  /** `DeleteUserForAccount`: deactivates the user with that id owned by account 0. */
  function DeleteUserForAccount(t: Users, account: Account, userId: Int64, fault: Option<Error>): (r: Result<Users, Error>)
    ensures fault.Some? ==> r == Failure(fault.value)
    ensures fault.None? ==> r.Success? && |r.value.rows| == |t.rows|
    ensures r.Success? ==>
              forall i :: 0 <= i < |t.rows| ==>
                r.value.rows[i] == if t.rows[i].user.id == userId && t.rows[i].user.accountId == 0
                                   then t.rows[i].(active := false)
                                   else t.rows[i]
  {
    UserTable.DeleteUser(t, userId, 0, fault)
  }

  /** `ListUsersForAccount`: a page of the account's active users, then their count. */
  function ListUsersForAccount(t: Users, account: Account, page: Int64, pageSize: Int64,
                               listFault: Option<Error>, countFault: Option<Error>): (r: Result<Listing<User>, Error>)
    ensures listFault.Some? ==> r == Failure(listFault.value)
    ensures listFault.None? && countFault.Some? && Page(UserTable.Owned(t, account.id), page, pageSize).Success? ==>
              r == Failure(countFault.value)
    ensures listFault.None? && countFault.None? ==> (r.Success? <==> Page(UserTable.Owned(t, account.id), page, pageSize).Success?)
    ensures r.Success? ==>
              Page(UserTable.Owned(t, account.id), page, pageSize).Success? &&
              r.value.items == Project(Page(UserTable.Owned(t, account.id), page, pageSize).value, UserTable.RowUser)
    ensures r.Success? ==>
              r.value.total == |UserTable.Owned(t, account.id)| && |r.value.items| <= r.value.total &&
              forall x :: x in r.value.items ==> x.accountId == account.id && UserTable.UserRow(x, true) in t.rows
  {
    ListThenCount(UserTable.ListUsers(t, account.id, page, pageSize, listFault),
                  UserTable.CountUsers(t, account.id, countFault))
  }

  /** Every stored address or user belongs to an account that can exist: account ids start at 1. */
  predicate OwnedByRealAccounts(addresses: Addresses, users: Users) {
    (forall x :: x in addresses.rows ==> x.address.accountId >= 1) &&
    (forall x :: x in users.rows ==> x.user.accountId >= 1)
  }

  /** Whoever asks, an address fetch gives the same answer: another account's address is handed over. */
  lemma AddressFetchIgnoresOwner(t: Addresses, asker: Account, addressId: Int64)
    requires exists i :: 0 <= i < |t.rows| && t.rows[i].active && t.rows[i].address.id == addressId && t.rows[i].address.accountId != asker.id
    ensures FetchAddressForAccount(t, asker, addressId, None).Success?
    ensures FetchAddressForAccount(t, asker, addressId, None).value.accountId != asker.id
  {
    var i :| 0 <= i < |t.rows| && t.rows[i].active && t.rows[i].address.id == addressId && t.rows[i].address.accountId != asker.id;
    var r := FetchAddressForAccount(t, asker, addressId, None);
    var j :| 0 <= j < |t.rows| && t.rows[j] == AddressTable.AddressRow(r.value, true);
    IdsUnique(t, AddressTable.Key, i, j);
  }

  /** With real owners only, deleting an address through the domain changes nothing. */
  lemma AddressDeleteIsNoOp(addresses: Addresses, users: Users, account: Account, addressId: Int64)
    requires OwnedByRealAccounts(addresses, users)
    ensures DeleteAddressForAccount(addresses, account, addressId, None) == Success(addresses)
  {
    var t2 := DeleteAddressForAccount(addresses, account, addressId, None).value;
    forall i | 0 <= i < |addresses.rows| ensures t2.rows[i] == addresses.rows[i] {
      assert addresses.rows[i] in addresses.rows;
    }
    assert t2.rows == addresses.rows;
  }

  /** With real owners only, a user fetch through the domain never finds anyone. */
  lemma UserFetchNeverFinds(addresses: Addresses, users: Users, account: Account, userId: Int64)
    requires OwnedByRealAccounts(addresses, users)
    ensures FetchUserForAccount(users, account, userId, None) == Failure(NotFoundUserByID)
  {
    forall i | 0 <= i < |users.rows| ensures users.rows[i].user.accountId != 0 {
      assert users.rows[i] in users.rows;
    }
  }

  /** With real owners only, deleting a user through the domain changes nothing. */
  lemma UserDeleteIsNoOp(addresses: Addresses, users: Users, account: Account, userId: Int64)
    requires OwnedByRealAccounts(addresses, users)
    ensures DeleteUserForAccount(users, account, userId, None) == Success(users)
  {
    var t2 := DeleteUserForAccount(users, account, userId, None).value;
    forall i | 0 <= i < |users.rows| ensures t2.rows[i] == users.rows[i] {
      assert users.rows[i] in users.rows;
    }
    assert t2.rows == users.rows;
  }
}
