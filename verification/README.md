# device-backend in Dafny

This project models the core of device-backend, a Go HTTP service for accounts, addresses, users, devices and catalogue data (sensors, units, models). It covers the parts of the service that make decisions:

- the error taxonomy and the response envelopes built from it;
- the paging protocol;
- the two JWT gates and the middleware in front of them;
- the customer and device domain services;
- the customer and device controllers;
- the login, logout and refresh handlers;
- the MySQL tables, modelled as sequences of rows;
- the entity records with their setters and column decoders;
- the logger's masks and level filter;
- the nested-secret merge of the AWS configuration manager.

## How the model is built

- **Tables.** A table is a sequence of rows plus the next auto-increment id (`Query.Table`). A `WHERE` clause is a filter, `LIMIT ? OFFSET page*pageSize` is a window, and an `UPDATE` is a row rewrite. A soft delete clears `active`; the device delete removes the row. The ids are kept strictly ascending and below the next id (`Query.WellFormed`), so `ORDER BY ID` is storage order. The unordered lists are taken in storage order too.
- **Store outcomes.** Each statement's outcome is an input. A read or write takes `fault: Option<Error>`. An insert takes an `InsertFault`: it can fail before the commit, or commit and then fail to report its id. A handler takes an `Io` record that gives the outcome of each statement it runs.
- **Time.** Every `time.Now()` becomes an explicit `now: Instant`, in nanoseconds. One request uses one instant.
- **Collaborators.** The bcrypt hash, the JWT signer and parser, the uuid and refresh-token generators, the JSON decoder with its validator, and the account lookup by email are all function-typed parameters.
- **Strings.** Strings are `seq<char>`, one char per byte. Case mapping is ASCII.

Every controller is modelled from its own body. Where the service's intended behaviour differs from what the code does, the model follows the code:

- A request without a token is refused with `ErrUnauthorized`, not a missing-token error.
- No handler compares the token's claims with the path account.
- Devices are removed by a hard delete; accounts, addresses and users are soft-deleted.
- `UpdateUser` also rewrites a deactivated user.
- Login never checks the password.
- The installed gate prefix-matches the full path, so `/api/login` is not exempt.

The lemmas state these behaviours as the code has them:

- the address routes ignore the owner;
- the single-user routes never find a user;
- the address delete through the domain changes nothing;
- the password is ignored;
- the path account decides device ownership.

## Model

| member | source | states |
|---|---|---|
| Errors.CodeCoversNamedErrors | internal/domain/errors.go:61-88 | the code map has an entry for exactly the 25 named errors and for nothing else |
| Errors.DescriptionCoversNamedErrors | internal/domain/errors.go:89-116 | the description map has an entry for exactly the same 25 errors as the code map |
| Errors.CodeRoundTripToken | internal/domain/errors.go:82-87 | each token error is recovered from its code |
| Errors.CodeRoundTripGeneral | internal/domain/errors.go:62-64 | the paging, unauthorized and mismatch errors are recovered from their codes |
| Errors.CodeRoundTripCustomer | internal/domain/errors.go:65-70 | the user, account and address not-found errors are recovered from their codes |
| Errors.CodeRoundTripCatalogue | internal/domain/errors.go:71-76 | the model, unit and sensor not-found errors are recovered from their codes |
| Errors.CodeRoundTripDevice | internal/domain/errors.go:77-81 | the device not-found and not-owned errors are recovered from their codes |
| Errors.CodeRoundTrip | internal/domain/errors.go:61-88 | every named error is recovered from its code |
| Errors.CodesInjective | internal/domain/errors.go:61-88 | two named errors share a code exactly when they are the same error |
| Errors.StatusListedExactlyForNonTokenErrors | internal/domain/errors.go:117-138 | the status map covers every named error except the five token errors |
| Errors.StatusByFamily | internal/domain/errors.go:117-138 | not-found and not-owned errors map to 404; paging and mismatch errors map to 400; only unauthorized maps to 401 |
| Errors.NotOwnedSharesStatusNotCode | internal/domain/errors.go:80-81 | not-owned and not-found device errors share status 404 but differ in code and description |
| Strings.ToLower | internal/infrastructure/transport/http/middleware/iris.go:12-16 | lowering keeps the length and lowers each byte independently |
| Strings.ToUpper | internal/application/logger/logger.go:139-152 | raising keeps the length and raises each byte independently |
| Strings.ToLowerIdempotent | internal/infrastructure/transport/http/middleware/iris.go:12-16 | lowering a lowered string changes nothing |
| Strings.EqualFoldIsEqualLowered | internal/infrastructure/transport/http/auth_controller.go:27-34 | two strings are equal up to ASCII case exactly when their lowered forms are equal |
| Strings.TrimPrefix | internal/infrastructure/transport/http/middleware/jwt.go:114-120 | with the prefix present, prefix followed by the result is the input; without it, the input is unchanged |
| Strings.IndexOf | internal/infrastructure/transport/http/auth_controller.go:27-34 | the result is the first position where the pattern occurs, or none when it occurs nowhere |
| Strings.ReplaceFirst | internal/infrastructure/transport/http/auth_controller.go:27-34 | only the first occurrence of the pattern is replaced; without an occurrence the input is unchanged |
| Ints.Wrap | internal/domain/customer/model/entity/account_mysql.go:144 | the result is congruent to its input modulo 2^64, and an in-range input is unchanged; this is int64 overflow |
| Tokens.NewClaims | internal/infrastructure/transport/http/middleware/jwt.go:88-97 | the claims carry the user id, the role, issuer "device-backend", issued-at of now in seconds, and expiry issued-at plus the lifetime |
| Tokens.ShiftByWholeSeconds | internal/infrastructure/transport/http/middleware/jwt.go:93-94 | moving an instant by whole seconds moves its Unix seconds by the same amount; a non-negative shift never moves them back |
| Tokens.Classify | internal/infrastructure/transport/http/middleware/jwt.go:122-151 | only a parsed, valid token yields its claims; validation errors become expired, then malformed, then invalid; other parse errors pass through; a parsed but unusable token gives invalid claims |
| Tokens.ExpiredOutranksMalformed | internal/infrastructure/transport/http/middleware/jwt.go:133-137 | with both the expired and the malformed flag set, the error is expired-token |
| HttpHelpers.GetPageAndPageSize | internal/infrastructure/transport/http/helper_functions.go:86-103 | succeeds exactly when both parameters are acceptable; a bad size wins over a bad index; a result is non-negative, with 10 and 0 for absent parameters |
| HttpHelpers.AbsentParamsDefault | internal/infrastructure/transport/http/helper_functions.go:86-103 | with both parameters absent the paging is size 10, page 0 |
| HttpHelpers.UnparsableIsRefused | internal/infrastructure/transport/http/helper_functions.go:86-103 | given Iris's -1 alongside any error, paging is accepted exactly when each parameter is absent or parses to a non-negative number; an unparsable page size is reported as a bad page size before the index is looked at, and an unparsable index as a bad page index |
| HttpHelpers.FirstNonZero | internal/infrastructure/transport/http/helper_functions.go:149-161 | the result is the first non-zero entry of the list, or zero when every entry is zero |
| HttpHelpers.RespondWithError | internal/infrastructure/transport/http/helper_functions.go:144-168 | a named error gets its code and description, anything else the internal-exception pair; the status is the mapped one, or 400 when there is none |
| HttpHelpers.ErrorStatuses | internal/infrastructure/transport/http/helper_functions.go:144-168 | an error reply is 400, 401 or 404; it is 401 exactly for unauthorized, and 404 for every not-found error |
| HttpHelpers.ErrorReplyIdentifiesError | internal/infrastructure/transport/http/helper_functions.go:144-168 | two named errors whose replies carry the same code are the same error |
| HttpHelpers.RespondWithMappingError | internal/infrastructure/transport/http/helper_functions.go:104-123 | always 400 with the bad-payload code; the text is "Bad Request: " followed by the reason |
| HttpHelpers.MappingCodeIsDistinct | internal/infrastructure/transport/http/helper_functions.go:104-168 | a mapping reply and an error reply for the same error never carry the same code |
| HttpHelpers.BadPayloadIsNoTableCode | internal/domain/errors.go:49-51 | the bad-payload code is not the code of any error |
| HttpHelpers.RespondWithJSON | internal/infrastructure/transport/http/helper_functions.go:33-55 | the envelope carries the payload, status and request id, with code "00" and the success message |
| HttpHelpers.RespondWithList | internal/infrastructure/transport/http/helper_functions.go:56-81 | the envelope carries exactly the given items, page, page size and total, with the success code and message |
| HttpHelpers.SuccessCodeIsNotAnErrorCode | internal/infrastructure/transport/http/helper_functions.go:104-168 | neither kind of error reply ever carries the success code "00" |
| HttpHelpers.GetRequest | internal/infrastructure/transport/http/helper_functions.go:124-143 | an empty body leaves the target as it is; otherwise a decode failure is returned, and a decoded value is accepted exactly when validation passes |
| JwtMiddleware.ResolveConfig | internal/infrastructure/transport/http/middleware/jwt.go:41-45 | a missing configuration is replaced by the default: HS256, a 72-hour lifetime and the "Bearer " prefix |
| JwtMiddleware.ExtractToken | internal/infrastructure/transport/http/middleware/jwt.go:114-120 | the token is what follows "Bearer " in the Authorization header, or empty when the header does not start with it; the configured prefix is not consulted |
| JwtMiddleware.MatchesEscaped | internal/infrastructure/transport/http/middleware/jwt.go:49-55 | a path is escaped exactly when it starts with one of the routes, case-sensitively |
| JwtMiddleware.Gate | internal/infrastructure/transport/http/middleware/jwt.go:46-79 | an escaped path passes untouched; otherwise the request passes exactly when a token is present and validates, and then only the claims are stored; every refusal is the unauthorized reply |
| JwtMiddleware.RefusalHidesCause | internal/infrastructure/transport/http/middleware/jwt.go:60-73 | all refusals of one request are the same 401 unauthorized reply, whatever the token error was |
| JwtMiddleware.GetUserFromContext | internal/infrastructure/transport/http/middleware/jwt.go:104-110 | the stored claims are returned when present; otherwise the error is invalid-claims |
| JwtMiddleware.DefaultTokenLifetime | internal/infrastructure/transport/http/middleware/jwt.go:31-38 | a token issued under the defaults expires 72 hours after it was issued |
| JwtMiddleware.IssuedTokenPassesGate | internal/infrastructure/transport/http/middleware/jwt.go:83-110 | a token issued under the defaults and sent as "Bearer" plus the token passes the gate, and its user id and role can be read back |
| IrisMiddleware.CaselessMatcher | internal/infrastructure/transport/http/middleware/iris.go:12-16 | the path is lowered; the headers and stored values are unchanged |
| IrisMiddleware.CaselessMatcherIdempotent | internal/infrastructure/transport/http/middleware/iris.go:12-16 | applying the matcher twice is the same as applying it once |
| IrisMiddleware.AssignRequestId | internal/infrastructure/transport/http/middleware/iris.go:17-25 | a non-empty request-id header becomes the request id verbatim, otherwise the fresh id does; nothing else changes |
| IrisMiddleware.RequestIdNeverEmpty | internal/infrastructure/transport/http/middleware/iris.go:17-25 | given a non-empty fresh id, every request ends up with a non-empty id |
| Pipeline.Serve | cmd/device-api/main.go:103-110 | the matcher and the request id run before the gate, so a refusal carries the assigned id and exemption sees the lowered path |
| Pipeline.ApiPathsAreNeverEscaped | cmd/device-api/main.go:103-110 | no path under "/api", whatever its case, matches the wired escaped routes |
| Pipeline.ApiRouteWithoutTokenRefused | cmd/device-api/main.go:103-110 | an "/api" request without an Authorization header is refused with 401 |
| Pipeline.RefusalIs401 | internal/infrastructure/transport/http/middleware/jwt.go:60-73 | a refusal of the installed gate is 401 |
| Pipeline.ExemptionIgnoresCase | cmd/device-api/main.go:103-110 | when a path is exempt, every path equal to it up to case passes as well |
| Pipeline.EscapedRequestPassesUntouched | cmd/device-api/main.go:103-110 | an escaped request continues with only the path lowered and the request id set |
| AuthController.StrippedPath | internal/infrastructure/transport/http/auth_controller.go:27-34 | a path starting with "/api" loses that prefix; a path without "/api" is unchanged |
| AuthController.EqualsSomeRoute | internal/infrastructure/transport/http/auth_controller.go:27-34 | true exactly when the path equals some route up to ASCII case |
| AuthController.ExtractToken | internal/infrastructure/transport/http/auth_controller.go:71-77 | the token is what follows the configured prefix, or empty when the header does not start with it |
| AuthController.Gate | internal/infrastructure/transport/http/auth_controller.go:22-59 | an exempt path passes untouched; otherwise the request passes exactly when a token is present and validates, and then the claims are stored; every refusal is unauthorized |
| AuthController.ExemptIffSameLowered | internal/infrastructure/transport/http/auth_controller.go:27-34 | a path is exempt exactly when its lowered stripped form equals a lowered route |
| AuthController.ApiPathExemptByRemainder | internal/infrastructure/transport/http/auth_controller.go:27-34 | "/api" followed by a remainder is exempt exactly when the remainder equals a route up to case |
| AuthController.LongerPathNotExempt | internal/infrastructure/transport/http/auth_controller.go:27-34 | matching is whole-path: a stripped path longer than every route is never exempt |
| AuthController.EmptyPrefixTakesWholeHeader | internal/infrastructure/transport/http/auth_controller.go:71-77 | with an empty prefix the whole header is the token |
| AuthController.PrefixedTokenExtracted | internal/infrastructure/transport/http/auth_controller.go:71-77 | a header made of the prefix and a token yields that token |
| AuthController.GateOnlyStoresClaims | internal/infrastructure/transport/http/auth_controller.go:36-56 | passing the gate keeps the path, the headers and every other stored value |
| AuthController.GenerateToken | internal/infrastructure/transport/http/auth_controller.go:243-257 | signs the same claims as the middleware's generator under the given configuration |
| AuthController.HandleLogin | internal/infrastructure/transport/http/auth_controller.go:127-182 | a bad body gets the mapping reply; an unknown email is 401 unauthorized; success exactly when the email is found, a token is signed and a refresh token is made; it is 201 with both tokens, expiry now plus the lifetime, and the account's details |
| AuthController.HandleLogout | internal/infrastructure/transport/http/auth_controller.go:185-199 | succeeds with 200 and the logged-out message exactly when a refresh-token header is present; otherwise 401 |
| AuthController.HandleRefreshToken | internal/infrastructure/transport/http/auth_controller.go:202-240 | without a refresh-token header the reply is 401; then the body and the account lookup as for login; success is 200 with a new token and its expiry |
| AuthController.PasswordIgnored | internal/infrastructure/transport/http/auth_controller.go:138-150 | two logins with the same email get the same answer, whatever their passwords |
| AuthController.UnknownEmailIs401 | internal/infrastructure/transport/http/auth_controller.go:142-146 | a failed lookup is always 401 with the unauthorized code |
| AuthController.LoginIssuesAdminToken | internal/infrastructure/transport/http/auth_controller.go:153-177 | the token signed at login carries role ADMIN and the account's id; the reported expiry is the token's to the second |
| AuthController.LogoutAcceptsAnyToken | internal/infrastructure/transport/http/auth_controller.go:185-199 | any two non-empty refresh tokens get the same successful logout |
| AuthController.RefreshLikeLogin | internal/infrastructure/transport/http/auth_controller.go:202-240 | refresh issues the same token and expiry that login with the same body would |
| Columns.ScanRecordId | internal/domain/customer/model/entity/mysql.go:15-23 | only an int64 driver value decodes; anything else is a type error |
| Columns.ScanText | internal/domain/customer/model/entity/mysql.go:28-40 | null decodes to "" and bytes to their text; anything else is a type error |
| Columns.ScanBool | internal/domain/customer/model/entity/mysql.go:45-67 | decodes null, bool, int64 and string: true exactly for true, a non-zero integer or the string "true"; anything else is a type error |
| Columns.ScanDate | internal/domain/customer/model/entity/mysql.go:72-84 | null decodes to the zero time and a time to itself; anything else is a type error |
| Columns.RoundTrips | internal/domain/customer/model/entity/mysql.go:15-88 | record ids, booleans and dates decode to what their encoders produced |
| Columns.TextDoesNotRoundTrip | internal/domain/customer/model/entity/mysql.go:28-44 | the text encoder produces a string, which the text decoder rejects; bytes decode |
| Columns.NullDecodesToZero | internal/domain/customer/model/entity/mysql.go:15-84 | null is rejected as a record id, and decodes to "", false and the zero time for the other columns |
| JsonColumn.Scan | internal/domain/device/model/entity/mysql.go:15-26 | only bytes decode; a decoder failure passes through; JSON null gives an empty map; otherwise the decoded keys overwrite the current map |
| JsonColumn.Get | internal/domain/device/model/entity/mysql.go:35-41 | a present key yields its value; an absent key yields the key-not-found error |
| JsonColumn.Set | internal/domain/device/model/entity/mysql.go:31-34 | the key set gains exactly the key |
| JsonColumn.Delete | internal/domain/device/model/entity/mysql.go:42-45 | the key set loses exactly the key |
| JsonColumn.AsMap | internal/domain/device/model/entity/mysql.go:46-49 | the map holds exactly the keys that can be read, with the values they read as |
| JsonColumn.GetAfterSet | internal/domain/device/model/entity/mysql.go:31-41 | a set key reads back its value; other keys read as before |
| JsonColumn.GetAfterDelete | internal/domain/device/model/entity/mysql.go:35-45 | a deleted key reads as not found; other keys read as before; deleting an absent key changes nothing |
| JsonColumn.DeleteUndoesSet | internal/domain/device/model/entity/mysql.go:31-45 | deleting a key just set is deleting it from the original |
| JsonColumn.ScanIntoEmptyIsDecoded | internal/domain/device/model/entity/mysql.go:15-26 | scanning bytes into an empty map gives the decoded map |
| SecretMerge.DeepMerge | internal/infrastructure/config/aws/secret_config_manager.go:137-159 | two maps merge to the union of their keys, with keys in both merged recursively; a map root ignores a non-map; a null root takes a nested map; any other root wins |
| SecretMerge.MergeSelf | internal/infrastructure/config/aws/secret_config_manager.go:137-159 | merging a value with itself returns it |
| SecretMerge.MergeEmptyObject | internal/infrastructure/config/aws/secret_config_manager.go:137-159 | merging in an empty map changes nothing except a null root, which becomes that map |
| SecretMerge.MergeIdempotent | internal/infrastructure/config/aws/secret_config_manager.go:137-159 | merging the same nested value a second time changes nothing |
| SecretMerge.MergeNestedSplits | internal/infrastructure/config/aws/secret_config_manager.go:75-97 | merging a list of secrets is merging its first part, then the rest into that result |
| SecretMerge.GetConfigMerge | internal/infrastructure/config/aws/secret_config_manager.go:62-112 | without a "secrets" entry the secret is the configuration; a non-list entry panics; a list is merged in order |
| SecretMerge.SelfListingSecretIsUnchanged | internal/infrastructure/config/aws/secret_config_manager.go:75-97 | a secret that lists only itself merges to itself |
| Query.Filter | internal/domain/customer/model/entity/account_mysql.go:134-174 | a WHERE clause keeps exactly the rows that satisfy it, and never more rows than there were |
| Query.Count | internal/domain/customer/model/entity/account_mysql.go:116-133 | a COUNT is at most the row count, and zero exactly when no row matches |
| Query.FindFirst | internal/domain/customer/model/entity/account_mysql.go:62-88 | a single-row query finds the first matching row, or none when no row matches |
| Query.FindFirstIsFilterHead | internal/domain/customer/model/entity/account_mysql.go:62-88 | the row a single-row query reads is the head of the filtered rows |
| Query.Rewrite | internal/domain/customer/model/entity/account_mysql.go:175-217 | an UPDATE rewrites exactly the matching rows and leaves the others and the row count unchanged |
| Query.RewriteNothing | internal/domain/customer/model/entity/account_mysql.go:175-217 | an UPDATE that matches nothing leaves the rows unchanged |
| Query.FilterUnaffected | internal/domain/customer/model/entity/address_mysql.go:158-240 | an UPDATE that leaves every row a WHERE filter selects as it was, and makes no other row selected, changes nothing that filter returns |
| Query.Project | internal/domain/customer/model/entity/account_mysql.go:153-171 | scanning each row keeps the order and the count |
| Query.Window | internal/domain/customer/model/entity/account_mysql.go:138-144 | LIMIT and OFFSET fail on a negative argument; otherwise they return the rows from the offset on, at most the limit |
| Query.Offset | internal/domain/customer/model/entity/account_mysql.go:144 | the offset is page times size whenever that product fits in int64 |
| Query.Page | internal/domain/customer/model/entity/account_mysql.go:138-144 | a page holds at most the page size; valid non-overflowing paging succeeds; a page past the end is empty |
| Query.RowOnItsPage | internal/domain/customer/model/entity/account_mysql.go:138-144 | row i is at position i mod n of page i div n |
| Query.FirstPageIsPrefix | internal/domain/customer/model/entity/account_mysql.go:138-144 | page 0 is the first n rows |
| Query.HugePageWrapsToFirstPage | internal/domain/customer/model/entity/account_mysql.go:144 | a page whose offset overflows to 0 returns the first page |
| Query.HugePageCanFail | internal/domain/customer/model/entity/account_mysql.go:144 | a page whose offset overflows to a negative number is refused by the store |
| Query.FilterKeepsAscending | internal/domain/device/model/entity/device_mysql.go:131-169 | a filter keeps rows ordered by id |
| Query.PageKeepsAscending | internal/domain/device/model/entity/device_mysql.go:139-141 | a page of rows ordered by id is ordered by id |
| Query.AscendingWithinBound | internal/domain/customer/model/entity/account_mysql.go:11-61 | strictly ascending ids within a range are no more than the range's width |
| Query.WellFormedSize | internal/domain/customer/model/entity/account_mysql.go:11-61 | a table whose ids are auto-increment values has at most MaxInt64 rows |
| Query.CountInt64 | internal/domain/customer/model/entity/account_mysql.go:116-133 | the int64 COUNT result equals the number of matching rows |
| Query.InsertKeepsWellFormed | internal/domain/customer/model/entity/account_mysql.go:11-61 | appending a row with the next id keeps the ids ascending and below the next id |
| Query.RewriteKeepsWellFormed | internal/domain/customer/model/entity/account_mysql.go:175-217 | an UPDATE that does not change ids keeps the table well formed |
| Query.FilterKeepsWellFormed | internal/domain/device/model/entity/device_mysql.go:215-249 | removing rows keeps the table well formed |
| Query.IdsUnique | internal/domain/customer/model/entity/account_mysql.go:11-61 | in a well-formed table two rows with the same id are the same row |
| Query.ListThenCount | internal/domain/customer/domain.go:76-93 | a list failure is returned without counting; then a count failure is returned; otherwise the page and the count together |
| AccountEntity.ReadDeterminesAccount | internal/domain/customer/model/entity/account.go:114-149 | two accounts whose getters all agree are equal |
| AccountEntity.NewAccount | internal/domain/customer/model/entity/account.go:105-113 | email and name from the arguments, both timestamps now, every other field zero |
| AccountEntity.Apply | internal/domain/customer/model/entity/account.go:150-201 | a setter changes exactly its own field; the content setters also stamp the modification time, and SetID and the timestamp setters stamp nothing |
| AccountEntity.ApplyIdempotent | internal/domain/customer/model/entity/account.go:150-201 | calling a setter twice with the same value and clock is calling it once |
| AccountEntity.SettersCommute | internal/domain/customer/model/entity/account.go:150-201 | setters of different fields commute, unless one sets the modification time and the other stamps it |
| AccountEntity.SetPassword | internal/domain/customer/model/entity/account.go:159-169 | a hashing failure is returned and the account is not changed; success stores the hash of password plus salt and the salt, and stamps |
| AccountEntity.SetPasswordIsHashThenSalt | internal/domain/customer/model/entity/account.go:159-178 | a successful SetPassword is SetPasswordHash then SetSalt |
| AddressEntity.ReadDeterminesAddress | internal/domain/customer/model/entity/address.go:37-91 | two addresses whose fields all read alike are equal |
| AddressEntity.GetAddressLine2 | internal/domain/customer/model/entity/address.go:53-59 | the stored second line, or "" when it is absent |
| AddressEntity.GetState | internal/domain/customer/model/entity/address.go:64-70 | the stored state, or "" when it is absent |
| AddressEntity.NewAddress | internal/domain/customer/model/entity/address.go:27-36 | the account id, both timestamps now, empty texts and absent optional fields |
| AddressEntity.Apply | internal/domain/customer/model/entity/address.go:92-149 | a setter changes exactly its own field; every content setter, SetAccountId included, stamps, and SetID and the timestamp setters do not |
| AddressEntity.ApplyIdempotent | internal/domain/customer/model/entity/address.go:92-149 | calling a setter twice with the same value and clock is calling it once |
| AddressEntity.OptionalGettersAfterSetters | internal/domain/customer/model/entity/address.go:53-126 | the optional getters return what their setters stored, "" for a new address; setting "" stores a present value |
| UserEntity.ReadDeterminesUser | internal/domain/customer/model/entity/user.go:35-75 | two users whose getters all agree are equal |
| UserEntity.NewUser | internal/domain/customer/model/entity/user.go:22-34 | account id and email from the arguments, both flags false, both timestamps now, other texts empty |
| UserEntity.Apply | internal/domain/customer/model/entity/user.go:76-121 | a setter changes exactly its own field; the content setters stamp, and SetID and the timestamp setters do not |
| UserEntity.ApplyIdempotent | internal/domain/customer/model/entity/user.go:76-121 | calling a setter twice with the same value and clock is calling it once |
| DeviceEntity.ReadDeterminesDevice | internal/domain/device/model/entity/device.go:32-63 | two devices whose getters all agree are equal |
| DeviceEntity.NewDevice | internal/domain/device/model/entity/device.go:20-31 | account, model id, name, serial number and configuration from the arguments; both timestamps now; id 0 |
| DeviceEntity.Apply | internal/domain/device/model/entity/device.go:64-99 | a setter changes exactly its own field; the content setters stamp, and SetID and the timestamp setters do not |
| DeviceEntity.ApplyIdempotent | internal/domain/device/model/entity/device.go:64-99 | calling a setter twice with the same value and clock is calling it once |
| DeviceEntity.SettersCommute | internal/domain/device/model/entity/device.go:64-99 | setters of different fields commute, unless one sets the modification time and the other stamps it |
| AccountTable.Active | internal/domain/customer/model/entity/account_mysql.go:121-124 | exactly the active rows |
| AccountTable.AddAccount | internal/domain/customer/model/entity/account_mysql.go:11-61 | a failure before commit changes nothing; otherwise the row is stored under the next id, and the caller sees that id only when it can be read back |
| AccountTable.GetAccountByID | internal/domain/customer/model/entity/account_mysql.go:89-115 | found exactly when an active row has the id, and then that row; otherwise not-found-by-id; a store error passes through |
| AccountTable.GetAccountByEmail | internal/domain/customer/model/entity/account_mysql.go:62-88 | found exactly when an active row has the email; otherwise not-found-by-email |
| AccountTable.CountAccounts | internal/domain/customer/model/entity/account_mysql.go:116-133 | the number of active rows |
| AccountTable.ListAccounts | internal/domain/customer/model/entity/account_mysql.go:134-174 | the requested window of the active rows, at most a page long, each an active stored account |
| AccountTable.UpdateAccount | internal/domain/customer/model/entity/account_mysql.go:175-217 | writes email, name, receive-updates, verified and modified-at on the active row with the id only; every other row and column is kept |
| AccountTable.DeleteAccount | internal/domain/customer/model/entity/account_mysql.go:218-252 | clears active on the rows with the id and changes nothing else |
| AccountTable.AddThenGet | internal/domain/customer/model/entity/account_mysql.go:11-115 | an account just added reads back under its new id |
| AccountTable.UpdateThenGet | internal/domain/customer/model/entity/account_mysql.go:89-217 | after an update, a read returns the stored account with the written columns replaced |
| AccountTable.DeleteHides | internal/domain/customer/model/entity/account_mysql.go:89-252 | after a delete the id is not found, and the account leaves the active rows |
| AccountTable.DeleteIdempotent | internal/domain/customer/model/entity/account_mysql.go:218-252 | deleting twice is deleting once |
| AddressTable.Owned | internal/domain/customer/model/entity/address_mysql.go:95-123 | exactly the active rows of the account |
| AddressTable.AddAddress | internal/domain/customer/model/entity/address_mysql.go:11-64 | a failure before commit changes nothing; otherwise the row is stored under the next id, and the caller sees that id only when it can be read back |
| AddressTable.GetAddressByID | internal/domain/customer/model/entity/address_mysql.go:65-94 | found exactly when an active row has the id, whatever its account; otherwise not-found-by-id |
| AddressTable.CountAddresses | internal/domain/customer/model/entity/address_mysql.go:95-112 | the number of the account's active rows |
| AddressTable.ListAddresses | internal/domain/customer/model/entity/address_mysql.go:113-157 | the requested window of the account's active rows, each carrying that account id |
| AddressTable.UpdateAddress | internal/domain/customer/model/entity/address_mysql.go:158-205 | rewrites the content columns of the active row matching id and account only |
| AddressTable.DeleteAddress | internal/domain/customer/model/entity/address_mysql.go:206-240 | clears active on the active row matching id and account only |
| AddressTable.AddThenGet | internal/domain/customer/model/entity/address_mysql.go:11-94 | an address just added reads back under its new id |
| AddressTable.WritesAreAccountScoped | internal/domain/customer/model/entity/address_mysql.go:158-240 | an update or delete naming one account leaves every other account's list of active addresses exactly as it was |
| AddressTable.DeleteHidesAndIsIdempotent | internal/domain/customer/model/entity/address_mysql.go:206-240 | a second delete changes nothing, and the deleted address leaves the account's rows |
| UserTable.Owned | internal/domain/customer/model/entity/user_mysql.go:126-154 | exactly the active rows of the account |
| UserTable.AddUser | internal/domain/customer/model/entity/user_mysql.go:11-70 | a failure before commit changes nothing; otherwise the row is stored under the next id, and the caller sees that id only when it can be read back |
| UserTable.GetUserByEmail | internal/domain/customer/model/entity/user_mysql.go:71-98 | found exactly when an active row has the email; otherwise not-found-by-email |
| UserTable.GetUserByID | internal/domain/customer/model/entity/user_mysql.go:99-125 | found exactly when an active row matches both id and account; otherwise not-found-by-id |
| UserTable.CountUsers | internal/domain/customer/model/entity/user_mysql.go:126-143 | the number of the account's active rows |
| UserTable.ListUsers | internal/domain/customer/model/entity/user_mysql.go:144-185 | the requested window of the account's active rows, each carrying that account id |
| UserTable.UpdateUser | internal/domain/customer/model/entity/user_mysql.go:186-232 | rewrites the content columns of the row matching id and account, active or not |
| UserTable.DeleteUser | internal/domain/customer/model/entity/user_mysql.go:233-267 | clears active on the row matching id and account only |
| UserTable.AddThenGet | internal/domain/customer/model/entity/user_mysql.go:11-125 | a user just added reads back under its own account by its new id |
| UserTable.ReadsAreAccountScoped | internal/domain/customer/model/entity/user_mysql.go:99-125 | a user found under one account is not found under another |
| UserTable.DeletedUserStillUpdated | internal/domain/customer/model/entity/user_mysql.go:186-267 | after a delete, an update still rewrites the deactivated row, which stays inactive |
| DeviceTable.Owned | internal/domain/device/model/entity/device_mysql.go:113-141 | exactly the rows of the account; devices have no active flag |
| DeviceTable.AddDevice | internal/domain/device/model/entity/device_mysql.go:11-60 | a failure before commit changes nothing; otherwise the row is stored under the next id, and the caller sees that id only when it can be read back |
| DeviceTable.GetDeviceByID | internal/domain/device/model/entity/device_mysql.go:61-86 | found exactly when a row has the id, read into the receiver; otherwise not-found-by-id |
| DeviceTable.GetDeviceBySerialNumber | internal/domain/device/model/entity/device_mysql.go:87-112 | found exactly when a row has the serial number; otherwise not-found-by-serial-number |
| DeviceTable.CountDevices | internal/domain/device/model/entity/device_mysql.go:113-130 | the number of the account's rows |
| DeviceTable.ListDevices | internal/domain/device/model/entity/device_mysql.go:131-169 | the requested window of the account's rows in id order, each a stored row of that account |
| DeviceTable.UpdateDevice | internal/domain/device/model/entity/device_mysql.go:170-214 | rewrites name, serial number, model id, configuration and modified-at on the row matching id and account only |
| DeviceTable.DeleteDevice | internal/domain/device/model/entity/device_mysql.go:215-249 | removes exactly the row matching id and account |
| DeviceTable.OnlyRowWithItsId | internal/domain/device/model/entity/device_mysql.go:11-60 | a stored device is the only row with its id |
| DeviceTable.FreshReceiverReadsStoredRow | internal/domain/device/model/entity/device_mysql.go:61-86 | a read into a receiver holding only the id returns the stored row |
| DeviceTable.ReceiverKeysSurvive | internal/domain/device/model/entity/device_mysql.go:61-86 | configuration keys already in the receiver survive the read |
| DeviceTable.AddThenGet | internal/domain/device/model/entity/device_mysql.go:11-86 | a device just added reads back under its new id |
| DeviceTable.DeleteThenGet | internal/domain/device/model/entity/device_mysql.go:61-249 | after its owner's delete the id is not found, and other accounts' listings are unchanged |
| DeviceTable.DeleteRemovesId | internal/domain/device/model/entity/device_mysql.go:215-249 | after its owner's delete no row has the id |
| DeviceTable.FilterOfFilter | internal/domain/device/model/entity/device_mysql.go:131-249 | removing one account's device leaves another account's rows as they were |
| SensorTable.FreshReceiverIsListed | internal/domain/device/model/entity/sensor_mysql.go:59-159 | a read into a fresh receiver gives the same sensor as the list does |
| SensorTable.AddSensor | internal/domain/device/model/entity/sensor_mysql.go:11-58 | a failure before commit changes nothing; otherwise the row is stored under the next id, and the caller sees that id only when it can be read back |
| SensorTable.GetSensorByID | internal/domain/device/model/entity/sensor_mysql.go:59-82 | found exactly when a row has the id; otherwise not-found-by-id |
| SensorTable.GetSensorByCode | internal/domain/device/model/entity/sensor_mysql.go:83-106 | found exactly when a row has the code; otherwise not-found-by-code |
| SensorTable.CountSensors | internal/domain/device/model/entity/sensor_mysql.go:107-123 | the number of rows, with no filter |
| SensorTable.ListSensors | internal/domain/device/model/entity/sensor_mysql.go:124-159 | the requested window of the rows in id order, at most a page long |
| SensorTable.ListedAgreesWithFetched | internal/domain/device/model/entity/sensor_mysql.go:59-159 | every listed sensor is what a read of its id returns |
| UnitTable.GetUnitByID | internal/domain/device/model/entity/units_mysql.go:11-31 | found exactly when a row has the id; otherwise not-found-by-id |
| UnitTable.GetUnitByName | internal/domain/device/model/entity/units_mysql.go:32-52 | found exactly when a row has the name; otherwise not-found-by-name |
| UnitTable.CountUnits | internal/domain/device/model/entity/units_mysql.go:53-69 | the number of rows |
| UnitTable.ListUnits | internal/domain/device/model/entity/units_mysql.go:70-102 | the requested window of the rows in id order, at most a page long |
| UnitTable.ListedAgreesWithFetched | internal/domain/device/model/entity/units_mysql.go:11-102 | every listed unit is what a read of its id returns |
| ModelTable.GetModelByID | internal/domain/device/model/entity/models_mysql.go:11-33 | found exactly when a row has the id; otherwise not-found-by-id |
| ModelTable.CountModels | internal/domain/device/model/entity/models_mysql.go:34-50 | the number of rows |
| ModelTable.ListModels | internal/domain/device/model/entity/models_mysql.go:51-85 | the requested window of the rows in id order, at most a page long |
| ModelTable.ListedAgreesWithFetched | internal/domain/device/model/entity/models_mysql.go:11-85 | every listed model is what a read of its id returns |
| CustomerDomain.FetchAccount | internal/domain/customer/domain.go:48-57 | the active account with the id, or the store's error unchanged |
| CustomerDomain.DeleteAccount | internal/domain/customer/domain.go:66-75 | deactivates the account with the id and nothing else |
| CustomerDomain.ListAccounts | internal/domain/customer/domain.go:76-93 | succeeds exactly when the LIMIT/OFFSET window over the active accounts exists and neither query fails; the items are that window's accounts in storage order, with the count of all active accounts; the first failure is returned |
| CustomerDomain.FetchAddressForAccount | internal/domain/customer/domain.go:102-111 | the active address with the id, whichever account owns it |
| CustomerDomain.DeleteAddressForAccount | internal/domain/customer/domain.go:120-129 | deactivates only an active address with the id that account 0 owns |
| CustomerDomain.ListAddressesForAccount | internal/domain/customer/domain.go:130-149 | succeeds exactly when the window over the account's active addresses exists and neither query fails; the items are that window's addresses, with their count; the first failure is returned |
| CustomerDomain.FetchUserForAccount | internal/domain/customer/domain.go:158-167 | found only when an active user with the id belongs to account 0 |
| CustomerDomain.DeleteUserForAccount | internal/domain/customer/domain.go:176-185 | deactivates only a user with the id that account 0 owns |
| CustomerDomain.ListUsersForAccount | internal/domain/customer/domain.go:186-203 | succeeds exactly when the window over the account's active users exists and neither query fails; the items are that window's users, with their count; the first failure is returned |
| CustomerDomain.AddressFetchIgnoresOwner | internal/domain/customer/domain.go:102-111 | another account's address is handed to whoever asks |
| CustomerDomain.AddressDeleteIsNoOp | internal/domain/customer/domain.go:120-129 | when every owner is a real account, an address delete changes nothing |
| CustomerDomain.UserFetchNeverFinds | internal/domain/customer/domain.go:158-167 | when every owner is a real account, a user fetch is always not-found |
| CustomerDomain.UserDeleteIsNoOp | internal/domain/customer/domain.go:176-185 | when every owner is a real account, a user delete changes nothing |
| DeviceDomain.AddDevice | internal/domain/device/domain.go:39-49 | the device is built from the account argument and the payload with no checks; success exactly when the insert reports its id |
| DeviceDomain.FetchDevice | internal/domain/device/domain.go:74-89 | the device when it belongs to the account; not-owned when it belongs to another; not-found when no row has the id |
| DeviceDomain.UpdateDevice | internal/domain/device/domain.go:50-73 | the fetch with its ownership check comes first and a failure writes nothing; only name, configuration and modified-at change |
| DeviceDomain.DeleteDevice | internal/domain/device/domain.go:90-109 | the fetch with its ownership check comes first; success removes exactly that device |
| DeviceDomain.ListDevices | internal/domain/device/domain.go:110-128 | list then count, both scoped to the account; succeeds exactly when the window over the account's devices exists and neither query fails, and the items are that window; the first failure is returned |
| DeviceDomain.OtherAccountsAreRefused | internal/domain/device/domain.go:50-109 | another account can neither fetch, update nor delete a device, and the table is unchanged |
| DeviceDomain.DeleteThenFetch | internal/domain/device/domain.go:74-109 | after its owner deletes a device, a fetch reports not found |
| DeviceDomain.UpdateThenFetch | internal/domain/device/domain.go:50-89 | what an update reports is what a later fetch returns |
| DeviceDomain.FetchSensor | internal/domain/device/domain.go:129-138 | the sensor with the id as listed, with no account involved; otherwise not-found |
| DeviceDomain.ListSensors | internal/domain/device/domain.go:139-156 | succeeds exactly when the window over all sensors exists and neither query fails; the items are that window's sensors without timestamps, with the count of all of them; each listed sensor is what its fetch returns |
| DeviceDomain.FetchUnit | internal/domain/device/domain.go:157-166 | the stored unit with the id; otherwise not-found |
| DeviceDomain.ListUnits | internal/domain/device/domain.go:167-184 | succeeds exactly when the window over all units exists and neither query fails; the items are that window, with the count of all of them; each listed unit is what its fetch returns |
| DeviceDomain.FetchModel | internal/domain/device/domain.go:185-194 | the stored model with the id; otherwise not-found |
| DeviceDomain.ListModels | internal/domain/device/domain.go:195-213 | succeeds exactly when the window over all models exists and neither query fails; the items are that window, with the count of all of them; each listed model is what its fetch returns |
| DeviceController.HandlePostDevice | internal/infrastructure/transport/http/device_controller.go:43-72 | body, account parameter and account lookup are checked in that order, each failure answered through the error envelope; success is 201 with the new device of the path account |
| DeviceController.HandlePutDevice | internal/infrastructure/transport/http/device_controller.go:73-108 | body, account parameter, lookup and device parameter in order; success is 200 with the updated device; a refusal writes nothing |
| DeviceController.HandleGetDevice | internal/infrastructure/transport/http/device_controller.go:109-137 | account parameter, lookup and device parameter in order; 200 exactly when the path account owns the device |
| DeviceController.HandleGetDevices | internal/infrastructure/transport/http/device_controller.go:138-167 | paging is checked before the account; with a found account and no query failure the reply is a list exactly when the account's window exists, and the list holds that window, the validated paging and the account's device count |
| DeviceController.HandleGetSensor | internal/infrastructure/transport/http/device_controller.go:168-184 | 200 exactly when the sensor exists; no account is involved |
| DeviceController.HandleGetSensors | internal/infrastructure/transport/http/device_controller.go:185-202 | paging first; without a query failure the reply is a list exactly when the window exists; the list holds the window's sensors without timestamps, and each is what its fetch route answers |
| DeviceController.HandleGetUnit | internal/infrastructure/transport/http/device_controller.go:203-219 | 200 exactly when the unit exists; no account is involved |
| DeviceController.HandleGetUnits | internal/infrastructure/transport/http/device_controller.go:220-237 | paging first; without a query failure the reply is a list exactly when the window exists; the list holds that window of units and the count of all units |
| DeviceController.HandleGetModel | internal/infrastructure/transport/http/device_controller.go:238-254 | 200 exactly when the model exists; no account is involved |
| DeviceController.HandleGetModels | internal/infrastructure/transport/http/device_controller.go:255-270 | paging first; without a query failure the reply is a list exactly when the window exists; the list holds that window of models and the count of all models |
| DeviceController.PostThenGet | internal/infrastructure/transport/http/device_controller.go:43-137 | a device created through POST is what GET answers for its id under the same path account |
| DeviceController.PutThenGet | internal/infrastructure/transport/http/device_controller.go:73-137 | what PUT answers is what a later GET answers |
| DeviceController.PathAccountDecidesOwnership | internal/infrastructure/transport/http/device_controller.go:109-137 | naming the owner in the path reads the device; naming another existing account is 404 not-owned; the token plays no part |
| DeviceController.UndecodableInputIsInternalException | internal/infrastructure/transport/http/device_controller.go:47-56 | a body that fails to decode is answered 400 with the internal-exception code |
| DeviceController.PagingCheckedBeforeAccount | internal/infrastructure/transport/http/device_controller.go:140-156 | bad paging is reported even for an account that does not exist |
| CustomerController.FillAddress | internal/infrastructure/transport/http/customer_controller.go:195-205 | the handlers' setter calls replace every content field of the address with the request's |
| CustomerController.FillUser | internal/infrastructure/transport/http/customer_controller.go:385-392 | the handlers' setter calls replace cell, names and both flags, and leave the email alone |
| CustomerController.HandlePostAccount | internal/infrastructure/transport/http/customer_controller.go:44-73 | a bad body or a hashing failure gets the mapping reply and stores nothing; success is 201 and appends the account with the hash, the salt and the body's fields |
| CustomerController.HandlePutAccount | internal/infrastructure/transport/http/customer_controller.go:75-112 | body, parameter and lookup in order; success is 200 with only name and receive-updates taken from the body; a refusal writes nothing |
| CustomerController.HandleGetAccount | internal/infrastructure/transport/http/customer_controller.go:114-136 | a bad parameter gets the mapping reply and a failed lookup the error reply; 200 exactly when an active account has the id, showing it without password hash or salt |
| CustomerController.ActiveAccountIsFetched | internal/domain/customer/model/entity/account_mysql.go:89-115 | an active stored account is what a read of its id returns |
| CustomerController.HandleGetAccounts | internal/infrastructure/transport/http/customer_controller.go:138-165 | paging is checked first; without a query failure the reply is a list exactly when the window over active accounts exists; the list holds the views of that window's accounts, the paging and the active count, and each listed account is what its read route answers |
| CustomerController.OwnedAddressViews | internal/infrastructure/transport/http/customer_controller.go:314-357 | addresses listed from the account's rows show as views of active addresses of that account |
| CustomerController.HandlePostAddressForAccount | internal/infrastructure/transport/http/customer_controller.go:167-214 | body, parameter and lookup in order; success is 201 and appends the address of the path account filled from the body |
| CustomerController.HandlePutAddressForAccount | internal/infrastructure/transport/http/customer_controller.go:216-274 | as POST, then the address parameter and fetch, whose failure gets the mapping reply; success is 201 with the fetched address refilled |
| CustomerController.HandleGetAddressForAccount | internal/infrastructure/transport/http/customer_controller.go:276-312 | 200 exactly when the path account exists and an active address has the id, whatever its owner; the timestamps go out as zero |
| CustomerController.HandleGetAddressesForAccount | internal/infrastructure/transport/http/customer_controller.go:314-357 | the account is looked up before paging; without a query failure the reply is a list exactly when the window over the account's active addresses exists, and the list holds the views of that window's addresses and their count |
| CustomerController.OwnedUserViews | internal/infrastructure/transport/http/customer_controller.go:501-543 | users listed from the account's rows show as views of active users of that account |
| CustomerController.HandlePostUserForAccount | internal/infrastructure/transport/http/customer_controller.go:359-403 | body, parameter and lookup in order; success is 201 and appends the user of the path account; the body's account id is not read |
| CustomerController.HandlePutUserForAccount | internal/infrastructure/transport/http/customer_controller.go:405-460 | as POST, then the user parameter and fetch; success is 200 with cell, names and flags from the body; a refusal writes nothing |
| CustomerController.HandleGetUserForAccount | internal/infrastructure/transport/http/customer_controller.go:462-499 | a bad parameter gets the mapping reply and a failed lookup or user fetch the error reply, in that order; a success carries the asked id |
| CustomerController.HandleGetUsersForAccount | internal/infrastructure/transport/http/customer_controller.go:501-543 | the account is looked up before paging; without a query failure the reply is a list exactly when the window over the account's active users exists, and the list holds the views of that window's users and their count |
| CustomerController.PostAccountThenGet | internal/infrastructure/transport/http/customer_controller.go:44-136 | an account created through POST is what GET answers for its id |
| CustomerController.PutAccountThenGet | internal/infrastructure/transport/http/customer_controller.go:75-136 | what PUT answers is what GET answers afterwards; email, password hash and salt are kept |
| CustomerController.PutAccountRecord | internal/infrastructure/transport/http/customer_controller.go:96-97 | the two setter calls of PUT change name, receive-updates and modified-at only |
| CustomerController.EmptyBodyCreatesBlankAccount | internal/infrastructure/transport/http/helper_functions.go:124-127 | an empty POST body is not refused: it creates an account with no email and no name |
| CustomerController.ActiveAddressIsFetched | internal/domain/customer/model/entity/address_mysql.go:65-94 | an active stored address is what a read of its id returns |
| CustomerController.PostAddressThenGet | internal/infrastructure/transport/http/customer_controller.go:167-312 | an address created through POST is what GET answers for its id, with the timestamps zeroed |
| CustomerController.AddressRoutesIgnoreOwner | internal/infrastructure/transport/http/customer_controller.go:216-312 | under any existing path account, GET hands over and PUT rewrites another account's address |
| CustomerController.MissingAddressAnswers | internal/infrastructure/transport/http/customer_controller.go:243-300 | a missing address gets 400 with the bad-payload code from PUT, and 404 with the not-found code from GET |
| CustomerController.UserRoutesNeverFind | internal/infrastructure/transport/http/customer_controller.go:405-499 | when every owner is a real account, GET and PUT on a user are 404 and change nothing |
| CustomerController.PostUserThenGetMisses | internal/infrastructure/transport/http/customer_controller.go:359-499 | a user created through POST is stored active under its account, yet GET on its id is not found |
| CustomerController.MissingAccountBeforeBadPaging | internal/infrastructure/transport/http/customer_controller.go:314-543 | the address and user lists report a missing account ahead of bad paging; the account list reports the paging |
| Logger.Stars | internal/application/logger/logger.go:56-79 | exactly n stars |
| Logger.First6 | internal/application/logger/logger.go:56-61 | keeps the length, keeps the first six bytes of a string longer than six, and stars the rest |
| Logger.Last4 | internal/application/logger/logger.go:63-68 | keeps the length, keeps the last four bytes of a string longer than four, and stars the rest |
| Logger.First6Last4 | internal/application/logger/logger.go:70-75 | keeps the length, keeps six bytes in front and four behind of a string longer than ten, and stars the rest |
| Logger.Complete | internal/application/logger/logger.go:77-79 | every byte becomes a star |
| Logger.MasksIdempotent | internal/application/logger/logger.go:56-79 | each mask applied to its own output changes nothing |
| Logger.RevealedBound | internal/application/logger/logger.go:56-61 | a string that is all stars after its first k bytes reveals at most k bytes |
| Logger.RevealedConcat | internal/application/logger/logger.go:70-75 | revealed bytes add up over concatenation |
| Logger.AllStarsRevealNothing | internal/application/logger/logger.go:63-68 | a string that starts with n stars reveals at most its length minus n |
| Logger.MasksRevealBounded | internal/application/logger/logger.go:56-79 | the masks reveal at most six, four, ten and zero bytes |
| Logger.RedactTagValue | internal/application/logger/logger.go:82-104 | an empty or "-" tag blanks the value, a known tag applies its mask, and an unknown tag keeps the value |
| Logger.RedactIdempotent | internal/application/logger/logger.go:82-104 | redacting twice with the same tag is redacting once |
| Logger.Rank | internal/application/logger/logger.go:15-21 | a known level's rank from the table, between 0 and 4; any other name ranks 0 |
| Logger.FatalEmittedOnlyUnderTrace | internal/application/logger/logger.go:284-287 | FATAL is emitted exactly when the configured level is TRACE or unknown |
| Logger.EmissionMonotone | internal/application/logger/logger.go:284-287 | a level ranked higher than an emitted one is emitted too |
| Logger.ConfiguredLevelIsCaseSensitive | internal/application/logger/logger.go:284-287 | a lower-case configured name is unknown and lets TRACE through, where its upper-case form does not |
| Logger.LogItNow | internal/application/logger/logger.go:201-225 | a line exactly when the level passes the filter; an empty request id becomes "N/A", and INFO lines have no location |
| Logger.Render | internal/application/logger/logger.go:37-39 | the time, request id and level in brackets come first and the message last; the length adds up with or without a location |
| Logger.Dispatch | internal/application/logger/logger.go:139-152 | a known level in any case is upper-cased; anything else, "fatal" included, becomes INFO |
| Logger.Log | internal/application/logger/logger.go:139-152 | emits exactly when the dispatched level passes the filter, never at FATAL |
| Logger.LogFatal | internal/application/logger/logger.go:191-194 | emits at FATAL with the location, only under TRACE or an unknown configured level |
| Logger.LogIgnoresLevelCase | internal/application/logger/logger.go:230-243 | levels spelled alike up to case log the same line |
| Logger.UnknownLevelLogsAsInfo | internal/application/logger/logger.go:139-152 | "fatal" in lower case logs an INFO line without a location |

## Left out

- Connections, transactions, prepared statements, rollback and close helpers, and the five-second contexts are not modelled. Only each statement's effect on the rows and its possible failure are.
- Concurrency is out of scope for this sequential model: there is no snapshot between a list and its count, and concurrent updates are last-write-wins.
- bcrypt, JWT signing and parsing, uuid and crypto/rand (`generateRefreshToken`), and the request validator are foreign libraries. They are parameters, and the JWT parser is an oracle returning claims or validation flags.
- `runtime.Caller`, `log.Print`, `HttpLogger` and `MakeAccessLog` do I/O or configure logging. The location and the clock text are inputs, and printing is not modelled.
- The AWS Secrets Manager client, base64 decoding and the JSON marshalling in `merge` are foreign I/O. Only `deepMerge` and the nested-secret loop are modelled, and JSON numbers stay abstract bit patterns.
- `LOG_LEVEL` is read from the environment, so it is a parameter.
- The `fmt` formatting of log messages is not modelled. The formatted text is an input.
- `Println`, `Trace` … `Errorf`, `Printf` … `Errorf` are `logItNow` at a fixed level and have no members of their own.
- The panic after `Fatal` and `Fatalf` is not modelled.
- Go's `strings.ToLower` and `strings.ToUpper` also map non-ASCII letters. The model maps only ASCII, which covers every route, header and level name involved.
- Several `time.Now()` calls in one request are collapsed into one instant. `NewDevice` stamps its own clock; here it takes the request's instant.
- Maps are never nil here. A nil `mysqlJson` map and its lazy allocation are not distinguished from an empty map.
- Every table's `active` column is taken to default to 1 on insert, because the inserts never write it.
- `Query.NegativeWindow` and `Query.IdsExhausted` carry stand-in texts for the MySQL errors.
- Stored rows are assumed to decode. A column value of the wrong driver type is covered by the `Columns` decoders, not by the table reads.
- The sensor timestamp columns are not selected by the sensor reads, so a sensor read into a fresh receiver has zero timestamps.
- The constants package (`URLPageKey` and the other keys) is not part of this model. Query parameter and path parameter reads are results given to the handlers.
- The customer domain's `AddAccount`, `UpdateAccount`, `AddAddressForAccount`, `UpdateAddressForAccount`, `AddUserForAccount` and `UpdateUserForAccount` pass straight through to the table operations. Those are modelled as `AccountTable.AddAccount`, `AccountTable.UpdateAccount`, `AddressTable.AddAddress`, `AddressTable.UpdateAddress`, `UserTable.AddUser` and `UserTable.UpdateUser`.
- The response DTOs (dto/response) are not part of this model. The views show the entity's fields, minus the password hash and salt.
- Token claims are stored by the gate but never read by any handler, so no handler takes them as an input.
- `RetrieveAccount` is not part of the customer domain shown. The auth handlers take the lookup by email as a parameter.
- The login request DTO is not part of this model. `LoginRequest` holds just the email and password the handler reads.
- `generateRefreshToken` is an input of `HandleLogin`.
- account_controller.go is an unregistered duplicate of the customer controller; cors.go is unwired; casesless_matcher.go and request_id.go copy iris.go. None is modelled.
- Configuration types, config managers and defaults are pure data and not part of this model. Only the JWT default configuration is.
- account_test.go is not part of this model. It contains no behaviour of its own.
- The cross-file signature mismatches (such as `AddUser` called with one argument) are not modelled. Each function is modelled from its own body.
- `Tokens.NewClaims`: states the expiry exactly only for a whole-second lifetime. Otherwise it states only that expiry is not before issue, because Go truncates the Unix seconds and that is all the model keeps.
- `accountRecordId` has no `Scan` method, so database/sql's generic conversion into an int64 applies to it. That conversion is a foreign library and is not modelled; `Columns.ScanRecordId` is the customer package's `mysqlRecordId` rule.
- Iris's `URLParamInt64` is a foreign library. `HttpHelpers.GetPageAndPageSize` is modelled for any value it could return, and `HttpHelpers.FromIris` states the -1 it returns with every error.
- `DeviceTable.ReceiverKeysSurvive`: does not model a stored JSON `null`, which Go's `json.Unmarshal` turns into a nil map, dropping the receiver's keys. The model keeps them. No caller in the core passes a receiver whose map is not empty.
- `CustomerController.HandleGetUserForAccount`: states no body for a success beyond the id. `CustomerController.UserRoutesNeverFind` shows that a success cannot happen when owners are real accounts.
