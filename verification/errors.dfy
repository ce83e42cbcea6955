/**
 * The closed error taxonomy of the backend and its three lookup tables:
 * error -> machine code, error -> description, error -> HTTP status.
 * Every error the domain layer can name is a constructor; anything else
 * (a storage failure, a JSON decode error, a hashing failure) is `Opaque`
 * and carries only its message text.
 */
module Errors {

  import opened Wrappers

  datatype Error =
    | BadPageSize
    | BadPageIndex
    | Unauthorized
    | NotFoundUserByEmail
    | NotFoundUserByID
    | NotFoundAccountByEmail
    | NotFoundAccountByID
    | NotFoundAddressByID
    | NotFoundAddressByAccountID
    | NotFoundModelByID
    | NotFoundUnitByID
    | NotFoundUnitByName
    | NotFoundSensorByID
    | NotFoundSensorByCode
    | NotFoundDeviceByID
    | NotOwnedDeviceByID
    | NotFoundDeviceBySerialNumber
    | SerialNumberNotMatch
    | ModelNotMatch
    | DeviceAndAccountNotMatch
    | InvalidToken
    | ExpiredToken
    | MalformedToken
    | MissingToken
    | InvalidClaims
    | Opaque(text: string)

  /** The text `Error()` returns. */
  function Message(e: Error): string {
    match e
    case BadPageSize => "invalid page size"
    case BadPageIndex => "invalid page index"
    case Unauthorized => "unauthorized access"
    case NotFoundUserByEmail => "no user found with the given email"
    case NotFoundUserByID => "no user found with the given ID"
    case NotFoundAccountByEmail => "no account found with the given email"
    case NotFoundAccountByID => "no account found with the given ID"
    case NotFoundAddressByID => "no address found with the given ID"
    case NotFoundAddressByAccountID => "no address found with the given account ID"
    case NotFoundModelByID => "no model found with the given ID"
    case NotFoundUnitByID => "no unit found with the given ID"
    case NotFoundUnitByName => "no unit found with the given name"
    case NotFoundSensorByID => "no sensor found with the given ID"
    case NotFoundSensorByCode => "no sensor found with the given code"
    case NotFoundDeviceByID => "no device found with the given ID"
    case NotOwnedDeviceByID => "no device for account ID provided"
    case NotFoundDeviceBySerialNumber => "no device found with the given serial number"
    case SerialNumberNotMatch => "serial number does not match"
    case ModelNotMatch => "model does not match"
    case DeviceAndAccountNotMatch => "device and account do not match"
    case InvalidToken => "invalid token"
    case ExpiredToken => "token has expired"
    case MalformedToken => "malformed token"
    case MissingToken => "missing token"
    case InvalidClaims => "invalid token claims"
    case Opaque(t) => t
  }

  const InternalExceptionCode := "ERR_INTERNAL_EXCEPTION"
  const InternalExceptionDesc := "An internal server error occurred."
  const BadPayload := "ERR_BAD_PAYLOAD_FIELDS"
  const SuccessCode := "00"
  const SuccessMessage := "Request performed successfully"

  const StatusOK := 200
  const StatusCreated := 201
  const StatusBadRequest := 400
  const StatusUnauthorized := 401
  const StatusNotFound := 404

  /** `ErrCodeMap[e]`: the machine code, or "" for an error the table does not list. */
  function Code(e: Error): string {
    match e
    case InvalidToken => "ERR_BAD_TOKEN"
    case ExpiredToken => "ERR_EXPIRED_TOKEN"
    case MalformedToken => "ERR_MALFORMED_TOKEN"
    case MissingToken => "ERR_MISSING_TOKEN"
    case InvalidClaims => "ERR_BAD_TOKEN_CLAIMS"
    case BadPageSize => "ERR_BAD_PAGE_SIZE"
    case BadPageIndex => "ERR_BAD_PAGE_INDEX"
    case NotFoundUserByEmail => "ERR_NOT_FOUND_USER_BY_EMAIL"
    case NotFoundUserByID => "ERR_NOT_FOUND_USER_BY_ID"
    case NotFoundAccountByEmail => "ERR_NOT_FOUND_ACCOUNT_BY_EMAIL"
    case NotFoundAccountByID => "ERR_NOT_FOUND_ACCOUNT_BY_ID"
    case NotFoundAddressByID => "ERR_NOT_FOUND_ADDRESS_BY_ID"
    case NotFoundAddressByAccountID => "ERR_NOT_FOUND_ADDRESS_BY_ACCOUNT_ID"
    case NotFoundModelByID => "ERR_NOT_FOUND_MODEL_BY_ID"
    case NotFoundUnitByID => "ERR_NOT_FOUND_UNIT_BY_ID"
    case NotFoundUnitByName => "ERR_NOT_FOUND_UNIT_BY_NAME"
    case NotFoundSensorByID => "ERR_NOT_FOUND_SENSOR_BY_ID"
    case NotFoundSensorByCode => "ERR_NOT_FOUND_SENSOR_BY_CODE"
    case NotFoundDeviceByID => "ERR_NOT_FOUND_DEVICE_BY_ID"
    case NotOwnedDeviceByID => "ERR_NOT_OWNED_DEVICE_BY_ID"
    case NotFoundDeviceBySerialNumber => "ERR_NOT_FOUND_DEVICE_BY_SERIAL_NUMBER"
    case SerialNumberNotMatch => "ERR_SERIAL_NUMBER_NOT_MATCH"
    case ModelNotMatch => "ERR_MODEL_NOT_MATCH"
    case DeviceAndAccountNotMatch => "ERR_DEVICE_AND_ACCOUNT_NOT_MATCH"
    case Unauthorized => "ERR_UNAUTHORIZED"
    case _ => ""
  }


  /** `ErrDescriptionMap[e]`: the human text, or "" for an unlisted error. */
  function Description(e: Error): string {
    match e
    case Unauthorized => "Unauthorized access."
    case InvalidToken => "The token provided is invalid."
    case ExpiredToken => "The token provided has expired."
    case MalformedToken => "The token provided is malformed."
    case MissingToken => "No token provided."
    case InvalidClaims => "The token claims are invalid."
    case BadPageSize => "The page size provided is invalid."
    case BadPageIndex => "The page index provided is invalid."
    case NotFoundUserByEmail => "No user found with the given email."
    case NotFoundUserByID => "No user found with the given ID."
    case NotFoundAccountByEmail => "No account found with the given email."
    case NotFoundAccountByID => "No account found with the given ID."
    case NotFoundAddressByID => "No address found with the given ID."
    case NotFoundAddressByAccountID => "No address found with the given account ID."
    case NotFoundModelByID => "No model found with the given ID."
    case NotFoundUnitByID => "No unit found with the given ID."
    case NotFoundUnitByName => "No unit found with the given name."
    case NotFoundSensorByID => "No sensor found with the given ID."
    case NotFoundSensorByCode => "No sensor found with the given code."
    case NotFoundDeviceByID => "No device found with the given ID."
    case NotOwnedDeviceByID => "No device found for the provided account ID."
    case NotFoundDeviceBySerialNumber => "No device found with the given serial number."
    case SerialNumberNotMatch => "The serial number does not match."
    case ModelNotMatch => "The model does not match."
    case DeviceAndAccountNotMatch => "The device and account do not match."
    case _ => ""
  }


  /** `ErrToHTTPStatus[e]`: the HTTP status, or 0 for an unlisted error. */
  function Status(e: Error): int {
    match e
    case Unauthorized => StatusUnauthorized
    case BadPageSize => StatusBadRequest
    case BadPageIndex => StatusBadRequest
    case NotFoundUserByEmail => StatusNotFound
    case NotFoundUserByID => StatusNotFound
    case NotFoundAccountByEmail => StatusNotFound
    case NotFoundAccountByID => StatusNotFound
    case NotFoundAddressByID => StatusNotFound
    case NotFoundAddressByAccountID => StatusNotFound
    case NotFoundModelByID => StatusNotFound
    case NotFoundUnitByID => StatusNotFound
    case NotFoundUnitByName => StatusNotFound
    case NotFoundSensorByID => StatusNotFound
    case NotFoundSensorByCode => StatusNotFound
    case NotFoundDeviceByID => StatusNotFound
    case NotOwnedDeviceByID => StatusNotFound
    case NotFoundDeviceBySerialNumber => StatusNotFound
    case SerialNumberNotMatch => StatusBadRequest
    case ModelNotMatch => StatusBadRequest
    case DeviceAndAccountNotMatch => StatusBadRequest
    case _ => 0
  }


  /** The five credential errors of the JWT layer. */
  predicate IsTokenError(e: Error) {
    e.InvalidToken? || e.ExpiredToken? || e.MalformedToken? || e.MissingToken? || e.InvalidClaims?
  }

  /** The lookup misses, plus the device-ownership miss which the API reports the same way. */
  predicate IsNotFound(e: Error) {
    || e.NotFoundUserByEmail? || e.NotFoundUserByID?
    || e.NotFoundAccountByEmail? || e.NotFoundAccountByID?
    || e.NotFoundAddressByID? || e.NotFoundAddressByAccountID?
    || e.NotFoundModelByID? || e.NotFoundUnitByID? || e.NotFoundUnitByName?
    || e.NotFoundSensorByID? || e.NotFoundSensorByCode?
    || e.NotFoundDeviceByID? || e.NotOwnedDeviceByID? || e.NotFoundDeviceBySerialNumber?
  }

  predicate IsMismatch(e: Error) {
    e.SerialNumberNotMatch? || e.ModelNotMatch? || e.DeviceAndAccountNotMatch?
  }

  /** The errors the taxonomy names: every constructor except `Opaque`. */
  predicate IsDomainError(e: Error) {
    !e.Opaque?
  }

  /** The code table lists exactly the 25 named errors. */
  lemma CodeCoversNamedErrors(e: Error)
    ensures Code(e) != "" <==> IsDomainError(e)
  {
    match e
    case BadPageSize =>
    case BadPageIndex =>
    case Unauthorized =>
    case NotFoundUserByEmail =>
    case NotFoundUserByID =>
    case NotFoundAccountByEmail =>
    case NotFoundAccountByID =>
    case NotFoundAddressByID =>
    case NotFoundAddressByAccountID =>
    case NotFoundModelByID =>
    case NotFoundUnitByID =>
    case NotFoundUnitByName =>
    case NotFoundSensorByID =>
    case NotFoundSensorByCode =>
    case NotFoundDeviceByID =>
    case NotOwnedDeviceByID =>
    case NotFoundDeviceBySerialNumber =>
    case SerialNumberNotMatch =>
    case ModelNotMatch =>
    case DeviceAndAccountNotMatch =>
    case InvalidToken =>
    case ExpiredToken =>
    case MalformedToken =>
    case MissingToken =>
    case InvalidClaims =>
    case Opaque(_) =>
  }

  /** The description table lists the same 25 errors as the code table. */
  lemma DescriptionCoversNamedErrors(e: Error)
    ensures Description(e) != "" <==> IsDomainError(e)
  {
    match e
    case BadPageSize =>
    case BadPageIndex =>
    case Unauthorized =>
    case NotFoundUserByEmail =>
    case NotFoundUserByID =>
    case NotFoundAccountByEmail =>
    case NotFoundAccountByID =>
    case NotFoundAddressByID =>
    case NotFoundAddressByAccountID =>
    case NotFoundModelByID =>
    case NotFoundUnitByID =>
    case NotFoundUnitByName =>
    case NotFoundSensorByID =>
    case NotFoundSensorByCode =>
    case NotFoundDeviceByID =>
    case NotOwnedDeviceByID =>
    case NotFoundDeviceBySerialNumber =>
    case SerialNumberNotMatch =>
    case ModelNotMatch =>
    case DeviceAndAccountNotMatch =>
    case InvalidToken =>
    case ExpiredToken =>
    case MalformedToken =>
    case MissingToken =>
    case InvalidClaims =>
    case Opaque(_) =>
  }

  /** Reverse of the code table. */
  function ErrorOfCode(c: string): Option<Error> {
    if |c| == 13 then
      if c == "ERR_BAD_TOKEN" then Some(InvalidToken)
      else None
    else if |c| == 16 then
      if c == "ERR_UNAUTHORIZED" then Some(Unauthorized)
      else None
    else if |c| == 17 then
      if c == "ERR_EXPIRED_TOKEN" then Some(ExpiredToken)
      else if c == "ERR_MISSING_TOKEN" then Some(MissingToken)
      else if c == "ERR_BAD_PAGE_SIZE" then Some(BadPageSize)
      else None
    else if |c| == 18 then
      if c == "ERR_BAD_PAGE_INDEX" then Some(BadPageIndex)
      else None
    else if |c| == 19 then
      if c == "ERR_MALFORMED_TOKEN" then Some(MalformedToken)
      else if c == "ERR_MODEL_NOT_MATCH" then Some(ModelNotMatch)
      else None
    else if |c| == 20 then
      if c == "ERR_BAD_TOKEN_CLAIMS" then Some(InvalidClaims)
      else None
    else if |c| == 24 then
      if c == "ERR_NOT_FOUND_USER_BY_ID" then Some(NotFoundUserByID)
      else if c == "ERR_NOT_FOUND_UNIT_BY_ID" then Some(NotFoundUnitByID)
      else None
    else if |c| == 25 then
      if c == "ERR_NOT_FOUND_MODEL_BY_ID" then Some(NotFoundModelByID)
      else None
    else if |c| == 26 then
      if c == "ERR_NOT_FOUND_UNIT_BY_NAME" then Some(NotFoundUnitByName)
      else if c == "ERR_NOT_FOUND_SENSOR_BY_ID" then Some(NotFoundSensorByID)
      else if c == "ERR_NOT_FOUND_DEVICE_BY_ID" then Some(NotFoundDeviceByID)
      else if c == "ERR_NOT_OWNED_DEVICE_BY_ID" then Some(NotOwnedDeviceByID)
      else None
    else if |c| == 27 then
      if c == "ERR_NOT_FOUND_USER_BY_EMAIL" then Some(NotFoundUserByEmail)
      else if c == "ERR_NOT_FOUND_ACCOUNT_BY_ID" then Some(NotFoundAccountByID)
      else if c == "ERR_NOT_FOUND_ADDRESS_BY_ID" then Some(NotFoundAddressByID)
      else if c == "ERR_SERIAL_NUMBER_NOT_MATCH" then Some(SerialNumberNotMatch)
      else None
    else if |c| == 28 then
      if c == "ERR_NOT_FOUND_SENSOR_BY_CODE" then Some(NotFoundSensorByCode)
      else None
    else if |c| == 30 then
      if c == "ERR_NOT_FOUND_ACCOUNT_BY_EMAIL" then Some(NotFoundAccountByEmail)
      else None
    else if |c| == 32 then
      if c == "ERR_DEVICE_AND_ACCOUNT_NOT_MATCH" then Some(DeviceAndAccountNotMatch)
      else None
    else if |c| == 35 then
      if c == "ERR_NOT_FOUND_ADDRESS_BY_ACCOUNT_ID" then Some(NotFoundAddressByAccountID)
      else None
    else if |c| == 37 then
      if c == "ERR_NOT_FOUND_DEVICE_BY_SERIAL_NUMBER" then Some(NotFoundDeviceBySerialNumber)
      else None
    else None
  }



  lemma CodeRoundTripToken(e: Error)
    requires IsTokenError(e)
    ensures ErrorOfCode(Code(e)) == Some(e)
  {
    match e
    case InvalidToken =>
    case ExpiredToken =>
    case MalformedToken =>
    case MissingToken =>
    case InvalidClaims =>
  }

  lemma CodeRoundTripGeneral(e: Error)
    requires e.BadPageSize? || e.BadPageIndex? || e.Unauthorized? || IsMismatch(e)
    ensures ErrorOfCode(Code(e)) == Some(e)
  {
    match e
    case BadPageSize =>
    case BadPageIndex =>
    case Unauthorized =>
    case SerialNumberNotMatch =>
    case ModelNotMatch =>
    case DeviceAndAccountNotMatch =>
  }

  lemma CodeRoundTripCustomer(e: Error)
    requires e.NotFoundUserByEmail? || e.NotFoundUserByID? || e.NotFoundAccountByEmail? || e.NotFoundAccountByID? || e.NotFoundAddressByID? || e.NotFoundAddressByAccountID?
    ensures ErrorOfCode(Code(e)) == Some(e)
  {
    match e
    case NotFoundUserByEmail =>
    case NotFoundUserByID =>
    case NotFoundAccountByEmail =>
    case NotFoundAccountByID =>
    case NotFoundAddressByID =>
    case NotFoundAddressByAccountID =>
  }

  lemma CodeRoundTripCatalogue(e: Error)
    requires e.NotFoundModelByID? || e.NotFoundUnitByID? || e.NotFoundUnitByName? || e.NotFoundSensorByID? || e.NotFoundSensorByCode?
    ensures ErrorOfCode(Code(e)) == Some(e)
  {
    match e
    case NotFoundModelByID =>
    case NotFoundUnitByID =>
    case NotFoundUnitByName =>
    case NotFoundSensorByID =>
    case NotFoundSensorByCode =>
  }

  lemma CodeRoundTripDevice(e: Error)
    requires e.NotFoundDeviceByID? || e.NotOwnedDeviceByID? || e.NotFoundDeviceBySerialNumber?
    ensures ErrorOfCode(Code(e)) == Some(e)
  {
    match e
    case NotFoundDeviceByID =>
    case NotOwnedDeviceByID =>
    case NotFoundDeviceBySerialNumber =>
  }

  /** Each code leads back, through the reverse table, to the one error that carries it. */
  lemma CodeRoundTrip(e: Error)
    requires IsDomainError(e)
    ensures ErrorOfCode(Code(e)) == Some(e)
  {
    if IsTokenError(e) {
      CodeRoundTripToken(e);
    } else if e.BadPageSize? || e.BadPageIndex? || e.Unauthorized? || IsMismatch(e) {
      CodeRoundTripGeneral(e);
    } else if e.NotFoundUserByEmail? || e.NotFoundUserByID? || e.NotFoundAccountByEmail? || e.NotFoundAccountByID? || e.NotFoundAddressByID? || e.NotFoundAddressByAccountID? {
      CodeRoundTripCustomer(e);
    } else if e.NotFoundModelByID? || e.NotFoundUnitByID? || e.NotFoundUnitByName? || e.NotFoundSensorByID? || e.NotFoundSensorByCode? {
      CodeRoundTripCatalogue(e);
    } else {
      CodeRoundTripDevice(e);
    }
  }

  /** No two errors share a code, so a client can branch on the code alone. */
  lemma CodesInjective(e1: Error, e2: Error)
    requires IsDomainError(e1) && IsDomainError(e2)
    ensures Code(e1) == Code(e2) <==> e1 == e2
  {
    CodeRoundTrip(e1);
    CodeRoundTrip(e2);
  }

  /** The status table is the code table minus the five token errors. */
  lemma StatusListedExactlyForNonTokenErrors(e: Error)
    ensures Status(e) != 0 <==> IsDomainError(e) && !IsTokenError(e)
  {
  }

  /** Every listed status is 400, 401 or 404, decided by the error's family. */
  lemma StatusByFamily(e: Error)
    ensures IsNotFound(e) ==> Status(e) == StatusNotFound
    ensures IsMismatch(e) || e.BadPageSize? || e.BadPageIndex? ==> Status(e) == StatusBadRequest
    ensures e.Unauthorized? <==> Status(e) == StatusUnauthorized
    ensures Status(e) in {0, StatusBadRequest, StatusUnauthorized, StatusNotFound}
  {
  }

  /** Not-owned and not-found devices look alike by status but are told apart by code and text. */
  lemma NotOwnedSharesStatusNotCode()
    ensures Status(NotOwnedDeviceByID) == Status(NotFoundDeviceByID) == StatusNotFound
    ensures Code(NotOwnedDeviceByID) != Code(NotFoundDeviceByID)
    ensures Description(NotOwnedDeviceByID) != Description(NotFoundDeviceByID)
  {
  }
}
