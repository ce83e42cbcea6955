/**
 * Response shaping shared by every handler: pagination parameters, the
 * error envelope chosen from the three error tables, the mapping-error
 * envelope, the success envelopes, and the request-body reader.
 */
module HttpHelpers {

  import opened Wrappers
  import opened Ints
  import opened Errors

  const DefaultPageSize: Int64 := 10
  const DefaultIndex: Int64 := 0
  const BadRequestPrefix := "Bad Request: "

  /** What `URLParamInt64` reported besides its value. */
  datatype ParamError = NoParamError | ParamNotFound | ParamUnparsable

  /** One `URLParamInt64` call: the value it returned together with its error. */
  datatype ParamRead = ParamRead(value: Int64, err: ParamError)

  datatype Paging = Paging(pageSize: Int64, page: Int64)

  /** A read is taken at face value unless the parameter was absent. */
  function Effective(p: ParamRead, default: Int64): Int64 {
    if p.err.ParamNotFound? then default else p.value
  }

  /**
   * What Iris's `URLParamInt64` hands back: -1 whenever it also reports an
   * error, whether the parameter was absent or did not parse.
   */
  predicate FromIris(p: ParamRead) {
    !p.err.NoParamError? ==> p.value == -1
  }

  /** The parameter is usable: either absent, or whatever came back is non-negative. */
  predicate Acceptable(p: ParamRead) {
    p.err.ParamNotFound? || p.value >= 0
  }

  /**
   * `GetPageAndPageSize`: the page size is checked before the page index, an
   * absent parameter falls back to its default, and only a negative value is
   * refused; a parse error other than "not found" is refused only through
   * the negative value that comes with it.
   */
  function GetPageAndPageSize(size: ParamRead, index: ParamRead): (r: Result<Paging, Error>)
    ensures r.Success? <==> Acceptable(size) && Acceptable(index)
    ensures !Acceptable(size) ==> r == Failure(BadPageSize)
    ensures Acceptable(size) && !Acceptable(index) ==> r == Failure(BadPageIndex)
    ensures r.Success? ==> r.value.pageSize == Effective(size, DefaultPageSize) && r.value.page == Effective(index, DefaultIndex)
    ensures r.Success? ==> r.value.pageSize >= 0 && r.value.page >= 0
  {
    var pageSize := if size.err.ParamNotFound? then DefaultPageSize else size.value;
    if !size.err.ParamNotFound? && pageSize < 0 then Failure(BadPageSize)
    else
      var page := if index.err.ParamNotFound? then DefaultIndex else index.value;
      if !index.err.ParamNotFound? && page < 0 then Failure(BadPageIndex)
      else Success(Paging(pageSize, page))
  }

  /** Absent parameters give the first page of ten. */
  lemma AbsentParamsDefault(size: ParamRead, index: ParamRead)
    requires size.err.ParamNotFound? && index.err.ParamNotFound?
    ensures GetPageAndPageSize(size, index) == Success(Paging(10, 0))
  {
  }

  /**
   * With the values Iris returns, paging is accepted exactly when each
   * parameter is absent or parses to a non-negative number, and a page size
   * that does not parse is reported before anything about the page index.
   */
  lemma UnparsableIsRefused(size: ParamRead, index: ParamRead)
    requires FromIris(size) && FromIris(index)
    ensures GetPageAndPageSize(size, index).Success? <==>
              !size.err.ParamUnparsable? && !index.err.ParamUnparsable? &&
              (size.err.NoParamError? ==> size.value >= 0) && (index.err.NoParamError? ==> index.value >= 0)
    ensures size.err.ParamUnparsable? ==> GetPageAndPageSize(size, index) == Failure(BadPageSize)
    ensures !size.err.ParamUnparsable? && size.value >= 0 && index.err.ParamUnparsable? ==>
              GetPageAndPageSize(size, index) == Failure(BadPageIndex)
  {
  }

  /** Go's `cmp.Or`: the first argument that is not the zero value, else the zero value. */
  function FirstNonZero<T(==)>(xs: seq<T>, zero: T): (r: T)
    ensures r == zero <==> forall i :: 0 <= i < |xs| ==> xs[i] == zero
    ensures r != zero ==> exists i :: 0 <= i < |xs| && xs[i] == r && forall j :: 0 <= j < i ==> xs[j] == zero
  {
    if |xs| == 0 then zero
    else if xs[0] != zero then xs[0]
    else
      var r := FirstNonZero(xs[1..], zero);
      assert forall i :: 1 <= i < |xs| ==> xs[i] == xs[1..][i - 1];
      r
  }

  /** The JSON body of every failed request. */
  datatype ErrorBody = ErrorBody(requestId: string, code: string, error: string)

  datatype ErrorReply = ErrorReply(status: int, body: ErrorBody)

  /** What a handler writes back: a data envelope, a list envelope, or an error envelope. */
  datatype Reply<P> =
    | Data(status: int, requestId: string, code: string, message: string, data: P)
    | Listing(status: int, requestId: string, code: string, message: string, page: Int64, pageSize: Int64, total: Int64, items: seq<P>)
    | Refused(failure: ErrorReply)
  {
    function StatusCode(): int {
      match this
      case Data(s, _, _, _, _) => s
      case Listing(s, _, _, _, _, _, _, _) => s
      case Refused(f) => f.status
    }
  }

  /**
   * `RespondWithError`: the code and description come from the tables, with
   * the internal-exception pair for an unlisted error, and the status from
   * the status table with 400 for an unlisted error.
   */
  function RespondWithError(requestId: string, e: Error): (r: ErrorReply)
    ensures r.body.requestId == requestId
    ensures IsDomainError(e) ==> r.body.code == Code(e) && r.body.error == Description(e)
    ensures !IsDomainError(e) ==> r.body.code == InternalExceptionCode && r.body.error == InternalExceptionDesc
    ensures IsDomainError(e) && !IsTokenError(e) ==> r.status == Status(e)
    ensures IsTokenError(e) || !IsDomainError(e) ==> r.status == StatusBadRequest
  {
    CodeCoversNamedErrors(e);
    DescriptionCoversNamedErrors(e);
    StatusListedExactlyForNonTokenErrors(e);
    var statuses := [Status(e), StatusBadRequest];
    var codes := [Code(e), Code(e), InternalExceptionCode];
    var descriptions := [Description(e), Description(e), InternalExceptionDesc];
    assert statuses[0] == Status(e) && statuses[1] == StatusBadRequest;
    assert codes[0] == codes[1] == Code(e) && codes[2] == InternalExceptionCode;
    assert descriptions[0] == descriptions[1] == Description(e) && descriptions[2] == InternalExceptionDesc;
    ErrorReply(
      FirstNonZero(statuses, 0),
      ErrorBody(requestId, FirstNonZero(codes, ""), FirstNonZero(descriptions, "")))
  }

  /** Every error envelope is 400, 401 or 404; only `Unauthorized` answers 401. */
  lemma ErrorStatuses(requestId: string, e: Error)
    ensures RespondWithError(requestId, e).status in {StatusBadRequest, StatusUnauthorized, StatusNotFound}
    ensures RespondWithError(requestId, e).status == StatusUnauthorized <==> e == Unauthorized
    ensures IsNotFound(e) ==> RespondWithError(requestId, e).status == StatusNotFound
  {
    StatusByFamily(e);
  }

  /** A client can recover a named error from the envelope's code alone. */
  lemma ErrorReplyIdentifiesError(requestId: string, e1: Error, e2: Error)
    requires IsDomainError(e1) && IsDomainError(e2)
    requires RespondWithError(requestId, e1).body.code == RespondWithError(requestId, e2).body.code
    ensures e1 == e2
  {
    CodesInjective(e1, e2);
  }

  /** `RespondWithMappingError`: always 400 with the bad-payload code and the reason after a fixed prefix. */
  function RespondWithMappingError(reason: string, requestId: string): (r: ErrorReply)
    ensures r.status == StatusBadRequest && r.body.code == BadPayload && r.body.requestId == requestId
    ensures BadRequestPrefix <= r.body.error && r.body.error[|BadRequestPrefix|..] == reason
  {
    ErrorReply(StatusBadRequest, ErrorBody(requestId, BadPayload, BadRequestPrefix + reason))
  }

  /** The bad-payload code is none of the table codes, nor the internal-exception code. */
  lemma MappingCodeIsDistinct(requestId: string, e: Error)
    ensures RespondWithMappingError(Message(e), requestId).body.code != RespondWithError(requestId, e).body.code
  {
    if IsDomainError(e) {
      BadPayloadIsNoTableCode(e);
    }
  }

  lemma BadPayloadIsNoTableCode(e: Error)
    ensures Code(e) != BadPayload
  {
    assert |BadPayload| == 22;
    match e
    case BadPageSize =>
    case BadPageIndex =>
    case Unauthorized =>
    case NotFoundUserByEmail =>
    case NotFoundUserByID =>
    case NotFoundAccountByEmail =>
    case NotFoundAccountByID =>
    case NotFoundAddressByID =>
    case NotFoundAddressByAccountID =>
    case NotFoundModelByID =>
    case NotFoundUnitByID =>
    case NotFoundUnitByName =>
    case NotFoundSensorByID =>
    case NotFoundSensorByCode =>
    case NotFoundDeviceByID =>
    case NotOwnedDeviceByID =>
    case NotFoundDeviceBySerialNumber =>
    case SerialNumberNotMatch =>
    case ModelNotMatch =>
    case DeviceAndAccountNotMatch =>
    case InvalidToken =>
    case ExpiredToken =>
    case MalformedToken =>
    case MissingToken =>
    case InvalidClaims =>
    case Opaque(_) =>
  }

  /** `RespondWithJSON`: the success envelope around one value. */
  function RespondWithJSON<P>(payload: P, status: int, requestId: string): (r: Reply<P>)
    ensures r.Data? && r.data == payload && r.StatusCode() == status && r.requestId == requestId
    ensures r.code == SuccessCode && r.message == SuccessMessage
  {
    Data(status, requestId, SuccessCode, SuccessMessage, payload)
  }

  /** `RespondWithList`: the success envelope around one page of values. */
  function RespondWithList<P>(items: seq<P>, page: Int64, pageSize: Int64, total: Int64, status: int, requestId: string): (r: Reply<P>)
    ensures r.Listing? && r.items == items && r.page == page && r.pageSize == pageSize && r.total == total
    ensures r.StatusCode() == status && r.requestId == requestId && r.code == SuccessCode && r.message == SuccessMessage
  {
    Listing(status, requestId, SuccessCode, SuccessMessage, page, pageSize, total, items)
  }

  /** A refusal with the mapping-error envelope, carrying the error's text. */
  function Mapped<P>(requestId: string, e: Error): Reply<P> {
    Refused(RespondWithMappingError(Message(e), requestId))
  }

  /** A refusal with the envelope `RespondWithError` chooses. */
  function Failed<P>(requestId: string, e: Error): Reply<P> {
    Refused(RespondWithError(requestId, e))
  }

  /** The success code "00" is never an error code, so success and failure envelopes cannot be confused. */
  lemma SuccessCodeIsNotAnErrorCode(requestId: string, e: Error)
    ensures RespondWithError(requestId, e).body.code != SuccessCode
    ensures RespondWithMappingError(Message(e), requestId).body.code != SuccessCode
  {
    CodeCoversNamedErrors(e);
  }

  /**
   * `GetRequest`: an empty body leaves the target as it was; otherwise the
   * body must decode and then pass validation. The decoder's outcome and the
   * validator are inputs.
   */
  function GetRequest<T>(contentLength: int, target: T, decoded: Result<T, Error>, validate: T -> Option<Error>): (r: Result<T, Error>)
    ensures contentLength == 0 ==> r == Success(target)
    ensures contentLength != 0 && decoded.Failure? ==> r == Failure(decoded.error)
    ensures contentLength != 0 && decoded.Success? ==>
      (r.Success? <==> validate(decoded.value).None?) &&
      (r.Success? ==> r.value == decoded.value) &&
      (r.Failure? ==> r.error == validate(decoded.value).value)
  {
    if contentLength == 0 then Success(target)
    else if decoded.Failure? then Failure(decoded.error)
    else match validate(decoded.value)
      case Some(e) => Failure(e)
      case None => Success(decoded.value)
  }

  /** A request body as `GetRequest` sees it: its declared length, what it decodes to, and the validator. */
  datatype Body<!T> = Body(contentLength: int, decoded: Result<T, Error>, validate: T -> Option<Error>)

  /** `GetRequest` into a freshly declared, zero-valued request. */
  function ReadBody<T>(b: Body<T>, zero: T): Result<T, Error> {
    GetRequest(b.contentLength, zero, b.decoded, b.validate)
  }
}
