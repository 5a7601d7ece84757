/**
 * The application error-code table, `AppHttpException` and `throwAppError`,
 * together with the thrown values the rest of the core produces: Nest's
 * `HttpException` family and plain JavaScript `Error`s.
 */
module CommonErrors {
  import opened Wrappers
  import opened JsValues

  // HTTP status codes (Nest's HttpStatus) used by the core.
  const BAD_REQUEST := 400
  const UNAUTHORIZED := 401
  const FORBIDDEN := 403
  const NOT_FOUND := 404
  const REQUEST_TIMEOUT := 408
  const CONFLICT := 409
  const UNPROCESSABLE_ENTITY := 422
  const TOO_MANY_REQUESTS := 429
  const INTERNAL_SERVER_ERROR := 500

  /** A thrown value, as far as the exception filter can tell them apart. */
  datatype Exception =
      /** `AppHttpException` or one of its subclasses. */
    | AppHttpException(code: int, message: string, status: int)
      /** Any other Nest `HttpException`; `ownCode` is what its `getCode()`
          returns, if it has such a method. */
    | HttpException(status: int, message: string, ownCode: Option<int>)
      /** Anything else that is thrown, such as a plain `Error`. */
    | OtherError(message: string)

  /** The outcome of an operation that may throw. */
  datatype Result<+T> = Ok(value: T) | Err(error: Exception) {
    predicate IsFailure() {
      Err?
    }

    function PropagateFailure<U>(): Result<U>
      requires Err?
    {
      Err(error)
    }

    function Extract(): T
      requires Ok?
    {
      value
    }
  }

  /** Nest's `new UnauthorizedException(message)`. */
  function UnauthorizedException(message: string): (e: Exception)
    ensures e.HttpException? && e.status == UNAUTHORIZED && e.message == message && e.ownCode.None?
  {
    HttpException(UNAUTHORIZED, message, None)
  }

  /** Nest's `new BadRequestException(message)`. */
  function BadRequestException(message: string): (e: Exception)
    ensures e.HttpException? && e.status == BAD_REQUEST && e.message == message && e.ownCode.None?
  {
    HttpException(BAD_REQUEST, message, None)
  }

  /** The entries of `APP_ERROR_CODES`. */
  datatype AppErrorCode =
    | ValidationError | MissingParameter | Unauthorized | Forbidden | NotFound | Conflict
    | TooManyRequests | UnprocessableEntity | DataExists | DataNotFound | BusinessError
    | OperationTimeout | InternalError | UnknownError

  const AllErrorCodes: seq<AppErrorCode> := [
    ValidationError, MissingParameter, Unauthorized, Forbidden, NotFound, Conflict,
    TooManyRequests, UnprocessableEntity, DataExists, DataNotFound, BusinessError,
    OperationTimeout, InternalError, UnknownError
  ]

  function Code(e: AppErrorCode): int
  {
    match e
    case ValidationError => 1001
    case MissingParameter => 1002
    case Unauthorized => 1003
    case Forbidden => 1004
    case NotFound => 1005
    case Conflict => 1006
    case TooManyRequests => 1007
    case UnprocessableEntity => 1008
    case DataExists => 2001
    case DataNotFound => 2002
    case BusinessError => 3001
    case OperationTimeout => 3002
    case InternalError => 9000
    case UnknownError => 9999
  }

  function Message(e: AppErrorCode): string
  {
    match e
    case ValidationError => "参数无效"
    case MissingParameter => "缺少必填参数"
    case Unauthorized => "未授权"
    case Forbidden => "权限不足"
    case NotFound => "资源未找到"
    case Conflict => "资源冲突"
    case TooManyRequests => "请求过于频繁"
    case UnprocessableEntity => "请求参数校验失败"
    case DataExists => "数据已存在"
    case DataNotFound => "数据未找到"
    case BusinessError => "业务逻辑错误"
    case OperationTimeout => "操作超时"
    case InternalError => "内部服务器错误"
    case UnknownError => "未知错误"
  }

  /** The table has fourteen entries and no two share a code. */
  lemma {:induction false} CodesDistinct()
    ensures |AllErrorCodes| == 14
    ensures forall e :: e in AllErrorCodes
    ensures forall i, j :: 0 <= i < j < |AllErrorCodes| ==> Code(AllErrorCodes[i]) != Code(AllErrorCodes[j])
  {
    forall e: AppErrorCode ensures e in AllErrorCodes {
      match e
      case ValidationError => assert AllErrorCodes[0] == e;
      case MissingParameter => assert AllErrorCodes[1] == e;
      case Unauthorized => assert AllErrorCodes[2] == e;
      case Forbidden => assert AllErrorCodes[3] == e;
      case NotFound => assert AllErrorCodes[4] == e;
      case Conflict => assert AllErrorCodes[5] == e;
      case TooManyRequests => assert AllErrorCodes[6] == e;
      case UnprocessableEntity => assert AllErrorCodes[7] == e;
      case DataExists => assert AllErrorCodes[8] == e;
      case DataNotFound => assert AllErrorCodes[9] == e;
      case BusinessError => assert AllErrorCodes[10] == e;
      case OperationTimeout => assert AllErrorCodes[11] == e;
      case InternalError => assert AllErrorCodes[12] == e;
      case UnknownError => assert AllErrorCodes[13] == e;
    }
  }

  /** So the code alone identifies the entry. */
  lemma CodeIdentifiesEntry(a: AppErrorCode, b: AppErrorCode)
    requires Code(a) == Code(b)
    ensures a == b
  {
  }

  /** `new AppHttpException(code, message, status = HttpStatus.BAD_REQUEST)`. */
  function NewAppHttpException(code: int, message: string, status: Option<int>): (e: Exception)
    ensures e.AppHttpException? && GetCode(e) == code && e.message == message
    ensures e.status == status.GetOr(BAD_REQUEST)
  {
    AppHttpException(code, message, status.GetOr(BAD_REQUEST))
  }

  /** `AppHttpException.getCode()`. */
  function GetCode(e: Exception): int
    requires e.AppHttpException?
  {
    e.code
  }

  /** The response body an `AppHttpException` hands to `HttpException`: `{code, message}`. */
  function ResponseBody(e: Exception): (body: JsValue)
    requires e.AppHttpException?
    ensures body.Obj? && body.fields.Keys == {"code", "message"}
    ensures body.fields["code"] == Num(GetCode(e)) && body.fields["message"] == Str(e.message)
  {
    Obj(map["code" := Num(e.code), "message" := Str(e.message)])
  }

  /** `throwAppError(codeObj, status?)`: the exception it throws (it never returns). */
  function ThrowAppError(entry: AppErrorCode, status: Option<int>): (e: Exception)
    ensures e.AppHttpException? && GetCode(e) == Code(entry) && e.message == Message(entry)
    ensures e.status == status.GetOr(BAD_REQUEST)
  {
    NewAppHttpException(Code(entry), Message(entry), Some(status.GetOr(BAD_REQUEST)))
  }
}
