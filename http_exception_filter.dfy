/**
 * `HttpExceptionFilter.catch`: every thrown value becomes one uniform
 * error body `{code, data: null, message, path}` sent with `status`.
 */
module HttpExceptionFilter {
  import opened Wrappers
  import opened JsValues
  import opened CommonErrors
  import EnterpriseExceptions

  datatype ErrorResponse = ErrorResponse(status: int, code: int, data: JsValue, message: string, path: string)

  /** The classification, given the injected `DEFAULT_ERROR_CODE` and the request URL. */
  function Catch(exception: Exception, defaultErrorCode: Option<int>, url: string): (r: ErrorResponse)
    ensures r.data == Null && r.path == url
    ensures exception.AppHttpException? ==>
      r.status == exception.status && r.code == GetCode(exception) && r.message == exception.message
    ensures exception.HttpException? ==>
      r.status == exception.status && r.message == exception.message &&
      r.code == exception.ownCode.GetOr(defaultErrorCode.GetOr(Code(InternalError)))
    ensures exception.OtherError? ==>
      r.status == INTERNAL_SERVER_ERROR && r.code == Code(UnknownError) && r.message == Message(UnknownError)
  {
    match exception
    case AppHttpException(code, message, status) =>
      ErrorResponse(status, code, Null, message, url)
    case HttpException(status, message, ownCode) =>
      var code := match ownCode
        case Some(c) => c
        case None => defaultErrorCode.GetOr(Code(InternalError));
      ErrorResponse(status, code, Null, message, url)
    case OtherError(_) =>
      ErrorResponse(INTERNAL_SERVER_ERROR, Code(UnknownError), Null, Message(UnknownError), url)
  }

  /** The filter reports the `code` and `message` of the body an application
      exception handed to `HttpException`, under the exception's status. */
  lemma AppExceptionBodyReported(e: Exception, defaultErrorCode: Option<int>, url: string)
    requires e.AppHttpException?
    ensures var r := Catch(e, defaultErrorCode, url); var body := ResponseBody(e);
      body.fields["code"] == Num(r.code) && body.fields["message"] == Str(r.message) && r.status == e.status
  {
  }

  /** Every application exception reaches the client with its table code,
      its own message and its (default or explicit) status. */
  lemma AppExceptionSurfaces(k: AppErrorCode, message: Option<string>, status: Option<int>,
                             defaultErrorCode: Option<int>, url: string)
    ensures Catch(EnterpriseExceptions.NewAppException(k, message, status), defaultErrorCode, url) ==
      ErrorResponse(status.GetOr(EnterpriseExceptions.DefaultStatus(k)), Code(k), Null,
                    message.GetOr(Message(k)), url)
  {
  }

  /** The authentication failures, which are Nest `UnauthorizedException`s,
      surface as 401 with the default error code (9000 as configured). */
  lemma UnauthorizedSurfacesAs401(message: string, url: string)
    ensures Catch(UnauthorizedException(message), Some(9000), url) ==
      ErrorResponse(UNAUTHORIZED, 9000, Null, message, url)
  {
  }

  /** A plain `Error`, such as the one from a failed session write, surfaces
      as 500 with code 9999 and the generic message, hiding its own text. */
  lemma PlainErrorSurfacesAs500(message: string, defaultErrorCode: Option<int>, url: string)
    ensures Catch(OtherError(message), defaultErrorCode, url) ==
      ErrorResponse(INTERNAL_SERVER_ERROR, 9999, Null, "未知错误", url)
  {
  }
}
