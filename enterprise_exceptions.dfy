/**
 * The fourteen `App...Exception` classes. Each one picks its table entry,
 * falls back to the entry's message, and has its own default status.
 */
module EnterpriseExceptions {
  import opened Wrappers
  import opened CommonErrors

  /** The default `status` parameter of each class's constructor. */
  function DefaultStatus(k: AppErrorCode): int
  {
    match k
    case ValidationError => BAD_REQUEST
    case MissingParameter => BAD_REQUEST
    case Unauthorized => UNAUTHORIZED
    case Forbidden => FORBIDDEN
    case NotFound => NOT_FOUND
    case Conflict => CONFLICT
    case TooManyRequests => TOO_MANY_REQUESTS
    case UnprocessableEntity => UNPROCESSABLE_ENTITY
    case DataExists => CONFLICT
    case DataNotFound => NOT_FOUND
    case BusinessError => BAD_REQUEST
    case OperationTimeout => REQUEST_TIMEOUT
    case InternalError => INTERNAL_SERVER_ERROR
    case UnknownError => INTERNAL_SERVER_ERROR
  }

  /** `new App<K>Exception(message?, status?)` for the class of table entry `k`. */
  function NewAppException(k: AppErrorCode, message: Option<string>, status: Option<int>): (e: Exception)
    ensures e.AppHttpException?
    ensures GetCode(e) == Code(k)
    ensures e.message == message.GetOr(Message(k))
    ensures e.status == status.GetOr(DefaultStatus(k))
  {
    NewAppHttpException(Code(k), message.GetOr(Message(k)), Some(status.GetOr(DefaultStatus(k))))
  }

  /** An explicit status changes the status and nothing else. */
  lemma StatusOverrideKeepsCode(k: AppErrorCode, message: Option<string>, status: int)
    ensures var e, d := NewAppException(k, message, Some(status)), NewAppException(k, message, None);
      e.status == status && GetCode(e) == GetCode(d) && e.message == d.message
  {
  }

  /** Classes that share a status still carry different codes. */
  lemma SharedStatusDistinctCodes()
    ensures DefaultStatus(Conflict) == DefaultStatus(DataExists) == CONFLICT
    ensures Code(Conflict) == 1006 && Code(DataExists) == 2001
    ensures DefaultStatus(NotFound) == DefaultStatus(DataNotFound) == NOT_FOUND
    ensures Code(NotFound) == 1005 && Code(DataNotFound) == 2002
  {
  }
}
