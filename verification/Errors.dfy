/**
 Classification of upstream answers and transport failures. `Classify...` follow the
 branches of domain/errors.py. How far a request got is the independent question they
 are meant to answer: could the upstream have acted on it?
 */
module Errors {
  datatype Context = Submit | Poll | CancelCall | ResultCall
  datatype ErrorClass = RetrySafe | FailFast | ConfirmRequired | RateLimited | ChannelFault
  datatype Action = Retry | Backoff | Fail | Confirm | ChannelBreak
  datatype Classification = Classification(errorClass: ErrorClass, consumesAttempt: bool, channelFault: bool, action: Action)

  /** The exceptions of the HTTP client. */
  datatype Exc =
    | ConnectTimeout | PoolTimeout | ReadTimeout | WriteTimeout
    | ConnectError | ReadError | WriteError | CloseError
    | LocalProtocolError | RemoteProtocolError
    | ProxyError | UnsupportedProtocol | DecodingError | TooManyRedirects

  function ClassifyException(e: Exc, ctx: Context): Classification {
    match e
    case ConnectTimeout => Classification(RetrySafe, true, false, Retry)
    case ConnectError => Classification(RetrySafe, true, false, Retry)
    case _ =>
      if ctx == Poll then Classification(RetrySafe, true, false, Backoff)
      else Classification(ConfirmRequired, true, false, Confirm)
  }

  function ClassifyStatus(code: int, ctx: Context): Classification {
    if code == 429 then Classification(RateLimited, false, false, Backoff)
    else if code == 401 || code == 403 then Classification(ChannelFault, false, true, ChannelBreak)
    else if code == 409 then Classification(ConfirmRequired, false, false, Confirm)
    else if code == 404 && ctx == Poll then Classification(ConfirmRequired, false, false, Confirm)
    else if 400 <= code < 500 then Classification(FailFast, true, false, Fail)
    else if 500 <= code < 600 then
      if ctx == Poll then Classification(RetrySafe, false, false, Backoff)
      else Classification(ConfirmRequired, true, false, Confirm)
    else Classification(ConfirmRequired, false, false, Confirm)
  }

  predicate OkCode(code: int) {
    200 <= code < 300
  }

  /** The branches of `_handle_submit_result` that a non-2xx answer can take. */
  datatype FailureBranch = OnRateLimited | OnChannelFault | OnFailFast | OnUnknown | OnRetrySafe

  function SubmitFailureBranch(c: Classification): FailureBranch {
    if c.errorClass == RateLimited then OnRateLimited
    else if c.channelFault then OnChannelFault
    else if c.errorClass == FailFast then OnFailFast
    else if c.action == Confirm then OnUnknown
    else OnRetrySafe
  }

  /** The branches that hand the submit intent back, so that another create may follow. */
  predicate Releases(b: FailureBranch) {
    b == OnRateLimited || b == OnChannelFault || b == OnRetrySafe
  }

  /** How far a request got when the client gave up, as the client documents its exceptions. */
  datatype Progress = NoConnection | NotSent | PerhapsSent

  function ProgressOf(e: Exc): Progress {
    match e
    case ConnectTimeout => NoConnection
    case ConnectError => NoConnection
    case PoolTimeout => NoConnection
    case ProxyError => NoConnection
    case UnsupportedProtocol => NotSent
    case LocalProtocolError => NotSent
    case ReadTimeout => PerhapsSent
    case WriteTimeout => PerhapsSent
    case ReadError => PerhapsSent
    case WriteError => PerhapsSent
    case CloseError => PerhapsSent
    case RemoteProtocolError => PerhapsSent
    case DecodingError => PerhapsSent
    case TooManyRedirects => PerhapsSent
  }

  predicate ExcMaybeExecuted(e: Exc) {
    ProgressOf(e).PerhapsSent?
  }

  predicate StatusMaybeExecuted(code: int) {
    code !in {429, 401, 403}
  }

  /**
   A failed create is retried without confirmation only when it certainly did not
   execute, and the exceptions after which it could be retried and is not are named. For
   status codes the two agree. In the other cases the task dies or goes to confirmation.
   */
  lemma RetriedOnlyIfNotExecuted(e: Exc, code: int)
    requires !OkCode(code)
    ensures Releases(SubmitFailureBranch(ClassifyException(e, Submit))) ==> !ExcMaybeExecuted(e)
    ensures !ExcMaybeExecuted(e) && !Releases(SubmitFailureBranch(ClassifyException(e, Submit)))
            <==> e in {PoolTimeout, ProxyError, UnsupportedProtocol, LocalProtocolError}
    ensures Releases(SubmitFailureBranch(ClassifyStatus(code, Submit))) <==> !StatusMaybeExecuted(code)
  {
    match e
    case ConnectTimeout =>
    case ConnectError =>
    case _ =>
  }
}
