/**
  utils/error/error_handler.py: the error codes, the base exception with its default message,
  the attempt loop of the `retry` decorator, and the exact-type handler lookup of `error_handler`.
 */
module ErrorHandling {

  import opened Wrappers

  // ---------------------------------------------------------------------------
  // Error codes and exceptions

  datatype ErrorCode =
    | Success
    | NetworkError
    | ApiError
    | ParamError
    | AuthError
    | SystemError
    | TimeoutError
    | OrderError
    | CancelError
    | PositionError
  {
    function Code(): int
    {
      match this
      case Success => 0
      case NetworkError => 1001
      case ApiError => 1002
      case ParamError => 1003
      case AuthError => 1004
      case SystemError => 1005
      case TimeoutError => 1006
      case OrderError => 2001
      case CancelError => 2002
      case PositionError => 2003
    }

    function Message(): string
    {
      match this
      case Success => "成功"
      case NetworkError => "网络连接错误"
      case ApiError => "API调用错误"
      case ParamError => "参数错误"
      case AuthError => "认证失败"
      case SystemError => "系统错误"
      case TimeoutError => "超时错误"
      case OrderError => "下单失败"
      case CancelError => "撤单失败"
      case PositionError => "持仓操作失败"
    }
  }

  /** No two error codes share a numeric code. */
  lemma CodesAreDistinct(a: ErrorCode, b: ErrorCode)
    ensures a.Code() == b.Code() ==> a == b
  {
  }

  /** The classes of exceptions the model distinguishes, with Python's inheritance between them. */
  datatype ExcClass =
    | Exception
    | ValueError
    | TypeError
    | BaseErrorClass
    | NetworkErrorClass
    | ApiErrorClass
    | OrderErrorClass

  /** The class itself and every class it inherits from. */
  function Ancestors(c: ExcClass): set<ExcClass>
  {
    match c
    case Exception => {Exception}
    case ValueError => {ValueError, Exception}
    case TypeError => {TypeError, Exception}
    case BaseErrorClass => {BaseErrorClass, Exception}
    case NetworkErrorClass => {NetworkErrorClass, BaseErrorClass, Exception}
    case ApiErrorClass => {ApiErrorClass, BaseErrorClass, Exception}
    case OrderErrorClass => {OrderErrorClass, BaseErrorClass, Exception}
  }

  /** Python's `isinstance(e, k)` for an exception of class `c`. */
  predicate IsInstance(c: ExcClass, k: ExcClass)
  {
    k in Ancestors(c)
  }

  /** A raised exception: its class and its message. */
  datatype Exc = Exc(cls: ExcClass, message: string)

  /** A BaseError (or subclass) instance: its code and its message. */
  datatype BaseError = BaseError(cls: ExcClass, errorCode: ErrorCode, message: string)
  {
    function AsExc(): Exc
    {
      Exc(cls, message)
    }
  }

  /**
    `BaseError(error_code, message)`: the message is `message or error_code.message`, so a
    missing or empty message falls back to the code's own message and is never empty.
   */
  function NewBaseError(cls: ExcClass, code: ErrorCode, message: Option<string>): (e: BaseError)
    ensures e.cls == cls && e.errorCode == code
    ensures message.Some? && message.value != "" ==> e.message == message.value
    ensures message.None? || message.value == "" ==> e.message == code.Message()
    ensures e.message != ""
  {
    var text := if message.Some? && message.value != "" then message.value else code.Message();
    BaseError(cls, code, text)
  }

  function NewNetworkError(message: Option<string>): BaseError
  {
    NewBaseError(NetworkErrorClass, NetworkError, message)
  }

  function NewApiError(message: Option<string>): BaseError
  {
    NewBaseError(ApiErrorClass, ApiError, message)
  }

  function NewOrderError(message: Option<string>): BaseError
  {
    NewBaseError(OrderErrorClass, OrderError, message)
  }

  // ---------------------------------------------------------------------------
  // retry

  /** What one call of the wrapped function does: return a value or raise. */
  datatype Attempt<T> = Returned(value: T) | Raised(exc: Exc)

  /** `except exceptions as e`: the exception is an instance of one of the listed classes. */
  predicate Caught(e: Exc, exceptions: set<ExcClass>)
  {
    exists k :: k in exceptions && IsInstance(e.cls, k)
  }

  /** A caught failure of attempt `a`, one that makes `retry` go on (or give up at the last attempt). */
  predicate CaughtFailure<T>(a: Attempt<T>, exceptions: set<ExcClass>)
  {
    a.Raised? && Caught(a.exc, exceptions)
  }

  /** `raise None` when no attempt ran: Python raises a TypeError instead. */
  const RaiseNoneError := Exc(TypeError, "exceptions must derive from BaseException")

  /**
    The attempt loop of `retry(max_retries, delay, exceptions)`. `call(k)` is the outcome of
    the k-th call of the wrapped function. Returns what the wrapper returns or raises, how
    many calls were made and the waits made between them, in order.
   */
  method Retry<T>(maxRetries: int, delay: real, exceptions: set<ExcClass>, call: nat -> Attempt<T>)
    returns (outcome: Attempt<T>, calls: nat, waits: seq<real>)
    ensures calls <= if maxRetries < 0 then 0 else maxRetries
    ensures calls == 0 <==> maxRetries <= 0
    ensures calls == 0 ==> outcome == Raised(RaiseNoneError)
    ensures calls > 0 ==> outcome == call(calls - 1)
    ensures forall k :: 0 <= k < calls - 1 ==> CaughtFailure(call(k), exceptions)
    ensures 0 < calls < maxRetries ==> !CaughtFailure(call(calls - 1), exceptions)
    ensures |waits| == if calls == 0 then 0 else calls - 1
    ensures forall k :: 0 <= k < |waits| ==> waits[k] == delay * ((k + 1) as real)
  {
    var lastException: Option<Exc> := None;
    waits := [];
    var attempt := 0;
    calls := 0;
    while attempt < maxRetries
      invariant 0 <= attempt && calls == attempt
      invariant attempt <= (if maxRetries < 0 then 0 else maxRetries)
      invariant forall k :: 0 <= k < attempt ==> CaughtFailure(call(k), exceptions)
      invariant attempt > 0 ==> lastException == Some(call(attempt - 1).exc)
      invariant attempt == 0 ==> lastException == None
      invariant |waits| == if attempt == 0 then 0 else if attempt < maxRetries then attempt else attempt - 1
      invariant forall k :: 0 <= k < |waits| ==> waits[k] == delay * ((k + 1) as real)
    {
      var a := call(attempt);
      calls := calls + 1;
      if a.Returned? {
        outcome := a;
        return;
      }
      if !Caught(a.exc, exceptions) {
        outcome := a;
        return;
      }
      lastException := Some(a.exc);
      if attempt < maxRetries - 1 {
        waits := waits + [delay * ((attempt + 1) as real)];
      }
      attempt := attempt + 1;
    }
    outcome := if lastException.Some? then Raised(lastException.value) else Raised(RaiseNoneError);
  }

  // ---------------------------------------------------------------------------
  // error_handler

  /** A value in `error_types`: a callable handler, or something that is not callable. */
  datatype Handler = Callable(id: nat) | NotCallable

  /** What the wrapper does with an exception: hand it to a handler, or log it and re-raise it. */
  datatype Handling = HandledBy(id: nat, exc: Exc) | LoggedAndReraised(exc: Exc)

  /**
    The except clause of error_handler's wrapper: a handler runs only when `type(e)` is
    exactly a key of `error_types` and its value is callable; an empty or missing
    `error_types` handles nothing.
   */
  function HandleError(errorTypes: Option<map<ExcClass, Handler>>, e: Exc): (h: Handling)
    ensures h.HandledBy? <==> errorTypes.Some? && e.cls in errorTypes.value && errorTypes.value[e.cls].Callable?
    ensures h.HandledBy? ==> h.id == errorTypes.value[e.cls].id && h.exc == e
    ensures h.LoggedAndReraised? ==> h.exc == e
  {
    if errorTypes.Some? && |errorTypes.value| > 0 && e.cls in errorTypes.value then
      match errorTypes.value[e.cls]
      case Callable(id) => HandledBy(id, e)
      case NotCallable => LoggedAndReraised(e)
    else
      LoggedAndReraised(e)
  }

  /** What the decorated function does as a whole, for one call of the wrapped function. */
  datatype Wrapped<T> = ReturnedValue(value: T) | Handling(handling: Handling)

  function ErrorHandlerWrapper<T>(errorTypes: Option<map<ExcClass, Handler>>, a: Attempt<T>): (w: Wrapped<T>)
    ensures a.Returned? ==> w == ReturnedValue(a.value)
    ensures a.Raised? ==> w.Handling? && w.handling.exc == a.exc
  {
    match a
    case Returned(v) => ReturnedValue(v)
    case Raised(e) => Handling(HandleError(errorTypes, e))
  }

  /** A handler registered for BaseError does not catch a NetworkError, a subclass of it. */
  lemma SubclassIsNotMatched(id: nat, message: string)
    ensures IsInstance(NetworkErrorClass, BaseErrorClass)
    ensures HandleError(Some(map[BaseErrorClass := Callable(id)]), Exc(NetworkErrorClass, message))
         == LoggedAndReraised(Exc(NetworkErrorClass, message))
  {
  }
}
