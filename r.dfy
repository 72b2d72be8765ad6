/**
 * `R`, the response envelope every controller returns: a status code, a
 * message and a data object, built by the `ok`, `fail`, `warn` and `error`
 * factories. A message or a data object may be `null` (`None`).
 */
module Envelope {
  import Wrappers
  import opened ErrorCodes

  type Option<T> = Wrappers.Option<T>

  /** `R.SUCCESS`: the code of a successful envelope (not `ErrorCode.SUCCESS`, which is 200). */
  const SUCCESS: int := 1
  /** `R.FAIL`. */
  const FAIL: int := -1
  const OK_MSG: string := "操作成功"
  const FAIL_MSG: string := "操作失败"

  datatype R<T> = R(code: int, msg: Option<string>, data: Option<T>)

  /**
   * Java's `Void`: the data type the factories without a data argument are
   * stated for. In Java their caller chooses `T`; the data is null whatever it is.
   */
  type Void = ()

  /** `isSuccess`: the code is `R.SUCCESS`, whatever the message and data. */
  predicate IsSuccess<T>(ret: R<T>)
  {
    ret.code == SUCCESS
  }

  /** `isError`: the negation of `isSuccess`. */
  predicate IsError<T>(ret: R<T>)
  {
    !IsSuccess(ret)
  }

  /** `result`: a new envelope holding exactly the given data, code and message. */
  function Result<T>(data: Option<T>, code: int, msg: Option<string>): (r: R<T>)
    ensures r.code == code && r.msg == msg && r.data == data
    ensures IsSuccess(r) <==> code == SUCCESS
  {
    R(code, msg, data)
  }

  // ------------------------------------------------------------------ ok

  function Ok(): (r: R<Void>)
    ensures IsSuccess(r) && r.msg == Wrappers.Some(OK_MSG) && r.data.None?
  {
    Result(Wrappers.None, SUCCESS, Wrappers.Some(OK_MSG))
  }

  function OkMsg(msg: Option<string>): (r: R<Void>)
    ensures IsSuccess(r) && r.msg == msg && r.data.None?
  {
    Result(Wrappers.None, SUCCESS, msg)
  }

  function OkData<T>(data: Option<T>): (r: R<T>)
    ensures IsSuccess(r) && r.msg == Wrappers.Some(OK_MSG) && r.data == data
  {
    Result(data, SUCCESS, Wrappers.Some(OK_MSG))
  }

  function OkMsgData<T>(msg: Option<string>, data: Option<T>): (r: R<T>)
    ensures IsSuccess(r) && r.msg == msg && r.data == data
  {
    Result(data, SUCCESS, msg)
  }

  /** `ok(code, msg, data)`: despite its name, a success only when the code is 1. */
  function OkCode<T>(code: int, msg: Option<string>, data: Option<T>): (r: R<T>)
    ensures IsSuccess(r) <==> code == SUCCESS
    ensures r.code == code && r.msg == msg && r.data == data
  {
    Result(data, code, msg)
  }

  // ---------------------------------------------------------------- fail

  function Fail(): (r: R<Void>)
    ensures IsError(r) && r.code == FAIL && r.msg == Wrappers.Some(FAIL_MSG) && r.data.None?
  {
    Result(Wrappers.None, FAIL, Wrappers.Some(FAIL_MSG))
  }

  function FailMsg(msg: Option<string>): (r: R<Void>)
    ensures IsError(r) && r.code == FAIL && r.msg == msg && r.data.None?
  {
    Result(Wrappers.None, FAIL, msg)
  }

  function FailData<T>(data: Option<T>): (r: R<T>)
    ensures IsError(r) && r.code == FAIL && r.msg == Wrappers.Some(FAIL_MSG) && r.data == data
  {
    Result(data, FAIL, Wrappers.Some(FAIL_MSG))
  }

  function FailMsgData<T>(msg: Option<string>, data: Option<T>): (r: R<T>)
    ensures IsError(r) && r.code == FAIL && r.msg == msg && r.data == data
  {
    Result(data, FAIL, msg)
  }

  /** `fail(code, msg)`: despite its name, a success when the code is 1. */
  function FailCode(code: int, msg: Option<string>): (r: R<Void>)
    ensures IsError(r) <==> code != SUCCESS
    ensures r.code == code && r.msg == msg && r.data.None?
  {
    Result(Wrappers.None, code, msg)
  }

  function FailCodeData<T>(code: int, msg: Option<string>, data: Option<T>): (r: R<T>)
    ensures IsError(r) <==> code != SUCCESS
    ensures r.code == code && r.msg == msg && r.data == data
  {
    Result(data, code, msg)
  }

  // ---------------------------------------------------------------- warn

  function Warn(msg: Option<string>): (r: R<Void>)
    ensures IsError(r) && r.code == 601 && r.msg == msg && r.data.None?
  {
    Result(Wrappers.None, Code(WARN), msg)
  }

  function WarnData<T>(msg: Option<string>, data: Option<T>): (r: R<T>)
    ensures IsError(r) && r.code == 601 && r.msg == msg && r.data == data
  {
    Result(data, Code(WARN), msg)
  }

  // --------------------------------------------------------------- error

  /** `error()`: the code and message of `INTERNAL_SERVER_ERROR`. */
  function Error(): (r: R<Void>)
    ensures IsError(r) && r.code == 500 && r.msg == Wrappers.Some("服务器内部错误") && r.data.None?
  {
    Result(Wrappers.None, Code(INTERNAL_SERVER_ERROR), Wrappers.Some(Msg(INTERNAL_SERVER_ERROR)))
  }

  function ErrorMsg(msg: Option<string>): (r: R<Void>)
    ensures IsError(r) && r.code == 500 && r.msg == msg && r.data.None?
  {
    Result(Wrappers.None, Code(INTERNAL_SERVER_ERROR), msg)
  }

  /** `error(errorCode)`: never a success, since no constant of the table has code 1. */
  function ErrorOf(errorCode: ErrorCode): (r: R<Void>)
    ensures IsError(r) && 200 <= r.code <= 601 && r.data.None?
    ensures r.code == Code(errorCode) && r.msg == Wrappers.Some(Msg(errorCode))
  {
    Result(Wrappers.None, Code(errorCode), Wrappers.Some(Msg(errorCode)))
  }

  /** `error(code, msg)`, whose envelope carries a string. */
  function ErrorCodeMsg(code: int, msg: Option<string>): (r: R<string>)
    ensures IsError(r) <==> code != SUCCESS
    ensures r.code == code && r.msg == msg && r.data.None?
  {
    Result(Wrappers.None, code, msg)
  }

  /** Two envelopes with the same code are alike for `isSuccess`, whatever they carry. */
  lemma SuccessOnlyByCode<T>(a: R<T>, b: R<T>)
    requires a.code == b.code
    ensures IsSuccess(a) == IsSuccess(b) && IsError(a) == IsError(b)
  {
  }

  /** `ErrorCode.SUCCESS` does not make a successful envelope: `error(ErrorCode.SUCCESS)` is an error. */
  lemma TableSuccessIsError()
    ensures Code(ErrorCodes.SUCCESS) == 200 && IsError(ErrorOf(ErrorCodes.SUCCESS))
  {
  }
}
