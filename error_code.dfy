/** `ErrorCode`: the table of status codes and their messages carried by responses. */
module ErrorCodes {

  datatype ErrorCode =
    | SUCCESS | CREATED | ACCEPTED | NO_CONTENT
    | MOVED_PERM | SEE_OTHER | NOT_MODIFIED
    | BAD_REQUEST | UNAUTHORIZED | FORBIDDEN | NOT_FOUND | BAD_METHOD | CONFLICT | UNSUPPORTED_TYPE
    | REFRESH_TOKEN_INVALID
    | INTERNAL_SERVER_ERROR | ERROR | NOT_IMPLEMENTED
    | WARN

  /** The constants in declaration order (`values()`). */
  const VALUES: seq<ErrorCode> := [
    SUCCESS, CREATED, ACCEPTED, NO_CONTENT,
    MOVED_PERM, SEE_OTHER, NOT_MODIFIED,
    BAD_REQUEST, UNAUTHORIZED, FORBIDDEN, NOT_FOUND, BAD_METHOD, CONFLICT, UNSUPPORTED_TYPE,
    REFRESH_TOKEN_INVALID,
    INTERNAL_SERVER_ERROR, ERROR, NOT_IMPLEMENTED,
    WARN]

  /** `getCode()`: every code is an HTTP-style status from 200 to 601. */
  function Code(e: ErrorCode): (code: int)
    ensures 200 <= code <= 601
    ensures code == 601 <==> e == WARN
  {
    match e
    case SUCCESS => 200
    case CREATED => 201
    case ACCEPTED => 202
    case NO_CONTENT => 204
    case MOVED_PERM => 301
    case SEE_OTHER => 303
    case NOT_MODIFIED => 304
    case BAD_REQUEST => 400
    case UNAUTHORIZED => 401
    case FORBIDDEN => 403
    case NOT_FOUND => 404
    case BAD_METHOD => 405
    case CONFLICT => 409
    case UNSUPPORTED_TYPE => 415
    case REFRESH_TOKEN_INVALID => 400
    case INTERNAL_SERVER_ERROR => 500
    case ERROR => 500
    case NOT_IMPLEMENTED => 501
    case WARN => 601
  }

  /** `getMsg()`: every constant has a message. */
  function Msg(e: ErrorCode): (msg: string)
    ensures msg != ""
  {
    match e
    case SUCCESS => "操作成功"
    case CREATED => "对象创建成功"
    case ACCEPTED => "请求已经被接受"
    case NO_CONTENT => "操作已执行，无返回数据"
    case MOVED_PERM => "资源已被移除"
    case SEE_OTHER => "重定向"
    case NOT_MODIFIED => "资源未修改"
    case BAD_REQUEST => "参数错误（缺失/格式不匹配）"
    case UNAUTHORIZED => "未授权访问"
    case FORBIDDEN => "访问受限（权限不足/授权过期）"
    case NOT_FOUND => "资源或服务不存在"
    case BAD_METHOD => "不允许的HTTP方法"
    case CONFLICT => "资源冲突或被锁定"
    case UNSUPPORTED_TYPE => "不支持的数据类型"
    case REFRESH_TOKEN_INVALID => "token已失效"
    case INTERNAL_SERVER_ERROR => "服务器内部错误"
    case ERROR => "系统内部错误"
    case NOT_IMPLEMENTED => "接口未实现"
    case WARN => "系统警告消息"
  }

  /** The table lists every constant once. */
  lemma ValuesComplete(e: ErrorCode)
    ensures e in VALUES && |VALUES| == 19
  {
  }

  /**
   * Codes do not identify constants: `ERROR` shares 500 with
   * `INTERNAL_SERVER_ERROR` and `REFRESH_TOKEN_INVALID` shares 400 with
   * `BAD_REQUEST`, each with a message of its own.
   */
  lemma CodesShared()
    ensures Code(ERROR) == Code(INTERNAL_SERVER_ERROR) && Msg(ERROR) != Msg(INTERNAL_SERVER_ERROR)
    ensures Code(REFRESH_TOKEN_INVALID) == Code(BAD_REQUEST) && Msg(REFRESH_TOKEN_INVALID) != Msg(BAD_REQUEST)
  {
    assert |Msg(ERROR)| != |Msg(INTERNAL_SERVER_ERROR)|;
    assert |Msg(REFRESH_TOKEN_INVALID)| != |Msg(BAD_REQUEST)|;
  }

  /** Apart from those two pairs, a code names one constant. */
  lemma CodesOtherwiseUnique(a: ErrorCode, b: ErrorCode)
    requires Code(a) == Code(b) && a != b
    ensures {a, b} == {ERROR, INTERNAL_SERVER_ERROR} || {a, b} == {REFRESH_TOKEN_INVALID, BAD_REQUEST}
  {
  }
}
