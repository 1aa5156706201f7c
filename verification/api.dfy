/**
 * The `Result` pair of `rctl2/api.py`: an ok flag (an int, or the bool it
 * was created from) and an optional message, truthy when the flag is.
 */
module Api {
  import opened Wrappers

  /** The ok flag: an int, or a bool kept as given. */
  datatype Flag = IntFlag(i: int) | BoolFlag(b: bool)

  /** `int(flag)`. */
  function AsInt(f: Flag): int {
    if f.IntFlag? then f.i else if f.b then 1 else 0
  }

  datatype ApiResult = ApiResult(ok: Flag, msg: Option<string>)

  /** `bool(result)`: the truth of its flag. */
  predicate Truthy(r: ApiResult) {
    AsInt(r.ok) != 0
  }

  /** `Result.ok(msg)`. */
  function OkResult(msg: Option<string>): (r: ApiResult)
    ensures Truthy(r) && r.ok == IntFlag(1) && r.msg == msg
  {
    ApiResult(IntFlag(1), msg)
  }

  /** `Result.err(msg)`. */
  function ErrResult(msg: Option<string>): (r: ApiResult)
    ensures !Truthy(r) && r.ok == IntFlag(0) && r.msg == msg
  {
    ApiResult(IntFlag(0), msg)
  }

  /**
   * `Result.create(ok, msg)`: the flag is kept as given (not turned into
   * an int); a truthy flag drops the message.
   */
  function Create(ok: Flag, msg: Option<string>): (r: ApiResult)
    ensures r.ok == ok
    ensures Truthy(r) <==> AsInt(ok) != 0
    ensures Truthy(r) ==> r.msg == None
    ensures !Truthy(r) ==> r.msg == msg
  {
    if AsInt(ok) != 0 then ApiResult(ok, None) else ApiResult(ok, msg)
  }

  /**
   * Python's `==` on two results: they are tuples, so the flags compare as
   * numbers (`True == 1`) and the messages as values.
   */
  predicate PyEquals(a: ApiResult, b: ApiResult) {
    AsInt(a.ok) == AsInt(b.ok) && a.msg == b.msg
  }

  /**
   * `create(True, m)` compares equal to `ok()` and `create(False, m)` to
   * `err(m)`, yet the flag each holds is still the bool it was given, not
   * the int `ok` and `err` store.
   */
  lemma CreateKeepsBool(msg: Option<string>)
    ensures Create(BoolFlag(true), msg) == ApiResult(BoolFlag(true), None)
    ensures PyEquals(Create(BoolFlag(true), msg), OkResult(None))
    ensures Create(BoolFlag(true), msg).ok != OkResult(None).ok
    ensures Create(BoolFlag(false), msg) == ApiResult(BoolFlag(false), msg)
    ensures PyEquals(Create(BoolFlag(false), msg), ErrResult(msg))
  {
  }

  /**
   * For a flag worth 0 or 1, `create` is equal under `==` to `ok()` or
   * `err(msg)`; a larger flag, such as 2, is truthy but equals neither.
   */
  lemma CreateMatchesOkErr(ok: Flag, msg: Option<string>)
    ensures AsInt(ok) == 1 ==> PyEquals(Create(ok, msg), OkResult(None))
    ensures AsInt(ok) == 0 ==> PyEquals(Create(ok, msg), ErrResult(msg))
    ensures AsInt(ok) !in {0, 1} ==> !PyEquals(Create(ok, msg), OkResult(None)) && !PyEquals(Create(ok, msg), ErrResult(msg))
  {
  }

  /** What a handler hands back: a value, or an exception object. */
  datatype Outcome<T> = Value(v: T) | Exception(e: PyError)

  /**
   * `dispatch(on_ok, on_err)`: exactly one handler runs, on the message;
   * an exception it returns is raised, anything else is returned.
   */
  function Dispatch<T>(r: ApiResult, onOk: Option<string> -> Outcome<T>, onErr: Option<string> -> Outcome<T>): (res: Result<T>)
    ensures var out := if Truthy(r) then onOk(r.msg) else onErr(r.msg);
            (out.Value? ==> res == Ok(out.v)) && (out.Exception? ==> res == Err(out.e))
  {
    var out := if Truthy(r) then onOk(r.msg) else onErr(r.msg);
    match out
    case Value(v) => Ok(v)
    case Exception(e) => Err(e)
  }

  /** `ok` dispatches to `on_ok` and `err` to `on_err`, whatever the other handler does. */
  lemma DispatchPicksHandler<T>(msg: Option<string>, onOk: Option<string> -> Outcome<T>, onErr: Option<string> -> Outcome<T>)
    requires onOk(msg).Value? && onErr(msg).Value?
    ensures Dispatch(OkResult(msg), onOk, onErr) == Ok(onOk(msg).v)
    ensures Dispatch(ErrResult(msg), onOk, onErr) == Ok(onErr(msg).v)
  {
  }
}
