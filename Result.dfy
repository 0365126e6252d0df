/**
 * The result envelope `R<T>`: an operation's outcome as a status code, a
 * success flag, a message and an optional payload, with the static factories
 * `success`, `fail` and `status` and the null-safe helpers `isSuccess`,
 * `isNotSuccess` and `getData`.
 *
 * The stored flag and the helpers use two different tests: the private
 * constructor sets `success` when the result code IS the SUCCESS constant,
 * while `isSuccess` compares integer codes and `getData` trusts the stored
 * flag. `Agrees` names the state in which the two tests give the same answer;
 * the lemmas below say exactly when it holds.
 */
module Result {
  import opened Wrappers
  import opened ResultCodes

  /**
   * The payload type: Java's type parameter `T`, about which the envelope
   * knows nothing.
   */
  type Payload

  /** The four fields of an envelope; `msg` and `data` may be null in Java. */
  datatype R = R(code: int, success: bool, msg: Option<string>, data: Option<Payload>)

  /** The private four-argument constructor: every factory ends here. */
  function Construct(codes: SystemCodes, rCode: ResultCode, msg: Option<string>, data: Option<Payload>): (r: R)
    ensures r.code == rCode.code && r.msg == msg && r.data == data
    ensures r.success <==> rCode == codes.success
  {
    R(rCode.code, rCode == codes.success, msg, data)
  }

  /** An envelope built by the no-argument constructor: Java's default field values. */
  function Blank(): (r: R)
    ensures r.code == 0 && !r.success && r.msg.None? && r.data.None?
  {
    R(0, false, None, None)
  }

  // ---------------------------------------------------------------------------
  // The helpers, total over a possibly null envelope
  // ---------------------------------------------------------------------------

  /** `isSuccess`: decided by the integer code alone; null is not a success. */
  function IsSuccess(codes: SystemCodes, result: Option<R>): (b: bool)
    ensures result.None? ==> !b
    ensures result.Some? ==> (b <==> result.value.code == codes.success.code)
  {
    match result
    case None => false
    case Some(x) => x.code == codes.success.code
  }

  /** `isNotSuccess`: null counts as not successful. */
  function IsNotSuccess(codes: SystemCodes, result: Option<R>): (b: bool)
    ensures b <==> result.None? || result.value.code != codes.success.code
  {
    !IsSuccess(codes, result)
  }

  /** `getData`: the payload of a non-null envelope whose stored flag is set, else null. */
  function GetData(codes: SystemCodes, result: Option<R>): (d: Option<Payload>)
    ensures result.None? ==> d.None?
    ensures result.Some? && result.value.success ==> d == result.value.data
    ensures result.Some? && !result.value.success ==> d.None?
    ensures d.Some? ==> result.Some? && result.value.success
  {
    match result
    case None => None
    case Some(x) => if x.success then x.data else None
  }

  /** The stored flag and the code test give the same verdict on `r`. */
  predicate Agrees(codes: SystemCodes, r: R)
  {
    IsSuccess(codes, Some(r)) == r.success
  }

  // ---------------------------------------------------------------------------
  // The delegating private constructors
  // ---------------------------------------------------------------------------

  /** `R(IResultCode)`: the code's own message, no data. */
  function OfCode(codes: SystemCodes, rCode: ResultCode): (r: R)
    ensures r.code == rCode.code && r.msg == Some(rCode.msg) && r.data.None?
    ensures r.success <==> rCode == codes.success
  {
    Construct(codes, rCode, Some(rCode.msg), None)
  }

  /** `R(IResultCode, String)`: the given message, no data. */
  function OfCodeMsg(codes: SystemCodes, rCode: ResultCode, msg: Option<string>): (r: R)
    ensures r.code == rCode.code && r.msg == msg && r.data.None?
    ensures r.success <==> rCode == codes.success
  {
    Construct(codes, rCode, msg, None)
  }

  /** `R(IResultCode, T data)`: the code's own message and the given data. */
  function OfCodeData(codes: SystemCodes, rCode: ResultCode, data: Option<Payload>): (r: R)
    ensures r.code == rCode.code && r.msg == Some(rCode.msg) && r.data == data
    ensures r.success <==> rCode == codes.success
  {
    Construct(codes, rCode, Some(rCode.msg), data)
  }

  // ---------------------------------------------------------------------------
  // The public factories
  // ---------------------------------------------------------------------------

  /** `success()`: a successful envelope without data. */
  function Success(codes: SystemCodes): (r: R)
    ensures r.code == codes.success.code && r.success && r.msg == Some(codes.success.msg)
    ensures r.data.None?
    ensures IsSuccess(codes, Some(r)) && Agrees(codes, r)
  {
    OfCode(codes, codes.success)
  }

  /** `success(data)`: a successful envelope whose data `getData` gives back. */
  function SuccessOf(codes: SystemCodes, data: Option<Payload>): (r: R)
    ensures r.code == codes.success.code && r.success && r.msg == Some(codes.success.msg)
    ensures r.data == data
    ensures IsSuccess(codes, Some(r)) && Agrees(codes, r)
    ensures GetData(codes, Some(r)) == data
  {
    OfCodeData(codes, codes.success, data)
  }

  /** `fail(msg)`: the FAILURE code with the caller's message and no data. */
  function FailMsg(codes: SystemCodes, msg: Option<string>): (r: R)
    ensures r.code == codes.failure.code && r.msg == msg && r.data.None?
    ensures r.success <==> codes.failure == codes.success
    ensures DistinctConstants(codes) ==> !r.success
    ensures codes.failure.code != codes.success.code ==> r.code != codes.success.code && !IsSuccess(codes, Some(r))
    ensures GetData(codes, Some(r)).None?
  {
    OfCodeMsg(codes, codes.failure, msg)
  }

  /** `fail(rCode)`: the code and default message of `rCode`; successful only for SUCCESS. */
  function FailCode(codes: SystemCodes, rCode: ResultCode): (r: R)
    ensures r.code == rCode.code && r.msg == Some(rCode.msg) && r.data.None?
    ensures r.success <==> rCode == codes.success
    ensures IsSuccess(codes, Some(r)) <==> rCode.code == codes.success.code
    ensures GetData(codes, Some(r)).None?
  {
    OfCode(codes, rCode)
  }

  /** `fail(rCode, msg)`: the code of `rCode` with the caller's message. */
  function FailCodeMsg(codes: SystemCodes, rCode: ResultCode, msg: Option<string>): (r: R)
    ensures r.code == rCode.code && r.msg == msg && r.data.None?
    ensures r.success <==> rCode == codes.success
    ensures IsSuccess(codes, Some(r)) <==> rCode.code == codes.success.code
    ensures GetData(codes, Some(r)).None?
  {
    OfCodeMsg(codes, rCode, msg)
  }

  /** `status(ok, msg)`: the caller's verdict, seen by `isSuccess` unless FAILURE shares SUCCESS's code. */
  function StatusMsg(codes: SystemCodes, ok: bool, msg: Option<string>): (r: R)
    ensures r.success <==> ok || codes.failure == codes.success
    ensures IsSuccess(codes, Some(r)) <==> ok || codes.failure.code == codes.success.code
    ensures r.code == if ok then codes.success.code else codes.failure.code
    ensures r.msg == if ok then Some(codes.success.msg) else msg
    ensures r.data.None?
  {
    if ok then Success(codes) else FailMsg(codes, msg)
  }

  /** `status(ok, sCode)`: the caller's verdict, with `sCode` reporting a failure. */
  function StatusCode(codes: SystemCodes, ok: bool, sCode: ResultCode): (r: R)
    ensures r.success <==> ok || sCode == codes.success
    ensures IsSuccess(codes, Some(r)) <==> ok || sCode.code == codes.success.code
    ensures r.code == if ok then codes.success.code else sCode.code
    ensures r.msg == Some(if ok then codes.success.msg else sCode.msg)
    ensures r.data.None?
  {
    if ok then Success(codes) else FailCode(codes, sCode)
  }

  // ---------------------------------------------------------------------------
  // Relations between the operations
  // ---------------------------------------------------------------------------

  /** `success(null)` is indistinguishable from `success()`. */
  lemma SuccessOfNullIsSuccess(codes: SystemCodes)
    ensures SuccessOf(codes, None) == Success(codes)
  {
  }

  /** `fail(SUCCESS)` is indistinguishable from `success()`. */
  lemma FailWithSuccessCodeSucceeds(codes: SystemCodes)
    ensures FailCode(codes, codes.success) == Success(codes)
  {
  }

  /** `status(true, _)` is `success()` whatever the second argument; `status(false, x)` is `fail(x)`. */
  lemma StatusChoosesFactory(codes: SystemCodes, msg: Option<string>, sCode: ResultCode)
    ensures StatusMsg(codes, true, msg) == Success(codes)
    ensures StatusCode(codes, true, sCode) == Success(codes)
    ensures StatusMsg(codes, false, msg) == FailMsg(codes, msg)
    ensures StatusCode(codes, false, sCode) == FailCode(codes, sCode)
  {
  }

  /** `isNotSuccess` is the complement of `isSuccess` on every input, null included. */
  lemma IsNotSuccessComplements(codes: SystemCodes, result: Option<R>)
    ensures IsNotSuccess(codes, result) == !IsSuccess(codes, result)
    ensures IsNotSuccess(codes, None)
  {
  }

  /** `isSuccess` ignores the stored flag, and `getData` ignores the code. */
  lemma HelpersReadDifferentFields(codes: SystemCodes, r: R, flag: bool, code: int)
    ensures IsSuccess(codes, Some(r.(success := flag))) == IsSuccess(codes, Some(r))
    ensures GetData(codes, Some(r.(code := code))) == GetData(codes, Some(r))
  {
  }

  /**
   * An envelope from the private constructor agrees exactly when its result
   * code is not some other constant carrying SUCCESS's integer code.
   */
  lemma ConstructAgreesIff(codes: SystemCodes, rCode: ResultCode, msg: Option<string>, data: Option<Payload>)
    ensures Agrees(codes, Construct(codes, rCode, msg, data)) <==> !SharesSuccessCode(codes, rCode)
  {
  }

  /**
   * Every factory yields an agreeing envelope as long as no other constant it
   * is given (FAILURE for `fail(msg)`, `rCode` otherwise) shares SUCCESS's code.
   */
  lemma FactoriesAgree(codes: SystemCodes, ok: bool, rCode: ResultCode, msg: Option<string>, data: Option<Payload>)
    requires !SharesSuccessCode(codes, codes.failure)
    requires !SharesSuccessCode(codes, rCode)
    ensures Agrees(codes, Success(codes)) && Agrees(codes, SuccessOf(codes, data))
    ensures Agrees(codes, FailMsg(codes, msg))
    ensures Agrees(codes, FailCode(codes, rCode)) && Agrees(codes, FailCodeMsg(codes, rCode, msg))
    ensures Agrees(codes, StatusMsg(codes, ok, msg)) && Agrees(codes, StatusCode(codes, ok, rCode))
  {
  }

  /** On an agreeing envelope `getData` yields the data exactly when `isSuccess` holds. */
  lemma GetDataFollowsIsSuccessWhenAgreeing(codes: SystemCodes, r: R)
    requires Agrees(codes, r)
    ensures GetData(codes, Some(r)) == if IsSuccess(codes, Some(r)) then r.data else None
  {
  }

  /** The no-argument constructor agrees unless SUCCESS's code is 0, Java's default `int`. */
  lemma BlankAgreesIff(codes: SystemCodes)
    ensures Agrees(codes, Blank()) <==> codes.success.code != 0
  {
  }
}
