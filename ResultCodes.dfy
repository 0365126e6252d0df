/**
 * Result codes, as the envelope sees them through the `IResultCode` interface:
 * an enum constant with an integer code and a default message. The concrete
 * `SystemCode` enum is not part of this model, so its two constants are passed
 * around as a `SystemCodes` value and nothing is assumed about their numbers.
 */
module ResultCodes {

  /**
   * One enum constant implementing `IResultCode`. `name` is the constant's
   * identity (its enum type and constant name), so that two constants which
   * happen to share a code and a message are still different values, as they
   * are different objects in Java.
   */
  datatype ResultCode = ResultCode(name: string, code: int, msg: string)

  /** The constants `SystemCode.SUCCESS` and `SystemCode.FAILURE`. */
  datatype SystemCodes = SystemCodes(success: ResultCode, failure: ResultCode)

  /** SUCCESS and FAILURE are two different constants of one enum. */
  predicate DistinctConstants(codes: SystemCodes)
  {
    codes.success.name != codes.failure.name
  }

  /** `x` fits a Java `int`, the type of a result code's `code`. */
  predicate IsJavaInt(x: int)
  {
    -0x8000_0000 <= x < 0x8000_0000
  }

  /** `rCode` is some constant other than SUCCESS that carries SUCCESS's integer code. */
  predicate SharesSuccessCode(codes: SystemCodes, rCode: ResultCode)
  {
    rCode != codes.success && rCode.code == codes.success.code
  }
}
