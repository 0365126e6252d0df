# Result envelope `R<T>` (mica-core)

This project models mica's result envelope `R<T>`. The envelope reports an
operation's outcome, usually an HTTP API response, in four fields:

- `code`: an integer status code.
- `success`: a boolean flag.
- `msg`: a message, which may be null.
- `data`: a payload, which may be null.

Every envelope built by a factory goes through one private constructor. That
constructor copies the code from a result code (an `IResultCode` enum constant)
and sets `success` only when that constant *is* `SystemCode.SUCCESS`. The
public surface is a set of static factories (`success`, `fail`, `status`) and
three null-safe helpers (`isSuccess`, `isNotSuccess`, `getData`).

Modules:

- `Wrappers`: `Option`, which stands for a Java reference that may be null.
- `ResultCodes`: a result code is a value `ResultCode(name, code, msg)`. Its
  `name` is the enum constant's identity, so value equality is enum identity.
  The `SystemCode` enum is not part of this model. Its SUCCESS and FAILURE
  constants are a `SystemCodes` parameter of every factory, and no concrete
  integer value is assumed for either.
- `Result`: the envelope as a value `R<T>`, the private constructors, the
  factories and the helpers, all as functions. `Agrees(codes, r)` says that the
  stored flag and the code test of `isSuccess` give the same answer.
- `MutableEnvelope`: the Lombok bean. Class `Envelope` has the four fields, the
  no-argument constructor, the private constructor assigning fields one at a
  time, and one setter per field. `Set` and `Apply` give the effect of one or
  many setter calls on the value.

The flag and the code can disagree, and the model states exactly when:

- `isSuccess` compares integer codes.
- `getData` trusts the stored flag.
- The flag is set by constant identity.

So an envelope built from another constant that shares SUCCESS's integer code
is accepted by `isSuccess`, yet `getData` returns null for it. `setCode` and
`setSuccess` can also break the agreement after construction. `setMsg` and
`setData` cannot.

The flag is therefore not derived from the code:

- The flag is set by identity with `SystemCode.SUCCESS` (R.java:70).
- Lombok `@Setter` makes every field writable after construction (R.java:38).
- `@NoArgsConstructor` gives code 0 with flag false (R.java:41).

`fail(msg)` yields a code different from SUCCESS's, and an envelope that
`isSuccess` rejects, only when FAILURE's code differs from SUCCESS's; `FailMsg`
states it under that condition, since the values of both codes belong to
`SystemCode`.

## Model

| member | source | states |
|---|---|---|
| `Result.IsSuccess` | mica-core/src/main/java/net/dreamlu/mica/core/result/R.java:79-83 | false for null; for a non-null envelope, true exactly when its code equals SUCCESS's code, whatever the stored flag |
| `Result.IsNotSuccess` | mica-core/src/main/java/net/dreamlu/mica/core/result/R.java:91-93 | true exactly when the envelope is null or its code differs from SUCCESS's code |
| `Result.GetData` | mica-core/src/main/java/net/dreamlu/mica/core/result/R.java:101-107 | null for a null envelope; the data when the stored flag is set; null otherwise; data is only returned from a non-null envelope with its flag set |
| `Result.Construct` | mica-core/src/main/java/net/dreamlu/mica/core/result/R.java:66-71 | copies the result code's code, keeps the given message and data; flag true iff the result code is the SUCCESS constant |
| `Result.Blank` | mica-core/src/main/java/net/dreamlu/mica/core/result/R.java:41-52 | the no-argument envelope: code 0, flag false, message and data null |
| `Result.OfCode` | mica-core/src/main/java/net/dreamlu/mica/core/result/R.java:54-56 | copies the code and default message of the result code, no data; flag true iff the result code is the SUCCESS constant |
| `Result.OfCodeMsg` | mica-core/src/main/java/net/dreamlu/mica/core/result/R.java:58-60 | copies the code of the result code, keeps the given message, no data; flag true iff the result code is the SUCCESS constant |
| `Result.OfCodeData` | mica-core/src/main/java/net/dreamlu/mica/core/result/R.java:62-64 | copies the code and default message of the result code, keeps the given data; flag true iff the result code is the SUCCESS constant |
| `Result.Success` | mica-core/src/main/java/net/dreamlu/mica/core/result/R.java:114-116 | SUCCESS's code and message, flag set, no data; `isSuccess` accepts it and it agrees |
| `Result.SuccessOf` | mica-core/src/main/java/net/dreamlu/mica/core/result/R.java:125-127 | SUCCESS's code and message, flag set, the given data; `getData` returns exactly that data |
| `Result.FailMsg` | mica-core/src/main/java/net/dreamlu/mica/core/result/R.java:158-160 | FAILURE's code, the given message, no data; flag set iff FAILURE is the SUCCESS constant, so false for two distinct constants; when FAILURE's code differs from SUCCESS's, its code differs too and `isSuccess` rejects it; `getData` gives null |
| `Result.FailCode` | mica-core/src/main/java/net/dreamlu/mica/core/result/R.java:169-171 | the result code's code and default message, no data; flag iff it is SUCCESS; `isSuccess` iff its code equals SUCCESS's; `getData` gives null |
| `Result.FailCodeMsg` | mica-core/src/main/java/net/dreamlu/mica/core/result/R.java:181-183 | the result code's code with the given message, no data; flag iff it is SUCCESS; `isSuccess` iff its code equals SUCCESS's |
| `Result.StatusMsg` | mica-core/src/main/java/net/dreamlu/mica/core/result/R.java:136-138 | flag set iff the status is true or FAILURE is SUCCESS; `isSuccess` iff the status is true or FAILURE shares SUCCESS's code; SUCCESS's code and message when true, FAILURE's code and the given message otherwise; no data |
| `Result.StatusCode` | mica-core/src/main/java/net/dreamlu/mica/core/result/R.java:147-149 | flag set iff the status is true or the code is SUCCESS; code and message from SUCCESS when true, from the given code otherwise; no data |
| `Result.SuccessOfNullIsSuccess` | mica-core/src/main/java/net/dreamlu/mica/core/result/R.java:114-127 | `success(null)` equals `success()` |
| `Result.FailWithSuccessCodeSucceeds` | mica-core/src/main/java/net/dreamlu/mica/core/result/R.java:169-171 | `fail(SUCCESS)` equals `success()`, a successful envelope |
| `Result.StatusChoosesFactory` | mica-core/src/main/java/net/dreamlu/mica/core/result/R.java:136-149 | `status(true, x)` is `success()` for any x; `status(false, m)` is `fail(m)`; `status(false, c)` is `fail(c)` |
| `Result.IsNotSuccessComplements` | mica-core/src/main/java/net/dreamlu/mica/core/result/R.java:79-93 | `isNotSuccess` is the negation of `isSuccess` on every input, and true on null |
| `Result.HelpersReadDifferentFields` | mica-core/src/main/java/net/dreamlu/mica/core/result/R.java:79-107 | changing the stored flag never changes `isSuccess`; changing the code never changes `getData` |
| `Result.ConstructAgreesIff` | mica-core/src/main/java/net/dreamlu/mica/core/result/R.java:66-83 | the private constructor yields an agreeing envelope iff its result code is not another constant sharing SUCCESS's code |
| `Result.FactoriesAgree` | mica-core/src/main/java/net/dreamlu/mica/core/result/R.java:114-183 | every factory yields an agreeing envelope when neither FAILURE nor the given result code is another constant sharing SUCCESS's code |
| `Result.GetDataFollowsIsSuccessWhenAgreeing` | mica-core/src/main/java/net/dreamlu/mica/core/result/R.java:79-107 | on an agreeing envelope `getData` yields the data exactly when `isSuccess` holds |
| `Result.BlankAgreesIff` | mica-core/src/main/java/net/dreamlu/mica/core/result/R.java:41-48 | the no-argument envelope (code 0, flag false) agrees iff SUCCESS's code is not 0 |
| `MutableEnvelope.Set` | mica-core/src/main/java/net/dreamlu/mica/core/result/R.java:38-52 | one setter call replaces its own field and leaves the other three unchanged |
| `MutableEnvelope.ApplyCodeAndFlag` | mica-core/src/main/java/net/dreamlu/mica/core/result/R.java:37-48 | after any sequence of setter calls, code and flag are the last values set, or the initial ones |
| `MutableEnvelope.SettersDecideAgreement` | mica-core/src/main/java/net/dreamlu/mica/core/result/R.java:38-83 | after any sequence of setter calls, agreement holds iff the last code set matches SUCCESS's code exactly when the last flag set is true |
| `MutableEnvelope.MsgAndDataSettersKeepAgreement` | mica-core/src/main/java/net/dreamlu/mica/core/result/R.java:38-52 | any number of `setMsg` and `setData` calls keep an agreeing envelope agreeing |
| `MutableEnvelope.SetCodeDecidesAgreement` | mica-core/src/main/java/net/dreamlu/mica/core/result/R.java:38-83 | from any envelope, one `setCode` call can break the agreement and one can restore it, with a code in Java `int` range when SUCCESS's code is |
| `MutableEnvelope.SharedCodeFoolsIsSuccess` | mica-core/src/main/java/net/dreamlu/mica/core/result/R.java:38-107 | with a constant other than SUCCESS sharing its code, `fail(rCode)` passes `isSuccess` with its flag unset, and after `setData(d)` `getData` still returns null while `isSuccess` holds |
| `MutableEnvelope.SetSuccessDecidesAgreement` | mica-core/src/main/java/net/dreamlu/mica/core/result/R.java:38-83 | after `setSuccess(b)` the envelope agrees iff b is what `isSuccess` says |
| `MutableEnvelope.Envelope.constructor` | mica-core/src/main/java/net/dreamlu/mica/core/result/R.java:41-52 | the no-argument constructor leaves code 0, flag false, message and data null |
| `MutableEnvelope.Envelope.Of` | mica-core/src/main/java/net/dreamlu/mica/core/result/R.java:66-71 | fields assigned one by one: the code copied, message and data kept, flag iff the result code is SUCCESS; agrees iff no other constant shares SUCCESS's code |
| `MutableEnvelope.Envelope.SetCode` | mica-core/src/main/java/net/dreamlu/mica/core/result/R.java:38-46 | only the code changes; agreement afterwards holds iff the new code matching SUCCESS's equals the flag |
| `MutableEnvelope.Envelope.SetSuccess` | mica-core/src/main/java/net/dreamlu/mica/core/result/R.java:38-48 | only the flag changes; agreement afterwards holds iff the new flag is what `isSuccess` said |
| `MutableEnvelope.Envelope.SetMsg` | mica-core/src/main/java/net/dreamlu/mica/core/result/R.java:38-50 | only the message changes; agreement is unchanged |
| `MutableEnvelope.Envelope.SetData` | mica-core/src/main/java/net/dreamlu/mica/core/result/R.java:38-52 | only the data changes; agreement is unchanged |

## Left out

- Swagger `@ApiModel`/`@ApiModelProperty` annotations: documentation metadata with no behaviour.
- Lombok `@ToString`, `Serializable` and `serialVersionUID`: presentation and serialization plumbing.
- Lombok getters: the model reads the class's fields directly.
- `SystemCode` and `IResultCode` are not part of this model. Their two constants are a parameter, and a result code is a `(name, code, msg)` value.
- A null `IResultCode` passed to a `fail` factory or to `status(false, …)`: Java throws a `NullPointerException` in the constructor, and the model's result code type has no null.
- A result code whose `getMsg()` returns null: the model's result code message is a non-null string.
- `Optional` and `ObjectUtil.nullSafeEquals`: replaced by matching on `Option` and plain integer equality. Both compared codes are autoboxed `int`s, so they are never null.
- Codes are unbounded integers rather than 32-bit Java `int`s. Nothing in the envelope does arithmetic on a code, so nothing can wrap; `SetCodeDecidesAgreement` picks its codes in `int` range.
- Java generics and erasure: the abstract type `Payload` stands for `T`.
- Aliasing and concurrent use of one `Envelope` object: the class methods change one object, and no two threads are modelled.
