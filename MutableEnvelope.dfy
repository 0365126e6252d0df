/**
 * The envelope as the mutable bean Lombok makes of it: four fields, a
 * no-argument constructor, the private constructor that assigns the fields
 * one by one, and a setter per field. The setters are specified through the
 * value-level `Set`, and `Apply` runs any sequence of setter calls; the lemmas
 * say which setters keep the stored flag and the code test in agreement.
 */
module MutableEnvelope {
  import opened Wrappers
  import opened ResultCodes
  import opened Result

  /** One setter call: `setCode`, `setSuccess`, `setMsg` or `setData`. */
  datatype Setter =
    | CodeTo(newCode: int)
    | SuccessTo(newSuccess: bool)
    | MsgTo(newMsg: Option<string>)
    | DataTo(newData: Option<Payload>)

  /** The envelope after one setter call. */
  function Set(r: R, op: Setter): (r': R)
    ensures r'.code == if op.CodeTo? then op.newCode else r.code
    ensures r'.success == if op.SuccessTo? then op.newSuccess else r.success
    ensures r'.msg == if op.MsgTo? then op.newMsg else r.msg
    ensures r'.data == if op.DataTo? then op.newData else r.data
  {
    match op
    case CodeTo(c) => r.(code := c)
    case SuccessTo(b) => r.(success := b)
    case MsgTo(m) => r.(msg := m)
    case DataTo(d) => r.(data := d)
  }

  /** The envelope after the setter calls `ops`, first to last. */
  function Apply(r: R, ops: seq<Setter>): R
    decreases |ops|
  {
    if ops == [] then r else Apply(Set(r, ops[0]), ops[1..])
  }

  /** The code given by the last `setCode` in `ops`, or `init` when there is none. */
  function LastCode(init: int, ops: seq<Setter>): int
    decreases |ops|
  {
    if ops == [] then init
    else if ops[|ops| - 1].CodeTo? then ops[|ops| - 1].newCode
    else LastCode(init, ops[..|ops| - 1])
  }

  /** The flag given by the last `setSuccess` in `ops`, or `init` when there is none. */
  function LastSuccess(init: bool, ops: seq<Setter>): bool
    decreases |ops|
  {
    if ops == [] then init
    else if ops[|ops| - 1].SuccessTo? then ops[|ops| - 1].newSuccess
    else LastSuccess(init, ops[..|ops| - 1])
  }

  /** Running one more setter after `ops` is running it on the result of `ops`. */
  lemma {:induction false} ApplySnoc(r: R, ops: seq<Setter>, op: Setter)
    ensures Apply(r, ops + [op]) == Set(Apply(r, ops), op)
    decreases |ops|
  {
    if ops == [] {
      assert ops + [op] == [op];
    } else {
      assert (ops + [op])[1..] == ops[1..] + [op];
      ApplySnoc(Set(r, ops[0]), ops[1..], op);
    }
  }

  /** After any sequence of setter calls, the code and the flag are the last ones set. */
  lemma {:induction false} ApplyCodeAndFlag(r: R, ops: seq<Setter>)
    ensures Apply(r, ops).code == LastCode(r.code, ops)
    ensures Apply(r, ops).success == LastSuccess(r.success, ops)
    decreases |ops|
  {
    if ops != [] {
      var front, op := ops[..|ops| - 1], ops[|ops| - 1];
      assert ops == front + [op];
      ApplySnoc(r, front, op);
      ApplyCodeAndFlag(r, front);
    }
  }

  /** Without a `setCode` call the code stays what it was. */
  lemma {:induction false} LastCodeWithoutSetCode(init: int, ops: seq<Setter>)
    requires forall i | 0 <= i < |ops| :: !ops[i].CodeTo?
    ensures LastCode(init, ops) == init
    decreases |ops|
  {
    if ops != [] {
      LastCodeWithoutSetCode(init, ops[..|ops| - 1]);
    }
  }

  /** Without a `setSuccess` call the flag stays what it was. */
  lemma {:induction false} LastSuccessWithoutSetSuccess(init: bool, ops: seq<Setter>)
    requires forall i | 0 <= i < |ops| :: !ops[i].SuccessTo?
    ensures LastSuccess(init, ops) == init
    decreases |ops|
  {
    if ops != [] {
      LastSuccessWithoutSetSuccess(init, ops[..|ops| - 1]);
    }
  }

  /**
   * After any sequence of setter calls, the envelope agrees exactly when the
   * last code set matches SUCCESS's code as the last flag set says it does.
   */
  lemma SettersDecideAgreement(codes: SystemCodes, r: R, ops: seq<Setter>)
    ensures Agrees(codes, Apply(r, ops)) <==>
            ((LastCode(r.code, ops) == codes.success.code) == LastSuccess(r.success, ops))
  {
    ApplyCodeAndFlag(r, ops);
  }

  /** `setMsg` and `setData`, called any number of times, keep an agreeing envelope agreeing. */
  lemma MsgAndDataSettersKeepAgreement(codes: SystemCodes, r: R, ops: seq<Setter>)
    requires Agrees(codes, r)
    requires forall i | 0 <= i < |ops| :: ops[i].MsgTo? || ops[i].DataTo?
    ensures Agrees(codes, Apply(r, ops))
  {
    ApplyCodeAndFlag(r, ops);
    LastCodeWithoutSetCode(r.code, ops);
    LastSuccessWithoutSetSuccess(r.success, ops);
  }

  /**
   * One `setCode` call can break the agreement of any envelope, and one can
   * restore it; when SUCCESS's code is a Java `int`, so is the code that does it.
   */
  lemma SetCodeDecidesAgreement(codes: SystemCodes, r: R)
    ensures exists c :: !Agrees(codes, Set(r, CodeTo(c))) && (IsJavaInt(codes.success.code) ==> IsJavaInt(c))
    ensures exists c :: Agrees(codes, Set(r, CodeTo(c))) && (IsJavaInt(codes.success.code) ==> IsJavaInt(c))
  {
    var s := codes.success.code;
    var other := if s == 0 then 1 else 0;
    if r.success {
      assert !Agrees(codes, Set(r, CodeTo(other))) && IsJavaInt(other);
      assert Agrees(codes, Set(r, CodeTo(s)));
    } else {
      assert !Agrees(codes, Set(r, CodeTo(s)));
      assert Agrees(codes, Set(r, CodeTo(other))) && IsJavaInt(other);
    }
  }

  /**
   * A constant other than SUCCESS that shares its code makes `fail(rCode)`
   * pass `isSuccess` with its flag unset; after `setData(d)` `getData` still
   * returns null although `isSuccess` holds.
   */
  lemma SharedCodeFoolsIsSuccess(codes: SystemCodes, rCode: ResultCode, d: Option<Payload>)
    requires SharesSuccessCode(codes, rCode)
    ensures IsSuccess(codes, Some(FailCode(codes, rCode))) && !FailCode(codes, rCode).success
    ensures IsSuccess(codes, Some(Set(FailCode(codes, rCode), DataTo(d))))
    ensures GetData(codes, Some(Set(FailCode(codes, rCode), DataTo(d)))).None?
  {
  }

  /** After `setSuccess(b)` the envelope agrees exactly when `b` is what `isSuccess` says. */
  lemma SetSuccessDecidesAgreement(codes: SystemCodes, r: R, b: bool)
    ensures Agrees(codes, Set(r, SuccessTo(b))) <==> b == IsSuccess(codes, Some(r))
  {
  }

  /** The envelope object with its Lombok-generated setters. */
  class Envelope {
    var code: int
    var success: bool
    var msg: Option<string>
    var data: Option<Payload>

    /** The envelope's current field values. */
    function Value(): R
      reads this
    {
      R(code, success, msg, data)
    }

    /** `@NoArgsConstructor`: every field keeps Java's default value. */
    constructor ()
      ensures Value() == Blank()
    {
      code := 0;
      success := false;
      msg := None;
      data := None;
    }

    /** The private constructor `R(IResultCode, String, T data)`, field by field. */
    constructor Of(codes: SystemCodes, rCode: ResultCode, msg: Option<string>, data: Option<Payload>)
      ensures this.code == rCode.code && this.msg == msg && this.data == data
      ensures this.success <==> rCode == codes.success
      ensures Value() == Construct(codes, rCode, msg, data)
      ensures Agrees(codes, Value()) <==> !SharesSuccessCode(codes, rCode)
    {
      this.code := rCode.code;
      this.msg := msg;
      this.data := data;
      this.success := rCode == codes.success;
      ConstructAgreesIff(codes, rCode, msg, data);
    }

    /** `setCode`: only the code changes; whether the envelope agrees is now up to `c`. */
    method SetCode(c: int)
      modifies this
      ensures Value() == Set(old(Value()), CodeTo(c))
      ensures forall codes :: Agrees(codes, Value()) <==> ((c == codes.success.code) == success)
    {
      code := c;
    }

    /** `setSuccess`: only the stored flag changes. */
    method SetSuccess(b: bool)
      modifies this
      ensures Value() == Set(old(Value()), SuccessTo(b))
      ensures forall codes :: Agrees(codes, Value()) <==> b == IsSuccess(codes, Some(old(Value())))
    {
      success := b;
    }

    /** `setMsg`: only the message changes, so agreement is kept. */
    method SetMsg(m: Option<string>)
      modifies this
      ensures Value() == Set(old(Value()), MsgTo(m))
      ensures forall codes :: Agrees(codes, Value()) == Agrees(codes, old(Value()))
    {
      msg := m;
    }

    /** `setData`: only the data changes, so agreement is kept. */
    method SetData(d: Option<Payload>)
      modifies this
      ensures Value() == Set(old(Value()), DataTo(d))
      ensures forall codes :: Agrees(codes, Value()) == Agrees(codes, old(Value()))
    {
      data := d;
    }
  }
}
