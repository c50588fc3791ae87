/** Small shared datatypes: optional values and the HTTP-level errors that the modelled code raises. */
module Common {
  datatype Option<+T> = None | Some(value: T)

  /** The exceptions of `cgimap/http.hpp` that the modelled components throw, by status. */
  datatype HttpError =
    | BadRequest
    | NotFound
    | Conflict
    | Gone
    | PreconditionFailed
    | PayloadTooLarge
    | TooManyRequests
    | ServerError

  datatype Result<+T> = Ok(value: T) | Err(error: HttpError) {
    predicate IsFailure() { Err? }

    function PropagateFailure<U>(): Result<U>
      requires Err?
    {
      Err(error)
    }

    function Extract(): T
      requires Ok?
    {
      value
    }
  }

  datatype Outcome = Pass | Fail(error: HttpError) {
    predicate IsFailure() { Fail? }

    function PropagateFailure(): Outcome
      requires Fail?
    {
      this
    }
  }

  function Min(a: int, b: int): int { if a < b then a else b }

  function Max(a: int, b: int): int { if a < b then b else a }

  /** Conversion of a non-negative value to `uint32_t`: multiples of 2^32 are dropped. */
  function ToUint32(n: nat): (r: nat)
    ensures r < 0x1_0000_0000 && r <= n
    ensures n < 0x1_0000_0000 <==> r == n
  {
    n % 0x1_0000_0000
  }

  /** Truncating an operand first does not change a truncated sum. */
  lemma {:induction false} ToUint32OfSum(a: nat, b: nat)
    ensures ToUint32(ToUint32(a) + b) == ToUint32(a + b)
  {
    var q, r := (ToUint32(a) + b) / 0x1_0000_0000, ToUint32(ToUint32(a) + b);
    assert a == a / 0x1_0000_0000 * 0x1_0000_0000 + ToUint32(a);
    assert a + b == (a / 0x1_0000_0000 + q) * 0x1_0000_0000 + r;
  }
}
