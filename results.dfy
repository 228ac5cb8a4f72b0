/**
 * The immutable outcome of an asynchronous operation: a success value or the
 * exception the producer raised. `Result.java` itself is not part of this
 * model; only the accessors that the futures and adapters use are given here.
 */
module Results {
  import opened Optional

  /** An exception object, known only by its identity. */
  datatype Exception = Exception(id: nat)

  datatype Result<V> = Success(value: V) | Failure(exception: Exception) {

    /** `getValue()`: the value, or null when the result is a failure. */
    function GetValue(): (r: Option<V>)
      ensures r.Some? <==> Success?
      ensures r.Some? ==> r.value == value
    {
      match this
      case Success(v) => Some(v)
      case Failure(_) => None
    }

    /** `getException()`: the exception, or null when the result is a success. */
    function GetException(): (r: Option<Exception>)
      ensures r.Some? <==> Failure?
      ensures r.Some? ==> r.value == exception
    {
      match this
      case Success(_) => None
      case Failure(e) => Some(e)
    }
  }

  /** Exactly one of the two accessors yields a non-null answer. */
  lemma AccessorsExclusive<V>(r: Result<V>)
    ensures r.GetValue().Some? != r.GetException().Some?
  {
  }
}
