/**
 * The `Either` result type every use case returns: a `Failure` carrying an
 * error or a `Success` carrying a value (src/utils/either.ts).
 *
 * The TypeScript classes both call their payload `value`; a Dafny datatype
 * cannot give two constructors one destructor name at two different types,
 * so the failure payload is named `error` here.
 */
module Either {

  datatype Either<+F, +S> = Failure(error: F) | Success(value: S) {

    /** `isSuccess()`: constantly true on a Success, constantly false on a Failure. */
    predicate IsSuccess() {
      match this
      case Success(_) => true
      case Failure(_) => false
    }

    /** `isFailure()`: constantly true on a Failure, constantly false on a Success. */
    predicate IsFailure() {
      match this
      case Failure(_) => true
      case Success(_) => false
    }
  }

  /** `success(v)`: a result that reports success and carries exactly v. */
  function Succeed<F, S>(v: S): (r: Either<F, S>)
    ensures r.IsSuccess() && !r.IsFailure()
    ensures r.Success? && r.value == v
  {
    Success(v)
  }

  /** `failure(e)`: a result that reports failure and carries exactly e. */
  function Fail<F, S>(e: F): (r: Either<F, S>)
    ensures r.IsFailure() && !r.IsSuccess()
    ensures r.Failure? && r.error == e
  {
    Failure(e)
  }

  /** `Either<F, S> = Failure<F, S> | Success<F, S>`: every result answers exactly one of the two questions. */
  lemma ExactlyOneHolds<F, S>(r: Either<F, S>)
    ensures r.IsSuccess() != r.IsFailure()
    ensures r.IsSuccess() <==> r.Success?
  {
  }
}
