/** Result<T, E>: a value that holds either an ok value of type T or an
    error of type E. The copying and the moving overload of each operation
    are meant to compute the same result, so each pair is one function here. */
module Results {

  /** What `expect` does: return normally, or throw with the given message. */
  datatype Thrown = Returned | Threw(message: string)

  /** `ok(v)` and `err(e)` are the two constructors. */
  datatype Result<T, E> = Ok(value: T) | Err(error: E) {

    /** `is_ok()`: the result holds an ok value. */
    predicate IsOk()
      ensures IsOk() ==> Ok? && this == Ok(value)
      ensures !IsOk() ==> Err? && this == Err(error)
    {
      Ok?
    }

    /** `is_err()`: the result holds an error, exactly when it is not ok. */
    predicate IsErr()
      ensures IsErr() <==> !IsOk()
    {
      Err?
    }

    /** `operator bool`: true exactly for an ok result. */
    function AsBool(): (b: bool)
      ensures b <==> IsOk()
    {
      Ok?
    }

    /** `unwrap()`: the ok value; the source asserts the result is ok. */
    function Unwrap(): (v: T)
      requires IsOk()
      ensures this == Ok(v)
    {
      value
    }

    /** `unwrap_err()`: the error; the source asserts the result is an error. */
    function UnwrapErr(): (e: E)
      requires IsErr()
      ensures this == Err(e)
    {
      error
    }

    /** `unwrap_or(d)`: the ok value, or `d` for an error. */
    function UnwrapOr(default: T): (v: T)
      ensures IsOk() ==> this == Ok(v)
      ensures IsErr() ==> v == default
    {
      if Ok? then value else default
    }

    /** `unwrap_err_or(d)`: the error, or `d` for an ok result. */
    function UnwrapErrOr(default: E): (e: E)
      ensures IsErr() ==> this == Err(e)
      ensures IsOk() ==> e == default
    {
      if Err? then error else default
    }

    /** `expect(msg)`: throws a runtime error carrying `msg` exactly when the
        result is an error. */
    function Expect(msg: string): (t: Thrown)
      ensures t.Threw? <==> IsErr()
      ensures t.Threw? ==> t.message == msg
    {
      if Err? then Threw(msg) else Returned
    }

    /** `map(f)`: applies `f` to an ok value and passes an error through. */
    function Map<U>(f: T -> U): (r: Result<U, E>)
      ensures r.IsOk() <==> IsOk()
      ensures IsOk() ==> r.Unwrap() == f(Unwrap())
      ensures IsErr() ==> r.UnwrapErr() == UnwrapErr()
    {
      match this
      case Ok(v) => Ok(f(v))
      case Err(e) => Err(e)
    }

    /** `map_err(f)`: applies `f` to an error and passes an ok value through. */
    function MapErr<F>(f: E -> F): (r: Result<T, F>)
      ensures r.IsOk() <==> IsOk()
      ensures IsOk() ==> r.Unwrap() == Unwrap()
      ensures IsErr() ==> r.UnwrapErr() == f(UnwrapErr())
    {
      match this
      case Ok(v) => Ok(v)
      case Err(e) => Err(f(e))
    }

    /** `and_then(f)`: the result of `f` on an ok value; an error short-
        circuits without calling `f`. The error type stays the same. */
    function AndThen<U>(f: T -> Result<U, E>): (r: Result<U, E>)
      ensures IsOk() ==> r == f(Unwrap())
      ensures IsErr() ==> r == Err(UnwrapErr())
    {
      match this
      case Ok(v) => f(v)
      case Err(e) => Err(e)
    }

    /** `match(fo, fe)`: `fo` on an ok value, `fe` on an error, both giving
        the same type. */
    function Match<R>(fo: T -> R, fe: E -> R): (x: R)
      ensures IsOk() ==> x == fo(Unwrap())
      ensures IsErr() ==> x == fe(UnwrapErr())
    {
      match this
      case Ok(v) => fo(v)
      case Err(e) => fe(e)
    }
  }

  /** `map` is `and_then` with a function that always succeeds. */
  lemma MapIsAndThenOk<T, E, U>(r: Result<T, E>, f: T -> U)
    ensures r.Map(f) == r.AndThen(v => Ok(f(v)))
  {
  }

  /** `map` and `map_err` are `match` rebuilding a result. */
  lemma MapsAreMatches<T, E, U, F>(r: Result<T, E>, f: T -> U, g: E -> F)
    ensures r.Map(f) == r.Match(v => Ok(f(v)), e => Err(e))
    ensures r.MapErr(g) == r.Match(v => Ok(v), e => Err(g(e)))
  {
  }

  /** `unwrap_or` and `unwrap_err_or` are `match` with a constant branch. */
  lemma UnwrapOrIsMatch<T, E>(r: Result<T, E>, d: T, de: E)
    ensures r.UnwrapOr(d) == r.Match(v => v, e => d)
    ensures r.UnwrapErrOr(de) == r.Match(v => de, e => e)
  {
  }

  /** Mapping by the identity changes nothing, and two maps compose. */
  lemma MapFunctor<T, E, U, V>(r: Result<T, E>, f: T -> U, g: U -> V)
    ensures r.Map(v => v) == r
    ensures r.Map(f).Map(g) == r.Map(v => g(f(v)))
  {
  }

  /** Mapping the ok side and mapping the error side commute. */
  lemma MapMapErrCommute<T, E, U, F>(r: Result<T, E>, f: T -> U, g: E -> F)
    ensures r.Map(f).MapErr(g) == r.MapErr(g).Map(f)
  {
  }

  /** `ok` is a unit for `and_then` on both sides, and `and_then` is
      associative. */
  lemma AndThenLaws<T, E, U, V>(v: T, r: Result<T, E>, f: T -> Result<U, E>, g: U -> Result<V, E>)
    ensures Result<T, E>.Ok(v).AndThen(f) == f(v)
    ensures r.AndThen(x => Ok(x)) == r
    ensures r.AndThen(f).AndThen(g) == r.AndThen(x => f(x).AndThen(g))
  {
  }

  /** The chain of test_result_map: ok(true), mapped to 1, its error side
      mapped to emptiness, then an and_then that fails with `true`. */
  lemma ChainEndsInErrTrue(empty: string -> bool)
    ensures Result<bool, string>.Ok(true)
              .Map(b => if b then 1 else 0)
              .MapErr(empty)
              .AndThen((n: int) => Result<int, bool>.Err(true))
              .UnwrapErr() == true
  {
  }
}
