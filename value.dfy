/** Value<T>: a wrapper around one value that can be read and mapped. The
    copying and the moving `map` compute the same value, so they are one
    function here. */
module Values {

  datatype Value<T> = Value(val: T) {

    /** `get()`: the value the wrapper was constructed with. */
    function Get(): (v: T)
      ensures this == Value(v)
    {
      val
    }

    /** `get_mut()`: the same stored value that `get()` reads. */
    function GetMut(): (v: T)
      ensures v == Get()
    {
      val
    }

    /** The copy constructor: a wrapper holding the same value. */
    function Copy(): (c: Value<T>)
      ensures c.Get() == Get()
    {
      Value(val)
    }

    /** `map(f)`: a new wrapper holding `f` of the value. */
    function Map<U>(f: T -> U): (r: Value<U>)
      ensures r.Get() == f(Get())
    {
      Value(f(val))
    }
  }

  /** Mapping twice is mapping once by the composition, so
      `a.map(f).map(f).get() == f(f(a.get()))`. */
  lemma MapCompose<T, U, V>(a: Value<T>, f: T -> U, g: U -> V)
    ensures a.Map(f).Map(g) == a.Map(x => g(f(x)))
    ensures a.Map(f).Map(g).Get() == g(f(a.Get()))
  {
  }

  /** Mapping by the identity gives back an equal wrapper. */
  lemma MapIdentity<T>(a: Value<T>)
    ensures a.Map(x => x) == a
  {
  }

  /** The integer instance of the test: mapping by `+ k` adds `k`, and
      mapping twice adds it twice. */
  lemma AddMapped(a: Value<int>, k: int)
    ensures a.Map(x => x + k).Get() == a.Get() + k
    ensures a.Map(x => x + k).Map(x => x + k).Get() == a.Get() + k + k
  {
  }
}
