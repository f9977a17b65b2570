/** `Result<T>` as declared in namespace `SFX.ROP.CSharp`
    (src/ROP.CSharp.Types/Result.cs), the declaration `Library` builds on:
    the same two fields as the `SFX.CSROP` one, but a deconstructor in the
    order (success, error, value) and no bridge cast. */
module SfxRopCSharp {
  import opened Exceptions

  /** The constructor stores both arguments as they are; `Value` and `Error`
      are get-only, so a value of this type never changes. */
  datatype Result<T> = Result(value: T, error: Option<Exn>)

  /** Success is not stored: it holds exactly when `Error` is null. */
  predicate IsSuccess<T>(r: Result<T>) {
    r.error.None?
  }

  /** `Deconstruct(out success, out error, out value)`. */
  function Deconstruct<T>(r: Result<T>): (d: (bool, Option<Exn>, T))
    ensures d.0 <==> IsSuccess(r)
    ensures Result(d.2, d.1) == r
  {
    (r.error.None?, r.error, r.value)
  }

  /** The implicit cast to `T`: returns `Value` when `Error` is null and
      otherwise throws the stored exception object itself. */
  function CastToValue<T>(r: Result<T>): (t: Try<T>)
    ensures t.Returned? <==> IsSuccess(r)
    ensures t.Returned? ==> t.value == r.value
    ensures t.Threw? ==> r.error == Some(t.exn)
  {
    if r.error.Some? then Threw(r.error.value) else Returned(r.value)
  }

  /** What the constructor stores is exactly what `Deconstruct` and the cast
      give back. */
  lemma ConstructorRoundTrip<T>(value: T, error: Option<Exn>)
    ensures Deconstruct(Result(value, error)) == (error.None?, error, value)
    ensures error.None? ==> CastToValue(Result(value, error)) == Returned(value)
    ensures error.Some? ==> CastToValue(Result(value, error)) == Threw(error.value)
  {
  }
}
