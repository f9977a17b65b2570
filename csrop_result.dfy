/** `Result<T>` as declared in namespace `SFX.CSROP` (src/ROP.CSharp/Result.cs):
    an immutable pair of a payload and a nullable exception, with a
    deconstructor in the order (success, value, error), a throwing cast to `T`,
    and a bridge cast to `ROP.Bridge.Result<T>`. */
module SfxCsrop {
  import opened Exceptions
  import Bridge = RopBridge

  /** The constructor stores both arguments as they are; `Value` and `Error`
      are get-only, so a value of this type never changes. */
  datatype Result<T> = Result(value: T, error: Option<Exn>)

  /** Success is not stored: it holds exactly when `Error` is null. */
  predicate IsSuccess<T>(r: Result<T>) {
    r.error.None?
  }

  /** `Deconstruct(out success, out value, out error)`. */
  function Deconstruct<T>(r: Result<T>): (d: (bool, T, Option<Exn>))
    ensures d.0 <==> IsSuccess(r)
    ensures Result(d.1, d.2) == r
  {
    (r.error.None?, r.value, r.error)
  }

  /** The implicit cast to `T`: returns `Value` when `Error` is null and
      otherwise throws the stored exception object itself. */
  function CastToValue<T>(r: Result<T>): (t: Try<T>)
    ensures t.Returned? <==> IsSuccess(r)
    ensures t.Returned? ==> t.value == r.value
    ensures t.Threw? ==> r.error == Some(t.exn)
  {
    if r.error.Some? then Threw(r.error.value) else Returned(r.value)
  }

  /** The implicit cast to `ROP.Bridge.Result<T>`: a field-for-field copy that
      never fails. */
  function CastToBridge<T>(r: Result<T>): (b: Bridge.Result<T>)
    ensures b.value == r.value && b.error == r.error
    ensures b.error.None? <==> IsSuccess(r)
  {
    Bridge.Result(r.value, r.error)
  }

  /** What the constructor stores is exactly what `Deconstruct` and the cast
      give back. */
  lemma ConstructorRoundTrip<T>(value: T, error: Option<Exn>)
    ensures Deconstruct(Result(value, error)) == (error.None?, value, error)
    ensures error.None? ==> CastToValue(Result(value, error)) == Returned(value)
    ensures error.Some? ==> CastToValue(Result(value, error)) == Threw(error.value)
  {
  }

  /** The bridge cast loses nothing: two results are equal exactly when their
      bridged copies are. */
  lemma BridgeIsLossless<T>(x: Result<T>, y: Result<T>)
    ensures CastToBridge(x) == CastToBridge(y) <==> x == y
  {
  }
}
