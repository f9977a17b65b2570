/** The combinator algebra of `ROP.CSharp.Library` (src/ROP.CSharp/Library.cs)
    over `SfxRopCSharp.Result<T>`.

    Delegates are modelled as follows. A `Func` is a Dafny arrow; one that may
    throw returns a `Try`. An `Action` changes the state of the world around
    it, so it is an arrow that takes the world `W` and returns the new world; a
    throwing `Action` also reports the exception it threw, after whatever it
    changed before throwing. The C# overloads get one name per shape:
    `...Action`, `...Producer` and the plain name for the transform shape. */
module Library {
  import opened Exceptions
  import opened SfxRopCSharp
  import F = SfxRopTypes

  /** C#'s `default(T)`: one fixed value per type. */
  ghost function Default<T(0)>(): T {
    var d: T :| true; d
  }

  /** `Succeed(value)`: a result with `value` and a null error. */
  function Succeed<T>(value: T): (r: Result<T>)
    ensures Deconstruct(r) == (true, None, value)
    ensures CastToValue(r) == Returned(value)
  {
    Result(value, None)
  }

  /** `Fail(error)`: a result with `error` and the default value. Success is
      derived from the error, so `Fail(null)` is a success. */
  ghost function Fail<T(0)>(error: Option<Exn>): (r: Result<T>)
    ensures Deconstruct(r) == (error.None?, error, Default<T>())
    ensures IsSuccess(r) <==> error.None?
    ensures error.Some? ==> CastToValue(r) == Threw(error.value)
    ensures error.None? ==> CastToValue(r) == Returned(Default<T>())
  {
    Result(Default(), error)
  }

  /** `Fail<U>(error)` for a reference type `U`, where `default(U)` is null:
      it holds `error` and a null value, whatever `error` is; it is a success
      exactly when `error` is null, and the cast then returns null. */
  function FailReference<U>(error: Option<Exn>): (r: Result<Option<U>>)
    ensures Deconstruct(r) == (error.None?, error, None)
    ensures IsSuccess(r) <==> error.None?
    ensures error.Some? ==> CastToValue(r) == Threw(error.value)
    ensures error.None? ==> CastToValue(r) == Returned(None)
  {
    Result(None, error)
  }

  // ----- Either -----

  /** `Either(Action<T>, Action<Exception>)`: runs exactly one handler on the
      world `w`; the success handler gets `Value`, the error handler the stored
      exception. */
  function EitherAction<T, W>(twoTrackInput: Result<T>, successHandler: T -> W -> W,
                              errorHandler: Exn -> W -> W, w: W): (w': W)
    ensures IsSuccess(twoTrackInput) ==> w' == successHandler(twoTrackInput.value)(w)
    ensures !IsSuccess(twoTrackInput) ==>
              twoTrackInput.error.Some? && w' == errorHandler(twoTrackInput.error.value)(w)
  {
    var (ok, error, result) := Deconstruct(twoTrackInput);
    if ok then successHandler(result)(w) else errorHandler(error.value)(w)
  }

  /** `Either(Result<Unit>, Func<T>, Func<Exception, T>)`: the success handler
      takes no argument. */
  function EitherUnit<T>(twoTrackInput: Result<F.Unit>, successHandler: () -> T,
                         errorHandler: Exn -> T): (u: T)
    ensures IsSuccess(twoTrackInput) ==> u == successHandler()
    ensures !IsSuccess(twoTrackInput) ==>
              twoTrackInput.error.Some? && u == errorHandler(twoTrackInput.error.value)
  {
    var (ok, error, result) := Deconstruct(twoTrackInput);
    if ok then successHandler() else errorHandler(error.value)
  }

  /** `Either(Func<T, U>, Func<Exception, U>)`. */
  function Either<T, U>(twoTrackInput: Result<T>, successHandler: T -> U,
                        errorHandler: Exn -> U): (u: U)
    ensures IsSuccess(twoTrackInput) ==> u == successHandler(twoTrackInput.value)
    ensures !IsSuccess(twoTrackInput) ==>
              twoTrackInput.error.Some? && u == errorHandler(twoTrackInput.error.value)
  {
    var (ok, error, result) := Deconstruct(twoTrackInput);
    if ok then successHandler(result) else errorHandler(error.value)
  }

  // ----- Bind -----

  /** `Bind(Action<T>)`: runs `f` on the value of a success; on a failure the
      error handler only builds a `Fail<Unit>` that is thrown away, so the
      world is left as it was and the error is lost. */
  ghost function BindAction<T(!new), W(!new)>(f: T -> W -> W): (g: Result<T> -> W -> W)
    ensures forall x, w :: g(x)(w) == if IsSuccess(x) then f(x.value)(w) else w
  {
    (x: Result<T>) => (w: W) =>
      EitherAction(x, f, (error: Exn) => (w0: W) => var discarded := Fail<F.Unit>(Some(error)); w0, w)
  }

  /** `Bind(Func<Result<T>>)`: seeded with `Succeed(Unit.Value)`, so the
      error branch is never taken and the producer is always run. */
  ghost function BindProducer<T(0)>(f: () -> Result<T>): (g: () -> Result<T>)
    ensures g() == f()
  {
    () => EitherUnit(Succeed(F.Unit.Value), f, (error: Exn) => Fail<T>(Some(error)))
  }

  /** `Bind(Func<T, Result<U>>)`: on a success the result is `f(Value)`; on a
      failure it is `Fail<U>` of the same exception, whatever `f` is. */
  ghost function Bind<T(!new), U(0)>(f: T -> Result<U>): (g: Result<T> -> Result<U>)
    ensures forall x :: IsSuccess(x) ==> g(x) == f(x.value)
    ensures forall x :: !IsSuccess(x) ==> g(x) == Fail(x.error)
  {
    (x: Result<T>) => Either(x, f, (error: Exn) => Fail<U>(Some(error)))
  }

  // ----- Switch -----

  /** `Switch(Action<T>)`: runs the action, then reports `Succeed(Unit.Value)`. */
  function SwitchAction<T(!new), W(!new)>(f: T -> W -> W): (g: T -> W -> (Result<F.Unit>, W))
    ensures forall x, w :: IsSuccess(g(x)(w).0) && g(x)(w).1 == f(x)(w)
  {
    (x: T) => (w: W) => (Succeed(F.Unit.Value), f(x)(w))
  }

  /** `Switch(Func<T>)`: always a success carrying what `f` returns. */
  function SwitchProducer<T>(f: () -> T): (g: () -> Result<T>)
    ensures IsSuccess(g()) && CastToValue(g()) == Returned(f())
  {
    () => Succeed(f())
  }

  /** `Switch(Func<T, U>)`: always a success carrying `f(x)`. */
  function Switch<T(!new), U>(f: T -> U): (g: T -> Result<U>)
    ensures forall x :: IsSuccess(g(x)) && CastToValue(g(x)) == Returned(f(x))
  {
    (x: T) => Succeed(f(x))
  }

  // ----- TryCatch -----
  // The error handler's result type `U` is constrained to `Exception`; it is
  // modelled by its upcast, a nullable exception. In the action form the
  // handler's result is discarded, so there it is modelled by its effect.

  /** `TryCatch(Action<T>, Func<Exception, U>)`: runs the action; a thrown
      exception is handed to the handler, whose returned exception is
      discarded, so only its effect on the world remains. What the action
      changed before throwing stays changed, and nothing escapes. */
  function TryCatchAction<T(!new), W(!new)>(f: T -> W -> (W, Option<Exn>),
                                            errorHandler: Exn -> W -> W): (g: T -> W -> W)
    ensures forall x, w :: f(x)(w).1.None? ==> g(x)(w) == f(x)(w).0
    ensures forall x, w :: f(x)(w).1.Some? ==> g(x)(w) == errorHandler(f(x)(w).1.value)(f(x)(w).0)
  {
    (x: T) => (w: W) =>
      var (w', thrown) := f(x)(w);
      if thrown.Some? then errorHandler(thrown.value)(w') else w'
  }

  /** `TryCatch(Func<T>, Func<Exception, U>)`: a normal return `v` gives
      `Succeed(v)`; a throw of `e` gives `Fail(errorHandler(e))`. */
  ghost function TryCatchProducer<T(0)>(f: () -> Try<T>,
                                        errorHandler: Exn -> Option<Exn>): (g: () -> Result<T>)
    ensures f().Returned? ==> IsSuccess(g()) && g().value == f().value
    ensures f().Threw? ==> g() == Fail(errorHandler(f().exn))
  {
    () =>
      match f()
      case Returned(v) => Succeed(v)
      case Threw(error) => Fail<T>(errorHandler(error))
  }

  /** `TryCatch(Func<T, U>, Func<Exception, U>)` with `U : Exception`: the
      success type is itself an exception type, a reference type, so the
      failure built by `Fail<U>` holds `default(U)`, which is null. */
  function TryCatch<T(!new)>(f: T -> Try<Option<Exn>>,
                             errorHandler: Exn -> Option<Exn>): (g: T -> Result<Option<Exn>>)
    ensures forall x :: f(x).Returned? ==> IsSuccess(g(x)) && g(x).value == f(x).value
    ensures forall x :: f(x).Threw? ==> g(x).error == errorHandler(f(x).exn) && g(x).value == None
  {
    (x: T) =>
      match f(x)
      case Returned(v) => Succeed(v)
      case Threw(error) => FailReference(errorHandler(error))
  }

  // ----- Conversion from the F# union -----

  /** `ToResult`: `Success x` becomes `Succeed(x.Item)` and `Failure err`
      becomes `Fail(err.Item)`. The source's catch-all arm is unreachable for
      the two-case union and has no counterpart here. */
  ghost function ToResult<T(0)>(result: F.Result<T, Option<Exn>>): (r: Result<T>)
    ensures result.Success? ==> CastToValue(r) == Returned(result.item)
    ensures result.Failure? ==> r.error == result.reason && r.value == Default<T>()
    ensures result.Failure? && result.reason.Some? ==> CastToValue(r) == Threw(result.reason.value)
  {
    match result
    case Success(x) => Succeed(x)
    case Failure(err) => Fail<T>(err)
  }
}
