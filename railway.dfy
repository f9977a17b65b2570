/** Laws of the `Library` combinators, and of chains of transform binds, the
    "railway" that the library exists to build: once a step fails, every later
    step is skipped and the first exception reaches the end unchanged. */
module Railway {
  import opened Exceptions
  import opened SfxRopCSharp
  import opened Library

  // ----- Bind as a monad over Result -----

  /** Bind on a success hands the value to `f` and returns exactly `f`'s result. */
  lemma BindLeftIdentity<T(!new), U(0)>(f: T -> Result<U>, v: T)
    ensures Bind(f)(Succeed(v)) == f(v)
  {
  }

  /** Bind on a failure returns the same exception and does not depend on
      `f`: `f` is never invoked. */
  lemma BindShortCircuits<T(!new, 0), U(0)>(f: T -> Result<U>, g: T -> Result<U>, e: Exn)
    ensures Bind(f)(Fail<T>(Some(e))) == Fail<U>(Some(e))
    ensures Bind(f)(Fail<T>(Some(e))) == Bind(g)(Fail<T>(Some(e)))
  {
  }

  /** Because success is derived from a null error, `Fail(null)` goes down the
      success track: Bind runs `f` on the default value. */
  lemma BindRunsOnNullFail<T(!new, 0), U(0)>(f: T -> Result<U>)
    ensures Bind(f)(Fail<T>(None)) == f(Default<T>())
  {
  }

  /** Binding `Succeed` gives back the input only when nothing is lost: a
      failure comes back with its value reset to the default. */
  lemma BindRightIdentity<T(!new, 0)>(x: Result<T>)
    ensures Bind((v: T) => Succeed(v))(x) == x <==> IsSuccess(x) || x.value == Default<T>()
  {
  }

  /** Every result the library builds, with `Succeed` or `Fail`, comes back
      unchanged from binding `Succeed`. */
  lemma BindSucceedKeepsBuiltResults<T(!new, 0)>(v: T, error: Option<Exn>)
    ensures Bind((u: T) => Succeed(u))(Succeed(v)) == Succeed(v)
    ensures Bind((u: T) => Succeed(u))(Fail<T>(error)) == Fail<T>(error)
  {
  }

  /** Binding twice is binding once with the composed step. */
  lemma BindAssociative<T(!new), U(!new, 0), V(0)>(f: T -> Result<U>, g: U -> Result<V>, x: Result<T>)
    ensures Bind(g)(Bind(f)(x)) == Bind((v: T) => Bind(g)(f(v)))(x)
  {
  }

  /** A switched total function binds like a map over the success track. */
  lemma BindOfSwitch<T(!new, 0), U(0)>(f: T -> U, x: Result<T>)
    ensures IsSuccess(x) ==> Bind(Switch(f))(x) == Succeed(f(x.value))
    ensures !IsSuccess(x) ==> Bind(Switch(f))(x) == Fail<U>(x.error)
  {
  }

  // ----- Either -----

  /** Either calls exactly one handler: the result does not depend on the
      handler for the other track. */
  lemma EitherCallsOneHandler<T, U>(x: Result<T>, s1: T -> U, s2: T -> U, e1: Exn -> U, e2: Exn -> U)
    ensures IsSuccess(x) ==> Either(x, s1, e1) == Either(x, s1, e2)
    ensures !IsSuccess(x) ==> Either(x, s1, e1) == Either(x, s2, e1)
  {
  }

  /** The same for the action form: only one handler acts on the world. */
  lemma EitherActionRunsOneHandler<T, W>(x: Result<T>, s1: T -> W -> W, s2: T -> W -> W,
                                         e1: Exn -> W -> W, e2: Exn -> W -> W, w: W)
    ensures IsSuccess(x) ==> EitherAction(x, s1, e1, w) == EitherAction(x, s1, e2, w)
    ensures !IsSuccess(x) ==> EitherAction(x, s1, e1, w) == EitherAction(x, s2, e1, w)
  {
  }

  // ----- TryCatch -----

  /** Lifting a throwing producer with the handler that keeps the exception,
      then casting back to the value, gives exactly what the producer did:
      its value, or the very exception it threw. */
  lemma TryCatchThenCast<T(0)>(f: () -> Try<T>)
    ensures CastToValue(TryCatchProducer(f, (e: Exn) => Some(e))()) == f()
  {
  }

  /** A handler that answers `null` turns a throw into a success carrying the
      default value. */
  lemma TryCatchNullHandlerSucceeds<T(0)>(f: () -> Try<T>, e: Exn)
    requires f() == Threw(e)
    ensures IsSuccess(TryCatchProducer(f, (error: Exn) => None)())
    ensures TryCatchProducer(f, (error: Exn) => None)().value == Default<T>()
  {
  }

  /** When the action returns normally, the action form of TryCatch does not
      depend on the handler: the handler is not called. */
  lemma TryCatchActionSkipsHandlerOnReturn<T(!new), W(!new)>(f: T -> W -> (W, Option<Exn>),
                                                             h1: Exn -> W -> W, h2: Exn -> W -> W,
                                                             x: T, w: W)
    requires f(x)(w).1.None?
    ensures TryCatchAction(f, h1)(x)(w) == TryCatchAction(f, h2)(x)(w) == f(x)(w).0
  {
  }

  /** When the action throws `e`, the handler acts on exactly `e`, after the
      action's partial effects, and its effect is all that follows. */
  lemma TryCatchActionHandlesThrown<T(!new), W(!new)>(f: T -> W -> (W, Option<Exn>),
                                                      h: Exn -> W -> W, x: T, w: W, e: Exn)
    requires f(x)(w).1 == Some(e)
    ensures TryCatchAction(f, h)(x)(w) == h(e)(f(x)(w).0)
  {
  }

  /** A handler that answers `null` in the transform form gives a success
      whose cast returns null, `default(U)` for the exception type `U`. */
  lemma TryCatchNullHandlerReturnsNull<T(!new)>(f: T -> Try<Option<Exn>>, x: T, e: Exn)
    requires f(x) == Threw(e)
    ensures IsSuccess(TryCatch(f, (error: Exn) => None)(x))
    ensures CastToValue(TryCatch(f, (error: Exn) => None)(x)) == Returned(None)
  {
  }

  // ----- Chains of binds -----

  /** The railway: each step is joined to the next with transform Bind. */
  ghost function Chain<T(!new, 0)>(steps: seq<T -> Result<T>>, x: Result<T>): Result<T>
    decreases |steps|
  {
    if steps == [] then x else Chain(steps[1..], Bind(steps[0])(x))
  }

  /** A failure entering a chain leaves it unchanged, whatever the steps. */
  lemma {:induction false} ChainShortCircuits<T(!new, 0)>(steps: seq<T -> Result<T>>, e: Exn)
    ensures Chain(steps, Fail<T>(Some(e))) == Fail<T>(Some(e))
    decreases |steps|
  {
    if steps != [] {
      ChainShortCircuits(steps[1..], e);
    }
  }

  /** Running two chains one after the other is running their concatenation. */
  lemma {:induction false} ChainAppend<T(!new, 0)>(first: seq<T -> Result<T>>,
                                                   second: seq<T -> Result<T>>, x: Result<T>)
    ensures Chain(first + second, x) == Chain(second, Chain(first, x))
    decreases |first|
  {
    if first == [] {
      assert first + second == second;
    } else {
      assert (first + second)[1..] == first[1..] + second;
      ChainAppend(first[1..], second, Bind(first[0])(x));
    }
  }

  /** The first failure is what comes out at the end: if the first `k` steps
      end in failure with `e`, so does the whole chain. */
  lemma ChainFirstFailureWins<T(!new, 0)>(steps: seq<T -> Result<T>>, k: nat, x: Result<T>, e: Exn)
    requires k <= |steps|
    requires Chain(steps[..k], x) == Fail<T>(Some(e))
    ensures Chain(steps, x) == Fail<T>(Some(e))
  {
    assert steps == steps[..k] + steps[k..];
    ChainAppend(steps[..k], steps[k..], x);
    ChainShortCircuits(steps[k..], e);
  }

  /** Applies total functions one after the other. */
  function Compose<T>(fs: seq<T -> T>, v: T): T
    decreases |fs|
  {
    if fs == [] then v else Compose(fs[1..], fs[0](v))
  }

  /** Each total function lifted with `Switch`. */
  function Switched<T(!new)>(fs: seq<T -> T>): (steps: seq<T -> Result<T>>)
    ensures |steps| == |fs|
    decreases |fs|
  {
    if fs == [] then [] else [Switch(fs[0])] + Switched(fs[1..])
  }

  /** A chain of switched total functions never leaves the success track, and
      carries their composition. */
  lemma {:induction false} ChainOfSwitches<T(!new, 0)>(fs: seq<T -> T>, v: T)
    ensures Chain(Switched(fs), Succeed(v)) == Succeed(Compose(fs, v))
    decreases |fs|
  {
    if fs != [] {
      assert Switched(fs)[1..] == Switched(fs[1..]);
      BindOfSwitch(fs[0], Succeed(v));
      ChainOfSwitches(fs[1..], fs[0](v));
    }
  }
}
