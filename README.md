# SFX.ROP in Dafny: the railway-oriented `Result` and its combinators

This project models the C# core of SFX.ROP, a small railway-oriented
programming library. An outcome `Result<T>` holds a `Value` and a nullable
`Error`. It is a success exactly when `Error` is null. The `Library` class
builds outcomes (`Succeed`, `Fail`), eliminates them (`Either`), sequences
them (`Bind`), lifts total functions (`Switch`) and throwing functions
(`TryCatch`), and converts the F# `Success`/`Failure` union into the outcome
type (`ToResult`).

Modules, one per declaration:

- `Exceptions` (exceptions.dfy): exception objects (`Exn`, known by identity),
  nullable references (`Option`, where `None` is `null`) and the outcome of a
  call that may throw (`Try`).
- `SfxRopTypes` (fsharp_types.dfy) and `RopBridge` (bridge.dfy): shape-only
  stand-ins for the F# `Unit` and `Result<'T, 'E>` types and for
  `ROP.Bridge.Result<T>`. Their source is not part of this model.
- `SfxCsrop` (csrop_result.dfy): `Result<T>` from src/ROP.CSharp/Result.cs.
  Its deconstructor order is (success, value, error), and it has the bridge cast.
- `SfxRopCSharp` (types_result.dfy): `Result<T>` from
  src/ROP.CSharp.Types/Result.cs. Its deconstructor order is (success, error,
  value). This is the declaration `Library` uses.
- `Library` (library.dfy): the combinators from src/ROP.CSharp/Library.cs.
- `Railway` (railway.dfy): laws relating the combinators. It also covers chains
  of transform binds: a failure short-circuits the rest of the chain, and the
  first exception reaches the end unchanged.

How the model represents C#:

- C#'s `default(T)` is `Library.Default<T>()`, one fixed value per type. It is
  a ghost function, so every combinator that calls `Fail` is a ghost function.
  The model does not say which value it is: it does not know that `default`
  of a reference type is null or that `default(int)` is 0. Only
  `Library.FailReference`, which stands for `Fail<U>` at a reference type
  `U`, fixes the value to null.
- A `Func` delegate is a Dafny arrow. A `Func` that may throw returns a `Try`.
- An `Action` delegate is an arrow that takes the world `W` and returns the new
  world. The error handler of the action form of `TryCatch` is a `Func`
  whose result is discarded, so it is modelled by its effect on the world too. A throwing `Action` also reports the exception it threw. Effects made
  before the throw are kept.
- "The handler is never invoked" is stated as independence: the result is the
  same whatever that handler is.
- The C# overloads get one name per shape: `...Action`, `...Producer`, and the
  plain name for the transform shape.
- The implicit casts are explicit functions: `CastToValue` and `CastToBridge`.
- Both `Result<T>` types are immutable, because `Value` and `Error` are
  get-only. Dafny datatypes are immutable too.

Some behaviours of the code are surprising; the model keeps them as written:

- Success is derived from `Error is null`, and the code does not check
  `Fail`'s argument. So `Fail(null)` is a success with the default value
  (`Library.Fail`, `Railway.BindRunsOnNullFail`).
- A `TryCatch` handler that returns null likewise produces a success
  (`Railway.TryCatchNullHandlerSucceeds`). In the transform form that success
  carries null, `default(U)` for `U : Exception`
  (`Railway.TryCatchNullHandlerReturnsNull`).
- Binding `Succeed` gives back every result the library builds with
  `Succeed` or `Fail` (`Railway.BindSucceedKeepsBuiltResults`). It changes a
  result only if that result holds both an error and a non-default value.
  Only the internal constructor can build such a result
  (`Railway.BindRightIdentity`).
- The producer `Bind` just runs its producer (`Library.BindProducer`).

## Model

| member | source | states |
|---|---|---|
| SfxCsrop.ConstructorRoundTrip | src/ROP.CSharp/Result.cs:20-21 | the constructor stores value and error unchanged: deconstructing gives them back with success = error is null, and the cast returns the value or throws exactly that error |
| SfxCsrop.Deconstruct | src/ROP.CSharp/Result.cs:38-39 | the success flag is true iff Error is null, and (value, error) rebuild the very same result (nothing is lost) |
| SfxCsrop.CastToValue | src/ROP.CSharp/Result.cs:45-50 | the cast returns iff the result is a success, and then returns Value; otherwise it throws the stored Error object itself |
| SfxCsrop.CastToBridge | src/ROP.CSharp/Result.cs:52-53 | the bridge copy has the same Value and Error and is a success exactly when the source is; it is total |
| SfxCsrop.BridgeIsLossless | src/ROP.CSharp/Result.cs:52-53 | two results are equal iff their bridged copies are equal: the conversion is lossless |
| SfxRopCSharp.ConstructorRoundTrip | src/ROP.CSharp.Types/Result.cs:23-24 | the constructor stores value and error unchanged: deconstructing gives (error is null, error, value), and the cast returns the value or throws exactly that error |
| SfxRopCSharp.Deconstruct | src/ROP.CSharp.Types/Result.cs:41-42 | in the order (success, error, value): the flag is true iff Error is null, and (value, error) rebuild the same result |
| SfxRopCSharp.CastToValue | src/ROP.CSharp.Types/Result.cs:48-53 | the cast returns iff Error is null, and then returns Value; otherwise it throws exactly the stored Error |
| Library.Succeed | src/ROP.CSharp/Library.cs:18-19 | Succeed(v) deconstructs as (true, null, v), and casting it returns v |
| Library.Fail | src/ROP.CSharp/Library.cs:27-28 | Fail(e) holds e and the default value; it is a success iff e is null; casting it throws e itself, or returns the default when e is null |
| Library.EitherAction | src/ROP.CSharp/Library.cs:40-46 | on a success the new world is the success handler's effect on Value; on a failure it is the error handler's effect on the stored, non-null Error |
| Library.EitherUnit | src/ROP.CSharp/Library.cs:56-62 | on a success the result is the argument-less success handler's; on a failure it is the error handler's on the stored Error |
| Library.Either | src/ROP.CSharp/Library.cs:73-79 | on a success the result is successHandler(Value); on a failure it is errorHandler applied to the stored, non-null Error |
| Library.BindAction | src/ROP.CSharp/Library.cs:83-84 | the bound action runs f on Value for a success; for a failure the world is unchanged and the error is dropped |
| Library.BindProducer | src/ROP.CSharp/Library.cs:86-87 | the bound producer always returns exactly what f returns |
| Library.Bind | src/ROP.CSharp/Library.cs:89-90 | for every input, a success gives f(Value) and a failure gives Fail with the same Error |
| Library.SwitchAction | src/ROP.CSharp/Library.cs:94-99 | the lifted action always reports a success, and its effect on the world is f's |
| Library.SwitchProducer | src/ROP.CSharp/Library.cs:101-102 | the lifted producer is always a success whose cast returns f() |
| Library.Switch | src/ROP.CSharp/Library.cs:104-105 | for every x the lifted function is a success whose cast returns f(x) |
| Library.TryCatchAction | src/ROP.CSharp/Library.cs:109-121 | a normal return leaves the world as the action left it; a throw of e hands exactly e to the handler, which acts on the world after the action's partial effects; nothing escapes |
| Library.TryCatchProducer | src/ROP.CSharp/Library.cs:123-135 | a normal return v gives a success carrying v; a throw of e gives Fail(errorHandler(e)), with the handler applied to exactly e |
| Library.FailReference | src/ROP.CSharp/Library.cs:27-28 | Fail<U> for a reference type U deconstructs as (error is null, error, null) for every error: it holds the error and default(U) = null; it is a success iff the error is null, its cast then returns null, and otherwise it throws the error itself |
| Library.TryCatch | src/ROP.CSharp/Library.cs:137-149 | for every x, a normal return v gives a success carrying v; a throw of e gives errorHandler(e) as Error and null, default(U) for U : Exception, as Value |
| Library.ToResult | src/ROP.CSharp/Library.cs:152-158 | Success x casts back to x.Item; Failure err carries err.Item as Error with the default value, and its cast throws that exception |
| Railway.BindLeftIdentity | src/ROP.CSharp/Library.cs:89-90 | binding f over Succeed(v) is exactly f(v) |
| Railway.BindShortCircuits | src/ROP.CSharp/Library.cs:89-90 | binding over Fail(e) gives Fail(e) with the same e, and the result is the same for any f, so f is never invoked |
| Railway.BindRunsOnNullFail | src/ROP.CSharp/Library.cs:89-90 | binding over Fail(null) runs f on the default value |
| Railway.BindRightIdentity | src/ROP.CSharp/Library.cs:89-90 | binding Succeed returns its input iff the input is a success or already holds the default value |
| Railway.BindSucceedKeepsBuiltResults | src/ROP.CSharp/Library.cs:89-90 | binding Succeed returns Succeed(v) and Fail(e) unchanged, for every v and every e, null included |
| Railway.BindAssociative | src/ROP.CSharp/Library.cs:89-90 | binding f and then g equals binding once with the composed step |
| Railway.BindOfSwitch | src/ROP.CSharp/Library.cs:104-105 | binding a switched f maps a success to Succeed(f(Value)) and keeps a failure's Error |
| Railway.EitherCallsOneHandler | src/ROP.CSharp/Library.cs:73-79 | the result never depends on the handler for the other track |
| Railway.EitherActionRunsOneHandler | src/ROP.CSharp/Library.cs:40-46 | only the handler of the result's own track acts on the world |
| Railway.TryCatchThenCast | src/ROP.CSharp/Library.cs:123-135 | lifting a throwing producer with the handler that keeps the exception and then casting back gives exactly the producer's return or its thrown exception |
| Railway.TryCatchNullHandlerSucceeds | src/ROP.CSharp/Library.cs:123-135 | if the handler returns null for the thrown exception, the outcome is a success carrying the default value |
| Railway.TryCatchActionSkipsHandlerOnReturn | src/ROP.CSharp/Library.cs:109-121 | when the action returns normally, the outcome is the action's world and does not depend on the handler |
| Railway.TryCatchActionHandlesThrown | src/ROP.CSharp/Library.cs:109-121 | when the action throws e, the outcome is the handler's effect on exactly e, applied to the world the action left |
| Railway.TryCatchNullHandlerReturnsNull | src/ROP.CSharp/Library.cs:137-149 | in the transform form, a handler that returns null gives a success whose cast returns null |
| Railway.ChainShortCircuits | src/ROP.CSharp/Library.cs:89-90 | a failure entering any chain of binds comes out unchanged |
| Railway.ChainAppend | src/ROP.CSharp/Library.cs:89-90 | a chain of binds over first + second equals the second chain run on the first chain's result |
| Railway.ChainFirstFailureWins | src/ROP.CSharp/Library.cs:89-90 | if a prefix of a chain ends in Fail(e), the whole chain ends in the same Fail(e) |
| Railway.ChainOfSwitches | src/ROP.CSharp/Library.cs:104-105 | a chain of switched total functions started from Succeed(v) ends in Succeed of their composition applied to v |

## Left out

- Exceptions thrown by the delegates passed to `Either`, `Bind` and `Switch`, and by a `TryCatch` error handler: the model treats these delegates as total. In C# such an exception propagates to the caller.
- Side effects of `Func` delegates: only `Action` delegates and the discarded-result handler of `Library.TryCatchAction` act on the world `W`.
- `Library.TryCatch`, `Library.TryCatchProducer`: the handler's result type `U : Exception` is represented by its upcast to a nullable exception, so subclasses of `Exception` are not distinguished.
- `Library.ToResult`: the catch-all arm, which builds a fresh `Exception`, has no counterpart. It cannot match either case of the two-case union. It could only be reached through a null union reference passed from C#, which the model does not represent.
- The unused type parameter `U` of `Switch<T, U>(Action<T>)`: a typing artefact with no behaviour.
- Conversion from `ROP.Bridge.Result<T>` back to `SFX.CSROP.Result<T>`: no such conversion is part of this model. `SfxCsrop.BridgeIsLossless` states injectivity instead of a round trip.
- The behaviour of `ROP.Bridge.Result<T>` and of the F# `Result<'T, 'E>` and `Unit` beyond their fields: these types are not part of this model.
- Implicit conversion syntax, `internal` visibility, `InternalsVisibleTo`, namespaces and doc comments: they have no behaviour.
