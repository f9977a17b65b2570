/** Stand-ins for the F# types the library imports (`SFX.ROP.Types`): the
    `Unit` marker and the two-case union `Result<'T, 'E>`. Only their shape is
    modelled. */
module SfxRopTypes {

  /** The zero-information success marker; its one value is `Unit.Value`. */
  datatype Unit = Value

  /** The F# tagged union `Success of 'T | Failure of 'E`. */
  datatype Result<+T, +E> = Success(item: T) | Failure(reason: E)
}
