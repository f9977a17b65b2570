/** Stand-in for `ROP.Bridge.Result<T>`, the representation the bridge cast
    converts into. Only its two fields are modelled. */
module RopBridge {
  import opened Exceptions

  datatype Result<T> = Result(value: T, error: Option<Exn>)
}
