/** Stand-ins for the .NET pieces the library relies on: exception objects,
    nullable references, and the outcome of a call that may throw. */
module Exceptions {

  /** An exception object, known only by its identity. */
  datatype Exn = Exn(id: nat)

  /** A nullable reference; `None` is `null`. */
  datatype Option<+T> = None | Some(value: T)

  /** What calling a delegate that may throw gives back: either it returns a
      value, or it throws a (non-null) exception. */
  datatype Try<+U> = Returned(value: U) | Threw(exn: Exn)
}
