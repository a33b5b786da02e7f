/** Nullable values of the viewer: a C# reference that may be null. */
module Options {
  datatype Option<T> = None | Some(value: T)

  /** The value, or a default when there is none (C#'s `??`). */
  function GetOr<T>(o: Option<T>, default: T): T
  {
    match o
    case Some(v) => v
    case None => default
  }
}
