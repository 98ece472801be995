// Types shared by every component.
module Common {
  // A UUID; Nil is uuid.Nil.
  type Id = nat

  const Nil: Id := 0

  datatype Option<+T> = None | Some(value: T)

  datatype Result<+T, +E> = Ok(value: T) | Err(error: E)
}
