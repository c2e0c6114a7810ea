module Wrappers {
  datatype Option<+T> = None | Some(value: T)

  /** How one call to something outside goes: it works; it is lost; or it takes effect and
      still reports an error. */
  datatype Fault = Fine | Lost | Late
}
