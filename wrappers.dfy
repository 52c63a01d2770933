/** The optional value that stands for TypeScript's `T | null | undefined`. */
module Wrappers {

  datatype Option<+T> = None | Some(value: T) {

    /** The value when present, otherwise `default` (TypeScript's `??`). */
    function GetOr(default: T): T {
      match this
      case Some(v) => v
      case None => default
    }
  }

  /** `!!s` for an optional string: present and non-empty. */
  predicate Present(s: Option<string>) {
    s.Some? && s.value != ""
  }
}
