/** The optional-value datatype used throughout the model: JavaScript's
    `undefined` / absent property is `None`. */
module Wrappers {

  datatype Option<+T> = None | Some(value: T) {

    /** The carried value, or `default` when there is none. */
    function GetOr(default: T): T {
      match this
      case Some(v) => v
      case None => default
    }

    /** `other` when it is present, this value otherwise: how a property of a
        spread object (`{...base, ...other}`) is resolved. */
    function OverriddenBy(other: Option<T>): Option<T> {
      if other.Some? then other else this
    }
  }

  /** JavaScript truthiness of an optional string: present and non-empty. */
  predicate Truthy(s: Option<string>) {
    s.Some? && s.value != ""
  }
}
