/**
  Values as the component sees them in JavaScript: a property that may be
  missing, and the truthiness tests `x && y` and `x || fallback` apply to it.
 */
module JsValues {

  /** A property that may be absent from a JSON object (`undefined`). */
  datatype Option<+T> = None | Some(value: T) {

    /** The value when present, otherwise `fallback` (`x || fallback` for an object-valued `x`). */
    function GetOr(fallback: T): T {
      match this
      case Some(v) => v
      case None => fallback
    }
  }

  /**
    JavaScript truthiness of an optional number: present and non-zero.
    Coordinates are only tested and copied, so they are integers here;
    `NaN`, the other falsy number, has no counterpart.
   */
  predicate Truthy(x: Option<int>) {
    x.Some? && x.value != 0
  }

  /** JavaScript truthiness of an optional string: present and non-empty. */
  predicate TruthyText(s: Option<string>) {
    s.Some? && s.value != ""
  }
}
