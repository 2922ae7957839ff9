/** Optional values and the JavaScript truthiness rules the adapter relies on.

    The TypeScript source leans on `undefined` and on truthiness tests
    (`if (s)`, `limit ? … : …`). Both are written out here: an absent value is
    `None`, and "truthy" is a predicate of its own for each kind of value.
 */
module Opt {

  /** A value that may be absent (`undefined` or `null` in the source). */
  datatype Option<+T> = None | Some(value: T) {

    /** The encapsulated value, or `default` when absent (`x ?? default`, `x || []`). */
    function GetOr(default: T): T {
      match this
      case Some(v) => v
      case None => default
    }
  }

  /** JavaScript truthiness of an optional string: present and not `""`. */
  predicate NonEmpty(s: Option<string>) {
    s.Some? && |s.value| > 0
  }

  /** JavaScript truthiness of an optional boolean: present and `true`. */
  predicate IsTrue(b: Option<bool>) {
    b == Some(true)
  }

  /** Length of an optional array, `0` when absent (`xs?.length` read as a number). */
  function Length<T>(xs: Option<seq<T>>): nat {
    if xs.Some? then |xs.value| else 0
  }
}
