/** Shapes of the JSON values exchanged with the two catalog services and
    written to the playlist data file. */
module Json {

  /** A value that may be JSON `null`. */
  datatype Option<+T> = None | Some(value: T)

  /** One key of a JSON object: absent, present with `null`, or present with
      a value. Python's `d.get(key, default)` tells the first two apart: the
      default replaces an absent key only, a `null` comes back as `None`. */
  datatype Field<+T> = Missing | Null | Present(value: T)

  /** `d.get(key, default)` on a string-valued key. */
  function GetOr(f: Field<string>, default: string): Option<string>
  {
    match f
    case Missing => Some(default)
    case Null => None
    case Present(s) => Some(s)
  }

  /** Python truthiness of `d.get(key)` on a string-valued key: present, not
      `null` and not the empty string. */
  predicate Truthy(f: Field<string>)
  {
    f.Present? && f.value != ""
  }

  /** Python truthiness of a nullable string. */
  predicate NonEmpty(s: Option<string>)
  {
    s.Some? && s.value != ""
  }
}
