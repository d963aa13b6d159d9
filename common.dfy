/** Value wrappers shared by every module of the model. */
module Common {

  /** A JavaScript value that may be `null`/`undefined`. */
  datatype Option<T> = None | Some(value: T)

  /** The outcome of an operation that may throw: `Err` carries the exception message. */
  datatype Result<T> = Ok(value: T) | Err(message: string)

  /**
   * One property of a JavaScript partial object (`Partial<T>`, a spread argument):
   * either the key is not there, or it is there with a value.
   */
  datatype Field<T> = Absent | Present(value: T) {
    /** The value after `{ ...{k: current}, ...{k: this} }`. */
    function Or(current: T): T {
      if Present? then value else current
    }
  }

  /** An unsigned 8-bit value, as produced by `crypto.randomBytes`. */
  type byte = x: int | 0 <= x < 256

  /** JavaScript truthiness of a string that may be null: `null` and `""` are falsy. */
  predicate Truthy(s: Option<string>) {
    s.Some? && s.value != ""
  }

  /** `s || null` for a string: the empty string becomes null. */
  function NullIfEmpty(s: string): (r: Option<string>)
    ensures r.None? <==> s == ""
    ensures r.Some? ==> r.value == s
  {
    if s == "" then None else Some(s)
  }

  /** A set that is not empty has a member to pick. */
  lemma NonEmptyHasMember(s: set<int>)
    ensures s != {} ==> exists x :: x in s
  {
    if !(exists x :: x in s) {
      assert s == {};
    }
  }
}
