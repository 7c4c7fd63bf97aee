/** Values shared by the models of the role component, the credential merge and the dispatcher. */
module Common {

  /** A JavaScript value that may be missing: `None` stands for `undefined` or `null`. */
  datatype Option<+T> = None | Some(value: T) {

    /** The JavaScript `or(a, b)` default: the value when present, the fallback otherwise. */
    function GetOr(fallback: T): (r: T)
      ensures Some? ==> r == value
      ensures None? ==> r == fallback
    {
      match this
      case Some(v) => v
      case None => fallback
    }
  }

  /** JavaScript truthiness of an optional string: present and not the empty string. */
  predicate Truthy(s: Option<string>) {
    s.Some? && s.value != ""
  }

  /** `s.includes(sub)`: `sub` occurs in `s` at some position. */
  predicate Contains(s: string, sub: string) {
    exists i :: 0 <= i <= |s| && sub <= s[i..]
  }
}
