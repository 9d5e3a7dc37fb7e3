/** Absent values and partial updates, as the TypeScript source expresses them with
    `undefined`/`null` and with `Partial<T>` objects merged by object spread. */
module Optional {

  /** A value that may be absent (`T | undefined` or `T | null`). */
  datatype Option<+T> = None | Some(value: T) {
    function GetOr(default: T): T {
      match this
      case Some(v) => v
      case None => default
    }
  }

  /** One property of a `Partial<T>` patch: either the key is not in the patch (`Keep`)
      or it is, with a value that overrides the old one when the patch is spread (`Set`). */
  datatype Field<+T> = Keep | Set(value: T) {
    /** The value after `{ ...previous, ...patch }`. */
    function Over(previous: T): T {
      match this
      case Set(v) => v
      case Keep => previous
    }
  }

  /** JavaScript truthiness of an optional string: present and not "". */
  predicate Truthy(s: Option<string>) {
    s.Some? && s.value != ""
  }

  /** `s || fallback` for an optional string. */
  function OrElse(s: Option<string>, fallback: string): (r: string)
    ensures Truthy(s) ==> r == s.value
    ensures !Truthy(s) ==> r == fallback
  {
    if Truthy(s) then s.value else fallback
  }
}
