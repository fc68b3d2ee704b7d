/** Shared result shapes. */
module Wrappers {

  datatype Option<+T> = None | Some(value: T)

  /** A column of an update: left alone, or written. */
  datatype Upd<+T> = Keep | Put(v: T)

  function ApplyUpd<T>(u: Upd<T>, was: T): T {
    if u.Put? then u.v else was
  }

  /** `dict.setdefault`: a written column wins over the default. */
  function OrDefault<T>(u: Upd<T>, default: T): Upd<T> {
    if u.Put? then u else Put(default)
  }

  predicate Distinct<T(==)>(s: seq<T>) {
    forall i, j | 0 <= i < j < |s| :: s[i] != s[j]
  }
}
