/** Small result types shared by the models. */
module Common {

  datatype Option<+T> = None | Some(value: T)

  datatype Result<+T, +E> = Ok(value: T) | Err(error: E)

  predicate IsAscii(s: string) {
    forall i :: 0 <= i < |s| ==> s[i] as int < 128
  }

  /** A Python string that may be absent counts as true when present and not empty. */
  predicate Truthy(v: Option<string>) {
    v.Some? && v.value != ""
  }
}
