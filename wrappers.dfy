/** Failure-carrying return values shared by every module of the model.
    Go's `(value, error)` pairs become `Result`; a reference that may be nil
    becomes `Option`; a slice whose nil-ness the source distinguishes from an
    empty slice becomes `GoSlice`. */
module Wrappers {

  datatype Option<+T> = None | Some(value: T)

  /** `Err` carries the text of the Go error value. */
  datatype Result<+T> = Ok(value: T) | Err(msg: string)

  /** A Go slice as the JSON encoder sees it: `Nil` renders as `null`,
      `Slice([])` as `[]`. */
  datatype GoSlice<+T> = Nil | Slice(elems: seq<T>) {
    function Elems(): seq<T> {
      match this
      case Nil => []
      case Slice(s) => s
    }
  }

  /** The slice that appending the elements of `s` to a nil slice, one
      `append` at a time, leaves: still nil when `s` is empty. */
  function Appended<T>(s: seq<T>): (r: GoSlice<T>)
    ensures r.Elems() == s
    ensures r.Nil? <==> s == []
  {
    if s == [] then Nil else Slice(s)
  }
}
