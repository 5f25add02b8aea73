/** Definitions that several models share. */
module Common {
  datatype Option<+T> = None | Some(value: T)

  /** The pieces one after the other. */
  ghost function Flat<T>(a: seq<seq<T>>): seq<T> {
    if a == [] then [] else a[0] + Flat(a[1..])
  }
}
