/** A pointer or handle that may be absent, and a search that may fail. */
module Options {
  datatype Option<+T> = None | Some(value: T) {
    function Or(otherwise: T): T {
      if Some? then value else otherwise
    }
  }
}
