/** The usual optional value. */
module Options {
  datatype Option<+T> = None | Some(value: T) {
    function GetOr(default: T): T {
      if Some? then value else default
    }

    // Rust's `a.or(b)`: the first present value wins.
    function Or(other: Option<T>): Option<T> {
      if Some? then this else other
    }
  }
}
