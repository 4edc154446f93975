/** Absent values and failed calls. */
module Options {
  datatype Option<+T> = None | Some(value: T) {
    function GetOr(fallback: T): T {
      if Some? then value else fallback
    }
  }

  datatype Result<+T> = Ok(value: T) | Err
}
