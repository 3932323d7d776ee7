/** The optional value used throughout the model. */
module Options {
  datatype Option<+T> = None | Some(value: T)
  {
    function GetOr(other: T): T {
      if Some? then value else other
    }
  }
}
