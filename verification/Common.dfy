/** Small types shared by every component of the model. */
module Common {
  /** An optional column or argument (`NULL` / `None` in the source). */
  datatype Option<+T> = None | Some(value: T)
  {
    function GetOr(default: T): T {
      if Some? then value else default
    }
  }

  /** The exceptions of the source as values. */
  datatype Result<+T, +E> = Ok(value: T) | Err(error: E)

  /** A UTC instant, in microseconds. Clock readings are arbitrary values of this type. */
  type Time = int

  function Seconds(n: int): Time {
    n * 1_000_000
  }

  /** The exact identity of a feature view: its name and its semantic version. */
  datatype ViewRef = ViewRef(name: string, version: string)
}
