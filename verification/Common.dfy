// Values shared by every module: options, outcomes, row ids and instants.
module Common {

  datatype Option<+T> = None | Some(value: T) {
    function GetOr(default: T): T {
      match this
      case Some(v) => v
      case None => default
    }
  }

  datatype Outcome<+T, +E> = Ok(value: T) | Err(error: E)

  // Row ids (ULIDs) compare as big-endian byte strings, that is as numbers.
  type Id = nat

  // Instants and durations, in nanoseconds.
  type Time = int

  // An error of a step; retrying cannot fix a permanent one.
  datatype Failure = Failure(permanent: bool, message: string)

  function Min(a: int, b: int): int {
    if a <= b then a else b
  }

  function Max(a: int, b: int): int {
    if a <= b then b else a
  }
}
