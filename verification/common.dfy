/** Small datatypes shared by every component of the model. */
module Common {
  datatype Option<+T> = None | Some(value: T)

  /** A value, or one of the errors the source throws. */
  datatype Result<+T, +E> = Ok(value: T) | Err(error: E)

  function Max(a: int, b: int): int {
    if a < b then b else a
  }

  function Last<T>(s: seq<T>): T
    requires s != []
  {
    s[|s| - 1]
  }

  /** What one file-system call does: it may throw or the process may die, before or after it took effect. */
  datatype Fault = Works | Throws | ThrowsLate | Dies | DiesLate

  /** How a call ended for its caller. */
  datatype Fate = Ran | Threw | Died

  function TookEffect(f: Fault): bool { f == Works || f == ThrowsLate || f == DiesLate }

  function FateOf(f: Fault): Fate {
    match f
    case Works => Ran
    case Throws => Threw
    case ThrowsLate => Threw
    case Dies => Died
    case DiesLate => Died
  }
}
