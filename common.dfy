/** Values shared by every layer: Java's nullable references and the two
    exceptions the user module raises. */
module Common {

  /** A nullable reference: `None` stands for Java's `null`. */
  datatype Option<+T> = None | Some(value: T)

  /** A `java.lang.String` reference, which may be null. */
  type JString = Option<string>

  /** The text `StringBuilder.append(String)` adds for a reference: the
      characters of the string, or the four letters "null" for null. */
  function Render(s: JString): (r: string)
    ensures s.Some? ==> r == s.value
    ensures s.None? ==> r == "null"
  {
    match s
    case None => "null"
    case Some(v) => v
  }

  /** The exceptions of the user module that callers observe. */
  datatype Failure =
    | UserNotFound      // com.daou.book.exception.UserNotFoundException
    | IllegalArgument   // java.lang.IllegalArgumentException

  /** A call that either returns a value or raises one of the exceptions. */
  datatype Result<+T> = Ok(value: T) | Err(failure: Failure)
}
