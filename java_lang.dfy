/** Java-language notions the worker's code relies on: `String` references
    that may be `null`, how `+` prints them, the exception families the
    worker's handlers tell apart, and the range of `long`. */
module JavaLang {

  datatype Option<+T> = None | Some(value: T)

  /** A Java `String` reference; `None` stands for `null`. */
  type Nullable = Option<string>

  /** `String.valueOf(s)`, which string concatenation applies to a reference:
      `null` is printed as the four characters "null". */
  function Show(s: Nullable): string
  {
    match s
    case None => "null"
    case Some(t) => t
  }

  /** An exception as the worker's `catch` clauses see it: its family and
      its `getMessage()`. */
  datatype Thrown =
    | IOException(message: Nullable)      // java.io.IOException and its subclasses
    | RuntimeException(message: Nullable) // unchecked exceptions
    | OtherChecked(message: Nullable)     // other checked exceptions, such as InterruptedException

  /** The outcome of a call into a collaborator: a value or an exception. */
  datatype Attempt<+T> = Returned(value: T) | Threw(ex: Thrown)

  const LongMin: int := -0x8000_0000_0000_0000
  const LongMax: int := 0x7FFF_FFFF_FFFF_FFFF

  /** Java's 64-bit `long`. */
  type Long = x: int | LongMin <= x <= LongMax
}
