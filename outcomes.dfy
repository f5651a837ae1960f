/** Optional values, results, and the Java exceptions that the modelled code can raise. */
module Outcomes {

  /** `None` stands for Java's `null`. */
  datatype Option<+T> = None | Some(value: T) {
    function GetOr(default: T): T {
      match this
      case Some(v) => v
      case None => default
    }
  }

  /** The exceptions thrown by the modelled code paths. */
  datatype Exception =
    | IndexOutOfBounds        // ArrayIndexOutOfBoundsException
    | NumberFormat            // NumberFormatException from Integer.valueOf / Double.valueOf
    | Instantiation           // Class.newInstance failed
    | DuplicateAlias(name: string)  // the "The<name>is exist!" exception of doInstance
    | IllegalArgument         // Field.set with a value the field cannot hold
    | InvocationFailed        // Method.invoke threw

  /** Either a value or the exception that was thrown instead. */
  datatype Result<+T> = Ok(value: T) | Err(error: Exception)
}
