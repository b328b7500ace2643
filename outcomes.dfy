/** How a call of the modelled Java code ends. */
module Outcomes {

  datatype Option<+T> = None | Some(value: T)

  /** The Java exceptions that can leave the template interpreter. */
  datatype Exception =
    | MissingFunction(name: string) // IllegalArgumentException("missing function " + name)
    | NoSuchElement                 // StringTokenizer.nextToken on an exhausted tokenizer
    | IndexOutOfBounds              // List.get with an index past the end of the scopes list
    | StringIndexOutOfBounds        // String.substring(1, 0) on the one-character token "
    | NumberFormat                  // Integer.parseInt on something that is not a 32-bit number
    | ClassCast                     // a binding where a String is expected
    | IllegalArgument               // Random.nextInt with a bound that is not positive
    | StackOverflow                 // recursion deeper than the call stack allows

  /** A call ends normally, with BufferOverflowException, or with another exception. */
  datatype Status = Done | Overflow | Thrown(e: Exception)
}
