/*
 * Errors and results of the luco library (include/error.hpp, include/expected.hpp).
 *
 * The library reports its own failures as a luco::error carrying an error_type
 * and a message; the model keeps the error_type and, for parse errors, the
 * (line, column) the parser points at, and drops the message text.
 * Four outcomes the C++ program can reach without reporting a luco::error
 * are named explicitly so that the model never has to guess a value for them.
 */
module LucoError {

  /** luco::error_type (include/error.hpp:40-48), `none` spelled NoError. */
  datatype ErrorType =
    | NoError
    | KeyNotFound
    | FilesystemError
    | ParsingError
    | ParsingErrorWrongType
    | WrongType
    | WrongeIndex

  /** Where a parse error points: a (line, column) pair, or nowhere. */
  datatype Where = Nowhere | At(line: nat, column: nat)

  datatype Error =
    /** a luco::error returned or thrown by the library */
    | Luco(kind: ErrorType, where: Where)
    /** std::stoll or std::stod threw (std::invalid_argument or std::out_of_range);
        inside the noexcept try_parse this ends the program through std::terminate */
    | StdException
    /** top() or pop() of an empty std::stack: undefined behaviour in C++ */
    | UndefinedBehaviour
    /** an assert() of the library fails (the library is built with its assertions on) */
    | AssertionFailure
    /** the loop of try_parse that can never finish */
    | Diverges

  /** expected<T, error> */
  datatype Result<T> = Ok(value: T) | Err(error: Error) {
    predicate IsFailure() { Err? }
    function PropagateFailure<U>(): Result<U> requires Err? { Err(error) }
    function Extract(): T requires Ok? { value }
  }

  /** The error the node and value accessors report for a value of the wrong kind. */
  const WrongTypeError: Error := Luco(WrongType, Nowhere)

  /** The error the keyed and indexed accessors report for a missing entry. */
  const KeyNotFoundError: Error := Luco(KeyNotFound, Nowhere)
}
