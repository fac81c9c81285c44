/** Option, Result and the failures of the reader. Every exception the reader can
    throw becomes one `Error` value; the reader never catches, so an error always
    ends the whole read. */
module Results {

  datatype Option<+T> = None | Some(value: T)

  datatype Error =
    | InvalidNumberOfSteps  // hasMore/hasLess (and so step, back, peek) given a count <= 0
    | NoMoreStep            // step or back past either end of the input
    | InvalidValue          // a run of letters that is not true, false or null
    | NotAKey               // an object member that does not start with a string token
    | NoColon               // a key that is not followed by a colon
    | NotObject             // getObject called where neither '{' nor '[' comes next
    | InvalidSeparator      // an array element followed by neither ',' nor ']'
    | NullToken             // a member of a null token was read (a null reference)

  datatype Result<+T> = Success(value: T) | Failure(error: Error)
}
