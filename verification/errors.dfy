/** The parse-related variants of `AmuriError` (src/errors.rs). */
module Errors {
  import opened Nom

  datatype AmuriError =
      /** A version value that is not a keyword and not a `u16`. */
    | StrToIntError(target: string)
      /** `Level::from_str` failed on this input. */
    | LevelParsingFailure(input: string)
      /** Any other grammar failure; the source keeps the nom error's debug
          text, the model keeps the nom error itself. */
    | UriParsingError(causeRest: string, causeKind: ErrorKind)
      /** A segment that should start with a letter does not. */
    | UriNonAlphaParsingError(problem: string, location: string)
      /** A segment ends in `_` where that is not allowed. */
    | UriUnexpectedUnderscoreParsingError(processed: string, remaining: string)
}
