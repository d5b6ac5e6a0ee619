/**
 * The error taxonomy: `PromptManagerError` with its code, the normalisation of
 * anything thrown into one, and the user-facing message for each.
 */
module Errors {
  import opened Wrappers

  datatype ErrorCode =
    | StorageReadFailed
    | StorageWriteFailed
    | PromptNotFound
    | ValidationFailed
    | ClipboardFailed
    | CursorMoveFailed
    | Unknown

  /**
   * A thrown value: a `PromptManagerError` (an `Error` with a code and an
   * optional cause), any other `Error` (only its message matters here), or a
   * value that is not an `Error` at all, given by its `String(...)` rendering.
   */
  datatype Thrown =
    | PromptManagerError(message: string, code: ErrorCode, cause: Option<Thrown>)
    | PlainError(message: string)
    | NonError(text: string)

  /** `error instanceof Error`. */
  predicate IsError(e: Thrown)
  {
    !e.NonError?
  }

  /**
   * `toPromptManagerError`: a `PromptManagerError` passes through whatever the
   * default code; anything else is wrapped with the default code and itself
   * as the cause, keeping an `Error`'s message or rendering another value.
   */
  function ToPromptManagerError(error: Thrown, defaultCode: ErrorCode): (r: Thrown)
    ensures r.PromptManagerError?
    ensures error.PromptManagerError? ==> r == error
    ensures !error.PromptManagerError? ==> r.code == defaultCode && r.cause == Some(error)
    ensures error.PlainError? ==> r.message == error.message
    ensures error.NonError? ==> r.message == error.text
  {
    match error
    case PromptManagerError(_, _, _) => error
    case PlainError(m) => PromptManagerError(m, defaultCode, Some(error))
    case NonError(t) => PromptManagerError(t, defaultCode, Some(error))
  }

  /** The fixed message for each code; a validation error shows its own message instead. */
  function CodeMessage(code: ErrorCode): string
  {
    match code
    case StorageReadFailed => "Failed to load data. Please try again."
    case StorageWriteFailed => "Failed to save data. Please check your storage."
    case PromptNotFound => "Prompt not found. It may have been deleted."
    case ValidationFailed => ""
    case ClipboardFailed => "Failed to access clipboard. Please check permissions."
    case CursorMoveFailed => "Failed to move cursor. Text was pasted successfully."
    case Unknown => "An unexpected error occurred."
  }

  /**
   * `getErrorMessage`: an `Error`'s own message unless it carries a code
   * with a fixed message; a fixed text for anything that is not an `Error`.
   */
  function GetErrorMessage(error: Thrown): (r: string)
    ensures error.PromptManagerError? && error.code != ValidationFailed ==> r == CodeMessage(error.code) && r != []
    ensures IsError(error) && !(error.PromptManagerError? && error.code != ValidationFailed) ==> r == error.message
    ensures !IsError(error) ==> r == "An unknown error occurred."
  {
    if error.PromptManagerError? && error.code != ValidationFailed then CodeMessageLength(error.code); CodeMessage(error.code)
    else
    match error
    case PromptManagerError(m, _, _) => m
    case PlainError(m) => m
    case NonError(_) => "An unknown error occurred."
  }

  /** Normalising twice, with any second code, is normalising once. */
  lemma ToPromptManagerErrorIdempotent(error: Thrown, c1: ErrorCode, c2: ErrorCode)
    ensures ToPromptManagerError(ToPromptManagerError(error, c1), c2) == ToPromptManagerError(error, c1)
  {
  }

  /**
   * Every code other than a validation failure has its own message, so the
   * user can tell the failures apart.
   */
  lemma CodeMessagesDistinct(c1: ErrorCode, c2: ErrorCode)
    requires c1 != ValidationFailed && c2 != ValidationFailed && c1 != c2
    ensures CodeMessage(c1) != CodeMessage(c2)
    ensures CodeMessage(c1) != []
  {
    // the six fixed messages have six different lengths
    CodeMessageLength(c1);
    CodeMessageLength(c2);
  }

  lemma CodeMessageLength(c: ErrorCode)
    ensures |CodeMessage(c)| == match c
      case StorageReadFailed => 38
      case StorageWriteFailed => 47
      case PromptNotFound => 43
      case ValidationFailed => 0
      case ClipboardFailed => 53
      case CursorMoveFailed => 52
      case Unknown => 29
  {
    match c
    case StorageReadFailed =>
    case StorageWriteFailed =>
    case PromptNotFound =>
    case ValidationFailed =>
    case ClipboardFailed =>
    case CursorMoveFailed =>
    case Unknown =>
  }

  /**
   * A plain error normalised as a validation failure keeps showing its own
   * message; normalised with any other code it shows that code's message.
   */
  lemma MessageAfterNormalising(error: Thrown, code: ErrorCode)
    requires error.PlainError?
    ensures GetErrorMessage(ToPromptManagerError(error, code))
         == if code == ValidationFailed then error.message else CodeMessage(code)
  {
  }
}
