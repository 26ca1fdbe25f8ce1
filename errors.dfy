/**
  The exception hierarchy of the assistant (exceptions.py), reduced to the
  information the modelled code branches on: which class was raised, the
  error code of a plain CodeAssistantError, the operation a
  FileOperationError names and the underlying cause it wraps.
  Human-readable messages are not modelled.
 */
module Errors {

  /** The underlying cause of a failed file operation (`original_error`). */
  datatype Cause =
    | NotFound        // the path does not exist
    | NotAFile        // the path exists but is not a regular file
    | IsADirectory    // a directory stands where a file was expected
    | FileInTheWay    // a regular file stands where a directory was expected
    | TooLarge        // the file exceeds the reader's size ceiling
    | Ignored         // the path matches an ignore pattern
    | NotText         // the text probe rejected the file
    | SameFile        // `shutil.SameFileError`: a copy's source and destination are one file
    | IOFailure       // any other read/write/copy/rename error of the OS
    | Nested(original: Error)   // the wrapped exception was itself raised by the assistant

  /** Why a provider operation failed. */
  datatype ProviderFailure =
    | EmptyInstruction
    | NonPositiveMaxTokens
    | TemperatureOutOfRange
    | TokenLimitExceeded(estimated: int, limit: int)
    | MissingApiKey
    | UnsupportedModel(model: string)
    | UnsupportedProvider(name: string)
    | NotAProviderClass
    | ConstructionFailed(original: Error)

  datatype Error =
    | CodeAssistantError(code: string)
    | LLMProviderError(failure: ProviderFailure)
    | FileOperationError(operation: string, cause: Cause)
    | OSError(cause: Cause)     // an OS exception that escapes unwrapped
    | OtherError                // any other Python exception (TypeError, AttributeError, ...)
}
