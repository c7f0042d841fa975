/**
 * Optional values and the outcome of an operation that may throw.
 *
 * Java's `null` becomes `None`, and a thrown exception becomes `Fail` carrying
 * the kind of exception the source throws, so callers can tell which error
 * path was taken.
 */
module Outcome {

  datatype Option<T> = None | Some(value: T)

  /** The Java exception classes the modelled code throws or catches. */
  datatype Exception =
    | NumberFormat              // java.lang.NumberFormatException
    | IndexOutOfBounds          // ArrayIndexOutOfBounds / StringIndexOutOfBounds
    | IllegalArgument           // java.lang.IllegalArgumentException
    | IllegalState              // java.lang.IllegalStateException
    | NullPointer               // java.lang.NullPointerException
    | MalformedUrl              // java.net.MalformedURLException
    | UriSyntax                 // java.net.URISyntaxException
    | InvalidMetadata           // InvalidMetadataException
    | InvalidBloggerPost        // InvalidBloggerPostException
    | PostParse(wrapped: Option<Exception>) // GalatamanPostParseException, with the exception it wraps if any
    | Wrapped(cause: Exception) // RuntimeException wrapping a cause
    | FileNotFound              // java.io.FileNotFoundException
    | IO                        // java.io.IOException
    | InvalidArtwork            // InvalidArtworkException
    | DateTimeParse             // java.time.format.DateTimeParseException
    | UnparsableText(excerpt: seq<char>) // IllegalArgumentException quoting part of the text

  /** A value, or the exception that interrupted its computation; `:-` propagates the exception. */
  datatype Result<T> = Ok(value: T) | Fail(error: Exception)
  {
    predicate IsFailure()
    {
      Fail?
    }

    function PropagateFailure<U>(): Result<U>
      requires Fail?
    {
      Fail(error)
    }

    function Extract(): T
      requires Ok?
    {
      value
    }
  }
}
