/** Option and Result, and the errors the card engine can raise. */
module Wrappers {

  datatype Option<+T> = None | Some(value: T)

  datatype Result<+R> = Success(value: R) | Failure(error: Error)

  /** The exceptions the Python code raises, one constructor per cause. */
  datatype Error =
    | NotSquare                 // QualificationsBlock built on a non-square rectangle (ValueError)
    | ZeroDivision              // a height divided by an empty instruction list
    | EmptyMaximum              // max() over an empty list of text widths (ValueError)
    | PlaceholderMissing        // the placeholder picture does not exist (ValueError)
    | NoPersonnelId             // a photo URL on a person without personnel id (AssertionError)
    | FetchFailed               // the photo download answered with an error status
    | MissingWidth              // a block is left without a (non-zero) width (AssertionError)
    | NonPositiveSide           // a badge quadrant asked for with side length <= 0 (AssertionError)
    | ScaleTooLarge             // an icon scale above 1 (ValueError)
    | MissingKey(key: string)   // qualifications[key] on a map without key (KeyError)
    | MissingFunction           // the function label of a person whose function is None
    | IllegalFunction           // a function outside the closed list (ValueError)
    | NoSuchAttribute(name: string) // an attribute the Person record does not have (AttributeError)
    | IndexOutOfRange           // a block index past the end of the block list (IndexError)
    | UnpositionedBlock         // x - None while propagating widths (TypeError)
}
