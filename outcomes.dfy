/** Errors, results and call completions shared by the encoder's modules. */
module Outcomes {

  /** The exceptions the encoder raises, by kind. */
  datatype Error =
    | UnsupportedCompression   // plain Error from setCompression
    | InvalidIdentifier        // RangeError from the Variable constructor
    | ChannelNotInRanges       // RangeError from FrameData.setChannelValue
    | OffsetOutOfBounds        // RangeError from TypedArray.prototype.set: the source does not fit
    | ValueOutOfRange          // RangeError (ERR_OUT_OF_RANGE) from Buffer.write*: the value does not fit

  /** A call that either returns a value or throws. */
  datatype Result<T> = Ok(value: T) | Err(error: Error)

  /** A call that returns nothing or throws. */
  datatype Outcome = Pass | Fail(error: Error)

  /** How a call that need not terminate ends: it returns, it throws, or it runs forever. */
  datatype Completion<T> = Returned(value: T) | Threw(error: Error) | Diverges

  datatype Option<T> = None | Some(value: T)
}
