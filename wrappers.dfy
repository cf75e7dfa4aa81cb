/** Option and Result values, and the Python exceptions of the pipeline as a datatype. */
module Wrappers {

  datatype Option<+T> = None | Some(value: T)

  /** The exceptions the handlers and scripts raise, as values instead of control flow. */
  datatype Failure =
    | KeyError(key: string)         // a dictionary key that is not there
    | IndexError                    // a list index out of range
    | ValueError                    // a tuple unpacking of the wrong arity, a pandas row numpy cannot fit to the columns
    | TypeError                     // subscripting a str with a str, a float handed to DynamoDB, or an HDU without data handed to numpy
    | AttributeError                // an attribute looked up on None
    | NoSuchKey(key: string)        // an object-store copy whose source object is absent
    | DimensionMismatch             // Python's ValueError when numpy cannot broadcast a slice assignment
    | ZeroSizeArray                 // the ValueError numpy raises for the percentile or min of a zero-size array
    | FileSizeException(size: nat)  // an encoded image too large for the endpoint
    | AssertionError(message: string)
    | ValidationException           // a table put whose item lacks a string key attribute
    | OSError(path: string)         // a file-system call on a path that is not there
    | InvalidBucketParameter        // botocore refuses a `Bucket` parameter that is not a str

  datatype Result<+T> = Ok(value: T) | Err(error: Failure)
}
