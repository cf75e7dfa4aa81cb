/**
 * The values that travel between the pipeline's stages: the JSON event each handler
 * receives and returns, header and table values, and stored objects.
 */
module Events {
  import opened Wrappers

  newtype byte = x: int | 0 <= x < 256

  /** The content of a stored object. */
  type Blob = seq<byte>

  /** A scalar of a FITS header, of the event's metadata or of a table item. */
  datatype Value = Str(s: string) | Num(r: real) | Int(i: int) | Bool(b: bool)

  /** A table item or a FITS header: attribute name to value. */
  type Item = map<string, Value>

  /** The `metadata` dictionary, in insertion order (a Python dict keeps it). */
  type Metadata = seq<(string, Value)>

  /** `event['s3']`: the raw object's key and the bucket it arrived in. */
  datatype S3Ref = S3Ref(key: string, bucket: string)

  /** `event['classification']`: the score of each label and the predicted class. */
  datatype Classification = Classification(probabilities: map<string, real>, predictedClass: string)

  /** `event['error-info']`, which the state machine adds when a stage fails. */
  datatype ErrorInfo = ErrorInfo(cause: string)

  /**
   * The state machine's JSON event. The arrival gate fills the first three fields;
   * the later ones are absent (`None`) until the stage that adds them has run.
   */
  datatype Event = Event(
    imageId: string,
    subgroup: string,
    s3: S3Ref,
    isDuplicate: Option<bool>,
    metadata: Option<Metadata>,
    classification: Option<Classification>,
    errorInfo: Option<ErrorInfo>)

  /** The event the arrival gate hands to the state machine. */
  function InitialEvent(imageId: string, subgroup: string, key: string, bucket: string): Event
  {
    Event(imageId, subgroup, S3Ref(key, bucket), None, None, None, None)
  }

  /** The time stamp attributes of a stored record, already formatted (the clock is external). */
  datatype Timestamp = Timestamp(date: string, time: string)
}
