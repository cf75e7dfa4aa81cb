/**
 * The error logger: it reads the failure description that the state machine attached to
 * the event and appends one error record to the error table.
 */
module LogError {
  import opened Wrappers
  import opened Events
  import opened Ledger
  import LogToDynamodb

  /** What `json.loads` makes of the `Cause` text: a JSON object, some other JSON value, or nothing. */
  datatype Parsed = Object(fields: map<string, Value>) | OtherJson | NotJson

  const KeyAttribute := "KEY"
  const BucketAttribute := "BUCKET"
  const ErrorTypeAttribute := "ERROR TYPE"
  const ErrorMessageAttribute := "ERROR MESSAGE"

  /**
   * `error['errorType']` and `error['errorMessage']`. When `Cause` is not JSON the raw text
   * is subscripted with a string, and a JSON value that is not an object fails the same
   * way; an object without the field fails with that key.
   */
  function Field(error: Parsed, name: string): (r: Result<Value>)
    ensures r.Ok? <==> error.Object? && name in error.fields
    ensures r.Ok? ==> r.value == error.fields[name]
    ensures error.Object? && name !in error.fields ==> r == Err(KeyError(name))
    ensures !error.Object? ==> r == Err(TypeError)
  {
    match error
    case Object(fields) => if name in fields then Ok(fields[name]) else Err(KeyError(name))
    case _ => Err(TypeError)
  }

  /**
   * Whether boto3 can serialise a value for `put_item`: it refuses a Python float (a JSON
   * number with a fraction or exponent), which this stage, unlike the ledger writer, does
   * not convert to `Decimal`.
   */
  predicate Serialisable(v: Value)
  {
    !v.Num?
  }

  /**
   * Lines 13-31: the error record, or the failure that stops the stage before any write.
   * `parse` stands for `json.loads` on the `Cause` text. A float error type or message is
   * refused with a TypeError by `put_item`'s serialiser at line 31, before anything is written.
   */
  function ErrorRecord(event: Event, parse: string -> Parsed, stamp: Timestamp): Result<Item>
  {
    if event.errorInfo.None? then Err(KeyError("error-info"))
    else
      var error := parse(event.errorInfo.value.cause);
      match Field(error, "errorType")
      case Err(e) => Err(e)
      case Ok(errorType) =>
        match Field(error, "errorMessage")
        case Err(e) => Err(e)
        case Ok(errorMessage) =>
          if !Serialisable(errorType) || !Serialisable(errorMessage) then Err(TypeError)
          else
            Ok(map[ImageIdAttribute := Str(event.imageId),
                   KeyAttribute := Str(event.s3.key),
                   BucketAttribute := Str(event.s3.bucket),
                   ErrorTypeAttribute := errorType,
                   ErrorMessageAttribute := errorMessage,
                   LogToDynamodb.DateAttribute := Str(stamp.date),
                   LogToDynamodb.TimeAttribute := Str(stamp.time)])
  }

  /** A float error message is refused, so nothing is logged for it. */
  lemma FloatFieldRefused(event: Event, stamp: Timestamp)
    requires event.errorInfo.Some?
    ensures ErrorRecord(event, _ => Object(map["errorType" := Str("ValueError"), "errorMessage" := Num(1.5)]), stamp) == Err(TypeError)
  {
  }

  /**
   * A record is built exactly when the cause parses to an object with both fields, neither
   * of them a float, and it then carries the event's id, key and bucket and the two fields'
   * values; an object with both fields, one of them a float, is a TypeError.
   */
  lemma ErrorRecordFields(event: Event, parse: string -> Parsed, stamp: Timestamp)
    ensures var r := ErrorRecord(event, parse, stamp);
      r.Ok? <==> (event.errorInfo.Some? && parse(event.errorInfo.value.cause).Object? &&
        "errorType" in parse(event.errorInfo.value.cause).fields &&
        "errorMessage" in parse(event.errorInfo.value.cause).fields &&
        Serialisable(parse(event.errorInfo.value.cause).fields["errorType"]) &&
        Serialisable(parse(event.errorInfo.value.cause).fields["errorMessage"]))
    ensures event.errorInfo.Some? && parse(event.errorInfo.value.cause).Object? ==>
      var fields := parse(event.errorInfo.value.cause).fields;
      "errorType" in fields && "errorMessage" in fields &&
      (!Serialisable(fields["errorType"]) || !Serialisable(fields["errorMessage"])) ==>
        ErrorRecord(event, parse, stamp) == Err(TypeError)
    ensures var r := ErrorRecord(event, parse, stamp);
      r.Ok? ==> (var fields := parse(event.errorInfo.value.cause).fields;
        r.value[ImageIdAttribute] == Str(event.imageId) && r.value[KeyAttribute] == Str(event.s3.key) &&
        r.value[BucketAttribute] == Str(event.s3.bucket) &&
        r.value[ErrorTypeAttribute] == fields["errorType"] && r.value[ErrorMessageAttribute] == fields["errorMessage"])
  {
    var r := ErrorRecord(event, parse, stamp);
    if r.Ok? {
      assert KeyAttribute[0] != BucketAttribute[0];
      assert ErrorTypeAttribute[6] != ErrorMessageAttribute[6];
    }
  }

  /**
   * Lines 12-31: build the record, then one put to the error table, which appends it; a
   * float field fails the put before the write.
   */
  method LambdaHandler(db: Database, event: Event, parse: string -> Parsed, stamp: Timestamp) returns (r: Result<()>)
    requires db.Valid()
    modifies db
    ensures db.Valid()
    ensures r.Ok? <==> ErrorRecord(event, parse, stamp).Ok?
    ensures r.Ok? ==> (var item := ErrorRecord(event, parse, stamp).value;
      db.tables == old(db.tables).(errors := old(db.tables).errors + [item]) &&
      db.journal == old(db.journal) + [Put(Errors, item)])
    ensures r.Err? ==> (r.error == ErrorRecord(event, parse, stamp).error &&
      db.tables == old(db.tables) && db.journal == old(db.journal))
  {
    if event.errorInfo.None? {
      return Err(KeyError("error-info"));
    }
    var error := parse(event.errorInfo.value.cause);
    var errorType := Field(error, "errorType");
    if errorType.Err? {
      return Err(errorType.error);
    }
    var errorMessage := Field(error, "errorMessage");
    if errorMessage.Err? {
      return Err(errorMessage.error);
    }
    if !Serialisable(errorType.value) || !Serialisable(errorMessage.value) {
      return Err(TypeError);
    }
    var item := map[ImageIdAttribute := Str(event.imageId),
                    KeyAttribute := Str(event.s3.key),
                    BucketAttribute := Str(event.s3.bucket),
                    ErrorTypeAttribute := errorType.value,
                    ErrorMessageAttribute := errorMessage.value];
    item := item[LogToDynamodb.DateAttribute := Str(stamp.date)];
    item := item[LogToDynamodb.TimeAttribute := Str(stamp.time)];
    var stored := db.PutItem(Errors, item);
    r := Ok(());
  }
}
