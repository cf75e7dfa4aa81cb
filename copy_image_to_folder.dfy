/**
 * The copy-only relocation stage: the raw object named by the event's key is copied into the
 * folder of its predicted class, within the destination bucket; nothing is deleted.
 */
module CopyImageToFolder {
  import opened Wrappers
  import opened Events
  import opened Storage
  import CopyAndDeleteImage

  /**
   * What the copy source's 'Bucket' entry holds: the name of the bucket the event's object
   * arrived in (`bucket`, read at line 15), a str, or the `s3.Bucket` resource object for the
   * destination bucket that line 20 puts there.
   */
  datatype BucketArgument = EventBucketName | DestinationBucketResource

  /**
   * The destination bucket after the copy, or its failure, for a copy source whose 'Bucket'
   * entry is `source`. `raw` holds the objects of the event's bucket, where the arrival gate
   * found the key and the classifier stages downloaded it. An event without a classification
   * fails first, when the target key is computed; the transfer then hands the copy source to
   * the client, which accepts only a str as a bucket; then an absent source object fails.
   */
  function CopiedWith(raw: map<string, Blob>, objects: map<string, Blob>, event: Event, source: BucketArgument): Result<map<string, Blob>>
  {
    if event.classification.None? then Err(KeyError("classification"))
    else if source == DestinationBucketResource then Err(InvalidBucketParameter)
    else if event.s3.key !in raw then Err(NoSuchKey(event.s3.key))
    else
      var destination := CopyAndDeleteImage.Destination(event.classification.value.predictedClass, event.imageId);
      Ok(objects[destination := raw[event.s3.key]])
  }

  /** Lines 19-24 as written: the copy source holds the destination Bucket object. */
  function CopiedAsWritten(raw: map<string, Blob>, objects: map<string, Blob>, event: Event): Result<map<string, Blob>>
  {
    CopiedWith(raw, objects, event, DestinationBucketResource)
  }

  /** Lines 19-24 as intended: the copy source names the bucket the event's key lives in. */
  function Copied(raw: map<string, Blob>, objects: map<string, Blob>, event: Event): Result<map<string, Blob>>
  {
    CopiedWith(raw, objects, event, EventBucketName)
  }

  /**
   * As written, the stage never copies: every classified event fails on the bucket
   * parameter, including one whose raw object is present and which the intended copy relocates.
   */
  lemma AsWrittenNeverCopies(raw: map<string, Blob>, objects: map<string, Blob>, event: Event)
    ensures CopiedAsWritten(raw, objects, event).Err?
    ensures event.classification.Some? ==> CopiedAsWritten(raw, objects, event) == Err(InvalidBucketParameter)
    ensures event.classification.Some? && event.s3.key in raw ==> Copied(raw, objects, event).Ok?
  {
  }

  /**
   * A raw "a.fits" in its bucket, with the staged image under "a" in the destination, classified
   * "Nebula": it fails as written, and as intended the raw object is copied to "Nebula/a".
   */
  lemma AsWrittenExample()
    ensures var event := InitialEvent("a", "", "a.fits", "raw").(classification := Some(Classification(map[], "Nebula")));
      var raw := map["a.fits" := [1]];
      var objects := map["a" := [2]];
      CopiedAsWritten(raw, objects, event) == Err(InvalidBucketParameter) &&
      Copied(raw, objects, event) == Ok(objects["Nebula/a" := [1]])
  {
    assert CopyAndDeleteImage.Destination("Nebula", "a") == "Nebula/a";
  }

  /**
   * Only the destination key changes, and it holds the raw object's content; the raw object is
   * not removed (the function leaves `raw` as it is, and the handler below only writes the
   * destination bucket).
   */
  lemma CopiedFrame(raw: map<string, Blob>, objects: map<string, Blob>, event: Event)
    requires Copied(raw, objects, event).Ok?
    ensures var after := Copied(raw, objects, event).value;
      var destination := CopyAndDeleteImage.Destination(event.classification.value.predictedClass, event.imageId);
      event.s3.key in raw &&
      after.Keys == objects.Keys + {destination} &&
      after[destination] == raw[event.s3.key] &&
      forall k :: k in objects && k != destination ==> after[k] == objects[k]
  {
  }

  /**
   * Lines 14-26 with the copy source corrected: one copy from the event's bucket `raw` into
   * `destination`; the event is returned unchanged, and a separate raw bucket is untouched.
   */
  method LambdaHandler(raw: Bucket, destination: Bucket, event: Event) returns (r: Result<Event>)
    modifies destination
    ensures r.Ok? <==> Copied(old(raw.objects), old(destination.objects), event).Ok?
    ensures r.Ok? ==> r.value == event && destination.objects == Copied(old(raw.objects), old(destination.objects), event).value
    ensures r.Err? ==> r.error == Copied(old(raw.objects), old(destination.objects), event).error && destination.objects == old(destination.objects)
    ensures raw != destination ==> raw.objects == old(raw.objects)
  {
    if event.classification.None? {
      return Err(KeyError("classification"));
    }
    var target := CopyAndDeleteImage.Destination(event.classification.value.predictedClass, event.imageId);
    var copied := destination.CopyFrom(raw, event.s3.key, target);
    if !copied {
      return Err(NoSuchKey(event.s3.key));
    }
    r := Ok(event);
  }
}
