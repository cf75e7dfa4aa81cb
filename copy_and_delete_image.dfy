/**
 * The relocation stage: the staged image, kept under its image id in the destination
 * bucket, is copied into the folder of its predicted class and the staging key is deleted.
 */
module CopyAndDeleteImage {
  import opened Wrappers
  import opened Text
  import opened Events
  import opened Storage

  /** `predicted_class + '/' + image_id`, used verbatim: a tie such as "A, B" is a folder name. */
  function Destination(predictedClass: string, imageId: string): string
  {
    predictedClass + "/" + imageId
  }

  /**
   * The destination is never the staging key, so the delete cannot remove the copy; and
   * an id without '/' (the only kind the arrival gate produces) is the destination's last segment.
   */
  lemma DestinationIsNotStaging(predictedClass: string, imageId: string)
    ensures Destination(predictedClass, imageId) != imageId
    ensures '/' !in imageId ==> LastSegment(Destination(predictedClass, imageId), '/') == imageId
  {
    assert |Destination(predictedClass, imageId)| > |imageId|;
    if '/' !in imageId {
      LastSegmentAfter(predictedClass, '/', imageId);
    }
  }

  /**
   * The bucket after the stage, or its failure: an event without a classification fails
   * before anything is copied, and so does an absent staging object.
   */
  function Relocated(objects: map<string, Blob>, event: Event): Result<map<string, Blob>>
  {
    if event.classification.None? then Err(KeyError("classification"))
    else if event.imageId !in objects then Err(NoSuchKey(event.imageId))
    else
      var destination := Destination(event.classification.value.predictedClass, event.imageId);
      Ok(objects[destination := objects[event.imageId]] - {event.imageId})
  }

  /**
   * After a relocation the destination holds the former staging content, the staging key
   * is gone, and every other key keeps its content.
   */
  lemma RelocatedFrame(objects: map<string, Blob>, event: Event)
    requires Relocated(objects, event).Ok?
    ensures var after := Relocated(objects, event).value;
      var destination := Destination(event.classification.value.predictedClass, event.imageId);
      destination in after && after[destination] == objects[event.imageId] &&
      event.imageId !in after &&
      after.Keys == objects.Keys - {event.imageId} + {destination} &&
      forall k :: k in objects && k != event.imageId && k != destination ==> after[k] == objects[k]
  {
    DestinationIsNotStaging(event.classification.value.predictedClass, event.imageId);
  }

  /** Lines 14-29: copy, then delete; the event is returned unchanged and its bucket is not used. */
  method LambdaHandler(destination: Bucket, event: Event) returns (r: Result<Event>)
    modifies destination
    ensures r.Ok? <==> Relocated(old(destination.objects), event).Ok?
    ensures r.Ok? ==> r.value == event && destination.objects == Relocated(old(destination.objects), event).value
    ensures r.Err? ==> r.error == Relocated(old(destination.objects), event).error && destination.objects == old(destination.objects)
  {
    if event.classification.None? {
      return Err(KeyError("classification"));
    }
    var target := Destination(event.classification.value.predictedClass, event.imageId);
    var copied := destination.Copy(event.imageId, target);
    if !copied {
      return Err(NoSuchKey(event.imageId));
    }
    destination.Delete(event.imageId);
    r := Ok(event);
  }
}
