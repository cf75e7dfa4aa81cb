/**
 * The AutoML classification stage: it extracts the metadata and normalises the image,
 * stages the encoded image under the image id, asks the classifier for scores and adds the
 * metadata and the classification to the event.
 */
module ClassifyAutoml {
  import opened Wrappers
  import opened Events
  import opened Storage
  import opened Normalize
  import opened Aggregate

  /**
   * Lines 116-127: the probabilities of every returned label and the predicted class, the
   * ", "-join of the labels that share the top score.
   */
  method PredictClass(response: Response) returns (probabilities: map<string, real>, predicted: string)
    ensures probabilities == Probabilities(response)
    ensures predicted == PredictedClass(response)
  {
    probabilities := map[];
    var best := Initial;
    for i := 0 to |response|
      invariant probabilities == Probabilities(response[..i])
      invariant best == Fold(response[..i])
    {
      var (name, score) := response[i];
      assert response[..i + 1][..i] == response[..i];
      probabilities := probabilities[name := score];
      if score > best.score {
        best := Best(name, score);
      } else if score == best.score {
        best := Best(best.name + ", " + name, best.score);
      }
    }
    assert response[..|response|] == response;
    FoldIsTiedJoin(response);
    predicted := best.name;
  }

  /**
   * The event the handler returns: the input event with `metadata` and `classification`
   * set, or the failure of the primary-header access or of the normalisation. `encode`
   * stands for the rescaling, 8-bit conversion and JPEG encoding, and `predict` for the
   * AutoML prediction call.
   */
  function Classified(event: Event, hdus: seq<Hdu>, top: int, bottom: int,
                      encode: Plane -> Blob, predict: Blob -> Response): Result<Event>
  {
    match Prepared(hdus, top, bottom)
    case Err(e) => Err(e)
    case Ok((metadata, plane)) =>
      Ok(event.(metadata := Some(metadata), classification := Some(ClassificationOf(predict(encode(plane))))))
  }

  /**
   * Lines 60-131. The FITS file is given as its HDUs and the percentiles as `top` and
   * `bottom`. The encoded image is staged under the image id before it is classified; a
   * failure before that leaves the bucket as it was.
   */
  method LambdaHandler(destination: Bucket, event: Event, hdus: seq<Hdu>, top: int, bottom: int,
                       encode: Plane -> Blob, predict: Blob -> Response) returns (r: Result<Event>)
    modifies destination
    ensures r == Classified(event, hdus, top, bottom, encode, predict)
    ensures var p := Prepared(hdus, top, bottom);
      destination.objects == if p.Ok? then old(destination.objects)[event.imageId := encode(p.value.1)]
                             else old(destination.objects)
  {
    var prepared := Prepare(hdus, top, bottom);
    if prepared.Err? {
      return Err(prepared.error);
    }
    var (metadata, plane) := prepared.value;
    var image := encode(plane);
    destination.Upload(event.imageId, image);
    var response := predict(image);
    var probabilities, predicted := PredictClass(response);
    r := Ok(event.(metadata := Some(metadata), classification := Some(Classification(probabilities, predicted))));
  }

  /**
   * A successful stage changes only `metadata` and `classification`; the classification
   * has one probability per returned label, and the predicted class is the tie join.
   */
  lemma ClassifiedEvent(event: Event, hdus: seq<Hdu>, top: int, bottom: int,
                        encode: Plane -> Blob, predict: Blob -> Response)
    requires Classified(event, hdus, top, bottom, encode, predict).Ok?
    ensures var e := Classified(event, hdus, top, bottom, encode, predict).value;
      e.(metadata := event.metadata, classification := event.classification) == event
    ensures var e := Classified(event, hdus, top, bottom, encode, predict).value;
      var response := predict(encode(Prepared(hdus, top, bottom).value.1));
      e.metadata == Some(MetadataOf(HduKeys, hdus[0].header)) &&
      e.classification.Some? &&
      (forall l :: l in e.classification.value.probabilities <==> exists i :: 0 <= i < |response| && response[i].0 == l) &&
      e.classification.value.predictedClass == PredictedClass(response)
  {
    ProbabilitiesEntries(predict(encode(Prepared(hdus, top, bottom).value.1)));
  }
}
