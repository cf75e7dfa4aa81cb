/**
 * The SageMaker classification stage: the same metadata extraction and normalisation as
 * the AutoML stage, a size ceiling on the encoded image, and a response of bare scores
 * that are labelled by position with the configured classes.
 */
module ClassifySagemaker {
  import opened Wrappers
  import opened Text
  import opened Events
  import opened Storage
  import opened Normalize
  import opened Aggregate

  /** `MAX_FILE_SIZE_FOR_SAGEMAKER`, in bytes: the endpoint takes images strictly smaller. */
  const MaxFileSizeForSagemaker: nat := 5000000

  /** `[cls.strip() for cls in CLASSES.split(',')]` */
  function ParseClasses(variable: string): (classes: seq<string>)
    ensures |classes| == Count(variable, ',') + 1
  {
    var pieces := Split(variable, ',');
    seq(|pieces|, i requires 0 <= i < |pieces| => Strip(pieces[i]))
  }

  /** Every class is a comma-free piece of the variable with no whitespace at either end. */
  lemma ParseClassesPieces(variable: string, i: nat)
    requires i < |ParseClasses(variable)|
    ensures var c := ParseClasses(variable)[i];
      ',' !in c && (c != [] ==> !IsSpace(c[0]) && !IsSpace(c[|c| - 1]))
  {
    var piece := Split(variable, ',')[i];
    if ',' in ParseClasses(variable)[i] {
      StripChars(piece, ',');
    }
  }

  /** A variable without whitespace is split into pieces that join back, with ',', to it. */
  lemma ParseClassesJoin(variable: string)
    requires NoSpace(variable)
    ensures Join(ParseClasses(variable), [',']) == variable
  {
    var pieces := Split(variable, ',');
    SplitNoSpace(variable, ',');
    forall i | 0 <= i < |pieces|
      ensures ParseClasses(variable)[i] == pieces[i]
    {
      StripNoSpace(pieces[i]);
    }
    assert ParseClasses(variable) == pieces;
    SplitJoin(variable, ',');
  }

  /** The response with the i-th score labelled `classes[i]`. */
  function Labelled(classes: seq<string>, result: seq<real>): (response: Response)
    requires |result| <= |classes|
  {
    seq(|result|, i requires 0 <= i < |result| => (classes[i], result[i]))
  }

  /**
   * Lines 110-121: labels each score by its position and aggregates as the AutoML stage
   * does; a response longer than the classes fails at the first score without a class.
   */
  method PredictClassByIndex(classes: seq<string>, result: seq<real>) returns (r: Result<(map<string, real>, string)>)
    ensures |result| > |classes| ==> r == Err(IndexError)
    ensures |result| <= |classes| ==>
      r == Ok((Probabilities(Labelled(classes, result)), PredictedClass(Labelled(classes, result))))
  {
    var probabilities := map[];
    var best := Initial;
    for i := 0 to |result|
      invariant i <= |classes|
      invariant probabilities == Probabilities(Labelled(classes, result[..i]))
      invariant best == Fold(Labelled(classes, result[..i]))
    {
      if i >= |classes| {
        return Err(IndexError);
      }
      var name, probability := classes[i], result[i];
      assert Labelled(classes, result[..i + 1])[..i] == Labelled(classes, result[..i]);
      probabilities := probabilities[name := probability];
      if probability > best.score {
        best := Best(name, probability);
      } else if probability == best.score {
        best := Best(best.name + ", " + name, best.score);
      }
    }
    assert result[..|result|] == result;
    FoldIsTiedJoin(Labelled(classes, result));
    r := Ok((probabilities, best.name));
  }

  /**
   * The event the handler returns, or its failure: the primary-header access or the
   * normalisation, then an image of `MaxFileSizeForSagemaker` bytes or more, then a
   * response longer than the classes. `encode` stands for the rescaling, 8-bit conversion
   * and JPEG encoding, and `invoke` for the endpoint call with its JSON decoding.
   */
  function Classified(variable: string, event: Event, hdus: seq<Hdu>, top: int, bottom: int,
                      encode: Plane -> Blob, invoke: Blob -> seq<real>): Result<Event>
  {
    match Prepared(hdus, top, bottom)
    case Err(e) => Err(e)
    case Ok((metadata, plane)) =>
      var image := encode(plane);
      if |image| >= MaxFileSizeForSagemaker then Err(FileSizeException(|image|))
      else
        var classes := ParseClasses(variable);
        var result := invoke(image);
        if |result| > |classes| then Err(IndexError)
        else Ok(event.(metadata := Some(metadata), classification := Some(ClassificationOf(Labelled(classes, result)))))
  }

  /** Whether the handler stages the encoded image: only once it is under the size ceiling. */
  predicate Staged(hdus: seq<Hdu>, top: int, bottom: int, encode: Plane -> Blob)
  {
    Prepared(hdus, top, bottom).Ok? && |encode(Prepared(hdus, top, bottom).value.1)| < MaxFileSizeForSagemaker
  }

  /**
   * Lines 47-125, with the CLASSES variable given as `variable`. The size check comes
   * before the upload, so an image that is too large is not staged.
   */
  method LambdaHandler(destination: Bucket, variable: string, event: Event, hdus: seq<Hdu>, top: int, bottom: int,
                       encode: Plane -> Blob, invoke: Blob -> seq<real>) returns (r: Result<Event>)
    modifies destination
    ensures r == Classified(variable, event, hdus, top, bottom, encode, invoke)
    ensures destination.objects == if Staged(hdus, top, bottom, encode)
      then old(destination.objects)[event.imageId := encode(Prepared(hdus, top, bottom).value.1)]
      else old(destination.objects)
  {
    var classes := ParseClasses(variable);
    var prepared := Prepare(hdus, top, bottom);
    if prepared.Err? {
      return Err(prepared.error);
    }
    var (metadata, plane) := prepared.value;
    var image := encode(plane);
    var fileSize := |image|;
    if fileSize >= MaxFileSizeForSagemaker {
      return Err(FileSizeException(fileSize));
    }
    destination.Upload(event.imageId, image);
    var result := invoke(image);
    var predicted := PredictClassByIndex(classes, result);
    if predicted.Err? {
      return Err(predicted.error);
    }
    var (probabilities, predictedClass) := predicted.value;
    r := Ok(event.(metadata := Some(metadata), classification := Some(Classification(probabilities, predictedClass))));
  }

  /**
   * Once the image is prepared, the stage fails with `FileSizeException` exactly when the
   * image has 5,000,000 bytes or more, and then the endpoint's answer plays no part.
   */
  lemma SizeCeiling(variable: string, event: Event, hdus: seq<Hdu>, top: int, bottom: int,
                    encode: Plane -> Blob, invoke: Blob -> seq<real>, other: Blob -> seq<real>)
    requires Prepared(hdus, top, bottom).Ok?
    ensures var size := |encode(Prepared(hdus, top, bottom).value.1)|;
      Classified(variable, event, hdus, top, bottom, encode, invoke) == Err(FileSizeException(size))
      <==> size >= MaxFileSizeForSagemaker
    ensures !Staged(hdus, top, bottom, encode) ==>
      Classified(variable, event, hdus, top, bottom, encode, invoke) == Classified(variable, event, hdus, top, bottom, encode, other)
  {
  }

  /**
   * A successful stage changes only `metadata` and `classification`, and the predicted
   * class is the tie join of the scores labelled by position.
   */
  lemma ClassifiedEvent(variable: string, event: Event, hdus: seq<Hdu>, top: int, bottom: int,
                        encode: Plane -> Blob, invoke: Blob -> seq<real>)
    requires Classified(variable, event, hdus, top, bottom, encode, invoke).Ok?
    ensures var e := Classified(variable, event, hdus, top, bottom, encode, invoke).value;
      e.(metadata := event.metadata, classification := event.classification) == event
    ensures var result := invoke(encode(Prepared(hdus, top, bottom).value.1));
      var classes := ParseClasses(variable);
      |result| <= |classes| &&
      Classified(variable, event, hdus, top, bottom, encode, invoke).value.classification ==
        Some(Classification(Probabilities(Labelled(classes, result)), PredictedClass(Labelled(classes, result))))
  {
  }
}
