/**
 * The ledger writer: it builds the classification record of an image and stores it, then
 * marks the image id in the upload history.
 */
module LogToDynamodb {
  import opened Wrappers
  import opened Text
  import opened Events
  import opened Ledger

  const PredictedClassAttribute := "PREDICTED CLASS"
  const ProbabilityPrefix := "PROBABILITY OF "
  const DateAttribute := "DATE ADDED TO TABLE"
  const TimeAttribute := "TIME ADDED TO TABLE"

  /** Different classes give different probability attributes. */
  lemma PrefixInjective()
    ensures forall c1, c2 :: ProbabilityPrefix + c1 == ProbabilityPrefix + c2 ==> c1 == c2
  {
    forall c1, c2 | ProbabilityPrefix + c1 == ProbabilityPrefix + c2
      ensures c1 == c2
    {
      assert c1 == (ProbabilityPrefix + c1)[|ProbabilityPrefix|..];
      assert c2 == (ProbabilityPrefix + c2)[|ProbabilityPrefix|..];
    }
  }

  /** No probability attribute is one of the record's fixed attributes. */
  lemma NotFixedAttribute(c: string)
    ensures ProbabilityPrefix + c !in {ImageIdAttribute, PredictedClassAttribute, DateAttribute, TimeAttribute}
  {
    var a := ProbabilityPrefix + c;
    assert a[0] == 'P' && a[2] == 'O';
    assert |ImageIdAttribute| < |a|;
    assert PredictedClassAttribute[2] == 'E' && DateAttribute[0] == 'D' && TimeAttribute[0] == 'T';
  }

  /** One "PROBABILITY OF <class>" attribute per class of the probabilities, and no other. */
  function ProbabilityAttributes(probabilities: map<string, real>): (attributes: Item)
    ensures attributes.Keys == set c | c in probabilities :: ProbabilityPrefix + c
    ensures forall c :: c in probabilities ==> attributes[ProbabilityPrefix + c] == Num(probabilities[c])
  {
    PrefixInjective();
    map c | c in probabilities :: ProbabilityPrefix + c := Num(probabilities[c])
  }

  /** The record before the metadata: id, predicted class, probabilities and time stamp, in that order. */
  function BaseRecord(imageId: string, c: Classification, stamp: Timestamp): Item
  {
    map[ImageIdAttribute := Str(imageId), PredictedClassAttribute := Str(c.predictedClass)]
    + ProbabilityAttributes(c.probabilities)
    + map[DateAttribute := Str(stamp.date), TimeAttribute := Str(stamp.time)]
  }

  /** The four fixed attribute names are distinct. */
  lemma FixedAttributesDistinct()
    ensures ImageIdAttribute != PredictedClassAttribute && ImageIdAttribute != DateAttribute &&
            ImageIdAttribute != TimeAttribute && PredictedClassAttribute != DateAttribute &&
            PredictedClassAttribute != TimeAttribute && DateAttribute != TimeAttribute
  {
    assert |ImageIdAttribute| == 8 && |PredictedClassAttribute| == 15;
    assert |DateAttribute| == 19 && |TimeAttribute| == 19;
    assert DateAttribute[0] == 'D' && TimeAttribute[0] == 'T';
  }

  /** The probability attributes leave the fixed attributes free. */
  lemma ProbabilitiesAvoidFixed(probabilities: map<string, real>, a: string)
    requires a in {ImageIdAttribute, PredictedClassAttribute, DateAttribute, TimeAttribute}
    ensures a !in ProbabilityAttributes(probabilities)
  {
    forall k | k in probabilities
      ensures ProbabilityPrefix + k != a
    {
      NotFixedAttribute(k);
    }
  }

  /** The base record's attributes: the four fixed ones and the probability attributes. */
  lemma BaseRecordKeys(imageId: string, c: Classification, stamp: Timestamp)
    ensures BaseRecord(imageId, c, stamp).Keys ==
      {ImageIdAttribute, PredictedClassAttribute, DateAttribute, TimeAttribute} + ProbabilityAttributes(c.probabilities).Keys
  {
  }

  /** Each fixed attribute of the base record holds its own value. */
  lemma BaseRecordFixed(imageId: string, c: Classification, stamp: Timestamp)
    ensures var item := BaseRecord(imageId, c, stamp);
      item[ImageIdAttribute] == Str(imageId) && item[PredictedClassAttribute] == Str(c.predictedClass) &&
      item[DateAttribute] == Str(stamp.date) && item[TimeAttribute] == Str(stamp.time)
  {
    var head := map[ImageIdAttribute := Str(imageId), PredictedClassAttribute := Str(c.predictedClass)];
    var probabilities := ProbabilityAttributes(c.probabilities);
    var tail := map[DateAttribute := Str(stamp.date), TimeAttribute := Str(stamp.time)];
    FixedAttributesDistinct();
    ProbabilitiesAvoidFixed(c.probabilities, ImageIdAttribute);
    ProbabilitiesAvoidFixed(c.probabilities, PredictedClassAttribute);
    assert ImageIdAttribute !in tail && PredictedClassAttribute !in tail;
    assert (head + probabilities)[ImageIdAttribute] == Str(imageId);
    assert (head + probabilities)[PredictedClassAttribute] == Str(c.predictedClass);
    assert tail[DateAttribute] == Str(stamp.date) && tail[TimeAttribute] == Str(stamp.time);
  }

  /** Each probability attribute of the base record holds its class's score. */
  lemma BaseRecordProbability(imageId: string, c: Classification, stamp: Timestamp, k: string)
    requires k in c.probabilities
    ensures BaseRecord(imageId, c, stamp)[ProbabilityPrefix + k] == Num(c.probabilities[k])
  {
    NotFixedAttribute(k);
  }

  /** The upper-cased names of the metadata entries. */
  function UpperNames(metadata: Metadata): set<string>
  {
    if metadata == [] then {}
    else UpperNames(metadata[..|metadata| - 1]) + {Upper(metadata[|metadata| - 1].0)}
  }

  /** The value of the last metadata entry whose upper-cased name is `a`. */
  function LastValue(metadata: Metadata, a: string): Value
    requires a in UpperNames(metadata)
  {
    var last := metadata[|metadata| - 1];
    if Upper(last.0) == a then last.1 else LastValue(metadata[..|metadata| - 1], a)
  }

  /** `item[key.upper()] = value` for each metadata entry in order; a later entry overwrites. */
  function WithMetadata(item: Item, metadata: Metadata): Item
  {
    if metadata == [] then item
    else
      var last := metadata[|metadata| - 1];
      WithMetadata(item, metadata[..|metadata| - 1])[Upper(last.0) := last.1]
  }

  /**
   * The metadata adds exactly the upper-cased metadata names, each holding the value of
   * its last entry, and leaves every other attribute as it was.
   */
  lemma {:induction false} WithMetadataEntries(item: Item, metadata: Metadata)
    ensures WithMetadata(item, metadata).Keys == item.Keys + UpperNames(metadata)
    ensures forall a :: a in item && a !in UpperNames(metadata) ==> WithMetadata(item, metadata)[a] == item[a]
    ensures forall a :: a in UpperNames(metadata) ==> WithMetadata(item, metadata)[a] == LastValue(metadata, a)
  {
    if metadata != [] {
      WithMetadataEntries(item, metadata[..|metadata| - 1]);
    }
  }

  /** Lines 14-29: the classification record, or the missing event key that stops it. */
  function Record(event: Event, stamp: Timestamp): Result<Item>
  {
    if event.classification.None? then Err(KeyError("classification"))
    else if event.metadata.None? then Err(KeyError("metadata"))
    else Ok(WithMetadata(BaseRecord(event.imageId, event.classification.value, stamp), event.metadata.value))
  }

  /** The upload-history item: the image id and nothing else. */
  function Marker(imageId: string): (item: Item)
    ensures item.Keys == {ImageIdAttribute} && KeyOf(item) == Some(imageId)
  {
    map[ImageIdAttribute := Str(imageId)]
  }

  /**
   * The record holds the id, the predicted class, one probability per class and the
   * time stamp, except where an upper-cased metadata name takes the attribute over; every
   * metadata name holds the value of its last entry.
   */
  lemma RecordAttributes(event: Event, stamp: Timestamp)
    requires Record(event, stamp).Ok?
    ensures var item := Record(event, stamp).value;
      var names := UpperNames(event.metadata.value);
      (ImageIdAttribute !in names ==> ImageIdAttribute in item && item[ImageIdAttribute] == Str(event.imageId)) &&
      (PredictedClassAttribute !in names ==>
        PredictedClassAttribute in item && item[PredictedClassAttribute] == Str(event.classification.value.predictedClass)) &&
      (DateAttribute !in names ==> DateAttribute in item && item[DateAttribute] == Str(stamp.date)) &&
      (TimeAttribute !in names ==> TimeAttribute in item && item[TimeAttribute] == Str(stamp.time))
    ensures var item := Record(event, stamp).value;
      var names := UpperNames(event.metadata.value);
      var c := event.classification.value;
      forall k :: k in c.probabilities && ProbabilityPrefix + k !in names ==>
        ProbabilityPrefix + k in item && item[ProbabilityPrefix + k] == Num(c.probabilities[k])
    ensures var item := Record(event, stamp).value;
      forall a :: a in UpperNames(event.metadata.value) ==> a in item && item[a] == LastValue(event.metadata.value, a)
  {
    var c := event.classification.value;
    var base := BaseRecord(event.imageId, c, stamp);
    BaseRecordKeys(event.imageId, c, stamp);
    BaseRecordFixed(event.imageId, c, stamp);
    forall k | k in c.probabilities
      ensures base[ProbabilityPrefix + k] == Num(c.probabilities[k])
    {
      BaseRecordProbability(event.imageId, c, stamp, k);
    }
    WithMetadataEntries(base, event.metadata.value);
  }

  /** The stored record's key is the image id when no metadata name takes the "IMAGE ID" attribute over. */
  lemma RecordKey(event: Event, stamp: Timestamp)
    requires Record(event, stamp).Ok?
    requires ImageIdAttribute !in UpperNames(event.metadata.value)
    ensures KeyOf(Record(event, stamp).value) == Some(event.imageId)
  {
    var base := BaseRecord(event.imageId, event.classification.value, stamp);
    BaseRecordKeys(event.imageId, event.classification.value, stamp);
    BaseRecordFixed(event.imageId, event.classification.value, stamp);
    WithMetadataEntries(base, event.metadata.value);
  }

  /** The tables after both writes, or the failure that stopped the stage before the first. */
  function Logged(t: Tables, event: Event, stamp: Timestamp): Result<Tables>
  {
    match Record(event, stamp)
    case Err(e) => Err(e)
    case Ok(item) =>
      match Apply(t, Put(Classifications, item))
      case None => Err(ValidationException)
      case Some(t') => Ok(Apply(t', Put(UploadHistory, Marker(event.imageId))).value)
  }

  /**
   * After a successful stage the record is stored under its key, the upload history holds
   * the image id with only that attribute, the error table is as it was, and every other
   * stored item is unchanged.
   */
  lemma LoggedTables(t: Tables, event: Event, stamp: Timestamp)
    requires Logged(t, event, stamp).Ok?
    ensures var item := Record(event, stamp).value;
      var after := Logged(t, event, stamp).value;
      KeyOf(item).Some? &&
      after.classifications == t.classifications[KeyOf(item).value := item] &&
      after.uploadHistory == t.uploadHistory[event.imageId := Marker(event.imageId)] &&
      after.errors == t.errors
  {
    var item := Record(event, stamp).value;
    var t1 := Apply(t, Put(Classifications, item)).value;
    assert t1 == t.(classifications := t.classifications[KeyOf(item).value := item]);
    assert Apply(t1, Put(UploadHistory, Marker(event.imageId))).value == t1.(uploadHistory := t1.uploadHistory[event.imageId := Marker(event.imageId)]);
  }

  /** Adding a class adds its probability attribute. */
  lemma ProbabilityAttributesInsert(m: map<string, real>, k: string, v: real)
    ensures ProbabilityAttributes(m[k := v]) == ProbabilityAttributes(m)[ProbabilityPrefix + k := Num(v)]
  {
    var lhs := ProbabilityAttributes(m[k := v]);
    var rhs := ProbabilityAttributes(m)[ProbabilityPrefix + k := Num(v)];
    InsertKeys(m, k, v);
    forall a | a in lhs
      ensures lhs[a] == rhs[a]
    {
      var c :| c in m[k := v] && a == ProbabilityPrefix + c;
      InsertValue(m, k, v, c);
    }
  }

  lemma InsertKeys(m: map<string, real>, k: string, v: real)
    ensures ProbabilityAttributes(m[k := v]).Keys == ProbabilityAttributes(m).Keys + {ProbabilityPrefix + k}
  {
  }

  lemma InsertValue(m: map<string, real>, k: string, v: real, c: string)
    requires c in m[k := v]
    ensures ProbabilityAttributes(m[k := v])[ProbabilityPrefix + c] ==
      ProbabilityAttributes(m)[ProbabilityPrefix + k := Num(v)][ProbabilityPrefix + c]
  {
    if c != k {
      PrefixInjective();
      assert ProbabilityPrefix + c != ProbabilityPrefix + k;
      assert m[k := v][c] == m[c];
    }
  }

  lemma MergeUpdate(a: Item, b: Item, k: string, v: Value)
    ensures (a + b)[k := v] == a + b[k := v]
  {
  }

  lemma RemainingStep(probabilities: map<string, real>, remaining: set<string>, k: string)
    requires k in remaining && remaining <= probabilities.Keys
    ensures probabilities - (remaining - {k}) == (probabilities - remaining)[k := probabilities[k]]
  {
  }

  /** Lines 19-21: `item['PROBABILITY OF ' + cls] = classes[cls]` for every class. */
  method AddProbabilities(head: Item, probabilities: map<string, real>) returns (item: Item)
    ensures item == head + ProbabilityAttributes(probabilities)
  {
    item := head;
    var remaining := probabilities.Keys;
    while remaining != {}
      invariant remaining <= probabilities.Keys
      invariant item == head + ProbabilityAttributes(probabilities - remaining)
      decreases remaining
    {
      var k :| k in remaining;
      RemainingStep(probabilities, remaining, k);
      ProbabilityAttributesInsert(probabilities - remaining, k, probabilities[k]);
      MergeUpdate(head, ProbabilityAttributes(probabilities - remaining), ProbabilityPrefix + k, Num(probabilities[k]));
      item := item[ProbabilityPrefix + k := Num(probabilities[k])];
      remaining := remaining - {k};
    }
    assert probabilities - {} == probabilities;
  }

  /** Lines 25-29: each metadata entry under its upper-cased name, in order. */
  method AddMetadata(base: Item, metadata: Metadata) returns (item: Item)
    ensures item == WithMetadata(base, metadata)
  {
    item := base;
    for i := 0 to |metadata|
      invariant item == WithMetadata(base, metadata[..i])
    {
      assert metadata[..i + 1][..i] == metadata[..i];
      item := item[Upper(metadata[i].0) := metadata[i].1];
    }
    assert metadata[..|metadata|] == metadata;
  }

  /** Lines 14-29 with the clock's reading given as `stamp`. */
  method BuildRecord(event: Event, stamp: Timestamp) returns (r: Result<Item>)
    ensures r == Record(event, stamp)
  {
    if event.classification.None? {
      return Err(KeyError("classification"));
    }
    var c := event.classification.value;
    var item := map[ImageIdAttribute := Str(event.imageId), PredictedClassAttribute := Str(c.predictedClass)];
    item := AddProbabilities(item, c.probabilities);
    item := item[DateAttribute := Str(stamp.date)][TimeAttribute := Str(stamp.time)];
    assert item == BaseRecord(event.imageId, c, stamp);
    if event.metadata.None? {
      return Err(KeyError("metadata"));
    }
    item := AddMetadata(item, event.metadata.value);
    r := Ok(item);
  }

  /** Lines 13-33: the record, then the upload-history marker, are put in that order. */
  method LambdaHandler(db: Database, event: Event, stamp: Timestamp) returns (r: Result<()>)
    requires db.Valid()
    modifies db
    ensures db.Valid()
    ensures r.Ok? <==> Logged(old(db.tables), event, stamp).Ok?
    ensures r.Ok? ==> (db.tables == Logged(old(db.tables), event, stamp).value &&
      db.journal == old(db.journal) + [Put(Classifications, Record(event, stamp).value), Put(UploadHistory, Marker(event.imageId))])
    ensures r.Err? ==> (r.error == Logged(old(db.tables), event, stamp).error &&
      db.tables == old(db.tables) && db.journal == old(db.journal))
  {
    var record := BuildRecord(event, stamp);
    if record.Err? {
      return Err(record.error);
    }
    var stored := db.PutItem(Classifications, record.value);
    if !stored {
      return Err(ValidationException);
    }
    var marked := db.PutItem(UploadHistory, Marker(event.imageId));
    r := Ok(());
  }
}
