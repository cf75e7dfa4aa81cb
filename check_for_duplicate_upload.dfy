/** The duplicate guard: asks the upload-history table whether the image id was seen before. */
module CheckForDuplicateUpload {
  import opened Wrappers
  import opened Events
  import opened Ledger

  /** The table holds an item whose "IMAGE ID" is `id`: the answer the query gives. */
  ghost predicate Recorded(t: Tables, id: string)
  {
    exists x :: x in t.uploadHistory.Values && KeyOf(x) == Some(id)
  }

  /** Because the table is keyed by "IMAGE ID", the query is a point lookup. */
  lemma RecordedIsLookup(t: Tables, id: string)
    requires WellKeyed(t)
    ensures Recorded(t, id) <==> id in t.uploadHistory
  {
    if id in t.uploadHistory {
      assert t.uploadHistory[id] in t.uploadHistory.Values;
    }
  }

  /**
   * `lambda_handler`: the returned event is the input with `is_duplicate` set to whether
   * the table holds the id. Nothing is written, so asking again gives the same answer.
   */
  method LambdaHandler(db: Database, event: Event) returns (r: Event)
    requires db.Valid()
    ensures r == event.(isDuplicate := Some(Recorded(db.tables, event.imageId)))
  {
    var items := db.QueryUploadHistory(event.imageId);
    var isDuplicate := |items| > 0;
    if isDuplicate {
      assert items[0] in db.tables.uploadHistory.Values;
    }
    r := event.(isDuplicate := Some(isDuplicate));
  }
}
