/**
 * How the ledger writer and the duplicate guard meet on the shared upload-history table:
 * once an image has been logged, a later arrival with the same image id is a duplicate.
 * Only the two handlers' own contracts are used; no state-machine transition is assumed.
 */
module Pipeline {
  import opened Wrappers
  import opened Events
  import opened Ledger
  import LogToDynamodb
  import CheckForDuplicateUpload

  /**
   * A logged image leaves the tables keyed, and the guard's query for its id then finds
   * its upload-history marker.
   */
  lemma LoggedIsDuplicate(t: Tables, event: Event, stamp: Timestamp)
    requires WellKeyed(t) && LogToDynamodb.Logged(t, event, stamp).Ok?
    ensures WellKeyed(LogToDynamodb.Logged(t, event, stamp).value)
    ensures CheckForDuplicateUpload.Recorded(LogToDynamodb.Logged(t, event, stamp).value, event.imageId)
  {
    LogToDynamodb.LoggedTables(t, event, stamp);
    var after := LogToDynamodb.Logged(t, event, stamp).value;
    var item := LogToDynamodb.Record(event, stamp).value;
    assert Keyed(after.classifications) by {
      forall k | k in after.classifications
        ensures KeyOf(after.classifications[k]) == Some(k)
      {
        if k != KeyOf(item).value {
          assert after.classifications[k] == t.classifications[k];
        }
      }
    }
    assert Keyed(after.uploadHistory) by {
      forall k | k in after.uploadHistory
        ensures KeyOf(after.uploadHistory[k]) == Some(k)
      {
        if k != event.imageId {
          assert after.uploadHistory[k] == t.uploadHistory[k];
        }
      }
    }
    CheckForDuplicateUpload.RecordedIsLookup(after, event.imageId);
  }

  /**
   * The ledger stage for one event followed by the guard for a later event with the same
   * image id, on the same database: after a successful log the later event is flagged.
   */
  method LogThenCheck(db: Database, event: Event, stamp: Timestamp, later: Event)
    returns (logged: Result<()>, checked: Event)
    requires db.Valid() && later.imageId == event.imageId
    modifies db
    ensures db.Valid()
    ensures logged.Ok? ==> checked == later.(isDuplicate := Some(true))
    ensures logged.Err? ==>
      db.tables == old(db.tables) &&
      checked == later.(isDuplicate := Some(CheckForDuplicateUpload.Recorded(old(db.tables), later.imageId)))
  {
    ghost var before := db.tables;
    logged := LogToDynamodb.LambdaHandler(db, event, stamp);
    if logged.Ok? {
      LoggedIsDuplicate(before, event, stamp);
    }
    checked := CheckForDuplicateUpload.LambdaHandler(db, later);
  }
}
