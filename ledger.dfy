/**
 * The three DynamoDB tables: image classifications and upload history, both keyed by
 * the "IMAGE ID" attribute, and the error table, kept as the append-only list of the
 * error records written to it.
 */
module Ledger {
  import opened Wrappers
  import opened Events

  const ImageIdAttribute := "IMAGE ID"

  datatype TableName = Classifications | UploadHistory | Errors

  /** One `put_item` call. */
  datatype Write = Put(table: TableName, item: Item)

  /** The contents of the three tables at one moment. */
  datatype Tables = Tables(classifications: map<string, Item>, uploadHistory: map<string, Item>, errors: seq<Item>)

  /** The key of an item: its "IMAGE ID" attribute, which must be a string. */
  function KeyOf(item: Item): Option<string>
  {
    if ImageIdAttribute in item && item[ImageIdAttribute].Str? then Some(item[ImageIdAttribute].s) else None
  }

  /** Every stored item sits under its own key. */
  ghost predicate Keyed(table: map<string, Item>)
  {
    forall k :: k in table ==> KeyOf(table[k]) == Some(k)
  }

  ghost predicate WellKeyed(t: Tables)
  {
    Keyed(t.classifications) && Keyed(t.uploadHistory)
  }

  /**
   * What one put does to the tables: a keyed table stores the item under its key,
   * replacing any item there, and rejects an item without a string key; the error
   * table appends.
   */
  function Apply(t: Tables, w: Write): (r: Option<Tables>)
    ensures r.None? <==> w.table != Errors && KeyOf(w.item).None?
    ensures r.Some? && w.table == Classifications ==>
      r.value.uploadHistory == t.uploadHistory && r.value.errors == t.errors &&
      r.value.classifications.Keys == t.classifications.Keys + {KeyOf(w.item).value} &&
      r.value.classifications[KeyOf(w.item).value] == w.item &&
      forall k :: k in t.classifications && Some(k) != KeyOf(w.item) ==> r.value.classifications[k] == t.classifications[k]
    ensures r.Some? && w.table == UploadHistory ==>
      r.value.classifications == t.classifications && r.value.errors == t.errors &&
      r.value.uploadHistory.Keys == t.uploadHistory.Keys + {KeyOf(w.item).value} &&
      r.value.uploadHistory[KeyOf(w.item).value] == w.item &&
      forall k :: k in t.uploadHistory && Some(k) != KeyOf(w.item) ==> r.value.uploadHistory[k] == t.uploadHistory[k]
    ensures w.table == Errors ==> r == Some(t.(errors := t.errors + [w.item]))
  {
    match w.table
    case Errors => Some(t.(errors := t.errors + [w.item]))
    case Classifications =>
      if KeyOf(w.item).None? then None
      else Some(t.(classifications := t.classifications[KeyOf(w.item).value := w.item]))
    case UploadHistory =>
      if KeyOf(w.item).None? then None
      else Some(t.(uploadHistory := t.uploadHistory[KeyOf(w.item).value := w.item]))
  }

  /** A put keeps every stored item under its own key. */
  lemma ApplyKeepsKeys(t: Tables, w: Write)
    requires WellKeyed(t) && Apply(t, w).Some?
    ensures WellKeyed(Apply(t, w).value)
  {
  }

  /** The DynamoDB resource the handlers share. */
  class Database {
    var tables: Tables
    /** Every put that succeeded, in order. */
    ghost var journal: seq<Write>

    ghost predicate Valid()
      reads this
    {
      WellKeyed(tables)
    }

    constructor (initial: Tables)
      requires WellKeyed(initial)
      ensures Valid() && tables == initial && journal == []
    {
      tables := initial;
      journal := [];
    }

    /** `Table.put_item(Item=item)`; `ok` is false exactly when the table rejects the item. */
    method PutItem(table: TableName, item: Item) returns (ok: bool)
      requires Valid()
      modifies this
      ensures Valid()
      ensures ok == Apply(old(tables), Put(table, item)).Some?
      ensures ok ==> tables == Apply(old(tables), Put(table, item)).value && journal == old(journal) + [Put(table, item)]
      ensures !ok ==> tables == old(tables) && journal == old(journal)
    {
      var next := Apply(tables, Put(table, item));
      ok := next.Some?;
      if ok {
        ApplyKeepsKeys(tables, Put(table, item));
        tables := next.value;
        journal := journal + [Put(table, item)];
      }
    }

    /**
     * `upload_history_table.query(...)` on the "IMAGE ID" key: the items whose
     * "IMAGE ID" is `id`. The table is keyed by that attribute, so there is at most one.
     */
    method QueryUploadHistory(id: string) returns (items: seq<Item>)
      requires Valid()
      ensures |items| <= 1
      ensures forall x :: x in items <==> x in tables.uploadHistory.Values && KeyOf(x) == Some(id)
    {
      if id in tables.uploadHistory {
        items := [tables.uploadHistory[id]];
      } else {
        items := [];
      }
    }
  }
}
