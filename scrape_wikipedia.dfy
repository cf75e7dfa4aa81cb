/**
 * The Wikipedia scraper: the same header cleaning and table keys as the combined scraper,
 * with every cell stripped before the grouping, and the cluster coordinates' no-break
 * spaces made spaces without a strip.
 */
module ScrapeWikipedia {
  import opened Wrappers
  import opened Text
  import opened Seqs
  import opened TableRows

  /** Lines 20-37: the tables by key, each grouped from its stripped cells. */
  function Tables(soups: seq<TableSoup>): Result<Dict<Frame>>
  {
    match CleanedHeaders(soups)
    case Err(e) => Err(e)
    case Ok(headers) => Collected([], soups, headers, StripAll)
  }

  /**
   * Lines 25-35, the inline grouping loop: each cell is stripped as the loop takes it, and
   * `temp` is stored under the label `inc` once it holds one cell per header; the last `temp`
   * is stored after the loop. This groups the same rows as stripping every cell first.
   */
  method GroupStripped(headers: seq<string>, cells: seq<string>) returns (r: Result<Frame>)
    ensures r == Extracted(headers, StripAll(cells))
  {
    var table := new DataFrame(headers);
    var w := |headers|;
    ghost var stripped := StripAll(cells);
    var temp: seq<string> := [];
    var inc := 0;
    for i := 0 to |cells|
      invariant table.columns == headers && inc == |table.rows|
      invariant Feed(table.rows, temp, stripped[i..], w) == Grouped(stripped, w)
    {
      assert stripped[i..][1..] == stripped[i + 1..];
      var entry := Strip(cells[i]);
      if |temp| < w {
        temp := temp + [entry];
      } else {
        var stored := table.SetRow(inc, temp);
        if stored.Err? {
          return Err(stored.error);
        }
        temp := [entry];
        inc := inc + 1;
      }
    }
    assert stripped[|cells|..] == [];
    var stored := table.SetRow(inc, temp);
    if stored.Err? {
      return Err(stored.error);
    }
    r := Ok(table.Value());
  }

  /** Lines 11-37: the cleaned headers, then for each table its key and its grouped rows. */
  method GetTables(soups: seq<TableSoup>) returns (r: Result<Dict<Frame>>)
    ensures r == Tables(soups)
  {
    var found := CleanedHeaders(soups);
    if found.Err? {
      return Err(found.error);
    }
    var headers := found.value;
    var tables: Dict<Frame> := [];
    for i := 0 to |soups|
      invariant Collected(tables, soups[i..], headers, StripAll) == Tables(soups)
    {
      assert soups[i..][1..] == soups[i + 1..];
      var key := KeyOf(soups[i]);
      if key.Err? {
        return Err(key.error);
      }
      var table := GroupStripped(headers, soups[i].cells);
      if table.Err? {
        return Err(table.error);
      }
      tables := Insert(tables, key.value, table.value);
    }
    assert soups[|soups|..] == [];
    r := Ok(tables);
  }

  /**
   * A key is in the dictionary exactly when some table has it, and it holds the last such
   * table: the headers as columns and that table's cells, each stripped, in full rows, a
   * lone last cell broadcast across its row.
   */
  lemma TablesByKey(soups: seq<TableSoup>, key: string)
    requires Tables(soups).Ok?
    ensures (exists i :: 0 <= i < |soups| && KeyOf(soups[i]) == Ok(key)) <==> Lookup(Tables(soups).value, key).Some?
    ensures Lookup(Tables(soups).value, key).Some? ==>
      var f := Lookup(Tables(soups).value, key).value;
      var i := LastWithKey(soups, key);
      f.columns == CleanedHeaders(soups).value && Flatten(f.rows) == Padded(StripAll(soups[i].cells), |f.columns|) &&
      forall k :: 0 <= k < |f.rows| ==> |f.rows[k]| == |f.columns|
  {
    var headers := CleanedHeaders(soups).value;
    CollectedLookup([], soups, headers, StripAll, key);
    if exists i :: 0 <= i < |soups| && KeyOf(soups[i]) == Ok(key) {
      var i := LastWithKey(soups, key);
      GroupedRows(StripAll(soups[i].cells), |headers|);
    }
  }

  /**
   * Lines 66-67: a cluster coordinate with each no-break space made a space and nothing
   * else changed; no no-break space is left.
   */
  function Coordinate(text: string): (r: string)
    ensures |r| == |text| && NoBreakSpace !in r
    ensures forall k :: 0 <= k < |text| ==> r[k] == if text[k] == NoBreakSpace then ' ' else text[k]
  {
    Replace(text, NoBreakSpace, ' ')
  }
}
