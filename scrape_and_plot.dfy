/**
 * The scraper of the Abell cluster and star-forming region lists and of the Sharpless
 * catalogue: header cleaning, table keys, the row grouping from a start index, the page
 * loop and the clean-up of cluster coordinates.
 */
module ScrapeAndPlot {
  import opened Wrappers
  import opened Text
  import opened Seqs
  import opened TableRows
  import ScrapeSharpless

  /** `extract_from_soup(soup, headers, start_index)`: the cells from `start_index` on. */
  function ExtractedFrom(headers: seq<string>, cells: seq<string>, startIndex: int): Result<Frame>
  {
    Extracted(headers, SliceFrom(cells, startIndex))
  }

  /** Lines 13-28: the grouping of the cells from `start_index` on. */
  method ExtractFromSoup(headers: seq<string>, cells: seq<string>, startIndex: int) returns (r: Result<Frame>)
    ensures r == ExtractedFrom(headers, cells, startIndex)
  {
    r := Extract(headers, SliceFrom(cells, startIndex));
  }

  /**
   * The extracted table has the headers as columns and one header's worth of cells per
   * row; its rows in index order are the cells from `start_index` on, followed by copies
   * of the last cell when that cell alone was broadcast across the last row. It exists
   * exactly when every stored row is full or, for at least two headers, the last row got a
   * single cell; for a multiple of the header count the rows are exactly those cells.
   */
  lemma ExtractedRows(headers: seq<string>, cells: seq<string>, startIndex: int)
    ensures var w := |headers|;
      var tail := SliceFrom(cells, startIndex);
      ExtractedFrom(headers, cells, startIndex).Ok? <==>
        (w == 0 && tail == []) || (w >= 1 && tail != [] && (|tail| % w == 0 || |tail| % w == 1))
    ensures ExtractedFrom(headers, cells, startIndex).Ok? ==>
      var f := ExtractedFrom(headers, cells, startIndex).value;
      var tail := SliceFrom(cells, startIndex);
      f.columns == headers && Flatten(f.rows) == Padded(tail, |headers|) &&
      (|headers| >= 1 && |tail| % |headers| == 0 ==> Flatten(f.rows) == tail) &&
      forall k :: 0 <= k < |f.rows| ==> |f.rows[k]| == |headers|
  {
    var tail := SliceFrom(cells, startIndex);
    GroupedMeaning(tail, |headers|);
    if Grouped(tail, |headers|).Ok? {
      GroupedRows(tail, |headers|);
    }
  }

  /** `get_tables` keeps each table's cells as they are. */
  function Unchanged(cells: seq<string>): seq<string>
  {
    cells
  }

  /** Lines 31-46: the dictionary of every table of the page by its key. */
  function Tables(soups: seq<TableSoup>): Result<Dict<Frame>>
  {
    match CleanedHeaders(soups)
    case Err(e) => Err(e)
    case Ok(headers) => Collected([], soups, headers, Unchanged)
  }

  /** Lines 31-46 */
  method GetTables(soups: seq<TableSoup>) returns (r: Result<Dict<Frame>>)
    ensures r == Tables(soups)
  {
    var found := CleanedHeaders(soups);
    if found.Err? {
      return Err(found.error);
    }
    var headers := found.value;
    var tables: Dict<Frame> := [];
    for i := 0 to |soups|
      invariant Collected(tables, soups[i..], headers, Unchanged) == Tables(soups)
    {
      assert soups[i..][1..] == soups[i + 1..];
      var key := KeyOf(soups[i]);
      if key.Err? {
        return Err(key.error);
      }
      var table := ExtractFromSoup(headers, soups[i].cells, 0);
      assert SliceFrom(soups[i].cells, 0) == soups[i].cells;
      if table.Err? {
        return Err(table.error);
      }
      tables := Insert(tables, key.value, table.value);
    }
    assert soups[|soups|..] == [];
    r := Ok(tables);
  }

  /**
   * A key is in the dictionary exactly when some table has it, and it holds the last such
   * table: the cleaned headers as columns and that table's cells in full rows, a lone
   * last cell broadcast across its row.
   */
  lemma TablesByKey(soups: seq<TableSoup>, key: string)
    requires Tables(soups).Ok?
    ensures (exists i :: 0 <= i < |soups| && KeyOf(soups[i]) == Ok(key)) <==> Lookup(Tables(soups).value, key).Some?
    ensures Lookup(Tables(soups).value, key).Some? ==>
      var f := Lookup(Tables(soups).value, key).value;
      var i := LastWithKey(soups, key);
      f.columns == CleanedHeaders(soups).value && Flatten(f.rows) == Padded(soups[i].cells, |f.columns|) &&
      forall k :: 0 <= k < |f.rows| ==> |f.rows[k]| == |f.columns|
  {
    var headers := CleanedHeaders(soups).value;
    CollectedLookup([], soups, headers, Unchanged, key);
    if exists i :: 0 <= i < |soups| && KeyOf(soups[i]) == Ok(key) {
      var i := LastWithKey(soups, key);
      ExtractedRows(headers, soups[i].cells, 0);
      assert SliceFrom(soups[i].cells, 0) == soups[i].cells;
    }
  }

  /**
   * Lines 81-99: the stripped headers of the first page, with no marker removal (line 84),
   * then the Sharpless pages, each without its first cell, in page order. These lines repeat
   * the Sharpless script's collection, so they are that script's `Scrape`.
   */
  method SharplessCollection(soups: seq<TableSoup>, numOfPages: nat, page: nat -> seq<string>) returns (r: Result<Frame>)
    ensures r == PagesScraped(soups, numOfPages, page)
  {
    r := ScrapeSharpless.Scrape(soups, numOfPages, page);
  }

  /**
   * Lines 114-115: a cluster coordinate with each no-break space made a space and then
   * stripped. It is the run of the text from its first to its last character that is not
   * whitespace, with every no-break space in it made a space; everything of the text around
   * it is whitespace, and the result has no no-break space and no surrounding whitespace.
   */
  function Coordinate(text: string): (r: string)
    ensures var i := SkipSpace(Replace(text, NoBreakSpace, ' '), 0);
      i + |r| <= |text| &&
      (forall k :: 0 <= k < |r| ==> r[k] == if text[i + k] == NoBreakSpace then ' ' else text[i + k]) &&
      forall k :: 0 <= k < |text| && (k < i || i + |r| <= k) ==> IsSpace(text[k])
    ensures NoBreakSpace !in r
    ensures r != [] ==> !IsSpace(r[0]) && !IsSpace(r[|r| - 1])
  {
    StrippedCoordinate(text);
    Strip(Replace(text, NoBreakSpace, ' '))
  }

  lemma StrippedCoordinate(text: string)
    ensures var t := Replace(text, NoBreakSpace, ' '); var r := Strip(t); var i := SkipSpace(t, 0);
      i + |r| <= |text| &&
      (forall k :: 0 <= k < |r| ==> r[k] == if text[i + k] == NoBreakSpace then ' ' else text[i + k]) &&
      (forall k :: 0 <= k < |text| && (k < i || i + |r| <= k) ==> IsSpace(text[k])) &&
      NoBreakSpace !in r
  {
    var t := Replace(text, NoBreakSpace, ' ');
    var r := Strip(t);
    var i := SkipSpace(t, 0);
    assert r == t[i..i + |r|] && SpaceOutside(t, i, i + |r|);
    forall k | 0 <= k < |r|
      ensures r[k] == if text[i + k] == NoBreakSpace then ' ' else text[i + k]
    {
      assert r[k] == t[i + k];
    }
    forall k | 0 <= k < |text| && (k < i || i + |r| <= k)
      ensures IsSpace(text[k])
    {
      assert IsSpace(t[k]);
      assert IsSpace(NoBreakSpace);
    }
    if NoBreakSpace in r {
      StripChars(t, NoBreakSpace);
    }
  }
}
