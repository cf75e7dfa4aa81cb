/**
 * The Sharpless catalogue scraper: the stripped headers of the first page's table and the
 * tables of the pages reached by the Next button, concatenated in page order.
 */
module ScrapeSharpless {
  import opened Wrappers
  import opened Text
  import opened Seqs
  import opened TableRows

  /** Lines 12-25: the grouping of a page's cells after the first. */
  method ExtractFromSoup(headers: seq<string>, cells: seq<string>) returns (r: Result<Frame>)
    ensures r == Extracted(headers, SliceFrom(cells, 1))
  {
    r := Extract(headers, SliceFrom(cells, 1));
  }

  /**
   * A page's table drops exactly the first cell: its rows in index order are the other
   * cells, one header's worth per row, a lone last cell broadcast across its row.
   */
  lemma FirstCellSkipped(headers: seq<string>, cells: seq<string>)
    requires Extracted(headers, SliceFrom(cells, 1)).Ok?
    ensures var f := Extracted(headers, SliceFrom(cells, 1)).value;
      Flatten(f.rows) == Padded(if cells == [] then [] else cells[1..], |headers|) &&
      forall k :: 0 <= k < |f.rows| ==> |f.rows[k]| == |headers|
  {
    GroupedRows(SliceFrom(cells, 1), |headers|);
  }

  /**
   * Lines 28-45: the stripped headers of the first page (line 31), then `num_of_pages`
   * pages, the page after each click given by `page`.
   */
  method Scrape(soups: seq<TableSoup>, numOfPages: nat, page: nat -> seq<string>) returns (r: Result<Frame>)
    ensures r == PagesScraped(soups, numOfPages, page)
  {
    var headers := StrippedHeaders(soups);
    if headers.Err? {
      return Err(headers.error);
    }
    r := CollectPages(headers.value, numOfPages, page, 1);
  }

  /**
   * The collection holds every page's cells but the first, in page order and in full rows
   * under the stripped headers; it fails when some page's cells cannot be stored.
   */
  lemma ScrapedInPageOrder(soups: seq<TableSoup>, numOfPages: nat, page: nat -> seq<string>)
    requires soups != []
    ensures var headers := StripAll(soups[0].headings);
      PagesScraped(soups, numOfPages, page).Err? <==>
        exists i :: 0 <= i < numOfPages && Grouped(SliceFrom(page(i), 1), |headers|).Err?
    ensures PagesScraped(soups, numOfPages, page).Ok? ==>
      var f := PagesScraped(soups, numOfPages, page).value;
      f.columns == StripAll(soups[0].headings) && Flatten(f.rows) == PageCells(numOfPages, page, 1, |f.columns|) &&
      forall k :: 0 <= k < |f.rows| ==> |f.rows[k]| == |f.columns|
  {
    PagesInOrder(StripAll(soups[0].headings), numOfPages, page, 1);
  }
}
