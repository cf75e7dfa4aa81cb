/**
 * What the three scrapers share: the grouping of a table's flat cell list into rows of one
 * cell per header, stored row by row into a `pandas` DataFrame; the removal of bracketed
 * footnote markers from headers and table keys; and the dictionary of tables by key.
 */
module TableRows {
  import opened Wrappers
  import opened Text
  import opened Seqs

  /** A table's column names and its rows. */
  datatype Frame = Frame(columns: seq<string>, rows: seq<seq<string>>)

  /**
   * The rows by their meaning: consecutive runs of `w` cells, the last run holding what is
   * left over.
   */
  function Chunks(cells: seq<string>, w: nat): (rows: seq<seq<string>>)
    requires w >= 1
    ensures |rows| >= 1
    decreases |cells|
  {
    if |cells| <= w then [cells] else [cells[..w]] + Chunks(cells[w..], w)
  }

  lemma FlattenCons(x: seq<string>, rest: seq<seq<string>>)
    ensures Flatten([x] + rest) == x + Flatten(rest)
  {
    FlattenAppend([x], rest);
    assert [x][..0] == [];
  }

  /** The rows, one after the other, are the cells. */
  lemma {:induction false} ChunksFlatten(cells: seq<string>, w: nat)
    requires w >= 1
    decreases |cells|
    ensures Flatten(Chunks(cells, w)) == cells
  {
    if |cells| <= w {
      FlattenCons(cells, []);
    } else {
      ChunksFlatten(cells[w..], w);
      FlattenCons(cells[..w], Chunks(cells[w..], w));
      assert cells[..w] + cells[w..] == cells;
    }
  }

  /**
   * Every row but the last has `w` cells; the last has between one and `w`, or none when
   * there are no cells at all; so the cell count is `w` per full row plus the last row's.
   */
  lemma {:induction false} ChunksShape(cells: seq<string>, w: nat)
    requires w >= 1
    decreases |cells|
    ensures var rows := Chunks(cells, w);
      (forall k :: 0 <= k < |rows| - 1 ==> |rows[k]| == w) &&
      |rows[|rows| - 1]| <= w &&
      (cells != [] <==> |rows[|rows| - 1]| >= 1) &&
      |cells| == (|rows| - 1) * w + |rows[|rows| - 1]|
  {
    if |cells| > w {
      var rest := Chunks(cells[w..], w);
      ChunksShape(cells[w..], w);
      var rows := [cells[..w]] + rest;
      assert Chunks(cells, w) == rows;
      assert rows[|rows| - 1] == rest[|rest| - 1];
      forall k | 0 <= k < |rows| - 1
        ensures |rows[k]| == w
      {
        if k > 0 {
          assert rows[k] == rest[k - 1];
        }
      }
      MulSucc(|rest| - 1, w);
      assert |cells| == |cells[w..]| + w;
    }
  }

  lemma MulSucc(a: nat, w: nat)
    ensures (a + 1) * w == a * w + w
  {
  }

  lemma MulStep(a: nat, b: nat, w: nat)
    requires a < b
    ensures a * w + w <= b * w
  {
    var k := b - a - 1;
    assert b * w == a * w + w + k * w;
  }

  /** `q·w + r` with `0 <= r < w` divides back to `q`, leaving `r`. */
  lemma DivideBack(q: nat, r: nat, w: nat)
    requires 0 <= r < w
    ensures (q * w + r) / w == q
    ensures (q * w + r) % w == r
  {
    var n := q * w + r;
    var d := n / w;
    var m := n % w;
    assert n == d * w + m;
    if d > q {
      MulStep(q, d, w);
      assert false;
    } else if d < q {
      MulStep(d, q, w);
      assert false;
    }
  }

  /** For cells there are ⌈n/w⌉ rows. */
  lemma ChunksCount(cells: seq<string>, w: nat)
    requires w >= 1 && cells != []
    ensures |Chunks(cells, w)| == (|cells| + w - 1) / w
  {
    ChunksShape(cells, w);
    var rows := Chunks(cells, w);
    var last := |rows[|rows| - 1]|;
    assert |cells| + w - 1 == (|rows| - 1) * w + w + (last - 1);
    assert (|rows| - 1) * w + w == |rows| * w;
    DivideBack(|rows|, last - 1, w);
  }

  /**
   * How `table.loc[inc, :] = row` fits a row to `w` columns: a row with one value per
   * column is stored as it is; with at least one column, the frame is one block of objects
   * and numpy broadcasts a single value across the whole row; any other length is
   * `pandas`' ValueError.
   */
  function Fit(row: seq<string>, w: nat): (r: Result<seq<string>>)
    ensures r.Ok? <==> |row| == w || (w >= 1 && |row| == 1)
    ensures r.Err? ==> r.error == ValueError
    ensures r.Ok? ==> |r.value| == w && forall k :: 0 <= k < w ==> r.value[k] == (if |row| == w then row[k] else row[0])
  {
    if |row| == w then Ok(row)
    else if w >= 1 && |row| == 1 then
      var c := row[0];
      Ok(seq(w, _ => c))
    else Err(ValueError)
  }

  /**
   * Whether `n` cells can be stored under `w` headers: without headers only no cell; with
   * headers at least one cell, filling whole rows except perhaps a last row of one cell,
   * which is broadcast.
   */
  predicate Storable(n: nat, w: nat)
  {
    if w == 0 then n == 0 else n > 0 && (n % w == 0 || n % w == 1)
  }

  /**
   * The cells as the table holds them: when at least two headers leave one cell for the
   * last row, that cell is repeated across the row.
   */
  function Padded(cells: seq<string>, w: nat): (p: seq<string>)
    ensures |p| == if w >= 2 && |cells| % w == 1 then |cells| + w - 1 else |cells|
    ensures p[..|cells|] == cells
    ensures forall k :: |cells| <= k < |p| ==> p[k] == cells[|cells| - 1]
  {
    if w >= 2 && |cells| % w == 1 then
      var last := cells[|cells| - 1];
      cells + seq(w - 1, _ => last)
    else cells
  }

  /**
   * The loop from a state in which `written` rows are stored and `temp` is being filled:
   * a cell is appended while `temp` is shorter than the header list, and otherwise `temp` is
   * stored and restarted with the cell; `temp` is stored once more after the last cell.
   * Each store fits `temp` to the columns or fails.
   */
  function Feed(written: seq<seq<string>>, temp: seq<string>, cells: seq<string>, w: nat): Result<seq<seq<string>>>
    decreases |cells|
  {
    if cells == [] then
      match Fit(temp, w)
      case Err(e) => Err(e)
      case Ok(row) => Ok(written + [row])
    else if |temp| < w then Feed(written, temp + [cells[0]], cells[1..], w)
    else
      match Fit(temp, w)
      case Err(e) => Err(e)
      case Ok(row) => Feed(written + [row], [cells[0]], cells[1..], w)
  }

  /** The rows the loop stores for a table's cells and `w` headers. */
  function Grouped(cells: seq<string>, w: nat): Result<seq<seq<string>>>
  {
    Feed([], [], cells, w)
  }

  lemma ModShift(n: nat, w: nat)
    requires w >= 1
    ensures (w + n) % w == n % w
  {
    var q := n / w;
    var r := n % w;
    assert n == q * w + r;
    assert w + n == (q + 1) * w + r;
    DivideBack(q + 1, r, w);
  }

  /** A partial first row `temp` is completed by the first cells, and the loop goes on chunking. */
  lemma {:induction false} FeedChunks(written: seq<seq<string>>, temp: seq<string>, cells: seq<string>, w: nat)
    requires w >= 1 && |temp| <= w
    decreases |cells|
    ensures Feed(written, temp, cells, w) ==
      if Storable(|temp + cells|, w) then Ok(written + Chunks(Padded(temp + cells, w), w)) else Err(ValueError)
  {
    if cells == [] {
      assert temp + cells == temp;
      FeedEnd(written, temp, w);
    } else if |temp| < w {
      assert Feed(written, temp, cells, w) == Feed(written, temp + [cells[0]], cells[1..], w);
      FeedChunks(written, temp + [cells[0]], cells[1..], w);
      assert (temp + [cells[0]]) + cells[1..] == temp + cells;
    } else {
      assert Fit(temp, w) == Ok(temp);
      assert Feed(written, temp, cells, w) == Feed(written + [temp], [cells[0]], cells[1..], w);
      FeedChunks(written + [temp], [cells[0]], cells[1..], w);
      assert [cells[0]] + cells[1..] == cells;
      FullRowFirst(written, temp, cells, w);
    }
  }

  /**
   * After the last cell, `temp` is stored, which succeeds for a full row and, for at least
   * two headers, for a single cell.
   */
  lemma FeedEnd(written: seq<seq<string>>, temp: seq<string>, w: nat)
    requires w >= 1 && |temp| <= w
    ensures Feed(written, temp, [], w) ==
      if Storable(|temp|, w) then Ok(written + Chunks(Padded(temp, w), w)) else Err(ValueError)
  {
    if |temp| == w {
      DivideBack(1, 0, w);
      assert Padded(temp, w) == temp;
      assert Chunks(temp, w) == [temp];
    } else if |temp| == 1 {
      DivideBack(0, 1, w);
      var p := Padded(temp, w);
      assert p == Fit(temp, w).value;
      assert Chunks(p, w) == [p];
    } else if temp != [] {
      DivideBack(0, |temp|, w);
    }
  }

  /** A full first row is a chunk of its own, and whether the rest can be stored decides. */
  lemma FullRowFirst(written: seq<seq<string>>, temp: seq<string>, cells: seq<string>, w: nat)
    requires w >= 1 && |temp| == w && cells != []
    ensures Storable(|temp + cells|, w) <==> Storable(|cells|, w)
    ensures written + Chunks(Padded(temp + cells, w), w) == written + [temp] + Chunks(Padded(cells, w), w)
  {
    ModShift(|cells|, w);
    var all := temp + cells;
    assert all[|all| - 1] == cells[|cells| - 1];
    assert Padded(all, w) == temp + Padded(cells, w);
    assert Padded(all, w)[..w] == temp && Padded(all, w)[w..] == Padded(cells, w);
    assert Chunks(Padded(all, w), w) == [temp] + Chunks(Padded(cells, w), w);
  }

  /**
   * The grouping succeeds exactly when the cell count can be stored; for at least one
   * header the rows are then the chunks of the padded cells, and without headers (and no
   * cell) one empty row. Every failure is a ValueError.
   */
  lemma GroupedMeaning(cells: seq<string>, w: nat)
    ensures Grouped(cells, w).Ok? <==> Storable(|cells|, w)
    ensures Grouped(cells, w).Err? ==> Grouped(cells, w).error == ValueError
    ensures w >= 1 && Storable(|cells|, w) ==> Grouped(cells, w) == Ok(Chunks(Padded(cells, w), w))
    ensures w == 0 && cells == [] ==> Grouped(cells, w) == Ok([[]])
  {
    var none: seq<seq<string>> := [];
    if w >= 1 {
      FeedChunks(none, [], cells, w);
      assert [] + cells == cells;
      assert none + Chunks(Padded(cells, w), w) == Chunks(Padded(cells, w), w);
    } else if cells != [] {
      assert Feed(none, [], cells, 0) == Feed([[]], [cells[0]], cells[1..], 0);
      assert Feed([[]], [cells[0]], cells[1..], 0) == Err(ValueError);
    } else {
      assert none + [[]] == [[]];
    }
  }

  /** Storable cells pad to a positive multiple of the header count. */
  lemma PaddedFull(cells: seq<string>, w: nat)
    requires w >= 1 && Storable(|cells|, w)
    ensures Padded(cells, w) != [] && |Padded(cells, w)| % w == 0
  {
    if w >= 2 && |cells| % w == 1 {
      var q := |cells| / w;
      assert |cells| == q * w + 1;
      assert |Padded(cells, w)| == (q + 1) * w;
      DivideBack(q + 1, 0, w);
    }
  }

  /** Chunks of a positive multiple of `w` cells are all full, `|cells| / w` of them. */
  lemma FullChunks(cells: seq<string>, w: nat)
    requires w >= 1 && cells != [] && |cells| % w == 0
    ensures var rows := Chunks(cells, w);
      (forall k :: 0 <= k < |rows| ==> |rows[k]| == w) && |rows| * w == |cells|
  {
    ChunksShape(cells, w);
    var rows := Chunks(cells, w);
    var last := |rows[|rows| - 1]|;
    if last < w {
      assert |cells| == (|rows| - 1) * w + last;
      DivideBack(|rows| - 1, last, w);
    }
    assert |rows[|rows| - 1]| == w;
  }

  /**
   * A successful grouping holds the cells in order, a broadcast last cell repeated after
   * them, and nothing else; every row has one cell per header, and for a cell count that
   * is a multiple of the header count the rows are exactly the cells.
   */
  lemma GroupedRows(cells: seq<string>, w: nat)
    requires Grouped(cells, w).Ok?
    ensures var rows := Grouped(cells, w).value;
      Flatten(rows) == Padded(cells, w) &&
      (forall k :: 0 <= k < |rows| ==> |rows[k]| == w) &&
      |rows| * w == |Padded(cells, w)| &&
      (w >= 1 && |cells| % w == 0 ==> Flatten(rows) == cells)
  {
    GroupedMeaning(cells, w);
    if w >= 1 {
      var p := Padded(cells, w);
      PaddedFull(cells, w);
      ChunksFlatten(p, w);
      FullChunks(p, w);
      if |cells| % w == 0 {
        assert p == p[..|cells|];
      }
    } else {
      FlattenCons([], []);
    }
  }

  /** No cell, or a last row of between two cells and one short of full, fails the table. */
  lemma PartialRowFails(cells: seq<string>, w: nat)
    requires w >= 1 && (cells == [] || |cells| % w >= 2)
    ensures Grouped(cells, w) == Err(ValueError)
  {
    GroupedMeaning(cells, w);
  }

  /** Every value of `row` is `c`. */
  predicate AllOf(row: seq<string>, c: string)
  {
    forall k :: 0 <= k < |row| ==> row[k] == c
  }

  /**
   * For at least two headers, a single cell left for the last row is stored across that
   * whole row, after the full rows holding the cells before it.
   */
  lemma OneCellRowBroadcast(cells: seq<string>, w: nat)
    requires w >= 2 && |cells| % w == 1
    ensures Grouped(cells, w).Ok?
    ensures var rows := Grouped(cells, w).value; var n := |cells|;
      rows != [] && n >= 1 &&
      |rows[|rows| - 1]| == w && AllOf(rows[|rows| - 1], cells[n - 1]) &&
      Flatten(rows[..|rows| - 1]) == cells[..n - 1]
  {
    GroupedMeaning(cells, w);
    GroupedRows(cells, w);
    var rows := Grouped(cells, w).value;
    var p := Padded(cells, w);
    var n := |cells|;
    assert rows != [];
    assert p == Flatten(rows[..|rows| - 1]) + rows[|rows| - 1];
    assert rows[|rows| - 1] == p[n - 1..];
    assert Flatten(rows[..|rows| - 1]) == p[..n - 1];
    assert p[..n][..n - 1] == p[..n - 1];
    var last := rows[|rows| - 1];
    forall k | 0 <= k < |last|
      ensures last[k] == cells[n - 1]
    {
      assert last[k] == p[n - 1 + k];
      if k == 0 {
        assert p[..n][n - 1] == p[n - 1];
      }
    }
  }

  /** The DataFrame the loop writes rows into. */
  class DataFrame {
    var columns: seq<string>
    var rows: seq<seq<string>>

    function Value(): Frame
      reads this
    {
      Frame(columns, rows)
    }

    /** `pd.DataFrame(columns=headers)` */
    constructor (headers: seq<string>)
      ensures Value() == Frame(headers, [])
    {
      columns := headers;
      rows := [];
    }

    /**
     * `table.loc[index, :] = row` for an existing row label or the next one: the row is
     * fitted to the columns and stored; a row that does not fit is a ValueError.
     */
    method SetRow(index: nat, row: seq<string>) returns (r: Result<()>)
      requires index <= |rows|
      modifies this
      ensures r == if Fit(row, |old(columns)|).Ok? then Ok(()) else Err(ValueError)
      ensures Value() == if r.Err? then old(Value())
                         else if index < |old(rows)| then old(Value()).(rows := old(rows)[index := Fit(row, |old(columns)|).value])
                         else old(Value()).(rows := old(rows) + [Fit(row, |old(columns)|).value])
    {
      var fitted := Fit(row, |columns|);
      if fitted.Err? {
        return Err(ValueError);
      }
      if index < |rows| {
        rows := rows[index := fitted.value];
      } else {
        rows := rows + [fitted.value];
      }
      r := Ok(());
    }
  }

  /** The table an extraction gives: the headers as columns and the grouped rows. */
  function Extracted(headers: seq<string>, cells: seq<string>): Result<Frame>
  {
    match Grouped(cells, |headers|)
    case Err(e) => Err(e)
    case Ok(rows) => Ok(Frame(headers, rows))
  }

  /**
   * The grouping loop: `temp` collects cells and is stored under the label `inc` once it
   * holds one cell per header, and the last `temp` is stored after the loop.
   */
  method Extract(headers: seq<string>, cells: seq<string>) returns (r: Result<Frame>)
    ensures r == Extracted(headers, cells)
  {
    var table := new DataFrame(headers);
    var w := |headers|;
    var temp: seq<string> := [];
    var inc := 0;
    for i := 0 to |cells|
      invariant table.columns == headers && inc == |table.rows|
      invariant Feed(table.rows, temp, cells[i..], w) == Grouped(cells, w)
    {
      assert cells[i..][1..] == cells[i + 1..];
      if |temp| < w {
        temp := temp + [cells[i]];
      } else {
        var stored := table.SetRow(inc, temp);
        if stored.Err? {
          return Err(stored.error);
        }
        temp := [cells[i]];
        inc := inc + 1;
      }
    }
    assert cells[|cells|..] == [];
    var stored := table.SetRow(inc, temp);
    if stored.Err? {
      return Err(stored.error);
    }
    r := Ok(table.Value());
  }

  predicate IsDigit(c: char)
  {
    '0' <= c <= '9'
  }

  /** A "[d]" marker, one decimal digit in brackets, at the front of `s`. */
  predicate DigitMarkerAt(s: string)
  {
    |s| >= 3 && s[0] == '[' && IsDigit(s[1]) && s[2] == ']'
  }

  /**
   * `re.sub(r'\[\d\]', '', s)`: a left-to-right scan that drops each "[d]" it meets and
   * goes on after it, never looking back across a removal.
   */
  function RemoveDigitMarkers(s: string): (r: string)
    ensures |r| <= |s|
    decreases |s|
  {
    if s == [] then []
    else if DigitMarkerAt(s) then RemoveDigitMarkers(s[3..])
    else [s[0]] + RemoveDigitMarkers(s[1..])
  }

  /** Text in which no "[d]" starts anywhere is kept as it is. */
  lemma {:induction false} NoDigitMarkerKept(s: string)
    requires forall i :: 0 <= i < |s| ==> !DigitMarkerAt(s[i..])
    decreases |s|
    ensures RemoveDigitMarkers(s) == s
  {
    if s != [] {
      assert !DigitMarkerAt(s[0..]) && s[0..] == s;
      forall i | 0 <= i < |s| - 1
        ensures !DigitMarkerAt(s[1..][i..])
      {
        assert s[1..][i..] == s[i + 1..];
      }
      NoDigitMarkerKept(s[1..]);
    }
  }

  /** A "[d]" after text with no '[' is dropped, and the text before it is kept. */
  lemma {:induction false} DigitMarkerRemoved(a: string, d: char, b: string)
    requires '[' !in a && IsDigit(d)
    decreases |a|
    ensures RemoveDigitMarkers(a + ['[', d, ']'] + b) == a + RemoveDigitMarkers(b)
  {
    var s := a + ['[', d, ']'] + b;
    if a == [] {
      assert s == ['[', d, ']'] + b && s[3..] == b;
    } else {
      assert s[1..] == a[1..] + ['[', d, ']'] + b;
      DigitMarkerRemoved(a[1..], d, b);
      assert a == [a[0]] + a[1..];
    }
  }

  /** "Name[1]" loses its digit marker. */
  lemma DigitMarkerExamples()
    ensures RemoveDigitMarkers("Name[1]") == "Name"
  {
    DigitMarkerRemoved("Name", '1', "");
    assert "Name[1]" == "Name" + ['[', '1', ']'] + "";
  }

  lemma TwoDigitsKept()
    ensures RemoveDigitMarkers("[12]") == "[12]"
  {
    var t := "[12]";
    assert !DigitMarkerAt(t) && t[1..] == "12]";
    assert RemoveDigitMarkers("]") == "]";
    assert RemoveDigitMarkers("2]") == "2]" by { assert "2]"[1..] == "]"; }
    assert RemoveDigitMarkers("12]") == "12]" by { assert "12]"[1..] == "2]"; }
  }

  lemma NestedMarker()
    ensures RemoveDigitMarkers("[[1]1]") == "[1]"
  {
    var u := "[[1]1]";
    assert !DigitMarkerAt(u) && DigitMarkerAt(u[1..]) && u[1..][3..] == "1]";
    assert RemoveDigitMarkers("]") == "]";
    assert RemoveDigitMarkers("1]") == "1]" by {
      assert "1]"[1..] == "]";
    }
  }

  /** U+00A0, which the coordinate cells hold between their parts. */
  const NoBreakSpace: char := 0xA0 as char

  /** One `th` text: stripped, then its "[d]" markers removed. */
  function CleanHeader(text: string): string
  {
    RemoveDigitMarkers(Strip(text))
  }

  /**
   * The headers of the page's first table, each `th` text cleaned, or IndexError when the
   * page has none.
   */
  function CleanedHeaders(soups: seq<TableSoup>): Result<seq<string>>
  {
    if soups == [] then Err(IndexError)
    else Ok(seq(|soups[0].headings|, k requires 0 <= k < |soups[0].headings| => CleanHeader(soups[0].headings[k])))
  }

  /** A header whose stripped text has no "[d]" marker is its stripped text. */
  lemma CleanHeaderUnmarked(text: string)
    requires forall i :: 0 <= i < |Strip(text)| ==> !DigitMarkerAt(Strip(text)[i..])
    ensures CleanHeader(text) == Strip(text)
  {
    NoDigitMarkerKept(Strip(text));
  }

  lemma StripDec()
    ensures Strip(" Dec[2]") == "Dec[2]"
  {
    var u := " Dec[2]";
    assert IsSpace(u[0]) && !IsSpace(u[1]) && !IsSpace(u[|u| - 1]);
    assert SkipSpace(u, 1) == 1;
    assert SkipSpace(u, 0) == 1;
    assert DropSpace(u, 1, |u|) == |u|;
    assert u[1..] == "Dec[2]";
  }

  /** " Dec[2]" gives "Dec". */
  lemma CleanHeaderExample()
    ensures CleanHeader(" Dec[2]") == "Dec"
  {
    StripDec();
    DigitMarkerRemoved("Dec", '2', "");
    assert "Dec[2]" == "Dec" + ['[', '2', ']'] + "";
  }

  /** "[12]" is not a marker and is kept. */
  lemma CleanHeaderKeepsTwoDigits()
    ensures CleanHeader("[12]") == "[12]"
  {
    StripTwelve();
    TwoDigitsKept();
  }

  lemma StripTwelve()
    ensures Strip("[12]") == "[12]"
  {
    var u := "[12]";
    assert NoSpace(u) by {
      assert u == ['[', '1', '2', ']'];
    }
    StripNoSpace(u);
  }

  /** A character `\w` matches: an ASCII letter, a digit or the underscore. */
  predicate IsWordChar(c: char)
  {
    IsAsciiLetter(c) || IsDigit(c) || c == '_'
  }

  /** The length of the run of word characters at the front of `s`. */
  function WordRun(s: string): (n: nat)
    ensures n <= |s|
  {
    if s != [] && IsWordChar(s[0]) then 1 + WordRun(s[1..]) else 0
  }

  /** The run is made of word characters and is followed by none. */
  lemma {:induction false} WordRunMeaning(s: string)
    ensures forall k :: 0 <= k < WordRun(s) ==> IsWordChar(s[k])
    ensures WordRun(s) < |s| ==> !IsWordChar(s[WordRun(s)])
  {
    if s != [] && IsWordChar(s[0]) {
      WordRunMeaning(s[1..]);
    }
  }

  /**
   * The length of the "[word]" marker at the front of `s`, or 0 when none starts there:
   * `\w+` takes the whole run of word characters and a ']' must follow it.
   */
  function WordMarkerAt(s: string): (m: nat)
    ensures m == 0 || (3 <= m <= |s| && s[0] == '[' && s[m - 1] == ']')
  {
    if s != [] && s[0] == '[' then
      var n := WordRun(s[1..]);
      if n >= 1 && n + 1 < |s| && s[n + 1] == ']' then n + 2 else 0
    else 0
  }

  /** `re.sub(r'\[\w+\]', '', s)`: each "[word]" met in a left-to-right scan is dropped. */
  function RemoveWordMarkers(s: string): (r: string)
    ensures |r| <= |s|
    decreases |s|
  {
    if s == [] then []
    else
      var m := WordMarkerAt(s);
      if m > 0 then RemoveWordMarkers(s[m..]) else [s[0]] + RemoveWordMarkers(s[1..])
  }

  /** A "[word]" after text with no '[' is dropped, and the text before it is kept. */
  lemma WordMarkerRemoved(a: string, word: string, b: string)
    requires '[' !in a && word != [] && forall k :: 0 <= k < |word| ==> IsWordChar(word[k])
    ensures RemoveWordMarkers(a + ("[" + word + "]" + b)) == a + RemoveWordMarkers(b)
  {
    KeptPrefix(a, "[" + word + "]" + b);
    WordMarkerFront(word, b);
  }

  /** Text with no '[' starts no marker anywhere and is kept whole. */
  lemma {:induction false} KeptPrefix(a: string, t: string)
    requires '[' !in a
    decreases |a|
    ensures RemoveWordMarkers(a + t) == a + RemoveWordMarkers(t)
  {
    if a != [] {
      var c, rest := a[0], a[1..];
      assert c in a;
      calc {
        RemoveWordMarkers(a + t);
        { assert a + t == [c] + (rest + t); }
        RemoveWordMarkers([c] + (rest + t));
        { KeptFront(c, rest + t); }
        [c] + RemoveWordMarkers(rest + t);
        { KeptPrefix(rest, t); }
        [c] + (rest + RemoveWordMarkers(t));
        { assert a == [c] + rest; }
        a + RemoveWordMarkers(t);
      }
    } else {
      assert a + t == t && a + RemoveWordMarkers(t) == RemoveWordMarkers(t);
    }
  }

  /** A character other than '[' starts no marker and is kept. */
  lemma KeptFront(c: char, rest: string)
    requires c != '['
    ensures RemoveWordMarkers([c] + rest) == [c] + RemoveWordMarkers(rest)
  {
    assert ([c] + rest)[1..] == rest;
  }

  /** A "[word]" at the front is dropped. */
  lemma WordMarkerFront(word: string, b: string)
    requires word != [] && forall k :: 0 <= k < |word| ==> IsWordChar(word[k])
    ensures RemoveWordMarkers("[" + word + "]" + b) == RemoveWordMarkers(b)
  {
    var s := "[" + word + "]" + b;
    WordRunOf(word, "]" + b);
    assert s[1..] == word + ("]" + b);
    assert s[|word| + 1] == ']';
    assert WordMarkerAt(s) == |word| + 2;
    assert s[|word| + 2..] == b;
  }

  lemma {:induction false} WordRunOf(word: string, rest: string)
    requires forall k :: 0 <= k < |word| ==> IsWordChar(word[k])
    requires rest != [] && !IsWordChar(rest[0])
    decreases |word|
    ensures WordRun(word + rest) == |word|
  {
    if word != [] {
      assert (word + rest)[1..] == word[1..] + rest;
      WordRunOf(word[1..], rest);
    } else {
      assert word + rest == rest;
    }
  }

  /** Every "[d]" marker is also a "[word]" marker. */
  lemma DigitMarkerIsWordMarker(s: string)
    requires DigitMarkerAt(s)
    ensures WordMarkerAt(s) == 3
  {
    assert s[1..][1..] == s[2..];
    assert WordRun(s[1..][1..]) == 0;
  }

  /** "Abell clusters[edit]" loses its marker. */
  lemma WordMarkerExample()
    ensures RemoveWordMarkers("Abell clusters[edit]") == "Abell clusters"
  {
    var a, word := "Abell clusters", "edit";
    ExampleParts(a, word);
    WordMarkerRemoved(a, word, "");
    assert "Abell clusters[edit]" == a + ("[" + word + "]" + "");
  }

  lemma ExampleParts(a: string, word: string)
    requires a == "Abell clusters" && word == "edit"
    ensures '[' !in a && word != [] && forall k :: 0 <= k < |word| ==> IsWordChar(word[k])
  {
  }

  /** Each text stripped: `[entry.text.strip() for entry in ...]`. */
  function StripAll(cells: seq<string>): (r: seq<string>)
    ensures |r| == |cells| && forall k :: 0 <= k < |cells| ==> r[k] == Strip(cells[k])
  {
    seq(|cells|, k requires 0 <= k < |cells| => Strip(cells[k]))
  }

  /** A scraped `<table>`: the text of the element before it, if any, its `th` texts and its `td` texts. */
  datatype TableSoup = TableSoup(previous: Option<string>, headings: seq<string>, cells: seq<string>)

  /** A Python dict in insertion order. */
  type Dict<V> = seq<(string, V)>

  function KeyList<V>(d: Dict<V>): (keys: seq<string>)
    ensures |keys| == |d| && forall k :: 0 <= k < |d| ==> keys[k] == d[k].0
  {
    seq(|d|, k requires 0 <= k < |d| => d[k].0)
  }

  function Lookup<V>(d: Dict<V>, key: string): Option<V>
  {
    if d == [] then None else if d[0].0 == key then Some(d[0].1) else Lookup(d[1..], key)
  }

  /** `d[key] = value`: an existing key keeps its place and takes the value, a new one goes last. */
  function Insert<V>(d: Dict<V>, key: string, value: V): Dict<V>
  {
    if d == [] then [(key, value)]
    else if d[0].0 == key then [(key, value)] + d[1..]
    else [d[0]] + Insert(d[1..], key, value)
  }

  /** After `d[key] = value` the key maps to the value and every other key to what it did. */
  lemma {:induction false} InsertLookup<V>(d: Dict<V>, key: string, value: V, other: string)
    ensures Lookup(Insert(d, key, value), other) == if other == key then Some(value) else Lookup(d, other)
  {
    if d != [] && d[0].0 != key {
      InsertLookup(d[1..], key, value, other);
      assert Insert(d, key, value)[1..] == Insert(d[1..], key, value);
    }
  }

  /** The key order: a key already there keeps its place, a new key is appended. */
  lemma {:induction false} InsertKeys<V>(d: Dict<V>, key: string, value: V)
    ensures KeyList(Insert(d, key, value)) == if key in KeyList(d) then KeyList(d) else KeyList(d) + [key]
  {
    if d != [] {
      if d[0].0 == key {
        assert KeyList(Insert(d, key, value)) == KeyList(d);
      } else {
        InsertKeys(d[1..], key, value);
        assert KeyList(d) == [d[0].0] + KeyList(d[1..]);
        assert KeyList(Insert(d, key, value)) == [d[0].0] + KeyList(Insert(d[1..], key, value));
      }
    }
  }

  /** The key of a table: the previous element's text with "[word]" markers removed, or AttributeError when there is none. */
  function KeyOf(soup: TableSoup): Result<string>
  {
    match soup.previous
    case None => Err(AttributeError)
    case Some(text) => Ok(RemoveWordMarkers(text))
  }

  /**
   * The loop over the tables from the dictionary `d` built so far: each table's key is
   * computed, its cells (after `prepare`) are grouped under `headers` and stored under the
   * key; the first failure stops the loop.
   */
  function Collected(d: Dict<Frame>, soups: seq<TableSoup>, headers: seq<string>,
                     prepare: seq<string> -> seq<string>): Result<Dict<Frame>>
    decreases |soups|
  {
    if soups == [] then Ok(d)
    else
      match KeyOf(soups[0])
      case Err(e) => Err(e)
      case Ok(key) =>
        match Extracted(headers, prepare(soups[0].cells))
        case Err(e) => Err(e)
        case Ok(frame) => Collected(Insert(d, key, frame), soups[1..], headers, prepare)
  }

  /**
   * After a successful loop every key is the key of a table, and each table whose key no
   * later table repeats is found under it with the rows of its own cells.
   */
  lemma {:induction false} CollectedLookup(d: Dict<Frame>, soups: seq<TableSoup>, headers: seq<string>,
                                           prepare: seq<string> -> seq<string>, key: string)
    requires Collected(d, soups, headers, prepare).Ok?
    decreases |soups|
    ensures forall i :: 0 <= i < |soups| ==> KeyOf(soups[i]).Ok? && Extracted(headers, prepare(soups[i].cells)).Ok?
    ensures Lookup(Collected(d, soups, headers, prepare).value, key) ==
      if exists i :: 0 <= i < |soups| && KeyOf(soups[i]) == Ok(key) then
        Some(Extracted(headers, prepare(soups[LastWithKey(soups, key)].cells)).value)
      else Lookup(d, key)
  {
    CollectedAllOk(d, soups, headers, prepare);
    if soups != [] {
      var k := KeyOf(soups[0]).value;
      var frame := Extracted(headers, prepare(soups[0].cells)).value;
      var rest := soups[1..];
      CollectedLookup(Insert(d, k, frame), rest, headers, prepare, key);
      InsertLookup(d, k, frame, key);
      LastWithKeyStep(soups, key);
    }
  }

  /** Where the last table with a key lies, from whether the tables after the first hold it. */
  lemma LastWithKeyStep(soups: seq<TableSoup>, key: string)
    requires |soups| >= 1
    ensures var rest := soups[1..];
      var inRest := exists i :: 0 <= i < |rest| && KeyOf(rest[i]) == Ok(key);
      var inAll := exists i :: 0 <= i < |soups| && KeyOf(soups[i]) == Ok(key);
      (inRest ==> inAll && LastWithKey(soups, key) == LastWithKey(rest, key) + 1) &&
      (!inRest && KeyOf(soups[0]) == Ok(key) ==> inAll && LastWithKey(soups, key) == 0) &&
      (!inRest && KeyOf(soups[0]) != Ok(key) ==> !inAll)
  {
    var rest := soups[1..];
    if exists i :: 0 <= i < |rest| && KeyOf(rest[i]) == Ok(key) {
      LastWithKeyRest(soups, key);
    } else if KeyOf(soups[0]) == Ok(key) {
      LastWithKeyFirst(soups, key);
    } else {
      forall i | 0 < i < |soups|
        ensures KeyOf(soups[i]) != Ok(key)
      {
        assert soups[i] == rest[i - 1];
      }
    }
  }

  /** After a successful loop every table had a key and could be grouped. */
  lemma {:induction false} CollectedAllOk(d: Dict<Frame>, soups: seq<TableSoup>, headers: seq<string>,
                                          prepare: seq<string> -> seq<string>)
    requires Collected(d, soups, headers, prepare).Ok?
    decreases |soups|
    ensures forall i :: 0 <= i < |soups| ==> KeyOf(soups[i]).Ok? && Extracted(headers, prepare(soups[i].cells)).Ok?
  {
    if soups != [] {
      var k := KeyOf(soups[0]).value;
      var frame := Extracted(headers, prepare(soups[0].cells)).value;
      var rest := soups[1..];
      CollectedAllOk(Insert(d, k, frame), rest, headers, prepare);
      forall i | 0 < i < |soups|
        ensures KeyOf(soups[i]).Ok? && Extracted(headers, prepare(soups[i].cells)).Ok?
      {
        assert soups[i] == rest[i - 1];
      }
    }
  }

  /** The index of the last table with the given key. */
  function LastWithKey(soups: seq<TableSoup>, key: string): (i: nat)
    requires exists i :: 0 <= i < |soups| && KeyOf(soups[i]) == Ok(key)
    ensures i < |soups| && KeyOf(soups[i]) == Ok(key)
    ensures forall j :: i < j < |soups| ==> KeyOf(soups[j]) != Ok(key)
  {
    var n := |soups| - 1;
    if KeyOf(soups[n]) == Ok(key) then n
    else
      var i :| 0 <= i < |soups| && KeyOf(soups[i]) == Ok(key);
      assert i < n && KeyOf(soups[..n][i]) == Ok(key);
      var j := LastWithKey(soups[..n], key);
      assert soups[j] == soups[..n][j];
      assert forall m :: j < m < n ==> soups[m] == soups[..n][m];
      j
  }

  /** When the remaining tables hold the key, the last one with it lies among them. */
  lemma LastWithKeyRest(soups: seq<TableSoup>, key: string)
    requires |soups| >= 1 && exists i :: 0 <= i < |soups| - 1 && KeyOf(soups[1..][i]) == Ok(key)
    ensures exists i :: 0 <= i < |soups| && KeyOf(soups[i]) == Ok(key)
    ensures LastWithKey(soups, key) == LastWithKey(soups[1..], key) + 1
  {
    var i :| 0 <= i < |soups| - 1 && KeyOf(soups[1..][i]) == Ok(key);
    assert soups[i + 1] == soups[1..][i];
    var a := LastWithKey(soups, key);
    var b := LastWithKey(soups[1..], key);
    assert soups[b + 1] == soups[1..][b];
    if a > 0 {
      assert soups[a] == soups[1..][a - 1];
    }
    assert forall j :: b + 1 < j < |soups| ==> soups[j] == soups[1..][j - 1];
  }

  /** When only the first table holds the key, it is the last one with it. */
  lemma LastWithKeyFirst(soups: seq<TableSoup>, key: string)
    requires |soups| >= 1 && KeyOf(soups[0]) == Ok(key)
    requires forall i :: 0 <= i < |soups| - 1 ==> KeyOf(soups[1..][i]) != Ok(key)
    ensures LastWithKey(soups, key) == 0
  {
    assert forall j :: 0 < j < |soups| ==> soups[j] == soups[1..][j - 1];
  }

  /**
   * The rows of the first `n` pages, one page after the other: each page's cells from
   * `start` on grouped under `headers`; the first page that cannot be grouped stops the loop.
   */
  function PagesCollected(headers: seq<string>, n: nat, page: nat -> seq<string>, start: int): Result<seq<seq<string>>>
  {
    if n == 0 then Ok([])
    else
      match PagesCollected(headers, n - 1, page, start)
      case Err(e) => Err(e)
      case Ok(rows) =>
        match Grouped(SliceFrom(page(n - 1), start), |headers|)
        case Err(e) => Err(e)
        case Ok(more) => Ok(rows + more)
  }

  /** The cells of the first `n` pages from `start` on, in page order, each page padded for `w` headers. */
  function PageCells(n: nat, page: nat -> seq<string>, start: int, w: nat): seq<string>
  {
    if n == 0 then [] else PageCells(n - 1, page, start, w) + Padded(SliceFrom(page(n - 1), start), w)
  }

  /**
   * A successful collection holds every page's cells in page order, one row per
   * `|headers|` cells, each page's lone last cell broadcast across its row; it fails
   * exactly when some page cannot be grouped.
   */
  lemma PagesInOrder(headers: seq<string>, n: nat, page: nat -> seq<string>, start: int)
    ensures PagesCollected(headers, n, page, start).Err? <==>
      exists i :: 0 <= i < n && Grouped(SliceFrom(page(i), start), |headers|).Err?
    ensures PagesCollected(headers, n, page, start).Ok? ==>
      var rows := PagesCollected(headers, n, page, start).value;
      Flatten(rows) == PageCells(n, page, start, |headers|) && forall k :: 0 <= k < |rows| ==> |rows[k]| == |headers|
  {
    PagesFail(headers, n, page, start);
    if PagesCollected(headers, n, page, start).Ok? {
      PagesRows(headers, n, page, start);
    }
  }

  /** The collection fails exactly when some page cannot be grouped. */
  lemma {:induction false} PagesFail(headers: seq<string>, n: nat, page: nat -> seq<string>, start: int)
    ensures PagesCollected(headers, n, page, start).Err? <==>
      exists i :: 0 <= i < n && Grouped(SliceFrom(page(i), start), |headers|).Err?
  {
    if n > 0 {
      PagesFail(headers, n - 1, page, start);
      if Grouped(SliceFrom(page(n - 1), start), |headers|).Err? {
        assert 0 <= n - 1 < n;
      }
    }
  }

  /** A successful collection is the pages' padded cells in page order, in full rows. */
  lemma {:induction false} PagesRows(headers: seq<string>, n: nat, page: nat -> seq<string>, start: int)
    requires PagesCollected(headers, n, page, start).Ok?
    ensures var rows := PagesCollected(headers, n, page, start).value;
      Flatten(rows) == PageCells(n, page, start, |headers|) && forall k :: 0 <= k < |rows| ==> |rows[k]| == |headers|
  {
    if n > 0 {
      PagesRows(headers, n - 1, page, start);
      var cells := SliceFrom(page(n - 1), start);
      var rows := PagesCollected(headers, n - 1, page, start).value;
      var more := Grouped(cells, |headers|).value;
      assert PagesCollected(headers, n, page, start).value == rows + more;
      GroupedRows(cells, |headers|);
      FlattenAppend(rows, more);
      WidthsAppend(rows, more, |headers|);
    }
  }

  /** Rows of width `w` appended to rows of width `w` are rows of width `w`. */
  lemma WidthsAppend(rows: seq<seq<string>>, more: seq<seq<string>>, w: nat)
    requires forall k :: 0 <= k < |rows| ==> |rows[k]| == w
    requires forall k :: 0 <= k < |more| ==> |more[k]| == w
    ensures forall k :: 0 <= k < |rows + more| ==> |(rows + more)[k]| == w
  {
    forall k | 0 <= k < |rows + more|
      ensures |(rows + more)[k]| == w
    {
      if k >= |rows| {
        assert (rows + more)[k] == more[k - |rows|];
      }
    }
  }

  /** Once a page fails, the later pages do not change the failure. */
  lemma {:induction false} FailureStays(headers: seq<string>, i: nat, n: nat, page: nat -> seq<string>, start: int)
    requires i <= n && PagesCollected(headers, i, page, start).Err?
    decreases n
    ensures PagesCollected(headers, n, page, start) == PagesCollected(headers, i, page, start)
  {
    if n > i {
      FailureStays(headers, i, n - 1, page, start);
    }
  }

  /**
   * The Sharpless catalogue's headers: each `th` text of the first table stripped, with no
   * marker removal; IndexError when the page has no table.
   */
  function StrippedHeaders(soups: seq<TableSoup>): Result<seq<string>>
  {
    if soups == [] then Err(IndexError) else Ok(StripAll(soups[0].headings))
  }

  /**
   * The Sharpless catalogue as both scripts collect it: the stripped headers of the first
   * page, then `n` pages, the page after each click given by `page`, each without its first cell.
   */
  function PagesScraped(soups: seq<TableSoup>, n: nat, page: nat -> seq<string>): Result<Frame>
  {
    match StrippedHeaders(soups)
    case Err(e) => Err(e)
    case Ok(headers) => Collection(headers, n, page, 1)
  }

  /** The collected pages as a table with the headers as columns. */
  function Collection(headers: seq<string>, n: nat, page: nat -> seq<string>, start: int): Result<Frame>
  {
    match PagesCollected(headers, n, page, start)
    case Err(e) => Err(e)
    case Ok(rows) => Ok(Frame(headers, rows))
  }

  /**
   * The page loop: the `n` pages one after the other, each extracted from `start` and
   * concatenated below what was collected so far.
   */
  method CollectPages(headers: seq<string>, n: nat, page: nat -> seq<string>, start: int) returns (r: Result<Frame>)
    ensures r == Collection(headers, n, page, start)
  {
    var collection := Frame(headers, []);
    for i := 0 to n
      invariant PagesCollected(headers, i, page, start) == Ok(collection.rows) && collection.columns == headers
    {
      var table := Extract(headers, SliceFrom(page(i), start));
      if table.Err? {
        FailureStays(headers, i + 1, n, page, start);
        return Err(table.error);
      }
      collection := Frame(headers, collection.rows + table.value.rows);
    }
    r := Ok(collection);
  }
}
