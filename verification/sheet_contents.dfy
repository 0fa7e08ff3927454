/**
  The quote-all serializer of the sheet exporter (`generateSheetContents_`)
  and a reader for the text it writes.

  The serializer follows the quoting rules of section 2 of RFC 4180: every
  field is enclosed in double quotes and a double quote inside a field is
  doubled. Rows end with a line feed alone, and the delimiter is chosen by
  the caller. The sheet is its grid of display values.
*/
module SheetContents {
  import opened Wrappers

  /** The display values of a sheet, row by row. */
  type Grid = seq<seq<string>>

  const Quote: char := '"'
  const LineFeed: char := '\n'

  /** The number of double quotes in `s`. */
  function CountQuotes(s: string): nat {
    if s == [] then 0 else (if s[0] == Quote then 1 else 0) + CountQuotes(s[1..])
  }

  /** `replace(/"/g, '""')`: every double quote doubled, every other character kept. */
  function Escape(s: string): (r: string)
    ensures |r| == |s| + CountQuotes(s)
  {
    if s == [] then []
    else (if s[0] == Quote then [Quote, Quote] else [s[0]]) + Escape(s[1..])
  }

  /** A cell without a double quote is written as it is, so the guard around the replacement changes nothing. */
  lemma {:induction false} EscapeWithoutQuote(s: string)
    requires Quote !in s
    ensures Escape(s) == s
  {
    if s != [] {
      assert Quote !in s[1..] by {
        forall i | 0 <= i < |s[1..]| ensures s[1..][i] != Quote {
          assert s[1..][i] == s[i + 1];
        }
      }
      EscapeWithoutQuote(s[1..]);
      assert [s[0]] + s[1..] == s;
    }
  }

  /** A cell as written: its escaped text between double quotes. */
  function Field(cell: string): string {
    [Quote] + Escape(cell) + [Quote]
  }

  /** The cells of one row, each quoted, separated by the delimiter. */
  function RowText(row: seq<string>, delimiter: string): string {
    if row == [] then []
    else if |row| == 1 then Field(row[0])
    else Field(row[0]) + delimiter + RowText(row[1..], delimiter)
  }

  /** A row's text and the line feed that ends it. */
  function Line(row: seq<string>, delimiter: string): string {
    RowText(row, delimiter) + [LineFeed]
  }

  /** Every row's line, rows in order: at least one character (its line feed) per row. */
  function SheetText(grid: Grid, delimiter: string): (r: string)
    ensures r == [] <==> grid == []
    ensures |grid| <= |r|
  {
    if grid == [] then [] else Line(grid[0], delimiter) + SheetText(grid[1..], delimiter)
  }

  lemma Assoc<T>(a: seq<T>, b: seq<T>, c: seq<T>)
    ensures a + (b + c) == (a + b) + c
  {
  }

  /** Appending a cell to a row appends one delimiter (unless it is the first cell) and the quoted cell. */
  lemma {:induction false} RowTextSnoc(row: seq<string>, cell: string, delimiter: string)
    ensures RowText(row + [cell], delimiter)
            == RowText(row, delimiter) + (if row == [] then [] else delimiter) + Field(cell)
  {
    var longer := row + [cell];
    if row == [] {
      assert longer == [cell];
    } else if |row| == 1 {
      assert longer == [row[0], cell] && longer[1..] == [cell];
      assert RowText(longer, delimiter) == Field(row[0]) + delimiter + RowText([cell], delimiter);
    } else {
      var rest := row[1..];
      assert longer[0] == row[0] && longer[1..] == rest + [cell];
      RowTextSnoc(rest, cell, delimiter);
      var head := Field(row[0]) + delimiter;
      var tail := RowText(rest, delimiter);
      assert RowText(longer, delimiter) == head + (tail + delimiter + Field(cell));
      assert RowText(row, delimiter) == head + tail;
      Assoc(head, tail + delimiter, Field(cell));
      Assoc(head, tail, delimiter);
    }
  }

  /** Appending a row to the grid appends its line. */
  lemma {:induction false} SheetTextSnoc(grid: Grid, row: seq<string>, delimiter: string)
    ensures SheetText(grid + [row], delimiter) == SheetText(grid, delimiter) + Line(row, delimiter)
  {
    if grid == [] {
      assert grid + [row] == [row];
      assert SheetText([row], delimiter) == Line(row, delimiter) + SheetText([], delimiter);
    } else {
      assert (grid + [row])[0] == grid[0];
      assert (grid + [row])[1..] == grid[1..] + [row];
      SheetTextSnoc(grid[1..], row, delimiter);
      Assoc(Line(grid[0], delimiter), SheetText(grid[1..], delimiter), Line(row, delimiter));
    }
  }

  /**
    An empty grid gives the empty text; otherwise the text ends with the
    last row's text and its line feed, so the last row is terminated too.
  */
  lemma SheetTextEnds(grid: Grid, delimiter: string)
    ensures grid == [] <==> SheetText(grid, delimiter) == []
    ensures grid != [] ==>
              var last := RowText(grid[|grid| - 1], delimiter) + [LineFeed];
              |last| <= |SheetText(grid, delimiter)|
              && SheetText(grid, delimiter)[|SheetText(grid, delimiter)| - |last|..] == last
  {
    if grid != [] {
      var init := grid[..|grid| - 1];
      assert init + [grid[|grid| - 1]] == grid;
      SheetTextSnoc(init, grid[|grid| - 1], delimiter);
    }
  }

  /** One turn of the cell loop of `GenerateSheetContents` extends the row's text by one cell. */
  lemma {:induction false} AppendCell(written: string, row: seq<string>, column: nat, delimiter: string,
                                      separator: string, cellValue: string)
    requires column < |row|
    requires separator == if column > 0 then delimiter else []
    requires cellValue == Escape(row[column])
    ensures written + RowText(row[..column], delimiter) + separator + [Quote] + cellValue + [Quote]
            == written + RowText(row[..column + 1], delimiter)
  {
    assert row[..column + 1] == row[..column] + [row[column]];
    RowTextSnoc(row[..column], row[column], delimiter);
    assert Field(row[column]) == [Quote] + cellValue + [Quote];
  }

  /** One turn of the row loop of `GenerateSheetContents` extends the text by one row. */
  lemma {:induction false} EndRow(written: string, grid: Grid, row: nat, delimiter: string)
    requires row < |grid| && written == SheetText(grid[..row], delimiter)
    ensures written + RowText(grid[row][..|grid[row]|], delimiter) + [LineFeed] == SheetText(grid[..row + 1], delimiter)
  {
    assert grid[row][..|grid[row]|] == grid[row];
    assert grid[..row + 1] == grid[..row] + [grid[row]];
    SheetTextSnoc(grid[..row], grid[row], delimiter);
    Assoc(written, RowText(grid[row], delimiter), [LineFeed]);
  }

  /**
    `generateSheetContents_`: walks the grid row by row and cell by cell,
    writing the delimiter before every cell but the first of its row, the
    cell doubled-quoted and quoted, and a line feed after every row.
  */
  method GenerateSheetContents(sourceValues: Grid, delimiter: string) returns (sheetContents: string)
    ensures sheetContents == SheetText(sourceValues, delimiter)
  {
    sheetContents := "";
    for row := 0 to |sourceValues|
      invariant sheetContents == SheetText(sourceValues[..row], delimiter)
    {
      ghost var written := sheetContents;
      for column := 0 to |sourceValues[row]|
        invariant sheetContents == written + RowText(sourceValues[row][..column], delimiter)
      {
        var cellValue := sourceValues[row][column];
        var separator := "";
        if column > 0 {
          separator := delimiter;
          sheetContents := sheetContents + delimiter;
        }
        if Quote in cellValue {
          cellValue := Escape(cellValue);
        } else {
          EscapeWithoutQuote(cellValue);
        }
        sheetContents := sheetContents + [Quote] + cellValue + [Quote];
        AppendCell(written, sourceValues[row], column, delimiter, separator, cellValue);
      }
      EndRow(written, sourceValues, row, delimiter);
      sheetContents := sheetContents + [LineFeed];
    }
    assert sourceValues[..|sourceValues|] == sourceValues;
  }

  // ---------------------------------------------------------------------------
  // Length of the output

  /** The sum over the cells of their length, their quote count and the two enclosing quotes. */
  function CellsLength(row: seq<string>): nat {
    if row == [] then 0 else |row[0]| + CountQuotes(row[0]) + 2 + CellsLength(row[1..])
  }

  /** One delimiter between adjacent cells: none for an empty row. */
  function DelimitersLength(row: seq<string>, delimiter: string): nat {
    if row == [] then 0 else (|row| - 1) * |delimiter|
  }

  function SheetLength(grid: Grid, delimiter: string): nat {
    if grid == [] then 0
    else CellsLength(grid[0]) + DelimitersLength(grid[0], delimiter) + 1 + SheetLength(grid[1..], delimiter)
  }

  lemma {:induction false} RowTextLength(row: seq<string>, delimiter: string)
    ensures |RowText(row, delimiter)| == CellsLength(row) + DelimitersLength(row, delimiter)
  {
    if |row| > 1 {
      RowTextLength(row[1..], delimiter);
      assert DelimitersLength(row, delimiter) == |delimiter| + DelimitersLength(row[1..], delimiter) by {
        assert (|row| - 1) * |delimiter| == |delimiter| + (|row| - 2) * |delimiter|;
      }
    }
  }

  /**
    The text has, for every cell, its length plus its quote count plus two;
    for every row, one delimiter between adjacent cells and one line feed.
  */
  lemma {:induction false} SheetTextLength(grid: Grid, delimiter: string)
    ensures |SheetText(grid, delimiter)| == SheetLength(grid, delimiter)
  {
    if grid != [] {
      RowTextLength(grid[0], delimiter);
      SheetTextLength(grid[1..], delimiter);
    }
  }

  // ---------------------------------------------------------------------------
  // Reading the text back

  /**
    Reads a quoted field's content, the opening quote already consumed: a
    doubled quote stands for one quote and a lone quote closes the field.
    Returns the content and the text after the closing quote.
  */
  function ReadQuoted(s: string): (r: Option<(string, string)>)
    ensures r.Some? ==> |r.value.1| < |s|
  {
    if s == [] then None
    else if s[0] == Quote then
      if |s| > 1 && s[1] == Quote then
        match ReadQuoted(s[2..])
        case None => None
        case Some((content, rest)) => Some(([Quote] + content, rest))
      else Some(([], s[1..]))
    else
      match ReadQuoted(s[1..])
      case None => None
      case Some((content, rest)) => Some(([s[0]] + content, rest))
  }

  /** Reads the quoted cells of a non-empty row and the line feed that ends it. */
  function ReadCells(s: string, delimiter: string): (r: Option<(seq<string>, string)>)
    ensures r.Some? ==> |r.value.1| < |s|
    decreases |s|
  {
    if s == [] || s[0] != Quote then None
    else match ReadQuoted(s[1..])
      case None => None
      case Some((cell, rest)) =>
        if rest != [] && rest[0] == LineFeed then Some(([cell], rest[1..]))
        else if delimiter != [] && |delimiter| <= |rest| && rest[..|delimiter|] == delimiter then
          match ReadCells(rest[|delimiter|..], delimiter)
          case None => None
          case Some((cells, after)) => Some(([cell] + cells, after))
        else None
  }

  /** Reads one row: a lone line feed is an empty row. */
  function ReadRow(s: string, delimiter: string): (r: Option<(seq<string>, string)>)
    ensures r.Some? ==> |r.value.1| < |s|
  {
    if s != [] && s[0] == LineFeed then Some(([], s[1..])) else ReadCells(s, delimiter)
  }

  /** Reads rows until the text is used up; None when the text is not quote-all delimited text. */
  function ParseSheet(s: string, delimiter: string): Option<Grid>
    decreases |s|
  {
    if s == [] then Some([])
    else match ReadRow(s, delimiter)
      case None => None
      case Some((row, rest)) =>
        match ParseSheet(rest, delimiter)
        case None => None
        case Some(rows) => Some([row] + rows)
  }

  /** A delimiter the reader can tell apart from a quote and from a row end. */
  predicate Separable(delimiter: string) {
    delimiter != [] && Quote !in delimiter && LineFeed !in delimiter
  }

  /** A lone quote closes the field when what follows is not a quote. */
  lemma ReadQuotedClose(rest: string)
    requires rest == [] || rest[0] != Quote
    ensures ReadQuoted([Quote] + rest) == Some(([], rest))
  {
    assert ([Quote] + rest)[1..] == rest;
  }

  /** A doubled quote is read as one quote of the content. */
  lemma ReadQuotedDoubled(s: string, content: string, rest: string)
    requires ReadQuoted(s) == Some((content, rest))
    ensures ReadQuoted([Quote, Quote] + s) == Some(([Quote] + content, rest))
  {
    assert ([Quote, Quote] + s)[2..] == s;
  }

  /** Any other character is read as itself. */
  lemma ReadQuotedPlain(c: char, s: string, content: string, rest: string)
    requires c != Quote && ReadQuoted(s) == Some((content, rest))
    ensures ReadQuoted([c] + s) == Some(([c] + content, rest))
  {
    assert ([c] + s)[1..] == s;
  }

  /** The content of a field is read back up to its closing quote, whatever follows a non-quote. */
  lemma {:induction false} ReadQuotedEscape(cell: string, rest: string)
    requires rest == [] || rest[0] != Quote
    ensures ReadQuoted(Escape(cell) + [Quote] + rest) == Some((cell, rest))
  {
    if cell == [] {
      assert Escape(cell) + [Quote] + rest == [Quote] + rest;
      ReadQuotedClose(rest);
    } else {
      ReadQuotedEscape(cell[1..], rest);
      ReadQuotedEscapeStep(cell, rest);
    }
  }

  /** One step of `ReadQuotedEscape`: from the cell's tail to the cell. */
  lemma ReadQuotedEscapeStep(cell: string, rest: string)
    requires cell != []
    requires ReadQuoted(Escape(cell[1..]) + [Quote] + rest) == Some((cell[1..], rest))
    ensures ReadQuoted(Escape(cell) + [Quote] + rest) == Some((cell, rest))
  {
    var escaped := Escape(cell[1..]);
    var tail := escaped + [Quote] + rest;
    var head := if cell[0] == Quote then [Quote, Quote] else [cell[0]];
    assert Escape(cell) == head + escaped;
    Assoc(head, escaped, [Quote]);
    Assoc(head, escaped + [Quote], rest);
    assert Escape(cell) + [Quote] + rest == head + tail;
    assert [cell[0]] + cell[1..] == cell;
    if cell[0] == Quote {
      ReadQuotedDoubled(tail, cell[1..], rest);
    } else {
      ReadQuotedPlain(cell[0], tail, cell[1..], rest);
    }
  }

  /** A quoted field followed by what comes after it: the field is read back and the rest is left. */
  lemma {:induction false} ReadField(cell: string, rest: string)
    requires rest == [] || rest[0] != Quote
    ensures var s := Field(cell) + rest;
            s != [] && s[0] == Quote && ReadQuoted(s[1..]) == Some((cell, rest))
  {
    var s := Field(cell) + rest;
    assert s == [Quote] + (Escape(cell) + [Quote] + rest);
    assert s[1..] == Escape(cell) + [Quote] + rest;
    ReadQuotedEscape(cell, rest);
  }

  /** The last cell of a row and its line feed are read back. */
  lemma ReadLastCell(cell: string, delimiter: string, rest: string)
    ensures ReadCells(Field(cell) + [LineFeed] + rest, delimiter) == Some(([cell], rest))
  {
    assert Field(cell) + [LineFeed] + rest == Field(cell) + ([LineFeed] + rest);
    ReadField(cell, [LineFeed] + rest);
    assert ([LineFeed] + rest)[1..] == rest;
  }

  /** A cell followed by the delimiter is read back, then reading goes on after the delimiter. */
  lemma ReadNextCell(cell: string, delimiter: string, after: string, cells: seq<string>, rest: string)
    requires Separable(delimiter)
    requires ReadCells(after, delimiter) == Some((cells, rest))
    ensures ReadCells(Field(cell) + delimiter + after, delimiter) == Some(([cell] + cells, rest))
  {
    assert Field(cell) + delimiter + after == Field(cell) + (delimiter + after);
    assert delimiter[0] in delimiter;
    ReadField(cell, delimiter + after);
    assert (delimiter + after)[..|delimiter|] == delimiter;
    assert (delimiter + after)[|delimiter|..] == after;
  }

  /** The cells of a non-empty row and its line feed are read back. */
  lemma {:induction false} ReadCellsRowText(row: seq<string>, delimiter: string, rest: string)
    requires row != [] && Separable(delimiter)
    ensures ReadCells(RowText(row, delimiter) + [LineFeed] + rest, delimiter) == Some((row, rest))
  {
    if |row| == 1 {
      ReadLastCell(row[0], delimiter, rest);
      assert row == [row[0]];
    } else {
      var after := RowText(row[1..], delimiter) + [LineFeed] + rest;
      ReadCellsRowText(row[1..], delimiter, rest);
      ReadNextCell(row[0], delimiter, after, row[1..], rest);
      assert RowText(row, delimiter) + [LineFeed] + rest == Field(row[0]) + delimiter + after;
      assert [row[0]] + row[1..] == row;
    }
  }

  /** The text of a non-empty row opens with a quote. */
  lemma RowTextOpens(row: seq<string>, delimiter: string)
    requires row != []
    ensures RowText(row, delimiter) != [] && RowText(row, delimiter)[0] == Quote
  {
    assert Field(row[0])[0] == Quote;
  }

  lemma {:induction false} ReadRowText(row: seq<string>, delimiter: string, rest: string)
    requires Separable(delimiter)
    ensures ReadRow(RowText(row, delimiter) + [LineFeed] + rest, delimiter) == Some((row, rest))
  {
    var s := RowText(row, delimiter) + [LineFeed] + rest;
    if row == [] {
      assert s == [LineFeed] + rest;
      assert s[1..] == rest;
    } else {
      RowTextOpens(row, delimiter);
      assert s[0] == Quote;
      ReadCellsRowText(row, delimiter, rest);
    }
  }

  /**
    Round trip: with a non-empty delimiter that holds neither a double quote
    nor a line feed, reading the written text gives back the grid exactly,
    cells holding delimiters, quotes and line breaks included.
  */
  lemma {:induction false} SheetTextRoundTrip(grid: Grid, delimiter: string)
    requires Separable(delimiter)
    ensures ParseSheet(SheetText(grid, delimiter), delimiter) == Some(grid)
  {
    if grid != [] {
      var rest := SheetText(grid[1..], delimiter);
      ReadRowText(grid[0], delimiter, rest);
      SheetTextRoundTrip(grid[1..], delimiter);
      var s := SheetText(grid, delimiter);
      assert s == RowText(grid[0], delimiter) + [LineFeed] + rest;
      assert s != [];
      assert [grid[0]] + grid[1..] == grid;
    }
  }

  /**
    Different grids give different texts under a separable delimiter, so
    no two sheets export to the same contents.
  */
  lemma {:induction false} SheetTextInjective(g1: Grid, g2: Grid, delimiter: string)
    requires Separable(delimiter)
    requires SheetText(g1, delimiter) == SheetText(g2, delimiter)
    ensures g1 == g2
  {
    SheetTextRoundTrip(g1, delimiter);
    SheetTextRoundTrip(g2, delimiter);
  }
}
