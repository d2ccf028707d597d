/** The report exporter's own logic, apart from the spreadsheet library: the
    value written for each column of each record (a plain or dotted attribute
    path, with dates rendered as text), the row each part of the report takes,
    and the clamped column widths. */
module Export {
  import opened Common
  import opened Calendar

  type DateTime = t: Moment | Valid(t) witness Moment(1, 1, 1, 0, 0, 0)

  /** What an attribute can hold: None; a scalar (text, number, flag, decimal)
      carried as the text `str()` gives it; a `date` (the time fields of its
      moment unused); a `datetime`; or a record with attributes and its
      `str()` text. */
  datatype Value =
    | Null
    | Scalar(text: string)
    | Day(date: DateTime)
    | Stamp(at: DateTime)
    | Record(attrs: map<string, Value>, text: string)

  /** `hasattr(value, name)`; only records have attributes here. */
  predicate HasAttr(v: Value, name: string)
  {
    v.Record? && name in v.attrs
  }

  // ---------------------------------------------------------------------
  // col_name.split('.')
  // ---------------------------------------------------------------------

  /** The first position of c in s. */
  function FirstIndex(s: string, c: char): (k: nat)
    requires c in s
    ensures k < |s| && s[k] == c && c !in s[..k]
  {
    if s[0] == c then 0
    else
      assert c in s[1..] by { var i :| 0 <= i < |s| && s[i] == c; assert s[1..][i - 1] == c; }
      var k := 1 + FirstIndex(s[1..], c);
      assert s[..k] == [s[0]] + s[1..][..k - 1];
      k
  }

  /** Python's `s.split(sep)` for a one-character separator: the pieces
      between separators, empty ones included. */
  function Split(s: string, sep: char): (r: seq<string>)
    ensures |r| >= 1
    ensures forall i :: 0 <= i < |r| ==> sep !in r[i]
    ensures |r| == 1 <==> sep !in s
    decreases |s|
  {
    if sep !in s then [s]
    else
      var k := FirstIndex(s, sep);
      [s[..k]] + Split(s[k + 1..], sep)
  }

  /** `sep.join(parts)`. */
  function Join(parts: seq<string>, sep: char): string
    requires |parts| >= 1
    decreases |parts|
  {
    if |parts| == 1 then parts[0] else parts[0] + [sep] + Join(parts[1..], sep)
  }

  lemma JoinCons(head: string, rest: seq<string>, sep: char)
    requires |rest| >= 1
    ensures Join([head] + rest, sep) == head + [sep] + Join(rest, sep)
  {
    assert ([head] + rest)[1..] == rest;
  }

  /** Splitting loses nothing: joining the pieces gives the column name back. */
  lemma {:induction false} SplitJoin(s: string, sep: char)
    ensures Join(Split(s, sep), sep) == s
    decreases |s|
  {
    if sep in s {
      var k := FirstIndex(s, sep);
      var rest := s[k + 1..];
      assert Split(s, sep) == [s[..k]] + Split(rest, sep);
      SplitJoin(rest, sep);
      JoinCons(s[..k], Split(rest, sep), sep);
      Reassemble(s, k);
    }
  }

  /** A text is its part before position k, its k-th character and the rest. */
  lemma Reassemble(s: string, k: nat)
    requires k < |s|
    ensures s == s[..k] + [s[k]] + s[k + 1..]
  {
    assert s[k..] == [s[k]] + s[k + 1..];
    assert s == s[..k] + s[k..];
  }

  // ---------------------------------------------------------------------
  // The column value resolver
  // ---------------------------------------------------------------------

  /** The value at the end of an attribute path; the first missing link gives
      None. */
  function Follow(v: Value, path: seq<string>): Value
    decreases |path|
  {
    if path == [] then v
    else if HasAttr(v, path[0]) then Follow(v.attrs[path[0]], path[1..])
    else Null
  }

  /** The value a column names before formatting: a dotted column follows its
      path; a plain column missing from the record gives the empty text. */
  function Lookup(row: Value, column: string): Value
  {
    if '.' in column then Follow(row, Split(column, '.'))
    else if HasAttr(row, column) then row.attrs[column]
    else Scalar("")
  }

  /** `isinstance(value, datetime.date)`, which holds for datetimes as well. */
  predicate IsDate(v: Value)
  {
    v.Day? || v.Stamp?
  }

  /** The value as written to the cell: a datetime as `%Y-%m-%d %H:%M:%S`
      (tested first), a date as `%Y-%m-%d`, None as the empty text, anything
      else as it is. */
  function Formatted(v: Value): (r: Value)
    ensures r.Scalar? || r.Record?
    ensures v.Scalar? || v.Record? ==> r == v
  {
    if v.Stamp? then Scalar(FormatSecond(v.at))
    else if IsDate(v) then Scalar(FormatDate(v.date.year, v.date.month, v.date.day))
    else if v.Null? then Scalar("")
    else v
  }

  function CellValue(row: Value, column: string): Value
  {
    Formatted(Lookup(row, column))
  }

  /** A datetime keeps its time of day: its cell is the 19-character date and
      time text, which begins with the date's own rendering. */
  lemma DateTimeKeepsTime(row: Value, column: string)
    requires Lookup(row, column).Stamp?
    ensures var t := Lookup(row, column).at;
      && CellValue(row, column) == Scalar(FormatSecond(t))
      && |CellValue(row, column).text| == 19
      && CellValue(row, column).text[..10] == FormatDate(t.year, t.month, t.day)
      && CellValue(row, column) != Scalar(FormatDate(t.year, t.month, t.day))
  {
    FormatWidths(Lookup(row, column).at);
  }

  /** After the first i links of a path, a missing link i makes the whole
      path give None, whatever follows it. */
  lemma {:induction false} MissingLink(v: Value, path: seq<string>, i: nat)
    requires i < |path| && !HasAttr(Follow(v, path[..i]), path[i])
    ensures Follow(v, path) == Null
    decreases i
  {
    if i == 0 {
    } else if HasAttr(v, path[0]) {
      assert path[1..][..i - 1] == path[..i][1..];
      MissingLink(v.attrs[path[0]], path[1..], i - 1);
    }
  }

  /** A dotted column with a missing link, and a plain column the record
      lacks, both write the empty text. */
  lemma MissingAttributeIsEmpty(row: Value, column: string, i: nat)
    ensures '.' in column && i < |Split(column, '.')| && !HasAttr(Follow(row, Split(column, '.')[..i]), Split(column, '.')[i]) ==>
      CellValue(row, column) == Scalar("")
    ensures '.' !in column && !HasAttr(row, column) ==> CellValue(row, column) == Scalar("")
  {
    if '.' in column && i < |Split(column, '.')| && !HasAttr(Follow(row, Split(column, '.')[..i]), Split(column, '.')[i]) {
      MissingLink(row, Split(column, '.'), i);
    }
  }

  /** The resolver as the exporter runs it for one record and one column. */
  method ResolveCell(row: Value, column: string) returns (cell: Value)
    ensures cell == CellValue(row, column)
  {
    var value: Value;
    if '.' in column {
      var parts := Split(column, '.');
      value := row;
      var i := 0;
      while i < |parts|
        invariant 0 <= i <= |parts|
        invariant Follow(row, parts) == Follow(value, parts[i..])
      {
        if HasAttr(value, parts[i]) {
          value := value.attrs[parts[i]];
        } else {
          value := Null;
          break;
        }
        i := i + 1;
      }
    } else {
      if HasAttr(row, column) {
        value := row.attrs[column];
      } else {
        value := Scalar("");
      }
    }
    if value.Stamp? {
      value := Scalar(FormatSecond(value.at));
    } else if IsDate(value) {
      value := Scalar(FormatDate(value.date.year, value.date.month, value.date.day));
    } else if value.Null? {
      value := Scalar("");
    }
    cell := value;
  }

  // ---------------------------------------------------------------------
  // Row layout
  // ---------------------------------------------------------------------

  /** A requested column: the attribute path and the header text. */
  datatype Column = Column(name: string, display: string)

  /** The header row: row 1 without a title; with one, after the title, a
      blank row, the export date line, the store line when a store name is
      given, one line per additional-information entry, and a blank row. */
  function HeaderRow(title: Option<string>, storeName: Option<string>, infoLines: nat): (r: nat)
    ensures title.None? || title.value == "" ==> r == 1
    ensures title.Some? && title.value != "" ==> r == 1 + 2 + 1 + (if storeName.Some? && storeName.value != "" then 1 else 0) + infoLines + 1
  {
    if title.Some? && title.value != "" then
      5 + (if storeName.Some? && storeName.value != "" then 1 else 0) + infoLines
    else 1
  }

  /** A worksheet by rows: row r (from 1) holds its cells from column A on;
      `sheet[r][c]` is the cell in column c + 1. Rows never written are
      absent. */
  type Sheet = map<int, seq<Value>>

  /** Row r holds one resolved value per column for the record. */
  predicate RowHolds(sheet: Sheet, r: int, record: Value, columns: seq<Column>)
  {
    r in sheet && |sheet[r]| == |columns|
    && forall c :: 0 <= c < |columns| ==> sheet[r][c] == CellValue(record, columns[c].name)
  }

  /** The cells the report writes, apart from the library's styling: the
      title block in column A (TitleRows), the header with each column's display name,
      then one row per record, in order. `stamp` is the export time. */
  method WriteReport(data: seq<Value>, columns: seq<Column>, title: Option<string>, storeName: Option<string>,
                     info: seq<(string, string)>, stamp: DateTime)
    returns (sheet: Sheet, header: int)
    ensures header == HeaderRow(title, storeName, |info|)
    ensures header in sheet && |sheet[header]| == |columns|
    ensures forall c :: 0 <= c < |columns| ==> sheet[header][c] == Scalar(columns[c].display)
    ensures forall p :: 0 <= p < |data| ==> RowHolds(sheet, header + 1 + p, data[p], columns)
    ensures forall r :: r in sheet ==> (1 <= r < header && |sheet[r]| == 1) || header <= r <= header + |data|
    ensures TitleRows(sheet, header, title, storeName, info, stamp)
  {
    sheet, header := WriteTitle(title, storeName, info, stamp);
    var names := HeaderCells(columns);
    sheet := sheet[header := names];
    var currentRow := header + 1;
    var i := 0;
    while i < |data|
      invariant 0 <= i <= |data| && currentRow == header + 1 + i
      invariant header in sheet && sheet[header] == names
      invariant forall p :: 0 <= p < i ==> RowHolds(sheet, header + 1 + p, data[p], columns)
      invariant forall r :: r in sheet ==> (1 <= r < header && |sheet[r]| == 1) || header <= r < currentRow
      invariant TitleRows(sheet, header, title, storeName, info, stamp)
    {
      var cells := RowCells(data[i], columns);
      sheet := sheet[currentRow := cells];
      currentRow := currentRow + 1;
      i := i + 1;
    }
  }

  /** The title block's rows above the header: with a title, the title in
      row 1, a blank row 2, `Export Date: ` and the time stamp in row 3, the
      store line in row 4 when a store name is given, one line per
      additional-information entry in order, and a blank row before the
      header. */
  predicate TitleRows(sheet: Sheet, header: int, title: Option<string>, storeName: Option<string>, info: seq<(string, string)>, stamp: DateTime)
  {
    title.Some? && title.value != "" ==>
      && 1 in sheet && sheet[1] == [Scalar(title.value)]
      && 2 !in sheet && header - 1 !in sheet
      && 3 in sheet && sheet[3] == [Scalar("Export Date: " + FormatSecond(stamp))]
      && (storeName.Some? && storeName.value != "" ==> 4 in sheet && sheet[4] == [Scalar("Store: " + storeName.value)])
      && var start := header - 1 - |info|;
         forall r :: start <= r < start + |info| ==> r in sheet && sheet[r] == InfoLine(info[r - start])
  }

  /** The title block in column A (nothing without a title); the header goes
      one blank row below it. */
  method WriteTitle(title: Option<string>, storeName: Option<string>, info: seq<(string, string)>, stamp: DateTime)
    returns (sheet: Sheet, header: int)
    ensures header == HeaderRow(title, storeName, |info|)
    ensures forall r :: r in sheet ==> 1 <= r < header && |sheet[r]| == 1
    ensures title.None? || title.value == "" ==> sheet == map[]
    ensures TitleRows(sheet, header, title, storeName, info, stamp)
  {
    if title.Some? && title.value != "" {
      sheet, header := TitleBlock(title.value, "Export Date: " + FormatSecond(stamp), storeName, info);
    } else {
      sheet, header := map[], 1;
    }
  }

  /** The rows of a title block with the given title and date line. */
  method TitleBlock(title: string, dateLine: string, storeName: Option<string>, info: seq<(string, string)>)
    returns (sheet: Sheet, header: int)
    ensures header == 5 + (if storeName.Some? && storeName.value != "" then 1 else 0) + |info|
    ensures forall r :: r in sheet ==> 1 <= r < header && |sheet[r]| == 1
    ensures 1 in sheet && sheet[1] == [Scalar(title)]
    ensures 2 !in sheet && header - 1 !in sheet
    ensures 3 in sheet && sheet[3] == [Scalar(dateLine)]
    ensures storeName.Some? && storeName.value != "" ==> 4 in sheet && sheet[4] == [Scalar("Store: " + storeName.value)]
    ensures var start := header - 1 - |info|;
      forall r :: start <= r < start + |info| ==> r in sheet && sheet[r] == InfoLine(info[r - start])
  {
    sheet := map[1 := [Scalar(title)], 3 := [Scalar(dateLine)]];
    var currentRow := 4;
    if storeName.Some? && storeName.value != "" {
      sheet := sheet[4 := [Scalar("Store: " + storeName.value)]];
      currentRow := 5;
    }
    sheet := WriteInfo(sheet, currentRow, info);
    header := currentRow + |info| + 1;
  }

  /** One line per additional-information entry, `label: value`, in column A
      from row `start` on, in order; the rows above are untouched. */
  method WriteInfo(sheet: Sheet, start: int, info: seq<(string, string)>) returns (result: Sheet)
    requires forall r :: r in sheet ==> r < start
    ensures forall r :: start <= r < start + |info| ==> r in result && result[r] == InfoLine(info[r - start])
    ensures forall r :: r in result ==> (r in sheet && result[r] == sheet[r]) || start <= r < start + |info|
    ensures forall r :: r in sheet ==> r in result && result[r] == sheet[r]
  {
    result := sheet;
    for k := 0 to |info|
      invariant forall r :: start <= r < start + k ==> r in result && result[r] == InfoLine(info[r - start])
      invariant forall r :: r in result ==> (r in sheet && result[r] == sheet[r]) || start <= r < start + k
      invariant forall r :: r in sheet ==> r in result && result[r] == sheet[r]
    {
      result := result[start + k := InfoLine(info[k])];
    }
  }

  /** An additional-information entry as written: `label: value`. */
  function InfoLine(entry: (string, string)): (cells: seq<Value>)
    ensures |cells| == 1 && cells[0].Scalar?
  {
    [Scalar(entry.0 + ": " + entry.1)]
  }

  /** The header cells: each column's display name, in order. */
  method HeaderCells(columns: seq<Column>) returns (cells: seq<Value>)
    ensures |cells| == |columns|
    ensures forall c :: 0 <= c < |columns| ==> cells[c] == Scalar(columns[c].display)
  {
    cells := [];
    for j := 0 to |columns|
      invariant |cells| == j
      invariant forall c :: 0 <= c < j ==> cells[c] == Scalar(columns[c].display)
    {
      cells := cells + [Scalar(columns[j].display)];
    }
  }

  /** One record's row: each column's value through the resolver, in order. */
  method RowCells(record: Value, columns: seq<Column>) returns (cells: seq<Value>)
    ensures |cells| == |columns|
    ensures forall c :: 0 <= c < |columns| ==> cells[c] == CellValue(record, columns[c].name)
  {
    cells := [];
    for q := 0 to |columns|
      invariant |cells| == q
      invariant forall c :: 0 <= c < q ==> cells[c] == CellValue(record, columns[c].name)
    {
      var cell := ResolveCell(record, columns[q].name);
      cells := cells + [cell];
    }
  }

  // ---------------------------------------------------------------------
  // Column widths
  // ---------------------------------------------------------------------

  const MaxWidth := 50

  /** The length of the longest text. */
  function Longest(texts: seq<string>): nat
    decreases |texts|
  {
    if texts == [] then 0
    else
      var rest := Longest(texts[..|texts| - 1]);
      if |texts[|texts| - 1]| > rest then |texts[|texts| - 1]| else rest
  }

  /** The width set for a column whose cells read as `texts` (the text
      `str()` gives each cell's value): two more than its longest text, but
      never more than 50. Every text shorter than 49 characters fits with two
      to spare, and the width is that of some text or the cap. */
  method ColumnWidth(texts: seq<string>) returns (width: int)
    ensures width == if Longest(texts) + 2 < MaxWidth then Longest(texts) + 2 else MaxWidth
    ensures 2 <= width <= MaxWidth
    ensures forall i :: 0 <= i < |texts| ==> |texts[i]| + 2 <= width || width == MaxWidth
    ensures width == MaxWidth || width == 2 || exists i :: 0 <= i < |texts| && |texts[i]| + 2 == width
  {
    var maxLength := 0;
    var i := 0;
    while i < |texts|
      invariant 0 <= i <= |texts|
      invariant maxLength == Longest(texts[..i])
      invariant forall k :: 0 <= k < i ==> |texts[k]| <= maxLength
      invariant maxLength == 0 || exists k :: 0 <= k < i && |texts[k]| == maxLength
    {
      assert texts[..i + 1][..i] == texts[..i];
      if |texts[i]| > maxLength {
        maxLength := |texts[i]|;
      }
      i := i + 1;
    }
    assert texts[..|texts|] == texts;
    width := if maxLength + 2 < MaxWidth then maxLength + 2 else MaxWidth;
  }
}
