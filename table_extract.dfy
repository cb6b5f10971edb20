/**
 * Table extraction with Camelot: the page selection passed to Camelot, the
 * fallback from the lattice to the stream flavour, the conversion of each
 * non-empty table into headers, rows and a " | "-separated text, and the
 * grouping of the tables by page, in Camelot's order.
 *
 * Camelot is an input: whether it imports, and what each read gives (None
 * when it raised). A table's cells are given as the text str() makes of them.
 */
module TableExtract {
  import opened Wrappers
  import opened Text
  import Schema
  import Utils

  /** A table Camelot read: its page, its cell rows, its accuracy and its (x1, y1, x2, y2) bbox when present. */
  datatype RawTable = RawTable(page: int, cells: seq<seq<string>>, accuracy: Option<real>,
                               bbox: Option<(real, real, real, real)>)

  /** One table dictionary. */
  datatype TableDict = TableDict(
    headers: seq<string>,
    rows: seq<seq<string>>,
    csvText: string,
    accuracy: Option<real>,
    bbox: Option<Schema.Rect>,
    numRows: int,
    numCols: int)

  /** The pages argument: the requested numbers joined by commas, or "all" when none are given. */
  function PagesArg(pageNumbers: Option<seq<int>>): string {
    if pageNumbers.Some? && pageNumbers.value != [] then Join(IntStrings(pageNumbers.value), ",") else "all"
  }

  function IntStrings(ps: seq<int>): (r: seq<string>)
    ensures |r| == |ps| && forall i :: 0 <= i < |ps| ==> r[i] == IntToString(ps[i])
  {
    seq(|ps|, i requires 0 <= i < |ps| => IntToString(ps[i]))
  }

  lemma NoCommaInNumber(n: int)
    ensures ',' !in IntToString(n)
  {
    var s := IntToString(n);
    var d := NatToString(if n < 0 then -n else n);
    assert AllDigits(d);
    if n < 0 {
      assert s == "-" + d;
      assert forall k :: 1 <= k < |s| ==> s[k] == d[k - 1];
    } else {
      assert s == d;
    }
    assert forall k :: 0 <= k < |s| ==> s[k] != ',';
  }

  /** Camelot can read the page numbers back from the pages argument, one per comma-separated piece. */
  lemma PagesArgRoundTrip(ps: seq<int>)
    requires ps != []
    ensures var pieces := SplitOn(PagesArg(Some(ps)), ',');
      |pieces| == |ps| && forall i :: 0 <= i < |ps| ==> ParseInt(pieces[i]) == Some(ps[i])
  {
    var ws := IntStrings(ps);
    forall i | 0 <= i < |ws| ensures ',' !in ws[i] {
      NoCommaInNumber(ps[i]);
    }
    SplitOnJoin(ws, ',');
    forall i | 0 <= i < |ps| ensures ParseInt(ws[i]) == Some(ps[i]) {
      ParseIntToString(ps[i]);
    }
  }

  /** What the read gives: the tables, or None when it raised; a lattice read that raised is retried as stream. */
  function TablesRead(flavor: string, first: Option<seq<RawTable>>, stream: Option<seq<RawTable>>): (r: Option<seq<RawTable>>)
    ensures first.Some? ==> r == first
    ensures first.None? && flavor == "lattice" ==> r == stream
    ensures first.None? && flavor != "lattice" ==> r.None?
  {
    if first.Some? then first
    else if flavor == "lattice" then stream
    else None
  }

  /** df.empty: no rows or no columns. */
  predicate EmptyFrame(cells: seq<seq<string>>) { cells == [] || cells[0] == [] }

  function StripCells(row: seq<string>): (r: seq<string>)
    ensures |r| == |row| && forall i :: 0 <= i < |row| ==> r[i] == Strip(row[i])
  {
    seq(|row|, i requires 0 <= i < |row| => Strip(row[i]))
  }

  function CsvLines(cells: seq<seq<string>>): (r: seq<string>)
    ensures |r| == |cells| && forall i :: 0 <= i < |cells| ==> r[i] == Join(StripCells(cells[i]), " | ")
  {
    seq(|cells|, i requires 0 <= i < |cells| => Join(StripCells(cells[i]), " | "))
  }

  function RectOf(b: (real, real, real, real)): (r: Schema.Rect)
    ensures r.x == b.0 && r.y == b.1 && r.x + r.w == b.2 && r.y + r.h == b.3
  {
    Schema.Rect(b.0, b.1, b.2 - b.0, b.3 - b.1)
  }

  /** The dictionary of a non-empty table. */
  function TableOf(t: RawTable): (d: TableDict)
    requires !EmptyFrame(t.cells)
    ensures d.headers == StripCells(t.cells[0])
    ensures |d.rows| == |t.cells| - 1 && forall i :: 0 <= i < |d.rows| ==> d.rows[i] == StripCells(t.cells[i + 1])
    ensures d.numRows == |t.cells| == |d.rows| + 1 && d.numCols == |d.headers| == |t.cells[0]|
    ensures d.accuracy == t.accuracy && (d.bbox.Some? <==> t.bbox.Some?)
  {
    var headers := StripCells(t.cells[0]);
    var rows := seq(|t.cells| - 1, i requires 0 <= i < |t.cells| - 1 => StripCells(t.cells[i + 1]));
    TableDict(headers, rows, Join(CsvLines(t.cells), "\n"), t.accuracy,
              if t.bbox.Some? then Some(RectOf(t.bbox.value)) else None,
              |t.cells|, |headers|)
  }

  /** The csv text has one line per row, the header first, when no cell holds a newline. */
  lemma CsvTextLines(t: RawTable)
    requires !EmptyFrame(t.cells)
    requires forall r, c :: 0 <= r < |t.cells| && 0 <= c < |t.cells[r]| ==> '\n' !in t.cells[r][c]
    ensures var d := TableOf(t);
      var lines := SplitOn(d.csvText, '\n');
      && |lines| == d.numRows
      && lines[0] == Join(d.headers, " | ")
      && forall i :: 0 <= i < |d.rows| ==> lines[i + 1] == Join(d.rows[i], " | ")
  {
    var ls := CsvLines(t.cells);
    forall i | 0 <= i < |ls| ensures '\n' !in ls[i] {
      var row := StripCells(t.cells[i]);
      forall c | 0 <= c < |row| ensures '\n' !in row[c] {
        StripChars(t.cells[i][c], '\n');
      }
      Utils.JoinChars(row, " | ", '\n');
    }
    SplitOnJoin(ls, '\n');
  }

  /** Grouping: the tables of the first k entries, by page, in order. */
  function Grouped(tables: seq<RawTable>): map<int, seq<TableDict>> {
    if tables == [] then map[]
    else
      var g := Grouped(tables[..|tables| - 1]);
      var t := tables[|tables| - 1];
      if EmptyFrame(t.cells) then g
      else g[t.page := (if t.page in g then g[t.page] else []) + [TableOf(t)]]
  }

  /** The reference: the non-empty tables of one page, in order. */
  function OnPage(tables: seq<RawTable>, p: int): seq<TableDict> {
    if tables == [] then []
    else
      var prior := OnPage(tables[..|tables| - 1], p);
      var t := tables[|tables| - 1];
      if t.page == p && !EmptyFrame(t.cells) then prior + [TableOf(t)] else prior
  }

  /**
   * A page is a key exactly when it has a non-empty table, and its list is
   * that page's non-empty tables in Camelot's order.
   */
  lemma {:induction false} GroupedFacts(tables: seq<RawTable>, p: int)
    ensures p in Grouped(tables) <==> OnPage(tables, p) != []
    ensures p in Grouped(tables) ==> Grouped(tables)[p] == OnPage(tables, p)
  {
    if tables != [] {
      GroupedFacts(tables[..|tables| - 1], p);
    }
  }

  /** A table with no rows or columns is never listed. */
  lemma {:induction false} OnPageNonEmpty(tables: seq<RawTable>, p: int)
    ensures forall i :: 0 <= i < |OnPage(tables, p)| ==> OnPage(tables, p)[i].numRows >= 1 && OnPage(tables, p)[i].numCols >= 1
  {
    if tables != [] {
      OnPageNonEmpty(tables[..|tables| - 1], p);
      var prior := OnPage(tables[..|tables| - 1], p);
      var t := tables[|tables| - 1];
      if t.page == p && !EmptyFrame(t.cells) {
        assert forall i :: 0 <= i < |prior| ==> OnPage(tables, p)[i] == prior[i];
      }
    }
  }

  /** The specification of extract_tables. */
  function Tables(available: bool, flavor: string, first: Option<seq<RawTable>>, stream: Option<seq<RawTable>>): map<int, seq<TableDict>> {
    if !available then map[]
    else
      var read := TablesRead(flavor, first, stream);
      if read.None? then map[] else Grouped(read.value)
  }

  /**
   * extract_tables: {} when Camelot is missing or every read raised;
   * otherwise the tables read, grouped by page with setdefault(...).append.
   * The pages argument Camelot receives is PagesArg(pageNumbers).
   */
  method ExtractTables(available: bool, flavor: string, first: Option<seq<RawTable>>, stream: Option<seq<RawTable>>)
    returns (result: map<int, seq<TableDict>>)
    ensures result == Tables(available, flavor, first, stream)
  {
    if !available {
      return map[];
    }
    var tables: seq<RawTable>;
    if first.Some? {
      tables := first.value;
    } else if flavor == "lattice" && stream.Some? {
      tables := stream.value;
    } else {
      return map[];
    }
    result := map[];
    var k := 0;
    while k < |tables|
      invariant 0 <= k <= |tables|
      invariant result == Grouped(tables[..k])
    {
      assert tables[..k + 1][..k] == tables[..k];
      var t := tables[k];
      if !EmptyFrame(t.cells) {
        var list := if t.page in result then result[t.page] else [];
        result := result[t.page := list + [TableOf(t)]];
      }
      k := k + 1;
    }
    assert tables[..|tables|] == tables;
  }
}
