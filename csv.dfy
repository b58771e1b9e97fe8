/** CSV cells, rows and tables as both parsers and `utils.ts` write them:
    a cell is quoted, with every inner quote doubled, exactly when it holds a
    comma, a quote or a line feed (rules 6 and 7 of section 2 of RFC 4180,
    with LF instead of CRLF as the line break); an undefined value is an empty
    cell. A reader for that format is defined here as well, so that the
    writer can be proved against it. */
module Csv {
  import opened Wrappers
  import opened Strings

  /** The condition under which `escapeCsvValue` quotes. */
  predicate NeedsQuoting(v: string) {
    ',' in v || '"' in v || '\n' in v
  }

  /** `value.replace(/"/g, '""')` */
  function DoubleQuotes(v: string): string {
    ReplaceChar(v, '"', "\"\"")
  }

  /** `escapeCsvValue` applied to a string. */
  function Escape(v: string): (r: string)
    ensures !NeedsQuoting(v) ==> r == v
    ensures NeedsQuoting(v) ==> |r| >= 2 && r[0] == '"' && r[|r| - 1] == '"'
  {
    if NeedsQuoting(v) then "\"" + DoubleQuotes(v) + "\"" else v
  }

  /** `escapeCsvValue` applied to a possibly undefined value and then joined:
      `Array.prototype.join` renders `undefined` as the empty string. */
  function Cell(v: Option<string>): (r: string)
    ensures r == Escape(v.GetOr(""))
  {
    match v
    case None => ""
    case Some(s) => Escape(s)
  }

  function EscapeAll(cells: seq<string>): (r: seq<string>)
    ensures |r| == |cells|
  {
    if cells == [] then [] else [Escape(cells[0])] + EscapeAll(cells[1..])
  }

  function CellsOf(values: seq<Option<string>>): (r: seq<string>)
    ensures |r| == |values|
  {
    if values == [] then [] else [Cell(values[0])] + CellsOf(values[1..])
  }

  /** The text a value reads back as: an undefined value is an empty cell. */
  function TextsOf(values: seq<Option<string>>): (r: seq<string>)
    ensures |r| == |values|
  {
    if values == [] then [] else [values[0].GetOr("")] + TextsOf(values[1..])
  }

  /** `values.map(escapeCsvValue).join(",")` */
  function RenderRow(values: seq<Option<string>>): string {
    Join(CellsOf(values), ",")
  }

  /** The data part of a file: each row preceded by a line feed. */
  function Lines(rows: seq<string>): string {
    if rows == [] then "" else "\n" + rows[0] + Lines(rows[1..])
  }

  function RenderRows(rows: seq<seq<Option<string>>>): seq<string> {
    if rows == [] then [] else [RenderRow(rows[0])] + RenderRows(rows[1..])
  }

  /** A whole file as the parsers write it: the header cells joined by commas
      (written unescaped), then every row on a line of its own. */
  function Table(header: seq<string>, rows: seq<seq<Option<string>>>): string {
    Join(header, ",") + Lines(RenderRows(rows))
  }

  // ---------------------------------------------------------------------
  // Reading the format back

  /** An unquoted field: everything up to the next comma or line feed. */
  function Unquoted(s: string): (r: (string, string))
    ensures r.0 + r.1 == s
    ensures r.1 == [] || r.1[0] == ',' || r.1[0] == '\n'
  {
    if s == [] || s[0] == ',' || s[0] == '\n' then ("", s)
    else
      var (f, rest) := Unquoted(s[1..]);
      ([s[0]] + f, rest)
  }

  /** The body of a quoted field, after its opening quote: a doubled quote
      stands for one quote, a single quote closes the field. */
  function QuotedBody(s: string): (r: Option<(string, string)>)
    ensures r.Some? ==> |r.value.1| < |s|
  {
    if s == [] then None
    else if s[0] == '"' then
      if |s| >= 2 && s[1] == '"' then
        match QuotedBody(s[2..])
        case None => None
        case Some((f, rest)) => Some(("\"" + f, rest))
      else Some(("", s[1..]))
    else
      match QuotedBody(s[1..])
      case None => None
      case Some((f, rest)) => Some(([s[0]] + f, rest))
  }

  /** One field and what follows it, which is a comma, a line feed or
      nothing; `None` for malformed quoting. */
  function ParseField(s: string): (r: Option<(string, string)>)
    ensures r.Some? ==> |r.value.1| <= |s|
    ensures r.Some? ==> r.value.1 == [] || r.value.1[0] == ',' || r.value.1[0] == '\n'
  {
    if s != [] && s[0] == '"' then
      match QuotedBody(s[1..])
      case None => None
      case Some((f, rest)) =>
        if rest == [] || rest[0] == ',' || rest[0] == '\n' then Some((f, rest)) else None
    else Some(Unquoted(s))
  }

  /** The fields of one record and what follows it (a line feed or nothing). */
  function ParseRecord(s: string): (r: Option<(seq<string>, string)>)
    ensures r.Some? ==> |r.value.1| <= |s|
    ensures r.Some? ==> r.value.1 == [] || r.value.1[0] == '\n'
    decreases |s|
  {
    match ParseField(s)
    case None => None
    case Some((f, rest)) =>
      if rest != [] && rest[0] == ',' then
        match ParseRecord(rest[1..])
        case None => None
        case Some((fs, tail)) => Some(([f] + fs, tail))
      else Some(([f], rest))
  }

  /** All records of a text, line feed separated. */
  function ParseRecords(s: string): Option<seq<seq<string>>>
    decreases |s|
  {
    match ParseRecord(s)
    case None => None
    case Some((rec, rest)) =>
      if rest == [] then Some([rec])
      else
        match ParseRecords(rest[1..])
        case None => None
        case Some(recs) => Some([rec] + recs)
  }

  // ---------------------------------------------------------------------
  // The writer against the reader

  lemma {:induction false} UnquotedReadsBack(v: string, rest: string)
    requires ',' !in v && '\n' !in v
    requires rest == [] || rest[0] == ',' || rest[0] == '\n'
    ensures Unquoted(v + rest) == (v, rest)
  {
    if v == [] {
      assert v + rest == rest;
    } else {
      var s := v + rest;
      assert s[0] == v[0] && v[0] != ',' && v[0] != '\n';
      assert s[1..] == v[1..] + rest;
      UnquotedReadsBack(v[1..], rest);
      assert [v[0]] + v[1..] == v;
    }
  }

  lemma {:induction false} QuotedBodyReadsBack(v: string, rest: string)
    requires rest == [] || rest[0] != '"'
    ensures QuotedBody(DoubleQuotes(v) + "\"" + rest) == Some((v, rest))
  {
    var s := DoubleQuotes(v) + "\"" + rest;
    if v == [] {
      assert s == "\"" + rest;
      assert s[1..] == rest;
    } else {
      QuotedBodyReadsBack(v[1..], rest);
      var tail := DoubleQuotes(v[1..]) + "\"" + rest;
      assert [v[0]] + v[1..] == v;
      if v[0] == '"' {
        assert s == "\"\"" + tail;
        assert s[2..] == tail;
      } else {
        assert s == [v[0]] + tail;
        assert s[1..] == tail;
      }
    }
  }

  /** A cell reads back as the value it was written from, whatever follows
      it on the line. */
  lemma CellReadsBack(v: string, rest: string)
    requires rest == [] || rest[0] == ',' || rest[0] == '\n'
    ensures ParseField(Escape(v) + rest) == Some((v, rest))
  {
    if NeedsQuoting(v) {
      QuotedCellReadsBack(v, rest);
    } else {
      PlainCellReadsBack(v, rest);
    }
  }

  lemma QuotedCellReadsBack(v: string, rest: string)
    requires NeedsQuoting(v)
    requires rest == [] || rest[0] == ',' || rest[0] == '\n'
    ensures ParseField(Escape(v) + rest) == Some((v, rest))
  {
    var d := DoubleQuotes(v);
    var body := d + "\"" + rest;
    var s := Escape(v) + rest;
    assert Escape(v) == "\"" + d + "\"";
    assert s == "\"" + body;
    assert s[0] == '"' && s[1..] == body;
    QuotedBodyReadsBack(v, rest);
  }

  lemma PlainCellReadsBack(v: string, rest: string)
    requires !NeedsQuoting(v)
    requires rest == [] || rest[0] == ',' || rest[0] == '\n'
    ensures ParseField(Escape(v) + rest) == Some((v, rest))
  {
    var s := v + rest;
    UnquotedReadsBack(v, rest);
    if v != [] {
      assert s[0] == v[0] && v[0] != '"';
    } else {
      assert s == rest;
    }
  }

  /** A row of cells reads back as its values. */
  lemma {:induction false} RowReadsBack(cells: seq<string>, rest: string)
    requires |cells| >= 1
    requires rest == [] || rest[0] == '\n'
    ensures ParseRecord(Join(EscapeAll(cells), ",") + rest) == Some((cells, rest))
  {
    var e := EscapeAll(cells);
    if |cells| == 1 {
      assert e == [Escape(cells[0])];
      CellReadsBack(cells[0], rest);
      assert [cells[0]] == cells;
    } else {
      var tail := Join(EscapeAll(cells[1..]), ",") + rest;
      RowReadsBack(cells[1..], rest);
      assert e[1..] == EscapeAll(cells[1..]);
      assert Join(e, ",") + rest == Escape(cells[0]) + ("," + tail);
      CellReadsBack(cells[0], "," + tail);
      assert ("," + tail)[1..] == tail;
      assert [cells[0]] + cells[1..] == cells;
    }
  }

  /** Lines of rows, separated by line feeds, read back as those rows. */
  lemma {:induction false} RowsReadBack(table: seq<seq<string>>)
    requires |table| >= 1
    requires forall i :: 0 <= i < |table| ==> |table[i]| >= 1
    ensures ParseRecords(Join(EscapeRows(table), "\n")) == Some(table)
  {
    var lines := EscapeRows(table);
    if |table| == 1 {
      assert lines == [Join(EscapeAll(table[0]), ",")];
      RowReadsBack(table[0], "");
      assert Join(EscapeAll(table[0]), ",") + "" == Join(EscapeAll(table[0]), ",");
      assert [table[0]] == table;
    } else {
      var row := Join(EscapeAll(table[0]), ",");
      var tail := Join(EscapeRows(table[1..]), "\n");
      var after := "\n" + tail;
      RowsReadBack(table[1..]);
      assert lines[0] == row && lines[1..] == EscapeRows(table[1..]);
      assert Join(lines, "\n") == row + after;
      RowReadsBack(table[0], after);
      assert after != [] && after[1..] == tail;
      assert ParseRecords(row + after) == Some([table[0]] + table[1..]);
      assert [table[0]] + table[1..] == table;
    }
  }

  function EscapeRows(table: seq<seq<string>>): (r: seq<string>)
    ensures |r| == |table|
  {
    if table == [] then [] else [Join(EscapeAll(table[0]), ",")] + EscapeRows(table[1..])
  }

  lemma {:induction false} EscapeAllPlain(cells: seq<string>)
    requires forall c :: c in cells ==> !NeedsQuoting(c)
    ensures EscapeAll(cells) == cells
  {
    if cells != [] {
      EscapeAllPlain(cells[1..]);
      assert [cells[0]] + cells[1..] == cells;
    }
  }

  lemma {:induction false} CellsAreEscapedTexts(values: seq<Option<string>>)
    ensures CellsOf(values) == EscapeAll(TextsOf(values))
  {
    if values != [] {
      CellsAreEscapedTexts(values[1..]);
    }
  }

  lemma {:induction false} LinesAsJoin(first: string, rows: seq<string>)
    ensures first + Lines(rows) == Join([first] + rows, "\n")
    decreases |rows|
  {
    if rows != [] {
      LinesAsJoin(rows[0], rows[1..]);
      assert ([first] + rows)[1..] == [rows[0]] + rows[1..];
      assert [rows[0]] + rows[1..] == rows;
    }
  }

  function TextRows(rows: seq<seq<Option<string>>>): (r: seq<seq<string>>)
    ensures |r| == |rows|
  {
    if rows == [] then [] else [TextsOf(rows[0])] + TextRows(rows[1..])
  }

  lemma {:induction false} RenderRowsEscaped(rows: seq<seq<Option<string>>>)
    ensures RenderRows(rows) == EscapeRows(TextRows(rows))
  {
    if rows != [] {
      RenderRowsEscaped(rows[1..]);
      CellsAreEscapedTexts(rows[0]);
    }
  }

  /** CSV round trip: a file written with a header that needs no quoting and
      any rows of at least one value reads back as the header followed by
      the rows' texts, cell for cell and in order. */
  lemma TableReadsBack(header: seq<string>, rows: seq<seq<Option<string>>>)
    requires |header| >= 1
    requires forall h :: h in header ==> !NeedsQuoting(h)
    requires forall i :: 0 <= i < |rows| ==> |rows[i]| >= 1
    ensures ParseRecords(Table(header, rows)) == Some([header] + TextRows(rows))
  {
    var table := [header] + TextRows(rows);
    EscapeAllPlain(header);
    RenderRowsEscaped(rows);
    LinesAsJoin(Join(header, ","), RenderRows(rows));
    assert EscapeRows(table) == [Join(header, ",")] + RenderRows(rows) by {
      assert table[1..] == TextRows(rows);
    }
    forall i | 0 <= i < |table| ensures |table[i]| >= 1 {
      if i > 0 {
        TextRowsLength(rows, i - 1);
      }
    }
    RowsReadBack(table);
  }

  lemma {:induction false} TextRowsLength(rows: seq<seq<Option<string>>>, i: nat)
    requires i < |rows|
    ensures |TextRows(rows)[i]| == |rows[i]|
  {
    if i > 0 {
      TextRowsLength(rows[1..], i - 1);
    }
  }

  /** Stripping the outer quotes of a quoted cell and undoubling its quotes
      gives back the value; an unquoted cell is the value itself. */
  lemma EscapeRoundTrip(v: string)
    ensures ParseField(Escape(v)) == Some((v, ""))
  {
    CellReadsBack(v, "");
    assert Escape(v) + "" == Escape(v);
  }

  lemma {:induction false} LinesAppend(a: seq<string>, b: seq<string>)
    ensures Lines(a + b) == Lines(a) + Lines(b)
  {
    if a == [] {
      assert a + b == b;
    } else {
      var ab := a + b;
      assert ab[0] == a[0] && ab[1..] == a[1..] + b;
      LinesAppend(a[1..], b);
      assert Lines(ab) == "\n" + a[0] + Lines(a[1..] + b);
    }
  }

  lemma {:induction false} RenderRowsAppend(a: seq<seq<Option<string>>>, b: seq<seq<Option<string>>>)
    ensures RenderRows(a + b) == RenderRows(a) + RenderRows(b)
  {
    if a == [] {
      assert a + b == b;
    } else {
      var ab := a + b;
      assert ab[0] == a[0] && ab[1..] == a[1..] + b;
      RenderRowsAppend(a[1..], b);
      assert RenderRows(ab) == [RenderRow(a[0])] + RenderRows(a[1..] + b);
    }
  }

  /** Each cell of a read-back row is the written value, undefined read as
      empty. */
  lemma {:induction false} TextRowsAt(rows: seq<seq<Option<string>>>, i: nat, k: nat)
    requires i < |rows| && k < |rows[i]|
    ensures |TextRows(rows)[i]| == |rows[i]|
    ensures TextRows(rows)[i][k] == rows[i][k].GetOr("")
  {
    TextRowsLength(rows, i);
    TextsAt(rows[i], k);
    if i > 0 {
      TextRowsAt(rows[1..], i - 1, k);
    }
  }

  lemma {:induction false} TextsAt(values: seq<Option<string>>, k: nat)
    requires k < |values|
    ensures TextsOf(values)[k] == values[k].GetOr("")
  {
    if k > 0 {
      TextsAt(values[1..], k - 1);
    }
  }
}
