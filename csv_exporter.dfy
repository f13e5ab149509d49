/** Turning a list of records into CSV text (utils/csvExporter.ts). Every
    field is quoted, so a small reader for such text serves as the
    exporter's inverse. */
module CsvExporter {
  import opened Wrappers
  import opened Strings
  import opened Seqs

  /** A record as `Object.keys` lists it: its keys in order with their
      values. */
  type Record<V> = seq<(string, V)>

  /** `replace(/"/g, '""')`: every double quote doubled. */
  function DoubleQuotes(s: string): (r: string)
    ensures |r| >= |s|
  {
    if |s| == 0 then ""
    else (if s[0] == '"' then "\"\"" else [s[0]]) + DoubleQuotes(s[1..])
  }

  /** `escapeCsvField`: nothing for a missing value, otherwise the value in
      double quotes with its own double quotes doubled. */
  function EscapeCsvField(value: Option<string>): (r: string)
    ensures value.None? <==> r == ""
    ensures value.Some? ==> |r| >= 2 && r[0] == '"' && r[|r| - 1] == '"'
  {
    match value
    case None => ""
    case Some(s) => "\"" + DoubleQuotes(s) + "\""
  }

  /** Doubling adds exactly one character per double quote, and the
      result holds twice as many double quotes. */
  lemma {:induction false} DoubleQuotesCount(s: string)
    ensures |DoubleQuotes(s)| == |s| + multiset(s)['"']
    ensures multiset(DoubleQuotes(s))['"'] == 2 * multiset(s)['"']
  {
    if |s| > 0 {
      DoubleQuotesCount(s[1..]);
      assert s == [s[0]] + s[1..];
    }
  }

  /** Reading a quoted field's inside back: each `""` becomes `"`. */
  function Collapse(t: string): string
  {
    if |t| == 0 then ""
    else if |t| >= 2 && t[0] == '"' && t[1] == '"' then "\"" + Collapse(t[2..])
    else [t[0]] + Collapse(t[1..])
  }

  lemma {:induction false} CollapseDoubled(s: string)
    ensures Collapse(DoubleQuotes(s)) == s
  {
    if |s| > 0 {
      CollapseDoubled(s[1..]);
      var d := DoubleQuotes(s);
      if s[0] == '"' {
        assert d[2..] == DoubleQuotes(s[1..]);
      } else {
        assert d[1..] == DoubleQuotes(s[1..]);
        if |d| >= 2 {
          assert d[0] != '"';
        }
      }
    }
  }

  /** Dropping the outer quotes and collapsing `""` gives the value back. */
  lemma EscapeRoundTrip(s: string)
    ensures var t := EscapeCsvField(Some(s)); Collapse(t[1..|t| - 1]) == s
  {
    var t := EscapeCsvField(Some(s));
    assert t[1..|t| - 1] == DoubleQuotes(s);
    CollapseDoubled(s);
  }

  /** The text of a present value. */
  function Quoted(s: string): string { EscapeCsvField(Some(s)) }

  function QuotedAll(cells: seq<string>): (r: seq<string>)
    ensures |r| == |cells|
    ensures forall i :: 0 <= i < |cells| ==> r[i] == Quoted(cells[i])
  {
    seq(|cells|, i requires 0 <= i < |cells| => Quoted(cells[i]))
  }

  /** One CSV line: the quoted cells joined by commas. */
  function Line(cells: seq<string>): string { Join(QuotedAll(cells), ",") }

  function LinesOf(rows: seq<seq<string>>): (r: seq<string>)
    ensures |r| == |rows|
    ensures forall i :: 0 <= i < |rows| ==> r[i] == Line(rows[i])
  {
    seq(|rows|, i requires 0 <= i < |rows| => Line(rows[i]))
  }

  /** A reader for quoted fields: `t` follows an opening quote; the result
      is the field's value and what follows its closing quote. */
  function ParseCell(t: string): (r: Option<(string, string)>)
    ensures r.Some? ==> |r.value.1| < |t|
    decreases |t|
  {
    if |t| == 0 then None
    else if t[0] == '"' then
      if |t| >= 2 && t[1] == '"' then
        match ParseCell(t[2..])
        case None => None
        case Some((cell, rest)) => Some(("\"" + cell, rest))
      else Some(("", t[1..]))
    else
      match ParseCell(t[1..])
      case None => None
      case Some((cell, rest)) => Some(([t[0]] + cell, rest))
  }

  /** Reads comma-separated quoted fields up to the end of a line. */
  function ParseRow(t: string): (r: Option<(seq<string>, string)>)
    ensures r.Some? ==> |r.value.1| < |t|
    decreases |t|
  {
    if |t| == 0 || t[0] != '"' then None
    else
      match ParseCell(t[1..])
      case None => None
      case Some((cell, rest)) =>
        if |rest| > 0 && rest[0] == ',' then
          match ParseRow(rest[1..])
          case None => None
          case Some((cells, rest2)) => Some(([cell] + cells, rest2))
        else Some(([cell], rest))
  }

  /** Reads newline-separated lines of quoted fields to the end. */
  function ParseDoc(t: string): Option<seq<seq<string>>>
    decreases |t|
  {
    match ParseRow(t)
    case None => None
    case Some((cells, rest)) =>
      if |rest| == 0 then Some([cells])
      else if rest[0] == '\n' then
        match ParseDoc(rest[1..])
        case None => None
        case Some(rows) => Some([cells] + rows)
      else None
  }

  lemma {:induction false} ParseCellQuoted(s: string, r: string)
    requires |r| == 0 || r[0] != '"'
    ensures ParseCell(DoubleQuotes(s) + "\"" + r) == Some((s, r))
  {
    var t := DoubleQuotes(s) + "\"" + r;
    if |s| == 0 {
      assert t == "\"" + r;
    } else {
      ParseCellQuoted(s[1..], r);
      var u := DoubleQuotes(s[1..]) + "\"" + r;
      if s[0] == '"' {
        assert t == "\"\"" + u;
        assert t[2..] == u;
        assert s == "\"" + s[1..];
      } else {
        assert t == [s[0]] + u;
        assert t[1..] == u;
        assert s == [s[0]] + s[1..];
      }
    }
  }

  /** What follows the opening quote of a quoted cell. */
  lemma QuotedThen(cell: string, after: string)
    ensures |Quoted(cell) + after| > 0 && (Quoted(cell) + after)[0] == '"'
    ensures (Quoted(cell) + after)[1..] == DoubleQuotes(cell) + "\"" + after
  {
  }

  /** One step of `ParseRow` past a cell that reads. */
  lemma ParseRowCell(t: string, cell: string, after: string)
    requires |t| > 0 && t[0] == '"' && ParseCell(t[1..]) == Some((cell, after))
    ensures |after| > 0 && after[0] == ',' ==>
      ParseRow(t) == match ParseRow(after[1..])
                     case None => None
                     case Some((cells, rest)) => Some(([cell] + cells, rest))
    ensures !(|after| > 0 && after[0] == ',') ==> ParseRow(t) == Some(([cell], after))
  {
  }

  /** A quoted cell followed by the end of the line is a one-cell row. */
  lemma ParseRowLast(cell: string, after: string)
    requires |after| == 0 || (after[0] != '"' && after[0] != ',')
    ensures ParseRow(Quoted(cell) + after) == Some(([cell], after))
  {
    QuotedThen(cell, after);
    ParseCellQuoted(cell, after);
    ParseRowCell(Quoted(cell) + after, cell, after);
  }

  /** A quoted cell, a comma and a row read as one longer row. */
  lemma ParseRowComma(cell: string, more: string, cells: seq<string>, rest: string)
    requires ParseRow(more) == Some((cells, rest))
    ensures ParseRow(Quoted(cell) + ("," + more)) == Some(([cell] + cells, rest))
  {
    var after := "," + more;
    QuotedThen(cell, after);
    ParseCellQuoted(cell, after);
    assert after[1..] == more;
    ParseRowCell(Quoted(cell) + after, cell, after);
  }

  /** A line of two or more cells is its first cell, a comma and the rest. */
  lemma LineCons(cells: seq<string>, r: string)
    requires |cells| > 1
    ensures Line(cells) + r == Quoted(cells[0]) + ("," + (Line(cells[1..]) + r))
  {
    assert QuotedAll(cells)[1..] == QuotedAll(cells[1..]);
    assert Line(cells) == Quoted(cells[0]) + "," + Line(cells[1..]);
  }

  lemma {:induction false} ParseRowLine(cells: seq<string>, r: string)
    requires |cells| > 0
    requires |r| == 0 || r[0] == '\n'
    ensures ParseRow(Line(cells) + r) == Some((cells, r))
  {
    if |cells| == 1 {
      assert Line(cells) == Quoted(cells[0]);
      ParseRowLast(cells[0], r);
      assert cells == [cells[0]];
    } else {
      LineCons(cells, r);
      ParseRowLine(cells[1..], r);
      ParseRowComma(cells[0], Line(cells[1..]) + r, cells[1..], r);
      assert cells == [cells[0]] + cells[1..];
    }
  }

  /** Quoted lines of non-empty rows joined by newlines read back as those
      rows. */
  lemma {:induction false} ParseDocLines(rows: seq<seq<string>>)
    requires |rows| > 0
    requires forall i :: 0 <= i < |rows| ==> |rows[i]| > 0
    ensures ParseDoc(Join(LinesOf(rows), "\n")) == Some(rows)
  {
    var lines := LinesOf(rows);
    if |rows| == 1 {
      ParseRowLine(rows[0], "");
      assert Line(rows[0]) + "" == Line(rows[0]);
      assert rows == [rows[0]];
    } else {
      assert lines[1..] == LinesOf(rows[1..]);
      var rest := Join(LinesOf(rows[1..]), "\n");
      assert Join(lines, "\n") == Line(rows[0]) + ("\n" + rest);
      ParseRowLine(rows[0], "\n" + rest);
      assert ("\n" + rest)[1..] == rest;
      ParseDocLines(rows[1..]);
      assert rows == [rows[0]] + rows[1..];
    }
  }

  /** The keys of one record, in order. */
  function KeysOf<V>(obj: Record<V>): (r: seq<string>)
    ensures |r| == |obj|
    ensures forall j :: 0 <= j < |obj| ==> r[j] == obj[j].0
  {
    seq(|obj|, j requires 0 <= j < |obj| => obj[j].0)
  }

  /** `data.flatMap(obj => Object.keys(obj))`. */
  function AllKeys<V>(data: seq<Record<V>>): seq<string>
  {
    if |data| == 0 then [] else KeysOf(data[0]) + AllKeys(data[1..])
  }

  predicate HasKey<V>(obj: Record<V>, key: string)
  {
    exists j :: 0 <= j < |obj| && obj[j].0 == key
  }

  lemma {:induction false} AllKeysHas<V>(data: seq<Record<V>>, key: string)
    ensures key in AllKeys(data) <==> exists i :: 0 <= i < |data| && HasKey(data[i], key)
  {
    if |data| > 0 {
      AllKeysHas(data[1..], key);
      assert key in KeysOf(data[0]) <==> HasKey(data[0], key);
      if exists i :: 0 <= i < |data| && HasKey(data[i], key) {
        var i :| 0 <= i < |data| && HasKey(data[i], key);
        if i > 0 {
          assert data[1..][i - 1] == data[i];
        }
      }
    }
  }

  /** `Array.from(new Set(...))` over all keys: the header row. */
  function Headers<V>(data: seq<Record<V>>): (r: seq<string>)
    ensures NoDup(r)
  {
    SetAddAllNoDup([], AllKeys(data));
    SetAddAll([], AllKeys(data))
  }

  /** `obj[key]`: the value under the key, if the record has it. */
  function Get<V>(obj: Record<V>, key: string): (r: Option<V>)
    ensures r.None? <==> !HasKey(obj, key)
    ensures r.Some? ==> (key, r.value) in obj
  {
    if |obj| == 0 then None
    else if obj[0].0 == key then Some(obj[0].1)
    else
      var r := Get(obj[1..], key);
      assert HasKey(obj, key) ==> HasKey(obj[1..], key) by {
        if HasKey(obj, key) {
          var j :| 0 <= j < |obj| && obj[j].0 == key;
          assert obj[1..][j - 1] == obj[j];
        }
      }
      r
  }

  /** A cell's text: `String(value)` (the `render` function), or empty when
      the record lacks the key. */
  function CellText<V>(obj: Record<V>, key: string, render: V -> string): string
  {
    match Get(obj, key)
    case None => ""
    case Some(v) => render(v)
  }

  function RowCells<V>(obj: Record<V>, headers: seq<string>, render: V -> string): (r: seq<string>)
    ensures |r| == |headers|
    ensures forall k :: 0 <= k < |headers| ==> r[k] == CellText(obj, headers[k], render)
  {
    seq(|headers|, k requires 0 <= k < |headers| => CellText(obj, headers[k], render))
  }

  /** One row of cell texts per record, in order. */
  function DataRows<V>(data: seq<Record<V>>, headers: seq<string>, render: V -> string): (rows: seq<seq<string>>)
    ensures |rows| == |data|
    ensures forall i :: 0 <= i < |data| ==> rows[i] == RowCells(data[i], headers, render)
  {
    seq(|data|, i requires 0 <= i < |data| => RowCells(data[i], headers, render))
  }

  /** The header row, then one row per record, as plain cell texts. */
  function CsvRows<V>(data: seq<Record<V>>, render: V -> string): seq<seq<string>>
  {
    [Headers(data)] + DataRows(data, Headers(data), render)
  }

  /** The CSV text: empty for no records, otherwise the quoted lines of the
      rows joined by newlines. */
  function CsvText<V>(data: seq<Record<V>>, render: V -> string): (r: string)
    ensures r == "" <==> |data| == 0
  {
    if |data| == 0 then ""
    else
      var lines := LinesOf(CsvRows(data, render));
      assert Join(lines, "\n") == lines[0] + "\n" + Join(lines[1..], "\n");
      Join(lines, "\n")
  }

  /** `jsonToCsv([])` is empty, and nothing else is: any record adds at
      least the newline after the header line. */
  lemma CsvTextEmpty<V>(data: seq<Record<V>>, render: V -> string)
    ensures CsvText(data, render) == "" <==> |data| == 0
  {
    if |data| > 0 {
      var lines := LinesOf(CsvRows(data, render));
      assert Join(lines, "\n") == lines[0] + "\n" + Join(lines[1..], "\n");
    }
  }

  lemma LinesPrefixStep(lines: seq<string>, i: nat)
    requires i < |lines|
    ensures lines[..i + 1] == lines[..i] + [lines[i]]
  {
  }

  lemma CsvLines<V>(data: seq<Record<V>>, render: V -> string)
    ensures LinesOf(CsvRows(data, render))
         == [Line(Headers(data))] + LinesOf(DataRows(data, Headers(data), render))
  {
  }

  /** The loop of `jsonToCsv`: the header line, then one line per record
      pushed in order. */
  method BuildLines<V>(data: seq<Record<V>>, render: V -> string) returns (rows: seq<string>)
    ensures rows == LinesOf(CsvRows(data, render))
  {
    var headers := Headers(data);
    ghost var body := LinesOf(DataRows(data, headers, render));
    rows := [Line(headers)];
    var i := 0;
    while i < |data|
      invariant 0 <= i <= |data|
      invariant rows == [Line(headers)] + body[..i]
    {
      var row := RowCells(data[i], headers, render);
      LinesPrefixStep(body, i);
      rows := rows + [Line(row)];
      i := i + 1;
    }
    assert body[..|data|] == body;
    CsvLines(data, render);
  }

  /** `jsonToCsv`. */
  method JsonToCsv<V>(data: seq<Record<V>>, render: V -> string) returns (csv: string)
    ensures csv == CsvText(data, render)
  {
    if |data| == 0 {
      return "";
    }
    var rows := BuildLines(data, render);
    csv := Join(rows, "\n");
  }

  /** Every key of every record is a header, exactly once, and nothing
      else is. */
  lemma HeadersExactlyOnce<V>(data: seq<Record<V>>, key: string)
    ensures NoDup(Headers(data))
    ensures key in Headers(data) <==> exists i :: 0 <= i < |data| && HasKey(data[i], key)
  {
    SetAddAllNoDup([], AllKeys(data));
    SetAddAllHas([], AllKeys(data), key);
    AllKeysHas(data, key);
  }

  /** Reading the text back gives the header row and, for each record in
      order, one cell per header: the rendered value, or empty when the
      record lacks that key. Needs at least one key, since a line with no
      cells is empty. */
  lemma CsvReadsBack<V>(data: seq<Record<V>>, render: V -> string)
    requires |data| > 0 && |Headers(data)| > 0
    ensures ParseDoc(CsvText(data, render)) == Some(CsvRows(data, render))
  {
    ParseDocLines(CsvRows(data, render));
  }

  /** A key missing from a record is an empty cell, quoted as `""`. */
  lemma MissingKeyIsEmpty<V>(obj: Record<V>, key: string, render: V -> string)
    requires !HasKey(obj, key)
    ensures CellText(obj, key, render) == ""
    ensures Quoted(CellText(obj, key, render)) == "\"\""
  {
  }
}
