/** The table strategies of src/utils/table_utils.py (repeated in
    src/parser_fucn.py). Each reads a CDA `table` element from a converted
    section and produces the column names and the rows it hands to
    `pandas.DataFrame`; a Python exception on the way is an `Err`. */
module Tables {
  import opened Results
  import opened Dict
  import opened PyStr
  import opened PyJson
  import opened Normalizer

  /** Column names and rows, as passed to `pd.DataFrame(rows, columns=...)`. */
  datatype Table = Table(headers: seq<Json>, rows: seq<seq<Json>>)

  /** What a row function needs besides the row: the key prefix and the
      number of columns. */
  datatype RowCtx = RowCtx(prefix: string, width: nat)

  /** `table/thead/tr/th` under the prefix. */
  function HeaderPath(prefix: string): seq<string>
  {
    [prefix + "table", prefix + "thead", prefix + "tr", prefix + "th"]
  }

  /** `table/tbody/tr` under the prefix. */
  function BodyPath(prefix: string): seq<string>
  {
    [prefix + "table", prefix + "tbody", prefix + "tr"]
  }

  /** `header['text']`. */
  function HeaderText(prefix: string, header: Json): Result<Json>
  {
    Subscript(header, "text")
  }

  /** `[header['text'] for header in json_data[table][thead][tr][th]]`. */
  function Headers(data: Json, prefix: string): Result<seq<Json>>
  {
    var ths :- Dig(data, HeaderPath(prefix));
    var items :- Iter(ths);
    MapAll(HeaderText, prefix, items)
  }

  /** `cell[content]['text']` (parse_table). */
  function ContentText(prefix: string, cell: Json): Result<Json>
  {
    Dig(cell, [prefix + "content", "text"])
  }

  /** `cell[content].get('text', 'None')` (parse_table_2, parse_table_wtheader). */
  function CellText(prefix: string, cell: Json): Result<Json>
  {
    var content :- Subscript(cell, prefix + "content");
    DictGet(content, "text", NoneText)
  }

  /** The cells of `row[td]`, each read by `cell`. */
  function RowCells(cell: (string, Json) -> Result<Json>, prefix: string, row: Json): Result<seq<Json>>
  {
    var tds :- Subscript(row, prefix + "td");
    var cells :- Iter(tds);
    MapAll(cell, prefix, cells)
  }

  /** One `'None'` appended when the row is short (parse_table's `if`). */
  function PadOnce(row: seq<Json>, width: nat): (r: seq<Json>)
    ensures |row| < width ==> r == row + [NoneText]
    ensures |row| >= width ==> r == row
  {
    if |row| < width then row + [NoneText] else row
  }

  /** `fill` appended until the row has `width` cells (parse_table_2's
      `while`, convert_table_to_dataframe's `extend`). */
  function PadTo(row: seq<Json>, width: nat, fill: Json): (r: seq<Json>)
    ensures |r| == if |row| < width then width else |row|
    ensures r[..|row|] == row
    ensures forall i :: |row| <= i < |r| ==> r[i] == fill
  {
    if |row| < width then row + Repeat(fill, width - |row|) else row
  }

  // parse_table

  function ParseTableRow(ctx: RowCtx, row: Json): Result<seq<Json>>
  {
    var cells :- RowCells(ContentText, ctx.prefix, row);
    Ok(PadOnce(cells, ctx.width))
  }

  /** `parse_table(json_data, prefix)`. */
  function ParseTableSpec(data: Json, prefix: string): Result<Table>
  {
    var headers :- Headers(data, prefix);
    var tr :- Dig(data, BodyPath(prefix));
    var rows :- Iter(tr);
    var out :- MapAll(ParseTableRow, RowCtx(prefix, |headers|), rows);
    Ok(Table(headers, out))
  }

  method ParseTable(data: Json, prefix: string) returns (r: Result<Table>)
    ensures r == ParseTableSpec(data, prefix)
  {
    var headers :- Headers(data, prefix);
    var tr :- Dig(data, BodyPath(prefix));
    var rows :- Iter(tr);
    var ctx := RowCtx(prefix, |headers|);
    var adjusted: seq<seq<Json>> := [];
    assert rows[0..] == rows;
    PrependNil(MapAll(ParseTableRow, ctx, rows));
    for i := 0 to |rows|
      invariant MapAll(ParseTableRow, ctx, rows) == Prepend(adjusted, MapAll(ParseTableRow, ctx, rows[i..]))
    {
      MapAllStep(ParseTableRow, ctx, rows, i);
      var tds := Subscript(rows[i], prefix + "td");
      if tds.Err? {
        return Err(tds.error);
      }
      var cells := Iter(tds.value);
      if cells.Err? {
        return Err(cells.error);
      }
      var current: seq<Json> := [];
      assert cells.value[0..] == cells.value;
      PrependNil(MapAll(ContentText, prefix, cells.value));
      for j := 0 to |cells.value|
        invariant MapAll(ContentText, prefix, cells.value) ==
                  Prepend(current, MapAll(ContentText, prefix, cells.value[j..]))
      {
        MapAllStep(ContentText, prefix, cells.value, j);
        var text := ContentText(prefix, cells.value[j]);
        if text.Err? {
          return Err(text.error);
        }
        PrependPrepend(current, text.value, MapAll(ContentText, prefix, cells.value[j + 1..]));
        current := current + [text.value];
      }
      MapAllDone(ContentText, prefix, cells.value, current);
      if |current| < |headers| {
        current := current + [NoneText];
      }
      PrependPrepend(adjusted, current, MapAll(ParseTableRow, ctx, rows[i + 1..]));
      adjusted := adjusted + [current];
    }
    MapAllDone(ParseTableRow, ctx, rows, adjusted);
    return Ok(Table(headers, adjusted));
  }

  // parse_table_2

  function ParseTable2Row(ctx: RowCtx, row: Json): Result<seq<Json>>
  {
    var cells :- RowCells(CellText, ctx.prefix, row);
    Ok(PadTo(cells, ctx.width, NoneText))
  }

  /** `rows = [rows]` when `tr` is a single dict. */
  function Wrap(tr: Json): Json
  {
    if tr.Obj? then Arr([tr]) else tr
  }

  /** `parse_table_2(json_data, prefix)`. */
  function ParseTable2Spec(data: Json, prefix: string): Result<Table>
  {
    var headers :- Headers(data, prefix);
    var tr :- Dig(data, BodyPath(prefix));
    var rows :- Iter(Wrap(tr));
    var out :- MapAll(ParseTable2Row, RowCtx(prefix, |headers|), rows);
    Ok(Table(headers, out))
  }

  method ParseTable2(data: Json, prefix: string) returns (r: Result<Table>)
    ensures r == ParseTable2Spec(data, prefix)
  {
    var headers :- Headers(data, prefix);
    var tr :- Dig(data, BodyPath(prefix));
    if tr.Obj? {
      tr := Arr([tr]);
    }
    var rows :- Iter(tr);
    var ctx := RowCtx(prefix, |headers|);
    var adjusted: seq<seq<Json>> := [];
    assert rows[0..] == rows;
    PrependNil(MapAll(ParseTable2Row, ctx, rows));
    for i := 0 to |rows|
      invariant MapAll(ParseTable2Row, ctx, rows) == Prepend(adjusted, MapAll(ParseTable2Row, ctx, rows[i..]))
    {
      MapAllStep(ParseTable2Row, ctx, rows, i);
      var current := ParseTable2OneRow(ctx, rows[i]);
      if current.Err? {
        return Err(current.error);
      }
      PrependPrepend(adjusted, current.value, MapAll(ParseTable2Row, ctx, rows[i + 1..]));
      adjusted := adjusted + [current.value];
    }
    MapAllDone(ParseTable2Row, ctx, rows, adjusted);
    return Ok(Table(headers, adjusted));
  }

  /** The body of the row loop of `parse_table_2`. */
  method ParseTable2OneRow(ctx: RowCtx, row: Json) returns (r: Result<seq<Json>>)
    ensures r == ParseTable2Row(ctx, row)
  {
    var tds :- Subscript(row, ctx.prefix + "td");
    var cells :- Iter(tds);
    var current: seq<Json> := [];
    assert cells[0..] == cells;
    PrependNil(MapAll(CellText, ctx.prefix, cells));
    for j := 0 to |cells|
      invariant MapAll(CellText, ctx.prefix, cells) == Prepend(current, MapAll(CellText, ctx.prefix, cells[j..]))
    {
      MapAllStep(CellText, ctx.prefix, cells, j);
      var text := CellText(ctx.prefix, cells[j]);
      if text.Err? {
        return Err(text.error);
      }
      PrependPrepend(current, text.value, MapAll(CellText, ctx.prefix, cells[j + 1..]));
      current := current + [text.value];
    }
    MapAllDone(CellText, ctx.prefix, cells, current);
    ghost var cellsRead := current;
    while |current| < ctx.width
      invariant |cellsRead| <= |current| && current[..|cellsRead|] == cellsRead
      invariant forall k :: |cellsRead| <= k < |current| ==> current[k] == NoneText
      invariant |current| <= ctx.width || current == cellsRead
      decreases ctx.width - |current|
    {
      current := current + [NoneText];
    }
    assert current == PadTo(cellsRead, ctx.width, NoneText);
    return Ok(current);
  }

  // parse_table_wtheader

  /** `[f'Column {i + 1}' for i in range(n)]`. */
  function ColumnNames(n: nat): (r: seq<Json>)
    ensures |r| == n && forall i :: 0 <= i < n ==> r[i] == Str("Column " + NatToString(i + 1))
  {
    seq(n, i requires 0 <= i < n => Str("Column " + NatToString(i + 1)))
  }

  /** The headers numbered after the first row's cell count; none for an empty body. */
  function WtheaderHeaders(tr: Json, prefix: string): Result<seq<Json>>
  {
    if Truthy(tr) then
      var first :- SubscriptIdx(tr, 0);
      var tds :- Subscript(first, prefix + "td");
      var n :- Len(tds);
      Ok(ColumnNames(n))
    else Ok([])
  }

  function WtheaderRow(prefix: string, row: Json): Result<seq<Json>>
  {
    RowCells(CellText, prefix, row)
  }

  /** `parse_table_wtheader(json_data, prefix)`. */
  function ParseTableWtheaderSpec(data: Json, prefix: string): Result<Table>
  {
    var tr :- Dig(data, BodyPath(prefix));
    var headers :- WtheaderHeaders(tr, prefix);
    var rows :- Iter(tr);
    var out :- MapAll(WtheaderRow, prefix, rows);
    Ok(Table(headers, out))
  }

  method ParseTableWtheader(data: Json, prefix: string) returns (r: Result<Table>)
    ensures r == ParseTableWtheaderSpec(data, prefix)
  {
    var tr :- Dig(data, BodyPath(prefix));
    var headers :- WtheaderHeaders(tr, prefix);
    var rows :- Iter(tr);
    var adjusted: seq<seq<Json>> := [];
    assert rows[0..] == rows;
    PrependNil(MapAll(WtheaderRow, prefix, rows));
    for i := 0 to |rows|
      invariant MapAll(WtheaderRow, prefix, rows) == Prepend(adjusted, MapAll(WtheaderRow, prefix, rows[i..]))
    {
      MapAllStep(WtheaderRow, prefix, rows, i);
      var tds := Subscript(rows[i], prefix + "td");
      if tds.Err? {
        return Err(tds.error);
      }
      var cells := Iter(tds.value);
      if cells.Err? {
        return Err(cells.error);
      }
      var current: seq<Json> := [];
      assert cells.value[0..] == cells.value;
      PrependNil(MapAll(CellText, prefix, cells.value));
      for j := 0 to |cells.value|
        invariant MapAll(CellText, prefix, cells.value) ==
                  Prepend(current, MapAll(CellText, prefix, cells.value[j..]))
      {
        MapAllStep(CellText, prefix, cells.value, j);
        var text := CellText(prefix, cells.value[j]);
        if text.Err? {
          return Err(text.error);
        }
        PrependPrepend(current, text.value, MapAll(CellText, prefix, cells.value[j + 1..]));
        current := current + [text.value];
      }
      MapAllDone(CellText, prefix, cells.value, current);
      PrependPrepend(adjusted, current, MapAll(WtheaderRow, prefix, rows[i + 1..]));
      adjusted := adjusted + [current];
    }
    MapAllDone(WtheaderRow, prefix, rows, adjusted);
    return Ok(Table(headers, adjusted));
  }

  // convert_table_to_dataframe

  /** `th.get('text', None)`. */
  function ColName(width: nat, th: Json): Result<Json>
  {
    DictGet(th, "text", Null)
  }

  /** One cell of a list-valued `td`: its own `text`, else its content's
      `text`, else None. */
  function ListCell(width: nat, cell: Json): Result<Json>
  {
    var hasText :- Contains("text", cell);
    if hasText then Subscript(cell, "text")
    else
      var hasContent :- Contains("content", cell);
      if !hasContent then Ok(Null)
      else
        var content :- Subscript(cell, "content");
        var inner :- Contains("text", content);
        if inner then Subscript(content, "text") else Ok(Null)
  }

  /** A dict-valued `td` (a cell spanning the row): its content's text then
      None in the other columns, or no row at all. */
  function DictRow(td: Json, width: nat): Result<Option<seq<Json>>>
  {
    var hasContent :- Contains("content", td);
    if !hasContent then Ok(None)
    else
      var content :- Subscript(td, "content");
      var inner :- Contains("text", content);
      if !inner then Ok(None)
      else
        var text :- Subscript(content, "text");
        Ok(Some([text] + Repeat(Null, if width >= 1 then width - 1 else 0)))
  }

  /** The row a `tr` contributes, if any. */
  function ConvertRow(width: nat, row: Json): Result<Option<seq<Json>>>
  {
    var td :- Subscript(row, "td");
    match td
    case Arr(cells) =>
      var vals :- MapAll(ListCell, width, cells);
      Ok(Some(PadTo(vals, width, Null)))
    case Obj(_) => DictRow(td, width)
    case _ => Ok(None)
  }

  /** `convert_table_to_dataframe(table_data)`. */
  function ConvertTableSpec(data: Json): Result<Table>
  {
    ConvertCleaned(Clean(data))
  }

  /** What `convert_table_to_dataframe` does once the keys are cleaned. */
  function ConvertCleaned(cleaned: Json): Result<Table>
  {
    var ths :- Dig(cleaned, ["table", "thead", "tr", "th"]);
    var items :- Iter(ths);
    var names :- MapAll(ColName, 0, items);
    var tr :- Dig(cleaned, ["table", "tbody", "tr"]);
    var rows :- Iter(tr);
    var width: nat := |names|;
    var out :- MapAll(ConvertRow, width, rows);
    Ok(Table(names, Somes(out)))
  }

  method ConvertTableToDataframe(data: Json) returns (r: Result<Table>)
    ensures r == ConvertTableSpec(data)
  {
    var cleaned := CleanKeys(data);
    var ths :- Dig(cleaned, ["table", "thead", "tr", "th"]);
    var items :- Iter(ths);
    var names :- MapAll(ColName, 0, items);
    var tr :- Dig(cleaned, ["table", "tbody", "tr"]);
    var rows :- Iter(tr);
    var width: nat := |names|;
    var dataRows: seq<seq<Json>> := [];
    ghost var seen: seq<Option<seq<Json>>> := [];
    assert rows[0..] == rows;
    PrependNil(MapAll(ConvertRow, width, rows));
    for i := 0 to |rows|
      invariant MapAll(ConvertRow, width, rows) == Prepend(seen, MapAll(ConvertRow, width, rows[i..]))
      invariant dataRows == Somes(seen)
    {
      MapAllStep(ConvertRow, width, rows, i);
      var outcome := ConvertOneRow(width, rows[i]);
      if outcome.Err? {
        return Err(outcome.error);
      }
      PrependPrepend(seen, outcome.value, MapAll(ConvertRow, width, rows[i + 1..]));
      assert (seen + [outcome.value])[..|seen|] == seen;
      seen := seen + [outcome.value];
      if outcome.value.Some? {
        dataRows := dataRows + [outcome.value.value];
      }
    }
    MapAllDone(ConvertRow, width, rows, seen);
    return Ok(Table(names, dataRows));
  }

  /** The body of the row loop of `convert_table_to_dataframe`. */
  method ConvertOneRow(width: nat, row: Json) returns (r: Result<Option<seq<Json>>>)
    ensures r == ConvertRow(width, row)
  {
    var td :- Subscript(row, "td");
    if td.Arr? {
      var cells := td.items;
      var rowData: seq<Json> := [];
      assert cells[0..] == cells;
      PrependNil(MapAll(ListCell, width, cells));
      for j := 0 to |cells|
        invariant MapAll(ListCell, width, cells) == Prepend(rowData, MapAll(ListCell, width, cells[j..]))
      {
        MapAllStep(ListCell, width, cells, j);
        var value := ListCell(width, cells[j]);
        if value.Err? {
          return Err(value.error);
        }
        PrependPrepend(rowData, value.value, MapAll(ListCell, width, cells[j + 1..]));
        rowData := rowData + [value.value];
      }
      MapAllDone(ListCell, width, cells, rowData);
      assert MapAll(ListCell, width, cells) == Ok(rowData);
      if |rowData| < width {
        rowData := rowData + Repeat(Null, width - |rowData|);
      }
      return Ok(Some(rowData));
    } else if td.Obj? {
      r := DictRow(td, width);
    } else {
      r := Ok(None);
    }
  }

  // safe_parse_table

  /** `safe_parse_table(table_data)`: the key-cleaning strategy, and on any
      exception `parse_table_2` with the default prefix. */
  function SafeParseTable(data: Json): (r: Result<Table>)
    ensures ConvertTableSpec(data).Ok? ==> r == ConvertTableSpec(data)
    ensures ConvertTableSpec(data).Err? ==> r == ParseTable2Spec(data, DefaultPrefix)
    ensures r.Err? ==> ConvertTableSpec(data).Err? && ParseTable2Spec(data, DefaultPrefix).Err?
  {
    match ConvertTableSpec(data)
    case Ok(t) => Ok(t)
    case Err(_) => ParseTable2Spec(data, DefaultPrefix)
  }
}

/** Properties of the table strategies: the shape of the rows they return,
    and what each returns for a table written out in the converter's layout. */
module TableFacts {
  import opened Results
  import opened Dict
  import opened PyStr
  import opened PyJson
  import opened Normalizer
  import opened Tables

  /** Every row `parse_table_2` returns has at least one cell per column:
      the cells read from the row, then `'None'` up to the column count. */
  lemma ParseTable2RowsCoverHeaders(data: Json, prefix: string, t: Table, i: nat)
    requires ParseTable2Spec(data, prefix) == Ok(t) && i < |t.rows|
    ensures |t.rows[i]| >= |t.headers|
    ensures var rows := Iter(Wrap(Dig(data, BodyPath(prefix)).value)).value;
            i < |rows| && RowCells(CellText, prefix, rows[i]).Ok? &&
            t.rows[i] == PadTo(RowCells(CellText, prefix, rows[i]).value, |t.headers|, NoneText)
  {
    var headers := Headers(data, prefix).value;
    var tr := Dig(data, BodyPath(prefix)).value;
    var rows := Iter(Wrap(tr)).value;
    var ctx := RowCtx(prefix, |headers|);
    MapAllSpec(ParseTable2Row, ctx, rows);
    var cells := RowCells(CellText, prefix, rows[i]).value;
    assert t.rows[i] == PadTo(cells, |t.headers|, NoneText);
  }

  /** Every row `convert_table_to_dataframe` returns has at least one cell
      per column (a spanning cell fills the rest of its row with None). */
  lemma ConvertRowsCoverHeaders(data: Json, t: Table, i: nat)
    requires ConvertTableSpec(data) == Ok(t) && i < |t.rows|
    ensures |t.rows[i]| >= |t.headers|
  {
    var cleaned := Clean(data);
    var items := Iter(Dig(cleaned, ["table", "thead", "tr", "th"]).value).value;
    var names := MapAll(ColName, 0, items).value;
    var rows := Iter(Dig(cleaned, ["table", "tbody", "tr"]).value).value;
    var width: nat := |names|;
    var out := MapAll(ConvertRow, width, rows).value;
    assert t == Table(names, Somes(out));
    MapAllSpec(ConvertRow, width, rows);
    assert Some(t.rows[i]) in out;
    var k :| 0 <= k < |out| && out[k] == Some(t.rows[i]);
    ConvertRowWidth(width, rows[k]);
  }

  /** A row of `convert_table_to_dataframe` has at least `width` cells. */
  lemma ConvertRowWidth(width: nat, row: Json)
    requires ConvertRow(width, row).Ok? && ConvertRow(width, row).value.Some?
    ensures |ConvertRow(width, row).value.value| >= width
  {
  }

  /** `safe_parse_table` only fails when both of its strategies do, and
      prefers the key-cleaning one. */
  lemma SafeParseFallback(data: Json)
    ensures SafeParseTable(data).Err? <==> ConvertTableSpec(data).Err? && ParseTable2Spec(data, DefaultPrefix).Err?
    ensures ConvertTableSpec(data).Ok? ==> SafeParseTable(data) == ConvertTableSpec(data)
  {
  }

  // Tables written out in the converter's layout.

  function Strs(xs: seq<string>): (r: seq<Json>)
    ensures |r| == |xs| && forall i :: 0 <= i < |xs| ==> r[i] == Str(xs[i])
  {
    seq(|xs|, i requires 0 <= i < |xs| => Str(xs[i]))
  }

  /** A dict with a single key. */
  function One(k: string, v: Json): Json
  {
    Obj([Entry(k, v)])
  }

  /** `{table: {thead: {tr: {th: ths}}, tbody: {tr: tr}}}` under the prefix. */
  function Doc(prefix: string, ths: Json, tr: Json): Json
  {
    One(prefix + "table", Obj([Entry(prefix + "thead", One(prefix + "tr", One(prefix + "th", ths))),
                               Entry(prefix + "tbody", One(prefix + "tr", tr))]))
  }

  /** The header cells `[{text: h} ...]`. */
  function HeaderCells(hs: seq<string>): Json
  {
    Arr(seq(|hs|, i requires 0 <= i < |hs| => One("text", Str(hs[i]))))
  }

  /** A body cell `{content: {text: c}}`. */
  function Cell(prefix: string, c: string): Json
  {
    One(prefix + "content", One("text", Str(c)))
  }

  /** A body row `{td: [cell ...]}`. */
  function RowObj(prefix: string, cells: seq<string>): Json
  {
    One(prefix + "td", Arr(seq(|cells|, j requires 0 <= j < |cells| => Cell(prefix, cells[j]))))
  }

  /** The body rows `[row ...]`. */
  function BodyRows(prefix: string, rows: seq<seq<string>>): Json
  {
    Arr(seq(|rows|, i requires 0 <= i < |rows| => RowObj(prefix, rows[i])))
  }

  lemma DocPaths(prefix: string, ths: Json, tr: Json)
    ensures Dig(Doc(prefix, ths, tr), HeaderPath(prefix)) == Ok(ths)
    ensures Dig(Doc(prefix, ths, tr), BodyPath(prefix)) == Ok(tr)
  {
    assert (prefix + "thead")[|prefix| + 1] == 'h' && (prefix + "tbody")[|prefix| + 1] == 'b';
    var head := One(prefix + "tr", One(prefix + "th", ths));
    var body := One(prefix + "tr", tr);
    var inner := Obj([Entry(prefix + "thead", head), Entry(prefix + "tbody", body)]);
    assert prefix + "thead" != prefix + "tbody";
    assert inner.fields[1..] == [Entry(prefix + "tbody", body)];
    assert Get(inner.fields, prefix + "tbody") == Some(body);
    var hp := HeaderPath(prefix);
    assert Dig(One(prefix + "th", ths), hp[3..]) == Ok(ths) by { assert hp[3..][1..] == []; }
    assert Dig(head, hp[2..]) == Ok(ths) by { assert hp[2..][1..] == hp[3..]; }
    assert Dig(inner, hp[1..]) == Ok(ths) by { assert hp[1..][1..] == hp[2..]; }
    assert hp[1..] == hp[1..];
    var bp := BodyPath(prefix);
    assert Dig(body, bp[2..]) == Ok(tr) by { assert bp[2..][1..] == []; }
    assert Dig(inner, bp[1..]) == Ok(tr) by { assert bp[1..][1..] == bp[2..]; }
  }

  lemma HeadersOfDoc(prefix: string, hs: seq<string>, tr: Json)
    ensures Headers(Doc(prefix, HeaderCells(hs), tr), prefix) == Ok(Strs(hs))
  {
    DocPaths(prefix, HeaderCells(hs), tr);
    var items := HeaderCells(hs).items;
    forall i | 0 <= i < |items| ensures HeaderText(prefix, items[i]) == Ok(Strs(hs)[i]) {
      assert items[i] == One("text", Str(hs[i]));
    }
    MapAllOk(HeaderText, prefix, items, Strs(hs));
  }

  lemma CellsOfRowObj(prefix: string, cells: seq<string>)
    ensures RowCells(ContentText, prefix, RowObj(prefix, cells)) == Ok(Strs(cells))
    ensures RowCells(CellText, prefix, RowObj(prefix, cells)) == Ok(Strs(cells))
  {
    var tds := RowObj(prefix, cells).fields[0].val;
    assert Subscript(RowObj(prefix, cells), prefix + "td") == Ok(tds);
    forall j | 0 <= j < |cells|
      ensures ContentText(prefix, tds.items[j]) == Ok(Str(cells[j]))
      ensures CellText(prefix, tds.items[j]) == Ok(Str(cells[j]))
    {
      var c := tds.items[j];
      assert c == Cell(prefix, cells[j]);
      var path := [prefix + "content", "text"];
      assert Dig(One("text", Str(cells[j])), path[1..]) == Ok(Str(cells[j])) by { assert path[1..][1..] == []; }
    }
    MapAllOk(ContentText, prefix, tds.items, Strs(cells));
    MapAllOk(CellText, prefix, tds.items, Strs(cells));
  }

  /** parse_table on a table in the converter's layout returns its headers
      and its rows, each short row with a single `'None'` appended. */
  lemma ParseTableOfDoc(prefix: string, hs: seq<string>, rows: seq<seq<string>>)
    ensures ParseTableSpec(Doc(prefix, HeaderCells(hs), BodyRows(prefix, rows)), prefix) ==
            Ok(Table(Strs(hs), seq(|rows|, i requires 0 <= i < |rows| => PadOnce(Strs(rows[i]), |hs|))))
  {
    var data := Doc(prefix, HeaderCells(hs), BodyRows(prefix, rows));
    HeadersOfDoc(prefix, hs, BodyRows(prefix, rows));
    DocPaths(prefix, HeaderCells(hs), BodyRows(prefix, rows));
    var items := BodyRows(prefix, rows).items;
    var ctx := RowCtx(prefix, |hs|);
    var out := seq(|rows|, i requires 0 <= i < |rows| => PadOnce(Strs(rows[i]), |hs|));
    forall i | 0 <= i < |rows| ensures ParseTableRow(ctx, items[i]) == Ok(out[i]) {
      CellsOfRowObj(prefix, rows[i]);
    }
    MapAllOk(ParseTableRow, ctx, items, out);
  }

  /** parse_table_2 on a table in the converter's layout returns its headers
      and its rows, each padded with `'None'` to the column count. */
  lemma ParseTable2OfDoc(prefix: string, hs: seq<string>, rows: seq<seq<string>>)
    ensures ParseTable2Spec(Doc(prefix, HeaderCells(hs), BodyRows(prefix, rows)), prefix) ==
            Ok(Table(Strs(hs), seq(|rows|, i requires 0 <= i < |rows| => PadTo(Strs(rows[i]), |hs|, NoneText))))
  {
    HeadersOfDoc(prefix, hs, BodyRows(prefix, rows));
    DocPaths(prefix, HeaderCells(hs), BodyRows(prefix, rows));
    var items := BodyRows(prefix, rows).items;
    var ctx := RowCtx(prefix, |hs|);
    var out := seq(|rows|, i requires 0 <= i < |rows| => PadTo(Strs(rows[i]), |hs|, NoneText));
    forall i | 0 <= i < |rows| ensures ParseTable2Row(ctx, items[i]) == Ok(out[i]) {
      CellsOfRowObj(prefix, rows[i]);
    }
    MapAllOk(ParseTable2Row, ctx, items, out);
  }

  /** parse_table_wtheader on a table in the converter's layout numbers the
      columns after the first row and returns every row as it is, unpadded. */
  lemma ParseTableWtheaderOfDoc(prefix: string, ths: Json, rows: seq<seq<string>>)
    ensures ParseTableWtheaderSpec(Doc(prefix, ths, BodyRows(prefix, rows)), prefix) ==
            Ok(Table(if |rows| > 0 then ColumnNames(|rows[0]|) else [],
                     seq(|rows|, i requires 0 <= i < |rows| => Strs(rows[i]))))
  {
    var tr := BodyRows(prefix, rows);
    var items := tr.items;
    var out := seq(|rows|, i requires 0 <= i < |rows| => Strs(rows[i]));
    assert Dig(Doc(prefix, ths, tr), BodyPath(prefix)) == Ok(tr) by {
      DocPaths(prefix, ths, tr);
    }
    assert WtheaderHeaders(tr, prefix) == Ok(if |rows| > 0 then ColumnNames(|rows[0]|) else []) by {
      if |rows| > 0 {
        assert items[0] == RowObj(prefix, rows[0]);
        assert Subscript(items[0], prefix + "td") == Ok(items[0].fields[0].val);
      }
    }
    assert MapAll(WtheaderRow, prefix, items) == Ok(out) by {
      forall i | 0 <= i < |rows| ensures WtheaderRow(prefix, items[i]) == Ok(out[i]) {
        CellsOfRowObj(prefix, rows[i]);
      }
      MapAllOk(WtheaderRow, prefix, items, out);
    }
  }

  /** A one-key dict keeps its single (cleaned) key. */
  lemma CleanOne(k: string, v: Json)
    ensures Clean(One(k, v)) == One(CleanKey(k), Clean(v))
  {
    var es := CleanedEntries([Entry(k, v)]);
    assert es == [Entry(CleanKey(k), Clean(v))];
    CollapseRepeated(es, es[0]);
  }

  /** A two-key dict whose keys stay distinct after cleaning keeps both. */
  lemma CleanTwo(k1: string, v1: Json, k2: string, v2: Json)
    requires CleanKey(k1) != CleanKey(k2)
    ensures Clean(Obj([Entry(k1, v1), Entry(k2, v2)])) ==
            Obj([Entry(CleanKey(k1), Clean(v1)), Entry(CleanKey(k2), Clean(v2))])
  {
    var es := CleanedEntries([Entry(k1, v1), Entry(k2, v2)]);
    assert es == [Entry(CleanKey(k1), Clean(v1)), Entry(CleanKey(k2), Clean(v2))];
    CollapseOfDict(es);
  }

  /** The prefix `{ns}` comes off every key of the layout. */
  lemma CleanPrefixed(ns: string, name: string)
    requires '}' !in ns
    ensures CleanKey("{" + ns + "}" + name) == name
  {
    StripsNamespace(ns, name);
  }

  lemma CleanHeaderCells(hs: seq<string>)
    ensures Clean(HeaderCells(hs)) == HeaderCells(hs)
  {
    var xs := HeaderCells(hs).items;
    forall i | 0 <= i < |xs| ensures Clean(xs[i]) == xs[i] {
      CleanOne("text", Str(hs[i]));
    }
    assert Clean(HeaderCells(hs)).items == xs;
  }

  lemma CleanCell(ns: string, c: string)
    requires '}' !in ns
    ensures Clean(Cell("{" + ns + "}", c)) == Cell("", c)
  {
    var p := "{" + ns + "}";
    calc {
      Clean(Cell(p, c));
      { CleanOne(p + "content", One("text", Str(c))); }
      One(CleanKey(p + "content"), Clean(One("text", Str(c))));
      { CleanPrefixed(ns, "content"); CleanOne("text", Str(c)); }
      One("content", One("text", Str(c)));
      { assert "" + "content" == "content"; }
      Cell("", c);
    }
  }

  lemma CleanRowObj(ns: string, cells: seq<string>)
    requires '}' !in ns
    ensures Clean(RowObj("{" + ns + "}", cells)) == RowObj("", cells)
  {
    var p := "{" + ns + "}";
    var xs := seq(|cells|, j requires 0 <= j < |cells| => Cell(p, cells[j]));
    var ys := seq(|cells|, j requires 0 <= j < |cells| => Cell("", cells[j]));
    assert Clean(Arr(xs)) == Arr(ys) by {
      forall j | 0 <= j < |cells| ensures Clean(xs[j]) == ys[j] {
        CleanCell(ns, cells[j]);
      }
    }
    calc {
      Clean(RowObj(p, cells));
      Clean(One(p + "td", Arr(xs)));
      { CleanOne(p + "td", Arr(xs)); }
      One(CleanKey(p + "td"), Clean(Arr(xs)));
      { CleanPrefixed(ns, "td"); }
      One("td", Arr(ys));
      { assert "" + "td" == "td"; }
      RowObj("", cells);
    }
  }

  lemma CleanBody(ns: string, rows: seq<seq<string>>)
    requires '}' !in ns
    ensures Clean(BodyRows("{" + ns + "}", rows)) == BodyRows("", rows)
  {
    var body := BodyRows("{" + ns + "}", rows);
    forall i | 0 <= i < |rows| ensures Clean(body.items[i]) == RowObj("", rows[i]) {
      CleanRowObj(ns, rows[i]);
    }
    assert Clean(body).items == BodyRows("", rows).items;
  }

  lemma CleanHead(ns: string, hs: seq<string>)
    requires '}' !in ns
    ensures var p := "{" + ns + "}";
            Clean(One(p + "tr", One(p + "th", HeaderCells(hs)))) == One("tr", One("th", HeaderCells(hs)))
  {
    var p := "{" + ns + "}";
    CleanHeaderCells(hs);
    CleanPrefixed(ns, "tr");
    CleanPrefixed(ns, "th");
    CleanOne(p + "th", HeaderCells(hs));
    CleanOne(p + "tr", One(p + "th", HeaderCells(hs)));
  }

  lemma CleanHeadOf(ns: string, ths: Json)
    requires '}' !in ns
    ensures var p := "{" + ns + "}";
            Clean(One(p + "tr", One(p + "th", ths))) == One("tr", One("th", Clean(ths)))
  {
    var p := "{" + ns + "}";
    CleanPrefixed(ns, "tr");
    CleanPrefixed(ns, "th");
    CleanOne(p + "th", ths);
    CleanOne(p + "tr", One(p + "th", ths));
  }

  lemma CleanInnerOf(ns: string, head: Json, body: Json)
    requires '}' !in ns
    ensures var p := "{" + ns + "}";
            Clean(Obj([Entry(p + "thead", head), Entry(p + "tbody", body)])) ==
            Obj([Entry("thead", Clean(head)), Entry("tbody", Clean(body))])
  {
    var p := "{" + ns + "}";
    CleanPrefixed(ns, "thead");
    CleanPrefixed(ns, "tbody");
    CleanTwo(p + "thead", head, p + "tbody", body);
  }

  /** Cleaning the layout cleans its two payloads and drops the prefix from its keys. */
  lemma CleanDocOf(ns: string, ths: Json, tr: Json)
    requires '}' !in ns
    ensures Clean(Doc("{" + ns + "}", ths, tr)) == Doc("", Clean(ths), Clean(tr))
  {
    var p := "{" + ns + "}";
    var head := One(p + "tr", One(p + "th", ths));
    var body := One(p + "tr", tr);
    var inner := Obj([Entry(p + "thead", head), Entry(p + "tbody", body)]);
    var head' := One("tr", One("th", Clean(ths)));
    var body' := One("tr", Clean(tr));
    var inner' := Obj([Entry("thead", head'), Entry("tbody", body')]);
    calc {
      Clean(Doc(p, ths, tr));
      Clean(One(p + "table", inner));
      { CleanOne(p + "table", inner); CleanPrefixed(ns, "table"); }
      One("table", Clean(inner));
      { CleanInnerOf(ns, head, body); }
      One("table", Obj([Entry("thead", Clean(head)), Entry("tbody", Clean(body))]));
      { CleanHeadOf(ns, ths); CleanPrefixed(ns, "tr"); CleanOne(p + "tr", tr); }
      One("table", inner');
      { assert "" + "table" == "table" && "" + "thead" == "thead" && "" + "tbody" == "tbody";
        assert "" + "tr" == "tr" && "" + "th" == "th"; }
      Doc("", Clean(ths), Clean(tr));
    }
  }

  lemma CleanDoc(ns: string, hs: seq<string>, rows: seq<seq<string>>)
    requires '}' !in ns
    ensures Clean(Doc("{" + ns + "}", HeaderCells(hs), BodyRows("{" + ns + "}", rows))) ==
            Doc("", HeaderCells(hs), BodyRows("", rows))
  {
    CleanDocOf(ns, HeaderCells(hs), BodyRows("{" + ns + "}", rows));
    CleanHeaderCells(hs);
    CleanBody(ns, rows);
  }

  lemma ListCellOfCell(width: nat, c: string)
    ensures ListCell(width, Cell("", c)) == Ok(Str(c))
  {
    var cell := Cell("", c);
    var content := One("text", Str(c));
    assert "" + "content" == "content";
    assert cell == One("content", content);
    assert !HasKey(cell.fields, "text");
    assert cell.fields[0].key == "content" && HasKey(cell.fields, "content");
    assert content.fields[0].key == "text" && HasKey(content.fields, "text");
  }

  /** A list-valued `td` of cells in the layout gives their texts. */
  lemma ConvertRowOfRowObj(width: nat, cells: seq<string>)
    ensures ConvertRow(width, RowObj("", cells)) == Ok(Some(PadTo(Strs(cells), width, Null)))
  {
    assert "" + "td" == "td";
    var xs := seq(|cells|, j requires 0 <= j < |cells| => Cell("", cells[j]));
    forall j | 0 <= j < |cells| ensures ListCell(width, xs[j]) == Ok(Str(cells[j])) {
      ListCellOfCell(width, cells[j]);
    }
    MapAllOk(ListCell, width, xs, Strs(cells));
  }

  /** A header cell names its column by its `text`, None when it has none,
      and raises AttributeError when it is not a dict. */
  lemma ColNameCases(th: Json)
    ensures th.Obj? && HasKey(th.fields, "text") ==> ColName(0, th) == Ok(Get(th.fields, "text").value)
    ensures th.Obj? && !HasKey(th.fields, "text") ==> ColName(0, th) == Ok(Null)
    ensures !th.Obj? ==> ColName(0, th) == Err(AttributeError)
  {
  }

  /** A dict cell of a list-valued `td`: its own `text` first; otherwise the
      `text` of its `content` dict, None when either is missing; a `content`
      that is not a dict raises TypeError as soon as `'text' in content`
      holds or cannot be asked. */
  lemma ListCellCases(width: nat, cell: Json)
    requires cell.Obj?
    ensures HasKey(cell.fields, "text") ==> ListCell(width, cell) == Ok(Get(cell.fields, "text").value)
    ensures !HasKey(cell.fields, "text") && !HasKey(cell.fields, "content") ==> ListCell(width, cell) == Ok(Null)
    ensures !HasKey(cell.fields, "text") && HasKey(cell.fields, "content") && Get(cell.fields, "content").value.Obj? ==>
              var inner := Get(cell.fields, "content").value.fields;
              ListCell(width, cell) == if HasKey(inner, "text") then Ok(Get(inner, "text").value) else Ok(Null)
    ensures !HasKey(cell.fields, "text") && HasKey(cell.fields, "content") && !Get(cell.fields, "content").value.Obj? ==>
              ListCell(width, cell) ==
              if Contains("text", Get(cell.fields, "content").value) == Ok(false) then Ok(Null) else Err(TypeError)
  {
  }

  /** A dict-valued `td` spans the row: the `text` of its `content` dict,
      then None in the remaining columns (one cell when there are no
      columns); no row when `content` or its `text` is missing. */
  lemma DictRowCases(td: Json, width: nat)
    requires td.Obj?
    ensures !HasKey(td.fields, "content") ==> DictRow(td, width) == Ok(None)
    ensures HasKey(td.fields, "content") && Get(td.fields, "content").value.Obj? ==>
              var inner := Get(td.fields, "content").value.fields;
              (!HasKey(inner, "text") ==> DictRow(td, width) == Ok(None)) &&
              (HasKey(inner, "text") ==>
                 DictRow(td, width).Ok? && DictRow(td, width).value.Some? &&
                 var row := DictRow(td, width).value.value;
                 |row| == (if width >= 1 then width else 1) && row[0] == Get(inner, "text").value &&
                 forall k :: 1 <= k < |row| ==> row[k] == Null)
    ensures HasKey(td.fields, "content") && !Get(td.fields, "content").value.Obj? ==>
              DictRow(td, width) ==
              if Contains("text", Get(td.fields, "content").value) == Ok(false) then Ok(None) else Err(TypeError)
  {
  }

  /** A `text` of a dict-valued `td` itself plays no part in its row. */
  lemma DictRowIgnoresText(td: Json, width: nat)
    requires td.Obj?
    ensures DictRow(td, width) == DictRow(Obj(Remove(td.fields, "text")), width)
  {
    var stripped := Remove(td.fields, "text");
    assert HasKey(stripped, "content") == HasKey(td.fields, "content") by {
      assert Get(stripped, "content") == Get(td.fields, "content");
    }
  }

  lemma ConvertCleanedOfDoc(hs: seq<string>, rows: seq<seq<string>>)
    ensures ConvertCleaned(Doc("", HeaderCells(hs), BodyRows("", rows))) ==
            Ok(Table(Strs(hs), seq(|rows|, i requires 0 <= i < |rows| => PadTo(Strs(rows[i]), |hs|, Null))))
  {
    var doc := Doc("", HeaderCells(hs), BodyRows("", rows));
    assert Dig(doc, ["table", "thead", "tr", "th"]) == Ok(HeaderCells(hs)) &&
           Dig(doc, ["table", "tbody", "tr"]) == Ok(BodyRows("", rows)) by {
      DocPaths("", HeaderCells(hs), BodyRows("", rows));
      assert "" + "table" == "table" && "" + "thead" == "thead" && "" + "tbody" == "tbody";
      assert "" + "tr" == "tr" && "" + "th" == "th";
      assert HeaderPath("") == ["table", "thead", "tr", "th"];
      assert BodyPath("") == ["table", "tbody", "tr"];
    }
    var ths := HeaderCells(hs).items;
    assert MapAll(ColName, 0, ths) == Ok(Strs(hs)) by {
      forall i | 0 <= i < |ths| ensures ColName(0, ths[i]) == Ok(Strs(hs)[i]) {
        assert ths[i] == One("text", Str(hs[i]));
      }
      MapAllOk(ColName, 0, ths, Strs(hs));
    }
    var items := BodyRows("", rows).items;
    var width: nat := |hs|;
    var out := seq(|rows|, i requires 0 <= i < |rows| => PadTo(Strs(rows[i]), |hs|, Null));
    var opts := seq(|rows|, i requires 0 <= i < |rows| => Some(out[i]));
    assert MapAll(ConvertRow, width, items) == Ok(opts) by {
      forall i | 0 <= i < |rows| ensures ConvertRow(width, items[i]) == Ok(opts[i]) {
        ConvertRowOfRowObj(width, rows[i]);
      }
      MapAllOk(ConvertRow, width, items, opts);
    }
    SomesAll(opts, out);
  }

  /** convert_table_to_dataframe on a table in the converter's layout, keys
      qualified by any `{ns}`, returns its headers and its rows, each padded
      with None to the column count. */
  lemma ConvertTableOfDoc(ns: string, hs: seq<string>, rows: seq<seq<string>>)
    requires '}' !in ns
    ensures ConvertTableSpec(Doc("{" + ns + "}", HeaderCells(hs), BodyRows("{" + ns + "}", rows))) ==
            Ok(Table(Strs(hs), seq(|rows|, i requires 0 <= i < |rows| => PadTo(Strs(rows[i]), |hs|, Null))))
  {
    CleanDoc(ns, hs, rows);
    ConvertCleanedOfDoc(hs, rows);
  }

  /** A one-row table whose `tr` the converter left as a bare dict reads
      the same in parse_table_2 as the same row inside a list. */
  lemma ParseTable2SingleRow(prefix: string, ths: Json, cells: seq<string>)
    ensures ParseTable2Spec(Doc(prefix, ths, RowObj(prefix, cells)), prefix) ==
            ParseTable2Spec(Doc(prefix, ths, BodyRows(prefix, [cells])), prefix)
  {
    DocPaths(prefix, ths, RowObj(prefix, cells));
    DocPaths(prefix, ths, BodyRows(prefix, [cells]));
    assert BodyRows(prefix, [cells]) == Arr([RowObj(prefix, cells)]);
    assert Doc(prefix, ths, BodyRows(prefix, [cells])) == Doc(prefix, ths, Arr([RowObj(prefix, cells)]));
  }

  /** The same bare-dict row makes parse_table raise TypeError: iterating a
      dict gives its key, and a string cannot be indexed by a key. */
  lemma ParseTableSingleRowFails(prefix: string, hs: seq<string>, cells: seq<string>)
    ensures ParseTableSpec(Doc(prefix, HeaderCells(hs), RowObj(prefix, cells)), prefix) == Err(TypeError)
  {
    HeadersOfDoc(prefix, hs, RowObj(prefix, cells));
    DocPaths(prefix, HeaderCells(hs), RowObj(prefix, cells));
    var keys := Iter(RowObj(prefix, cells)).value;
    assert keys == [Str(prefix + "td")];
    MapAllSpec(ParseTableRow, RowCtx(prefix, |hs|), keys);
  }

  /** ... and makes parse_table_wtheader raise KeyError: `tr[0]` looks up
      the key 0 in the dict. */
  lemma ParseTableWtheaderSingleRowFails(prefix: string, ths: Json, cells: seq<string>)
    ensures ParseTableWtheaderSpec(Doc(prefix, ths, RowObj(prefix, cells)), prefix) == Err(KeyError)
  {
    DocPaths(prefix, ths, RowObj(prefix, cells));
  }

  /** Headers A, B and rows [1, 2], [3]: the short row gets `'None'` from
      both parse_table and parse_table_2. */
  lemma ShortRowExample()
    ensures var data := Doc(DefaultPrefix, HeaderCells(["A", "B"]), BodyRows(DefaultPrefix, [["1", "2"], ["3"]]));
            var expected := Table([Str("A"), Str("B")], [[Str("1"), Str("2")], [Str("3"), NoneText]]);
            ParseTableSpec(data, DefaultPrefix) == Ok(expected) &&
            ParseTable2Spec(data, DefaultPrefix) == Ok(expected)
  {
    var rows := [["1", "2"], ["3"]];
    var data := Doc(DefaultPrefix, HeaderCells(["A", "B"]), BodyRows(DefaultPrefix, rows));
    var expected := Table([Str("A"), Str("B")], [[Str("1"), Str("2")], [Str("3"), NoneText]]);
    assert Strs(["A", "B"]) == [Str("A"), Str("B")];
    assert ParseTableSpec(data, DefaultPrefix) == Ok(expected) by {
      ParseTableOfDoc(DefaultPrefix, ["A", "B"], rows);
      assert PadOnce(Strs(rows[0]), 2) == [Str("1"), Str("2")];
      assert PadOnce(Strs(rows[1]), 2) == [Str("3"), NoneText];
      assert seq(2, i requires 0 <= i < 2 => PadOnce(Strs(rows[i]), 2)) == [[Str("1"), Str("2")], [Str("3"), NoneText]];
    }
    assert ParseTable2Spec(data, DefaultPrefix) == Ok(expected) by {
      ParseTable2OfDoc(DefaultPrefix, ["A", "B"], rows);
      assert PadTo(Strs(rows[0]), 2, NoneText) == [Str("1"), Str("2")];
      assert PadTo(Strs(rows[1]), 2, NoneText) == [Str("3"), NoneText];
      assert seq(2, i requires 0 <= i < 2 => PadTo(Strs(rows[i]), 2, NoneText)) == [[Str("1"), Str("2")], [Str("3"), NoneText]];
    }
  }

  /** parse_table pads a short row only once: with three columns, a row of
      one cell comes back with two. */
  lemma ParseTablePadsOnce()
    ensures var data := Doc(DefaultPrefix, HeaderCells(["A", "B", "C"]), BodyRows(DefaultPrefix, [["1"]]));
            ParseTableSpec(data, DefaultPrefix) == Ok(Table([Str("A"), Str("B"), Str("C")], [[Str("1"), NoneText]]))
  {
    ParseTableOfDoc(DefaultPrefix, ["A", "B", "C"], [["1"]]);
    assert Strs(["A", "B", "C"]) == [Str("A"), Str("B"), Str("C")];
    assert PadOnce(Strs(["1"]), 3) == [Str("1"), NoneText];
    assert seq(1, i requires 0 <= i < 1 => PadOnce(Strs([["1"]][i]), 3)) == [[Str("1"), NoneText]];
  }

  /** Every strategy handed None (a section the navigator did not find)
      raises TypeError at its first subscript. */
  lemma TablesOfNone(prefix: string)
    ensures ParseTableSpec(Null, prefix) == Err(TypeError)
    ensures ParseTable2Spec(Null, prefix) == Err(TypeError)
    ensures ParseTableWtheaderSpec(Null, prefix) == Err(TypeError)
    ensures ConvertTableSpec(Null) == Err(TypeError)
    ensures SafeParseTable(Null) == Err(TypeError)
  {
    assert Headers(Null, prefix) == Err(TypeError);
    assert Dig(Null, BodyPath(prefix)) == Err(TypeError);
    assert Clean(Null) == Null;
    assert Dig(Null, ["table", "thead", "tr", "th"]) == Err(TypeError);
  }
}
