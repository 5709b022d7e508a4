/** Listed objects to table rows: `pkg/api/resourceInfo.go`. */
module Tables {
  import opened Wrappers

  // ---- values, columns and what the libraries do with them

  /** A decoded JSON value; a `json.Number` is represented by its two readings. */
  datatype GoValue =
    | Nil
    | Bool(b: bool)
    | Int64(i: int)
    | Float64(f: real)
    | Number(asInt64: Option<int>, asFloat64: Option<real>)
    | Str(s: string)
    | Array(elements: seq<GoValue>)
    | Object(fields: map<string, GoValue>)

  type Item = map<string, GoValue>

  datatype Cell = NilCell | IntCell(i: int) | FloatCell(f: real) | BoolCell(b: bool) | StrCell(s: string)

  datatype FindResult = FindFailed | Found(results: seq<seq<GoValue>>)

  /** A parsed JSONPath: any way of finding values in an item and any way of printing one of them. */
  datatype ColumnPrinter = ColumnPrinter(find: Item -> FindResult, render: GoValue -> Option<string>)

  datatype Time = Time(unix: int)

  /** The foreign functions the tables are built with; nothing is assumed about them here. */
  datatype Library = Library(
    parsePath: string -> Option<ColumnPrinter>,
    encode: Item -> string,
    decode: string -> Option<Item>,
    parseTime: string -> Option<Time>,
    humanAge: Time -> string,
    truncate: real -> int)

  datatype ColumnDefinition = ColumnDefinition(
    name: string, columnType: string, format: string, description: string, priority: int)

  datatype ResourceColumns = ResourceColumns(
    name: string, columnType: string, format: string, priority: int, jsonPath: string)

  datatype PartialObject = PartialObject(
    kind: string, apiVersion: string, name: string, namespace: string,
    annotations: map<string, string>, labels: map<string, string>, created: Time)

  datatype ListMeta = ListMeta(resourceVersion: string, continueToken: string, remaining: Option<int>)

  datatype RuntimeObject =
    | ObjectList(meta: ListMeta, items: seq<PartialObject>)
    | SingleObject(resourceVersion: string, obj: PartialObject)
  {
    /** The objects `MetaToTableRow` visits, in order. */
    function Visited(): seq<PartialObject> {
      if ObjectList? then items else [obj]
    }
  }

  datatype Row = Row(cells: seq<Cell>, obj: PartialObject)

  datatype Table = Table(columnDefinitions: seq<ColumnDefinition>, meta: ListMeta, rows: seq<Row>)

  datatype TableError = ClusterLabelMissing | RawDataInvalid

  const CLUSTER_LABEL_KEY := "open-cluster-management/cluster"
  const RAW_DATA_KEY := "rawdata"

  const BASE_HEADERS: seq<ColumnDefinition> := [
    ColumnDefinition("Cluster", "string", "name", "", 0),
    ColumnDefinition("Name", "string", "name", "", 0)]

  // ---- converters

  datatype Converter = Converter(headers: seq<ColumnDefinition>, additionalColumns: seq<ColumnPrinter>)
  {
    /** Two fixed headers, then one header for each additional column. */
    ghost predicate Aligned() {
      |headers| == 2 + |additionalColumns| && headers[..2] == BASE_HEADERS
    }
  }

  function PathOf(column: ResourceColumns): string {
    "{" + column.jsonPath + "}"
  }

  function HeaderOf(column: ResourceColumns): ColumnDefinition {
    ColumnDefinition(column.name, column.columnType, column.format,
                     "Custom resource definition column (in JSONPath format): " + column.jsonPath, column.priority)
  }

  predicate AllParse(lib: Library, columns: seq<ResourceColumns>) {
    forall i | 0 <= i < |columns| :: lib.parsePath(PathOf(columns[i])).Some?
  }

  /** All of the columns, or, when one path does not parse, none of them. */
  function ConverterOf(lib: Library, columns: seq<ResourceColumns>): (c: Converter)
    ensures c.Aligned()
  {
    if AllParse(lib, columns) then
      Converter(
        BASE_HEADERS + seq(|columns|, i requires 0 <= i < |columns| => HeaderOf(columns[i])),
        seq(|columns|, i requires 0 <= i < |columns| && AllParse(lib, columns) =>
          lib.parsePath(PathOf(columns[i])).value))
    else
      Converter(BASE_HEADERS, [])
  }

  method NewConverter(lib: Library, columns: seq<ResourceColumns>) returns (c: Converter)
    ensures c == ConverterOf(lib, columns)
    ensures c.Aligned()
  {
    var headers := BASE_HEADERS;
    c := Converter(headers, []);
    for n := 0 to |columns|
      invariant AllParse(lib, columns[..n])
      invariant c == ConverterOf(lib, columns[..n])
    {
      var col := columns[n];
      var path := lib.parsePath("{" + col.jsonPath + "}");
      if path.None? {
        assert !AllParse(lib, columns);
        return Converter(headers, []);
      }
      var desc := "Custom resource definition column (in JSONPath format): " + col.jsonPath;
      c := c.(additionalColumns := c.additionalColumns + [path.value]);
      c := c.(headers := c.headers + [ColumnDefinition(col.name, col.columnType, col.format, desc, col.priority)]);
      assert columns[..n + 1] == columns[..n] + [col];
      assert AllParse(lib, columns[..n + 1]);
    }
    assert columns[..|columns|] == columns;
  }

  /** A converter holds every column, in order and under its own header, or none if one path does not parse. */
  lemma ConverterExactly(lib: Library, columns: seq<ResourceColumns>)
    ensures
      var c := ConverterOf(lib, columns);
      && (c.headers[0].name, c.headers[0].columnType, c.headers[0].format) == ("Cluster", "string", "name")
      && (c.headers[1].name, c.headers[1].columnType, c.headers[1].format) == ("Name", "string", "name")
      && |c.additionalColumns| == |c.headers| - 2
      && (if forall k | 0 <= k < |columns| :: ParsedPath(lib, columns[k]).Some?
          then |c.headers| == |columns| + 2 && forall k | 0 <= k < |columns| :: Heads(lib, c, columns[k], k)
          else |c.headers| == 2)
  {
    var c := ConverterOf(lib, columns);
    assert c.headers[0] == BASE_HEADERS[0] && c.headers[1] == BASE_HEADERS[1];
  }

  lemma ConverterHeads(lib: Library, columns: seq<ResourceColumns>, k: nat)
    requires AllParse(lib, columns) && k < |columns|
    ensures |ConverterOf(lib, columns).headers| == |columns| + 2
    ensures Heads(lib, ConverterOf(lib, columns), columns[k], k)
  {
  }

  function ParsedPath(lib: Library, column: ResourceColumns): Option<ColumnPrinter> {
    lib.parsePath("{" + column.jsonPath + "}")
  }

  /** The header and the path of column `k` are those asked for. */
  ghost predicate Heads(lib: Library, c: Converter, column: ResourceColumns, k: nat) {
    && k + 2 < |c.headers| && k < |c.additionalColumns|
    && c.headers[k + 2].name == column.name
    && c.headers[k + 2].columnType == column.columnType
    && c.headers[k + 2].format == column.format
    && c.headers[k + 2].priority == column.priority
    && c.headers[k + 2].description == "Custom resource definition column (in JSONPath format): " + column.jsonPath
    && ParsedPath(lib, column) == Some(c.additionalColumns[k])
  }

  // ---- cells

  function CellForJSONValue(lib: Library, headerType: string, value: GoValue): Cell {
    if value == Nil then NilCell
    else if headerType == "integer" then
      match value
      case Int64(i) => IntCell(i)
      case Float64(f) => IntCell(lib.truncate(f))
      case Number(Some(i), _) => IntCell(i)
      case _ => NilCell
    else if headerType == "number" then
      match value
      case Int64(i) => FloatCell(i as real)
      case Float64(f) => FloatCell(f)
      case Number(_, Some(f)) => FloatCell(f)
      case _ => NilCell
    else if headerType == "boolean" then
      if value.Bool? then BoolCell(value.b) else NilCell
    else if headerType == "string" then
      if value.Str? then StrCell(value.s) else NilCell
    else if headerType == "date" && value.Str? then
      match lib.parseTime(value.s)
      case None => StrCell("<invalid>")
      case Some(t) => StrCell(lib.humanAge(t))
    else NilCell
  }

  /** The cell of one column for one item, with no other cell in sight. */
  function CellOf(lib: Library, header: ColumnDefinition, column: ColumnPrinter, content: Item): Cell {
    match column.find(content)
    case FindFailed => NilCell
    case Found(results) =>
      if |results| == 0 || |results[0]| == 0 then NilCell
      else if header.columnType == "string" then
        match column.render(results[0][0])
        case None => NilCell
        case Some(text) => StrCell(text)
      else CellForJSONValue(lib, header.columnType, results[0][0])
  }

  function CellsOf(lib: Library, c: Converter, content: Item): (cells: seq<Cell>)
    requires c.Aligned()
    ensures |cells| == |c.additionalColumns|
    ensures forall i | 0 <= i < |cells| :: cells[i] == CellOf(lib, c.headers[i + 2], c.additionalColumns[i], content)
  {
    seq(|c.additionalColumns|, i requires 0 <= i < |c.additionalColumns| && c.Aligned() =>
      CellOf(lib, c.headers[i + 2], c.additionalColumns[i], content))
  }

  function GetClusterFromMeta(obj: PartialObject): Result<string, TableError> {
    if CLUSTER_LABEL_KEY in obj.labels then Ok(obj.labels[CLUSTER_LABEL_KEY]) else Err(ClusterLabelMissing)
  }

  /** The item kept in the annotation; nothing when there is none. */
  function ContentOf(lib: Library, obj: PartialObject): Result<Item, TableError> {
    if RAW_DATA_KEY !in obj.annotations then Ok(map[])
    else
      match lib.decode(obj.annotations[RAW_DATA_KEY])
      case None => Err(RawDataInvalid)
      case Some(item) => Ok(item)
  }

  function RowOf(lib: Library, c: Converter, obj: PartialObject): Result<seq<Cell>, TableError>
    requires c.Aligned()
  {
    match GetClusterFromMeta(obj)
    case Err(e) => Err(e)
    case Ok(cluster) =>
      match ContentOf(lib, obj)
      case Err(e) => Err(e)
      case Ok(content) => Ok([StrCell(cluster), StrCell(obj.name)] + CellsOf(lib, c, content))
  }

  /** One row for each object in order, or the first error. */
  function RowsOf(lib: Library, c: Converter, objects: seq<PartialObject>): Result<seq<Row>, TableError>
    requires c.Aligned()
  {
    if objects == [] then Ok([])
    else
      var last := objects[|objects| - 1];
      match RowsOf(lib, c, objects[..|objects| - 1])
      case Err(e) => Err(e)
      case Ok(rows) =>
        match RowOf(lib, c, last)
        case Err(e) => Err(e)
        case Ok(cells) => Ok(rows + [Row(cells, last)])
  }

  // ---- the conversion, with its shared buffer

  class Buffer {
    var content: string

    constructor ()
      ensures content == ""
    {
      content := "";
    }

    method Reset()
      modifies this
      ensures content == ""
    {
      content := "";
    }
  }

  /** Appends the text of one value; a failing print writes nothing. */
  method PrintResults(column: ColumnPrinter, buf: Buffer, value: GoValue) returns (ok: bool)
    modifies buf
    ensures ok == column.render(value).Some?
    ensures buf.content == if ok then old(buf.content) + column.render(value).value else old(buf.content)
  {
    match column.render(value)
    case None =>
      ok := false;
    case Some(text) =>
      buf.content := buf.content + text;
      ok := true;
  }

  /** The row function: every column starts, and the row ends, with an empty buffer. */
  method ConvertRow(lib: Library, c: Converter, obj: PartialObject, name: string, buf: Buffer)
    returns (r: Result<seq<Cell>, TableError>)
    requires c.Aligned() && name == obj.name
    requires buf.content == ""
    modifies buf
    ensures buf.content == ""
    ensures r == RowOf(lib, c, obj)
  {
    var clusterName := GetClusterFromMeta(obj);
    if clusterName.Err? {
      return Err(clusterName.error);
    }
    var cells := [StrCell(clusterName.value), StrCell(name)];
    var customHeaders := c.headers[2..];
    var content: Item := map[];
    if RAW_DATA_KEY in obj.annotations {
      var decoded := lib.decode(obj.annotations[RAW_DATA_KEY]);
      if decoded.None? {
        return Err(RawDataInvalid);
      }
      content := decoded.value;
    }
    ghost var base, expected := cells, CellsOf(lib, c, content);
    for i := 0 to |c.additionalColumns|
      invariant buf.content == ""
      invariant cells == base + expected[..i]
    {
      assert customHeaders[i] == c.headers[i + 2];
      OneMore(base, expected, i);
      var cell := ConvertColumn(lib, customHeaders[i], c.additionalColumns[i], content, buf);
      cells := cells + [cell];
    }
    assert cells == base + expected;
    return Ok(cells);
  }

  lemma OneMore(base: seq<Cell>, cells: seq<Cell>, i: nat)
    requires i < |cells|
    ensures base + cells[..i] + [cells[i]] == base + cells[..i + 1]
  {
  }

  /** The body of its loop, for one column. */
  method ConvertColumn(lib: Library, header: ColumnDefinition, column: ColumnPrinter, content: Item, buf: Buffer)
    returns (cell: Cell)
    requires buf.content == ""
    modifies buf
    ensures buf.content == ""
    ensures cell == CellOf(lib, header, column, content)
  {
    var found := column.find(content);
    if found.FindFailed? || |found.results| == 0 || |found.results[0]| == 0 {
      return NilCell;
    }
    var value := found.results[0][0];
    if header.columnType != "string" {
      return CellForJSONValue(lib, header.columnType, value);
    }
    var ok := PrintResults(column, buf, value);
    if !ok {
      return NilCell;
    }
    assert buf.content == column.render(value).value;
    cell := StrCell(buf.content);
    buf.Reset();
  }

  /** `Convertor.ConvertToTable`: on an error the table has no rows. */
  method ConvertToTable(lib: Library, c: Converter, obj: RuntimeObject, noHeaders: bool)
    returns (table: Table, error: Option<TableError>)
    requires c.Aligned()
    ensures table.columnDefinitions == (if noHeaders then [] else c.headers)
    ensures table.meta == if obj.ObjectList? then obj.meta else ListMeta(obj.resourceVersion, "", None)
    ensures match RowsOf(lib, c, obj.Visited())
            case Ok(rows) => error == None && table.rows == rows
            case Err(e) => error == Some(e) && table.rows == []
  {
    table := Table([], ListMeta("", "", None), []);
    if !noHeaders {
      table := table.(columnDefinitions := c.headers);
    }
    if obj.ObjectList? {
      table := table.(meta := obj.meta);
    } else {
      table := table.(meta := table.meta.(resourceVersion := obj.resourceVersion));
    }
    var rows := ConvertObjects(lib, c, obj.Visited());
    if rows.Err? {
      return table, Some(rows.error);
    }
    return table.(rows := rows.value), None;
  }

  /** One row for each object, with one buffer for all of them. */
  method ConvertObjects(lib: Library, c: Converter, objects: seq<PartialObject>)
    returns (r: Result<seq<Row>, TableError>)
    requires c.Aligned()
    ensures r == RowsOf(lib, c, objects)
  {
    var buf := new Buffer();
    var rows := [];
    for n := 0 to |objects|
      invariant buf.content == ""
      invariant fresh(buf)
      invariant RowsOf(lib, c, objects[..n]) == Ok(rows)
    {
      assert objects[..n + 1][..n] == objects[..n];
      var cells := ConvertRow(lib, c, objects[n], objects[n].name, buf);
      if cells.Err? {
        ErrorStays(lib, c, objects, n + 1);
        return Err(cells.error);
      }
      rows := rows + [Row(cells.value, objects[n])];
    }
    assert objects[..|objects|] == objects;
    return Ok(rows);
  }

  /** Later objects do not change the error that an earlier one caused. */
  lemma {:induction false} ErrorStays(lib: Library, c: Converter, objects: seq<PartialObject>, n: nat)
    requires c.Aligned() && n <= |objects|
    requires RowsOf(lib, c, objects[..n]).Err?
    ensures RowsOf(lib, c, objects) == RowsOf(lib, c, objects[..n])
  {
    if n == |objects| {
      assert objects[..n] == objects;
    } else {
      assert objects[..|objects| - 1][..n] == objects[..n];
      ErrorStays(lib, c, objects[..|objects| - 1], n);
    }
  }

  // ---- alignment and typing

  /** The values that a header of this type can show. */
  predicate Representable(headerType: string, value: GoValue) {
    match value
    case Int64(_) => headerType == "integer" || headerType == "number"
    case Float64(_) => headerType == "integer" || headerType == "number"
    case Number(i, f) => (headerType == "integer" && i.Some?) || (headerType == "number" && f.Some?)
    case Bool(_) => headerType == "boolean"
    case Str(_) => headerType == "string" || headerType == "date"
    case _ => false
  }

  /** The cell shows this value: itself, its truncation, or the age a time string stands for. */
  predicate Shows(lib: Library, cell: Cell, value: GoValue) {
    match cell
    case NilCell => false
    case IntCell(i) =>
      || value == Int64(i)
      || (value.Float64? && i == lib.truncate(value.f))
      || (value.Number? && value.asInt64 == Some(i))
    case FloatCell(f) =>
      || value == Float64(f)
      || (value.Int64? && f == value.i as real)
      || (value.Number? && value.asFloat64 == Some(f))
    case BoolCell(b) => value == Bool(b)
    case StrCell(t) =>
      && value.Str?
      && (|| t == value.s
          || t == match lib.parseTime(value.s) case None => "<invalid>" case Some(time) => lib.humanAge(time))
  }

  /** A cell is empty exactly when its header cannot show the value; otherwise it shows that value. */
  lemma CellShowsExactly(lib: Library, headerType: string, value: GoValue)
    ensures
      var cell := CellForJSONValue(lib, headerType, value);
      && (cell == NilCell <==> !Representable(headerType, value))
      && (Representable(headerType, value) ==> Shows(lib, cell, value) && CellFits(headerType, cell))
      && (headerType == "string" && value.Str? ==> cell == StrCell(value.s))
      && (headerType == "date" && value.Str? ==>
            cell == match lib.parseTime(value.s)
                    case Some(time) => StrCell(lib.humanAge(time))
                    case None => StrCell("<invalid>"))
  {
  }

  /** The value a column is about: the first of the first result. */
  function FirstValue(found: FindResult): Option<GoValue> {
    if found.Found? && |found.results| > 0 && |found.results[0]| > 0 then Some(found.results[0][0]) else None
  }

  /** What a cell must say about an item: nothing but the column's value, as the type of the header wants it. */
  ghost predicate Tells(lib: Library, headerType: string, column: ColumnPrinter, item: Item, cell: Cell) {
    match FirstValue(column.find(item))
    case None => cell == NilCell
    case Some(value) =>
      if headerType == "string" then
        && (forall text :: cell == StrCell(text) <==> column.render(value) == Some(text))
        && (cell == NilCell <==> column.render(value) == None)
      else
        && (cell == NilCell <==> !Representable(headerType, value))
        && (cell != NilCell ==> Shows(lib, cell, value) && CellFits(headerType, cell))
        && (headerType == "date" && value.Str? ==>
              cell == match lib.parseTime(value.s)
                      case Some(time) => StrCell(lib.humanAge(time))
                      case None => StrCell("<invalid>"))
  }

  lemma CellTells(lib: Library, header: ColumnDefinition, column: ColumnPrinter, item: Item)
    ensures Tells(lib, header.columnType, column, item, CellOf(lib, header, column, item))
  {
    var value := FirstValue(column.find(item));
    if value.Some? {
      CellShowsExactly(lib, header.columnType, value.value);
    }
  }

  /** The item in an object's annotation; one without the annotation is printed like an empty item. */
  ghost predicate HoldsItem(lib: Library, obj: PartialObject, item: Item) {
    if "rawdata" in obj.annotations then lib.decode(obj.annotations["rawdata"]) == Some(item) else item == map[]
  }

  /** A row fails for exactly two reasons, the missing label first. */
  lemma RowFailsExactly(lib: Library, c: Converter, obj: PartialObject)
    requires c.Aligned()
    ensures
      var labelled := "open-cluster-management/cluster" in obj.labels;
      && (RowOf(lib, c, obj) == Err(ClusterLabelMissing) <==> !labelled)
      && (RowOf(lib, c, obj) == Err(RawDataInvalid) <==> labelled && forall item :: !HoldsItem(lib, obj, item))
  {
    if RAW_DATA_KEY !in obj.annotations {
      assert HoldsItem(lib, obj, map[]);
    } else if lib.decode(obj.annotations[RAW_DATA_KEY]).Some? {
      assert HoldsItem(lib, obj, lib.decode(obj.annotations[RAW_DATA_KEY]).value);
    }
  }

  /** The cells of a row: label, name, and for each column what the item says. */
  lemma RowTells(lib: Library, c: Converter, obj: PartialObject, item: Item, col: nat)
    requires c.Aligned() && RowOf(lib, c, obj).Ok? && HoldsItem(lib, obj, item) && col < |c.additionalColumns|
    ensures
      var cells := RowOf(lib, c, obj).value;
      && |cells| == |c.headers|
      && cells[0] == StrCell(obj.labels["open-cluster-management/cluster"])
      && cells[1] == StrCell(obj.name)
      && Tells(lib, c.headers[col + 2].columnType, c.additionalColumns[col], item, cells[col + 2])
  {
    RowIsOfItem(lib, c, obj, item);
    CellTells(lib, c.headers[col + 2], c.additionalColumns[col], item);
  }

  lemma RowIsOfItem(lib: Library, c: Converter, obj: PartialObject, item: Item)
    requires c.Aligned() && RowOf(lib, c, obj).Ok? && HoldsItem(lib, obj, item)
    ensures RowOf(lib, c, obj).value ==
            [StrCell(obj.labels[CLUSTER_LABEL_KEY]), StrCell(obj.name)] + CellsOf(lib, c, item)
  {
    assert ContentOf(lib, obj) == Ok(item);
  }

  /** The rows are those of the objects, each beside its own. */
  ghost predicate RowsOfAll(lib: Library, c: Converter, objects: seq<PartialObject>, rows: seq<Row>)
    requires c.Aligned()
  {
    && |rows| == |objects|
    && forall i | 0 <= i < |objects| :: rows[i].obj == objects[i] && RowOf(lib, c, objects[i]) == Ok(rows[i].cells)
  }

  ghost predicate FirstFailure(lib: Library, c: Converter, objects: seq<PartialObject>, n: int, error: TableError)
    requires c.Aligned()
  {
    && 0 <= n < |objects| && RowOf(lib, c, objects[n]) == Err(error)
    && forall i | 0 <= i < n :: RowOf(lib, c, objects[i]).Ok?
  }

  /** All rows when each object has one, otherwise the error of the first, at `n`, that has none. */
  lemma {:induction false} RowsExactly(lib: Library, c: Converter, objects: seq<PartialObject>) returns (n: int)
    requires c.Aligned()
    ensures match RowsOf(lib, c, objects)
            case Ok(rows) => RowsOfAll(lib, c, objects, rows)
            case Err(e) => FirstFailure(lib, c, objects, n, e)
  {
    n := |objects| - 1;
    if objects != [] {
      var init := objects[..n];
      var k := RowsExactly(lib, c, init);
      var before := RowsOf(lib, c, init);
      if before.Err? {
        assert forall i | 0 <= i < |init| :: init[i] == objects[i];
        n := k;
      } else {
        LastRow(lib, c, objects, before.value);
      }
    }
  }

  lemma LastRow(lib: Library, c: Converter, objects: seq<PartialObject>, rows: seq<Row>)
    requires c.Aligned() && objects != [] && RowsOfAll(lib, c, objects[..|objects| - 1], rows)
    ensures
      var n := |objects| - 1;
      match RowOf(lib, c, objects[n])
      case Ok(cells) => RowsOfAll(lib, c, objects, rows + [Row(cells, objects[n])])
      case Err(e) => FirstFailure(lib, c, objects, n, e)
  {
    var init := objects[..|objects| - 1];
    assert forall i | 0 <= i < |init| :: init[i] == objects[i];
  }

  /** The Go types that may stand under a header of this type. */
  predicate CellFits(headerType: string, cell: Cell) {
    match cell
    case NilCell => true
    case IntCell(_) => headerType == "integer"
    case FloatCell(_) => headerType == "number"
    case BoolCell(_) => headerType == "boolean"
    case StrCell(_) => headerType == "string" || headerType == "date"
  }

  lemma CellFitsHeader(lib: Library, header: ColumnDefinition, column: ColumnPrinter, content: Item)
    ensures CellFits(header.columnType, CellOf(lib, header, column, content))
  {
  }

  /** Whatever the columns were, every row has one cell for each header, of that header's type. */
  lemma RowFitsHeaders(lib: Library, columns: seq<ResourceColumns>, obj: PartialObject)
    ensures
      var c := ConverterOf(lib, columns);
      var r := RowOf(lib, c, obj);
      && |c.headers| == 2 + (if AllParse(lib, columns) then |columns| else 0)
      && (r.Ok? ==>
            && |r.value| == |c.headers|
            && forall i | 0 <= i < |r.value| :: CellFits(c.headers[i].columnType, r.value[i]))
  {
    AlignedRowFits(lib, ConverterOf(lib, columns), obj);
  }

  lemma AlignedRowFits(lib: Library, c: Converter, obj: PartialObject)
    requires c.Aligned()
    ensures
      var r := RowOf(lib, c, obj);
      r.Ok? ==>
        && |r.value| == |c.headers|
        && forall i | 0 <= i < |r.value| :: CellFits(c.headers[i].columnType, r.value[i])
  {
    var r := RowOf(lib, c, obj);
    if r.Ok? {
      assert c.headers[0] == BASE_HEADERS[0] && c.headers[1] == BASE_HEADERS[1] by {
        assert c.headers[..2][0] == c.headers[0] && c.headers[..2][1] == c.headers[1];
      }
      forall i | 0 <= i < |r.value| ensures CellFits(c.headers[i].columnType, r.value[i]) {
        if i >= 2 {
          CellFitsHeader(lib, c.headers[i], c.additionalColumns[i - 2], ContentOf(lib, obj).value);
        }
      }
    }
  }
}
