/** From a search reply to a printed table, end to end. */
module Pipeline {
  import opened Wrappers
  import opened Tables
  import opened Resources
  import opened Search

  /** Encoding one of these items and decoding the text again gives the item. */
  ghost predicate RawDataRoundTrips(lib: Library, items: seq<Item>) {
    forall i | 0 <= i < |items| :: lib.decode(lib.encode(items[i])) == Some(items[i])
  }

  ghost predicate PrinterAligned(printer: Printer) {
    printer.OwnPrinter? ==> printer.converter.Aligned()
  }

  function HeadersOf(printer: Printer): seq<ColumnDefinition> {
    match printer
    case DefaultPrinter => DEFAULT_HEADERS
    case OwnPrinter(c) => c.headers
  }

  /** The row of an item, read off the item alone: no label, no annotation, no buffer. */
  ghost function DirectCells(lib: Library, printer: Printer, item: Item): seq<Cell>
    requires PrinterAligned(printer)
    requires WellFormed(item) && CreatedOf(lib, item).Some?
  {
    [StrCell(item["cluster"].s), StrCell(item["name"].s)] +
    match printer
    case DefaultPrinter => [StrCell(lib.humanAge(CreatedOf(lib, item).value))]
    case OwnPrinter(c) => CellsOf(lib, c, item)
  }

  /** One row for each item whose creation time parses, in order. */
  ghost function DirectRows(lib: Library, printer: Printer, items: seq<Item>): (rows: seq<Row>)
    requires PrinterAligned(printer) && AllWellFormed(items)
    ensures |rows| == |Kept(lib, items)|
    ensures forall i | 0 <= i < |rows| ::
              var item := Kept(lib, items)[i];
              rows[i] == Row(DirectCells(lib, printer, item), ObjectOf(lib, item))
  {
    var kept := Kept(lib, items);
    seq(|kept|, i requires 0 <= i < |kept| && PrinterAligned(printer) =>
      Row(DirectCells(lib, printer, kept[i]), ObjectOf(lib, kept[i])))
  }

  /** The detour through the label and the annotation loses nothing. */
  lemma RowSurvivesDetour(lib: Library, c: Converter, item: Item)
    requires lib.decode(lib.encode(item)) == Some(item) && c.Aligned()
    requires WellFormed(item) && CreatedOf(lib, item).Some?
    ensures RowOf(lib, c, ObjectOf(lib, item)) == Ok(DirectCells(lib, OwnPrinter(c), item))
  {
  }

  lemma {:induction false} KeptRoundTrip(lib: Library, items: seq<Item>)
    requires RawDataRoundTrips(lib, items) && AllWellFormed(items)
    ensures RawDataRoundTrips(lib, Kept(lib, items))
  {
    if items != [] {
      KeptRoundTrip(lib, items[..|items| - 1]);
    }
  }

  /** When every object has a row, the rows are exactly those. */
  lemma {:induction false} RowsOfGoodObjects(lib: Library, c: Converter, objects: seq<PartialObject>, rows: seq<Row>)
    requires c.Aligned() && |rows| == |objects|
    requires forall i | 0 <= i < |objects| ::
               rows[i].obj == objects[i] && RowOf(lib, c, objects[i]) == Ok(rows[i].cells)
    ensures RowsOf(lib, c, objects) == Ok(rows)
  {
    if objects != [] {
      var n := |objects| - 1;
      RowsOfGoodObjects(lib, c, objects[..n], rows[..n]);
      assert rows == rows[..n] + [Row(rows[n].cells, objects[n])];
    }
  }

  /** Converting the listed objects refines the direct map from items to rows, and never errs. */
  lemma RowsAreDirect(lib: Library, c: Converter, items: seq<Item>)
    requires RawDataRoundTrips(lib, items) && c.Aligned() && AllWellFormed(items)
    ensures RowsOf(lib, c, ObjectsOf(lib, items)) == Ok(DirectRows(lib, OwnPrinter(c), items))
  {
    KeptRoundTrip(lib, items);
    var objects, rows := ObjectsOf(lib, items), DirectRows(lib, OwnPrinter(c), items);
    forall i | 0 <= i < |objects|
      ensures rows[i].obj == objects[i] && RowOf(lib, c, objects[i]) == Ok(rows[i].cells)
    {
      RowSurvivesDetour(lib, c, Kept(lib, items)[i]);
    }
    RowsOfGoodObjects(lib, c, objects, rows);
  }

  lemma DefaultRowsAreDirect(lib: Library, items: seq<Item>, rows: seq<Row>)
    requires AllWellFormed(items)
    requires |rows| == |ObjectsOf(lib, items)|
    requires forall i | 0 <= i < |rows| ::
               var obj := ObjectsOf(lib, items)[i];
               && GetClusterFromMeta(obj).Ok?
               && rows[i] == Row(DefaultCells(lib, obj, obj.labels[CLUSTER_LABEL_KEY]), obj)
    ensures rows == DirectRows(lib, DefaultPrinter, items)
  {
    forall i | 0 <= i < |rows| ensures rows[i] == DirectRows(lib, DefaultPrinter, items)[i] {
      assert ObjectsOf(lib, items)[i] == ObjectOf(lib, Kept(lib, items)[i]);
    }
  }

  /** A list request printed as a table: query, conversion to objects, conversion to rows. */
  method ListAsTable(
      lib: Library, table: ResourceTable, gvr: GroupVersionResource,
      reply: Result<seq<seq<Item>>, string>, noHeaders: bool)
    returns (outcome: ListOutcome, printed: Result<Table, TableError>)
    requires reply.Ok? ==> RawDataRoundTrips(lib, Flatten(reply.value))
    requires ConvertersAligned(table)
    ensures outcome.Listed? <==> reply.Ok? && AllWellFormed(Flatten(reply.value))
    ensures outcome.Listed? ==>
              && PrinterAligned(PrinterOf(table, gvr))
              && printed.Ok?
              && printed.value.columnDefinitions == (if noHeaders then [] else HeadersOf(PrinterOf(table, gvr)))
              && printed.value.meta == ListMeta("", "", None)
              && printed.value.rows == DirectRows(lib, PrinterOf(table, gvr), Flatten(reply.value))
  {
    printed := Err(RawDataInvalid);
    outcome := List(lib, reply);
    if outcome.Listed? {
      ghost var items := Flatten(reply.value);
      var printer := PrinterfFor(table, gvr);
      match printer {
        case OwnPrinter(c) =>
          RowsAreDirect(lib, c, items);
          var t, error := ConvertToTable(lib, c, outcome.list, noHeaders);
          printed := Ok(t);
        case DefaultPrinter =>
          printed := DefaultConverter(lib, outcome.list, noHeaders);
          DefaultRowsAreDirect(lib, items, printed.value.rows);
      }
    }
  }

  /** Every row has one cell for each header, of the type the header announces. */
  lemma DirectRowsFitHeaders(lib: Library, printer: Printer, items: seq<Item>, i: nat)
    requires PrinterAligned(printer) && AllWellFormed(items) && i < |Kept(lib, items)|
    ensures
      var cells := DirectRows(lib, printer, items)[i].cells;
      && |cells| == |HeadersOf(printer)|
      && forall k | 0 <= k < |cells| :: CellFits(HeadersOf(printer)[k].columnType, cells[k])
  {
    DirectCellsFit(lib, printer, Kept(lib, items)[i]);
  }

  lemma DirectCellsFit(lib: Library, printer: Printer, item: Item)
    requires PrinterAligned(printer) && WellFormed(item) && CreatedOf(lib, item).Some?
    ensures |DirectCells(lib, printer, item)| == |HeadersOf(printer)|
    ensures forall k | 0 <= k < |HeadersOf(printer)| ::
              CellFits(HeadersOf(printer)[k].columnType, DirectCells(lib, printer, item)[k])
  {
    forall k | 0 <= k < |HeadersOf(printer)|
      ensures CellFits(HeadersOf(printer)[k].columnType, DirectCells(lib, printer, item)[k])
    {
      match printer
      case DefaultPrinter => {}
      case OwnPrinter(c) => OwnCellFits(lib, c, item, k);
    }
  }

  lemma OwnCellFits(lib: Library, c: Converter, item: Item, k: nat)
    requires c.Aligned() && WellFormed(item) && CreatedOf(lib, item).Some? && k < |c.headers|
    ensures CellFits(c.headers[k].columnType, DirectCells(lib, OwnPrinter(c), item)[k])
  {
    if k < 2 {
      BaseHeader(c, k);
    } else {
      OwnCell(lib, c, item, k - 2);
      CellFitsHeader(lib, c.headers[k], c.additionalColumns[k - 2], item);
    }
  }

  lemma BaseHeader(c: Converter, k: nat)
    requires c.Aligned() && k < 2
    ensures c.headers[k] == BASE_HEADERS[k]
  {
    assert c.headers[k] == c.headers[..2][k];
  }

  lemma OwnCell(lib: Library, c: Converter, item: Item, col: nat)
    requires c.Aligned() && WellFormed(item) && CreatedOf(lib, item).Some? && col < |c.additionalColumns|
    ensures |DirectCells(lib, OwnPrinter(c), item)| == |c.headers|
    ensures DirectCells(lib, OwnPrinter(c), item)[col + 2] ==
            CellOf(lib, c.headers[col + 2], c.additionalColumns[col], item)
  {
    var base, cells := [StrCell(item["cluster"].s), StrCell(item["name"].s)], CellsOf(lib, c, item);
    assert (base + cells)[col + 2] == cells[col];
  }

  // ---- what the cells say

  /** Under the headers Cluster and Name stand the cluster and the name of the item. */
  lemma NamedCells(lib: Library, printer: Printer, items: seq<Item>, i: nat)
    requires PrinterAligned(printer) && AllWellFormed(items) && i < |Kept(lib, items)|
    ensures
      var headers, cells, item := HeadersOf(printer), DirectRows(lib, printer, items)[i].cells, Kept(lib, items)[i];
      && |headers| >= 2 && |cells| >= 2
      && headers[0].name == "Cluster" && cells[0] == StrCell(item["cluster"].s)
      && headers[1].name == "Name" && cells[1] == StrCell(item["name"].s)
  {
    match printer
    case DefaultPrinter => {}
    case OwnPrinter(c) =>
      BaseHeader(c, 0);
      BaseHeader(c, 1);
  }

  /** The default printer has one more column, the age, for creation times that parse. */
  lemma DefaultAge(lib: Library, items: seq<Item>, i: nat)
    requires AllWellFormed(items) && i < |Kept(lib, items)|
    ensures
      var headers, cells := HeadersOf(DefaultPrinter), DirectRows(lib, DefaultPrinter, items)[i].cells;
      var time := lib.parseTime(Kept(lib, items)[i]["created"].s);
      && |headers| == |cells| == 3
      && headers[2].name == "Age" && headers[2].columnType == "date"
      && time.Some? && cells[2] == StrCell(lib.humanAge(time.value))
  {
  }

  /** Under every other header stands what its column tells of the item. */
  lemma ColumnTells(lib: Library, c: Converter, items: seq<Item>, i: nat, col: nat)
    requires c.Aligned() && AllWellFormed(items) && i < |Kept(lib, items)| && col < |c.additionalColumns|
    ensures Tells(lib, c.headers[col + 2].columnType, c.additionalColumns[col], Kept(lib, items)[i],
                  DirectRows(lib, OwnPrinter(c), items)[i].cells[col + 2])
  {
    var item := Kept(lib, items)[i];
    CellTells(lib, c.headers[col + 2], c.additionalColumns[col], item);
    OwnCell(lib, c, item, col);
  }

  /** The column is printed under its own name: exactly the item's field, or nothing when it has no such field. */
  ghost predicate PrintsField(
    lib: Library, c: Converter, items: seq<Item>, i: nat, col: nat,
    header: string, field: string, render: GoValue -> Option<string>)
    requires c.Aligned() && AllWellFormed(items) && i < |Kept(lib, items)|
  {
    && col < |c.additionalColumns|
    && c.headers[col + 2].name == header
    && var cell, item := DirectRows(lib, OwnPrinter(c), items)[i].cells[col + 2], Kept(lib, items)[i];
       if field in item then forall text :: cell == StrCell(text) <==> render(item[field]) == Some(text)
       else cell == NilCell
  }

  /** A string column on a field prints that field. */
  lemma FieldTells(
      lib: Library, columns: seq<ResourceColumns>, items: seq<Item>, i: nat, col: nat,
      field: string, render: GoValue -> Option<string>)
    requires AllParse(lib, columns) && AllWellFormed(items) && i < |Kept(lib, items)| && col < |columns|
    requires lib.parsePath(PathOf(columns[col])) == Some(FieldColumn(field, render))
    requires columns[col].columnType == "string"
    ensures PrintsField(lib, ConverterOf(lib, columns), items, i, col, columns[col].name, field, render)
  {
    var c := ConverterOf(lib, columns);
    ConverterHeads(lib, columns, col);
    ColumnTells(lib, c, items, i, col);
    FieldValue(field, render, Kept(lib, items)[i]);
  }

  lemma FieldValue(name: string, render: GoValue -> Option<string>, item: Item)
    ensures FirstValue(FieldColumn(name, render).find(item)) == if name in item then Some(item[name]) else None
  {
  }

  // ---- the Age column

  /** The path ".name": the field's value, or nothing when the field is missing. */
  function FieldColumn(name: string, render: GoValue -> Option<string>): ColumnPrinter {
    ColumnPrinter(
      (item: Item) => if name in item then Found([[item[name]]]) else Found([[]]),
      render)
  }

  /**
   * A date column on the creation time never shows "<invalid>": the items it would say so for are not
   * listed at all. It shows what the default printer shows.
   */
  lemma AgeColumnAgreesWithDefault(
      lib: Library, c: Converter, items: seq<Item>, i: nat, col: nat, render: GoValue -> Option<string>)
    requires c.Aligned() && AllWellFormed(items)
    requires i < |Kept(lib, items)| && col < |c.additionalColumns|
    requires c.additionalColumns[col] == FieldColumn("created", render) && c.headers[col + 2].columnType == "date"
    ensures DirectRows(lib, OwnPrinter(c), items)[i].cells[col + 2] ==
            DirectRows(lib, DefaultPrinter, items)[i].cells[2]
  {
    AgeCell(lib, c, Kept(lib, items)[i], col, render);
  }

  lemma AgeCell(lib: Library, c: Converter, item: Item, col: nat, render: GoValue -> Option<string>)
    requires c.Aligned() && col < |c.additionalColumns|
    requires c.additionalColumns[col] == FieldColumn("created", render) && c.headers[col + 2].columnType == "date"
    requires WellFormed(item) && CreatedOf(lib, item).Some?
    ensures DirectCells(lib, OwnPrinter(c), item)[col + 2] == StrCell(lib.humanAge(CreatedOf(lib, item).value))
  {
    assert c.additionalColumns[col].find(item) == Found([[item["created"]]]);
    OwnCell(lib, c, item, col);
  }
}
