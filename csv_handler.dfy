/** The import of a CSV or Excel file into the sample table: the upload extension check, the
    normalisation of each cell (`safe_value`, `parse_date`), the mapping of a file row to a
    table row with its status default, the chunk loop that commits chunk by chunk and reports
    progress, and the fixed-column projection the bulk loader writes. The file is given as
    its rows (pandas' reading is not modelled); the date parser is a parameter. */
module CsvHandler {
  import opened Wrappers
  import opened Text
  import opened Models
  import LabelingQuery

  // ---------------------------------------------------------------- file names

  /** The text after the last '.', or the whole name when it has none. */
  function AfterLastDot(name: string): (r: string)
    ensures '.' !in r && |r| <= |name| && r == name[|name| - |r|..]
    ensures '.' in name ==> |r| < |name| && name[|name| - |r| - 1] == '.'
    ensures '.' !in name ==> r == name
  {
    if name == [] then []
    else if name[|name| - 1] == '.' then []
    else
      var r := AfterLastDot(name[..|name| - 1]) + [name[|name| - 1]];
      assert name == name[..|name| - 1] + [name[|name| - 1]];
      r
  }

  /** `allowed_file`: the name has a dot and its extension, lower-cased, is csv or xlsx. */
  predicate AllowedFile(name: string) {
    '.' in name && (Lower(AfterLastDot(name)) == "csv" || Lower(AfterLastDot(name)) == "xlsx")
  }

  datatype Format = Csv | Xlsx

  /** The format choice of both importers: case-sensitive `endswith`, `.csv` first. */
  function FormatOf(path: string): (f: Option<Format>)
    ensures f == Some(Csv) <==> EndsWith(path, ".csv")
    ensures f == Some(Xlsx) <==> !EndsWith(path, ".csv") && EndsWith(path, ".xlsx")
  {
    if EndsWith(path, ".csv") then Some(Csv)
    else if EndsWith(path, ".xlsx") then Some(Xlsx)
    else None
  }

  /** The extension of `stem.ext` is `ext` when `ext` has no dot, whatever the stem holds. */
  lemma {:induction false} AfterLastDotOfExtension(stem: string, ext: string)
    requires '.' !in ext
    ensures '.' in stem + "." + ext
    ensures AfterLastDot(stem + "." + ext) == ext
    decreases |ext|
  {
    var name := stem + "." + ext;
    assert name[|stem|] == '.';
    if ext != [] {
      var init := ext[..|ext| - 1];
      assert name[..|name| - 1] == stem + "." + init;
      assert name[|name| - 1] == ext[|ext| - 1];
      AfterLastDotOfExtension(stem, init);
      assert ext == init + [ext[|ext| - 1]];
    }
  }

  /** Both accepted extensions are already lower case. */
  lemma LowerCaseExtensions()
    ensures Lower("csv") == "csv" && Lower("xlsx") == "xlsx"
  {
  }

  /** A name the importer reads as CSV by its lower-case extension passes the upload check. */
  lemma AllowedFileAcceptsCsvNames(stem: string)
    ensures AllowedFile(stem + ".csv") && FormatOf(stem + ".csv") == Some(Csv)
  {
    var name := stem + ".csv";
    assert FormatOf(name) == Some(Csv) by {
      assert name[|stem|..] == ".csv";
    }
    assert AllowedFile(name) by {
      assert name == stem + "." + "csv";
      AfterLastDotOfExtension(stem, "csv");
      LowerCaseExtensions();
    }
  }

  /** A name the importer reads as Excel by its lower-case extension passes the upload check. */
  lemma AllowedFileAcceptsXlsxNames(stem: string)
    ensures AllowedFile(stem + ".xlsx") && FormatOf(stem + ".xlsx") == Some(Xlsx)
  {
    var name := stem + ".xlsx";
    assert FormatOf(name) == Some(Xlsx) by {
      assert name[|stem|..] == ".xlsx";
      assert name[|name| - 4..] == "xlsx" != ".csv";
    }
    assert AllowedFile(name) by {
      assert name == stem + "." + "xlsx";
      AfterLastDotOfExtension(stem, "xlsx");
      LowerCaseExtensions();
    }
  }

  /** The upload check accepts an upper-case extension that the importer then rejects. */
  lemma UpperCaseExtensionPassesCheckButNotImport()
    ensures AllowedFile("X.CSV") && FormatOf("X.CSV").None?
  {
    UpperCaseExtensionIsAllowed();
    UpperCaseExtensionHasNoFormat();
  }

  lemma UpperCaseExtensionIsAllowed()
    ensures AllowedFile("X.CSV")
  {
    assert "X.CSV" == "X" + "." + "CSV";
    AfterLastDotOfExtension("X", "CSV");
    assert Lower("CSV") == "csv";
  }

  lemma UpperCaseExtensionHasNoFormat()
    ensures FormatOf("X.CSV").None?
  {
    var name := "X.CSV";
    assert !EndsWith(name, ".csv") by { assert name[1..] != ".csv"; }
    assert !EndsWith(name, ".xlsx") by { assert name[0] != ".xlsx"[0]; }
  }


  // ---------------------------------------------------------------- cells

  /** A cell of a row as the reader hands it over after NaN has been replaced by None where
      pandas allows it: a Python None, a float NaN, an int, a bool, a float (its `str`), or
      text. */
  datatype Cell = Null | NaN | Int(i: int) | Bool(b: bool) | Float(text: string) | Text(s: string)

  /** `str(val)`. */
  function CellStr(c: Cell): string {
    match c
    case Null => "None"
    case NaN => "nan"
    case Int(i) => IntToString(i)
    case Bool(b) => if b then "True" else "False"
    case Float(text) => text
    case Text(s) => s
  }

  /** `pd.isna(val)`. */
  predicate IsNa(c: Cell) {
    c.Null? || c.NaN?
  }

  /** Python truthiness; a float is false exactly when it is zero, whose `str` is "0.0" or
      "-0.0"; NaN is true. */
  predicate Truthy(c: Cell) {
    match c
    case Null => false
    case NaN => true
    case Int(i) => i != 0
    case Bool(b) => b
    case Float(text) => text != "0.0" && text != "-0.0"
    case Text(s) => s != ""
  }

  /** The importer's `safe_value`. */
  function SafeValue(c: Cell): (r: Option<string>)
    ensures IsNa(c) ==> r.None?
    ensures c.Int? || c.Bool? || c.Float? ==> r == Some(CellStr(c))
    ensures c.Text? ==> r == (if c.s == "" then None else Some(c.s))
    ensures r.Some? ==> r.value == CellStr(c)
  {
    if c.Null? then None
    else if IsNa(c) then None
    else if c.Int? || c.Float? || c.Bool? then Some(CellStr(c))
    else if Truthy(c) then Some(CellStr(c))
    else None
  }

  /** A bool is a number to `isinstance(val, int)`, so False is kept as the text "False",
      while an empty text is dropped. */
  lemma SafeValueKeepsFalseAndZero()
    ensures SafeValue(Bool(false)) == Some("False")
    ensures SafeValue(Int(0)) == Some("0")
    ensures SafeValue(Text("")) == None
  {
  }

  /** What the date parser (dateutil's `parse(...).date()`) does with a text: a day, a
      ValueError or TypeError, or an OverflowError, which `parse_date` does not catch. */
  datatype DateParse = Day(d: Date) | Invalid | Overflow

  /** `parse_date`: `None` when the exception escaped, otherwise the column value. */
  function ParseDate(c: Cell, parse: string -> DateParse): (r: Option<Option<Date>>)
    ensures !Truthy(c) || IsNa(c) ==> r == Some(None)
    ensures r.None? <==> Truthy(c) && !IsNa(c) && parse(CellStr(c)).Overflow?
    ensures r.Some? && r.value.Some? ==> parse(CellStr(c)) == Day(r.value.value)
    ensures Truthy(c) && !IsNa(c) && parse(CellStr(c)).Day? ==> r == Some(Some(parse(CellStr(c)).d))
    ensures Truthy(c) && !IsNa(c) && parse(CellStr(c)).Invalid? ==> r == Some(None)
  {
    if !Truthy(c) || IsNa(c) then Some(None)
    else
      match parse(CellStr(c))
      case Day(d) => Some(Some(d))
      case Invalid => Some(None)
      case Overflow => None
  }

  // ---------------------------------------------------------------- rows

  /** A file row: its cells by column name; a column the file lacks is absent. */
  type Row = map<string, Cell>

  /** `row.get(col)`. */
  function Get(row: Row, col: string): Cell {
    if col in row then row[col] else Null
  }

  /** One row as the importer inserts it: the dictionary of `import_csv_to_db`, a column per
      field. */
  datatype Mapping = Mapping(
    eRetailer: Option<string>,
    onlineStore: Option<string>,
    category: Option<string>,
    brand: Option<string>,
    isCompetitor: Option<string>,
    productDescription: Option<string>,
    url: Option<string>,
    skuUrl: Option<string>,
    sku: Option<string>,
    skuId: Option<string>,
    retailerProductCode: Option<string>,
    latestReviewDate: Option<Date>,
    imageUrl: Option<string>,
    total: Option<string>,
    totalComments: Option<string>,
    lastMonthTotal: Option<string>,
    lastTotalComments: Option<string>,
    note: Option<string>,
    attrs: Slots,
    status: string)

  /** `safe_value(row.get('status')) or 'Unlabeled'`. */
  function StatusOf(row: Row): (st: string)
    ensures st != ""
    ensures SafeValue(Get(row, "status")).None? ==> st == UNLABELED
    ensures SafeValue(Get(row, "status")).Some? && SafeValue(Get(row, "status")).value != "" ==>
              st == SafeValue(Get(row, "status")).value
  {
    var v := SafeValue(Get(row, "status"));
    if v.Some? && v.value != "" then v.value else UNLABELED
  }

  /** The mapping of one file row; `None` when `parse_date` raised. */
  function MapRow(row: Row, parse: string -> DateParse): (r: Option<Mapping>)
    ensures r.None? <==> ParseDate(Get(row, "latest_review_date"), parse).None?
    ensures r.Some? ==> && r.value.latestReviewDate == ParseDate(Get(row, "latest_review_date"), parse).value
                        && r.value.status == StatusOf(row)
    ensures r.Some? ==> && r.value.eRetailer == SafeValue(Get(row, "eRetailer"))
                        && r.value.onlineStore == SafeValue(Get(row, "online_store"))
                        && r.value.category == SafeValue(Get(row, "category"))
                        && r.value.brand == SafeValue(Get(row, "brand"))
                        && r.value.isCompetitor == SafeValue(Get(row, "is_competitor"))
                        && r.value.productDescription == SafeValue(Get(row, "product_description"))
                        && r.value.url == SafeValue(Get(row, "url"))
                        && r.value.skuUrl == SafeValue(Get(row, "sku_url"))
                        && r.value.sku == SafeValue(Get(row, "sku"))
                        && r.value.skuId == SafeValue(Get(row, "sku_id"))
                        && r.value.retailerProductCode == SafeValue(Get(row, "retailer_product_code"))
    ensures r.Some? ==> && r.value.imageUrl == SafeValue(Get(row, "image_url"))
                        && r.value.total == SafeValue(Get(row, "total"))
                        && r.value.totalComments == SafeValue(Get(row, "total_comments"))
                        && r.value.lastMonthTotal == SafeValue(Get(row, "last_month_total"))
                        && r.value.lastTotalComments == SafeValue(Get(row, "last_total_comments"))
                        && r.value.note == SafeValue(Get(row, "note"))
    ensures r.Some? ==> r.value.attrs == Slots(SafeValue(Get(row, "prod_attributes1")),
                                               SafeValue(Get(row, "prod_attributes2")),
                                               SafeValue(Get(row, "prod_attributes3")),
                                               SafeValue(Get(row, "prod_attributes4")),
                                               SafeValue(Get(row, "prod_attributes5")))
  {
    match ParseDate(Get(row, "latest_review_date"), parse)
    case None => None
    case Some(day) =>
      var v := (col: string) => SafeValue(Get(row, col));
      Some(Mapping(v("eRetailer"), v("online_store"), v("category"), v("brand"), v("is_competitor"),
                   v("product_description"), v("url"), v("sku_url"), v("sku"), v("sku_id"),
                   v("retailer_product_code"), day, v("image_url"), v("total"),
                   v("total_comments"), v("last_month_total"), v("last_total_comments"), v("note"),
                   Slots(v("prod_attributes1"), v("prod_attributes2"), v("prod_attributes3"),
                         v("prod_attributes4"), v("prod_attributes5")),
                   StatusOf(row)))
  }

  /** A status the file leaves out, empty or NaN becomes Unlabeled; any other status text is
      kept as it is. */
  lemma StatusDefault(row: Row)
    ensures "status" !in row ==> StatusOf(row) == UNLABELED
    ensures Get(row, "status") in {Null, NaN, Text("")} ==> StatusOf(row) == UNLABELED
    ensures Get(row, "status").Text? && Get(row, "status").s != "" ==> StatusOf(row) == Get(row, "status").s
  {
  }

  /** The table row an inserted mapping becomes, under the id the database assigns. */
  function ToSample(m: Mapping, id: int): (s: Sample)
    ensures s.id == id && s.status == Some(m.status) && s.attrs == m.attrs && s.note == m.note
    ensures && s.eRetailer == m.eRetailer && s.onlineStore == m.onlineStore
            && s.category == m.category && s.brand == m.brand && s.isCompetitor == m.isCompetitor
            && s.productDescription == m.productDescription && s.url == m.url
            && s.skuUrl == m.skuUrl && s.sku == m.sku && s.skuId == m.skuId
            && s.retailerProductCode == m.retailerProductCode
            && s.latestReviewDate == m.latestReviewDate && s.imageUrl == m.imageUrl
            && s.total == m.total && s.totalComments == m.totalComments
            && s.lastMonthTotal == m.lastMonthTotal && s.lastTotalComments == m.lastTotalComments
  {
    Sample(id, m.eRetailer, m.onlineStore, m.category, m.brand, m.isCompetitor,
           m.productDescription, m.url, m.skuUrl, m.sku, m.skuId, m.retailerProductCode,
           m.latestReviewDate, m.imageUrl, m.total, m.totalComments, m.lastMonthTotal,
           m.lastTotalComments, m.note, m.attrs, Some(m.status))
  }

  /** A row imported without a status shows up under the "Unlabeled" status filter of the
      sample list. */
  lemma ImportedWithoutStatusIsListedAsUnlabeled(row: Row, parse: string -> DateParse, id: int,
                                                 filter: seq<string>)
    requires MapRow(row, parse).Some? && "status" !in row
    requires UNLABELED in filter
    ensures LabelingQuery.StatusFilterMatches(filter, ToSample(MapRow(row, parse).value, id).status)
  {
  }

  /** The per-row mapping of `import_csv_to_db` under a given date parser, as a function of the
      row alone. */
  function RowMapper(parse: string -> DateParse): Row -> Option<Mapping> {
    (row: Row) => MapRow(row, parse)
  }

  /** The rows of one chunk, mapped; `None` when some row raised. */
  function MapRows(rows: seq<Row>, f: Row -> Option<Mapping>): (r: Option<seq<Mapping>>)
    ensures r.Some? ==> |r.value| == |rows|
    decreases |rows|
  {
    if rows == [] then Some([])
    else
      match MapRows(rows[..|rows| - 1], f)
      case None => None
      case Some(ms) =>
        match f(rows[|rows| - 1])
        case None => None
        case Some(m) => Some(ms + [m])
  }

  /** A chunk maps exactly when each of its rows maps, and then row by row, in order. */
  lemma {:induction false} MapRowsPointwise(rows: seq<Row>, f: Row -> Option<Mapping>)
    ensures MapRows(rows, f).None? <==> exists i :: 0 <= i < |rows| && f(rows[i]).None?
    ensures MapRows(rows, f).Some? ==>
              forall i :: 0 <= i < |rows| ==> f(rows[i]) == Some(MapRows(rows, f).value[i])
    decreases |rows|
  {
    if rows != [] {
      var init := rows[..|rows| - 1];
      MapRowsPointwise(init, f);
      assert forall i :: 0 <= i < |init| ==> init[i] == rows[i];
    }
  }

  /** The inner loop over the rows of a chunk, appending to `mappings`. */
  method MapChunk(rows: seq<Row>, f: Row -> Option<Mapping>) returns (r: Option<seq<Mapping>>)
    ensures r == MapRows(rows, f)
  {
    var mappings := [];
    var i := 0;
    while i < |rows|
      invariant 0 <= i <= |rows|
      invariant MapRows(rows[..i], f) == Some(mappings)
    {
      var m := f(rows[i]);
      assert rows[..i + 1][..i] == rows[..i];
      if m.None? {
        MapRowsPointwise(rows, f);
        return None;
      }
      mappings := mappings + [m.value];
      i := i + 1;
    }
    assert rows[..i] == rows;
    r := Some(mappings);
  }

  // ---------------------------------------------------------------- chunks

  /** The rows of a sequence of chunks, in order. */
  function Flatten(chunks: seq<seq<Row>>): seq<Row> {
    if chunks == [] then [] else Flatten(chunks[..|chunks| - 1]) + chunks[|chunks| - 1]
  }

  lemma {:induction false} FlattenCons(c: seq<Row>, rest: seq<seq<Row>>)
    ensures Flatten([c] + rest) == c + Flatten(rest)
    decreases |rest|
  {
    if rest != [] {
      var last := rest[|rest| - 1];
      assert ([c] + rest)[..|rest|] == [c] + rest[..|rest| - 1];
      FlattenCons(c, rest[..|rest| - 1]);
    }
  }

  /** `read_csv(..., chunksize=size)`: consecutive non-empty slices of at most `size` rows that
      together are the file. */
  function Chunks(rows: seq<Row>, size: nat): (r: seq<seq<Row>>)
    requires size >= 1
    ensures Flatten(r) == rows
    ensures forall k :: 0 <= k < |r| ==> 1 <= |r[k]| <= size
    decreases |rows|
  {
    if rows == [] then []
    else if |rows| <= size then
      assert Flatten([rows]) == Flatten([]) + rows;
      [rows]
    else
      var rest := Chunks(rows[size..], size);
      FlattenCons(rows[..size], rest);
      assert rows == rows[..size] + rows[size..];
      [rows[..size]] + rest
  }

  /** A call of the progress callback: processed and total rows (the message is text). */
  datatype ProgressEvent = ProgressEvent(processed: nat, total: nat)

  /** The state the chunk loop has built: the committed rows, the reported progress, and
      whether a chunk raised (which ends the loop). */
  datatype Progress = Progress(inserted: seq<Mapping>, events: seq<ProgressEvent>, failed: bool)

  /** The chunk loop as a left fold. A chunk that raises is rolled back and ends the import;
      the chunks before it stay committed. `totalRows` is 0 for CSV, the row count for Excel. */
  function RunChunks(chunks: seq<seq<Row>>, f: Row -> Option<Mapping>, totalRows: nat): (r: Progress)
    ensures |r.events| <= |chunks|
    decreases |chunks|
  {
    if chunks == [] then Progress([], [], false)
    else
      var p := RunChunks(chunks[..|chunks| - 1], f, totalRows);
      if p.failed then p
      else
        match MapRows(chunks[|chunks| - 1], f)
        case None => p.(failed := true)
        case Some(m) =>
          if m == [] then p
          else
            var count := |p.inserted| + |m|;
            Progress(p.inserted + m,
                     p.events + [ProgressEvent(count, if totalRows > 0 then totalRows else count)],
                     false)
  }

  /** Mapping a concatenation maps each part, and raises exactly when one part raises. */
  lemma {:induction false} MapRowsConcat(a: seq<Row>, b: seq<Row>, f: Row -> Option<Mapping>)
    ensures MapRows(a + b, f)
            == if MapRows(a, f).Some? && MapRows(b, f).Some?
               then Some(MapRows(a, f).value + MapRows(b, f).value)
               else None
    decreases |b|
  {
    if b == [] {
      assert a + b == a;
      assert MapRows(b, f) == Some([]);
      if MapRows(a, f).Some? {
        assert MapRows(a, f).value + [] == MapRows(a, f).value;
      }
    } else {
      var init := b[..|b| - 1];
      var last := b[|b| - 1];
      assert (a + b)[..|a + b| - 1] == a + init;
      assert (a + b)[|a + b| - 1] == last;
      MapRowsConcat(a, init, f);
      if MapRows(a, f).Some? && MapRows(init, f).Some? && f(last).Some? {
        var x, y, m := MapRows(a, f).value, MapRows(init, f).value, f(last).value;
        assert (x + y) + [m] == x + (y + [m]);
      }
    }
  }

  /** When no chunk raises, every row of the file is committed, mapped in order, so the final
      count is the number of rows. */
  lemma {:induction false} RunChunksCommitsEveryRow(chunks: seq<seq<Row>>, f: Row -> Option<Mapping>,
                                                    totalRows: nat)
    requires MapRows(Flatten(chunks), f).Some?
    ensures var r := RunChunks(chunks, f, totalRows);
            !r.failed && Some(r.inserted) == MapRows(Flatten(chunks), f)
    decreases |chunks|
  {
    if chunks != [] {
      var init := chunks[..|chunks| - 1];
      var last := chunks[|chunks| - 1];
      assert Flatten(chunks) == Flatten(init) + last;
      MapRowsConcat(Flatten(init), last, f);
      RunChunksCommitsEveryRow(init, f, totalRows);
      var p := RunChunks(init, f, totalRows);
      assert p.inserted + [] == p.inserted;
    }
  }

  /** A chunk that raises keeps what the earlier chunks committed: the result is that of a
      run over the chunks before the first one that raises. */
  lemma {:induction false} RunChunksKeepsCommittedChunks(chunks: seq<seq<Row>>, f: Row -> Option<Mapping>,
                                                         totalRows: nat)
    requires RunChunks(chunks, f, totalRows).failed
    ensures exists j :: && 0 <= j < |chunks| && MapRows(chunks[j], f).None?
                        && var p := RunChunks(chunks[..j], f, totalRows);
                           !p.failed && RunChunks(chunks, f, totalRows) == p.(failed := true)
    decreases |chunks|
  {
    var init := chunks[..|chunks| - 1];
    var p := RunChunks(init, f, totalRows);
    if p.failed {
      RunChunksKeepsCommittedChunks(init, f, totalRows);
      var j :| && 0 <= j < |init| && MapRows(init[j], f).None?
               && var q := RunChunks(init[..j], f, totalRows);
                  !q.failed && p == q.(failed := true);
      assert init[..j] == chunks[..j];
      assert init[j] == chunks[j];
    } else {
      assert chunks[..|chunks| - 1] == init;
    }
  }

  /** One more chunk after a failure, or after a chunk that raises, leaves the run failed
      with what it had committed. */
  lemma RunChunksStepFails(chunks: seq<seq<Row>>, i: nat, f: Row -> Option<Mapping>, totalRows: nat)
    requires i < |chunks|
    requires RunChunks(chunks[..i], f, totalRows).failed || MapRows(chunks[i], f).None?
    ensures RunChunks(chunks[..i + 1], f, totalRows)
            == RunChunks(chunks[..i], f, totalRows).(failed := true)
  {
    assert chunks[..i + 1][..i] == chunks[..i];
  }

  /** One more chunk that maps: an empty one changes nothing, any other is appended with one
      progress call carrying the new count. */
  lemma RunChunksStepMaps(chunks: seq<seq<Row>>, i: nat, f: Row -> Option<Mapping>, totalRows: nat)
    requires i < |chunks|
    requires !RunChunks(chunks[..i], f, totalRows).failed && MapRows(chunks[i], f).Some?
    ensures var p, q := RunChunks(chunks[..i], f, totalRows), RunChunks(chunks[..i + 1], f, totalRows);
            var m := MapRows(chunks[i], f).value;
            && !q.failed
            && q.inserted == p.inserted + m
            && q.events == if m == [] then p.events
                           else p.events + [ProgressEvent(|q.inserted|, if totalRows > 0 then totalRows
                                                                         else |q.inserted|)]
  {
    assert chunks[..i + 1][..i] == chunks[..i];
  }

  /** The progress reported by the chunk loop only grows, and the processed count never
      exceeds the total when the total is 0 (CSV, where total and processed are equal) or at
      least the number of rows (Excel). */
  lemma {:induction false} ProgressIsMonotone(chunks: seq<seq<Row>>, f: Row -> Option<Mapping>,
                                              totalRows: nat)
    ensures var ev := RunChunks(chunks, f, totalRows).events;
            && (forall i, j :: 0 <= i < j < |ev| ==> ev[i].processed < ev[j].processed)
            && (forall i :: 0 <= i < |ev| ==> 0 < ev[i].processed <= |RunChunks(chunks, f, totalRows).inserted|)
            && (totalRows == 0 ==> forall i :: 0 <= i < |ev| ==> ev[i].processed == ev[i].total)
            && (totalRows > 0 ==> forall i :: 0 <= i < |ev| ==> ev[i].total == totalRows)
    decreases |chunks|
  {
    if chunks != [] {
      var n := |chunks| - 1;
      ProgressIsMonotone(chunks[..n], f, totalRows);
      if RunChunks(chunks[..n], f, totalRows).failed || MapRows(chunks[n], f).None? {
        RunChunksStepFails(chunks, n, f, totalRows);
      } else {
        RunChunksStepMaps(chunks, n, f, totalRows);
      }
      assert chunks[..n + 1] == chunks;
    }
  }

  /** The inserted rows never outnumber the file's rows. */
  lemma {:induction false} InsertedAtMostRows(chunks: seq<seq<Row>>, f: Row -> Option<Mapping>,
                                              totalRows: nat)
    ensures |RunChunks(chunks, f, totalRows).inserted| <= |Flatten(chunks)|
    decreases |chunks|
  {
    if chunks != [] {
      var n := |chunks| - 1;
      InsertedAtMostRows(chunks[..n], f, totalRows);
      if RunChunks(chunks[..n], f, totalRows).failed || MapRows(chunks[n], f).None? {
        RunChunksStepFails(chunks, n, f, totalRows);
      } else {
        RunChunksStepMaps(chunks, n, f, totalRows);
      }
      assert chunks[..n + 1] == chunks;
    }
  }

  /** The chunks the reader yields: slices of `chunkSize` rows for CSV, the whole sheet as one
      frame for Excel. */
  function Reader(fmt: Format, rows: seq<Row>, chunkSize: int): seq<seq<Row>>
    requires fmt == Csv ==> chunkSize >= 1
  {
    if fmt == Csv then Chunks(rows, chunkSize) else [rows]
  }

  /** The callback calls before the first chunk. */
  function StartEvents(fmt: Format, rows: seq<Row>): seq<ProgressEvent> {
    if fmt == Csv then [ProgressEvent(0, 0)] else [ProgressEvent(0, 0), ProgressEvent(0, |rows|)]
  }

  /** `import_csv_to_db`. Returns whether the import succeeded, the count of inserted rows,
      the rows committed (in order) and the progress callback's calls (none when there is no
      callback). An unsupported name, or a chunk size pandas refuses, fails before any row is
      read; a row whose date parse raises rolls back its chunk and ends the import. */
  method ImportCsvToDb(path: string, rows: seq<Row>, chunkSize: int, parse: string -> DateParse,
                       hasCallback: bool)
    returns (ok: bool, count: nat, inserted: seq<Mapping>, events: seq<ProgressEvent>)
    ensures count == |inserted|
    ensures FormatOf(path).None? ==> !ok && inserted == [] && events == []
    ensures FormatOf(path) == Some(Csv) && chunkSize < 1 ==>
              !ok && inserted == [] && events == (if hasCallback then [ProgressEvent(0, 0)] else [])
    ensures FormatOf(path).Some? && (FormatOf(path) == Some(Csv) ==> chunkSize >= 1) ==>
              var fmt := FormatOf(path).value;
              var r := RunChunks(Reader(fmt, rows, chunkSize), RowMapper(parse),
                                 if fmt == Xlsx then |rows| else 0);
              && ok == !r.failed
              && inserted == r.inserted
              && events == (if hasCallback then StartEvents(fmt, rows) + r.events else [])
  {
    var f := RowMapper(parse);
    var fmt := FormatOf(path);
    events := [];
    if fmt.None? {
      return false, 0, [], [];
    }
    if hasCallback {
      events := [ProgressEvent(0, 0)];
    }
    var chunks: seq<seq<Row>>;
    var totalRows: nat := 0;
    if fmt == Some(Csv) {
      if chunkSize < 1 {
        return false, 0, [], events;
      }
      chunks := Chunks(rows, chunkSize);
    } else {
      totalRows := |rows|;
      if hasCallback {
        events := events + [ProgressEvent(0, totalRows)];
      }
      chunks := [rows];
    }
    var more: seq<ProgressEvent>;
    ok, count, inserted, more := CommitChunks(chunks, f, totalRows, hasCallback);
    events := events + more;
  }

  /** The chunk loop of `import_csv_to_db`: each chunk is mapped row by row, then committed
      with one progress call (when there is a callback) unless it is empty; the first chunk
      that raises ends the loop. Returns what the loop committed and the calls it made. */
  method CommitChunks(chunks: seq<seq<Row>>, f: Row -> Option<Mapping>, totalRows: nat,
                      hasCallback: bool)
    returns (ok: bool, count: nat, inserted: seq<Mapping>, events: seq<ProgressEvent>)
    ensures var r := RunChunks(chunks, f, totalRows);
            && ok == !r.failed && inserted == r.inserted && count == |inserted|
            && events == (if hasCallback then r.events else [])
  {
    inserted := [];
    events := [];
    count := 0;
    var i := 0;
    while i < |chunks|
      invariant 0 <= i <= |chunks|
      invariant var p := RunChunks(chunks[..i], f, totalRows);
                && !p.failed && inserted == p.inserted && count == |inserted|
                && events == (if hasCallback then p.events else [])
    {
      var mappings := MapChunk(chunks[i], f);
      if mappings.None? {
        RunChunksStepFails(chunks, i, f, totalRows);
        RunChunksStaysFailed(chunks, i + 1, f, totalRows);
        return false, count, inserted, events;
      }
      RunChunksStepMaps(chunks, i, f, totalRows);
      if mappings.value != [] {
        inserted := inserted + mappings.value;
        count := count + |mappings.value|;
        if hasCallback {
          events := events + [ProgressEvent(count, if totalRows > 0 then totalRows else count)];
        }
      }
      i := i + 1;
    }
    assert chunks[..i] == chunks;
    ok := true;
  }

  /** Once a chunk has raised, later chunks change nothing. */
  lemma {:induction false} RunChunksStaysFailed(chunks: seq<seq<Row>>, n: nat, f: Row -> Option<Mapping>,
                                                totalRows: nat)
    requires n <= |chunks| && RunChunks(chunks[..n], f, totalRows).failed
    ensures RunChunks(chunks, f, totalRows) == RunChunks(chunks[..n], f, totalRows)
    decreases |chunks| - n
  {
    if n < |chunks| {
      assert chunks[..n + 1][..n] == chunks[..n];
      RunChunksStaysFailed(chunks, n + 1, f, totalRows);
    } else {
      assert chunks[..n] == chunks;
    }
  }

  /** A successful CSV import inserts every row of the file and reports the final count as
      both processed and total. */
  lemma CsvImportCountsEveryRow(rows: seq<Row>, chunkSize: int, f: Row -> Option<Mapping>)
    requires chunkSize >= 1 && MapRows(rows, f).Some?
    ensures var r := RunChunks(Reader(Csv, rows, chunkSize), f, 0);
            && !r.failed && |r.inserted| == |rows|
            && (r.events != [] ==> r.events[|r.events| - 1] == ProgressEvent(|rows|, |rows|))
  {
    var chunks := Reader(Csv, rows, chunkSize);
    RunChunksCommitsEveryRow(chunks, f, 0);
    LastEventIsFinalCount(chunks, f, 0);
  }

  /** The last progress call carries the final count. */
  lemma {:induction false} LastEventIsFinalCount(chunks: seq<seq<Row>>, f: Row -> Option<Mapping>,
                                                 totalRows: nat)
    ensures var r := RunChunks(chunks, f, totalRows);
            r.events != [] ==> r.events[|r.events| - 1].processed == |r.inserted|
                               && (totalRows == 0 ==> r.events[|r.events| - 1].total == |r.inserted|)
    decreases |chunks|
  {
    if chunks != [] {
      var n := |chunks| - 1;
      LastEventIsFinalCount(chunks[..n], f, totalRows);
      if RunChunks(chunks[..n], f, totalRows).failed || MapRows(chunks[n], f).None? {
        RunChunksStepFails(chunks, n, f, totalRows);
      } else {
        RunChunksStepMaps(chunks, n, f, totalRows);
      }
      assert chunks[..n + 1] == chunks;
    }
  }

  // ---------------------------------------------------------------- the bulk loader's file

  /** The columns of each line the bulk loader writes, in table order. */
  /** The number of columns of the bulk file. */
  const BULK_WIDTH: nat := 24

  /** Column `j` of the bulk file, in the order of the LOAD DATA column list (the status is last). */
  function BulkColumn(j: nat): string
    requires j < BULK_WIDTH
  {
    match j
    case 0 => "eRetailer"
    case 1 => "online_store"
    case 2 => "category"
    case 3 => "brand"
    case 4 => "is_competitor"
    case 5 => "product_description"
    case 6 => "url"
    case 7 => "sku_url"
    case 8 => "sku"
    case 9 => "sku_id"
    case 10 => "retailer_product_code"
    case 11 => "latest_review_date"
    case 12 => "image_url"
    case 13 => "total"
    case 14 => "total_comments"
    case 15 => "last_month_total"
    case 16 => "last_total_comments"
    case 17 => "note"
    case 18 => "prod_attributes1"
    case 19 => "prod_attributes2"
    case 20 => "prod_attributes3"
    case 21 => "prod_attributes4"
    case 22 => "prod_attributes5"
    case _ => "status"
  }


  /** The field text MySQL's LOAD DATA reads as NULL. */
  const NULL_SENTINEL: string := "\\N"

  /** The bulk loader's own `safe_value`: None, '' and a float NaN become the sentinel, any
      other value its `str`. */
  function BulkValue(c: Cell): (r: string)
    ensures c.Null? || c.NaN? || c == Text("") ==> r == NULL_SENTINEL
    ensures !(c.Null? || c.NaN? || c == Text("")) ==> r == CellStr(c)
  {
    if c.Null? || c == Text("") || c.NaN? then NULL_SENTINEL else CellStr(c)
  }

  /** One line of the prepared file: the 24 fields of a row. */
  function BulkLine(row: Row): (line: seq<string>)
    ensures |line| == BULK_WIDTH
    ensures forall j :: 0 <= j < BULK_WIDTH ==> line[j] == BulkValue(Get(row, BulkColumn(j)))
  {
    seq(BULK_WIDTH, j requires 0 <= j < BULK_WIDTH => BulkValue(Get(row, BulkColumn(j))))
  }

  /** The projection of `import_csv_to_db_ultra_fast`: `None` for an unsupported name, else
      one line per row, written in a loop. */
  method PrepareBulkRows(path: string, rows: seq<Row>) returns (r: Option<seq<seq<string>>>)
    ensures r.None? <==> FormatOf(path).None?
    ensures r.Some? ==> |r.value| == |rows|
                        && forall i :: 0 <= i < |rows| ==> r.value[i] == BulkLine(rows[i])
  {
    if FormatOf(path).None? {
      return None;
    }
    var lines := [];
    var i := 0;
    while i < |rows|
      invariant 0 <= i <= |rows| && |lines| == i
      invariant forall k :: 0 <= k < i ==> lines[k] == BulkLine(rows[k])
    {
      var line := [];
      var j := 0;
      while j < BULK_WIDTH
        invariant 0 <= j <= BULK_WIDTH && |line| == j
        invariant forall k :: 0 <= k < j ==> line[k] == BulkValue(Get(rows[i], BulkColumn(k)))
      {
        line := line + [BulkValue(Get(rows[i], BulkColumn(j)))];
        j := j + 1;
      }
      lines := lines + [line];
      i := i + 1;
    }
    r := Some(lines);
  }

  /** How LOAD DATA reads a field back: the sentinel is NULL, other text is kept (escape
      sequences other than the sentinel are not modelled). */
  function LoadField(field: string): (v: Option<string>)
    ensures v.None? <==> field == NULL_SENTINEL
    ensures v.Some? ==> v.value == field
  {
    if field == NULL_SENTINEL then None else Some(field)
  }

  /** The line terminator `csv.writer` writes by default; the file is opened with
      `newline=''`, so it reaches the file as it is. */
  const WRITER_TERMINATOR: string := "\r\n"

  /** The terminator of `LINES TERMINATED BY '\n'`, the only one the loader splits on. */
  const LOADER_TERMINATOR: string := "\n"

  /** The fields LOAD DATA reads from a line written with terminator `term` when it splits
      lines at the final '\n' of that terminator: the fields before the last are read as
      written, and whatever precedes that '\n' in the terminator stays at the end of the last
      field. No field holds ',', '"' or a line break (the writer's quoting is not modelled). */
  function ReadBack(line: seq<string>, term: string): (fields: seq<string>)
    requires line != [] && term != [] && term[|term| - 1] == '\n'
    ensures |fields| == |line|
    ensures forall j :: 0 <= j < |line| - 1 ==> fields[j] == line[j]
    ensures fields[|line| - 1] == line[|line| - 1] + term[..|term| - 1]
  {
    line[..|line| - 1] + [line[|line| - 1] + term[..|term| - 1]]
  }

  /** A writer that ended its lines with the loader's own terminator would hand every field
      over unchanged. */
  lemma LoaderTerminatorKeepsFields(line: seq<string>)
    requires line != []
    ensures ReadBack(line, LOADER_TERMINATOR) == line
  {
    assert LOADER_TERMINATOR[..0] == "";
    assert line[|line| - 1] + "" == line[|line| - 1];
    assert line == line[..|line| - 1] + [line[|line| - 1]];
  }

  /** The field of a mapping for bulk column `j`, for the 22 columns both importers pass
      through their `safe_value` (all but `latest_review_date` and `status`). */
  function MappingField(m: Mapping, j: nat): Option<string>
    requires j < 23 && j != 11
  {
    match j
    case 0 => m.eRetailer
    case 1 => m.onlineStore
    case 2 => m.category
    case 3 => m.brand
    case 4 => m.isCompetitor
    case 5 => m.productDescription
    case 6 => m.url
    case 7 => m.skuUrl
    case 8 => m.sku
    case 9 => m.skuId
    case 10 => m.retailerProductCode
    case 12 => m.imageUrl
    case 13 => m.total
    case 14 => m.totalComments
    case 15 => m.lastMonthTotal
    case 16 => m.lastTotalComments
    case 17 => m.note
    case 18 => m.attrs.a1
    case 19 => m.attrs.a2
    case 20 => m.attrs.a3
    case 21 => m.attrs.a4
    case _ => m.attrs.a5
  }

  /** One cell of a column both importers pass through `safe_value` ends up the same, unless
      its text is the sentinel itself. */
  lemma BulkCellAgreesWithImport(c: Cell)
    requires CellStr(c) != NULL_SENTINEL || c.Null?
    ensures LoadField(BulkValue(c)) == SafeValue(c)
  {
    if c.Int? {
      assert CellStr(c)[0] != '\\';
    }
  }

  /** On the 22 columns other than the review date and the status, the bulk loader, reading
      the file as it is written, stores what the chunked importer inserts, unless a cell's text
      is the sentinel itself. */
  lemma BulkAgreesWithImport(row: Row, parse: string -> DateParse, j: nat)
    requires j < 23 && j != 11
    requires CellStr(Get(row, BulkColumn(j))) != NULL_SENTINEL || Get(row, BulkColumn(j)).Null?
    requires MapRow(row, parse).Some?
    ensures LoadField(ReadBack(BulkLine(row), WRITER_TERMINATOR)[j]) == MappingField(MapRow(row, parse).value, j)
  {
    var c := Get(row, BulkColumn(j));
    assert ReadBack(BulkLine(row), WRITER_TERMINATOR)[j] == BulkValue(c);
    BulkCellAgreesWithImport(c);
    MappingFieldIsSafeValue(row, parse, j);
  }

  /** Column `j` of a mapped row is the `safe_value` of the row's cell under that column. */
  lemma MappingFieldIsSafeValue(row: Row, parse: string -> DateParse, j: nat)
    requires j < 23 && j != 11
    requires MapRow(row, parse).Some?
    ensures MappingField(MapRow(row, parse).value, j) == SafeValue(Get(row, BulkColumn(j)))
  {
  }

  /** A text cell that reads `\N` is kept as text by the chunked importer and loaded as NULL
      by the bulk loader. */
  lemma SentinelTextDiffers()
    ensures SafeValue(Text(NULL_SENTINEL)) == Some(NULL_SENTINEL)
    ensures LoadField(BulkValue(Text(NULL_SENTINEL))).None?
  {
  }

  /** The status field, the last of the line, as the loader reads it from the file as written:
      the carriage return of the writer's terminator stays on it. */
  function WrittenStatus(row: Row): (st: Option<string>)
    ensures st == Some(BulkLine(row)[23] + "\r")
  {
    var field := ReadBack(BulkLine(row), WRITER_TERMINATOR)[23];
    assert WRITER_TERMINATOR[..1] == "\r";
    assert field[|field| - 1] == '\r' != NULL_SENTINEL[|NULL_SENTINEL| - 1];
    LoadField(field)
  }

  /** As written, a missing status is not loaded as NULL but as the sentinel followed by a
      carriage return, which the "Unlabeled" status filter does not list. */
  lemma WrittenMissingStatusIsNotUnlabeled(row: Row)
    requires "status" !in row
    ensures WrittenStatus(row) == Some(NULL_SENTINEL + "\r")
    ensures !LabelingQuery.StatusFilterMatches([UNLABELED], WrittenStatus(row))
  {
    assert (NULL_SENTINEL + "\r") != UNLABELED;
  }

  /** As written, a row loaded with the status Labeled carries "Labeled" and a carriage return,
      which `is_labeled` does not recognise. */
  lemma WrittenLabeledStatusIsNotLabeled(row: Row, s: Sample)
    requires Get(row, "status") == Text(LABELED) && s.status == WrittenStatus(row)
    ensures s.status == Some(LABELED + "\r")
    ensures !IsLabeled(s)
  {
    IsLabeledExactly(s);
    assert |LABELED + "\r"| == |LABELED| + 1;
    assert |HISTORICAL| != |LABELED| + 1 && |INCOMPLETE| != |LABELED| + 1;
  }

  /** With lines ending in the loader's terminator, a missing status is loaded as NULL instead
      of Unlabeled, and the "Unlabeled" status filter lists it like an imported one. */
  lemma BulkMissingStatusIsListedAsUnlabeled(row: Row, filter: seq<string>)
    requires "status" !in row && UNLABELED in filter
    ensures LoadField(ReadBack(BulkLine(row), LOADER_TERMINATOR)[23]).None?
    ensures LabelingQuery.StatusFilterMatches(filter, LoadField(ReadBack(BulkLine(row), LOADER_TERMINATOR)[23]))
  {
    LoaderTerminatorKeepsFields(BulkLine(row));
  }
}
