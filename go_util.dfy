/**
 * Helpers of the Go demo (go/util.go): printing an affected-row count,
 * printing records as a table with a per-column type dispatch, building
 * the parameter batches, and releasing records.
 */
module GoUtil {
  import opened Wrappers
  import opened Arrow
  import opened Flight
  import opened Bindings

  /** A decoded cell; the text formatting of each kind is not modelled. */
  datatype Cell = TimeCell(millis: int) | IntCell(n: int) | FloatCell(x: real)

  /** The column types the printer knows how to decode. */
  predicate Supported(t: DataType) {
    t.Timestamp? || t == Int8 || t == Int32 || t == Float32
  }

  /** One cell by the type switch: decoded for the four known types, otherwise the type it panics on. */
  function DecodeCell(c: Column, row: nat): (r: Result<Cell, DataType>)
    requires row < Length(c)
    ensures r.Success? <==> Supported(TypeOf(c))
    ensures r.Failure? ==> r.error == TypeOf(c)
  {
    match c
    case TimestampCol(_, v) => Success(TimeCell(v[row]))
    case Int8Col(v) => Success(IntCell(v[row]))
    case Int32Col(v) => Success(IntCell(v[row]))
    case Float32Col(v) => Success(FloatCell(v[row]))
    case _ => Failure(TypeOf(c))
  }

  predicate AllWellFormed(records: seq<Record>) {
    forall i :: 0 <= i < |records| ==> WellFormed(records[i].batch)
  }

  /** The first `n` cells of a row, left to right, stopping at the first unsupported column. */
  function RenderRow(b: Batch, row: nat, n: nat): Result<seq<Cell>, DataType>
    requires WellFormed(b) && row < b.numRows && n <= |b.columns|
  {
    if n == 0 then Success([])
    else match RenderRow(b, row, n - 1)
      case Failure(t) => Failure(t)
      case Success(cells) =>
        match DecodeCell(b.columns[n - 1], row)
        case Failure(t) => Failure(t)
        case Success(c) => Success(cells + [c])
  }

  /** The first `n` rows of a batch, top to bottom. */
  function RenderBatch(b: Batch, n: nat): Result<seq<seq<Cell>>, DataType>
    requires WellFormed(b) && n <= b.numRows
  {
    if n == 0 then Success([])
    else match RenderBatch(b, n - 1)
      case Failure(t) => Failure(t)
      case Success(rows) =>
        match RenderRow(b, n - 1, |b.columns|)
        case Failure(t) => Failure(t)
        case Success(cells) => Success(rows + [cells])
  }

  /** The rows of the first `n` records, record after record. */
  function RenderRecords(records: seq<Record>, n: nat): Result<seq<seq<Cell>>, DataType>
    requires AllWellFormed(records) && n <= |records|
  {
    if n == 0 then Success([])
    else match RenderRecords(records, n - 1)
      case Failure(t) => Failure(t)
      case Success(rows) =>
        var b := records[n - 1].batch;
        match RenderBatch(b, b.numRows)
        case Failure(t) => Failure(t)
        case Success(more) => Success(rows + more)
  }

  datatype Table = Table(header: seq<string>, rows: seq<seq<Cell>>)

  /** What `PrintRecords` produces: a table, a panic on an unsupported type, or nothing for no records. */
  datatype Printout = Printed(table: Table) | PanickedOn(dtype: DataType) | NothingPrinted

  /** A failure, once met, is the outcome of every longer prefix. */
  lemma {:induction false} RenderRecordsFailurePersists(records: seq<Record>, k: nat, n: nat)
    requires AllWellFormed(records) && k <= n <= |records|
    requires RenderRecords(records, k).Failure?
    ensures RenderRecords(records, n) == RenderRecords(records, k)
    decreases n - k
  {
    if k < n {
      RenderRecordsFailurePersists(records, k, n - 1);
    }
  }

  lemma {:induction false} RenderBatchFailurePersists(b: Batch, k: nat, n: nat)
    requires WellFormed(b) && k <= n <= b.numRows
    requires RenderBatch(b, k).Failure?
    ensures RenderBatch(b, n) == RenderBatch(b, k)
    decreases n - k
  {
    if k < n {
      RenderBatchFailurePersists(b, k, n - 1);
    }
  }

  lemma {:induction false} RenderRowFailurePersists(b: Batch, row: nat, k: nat, n: nat)
    requires WellFormed(b) && row < b.numRows && k <= n <= |b.columns|
    requires RenderRow(b, row, k).Failure?
    ensures RenderRow(b, row, n) == RenderRow(b, row, k)
    decreases n - k
  {
    if k < n {
      RenderRowFailurePersists(b, row, k, n - 1);
    }
  }

  /** A row renders exactly when every column type is supported, and then holds one decoded cell per column. */
  lemma {:induction false} RenderRowSpec(b: Batch, row: nat, n: nat)
    requires WellFormed(b) && row < b.numRows && n <= |b.columns|
    ensures RenderRow(b, row, n).Success? <==>
            forall j :: 0 <= j < n ==> Supported(TypeOf(b.columns[j]))
    ensures RenderRow(b, row, n).Success? ==>
            |RenderRow(b, row, n).value| == n &&
            forall j :: 0 <= j < n ==> DecodeCell(b.columns[j], row) == Success(RenderRow(b, row, n).value[j])
  {
    if n > 0 {
      RenderRowSpec(b, row, n - 1);
    }
  }

  /** A batch with rows renders exactly when all its column types are supported, one rendered row per row. */
  lemma {:induction false} RenderBatchSpec(b: Batch, n: nat)
    requires WellFormed(b) && n <= b.numRows
    ensures RenderBatch(b, n).Success? <==>
            n == 0 || forall j :: 0 <= j < |b.columns| ==> Supported(TypeOf(b.columns[j]))
    ensures RenderBatch(b, n).Success? ==>
            |RenderBatch(b, n).value| == n &&
            forall i :: 0 <= i < n ==> RenderRow(b, i, |b.columns|) == Success(RenderBatch(b, n).value[i])
  {
    if n > 0 {
      RenderBatchSpec(b, n - 1);
      RenderRowSpec(b, n - 1, |b.columns|);
    }
  }

  function TotalRows(records: seq<Record>, n: nat): nat
    requires n <= |records|
  {
    if n == 0 then 0 else TotalRows(records, n - 1) + records[n - 1].batch.numRows
  }

  /**
   * The printer panics exactly when some record with at least one row has a
   * column of a type it cannot decode; otherwise it prints one line per row
   * of every record.
   */
  lemma {:induction false} RenderRecordsSpec(records: seq<Record>, n: nat)
    requires AllWellFormed(records) && n <= |records|
    ensures RenderRecords(records, n).Success? <==>
            forall k, j :: 0 <= k < n && records[k].batch.numRows > 0 && 0 <= j < |records[k].batch.columns| ==>
                           Supported(TypeOf(records[k].batch.columns[j]))
    ensures RenderRecords(records, n).Success? ==> |RenderRecords(records, n).value| == TotalRows(records, n)
  {
    if n > 0 {
      RenderRecordsSpec(records, n - 1);
      var b := records[n - 1].batch;
      RenderBatchSpec(b, b.numRows);
    }
  }

  /** The table `PrintRecords` writes: header names from the first record's schema, then the rows. */
  function TableOf(records: seq<Record>): Result<Table, DataType>
    requires |records| > 0 && AllWellFormed(records)
  {
    match RenderRecords(records, |records|)
    case Success(rows) => Success(Table(Names(records[0].batch.schema), rows))
    case Failure(t) => Failure(t)
  }

  /** The innermost loop of `PrintRecords`: one row, column by column, through the type switch. */
  method RenderRowCells(b: Batch, row: nat) returns (r: Result<seq<Cell>, DataType>)
    requires WellFormed(b) && row < b.numRows
    ensures r == RenderRow(b, row, |b.columns|)
  {
    var cells: seq<Cell> := [];
    var colIndex := 0;
    while colIndex < |b.columns|
      invariant 0 <= colIndex <= |b.columns|
      invariant RenderRow(b, row, colIndex) == Success(cells)
    {
      var cell := DecodeCell(b.columns[colIndex], row);
      if cell.Failure? {
        RenderRowFailurePersists(b, row, colIndex + 1, |b.columns|);
        return Failure(cell.error);
      }
      cells := cells + [cell.value];
      colIndex := colIndex + 1;
    }
    r := Success(cells);
  }

  /** The middle loop of `PrintRecords`: the rows of one record, top to bottom. */
  method RenderBatchRows(b: Batch) returns (r: Result<seq<seq<Cell>>, DataType>)
    requires WellFormed(b)
    ensures r == RenderBatch(b, b.numRows)
  {
    var rows: seq<seq<Cell>> := [];
    var rowIndex := 0;
    while rowIndex < b.numRows
      invariant 0 <= rowIndex <= b.numRows
      invariant RenderBatch(b, rowIndex) == Success(rows)
    {
      var cells := RenderRowCells(b, rowIndex);
      if cells.Failure? {
        RenderBatchFailurePersists(b, rowIndex + 1, b.numRows);
        return Failure(cells.error);
      }
      rows := rows + [cells.value];
      rowIndex := rowIndex + 1;
    }
    r := Success(rows);
  }

  /** The outer loop of `PrintRecords`: header from the first schema, then the rows of each record in turn. */
  method RenderTable(records: seq<Record>) returns (r: Result<Table, DataType>)
    requires |records| > 0 && AllWellFormed(records)
    ensures r == TableOf(records)
  {
    var header := Names(records[0].batch.schema);
    var rows: seq<seq<Cell>> := [];
    var k := 0;
    while k < |records|
      invariant 0 <= k <= |records|
      invariant RenderRecords(records, k) == Success(rows)
    {
      var more := RenderBatchRows(records[k].batch);
      if more.Failure? {
        RenderRecordsFailurePersists(records, k + 1, |records|);
        return Failure(more.error);
      }
      rows := rows + more.value;
      k := k + 1;
    }
    r := Success(Table(header, rows));
  }

  /** Releases each record once, in order. */
  method ReleaseRecords(mem: Memory, records: seq<Record>)
    requires DistinctIds(records) && AllLive(mem.refs, records)
    modifies mem
    ensures mem.refs == ReleasedAll(old(mem.refs), IdSet(records))
  {
    for i := 0 to |records|
      invariant mem.refs == ReleasedAll(old(mem.refs), IdSet(records[..i]))
    {
      var id := records[i].id;
      assert id !in IdSet(records[..i]);
      ReleasedAllStep(old(mem.refs), IdSet(records[..i]), id);
      mem.Release(id);
      assert IdSet(records[..i + 1]) == IdSet(records[..i]) + {id};
    }
    assert records[..|records|] == records;
  }

  /**
   * Prints the table and, on every path after the emptiness check (the
   * panic included, since the release is deferred), releases each record
   * once. The table writer holds its rows until the final flush, so a
   * panic normally prints nothing; what it may already have passed through
   * is not modelled.
   */
  method PrintRecords(mem: Memory, records: seq<Record>) returns (r: Printout)
    requires AllWellFormed(records) && DistinctIds(records) && AllLive(mem.refs, records)
    modifies mem
    ensures records == [] ==> r == NothingPrinted && mem.refs == old(mem.refs)
    ensures records != [] ==>
      mem.refs == ReleasedAll(old(mem.refs), IdSet(records)) &&
      r == match TableOf(records) case Success(t) => Printed(t) case Failure(d) => PanickedOn(d)
  {
    if |records| == 0 {
      return NothingPrinted;
    }
    var table := RenderTable(records);
    ReleaseRecords(mem, records);
    r := match table case Success(t) => Printed(t) case Failure(d) => PanickedOn(d);
  }

  /**
   * What `PrintAffectedRows` does: print the count, panic on no records, or
   * panic inside the lookup (a missing column or row, or a first column that
   * is not Int64).
   */
  datatype CountPrintout = PrintedCount(count: i64) | PanickedEmpty | PanickedLookup(failure: Lookup)

  /**
   * Panics on no records; otherwise reads the count by the server's
   * convention (panicking if it is not there) and releases every record
   * once, panic or not, since the release is deferred.
   */
  method PrintAffectedRows(mem: Memory, records: seq<Record>) returns (r: CountPrintout)
    requires DistinctIds(records) && AllLive(mem.refs, records)
    modifies mem
    ensures records == [] ==> r == PanickedEmpty && mem.refs == old(mem.refs)
    ensures records != [] ==> mem.refs == ReleasedAll(old(mem.refs), IdSet(records))
    ensures records != [] ==>
      r == match AffectedRows(Batches(records)) case Rows(n) => PrintedCount(n) case other => PanickedLookup(other)
  {
    if |records| == 0 {
      return PanickedEmpty;
    }
    var lookup := AffectedRows(Batches(records));
    ReleaseRecords(mem, records);
    r := match lookup case Rows(n) => PrintedCount(n) case other => PanickedLookup(other);
  }

  function Batches(records: seq<Record>): (bs: seq<Batch>)
    ensures |bs| == |records| && forall i :: 0 <= i < |records| ==> bs[i] == records[i].batch
  {
    if records == [] then [] else [records[0].batch] + Batches(records[1..])
  }

  /** Appends the five timestamps one by one, then builds the four columns and the record. */
  method MakeInsertBinding() returns (b: Batch)
    ensures IsInsertBinding(b) && WellFormed(b)
  {
    var tsData := InsertTimestamps();
    var tsBuilder: seq<i64> := [];
    for i := 0 to |tsData|
      invariant tsBuilder == tsData[..i]
    {
      tsBuilder := tsBuilder + [tsData[i]];
    }
    assert tsBuilder == tsData;
    var sidBuilder := InsertSids;
    var valueBuilder := InsertValues;
    var flagBuilder := InsertFlags;
    var columns := [TimestampCol(TimeZone, tsBuilder), Int32Col(sidBuilder),
                    Float32Col(valueBuilder), Int8Col(flagBuilder)];
    b := Batch(InsertSchema, columns, |tsData|);
    InsertBindingWellFormed(b);
  }

  /** One nullable Int32 column named `sid` holding `sid` in its single row. */
  method MakeQueryBinding(sid: i32) returns (b: Batch)
    ensures WellFormed(b) && b.numRows == 1
    ensures b.schema == [Field("sid", Int32, true)]
    ensures b.columns == [Int32Col([sid])]
  {
    var sidBuilder: seq<i32> := [sid];
    var sidArray := Int32Col(sidBuilder);
    b := Batch([Field("sid", Int32, true)], [sidArray], 1);
  }

  /** Three `sid` columns holding 1, 2 and 3 in one row; the argument is not used. */
  method MakeMultiBinding(sids: seq<i32>) returns (b: Batch)
    ensures WellFormed(b) && b.numRows == 1
    ensures b.schema == [Field("sid", Int32, true), Field("sid", Int32, true), Field("sid", Int32, true)]
    ensures b.columns == [Int32Col([1]), Int32Col([2]), Int32Col([3])]
  {
    var sidBuilder: seq<i32> := [1];
    var sidArray1 := Int32Col(sidBuilder);
    sidBuilder := [2];
    var sidArray2 := Int32Col(sidBuilder);
    sidBuilder := [3];
    var sidArray3 := Int32Col(sidBuilder);
    var field := Field("sid", Int32, true);
    b := Batch([field, field, field], [sidArray1, sidArray2, sidArray3], 1);
  }
}
