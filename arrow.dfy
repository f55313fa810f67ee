/**
 * The Arrow columnar data the clients exchange with the server: typed
 * columns, schemas and record batches, plus the affected-rows convention
 * shared by the Go and Rust printers.
 */
module Arrow {
  import opened Wrappers

  type i8 = x: int | -0x80 <= x < 0x80
  type i32 = x: int | -0x8000_0000 <= x < 0x8000_0000
  type i64 = x: int | -0x8000_0000_0000_0000 <= x < 0x8000_0000_0000_0000

  /** The column types the clients distinguish; every other type is `Other`. */
  datatype DataType =
    | Timestamp(timeZone: string)   // millisecond unit
    | Int8
    | Int32
    | Int64
    | Float32
    | Other(name: string)

  /** A typed column. Float32 cells are modelled as reals; an `OtherCol` only has a length. */
  datatype Column =
    | TimestampCol(timeZone: string, millis: seq<i64>)
    | Int8Col(i8s: seq<i8>)
    | Int32Col(i32s: seq<i32>)
    | Int64Col(i64s: seq<i64>)
    | Float32Col(f32s: seq<real>)
    | OtherCol(name: string, length: nat)

  datatype Field = Field(name: string, dtype: DataType, nullable: bool)

  /** A record batch: a schema, one column per field and a row count. */
  datatype Batch = Batch(schema: seq<Field>, columns: seq<Column>, numRows: nat)

  function TypeOf(c: Column): DataType {
    match c
    case TimestampCol(tz, _) => Timestamp(tz)
    case Int8Col(_) => Int8
    case Int32Col(_) => Int32
    case Int64Col(_) => Int64
    case Float32Col(_) => Float32
    case OtherCol(name, _) => Other(name)
  }

  function Length(c: Column): nat {
    match c
    case TimestampCol(_, v) => |v|
    case Int8Col(v) => |v|
    case Int32Col(v) => |v|
    case Int64Col(v) => |v|
    case Float32Col(v) => |v|
    case OtherCol(_, n) => n
  }

  /**
   * What Arrow checks when a batch is built: one column per field, each of the
   * field's type, and every column exactly `numRows` long.
   */
  predicate WellFormed(b: Batch) {
    && |b.columns| == |b.schema|
    && (forall i :: 0 <= i < |b.columns| ==> TypeOf(b.columns[i]) == b.schema[i].dtype)
    && (forall i :: 0 <= i < |b.columns| ==> Length(b.columns[i]) == b.numRows)
  }

  /**
   * Arrow's checked batch constructor: it refuses a batch with no column
   * (there is then no row count to take), a column count that differs from
   * the field count, a column whose type is not its field's, and columns of
   * unequal length; the row count is the first column's length.
   */
  function TryNew(schema: seq<Field>, columns: seq<Column>): (r: Option<Batch>)
    ensures r.Some? ==> r.value.schema == schema && r.value.columns == columns && WellFormed(r.value)
    ensures r.None? <==> columns == [] || forall n: nat :: !WellFormed(Batch(schema, columns, n))
  {
    if columns == [] || |columns| != |schema| then None
    else
      var n := Length(columns[0]);
      if forall i :: 0 <= i < |columns| ==> TypeOf(columns[i]) == schema[i].dtype && Length(columns[i]) == n
      then Some(Batch(schema, columns, n))
      else None
  }

  function Names(schema: seq<Field>): (names: seq<string>)
    ensures |names| == |schema|
    ensures forall i :: 0 <= i < |schema| ==> names[i] == schema[i].name
  {
    if schema == [] then [] else [schema[0].name] + Names(schema[1..])
  }

  /** The outcome of reading the affected-row count out of a result. */
  datatype Lookup =
    | Rows(count: i64)
    | NoBatch
    | NoColumn
    | NotInt64(found: DataType)
    | NoRow

  /**
   * By the server's convention the affected-row count of a statement is the
   * Int64 value in row 0 of column 0 of the first batch.
   */
  function AffectedRows(batches: seq<Batch>): (r: Lookup)
    ensures r.Rows? <==>
      && |batches| > 0
      && |batches[0].columns| > 0
      && batches[0].columns[0].Int64Col?
      && |batches[0].columns[0].i64s| > 0
    ensures r.Rows? ==> r.count == batches[0].columns[0].i64s[0]
    ensures r == NoBatch <==> batches == []
    ensures r.NotInt64? ==>
      |batches| > 0 && |batches[0].columns| > 0 &&
      r.found == TypeOf(batches[0].columns[0]) && r.found != Int64
  {
    if batches == [] then NoBatch
    else if batches[0].columns == [] then NoColumn
    else match batches[0].columns[0]
      case Int64Col(v) => if v == [] then NoRow else Rows(v[0])
      case c => NotInt64(TypeOf(c))
  }
}
