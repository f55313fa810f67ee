/**
 * The parameter batch both the Go and the Rust demo bind to their prepared
 * INSERT: five rows of (ts, sid, value, flag), with timestamps at five-minute
 * intervals on 2024-09-02 from 10:00 at UTC+08:00.
 */
module Bindings {
  import opened Arrow

  /** Days from 1970-01-01 to the given proleptic Gregorian date. */
  function DaysFromCivil(year: int, month: int, day: int): int
    requires 1 <= month <= 12
  {
    var y := if month <= 2 then year - 1 else year;
    var era := y / 400;
    var yoe := y % 400;
    var doy := (153 * (if month > 2 then month - 3 else month + 9) + 2) / 5 + day - 1;
    var doe := yoe * 365 + yoe / 4 - yoe / 100 + doy;
    era * 146097 + doe - 719468
  }

  /** Milliseconds since the Unix epoch of a wall-clock time at a fixed UTC offset. */
  function EpochMillis(year: int, month: int, day: int, hour: int, minute: int, second: int,
                       offsetSeconds: int): int
    requires 1 <= month <= 12
  {
    ((DaysFromCivil(year, month, day) * 86400 + hour * 3600 + minute * 60 + second) - offsetSeconds) * 1000
  }

  /** UTC+08:00, the offset of Asia/Shanghai in 2024 (no daylight saving). */
  const ShanghaiOffset: int := 8 * 3600

  const TimeZone: string := "Asia/Shanghai"

  /** The minutes past 10:00 of the five rows. */
  const InsertMinutes: seq<int> := [0, 5, 10, 15, 20]

  function InsertTimestamp(minute: int): int {
    EpochMillis(2024, 9, 2, 10, minute, 0, ShanghaiOffset)
  }

  /** The first row is 2024-09-02T02:00:00Z. */
  lemma FirstInsertTimestamp()
    ensures InsertTimestamp(0) == 1_725_242_400_000
  {
    assert DaysFromCivil(2024, 9, 2) == 19968;
  }

  /** Minutes apart on one day at one offset means 60000 milliseconds per minute apart. */
  lemma MinutesApart(minute: int, k: int)
    ensures InsertTimestamp(minute + k) - InsertTimestamp(minute) == k * 60000
  {
  }

  /** The five timestamps as the builders store them (i64 milliseconds). */
  function InsertTimestamps(): (ts: seq<i64>)
    ensures |ts| == |InsertMinutes| == 5
    ensures forall i :: 0 <= i < 5 ==> ts[i] == InsertTimestamp(InsertMinutes[i])
    ensures ts[0] == 1_725_242_400_000
    ensures forall i :: 0 <= i < 4 ==> ts[i + 1] as int - ts[i] as int == 300_000
  {
    FirstInsertTimestamp();
    MinutesApart(0, 5);
    MinutesApart(5, 5);
    MinutesApart(10, 5);
    MinutesApart(15, 5);
    [InsertTimestamp(0), InsertTimestamp(5), InsertTimestamp(10), InsertTimestamp(15), InsertTimestamp(20)]
  }

  const InsertSids: seq<i32> := [1, 2, 3, 4, 5]
  const InsertValues: seq<real> := [12.5, 15.3, 9.8, 22.1, 30.0]
  const InsertFlags: seq<i8> := [0, 1, 0, 1, 0]

  /** `ts` is the only non-nullable field. */
  const InsertSchema: seq<Field> := [
    Field("ts", Timestamp(TimeZone), false),
    Field("sid", Int32, true),
    Field("value", Float32, true),
    Field("flag", Int8, true)
  ]

  /** The batch both demos bind: one column per field, five rows, the fixture values in order. */
  predicate IsInsertBinding(b: Batch) {
    && b.schema == InsertSchema
    && b.numRows == 5
    && b.columns == [TimestampCol(TimeZone, InsertTimestamps()), Int32Col(InsertSids),
                     Float32Col(InsertValues), Int8Col(InsertFlags)]
  }

  /** Such a batch is one Arrow accepts: four columns of matching types, all five rows long. */
  lemma InsertBindingWellFormed(b: Batch)
    requires IsInsertBinding(b)
    ensures WellFormed(b)
    ensures Names(b.schema) == ["ts", "sid", "value", "flag"]
    ensures forall i :: 0 <= i < |b.schema| ==> (b.schema[i].nullable <==> i != 0)
  {
  }
}
