/**
 * The Go client (go/client.go): a Flight SQL client plus the gRPC metadata
 * attached to every call, direct and prepared execution, and `doGet`,
 * which drains a record reader while keeping each record alive.
 */
module GoClient {
  import opened Wrappers
  import opened Arrow
  import opened Flight

  /** gRPC metadata: each key maps to a list of values. */
  type Headers = map<string, seq<string>>

  function AsciiLower(s: string): (r: string)
    ensures |r| == |s|
  {
    if s == [] then []
    else [if 'A' <= s[0] <= 'Z' then (s[0] as int + 32) as char else s[0]] + AsciiLower(s[1..])
  }

  lemma {:induction false} AsciiLowerOfLower(s: string)
    requires forall i :: 0 <= i < |s| ==> !('A' <= s[i] <= 'Z')
    ensures AsciiLower(s) == s
  {
    if s != [] {
      AsciiLowerOfLower(s[1..]);
    }
  }

  /** `metadata.MD` is a Go map, so every struct holding it shares one object. */
  class MD {
    var entries: Headers

    constructor (entries: Headers)
      ensures this.entries == entries
    {
      this.entries := entries;
    }

    method Copy() returns (c: MD)
      ensures fresh(c) && c.entries == entries
    {
      c := new MD(entries);
    }

    method Set(key: string, value: string)
      modifies this
      ensures entries == old(entries)[AsciiLower(key) := [value]]
    {
      entries := entries[AsciiLower(key) := [value]];
    }
  }

  /** The library's Flight SQL client: the channel, which records what the server receives, and its allocator. */
  class FlightSqlClient {
    const alloc: Memory
    var received: seq<Request<Headers>>

    constructor (alloc: Memory)
      ensures this.alloc == alloc && received == []
    {
      this.alloc := alloc;
      received := [];
    }

    method Send(op: Op, headers: Headers)
      modifies this
      ensures received == old(received) + [Request(op, headers)]
    {
      received := received + [Request(op, headers)];
    }

    /** Sends the bound parameters of a prepared statement; they must still be alive. */
    method SendParameters(statement: Handle, binding: Record, headers: Headers)
      requires binding.id in alloc.refs
      modifies this
      ensures received == old(received) + [Request(ExecutePreparedOp(statement, binding.batch), headers)]
    {
      received := received + [Request(ExecutePreparedOp(statement, binding.batch), headers)];
    }
  }

  /** A server-side prepared statement as the library holds it. */
  class PreparedStatement {
    const handle: Handle
    var parameters: Option<Record>

    constructor (handle: Handle)
      ensures this.handle == handle && parameters == None
    {
      this.handle := handle;
      parameters := None;
    }

    method SetParameters(binding: Record)
      modifies this
      ensures parameters == Some(binding)
    {
      parameters := Some(binding);
    }
  }

  /** Go's `([]arrow.Record, error)` returns, or a runtime panic. */
  datatype GoResult =
    | Returned(records: seq<Record>, err: Option<string>)
    | Panicked(reason: string)

  const IndexPanic := "runtime error: index out of range [0] with length 0"

  /** The effect of `doGet` for a given server reply, between two states of the allocator. */
  ghost predicate Fetched(fetch: Result<Stream<Record>, string>, r: GoResult,
                          before: map<BatchId, nat>, after: map<BatchId, nat>)
  {
    match fetch
    case Failure(e) => r == Returned([], Some("failed to perform DoGet: " + e)) && after == before
    case Success(s) => r == Returned(s.items, None) && after == Acquired(before, s.items)
  }

  /** The records a successful `DoGet` may allocate. */
  predicate CanFetch(refs: map<BatchId, nat>, fetch: Result<Stream<Record>, string>) {
    fetch.Success? ==> Allocatable(refs, fetch.value.items)
  }

  /**
   * `Client` is a struct: `inner` and `md` are references, copied by value
   * into every `DbClient`.
   */
  datatype Client = Client(inner: FlightSqlClient, md: MD) {

    /** The metadata every call attaches to its context: always this client's `md`. */
    function TimeoutContext(): (h: Headers)
      reads md
      ensures h == md.entries
    {
      md.entries
    }

    /** A new `DbClient` whose own `md` is a copy with `database` set; the receiver is untouched. */
    method UseDatabase(database: string) returns (d: DbClient)
      ensures d.client == this
      ensures fresh(d.md) && d.md.entries == old(md.entries)["database" := [database]]
      ensures md.entries == old(md.entries)
    {
      var copy := md.Copy();
      AsciiLowerOfLower("database");
      copy.Set("database", database);
      d := DbClient(this, copy);
    }

    method Execute(sql: string, reply: Result<FlightInfo, string>, fetch: Result<Stream<Record>, string>)
      returns (r: GoResult)
      requires CanFetch(inner.alloc.refs, fetch)
      modifies inner, inner.alloc
      ensures var sent := old(inner.received) + [Request(ExecuteOp(sql), md.entries)];
        match reply
        case Failure(e) =>
          r == Returned([], Some("failed to execute a sql: " + e)) &&
          inner.received == sent && inner.alloc.refs == old(inner.alloc.refs)
        case Success(info) =>
          if info.endpoints == [] then
            r == Panicked(IndexPanic) && inner.received == sent && inner.alloc.refs == old(inner.alloc.refs)
          else
            inner.received == sent + [Request(DoGetOp(info.endpoints[0].ticket), md.entries)] &&
            Fetched(fetch, r, old(inner.alloc.refs), inner.alloc.refs)
    {
      inner.Send(ExecuteOp(sql), TimeoutContext());
      if reply.Failure? {
        return Returned([], Some("failed to execute a sql: " + reply.error));
      }
      var endpoints := reply.value.endpoints;
      if |endpoints| == 0 {
        return Panicked(IndexPanic);
      }
      r := DoGet(endpoints[0].ticket, fetch);
    }

    method ExecuteUpdate(sql: string, reply: Result<i64, string>) returns (rows: i64, err: Option<string>)
      modifies inner
      ensures inner.received == old(inner.received) + [Request(ExecuteUpdateOp(sql), md.entries)]
      ensures reply.Failure? ==> rows == 0 && err == Some("failed to execute a sql: " + reply.error)
      ensures reply.Success? ==> rows == reply.value && err == None
    {
      inner.Send(ExecuteUpdateOp(sql), TimeoutContext());
      if reply.Failure? {
        return 0, Some("failed to execute a sql: " + reply.error);
      }
      return reply.value, None;
    }

    method Prepare(sql: string, reply: Result<Handle, string>) returns (stmt: PreparedStatement?, err: Option<string>)
      modifies inner
      ensures inner.received == old(inner.received) + [Request(PrepareOp(sql), md.entries)]
      ensures reply.Failure? ==> stmt == null && err == Some(reply.error)
      ensures reply.Success? ==> stmt != null && fresh(stmt) && stmt.handle == reply.value &&
                                 stmt.parameters == None && err == None
    {
      inner.Send(PrepareOp(sql), TimeoutContext());
      if reply.Failure? {
        return null, Some(reply.error);
      }
      stmt := new PreparedStatement(reply.value);
      err := None;
    }

    /**
     * Binds, executes, then releases the caller's reference to `binding`
     * exactly once, whatever the outcome; the binding is still alive when
     * the parameters go out.
     */
    method ExecutePrepared(stmt: PreparedStatement, binding: Record,
                           reply: Result<FlightInfo, string>, fetch: Result<Stream<Record>, string>)
      returns (r: GoResult)
      requires binding.id in inner.alloc.refs
      requires CanFetch(Released(inner.alloc.refs, binding.id), fetch)
      modifies inner, inner.alloc, stmt
      ensures stmt.parameters == Some(binding)
      ensures var sent := old(inner.received) + [Request(ExecutePreparedOp(stmt.handle, binding.batch), md.entries)];
              var released := Released(old(inner.alloc.refs), binding.id);
        match reply
        case Failure(e) =>
          r == Returned([], Some("failed to execute a prepared statement: " + e)) &&
          inner.received == sent && inner.alloc.refs == released
        case Success(info) =>
          if info.endpoints == [] then
            r == Panicked(IndexPanic) && inner.received == sent && inner.alloc.refs == released
          else
            inner.received == sent + [Request(DoGetOp(info.endpoints[0].ticket), md.entries)] &&
            Fetched(fetch, r, released, inner.alloc.refs)
    {
      var ctx := TimeoutContext();
      stmt.SetParameters(binding);
      inner.SendParameters(stmt.handle, binding, ctx);
      inner.alloc.Release(binding.id);
      if reply.Failure? {
        return Returned([], Some("failed to execute a prepared statement: " + reply.error));
      }
      var endpoints := reply.value.endpoints;
      if |endpoints| == 0 {
        return Panicked(IndexPanic);
      }
      r := DoGet(endpoints[0].ticket, fetch);
    }

    /** Only forwards the close; the library's answer is returned as is. */
    method ClosePrepared(stmt: PreparedStatement, reply: Option<string>) returns (err: Option<string>)
      modifies inner
      ensures inner.received == old(inner.received) + [Request(ClosePreparedOp(stmt.handle), md.entries)]
      ensures err == reply
    {
      inner.Send(ClosePreparedOp(stmt.handle), TimeoutContext());
      err := reply;
    }

    /**
     * Redeems a ticket: every record the reader yields is retained once and
     * appended in order, and the reader is released on exit, so the caller
     * ends up holding exactly one reference to each record. A stream that
     * fails part-way is not reported: the reader's error is never consulted.
     */
    method DoGet(ticket: Option<Ticket>, fetch: Result<Stream<Record>, string>) returns (r: GoResult)
      requires CanFetch(inner.alloc.refs, fetch)
      modifies inner, inner.alloc
      ensures inner.received == old(inner.received) + [Request(DoGetOp(ticket), md.entries)]
      ensures Fetched(fetch, r, old(inner.alloc.refs), inner.alloc.refs)
    {
      inner.Send(DoGetOp(ticket), TimeoutContext());
      if fetch.Failure? {
        return Returned([], Some("failed to perform DoGet: " + fetch.error));
      }
      var alloc := inner.alloc;
      ghost var base := alloc.refs;
      ghost var items := fetch.value.items;
      var reader := new RecordReader(alloc, fetch.value);
      var records: seq<Record> := [];
      while true
        invariant reader.Valid() && reader.alloc == alloc && reader.items == items
        invariant reader.pos == |records| && records == items[..reader.pos]
        invariant reader.holding == (reader.pos > 0)
        invariant alloc.refs == Holding(base, records, reader.holding)
        modifies reader, alloc
        decreases |items| - reader.pos
      {
        if reader.pos < |items| {
          NextIsFresh(base, items, reader.pos);
        }
        if reader.holding {
          DropHeld(base, records);
        }
        var more := reader.Next();
        if !more {
          break;
        }
        var record := reader.Current();
        alloc.Retain(record.id);
        TakeNext(base, records, record);
        records := records + [record];
      }
      reader.Release();
      r := Returned(records, None);
    }
  }

  /** The counts while `doGet` runs: one reference per collected record, plus the reader's on the last one. */
  ghost function Holding(base: map<BatchId, nat>, records: seq<Record>, holding: bool): map<BatchId, nat>
    requires holding ==> records != []
  {
    if holding then Acquired(base, records)[records[|records| - 1].id := 2] else Acquired(base, records)
  }

  /** The reader dropping its reference leaves the caller's single reference to the last record. */
  lemma DropHeld(base: map<BatchId, nat>, records: seq<Record>)
    requires records != []
    ensures records[|records| - 1].id in Holding(base, records, true)
    ensures Released(Holding(base, records, true), records[|records| - 1].id) == Holding(base, records, false)
  {
    var k := records[|records| - 1].id;
    assert k in IdSet(records);
    var m := Acquired(base, records);
    assert m[k] == 1;
    assert m[k := 2][k := 1] == m;
  }

  /** Allocating the next record and retaining it once gives the reader's and the caller's reference. */
  lemma TakeNext(base: map<BatchId, nat>, records: seq<Record>, r: Record)
    ensures Holding(base, records, false)[r.id := 1][r.id := 2] == Holding(base, records + [r], true)
  {
    AcquiredSnoc(base, records, r);
  }

  /** Records not yet read are not live: they are fresh and distinct from those already read. */
  lemma NextIsFresh(base: map<BatchId, nat>, items: seq<Record>, pos: nat)
    requires Allocatable(base, items) && pos < |items|
    ensures items[pos].id !in Acquired(base, items[..pos])
  {
    var id := items[pos].id;
    assert id !in IdSet(items[..pos]);
    AcquiredAt(base, items[..pos], id);
  }

  /**
   * What `UseDatabase` returns. Go promotes the embedded `Client`'s methods,
   * so every call on a `DbClient` runs on `client` and reads `client.md`;
   * the `md` field declared here is never read.
   */
  datatype DbClient = DbClient(client: Client, md: MD)

  /**
   * As written: selecting a database and then executing through the result
   * sends the parent's metadata, so no `database` header reaches the server
   * unless the parent already carried one.
   */
  method ExecuteAfterUseDatabase(c: Client, database: string, sql: string,
                                 reply: Result<FlightInfo, string>, fetch: Result<Stream<Record>, string>)
    returns (d: DbClient, r: GoResult)
    requires CanFetch(c.inner.alloc.refs, fetch)
    modifies c.inner, c.inner.alloc
    ensures "database" in d.md.entries && d.md.entries["database"] == [database]
    ensures |c.inner.received| > |old(c.inner.received)|
    ensures c.inner.received[|old(c.inner.received)|] == Request(ExecuteOp(sql), old(c.md.entries))
    ensures "database" !in old(c.md.entries) ==>
              "database" !in c.inner.received[|old(c.inner.received)|].headers
  {
    d := c.UseDatabase(database);
    r := d.client.Execute(sql, reply, fetch);
  }

  /**
   * Corrected: the selected database becomes the metadata of the client
   * that makes the calls, so every later request carries it, while the
   * receiver's metadata stays as it was.
   */
  method UseDatabaseFixed(c: Client, database: string) returns (d: Client)
    ensures d.inner == c.inner && fresh(d.md)
    ensures d.TimeoutContext() == old(c.md.entries)["database" := [database]]
    ensures d.TimeoutContext()["database"] == [database]
    ensures c.md.entries == old(c.md.entries)
  {
    var copy := c.md.Copy();
    AsciiLowerOfLower("database");
    copy.Set("database", database);
    d := Client(c.inner, copy);
  }

  /** With the correction, the request sent after selecting a database carries it. */
  method ExecuteAfterUseDatabaseFixed(c: Client, database: string, sql: string,
                                      reply: Result<FlightInfo, string>, fetch: Result<Stream<Record>, string>)
    returns (d: Client, r: GoResult)
    requires CanFetch(c.inner.alloc.refs, fetch)
    modifies c.inner, c.inner.alloc
    ensures |c.inner.received| > |old(c.inner.received)|
    ensures "database" in c.inner.received[|old(c.inner.received)|].headers
    ensures c.inner.received[|old(c.inner.received)|].headers["database"] == [database]
  {
    d := UseDatabaseFixed(c, database);
    r := d.Execute(sql, reply, fetch);
  }
}
