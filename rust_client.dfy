/**
 * The Rust client (rust/src/client.rs): the URI chosen from the
 * configuration, the `database` header set in place, ticket extraction
 * from the first endpoint and the checks on a fetched stream. A line
 * printed before `exit(1)` is the terminal outcome `Exited`.
 */
module RustClient {
  import opened Wrappers
  import opened Arrow
  import opened Flight
  import opened Text
  import opened RustUtil

  type u32 = x: int | 0 <= x < 0x1_0000_0000

  /** `ClientConfig`; the credentials only feed the handshake, which is not modelled. */
  datatype Config = Config(host: string, port: u32, username: string, password: string,
                           tlsCert: Option<string>)

  function Protocol(config: Config): (p: string)
    ensures p == "https" <==> config.tlsCert.Some?
    ensures p == "http" <==> config.tlsCert.None?
  {
    if config.tlsCert.Some? then "https" else "http"
  }

  /** `protocol://host:port`. */
  function Uri(config: Config): string {
    Protocol(config) + "://" + config.host + ":" + Decimal(config.port)
  }

  /**
   * The URI reads back as its parts: `https` exactly when a certificate is
   * configured, then `://`, the host, a colon and the port in decimal.
   */
  lemma UriParts(config: Config)
    ensures var uri := Uri(config);
            var n := |Protocol(config)|;
            var k := |uri| - |Decimal(config.port)|;
            && n + 3 < k
            && (uri[..5] == "https" <==> config.tlsCert.Some?)
            && uri[n..n + 3] == "://"
            && uri[n + 3..k - 1] == config.host
            && uri[k - 1] == ':'
            && AllDigits(uri[k..])
            && DecimalValue(uri[k..]) == config.port
  {
    var uri := Uri(config);
    var p := Protocol(config);
    var n := |p|;
    var digits := Decimal(config.port);
    var k := |uri| - |digits|;
    var front := p + "://" + config.host;
    assert uri == front + (":" + digits);
    assert uri[k..] == digits;
    assert uri[..|front|] == front;
    assert uri[n..n + 3] == front[n..n + 3] == "://";
    assert uri[n + 3..k - 1] == front[n + 3..] == config.host;
    if config.tlsCert.Some? {
      assert uri[..5] == front[..5] == p;
    } else {
      assert uri[4] == front[4] == ':';
    }
    DecimalRoundTrip(config.port);
  }

  /** The ticket of the first endpoint, or the error naming what is missing. */
  function FirstTicket(info: FlightInfo): (r: Result<Ticket, string>)
    ensures r == Failure("No endpoint in flight info") <==> info.endpoints == []
    ensures r == Failure("No ticket in endpoint") <==> info.endpoints != [] && info.endpoints[0].ticket.None?
    ensures r.Success? <==> info.endpoints != [] && info.endpoints[0].ticket.Some?
    ensures r.Success? ==> info.endpoints[0].ticket == Some(r.value)
  {
    if info.endpoints == [] then Failure("No endpoint in flight info")
    else match info.endpoints[0].ticket
      case None => Failure("No ticket in endpoint")
      case Some(t) => Success(t)
  }

  /** A call's outcome: its value, an error returned to the caller, or a line printed before `exit(1)`. */
  datatype Outcome<T> = Done(value: T) | Err(message: string) | Exited(printed: string)

  /**
   * `do_get` after the request: a failed call or a failed stream exits with
   * the filtered error, a stream that ends cleanly with no batch is an
   * error, and otherwise every batch is returned in stream order.
   */
  function Collected(fetch: Result<Stream<Batch>, string>): (r: Outcome<seq<Batch>>)
    ensures r.Done? <==> fetch.Success? && fetch.value.failure.None? && fetch.value.items != []
    ensures r.Done? ==> r.value == fetch.value.items
    ensures r == Err("Unexpected empty batches") <==>
            fetch.Success? && fetch.value.failure.None? && fetch.value.items == []
    ensures r.Exited? <==> fetch.Failure? || fetch.value.failure.Some?
    ensures fetch.Failure? ==> r == Exited("Failed to perform do_get: " + FilterMessage(fetch.error))
    ensures fetch.Success? && fetch.value.failure.Some? ==>
            r == Exited("Failed to consume flight record batch stream: " + FilterMessage(fetch.value.failure.value))
  {
    match fetch
    case Failure(e) => Exited("Failed to perform do_get: " + FilterMessage(e))
    case Success(s) =>
      if s.failure.Some? then
        Exited("Failed to consume flight record batch stream: " + FilterMessage(s.failure.value))
      else if s.items == [] then Err("Unexpected empty batches")
      else Done(s.items)
  }

  /**
   * A prepared statement. The library's `prepare` hands it a clone of the
   * client, so it carries the headers of that moment.
   */
  class PreparedStatement {
    const handle: Handle
    const headers: map<string, string>
    var parameters: Option<Batch>

    constructor (handle: Handle, headers: map<string, string>)
      ensures this.handle == handle && this.headers == headers && parameters.None?
    {
      this.handle := handle;
      this.headers := headers;
      parameters := None;
    }
  }

  /** The client: the Flight SQL client's header map and the requests it has sent. */
  class Client {
    var headers: map<string, string>
    var sent: seq<Request<map<string, string>>>

    /** A connected client: no header set yet (the bearer token is kept apart). */
    constructor ()
      ensures headers == map[] && sent == []
    {
      headers := map[];
      sent := [];
    }

    /** `use_database`: sets the header in place; nothing is sent. */
    method UseDatabase(database: string)
      modifies this
      ensures headers == old(headers)["database" := database]
      ensures "database" in headers && headers["database"] == database
      ensures sent == old(sent)
    {
      headers := headers["database" := database];
    }

    /** `do_get`: one request with the current headers, then the checks on what came back. */
    method DoGet(ticket: Ticket, fetch: Result<Stream<Batch>, string>) returns (r: Outcome<seq<Batch>>)
      modifies this
      ensures headers == old(headers)
      ensures sent == old(sent) + [Request(DoGetOp(Some(ticket)), headers)]
      ensures r == Collected(fetch)
    {
      sent := sent + [Request(DoGetOp(Some(ticket)), headers)];
      r := Collected(fetch);
    }

    /**
     * `execute`: a failed execution exits; a missing endpoint or ticket is
     * an error and nothing more is sent; otherwise the first endpoint's
     * ticket is redeemed.
     */
    method Execute(sql: string, reply: Result<FlightInfo, string>, fetch: Result<Stream<Batch>, string>)
      returns (r: Outcome<seq<Batch>>)
      modifies this
      ensures headers == old(headers)
      ensures reply.Failure? ==>
              r == Exited("Failed to execute a sql: " + FilterMessage(reply.error)) &&
              sent == old(sent) + [Request(ExecuteOp(sql), headers)]
      ensures reply.Success? && FirstTicket(reply.value).Failure? ==>
              r == Err(FirstTicket(reply.value).error) &&
              sent == old(sent) + [Request(ExecuteOp(sql), headers)]
      ensures reply.Success? && FirstTicket(reply.value).Success? ==>
              r == Collected(fetch) &&
              sent == old(sent) + [Request(ExecuteOp(sql), headers),
                                   Request(DoGetOp(reply.value.endpoints[0].ticket), headers)]
    {
      sent := sent + [Request(ExecuteOp(sql), headers)];
      if reply.Failure? {
        return Exited("Failed to execute a sql: " + FilterMessage(reply.error));
      }
      var ticket := FirstTicket(reply.value);
      if ticket.Failure? {
        return Err(ticket.error);
      }
      r := DoGet(ticket.value, fetch);
    }

    /** `prepare`: a failure exits (with the same text as `execute`). */
    method Prepare(sql: string, reply: Result<Handle, string>) returns (r: Outcome<PreparedStatement>)
      modifies this
      ensures headers == old(headers)
      ensures sent == old(sent) + [Request(PrepareOp(sql), headers)]
      ensures reply.Failure? ==> r == Exited("Failed to execute a sql: " + FilterMessage(reply.error))
      ensures reply.Success? ==>
              r.Done? && fresh(r.value) && r.value.handle == reply.value &&
              r.value.headers == headers && r.value.parameters.None?
    {
      sent := sent + [Request(PrepareOp(sql), headers)];
      if reply.Failure? {
        return Exited("Failed to execute a sql: " + FilterMessage(reply.error));
      }
      var stmt := new PreparedStatement(reply.value, headers);
      r := Done(stmt);
    }

    /**
     * `execute_prepared`: a refused binding is an error before anything is
     * sent; then the statement executes with its own headers, a failure
     * exits, and the first endpoint's ticket is redeemed as in `execute`.
     */
    method ExecutePrepared(stmt: PreparedStatement, binding: Batch, bind: Option<string>,
                           reply: Result<FlightInfo, string>, fetch: Result<Stream<Batch>, string>)
      returns (r: Outcome<seq<Batch>>)
      modifies this, stmt
      ensures headers == old(headers)
      ensures bind.Some? ==>
              r == Err("Failed to bind a record batch to the prepared statement") &&
              sent == old(sent) && stmt.parameters == old(stmt.parameters)
      ensures bind.None? ==> stmt.parameters == Some(binding)
      ensures bind.None? && reply.Failure? ==>
              r == Exited("Failed to execute the prepared statement: " + FilterMessage(reply.error)) &&
              sent == old(sent) + [Request(ExecutePreparedOp(stmt.handle, binding), stmt.headers)]
      ensures bind.None? && reply.Success? && FirstTicket(reply.value).Failure? ==>
              r == Err(FirstTicket(reply.value).error) &&
              sent == old(sent) + [Request(ExecutePreparedOp(stmt.handle, binding), stmt.headers)]
      ensures bind.None? && reply.Success? && FirstTicket(reply.value).Success? ==>
              r == Collected(fetch) &&
              sent == old(sent) + [Request(ExecutePreparedOp(stmt.handle, binding), stmt.headers),
                                   Request(DoGetOp(reply.value.endpoints[0].ticket), headers)]
    {
      if bind.Some? {
        return Err("Failed to bind a record batch to the prepared statement");
      }
      stmt.parameters := Some(binding);
      sent := sent + [Request(ExecutePreparedOp(stmt.handle, binding), stmt.headers)];
      if reply.Failure? {
        return Exited("Failed to execute the prepared statement: " + FilterMessage(reply.error));
      }
      var ticket := FirstTicket(reply.value);
      if ticket.Failure? {
        return Err(ticket.error);
      }
      r := DoGet(ticket.value, fetch);
    }
  }

  /** After `use_database`, every request `execute` sends carries the chosen database. */
  method ExecuteInDatabase(c: Client, database: string, sql: string,
                           reply: Result<FlightInfo, string>, fetch: Result<Stream<Batch>, string>)
    returns (r: Outcome<seq<Batch>>)
    modifies c
    ensures |c.sent| > |old(c.sent)|
    ensures forall i :: |old(c.sent)| <= i < |c.sent| ==>
              "database" in c.sent[i].headers && c.sent[i].headers["database"] == database
  {
    c.UseDatabase(database);
    r := c.Execute(sql, reply, fetch);
  }
}
