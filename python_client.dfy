/**
 * The Python client (python/client.py): the Flight location and options
 * chosen from the configuration, the header list of (key, value) byte
 * pairs, `use_database` as append-then-deduplicate, and ticket redemption
 * from the first endpoint. A raised exception is the outcome `Raised`.
 */
module PythonClient {
  import opened Wrappers
  import opened Arrow
  import opened Flight
  import opened Text

  /** A gRPC header as the Flight library takes it: key and value as bytes. */
  type Header = (seq<byte>, seq<byte>)

  /** `b"database"`. */
  const DatabaseKey: seq<byte> := [0x64, 0x61, 0x74, 0x61, 0x62, 0x61, 0x73, 0x65]

  /** The key is what `"database".encode("utf-8")` gives. */
  lemma DatabaseKeyIsUtf8()
    ensures DatabaseKey == Utf8("database")
  {
    Utf8Ascii("database");
  }

  // Ordered-dictionary semantics of the header list

  /** The index of the first entry with key `k`, or `|hs|` when there is none. */
  function IndexOf(hs: seq<Header>, k: seq<byte>): (i: nat)
    ensures i <= |hs|
    ensures i < |hs| ==> hs[i].0 == k
    ensures forall j :: 0 <= j < i ==> hs[j].0 != k
  {
    if hs == [] then 0
    else if hs[0].0 == k then 0
    else 1 + IndexOf(hs[1..], k)
  }

  predicate UniqueKeys(hs: seq<Header>) {
    forall i, j :: 0 <= i < j < |hs| ==> hs[i].0 != hs[j].0
  }

  /** `d[key] = value` on an ordered dictionary: an existing key keeps its place and takes the new value. */
  function Put(hs: seq<Header>, h: Header): seq<Header> {
    if hs == [] then [h]
    else if hs[0].0 == h.0 then [h] + hs[1..]
    else [hs[0]] + Put(hs[1..], h)
  }

  /** `list(OrderedDict(hs).items())`: the pairs inserted one by one, left to right. */
  function Dedup(hs: seq<Header>): seq<Header> {
    if hs == [] then [] else Put(Dedup(hs[..|hs| - 1]), hs[|hs| - 1])
  }

  /** Setting a key overwrites its first entry in place, or appends the pair when the key is new. */
  lemma {:induction false} PutAt(hs: seq<Header>, h: Header)
    ensures IndexOf(hs, h.0) < |hs| ==> Put(hs, h) == hs[IndexOf(hs, h.0) := h]
    ensures IndexOf(hs, h.0) == |hs| ==> Put(hs, h) == hs + [h]
  {
    if hs != [] && hs[0].0 != h.0 {
      PutAt(hs[1..], h);
      if IndexOf(hs, h.0) < |hs| {
        assert [hs[0]] + hs[1..][IndexOf(hs[1..], h.0) := h] == hs[IndexOf(hs, h.0) := h];
      } else {
        assert [hs[0]] + (hs[1..] + [h]) == hs + [h];
      }
    }
  }

  lemma PutUnique(hs: seq<Header>, h: Header)
    requires UniqueKeys(hs)
    ensures UniqueKeys(Put(hs, h))
  {
    PutAt(hs, h);
  }

  /** No key appears twice in a deduplicated list. */
  lemma {:induction false} DedupUnique(hs: seq<Header>)
    ensures UniqueKeys(Dedup(hs))
  {
    if hs != [] {
      DedupUnique(hs[..|hs| - 1]);
      PutUnique(Dedup(hs[..|hs| - 1]), hs[|hs| - 1]);
    }
  }

  /** A list whose keys are already unique is its own deduplication. */
  lemma {:induction false} DedupOfUnique(hs: seq<Header>)
    requires UniqueKeys(hs)
    ensures Dedup(hs) == hs
  {
    if hs != [] {
      var init := hs[..|hs| - 1];
      var last := hs[|hs| - 1];
      DedupOfUnique(init);
      PutAt(init, last);
      forall j | 0 <= j < |init|
        ensures init[j].0 != last.0
      {
        assert init[j] == hs[j];
      }
      assert init + [last] == hs;
    }
  }

  /** The entries whose key is not `k`, in order. */
  function Without(hs: seq<Header>, k: seq<byte>): (r: seq<Header>)
    ensures forall i :: 0 <= i < |r| ==> r[i].0 != k
  {
    if hs == [] then []
    else (if hs[0].0 == k then [] else [hs[0]]) + Without(hs[1..], k)
  }

  lemma {:induction false} WithoutPut(hs: seq<Header>, h: Header)
    ensures Without(Put(hs, h), h.0) == Without(hs, h.0)
  {
    if hs != [] && hs[0].0 != h.0 {
      WithoutPut(hs[1..], h);
      assert ([hs[0]] + Put(hs[1..], h))[1..] == Put(hs[1..], h);
    } else if hs != [] {
      assert ([h] + hs[1..])[1..] == hs[1..];
    }
  }

  /** The header list after `use_database(name)` on headers `hs`. */
  function WithDatabase(hs: seq<Header>, name: string): seq<Header> {
    Dedup(hs + [(DatabaseKey, Utf8(name))])
  }

  /**
   * After `use_database(name)` on headers without repeated keys: no key
   * repeats; exactly one entry has the key `database` and its value decodes
   * as UTF-8 back to `name`; that entry sits where the old one was, or last
   * when there was none; the other entries are unchanged and in order.
   */
  lemma UseDatabaseHeaders(hs: seq<Header>, name: string)
    requires UniqueKeys(hs)
    ensures var r := WithDatabase(hs, name);
            var i := IndexOf(hs, DatabaseKey);
            && UniqueKeys(r)
            && i < |r| && r[i] == (DatabaseKey, Utf8(name))
            && (forall j :: 0 <= j < |r| && j != i ==> r[j].0 != DatabaseKey)
            && DecodeUtf8(r[i].1) == Some(name)
            && (i < |hs| ==> |r| == |hs|)
            && (i == |hs| ==> |r| == |hs| + 1)
            && Without(r, DatabaseKey) == Without(hs, DatabaseKey)
  {
    var h := (DatabaseKey, Utf8(name));
    var r := WithDatabase(hs, name);
    assert (hs + [h])[..|hs|] == hs;
    DedupOfUnique(hs);
    assert r == Put(hs, h);
    PutAt(hs, h);
    PutUnique(hs, h);
    WithoutPut(hs, h);
    Utf8RoundTrip(name);
  }

  /** Setting a key twice is setting it once to the second value. */
  lemma {:induction false} PutTwice(hs: seq<Header>, k: seq<byte>, v: seq<byte>, w: seq<byte>)
    ensures Put(Put(hs, (k, v)), (k, w)) == Put(hs, (k, w))
  {
    if hs != [] && hs[0].0 != k {
      PutTwice(hs[1..], k, v, w);
    }
  }

  /** On headers without repeated keys, `use_database` is one ordered-dictionary assignment. */
  lemma WithDatabasePut(hs: seq<Header>, name: string)
    requires UniqueKeys(hs)
    ensures WithDatabase(hs, name) == Put(hs, (DatabaseKey, Utf8(name)))
  {
    assert (hs + [(DatabaseKey, Utf8(name))])[..|hs|] == hs;
    DedupOfUnique(hs);
  }

  /** Choosing `a` and then `b` is the same as choosing `b`; choosing the same database twice changes nothing. */
  lemma UseDatabaseTwice(hs: seq<Header>, a: string, b: string)
    requires UniqueKeys(hs)
    ensures WithDatabase(WithDatabase(hs, a), b) == WithDatabase(hs, b)
    ensures WithDatabase(WithDatabase(hs, a), a) == WithDatabase(hs, a)
  {
    var once := WithDatabase(hs, a);
    WithDatabasePut(hs, a);
    WithDatabasePut(hs, b);
    DedupUnique(hs + [(DatabaseKey, Utf8(a))]);
    WithDatabasePut(once, b);
    WithDatabasePut(once, a);
    PutTwice(hs, DatabaseKey, Utf8(a), Utf8(b));
    PutTwice(hs, DatabaseKey, Utf8(a), Utf8(a));
  }

  // The client

  /** `ClientConfig`; a port is a Python int. */
  datatype Config = Config(host: string, port: int, username: string, password: string,
                           tlsCert: Option<string>)

  function Protocol(config: Config): (p: string)
    ensures p == "tls" <==> config.tlsCert.Some?
    ensures p == "tcp" <==> config.tlsCert.None?
  {
    if config.tlsCert.Some? then "tls" else "tcp"
  }

  /** `grpc+{protocol}://{host}:{port}`. */
  function Location(config: Config): string {
    "grpc+" + Protocol(config) + "://" + config.host + ":" + IntToString(config.port)
  }

  /**
   * The location reads back as its parts: the `grpc+tls` scheme exactly
   * when a certificate is configured (`grpc+tcp` otherwise), the host, and
   * the port, which parses back to the configured value.
   */
  lemma LocationParts(config: Config)
    ensures var loc := Location(config);
            var k := |loc| - |IntToString(config.port)|;
            && 12 <= k
            && loc[..8] == (if config.tlsCert.Some? then "grpc+tls" else "grpc+tcp")
            && loc[8..11] == "://"
            && loc[11..k - 1] == config.host
            && loc[k - 1] == ':'
            && ParseInt(loc[k..]) == Some(config.port)
  {
    var loc := Location(config);
    var digits := IntToString(config.port);
    var k := |loc| - |digits|;
    var front := "grpc+" + Protocol(config) + "://" + config.host;
    assert loc == front + (":" + digits);
    assert loc[k..] == digits;
    assert loc[..|front|] == front;
    assert loc[..8] == front[..8];
    assert loc[8..11] == front[8..11];
    assert loc[11..k - 1] == front[11..];
    IntToStringRoundTrip(config.port);
  }

  /** The keyword arguments given to the Flight client. */
  datatype Options = Options(disableServerVerification: bool, tlsRootCerts: Option<seq<byte>>)

  /** What a call returns or raises. */
  datatype PyResult<T> = Returned(value: T) | Raised(error: string)

  const IndexError: string := "list index out of range"

  /** Reading the stream into a frame: every batch, in order, or the stream's error. */
  function ReadAll(fetch: Result<Stream<Batch>, string>): (r: PyResult<seq<Batch>>)
    ensures r.Returned? <==> fetch.Success? && fetch.value.failure.None?
    ensures r.Returned? ==> r.value == fetch.value.items
    ensures fetch.Failure? ==> r == Raised(fetch.error)
    ensures fetch.Success? && fetch.value.failure.Some? ==> r == Raised(fetch.value.failure.value)
  {
    match fetch
    case Failure(e) => Raised(e)
    case Success(s) => if s.failure.Some? then Raised(s.failure.value) else Returned(s.items)
  }

  class Client {
    const location: string
    const options: Options
    var headers: seq<Header>
    var sent: seq<Request<seq<Header>>>

    /**
     * `Client.__init__`: server verification is always disabled; the
     * certificate bytes are passed only with TLS; the headers start as the
     * one pair the authentication returned.
     */
    constructor (config: Config, certFileContents: seq<byte>, authPair: Header)
      ensures location == Location(config)
      ensures options.disableServerVerification
      ensures options.tlsRootCerts.Some? <==> config.tlsCert.Some?
      ensures config.tlsCert.Some? ==> options.tlsRootCerts == Some(certFileContents)
      ensures headers == [authPair] && UniqueKeys(headers)
      ensures sent == []
    {
      var disable := true;
      var rootCerts: Option<seq<byte>> := None;
      var protocol: string;
      if config.tlsCert.Some? {
        protocol := "tls";
        rootCerts := Some(certFileContents);
      } else {
        protocol := "tcp";
      }
      location := "grpc+" + protocol + "://" + config.host + ":" + IntToString(config.port);
      options := Options(disable, rootCerts);
      var initial: seq<Header> := [];
      initial := initial + [authPair];
      headers := initial;
      sent := [];
    }

    /** `use_database`: append the pair, deduplicate, and replace the header list. */
    method UseDatabase(database: string)
      modifies this
      ensures headers == WithDatabase(old(headers), database)
      ensures UniqueKeys(headers)
      ensures sent == old(sent)
    {
      var appended := headers + [(DatabaseKey, Utf8(database))];
      var deduplicated := Dedup(appended);
      DedupUnique(appended);
      headers := deduplicated;
    }

    /**
     * `execute`: a failed execution raises; no endpoint raises IndexError;
     * otherwise the ticket of endpoint 0 is redeemed and the stream read.
     */
    method Execute(sql: string, reply: Result<FlightInfo, string>, fetch: Result<Stream<Batch>, string>)
      returns (r: PyResult<seq<Batch>>)
      modifies this
      ensures headers == old(headers)
      ensures reply.Failure? ==> r == Raised(reply.error) && sent == old(sent) + [Request(ExecuteOp(sql), headers)]
      ensures reply.Success? && reply.value.endpoints == [] ==>
              r == Raised(IndexError) && sent == old(sent) + [Request(ExecuteOp(sql), headers)]
      ensures reply.Success? && reply.value.endpoints != [] ==>
              r == ReadAll(fetch) &&
              sent == old(sent) + [Request(ExecuteOp(sql), headers),
                                   Request(DoGetOp(reply.value.endpoints[0].ticket), headers)]
    {
      sent := sent + [Request(ExecuteOp(sql), headers)];
      if reply.Failure? {
        return Raised(reply.error);
      }
      r := Redeem(reply.value, fetch);
    }

    /** `prepare`: the server's handle, or the raised error. */
    method Prepare(sql: string, reply: Result<Handle, string>) returns (r: PyResult<Handle>)
      modifies this
      ensures headers == old(headers)
      ensures sent == old(sent) + [Request(PrepareOp(sql), headers)]
      ensures r == (match reply case Success(h) => Returned(h) case Failure(e) => Raised(e))
    {
      sent := sent + [Request(PrepareOp(sql), headers)];
      r := match reply case Success(h) => Returned(h) case Failure(e) => Raised(e);
    }

    /** `execute_prepared`: the statement executes with the binding, then endpoint 0 is redeemed as in `execute`. */
    method ExecutePrepared(statement: Handle, binding: Batch, reply: Result<FlightInfo, string>,
                           fetch: Result<Stream<Batch>, string>)
      returns (r: PyResult<seq<Batch>>)
      modifies this
      ensures headers == old(headers)
      ensures reply.Failure? ==>
              r == Raised(reply.error) &&
              sent == old(sent) + [Request(ExecutePreparedOp(statement, binding), headers)]
      ensures reply.Success? && reply.value.endpoints == [] ==>
              r == Raised(IndexError) &&
              sent == old(sent) + [Request(ExecutePreparedOp(statement, binding), headers)]
      ensures reply.Success? && reply.value.endpoints != [] ==>
              r == ReadAll(fetch) &&
              sent == old(sent) + [Request(ExecutePreparedOp(statement, binding), headers),
                                   Request(DoGetOp(reply.value.endpoints[0].ticket), headers)]
    {
      sent := sent + [Request(ExecutePreparedOp(statement, binding), headers)];
      if reply.Failure? {
        return Raised(reply.error);
      }
      r := Redeem(reply.value, fetch);
    }

    /** `flight_info.endpoints[0].ticket`, then `do_get` and `read_pandas`. */
    method Redeem(info: FlightInfo, fetch: Result<Stream<Batch>, string>) returns (r: PyResult<seq<Batch>>)
      modifies this
      ensures headers == old(headers)
      ensures info.endpoints == [] ==> r == Raised(IndexError) && sent == old(sent)
      ensures info.endpoints != [] ==>
              r == ReadAll(fetch) && sent == old(sent) + [Request(DoGetOp(info.endpoints[0].ticket), headers)]
    {
      if |info.endpoints| == 0 {
        return Raised(IndexError);
      }
      var ticket := info.endpoints[0].ticket;
      sent := sent + [Request(DoGetOp(ticket), headers)];
      r := ReadAll(fetch);
    }
  }
}
