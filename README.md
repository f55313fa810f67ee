# Flight SQL client glue, modelled in Dafny

The repository holds example clients for one database, written in Go, Rust
and Python. Each client reaches the server through Apache Arrow Flight SQL.
Almost every line calls into a Flight SQL or Arrow library. This project
models the glue the clients write around those calls:

- the `database` session header, set in three different ways;
- how a result handle (a ticket) is taken from the first endpoint and redeemed;
- who holds a reference to each received Arrow record in Go;
- the Rust filter that cuts a server error down to its `message` field;
- the column-type dispatch of the Go table printer;
- the affected-row convention;
- the parameter batches bound to prepared statements.

The server and the libraries are inputs. Each network call takes the
server's reply as a parameter: a `Result` carrying flight info, a handle, or
a `Stream` of batches that ends cleanly or with a failure. Each client
records the requests it sends, with their headers, in a request log. Arrow
memory is a reference-count table (`Flight.Memory`), in which an absent key
means the record was freed.

Modules:

- `Wrappers`: `Option` and `Result`.
- `Arrow`: columns, schemas, batches, `TryNew` and the affected-row lookup.
- `Text`: decimal rendering, Rust's `str::replace`, and UTF-8.
- `Flight`: tickets, endpoints, streams, the request log, reference counts and the record reader.
- `Bindings`: the INSERT fixture that both the Go and the Rust demo bind.
- `GoClient`, `GoUtil`: go/client.go and go/util.go.
- `RustClient`, `RustUtil`: rust/src/client.rs and rust/src/util.rs.
- `PythonClient`: python/client.py.

Go's `metadata.MD` is a map, so it is shared by reference. It is therefore
the class `GoClient.MD`. `Client` and `DbClient` are Go structs copied by
value, so they are datatypes holding references.

A Rust `exit(1)` after a printed line is the outcome `Exited(line)`. A Go
panic is `Panicked` (or `PanickedOn` and `PanickedLookup` in the printers). A
Python exception is `Raised`.

## Model

| member | source | states |
|---|---|---|
| GoClient.MD.Copy | go/client.go:107 | The copy is a fresh map object with the same entries, so setting a key on it cannot change the original. |
| GoClient.MD.Set | go/client.go:108 | Setting a key gives it the single value given. The key is lower-cased first. |
| GoClient.Client.TimeoutContext | go/client.go:99-103 | The outgoing metadata is exactly the `md` of the client the method is called on. |
| GoClient.Client.UseDatabase | go/client.go:105-113 | The returned `DbClient` embeds the receiver and holds a new metadata map: the receiver's entries with `database` set to the argument. The receiver's own metadata is unchanged. |
| GoClient.Client.Execute | go/client.go:115-124 | Sends `Execute` with exactly the receiver's `md`. On failure it returns no records and the error wrapped as "failed to execute a sql: …", and no memory changes. With no endpoint it panics on the unchecked index. Otherwise it redeems the ticket of endpoint 0 with the same headers and ends as `doGet` does. |
| GoClient.Client.ExecuteUpdate | go/client.go:126-136 | On failure returns `(0, "failed to execute a sql: …")`. Otherwise returns the server's count unchanged with no error. The request carries the receiver's `md`. |
| GoClient.Client.Prepare | go/client.go:138-144 | Returns the library's statement (fresh, with no parameters) or its error unchanged. |
| GoClient.Client.ExecutePrepared | go/client.go:146-157 | Binds the parameters, and sends them while the binding is still alive. It then releases the binding exactly once on every path: the failure, the missing endpoint and the success. On failure the error is wrapped as "failed to execute a prepared statement: …". On success the ticket of endpoint 0 is redeemed as in `Execute`. |
| GoClient.Client.ClosePrepared | go/client.go:159-165 | Only forwards the close, with the receiver's `md`, and returns the library's answer as it is. |
| GoClient.Client.DoGet | go/client.go:167-185 | On failure returns no records, a wrapped error and unchanged memory. Otherwise returns the stream's records in order, with a nil error, one per `Next`. An empty stream gives an empty slice. The allocator ends as `Acquired(before, records)`: the caller holds exactly one reference to each record and the reader holds none. The proof is the loop invariant `Holding`. |
| GoClient.NextIsFresh | go/client.go:178-179 | A record the reader has not yet produced is not live, so the reader may allocate it. |
| GoClient.DropHeld | go/client.go:175-181 | When the reader drops its reference to the previous record, the caller's single retained reference remains. |
| GoClient.TakeNext | go/client.go:179-182 | Allocating the next record and retaining it once leaves two references: the reader's and the caller's. |
| GoClient.ExecuteAfterUseDatabase | go/client.go:32-35 | As written: after `UseDatabase(db)`, a call through the returned `DbClient` sends the parent's metadata. No `database` header reaches the server unless the parent already had one. |
| GoClient.UseDatabaseFixed | go/client.go:99-113 | Corrected: the client that makes the calls holds the copied metadata with `database` set. `timeoutContext` then yields it, and the receiver is unchanged. |
| GoClient.ExecuteAfterUseDatabaseFixed | go/client.go:115-124 | With the correction, the request sent after choosing a database carries `database` with exactly that value. |
| Flight.Memory.Allocate | go/client.go:178-179 | Reading a record allocates it with exactly one reference. Every other count is unchanged. |
| Flight.Memory.Retain | go/client.go:181 | `Retain` adds one reference to a live record. Every other count is unchanged. |
| Flight.Memory.Release | go/util.go:162 | One release decrements a count. The last release frees the record. |
| Flight.RecordReader.Next | go/client.go:178-179 | Drops the reader's reference to the previous record and allocates the next record with one reference. It reports whether a record came. |
| Flight.RecordReader.Current | go/client.go:179 | `Record()` returns the record the last `Next` read. |
| Flight.RecordReader.Release | go/client.go:175 | Drops the reader's reference to its current record, if it holds one. |
| Flight.AcquiredAt | go/client.go:177-184 | After a fetch, each fetched record has exactly one reference, and every other count is as before. |
| Flight.ReleaseUndoesAcquire | go/util.go:160-164 | Releasing, once each, the records that `doGet` handed out restores the allocator exactly: no leak, and no other record is touched. |
| GoUtil.ReleaseRecords | go/util.go:160-164 | Releases each record once, in order. The counts end as `ReleasedAll(before, ids)`. |
| GoUtil.PrintAffectedRows | go/util.go:15-24 | With no records it panics and releases nothing. Otherwise it prints row 0, column 0 of the first record when that is an Int64 value, and panics with the failed lookup otherwise. The deferred release frees every record once on both paths. |
| GoUtil.DecodeCell | go/util.go:49-60 | A cell decodes exactly when its column type is Timestamp, Int8, Int32 or Float32. Any other type yields that type, which is the panic. |
| GoUtil.RenderRowCells | go/util.go:48-61 | The column loop computes `RenderRow`: the cells left to right, stopping at the first unsupported column. |
| GoUtil.RenderBatchRows | go/util.go:47-63 | The row loop computes `RenderBatch`: one rendered row per row, top to bottom. |
| GoUtil.RenderTable | go/util.go:36-63 | The header comes from the first record's schema. Rows follow record by record, then row by row, then column by column. The result is `TableOf(records)`. |
| GoUtil.RenderRowSpec | go/util.go:48-61 | A row renders exactly when every column type is supported. It then holds one decoded cell per column. |
| GoUtil.RenderBatchSpec | go/util.go:47-63 | A record with rows renders exactly when all its column types are supported, giving one rendered row per row. A record with no rows renders as nothing. |
| GoUtil.RenderRecordsSpec | go/util.go:45-63 | Printing panics exactly when some record with at least one row has a column of an unsupported type. Otherwise it prints `TotalRows` lines. |
| GoUtil.RenderRecordsFailurePersists | go/util.go:58-59 | A panic ends the traversal: the first failure is the outcome. |
| GoUtil.PrintRecords | go/util.go:27-66 | With no records it prints nothing and releases nothing. Otherwise it prints the table or panics on the first unsupported type. The deferred release frees every record once on both paths. |
| GoUtil.MakeInsertBinding | go/util.go:68-119 | The appending loop builds the INSERT fixture: four columns (ts, sid, value, flag), each five long, in a well-formed record of five rows. |
| GoUtil.MakeQueryBinding | go/util.go:121-133 | One nullable Int32 column `sid` holding `sid` in its single row. |
| GoUtil.MakeMultiBinding | go/util.go:135-158 | Ignores its argument. Always builds three nullable Int32 `sid` columns holding 1, 2 and 3 in one row. |
| Bindings.InsertTimestamps | rust/src/util.rs:62-70 | Five epoch-millisecond timestamps. The first is 2024-09-02T10:00+08:00 = 1725242400000, and each is 300000 ms after the previous one. |
| Bindings.FirstInsertTimestamp | go/util.go:89 | 2024-09-02 10:00 at UTC+08:00 is 1725242400000 ms after the epoch. |
| Bindings.MinutesApart | go/util.go:88-94 | Wall-clock times k minutes apart on one day at a fixed offset are k·60000 ms apart. |
| Bindings.InsertBindingWellFormed | rust/src/util.rs:50-59 | The fixture batch is well formed. The fields are ts, sid, value and flag, and only `ts` is non-nullable. |
| Arrow.AffectedRows | go/util.go:21-22 | The count exists exactly when the first batch's first column is a non-empty Int64 column, and it is that column's first value. "No batch" means exactly an empty slice, and a wrong type names the type found. |
| Arrow.TryNew | rust/src/util.rs:82-91 | Accepts exactly the column lists that form a well-formed batch with at least one column. The accepted batch keeps the schema and columns given. |
| RustUtil.Normalize | rust/src/util.rs:15-17 | After normalising, no line feed or carriage return is left, and no escaped quote `\"` is left: each one has become the placeholder. |
| Text.ReplacePairRemoves | rust/src/util.rs:17 | Replacing a two-character pattern by text that cannot form it at a seam leaves no occurrence of it. This is why no `\"` survives normalising. |
| RustUtil.FirstMarker | rust/src/util.rs:18 | Finds the leftmost `message: "` at or after a position, or shows there is none. |
| RustUtil.FirstStop | rust/src/util.rs:18 | Finds the earliest place the lazy capture can end: a quote, or ` at src/dbserver/src` followed somewhere by a quote. It shows there is no earlier one. |
| RustUtil.CaptureExists | rust/src/util.rs:18-19 | The pattern matches exactly when some `message: "` is followed, anywhere later, by a quote. |
| RustUtil.FilterMessage | rust/src/util.rs:14-25 | The output never contains a line feed or carriage return. When the pattern matched, it contains no backslash. |
| RustUtil.NormalizeClean | rust/src/util.rs:15-17 | Text with no line break and no backslash is unchanged by normalising. |
| RustUtil.FilterPlain | rust/src/util.rs:19-24 | An error with no `message: "`, no line break and no backslash is returned unchanged. |
| RustUtil.FilterBetween | rust/src/util.rs:18-24 | For an error with no line break and no backslash, when the first marker is at p and the earliest stop is at q, and the text between holds no placeholder, the output is exactly that text. |
| RustUtil.CaptureAt | rust/src/util.rs:18-20 | The capture is the text from the first `message: "` to the earliest place the lazy group may stop after it. |
| RustUtil.FilterUnmatched | rust/src/util.rs:19-24 | When the pattern finds no message, the output is the normalised error, so each escaped quote stays as the placeholder `[ESCAPED_QUOTE]`. |
| RustUtil.EscapedNormalizes | rust/src/util.rs:17 | In text written with escaped quotes and no other backslash, normalising turns each `\"` into the placeholder and leaves what follows to be normalised on its own. |
| RustUtil.NormalizeEscaped | rust/src/util.rs:15-17 | Escaped text with no line break and no other backslash normalises to the text with each quote replaced by the placeholder. |
| RustUtil.FilterEscapedUnquoted | rust/src/util.rs:14-25 | Escaped text on its own holds no quote once normalised, so no message matches and the output has the placeholder where each quote was. |
| RustUtil.ProtectedAvoids | rust/src/util.rs:17-18 | Putting placeholders in place of quotes creates no occurrence of a word that shares no character with the placeholder, such as ` at src/dbserver/src`. |
| RustUtil.RestoreProtected | rust/src/util.rs:21 | Turning each placeholder back into `\"` gives the escaped message back, when the message never spelled the placeholder itself. |
| RustUtil.StripEscaped | rust/src/util.rs:22 | Dropping every backslash of escaped text that has no backslash of its own gives the plain text back. |
| RustUtil.NormalizeEscapedMessage | rust/src/util.rs:15-17 | `… message: "<escaped body>` followed by any text, with no backslash other than the escaped quotes and no line break, normalises to the same text with the placeholder in place of each escaped quote of the body. |
| RustUtil.ProtectedCapture | rust/src/util.rs:18-19 | In the normalised form, the capture is exactly the body with its placeholders: the protected body holds no quote and no source location. |
| RustUtil.FilterEscapedMessage | rust/src/util.rs:14-25 | `… message: "<body with each quote written as \">" …` filters to exactly `<body>` with plain quotes, when the error has no other backslash and no line break. |
| RustUtil.SuffixNoBorder | rust/src/util.rs:18 | No proper end of ` at src/dbserver/src` is also its beginning, so a body free of it cannot start one that runs into the source location. |
| RustUtil.ProtectedServerCapture | rust/src/util.rs:18-19 | In the normalised form of a server error, the capture is exactly the protected body: it stops at ` at src/dbserver/src` because a quote follows later. |
| RustUtil.FilterEscapedServerMessage | rust/src/util.rs:14-25 | The server's own shape `… message: "<body with each quote written as \"> at src/dbserver/src…"…` filters to exactly `<body>` with plain quotes, and the source location is dropped, when the error has no other backslash and no line break. |
| RustUtil.FilterServerMessage | rust/src/util.rs:14-25 | For an error with no backslash and no line break anywhere, `… message: "<body> at src/dbserver/src…" …` with a quote-free body filters to exactly `<body>`: the source location and everything around the message are dropped. |
| RustUtil.FilterQuotedMessage | rust/src/util.rs:14-25 | For an error with no backslash and no line break anywhere, `… message: "<body>" …` with a quote-free body filters to exactly `<body>`. |
| RustUtil.PrintAffectedRows | rust/src/util.rs:27-37 | Prints batch 0, column 0, row 0 when it is an Int64 value, and panics otherwise. The panic with no batch happens exactly for an empty slice. |
| RustUtil.MakeInsertBinding | rust/src/util.rs:49-91 | The batch is the INSERT fixture and is accepted, so the exit path cannot be taken. |
| RustUtil.MakeQueryBinding | rust/src/util.rs:93-102 | One nullable Int32 column `sid` with one row equal to `sid`. The batch is always accepted. |
| RustClient.Protocol | rust/src/client.rs:36 | `https` exactly when a certificate is configured. `http` exactly when none is. |
| RustClient.UriParts | rust/src/client.rs:36-37 | The URI reads back as `protocol://host:port`. It starts with `https` exactly when a certificate is configured, and the digits after the last colon parse back to the port. |
| RustClient.FirstTicket | rust/src/client.rs:92-98 | Returns "No endpoint in flight info" exactly for an empty endpoint list, and "No ticket in endpoint" exactly when endpoint 0 has no ticket. Otherwise returns endpoint 0's ticket. |
| RustClient.Collected | rust/src/client.rs:144-163 | A failed `do_get` exits with "Failed to perform do_get: " and the filtered error. A failed stream exits with "Failed to consume flight record batch stream: " and the filtered error. A clean empty stream is the error "Unexpected empty batches". Otherwise all batches are returned in stream order. |
| RustClient.Client.constructor | rust/src/client.rs:71-73 | A new client has no header and has sent nothing. |
| RustClient.Client.UseDatabase | rust/src/client.rs:76-78 | Sets `database` in the client's own header map, in place. Other headers stay, and nothing is sent. |
| RustClient.Client.DoGet | rust/src/client.rs:144-163 | Sends one `DoGet` with the current headers. The outcome is `Collected`. |
| RustClient.Client.Execute | rust/src/client.rs:80-101 | A failed execution exits with the filtered error. A missing endpoint or ticket is returned as an error, and no `DoGet` is sent. Otherwise the first endpoint's ticket is redeemed. |
| RustClient.Client.Prepare | rust/src/client.rs:103-116 | A failure exits with "Failed to execute a sql: " and the filtered error. Otherwise the statement is fresh, has no parameters and carries the client's current headers. |
| RustClient.Client.ExecutePrepared | rust/src/client.rs:118-142 | A refused binding is an error before anything is sent. Otherwise the binding is stored, the statement executes, a failure exits with the filtered error, and ticket extraction is as in `execute`. |
| RustClient.ExecuteInDatabase | rust/src/client.rs:76-101 | After `use_database(db)`, every request that `execute` sends carries `database = db`. |
| PythonClient.DatabaseKeyIsUtf8 | python/client.py:84 | The header key `b"database"` is the UTF-8 encoding of `"database"`. |
| PythonClient.PutAt | python/client.py:86 | Setting a key on an ordered dictionary overwrites its entry in place, or appends the pair when the key is new. |
| PythonClient.DedupUnique | python/client.py:86 | After deduplicating, no key appears twice. |
| PythonClient.DedupOfUnique | python/client.py:86 | A list with no repeated key is its own deduplication. |
| PythonClient.WithoutPut | python/client.py:84-86 | Setting key k leaves the entries with other keys unchanged and in order. |
| PythonClient.PutTwice | python/client.py:86 | Setting a key twice on an ordered dictionary is the same as setting it once to the second value. |
| PythonClient.WithDatabasePut | python/client.py:84-86 | On headers with no repeated key, append-then-deduplicate is a single ordered-dictionary assignment of `b"database"`. |
| PythonClient.UseDatabaseHeaders | python/client.py:84-87 | After `use_database(name)`: no key repeats, and exactly one entry has key `b"database"`. Its value decodes as UTF-8 to `name`. It sits where the old entry was, or last if there was none. Every other entry is unchanged and in order. |
| PythonClient.UseDatabaseTwice | python/client.py:84-87 | `use_database(a)` then `use_database(b)` equals `use_database(b)`. Repeating the same name changes nothing. |
| PythonClient.Protocol | python/client.py:48-55 | `tls` exactly when a certificate is configured. `tcp` exactly when none is. |
| PythonClient.LocationParts | python/client.py:57 | The location reads back as `grpc+tls` or `grpc+tcp` (`tls` exactly with a certificate), then `://`, the host, and the port, which parses back to the configured value. |
| PythonClient.ReadAll | python/client.py:100-102 | Reading the stream gives every batch in order, or raises the stream's error. |
| PythonClient.Client.constructor | python/client.py:32-76 | Server verification is always disabled. The certificate bytes are passed exactly when TLS is used. The location is `Location(config)`. The headers start as the single pair the authentication returned. |
| PythonClient.Client.UseDatabase | python/client.py:78-87 | The header list becomes `WithDatabase(old, name)`: appended, then deduplicated. Keys stay unique and nothing is sent. |
| PythonClient.Client.Execute | python/client.py:89-103 | A failed execution raises. No endpoint raises IndexError. Otherwise the ticket of endpoint 0 is redeemed with the current headers and the stream read whole. |
| PythonClient.Client.Prepare | python/client.py:105-110 | Returns the server's handle, or raises its error. |
| PythonClient.Client.ExecutePrepared | python/client.py:112-123 | The statement executes with the binding. Endpoint 0's ticket is then redeemed as in `execute`. |
| PythonClient.Client.Redeem | python/client.py:98-102 | `endpoints[0].ticket` raises IndexError on an empty list. Otherwise one `DoGet` is sent for that ticket. |

## Left out

- Transport and authentication are not modelled: gRPC dialing, TLS credential loading, the Rust endpoint connection and handshake, and the Python `FlightClient` construction. Only the protocol, URI and location strings are kept. Certificate file contents and the authentication pair are constructor parameters.
- The 10-second deadlines and context cancellation are left out (timing). In `doGet` the context is cancelled before the reader is drained (go/client.go:171). The model treats the stream as already delivered.
- GoClient.Client.DoGet: the model follows the code, which never consults the reader's error. A stream that fails part-way returns the records read so far with a nil error. The stream's `failure` is carried but not used.
- The Flight SQL and Arrow library calls are not modelled: execute, prepare, `DoGet`, close, `set_parameters`, `try_collect` and `read_pandas`. Each is a reply parameter. The Go library's own reference counting inside `SetParameters` is not modelled either.
- RustClient.PreparedStatement carries the headers of the moment `prepare` was called. That is the library's behaviour (it clones the client), not something the repository's files show.
- GoUtil.PrintRecords: cell formatting is left out: `%v` of local time, `%d`, `%.2f`, and the tabwriter layout. Decoded cells are values (`Cell`), Float32 values are reals, and the panic message is its `DataType`.
- The Rust `print_batches` and pandas printing are left out: both hand formatting to foreign libraries.
- GoClient.MD.Set: lower-cases keys in ASCII only. Go's `strings.ToLower` also folds non-ASCII letters.
- GoUtil.MakeInsertBinding: `time.LoadLocation` is not modelled. Asia/Shanghai is taken as the fixed offset UTC+08:00, which was in force in 2024.
- The null bitmaps of the binding builders are not modelled. Every fixture value is valid.
- GoUtil.ReleaseRecords: requires the slice to hold distinct records. A record appearing twice in one slice is not modelled.
- Python's `close`, the demo programs, python/util.py and the Java and PostgreSQL clients are not part of this model.
- RustUtil.FilterEscapedMessage (and RustUtil.FilterEscapedServerMessage, RustUtil.FilterServerMessage, RustUtil.FilterQuotedMessage): these cover errors whose only backslashes are the escaped quotes of the message and that hold no line break anywhere, before, inside or after the message; the message must neither spell the placeholder nor contain ` at src/dbserver/src` (the source location may only follow it, in the two server forms). For any other error (another backslash escape, a backslash or line break in the surrounding text, a message spelling the placeholder or holding the source-location text), only the general contract of `FilterMessage` applies: no line break, and no backslash once a message matched.
- The exact text of Go runtime panics on failed lookups is not modelled. The panic carries the failed `Lookup` instead.

## Findings

| source | as written | input that shows it | evidently intended | confidence | as-written member | corrected member |
|---|---|---|---|---|---|---|
| go/client.go:32-35, 99-113 | `UseDatabase` stores the copied metadata in `DbClient.md`. That field shadows the embedded client's `md` and is never read: `timeoutContext` is a `*Client` method and reads `client.md`. | A client whose metadata has no `database` key, then `c.UseDatabase("db").Execute(sql)`: the request carries no `database` header. | Requests made after `UseDatabase(db)` carry `database = db`. | not executed; follows from Go's field promotion rules | GoClient.ExecuteAfterUseDatabase | GoClient.ExecuteAfterUseDatabaseFixed |
