/**
 * The Flight SQL library side, reduced to what the clients observe: the
 * server's replies (flight info with endpoints and tickets, batch
 * streams), the requests the clients send with their headers, and Arrow
 * reference counting of received batches (Go's `Retain`/`Release`).
 */
module Flight {
  import opened Wrappers
  import opened Arrow

  /** An opaque, server-issued result handle. */
  datatype Ticket = Ticket(handle: seq<int>)

  /** An endpoint of a result set; in the wire format the ticket is optional. */
  datatype Endpoint = Endpoint(ticket: Option<Ticket>)

  datatype FlightInfo = FlightInfo(endpoints: seq<Endpoint>)

  /** What a result stream delivers: some items, then a clean end or a failure. */
  datatype Stream<T> = Stream(items: seq<T>, failure: Option<string>)

  /** An opaque server-side prepared-statement handle. */
  datatype Handle = Handle(id: seq<int>)

  /** The remote operations the clients issue. */
  datatype Op =
    | ExecuteOp(sql: string)
    | ExecuteUpdateOp(sql: string)
    | PrepareOp(sql: string)
    | ExecutePreparedOp(statement: Handle, parameters: Batch)
    | ClosePreparedOp(statement: Handle)
    | DoGetOp(ticket: Option<Ticket>)

  /** One request as the server receives it: the operation and the headers sent with it. */
  datatype Request<H> = Request(op: Op, headers: H)

  // Reference-counted batches (Go)

  type BatchId = nat

  /** A batch together with the identity of its reference-counted buffers. */
  datatype Record = Record(id: BatchId, batch: Batch)

  function IdSet(records: seq<Record>): set<BatchId> {
    set r | r in records :: r.id
  }

  predicate DistinctIds(records: seq<Record>) {
    forall i, j :: 0 <= i < j < |records| ==> records[i].id != records[j].id
  }

  /** The counts after releasing one reference: at zero the buffers are freed and the id leaves the table. */
  function Released(refs: map<BatchId, nat>, id: BatchId): map<BatchId, nat>
    requires id in refs
  {
    if refs[id] <= 1 then refs - {id} else refs[id := refs[id] - 1]
  }

  /** The counts after releasing one reference to each id in `ids`. */
  function ReleasedAll(refs: map<BatchId, nat>, ids: set<BatchId>): (r: map<BatchId, nat>)
    ensures forall id :: id in r ==> id in refs
  {
    map id | id in refs && (id !in ids || refs[id] > 1) :: if id in ids then refs[id] - 1 else refs[id]
  }

  /** The counts after the caller acquires one reference to each newly allocated record. */
  function Acquired(refs: map<BatchId, nat>, records: seq<Record>): map<BatchId, nat> {
    if records == [] then refs
    else Acquired(refs, records[..|records| - 1])[records[|records| - 1].id := 1]
  }

  /** Records the allocator may hand out: distinct and not live yet. */
  predicate Allocatable(refs: map<BatchId, nat>, records: seq<Record>) {
    DistinctIds(records) && forall r :: r in records ==> r.id !in refs
  }

  /** Every record is live, each counted once per holder. */
  predicate AllLive(refs: map<BatchId, nat>, records: seq<Record>) {
    forall r :: r in records ==> r.id in refs
  }

  lemma AcquiredSnoc(refs: map<BatchId, nat>, records: seq<Record>, r: Record)
    ensures Acquired(refs, records + [r]) == Acquired(refs, records)[r.id := 1]
  {
    assert (records + [r])[..|records|] == records;
  }

  /** Acquiring gives each new record exactly one reference and leaves every other count alone. */
  lemma {:induction false} AcquiredAt(refs: map<BatchId, nat>, records: seq<Record>, id: BatchId)
    ensures id in IdSet(records) ==> id in Acquired(refs, records) && Acquired(refs, records)[id] == 1
    ensures id !in IdSet(records) ==> (id in Acquired(refs, records) <==> id in refs)
    ensures id !in IdSet(records) && id in refs ==> Acquired(refs, records)[id] == refs[id]
  {
    if records != [] {
      var init := records[..|records| - 1];
      assert records == init + [records[|records| - 1]];
      assert IdSet(records) == IdSet(init) + {records[|records| - 1].id};
      AcquiredAt(refs, init, id);
    }
  }

  lemma ReleasedAllStep(refs: map<BatchId, nat>, ids: set<BatchId>, id: BatchId)
    requires id in refs && id !in ids
    ensures id in ReleasedAll(refs, ids)
    ensures Released(ReleasedAll(refs, ids), id) == ReleasedAll(refs, ids + {id})
  {
  }

  /**
   * Handing out fresh records and then releasing each of them once restores
   * the allocator exactly: nothing leaks and nothing else is touched.
   */
  lemma ReleaseUndoesAcquire(refs: map<BatchId, nat>, records: seq<Record>)
    requires Allocatable(refs, records)
    ensures ReleasedAll(Acquired(refs, records), IdSet(records)) == refs
  {
    var acquired := Acquired(refs, records);
    var after := ReleasedAll(acquired, IdSet(records));
    forall id | id in refs ensures id in after && after[id] == refs[id] {
      assert id !in IdSet(records);
      AcquiredAt(refs, records, id);
    }
    forall id | id in after ensures id in refs {
      AcquiredAt(refs, records, id);
    }
  }

  /** The process-wide Arrow allocator: the live batches and their reference counts. */
  class Memory {
    var refs: map<BatchId, nat>

    constructor ()
      ensures refs == map[]
    {
      refs := map[];
    }

    method Allocate(id: BatchId)
      requires id !in refs
      modifies this
      ensures refs == old(refs)[id := 1]
    {
      refs := refs[id := 1];
    }

    method Retain(id: BatchId)
      requires id in refs
      modifies this
      ensures refs == old(refs)[id := old(refs)[id] + 1]
    {
      refs := refs[id := refs[id] + 1];
    }

    method Release(id: BatchId)
      requires id in refs
      modifies this
      ensures refs == Released(old(refs), id)
    {
      refs := Released(refs, id);
    }
  }

  /**
   * A Flight record reader over a stream. `Next` drops the reader's
   * reference to the previous record and allocates the next one; the
   * reader holds one reference to its current record until the next
   * `Next` or `Release`. A stream failure only stops the iteration.
   */
  class RecordReader {
    const alloc: Memory
    const items: seq<Record>
    const failure: Option<string>
    var pos: nat
    var holding: bool

    ghost predicate Valid()
      reads this, alloc
    {
      && pos <= |items|
      && (holding ==> 0 < pos && items[pos - 1].id in alloc.refs)
    }

    constructor (alloc: Memory, s: Stream<Record>)
      ensures this.alloc == alloc && items == s.items && failure == s.failure
      ensures pos == 0 && !holding && Valid()
    {
      this.alloc := alloc;
      items := s.items;
      failure := s.failure;
      pos := 0;
      holding := false;
    }

    /** The counts once the reader has dropped its current record, if it holds one. */
    ghost function Dropped(refs: map<BatchId, nat>): map<BatchId, nat>
      reads this
      requires holding ==> 0 < pos <= |items| && items[pos - 1].id in refs
    {
      if holding then Released(refs, items[pos - 1].id) else refs
    }

    method Next() returns (more: bool)
      requires Valid()
      requires pos < |items| ==> items[pos].id !in alloc.refs
      modifies this, alloc
      ensures Valid()
      ensures more == (old(pos) < |items|)
      ensures more ==> pos == old(pos) + 1 && holding &&
                       alloc.refs == old(Dropped(alloc.refs))[items[old(pos)].id := 1]
      ensures !more ==> pos == old(pos) && !holding && alloc.refs == old(Dropped(alloc.refs))
    {
      if holding {
        alloc.Release(items[pos - 1].id);
        holding := false;
      }
      if pos < |items| {
        alloc.Allocate(items[pos].id);
        pos := pos + 1;
        holding := true;
        more := true;
      } else {
        more := false;
      }
    }

    method Current() returns (r: Record)
      requires Valid() && holding
      ensures r == items[pos - 1]
    {
      r := items[pos - 1];
    }

    method Release()
      requires Valid()
      modifies this, alloc
      ensures Valid() && !holding && pos == old(pos)
      ensures alloc.refs == old(Dropped(alloc.refs))
    {
      if holding {
        alloc.Release(items[pos - 1].id);
        holding := false;
      }
    }
  }
}
