/** EmitUsage and the whole accounting chain: the rows a request mapped, its stat rows, the recorder's buffer and
    what becomes of it.
  */
module Accounting {
  import opened Recorder
  import U = UsageRows

  /** A mapped request: the mapper's tally, the encoded size, and the hour each stat row is stamped with. */
  datatype Request = Request(tenant: nat, signal: string, usage: seq<U.Usage>, totalBytes: Uint64, hours: seq<int>)
  {
    /** Tallies are 64-bit counters of a request's rows; a request maps fewer than 2^64. */
    predicate Valid() {
      |hours| == |usage| && U.TotalRecords(usage) < U.WORD
    }
  }

  function KeyAt(req: Request, i: nat): Key
    requires i < |req.usage| == |req.hours|
  {
    Key(req.tenant, req.hours[i], req.signal, req.usage[i].service, req.usage[i].environment)
  }

  /** The rows the first n resources mapped for a key. */
  function MappedUpTo(req: Request, k: Key, n: nat): nat
    requires n <= |req.usage| == |req.hours|
  {
    if n == 0 then 0
    else MappedUpTo(req, k, n - 1) + if KeyAt(req, n - 1) == k then req.usage[n - 1].records else 0
  }

  function Mapped(req: Request, k: Key): nat
    requires req.Valid()
  {
    MappedUpTo(req, k, |req.usage|)
  }

  /** The stat rows of a request, as the recorder gets them: one per resource, unless nothing was mapped. */
  predicate Emission(req: Request, batch: seq<Option<Row>>)
    requires req.Valid()
  {
    if U.TotalRecords(req.usage) == 0 then batch == []
    else
      && |batch| == |req.usage|
      && forall i :: 0 <= i < |batch| ==>
           batch[i].Some? && batch[i].value.key == KeyAt(req, i) && batch[i].value.records == req.usage[i].records
  }

  function BytesOf(batch: seq<Option<Row>>): nat {
    if batch == [] then 0
    else BytesOf(batch[..|batch| - 1]) + match batch[|batch| - 1] case None => 0 case Some(row) => row.bytes
  }

  /** The stat rows carry the request's bytes, all of them. */
  predicate CarriesBytes(req: Request, batch: seq<Option<Row>>) {
    U.TotalRecords(req.usage) > 0 ==> U.Wrap(BytesOf(batch)) == req.totalBytes
  }

  lemma {:induction false} SameBytes(batch: seq<Option<Row>>, rows: seq<U.StatRow>)
    requires |batch| == |rows|
    requires forall i :: 0 <= i < |rows| ==> batch[i].Some? && batch[i].value.bytes == rows[i].bytes
    ensures BytesOf(batch) == U.SumBytes(rows)
  {
    if rows != [] {
      SameBytes(batch[..|rows| - 1], rows[..|rows| - 1]);
    }
  }

  // ---------------------------------------------------------------- the code

  method NewRow(req: Request, i: nat, row: U.StatRow) returns (stat: StatRow)
    requires i < |req.usage| == |req.hours| && row.bytes < U.WORD && row.records < U.WORD
    requires row.service == req.usage[i].service && row.environment == req.usage[i].environment
    ensures fresh(stat) && stat.Value() == Row(KeyAt(req, i), 0, row.records, row.bytes)
  {
    stat := new StatRow(KeyAt(req, i), 0, row.records, row.bytes);
  }

  predicate StatIs(req: Request, i: nat, row: U.StatRow, stat: Row)
    requires i < |req.usage| == |req.hours|
  {
    stat.key == KeyAt(req, i) && stat.records == req.usage[i].records && stat.bytes == row.bytes
  }

  /** The stat rows as new objects. */
  method StampRows(req: Request, rows: seq<U.StatRow>) returns (batch: seq<StatRow>)
    requires req.Valid() && U.RowPerResource(rows, req.usage) && U.Encodable(rows)
    ensures |batch| == |rows| && forall i :: 0 <= i < |batch| ==> fresh(batch[i])
    ensures forall i :: 0 <= i < |batch| ==> StatIs(req, i, rows[i], batch[i].Value())
  {
    U.TallyPrefix(req.usage, 0);
    batch := [];
    for i := 0 to |rows|
      invariant |batch| == i && forall j :: 0 <= j < i ==> fresh(batch[j])
      invariant forall j :: 0 <= j < i ==> StatIs(req, j, rows[j], batch[j].Value())
    {
      var stat := NewRow(req, i, rows[i]);
      batch := batch + [stat];
    }
  }

  /** The rows, or none for a request that mapped nothing. */
  method RowsOf(req: Request) returns (rows: seq<U.StatRow>)
    requires req.Valid()
    ensures U.TotalRecords(req.usage) == 0 ==> rows == []
    ensures U.TotalRecords(req.usage) > 0 ==>
              U.RowPerResource(rows, req.usage) && U.Encodable(rows) && U.Wrap(U.SumBytes(rows)) == req.totalBytes
  {
    rows := U.Rows(req.usage, req.totalBytes);
  }

  lemma SomethingMapped(usage: seq<U.Usage>)
    requires U.TotalRecords(usage) > 0
    ensures usage != []
  {
  }

  method Stamp(req: Request) returns (batch: seq<StatRow>)
    requires req.Valid()
    ensures forall i :: 0 <= i < |batch| ==> fresh(batch[i])
    ensures Emission(req, Contents(batch)) && CarriesBytes(req, Contents(batch))
  {
    var rows := RowsOf(req);
    if |rows| == 0 {
      if U.TotalRecords(req.usage) > 0 {
        SomethingMapped(req.usage);
      }
      return [];
    }
    batch := StampRows(req, rows);
    SameBytes(Contents(batch), rows);
  }

  /** EmitUsage: the recorder is null when statistics are off. */
  method EmitUsage(rec: HourlyRecorder?, req: Request) returns (ghost emitted: seq<Option<Row>>)
    requires req.Valid() && (rec != null ==> rec.Valid())
    modifies if rec == null then {} else {rec} + rec.rows.Values
    ensures Emission(req, emitted) && CarriesBytes(req, emitted)
    ensures rec != null ==> rec.Valid() && rec.closing == old(rec.closing)
    ensures rec != null ==>
              rec.Buffered() == if rec.closing then old(rec.Buffered()) else RecordAll(old(rec.Buffered()), emitted)
  {
    var batch := Stamp(req);
    emitted := Contents(batch);
    if rec == null {
      return;
    }
    if |batch| > 0 {
      assert Objects(batch) !! rec.rows.Values;
      rec.Record(batch);
    }
  }

  // ---------------------------------------------------------------- one request

  lemma RowsOneMore(batch: seq<Option<Row>>, n: nat)
    requires n < |batch| && batch[n].Some?
    ensures Rows(batch[..n + 1]) == Rows(batch[..n]) + [batch[n].value]
  {
    assert batch[..n + 1][..n] == batch[..n];
  }

  lemma {:induction false} EmissionUpTo(req: Request, batch: seq<Option<Row>>, k: Key, n: nat)
    requires req.Valid() && Emission(req, batch) && n <= |batch|
    ensures n <= |req.usage| && Sum(Rows(batch[..n]), k, Records) == MappedUpTo(req, k, n)
  {
    if n > 0 {
      EmissionUpTo(req, batch, k, n - 1);
      RowsOneMore(batch, n - 1);
      assert (Rows(batch[..n - 1]) + [batch[n - 1].value])[..|Rows(batch[..n - 1])|] == Rows(batch[..n - 1]);
    }
  }

  lemma {:induction false} NothingMapped(req: Request, k: Key, n: nat)
    requires req.Valid() && U.TotalRecords(req.usage) == 0 && n <= |req.usage|
    ensures MappedUpTo(req, k, n) == 0
  {
    if n > 0 {
      NothingMapped(req, k, n - 1);
      U.TallyPrefix(req.usage, 0);
    }
  }

  /** What a request's stat rows carry for a key is what it mapped for it. */
  lemma EmissionCarriesMapped(req: Request, batch: seq<Option<Row>>, k: Key)
    requires req.Valid() && Emission(req, batch)
    ensures Sum(Rows(batch), k, Records) == Mapped(req, k)
  {
    if U.TotalRecords(req.usage) == 0 {
      NothingMapped(req, k, |req.usage|);
    } else {
      EmissionUpTo(req, batch, k, |batch|);
      assert batch[..|batch|] == batch;
    }
  }

  /** Resources without rows, which the mappers leave out of the tally, carry nothing. */
  function RowsFor(parts: seq<U.Usage>, service: string, environment: string): nat {
    if parts == [] then 0
    else
      var last := parts[|parts| - 1];
      RowsFor(parts[..|parts| - 1], service, environment) +
      if last.service == service && last.environment == environment then last.records else 0
  }

  lemma {:induction false} TallyKeepsRows(parts: seq<U.Usage>, service: string, environment: string)
    ensures RowsFor(U.NonEmpty(parts), service, environment) == RowsFor(parts, service, environment)
  {
    if parts != [] {
      var rest := parts[..|parts| - 1];
      TallyKeepsRows(rest, service, environment);
      if parts[|parts| - 1].records > 0 {
        assert (U.NonEmpty(rest) + [parts[|parts| - 1]])[..|U.NonEmpty(rest)|] == U.NonEmpty(rest);
      } else {
        assert U.NonEmpty(parts) == U.NonEmpty(rest);
      }
    }
  }

  lemma {:induction false} MappedIsRows(req: Request, k: Key, n: nat)
    requires req.Valid() && n <= |req.usage| && forall i :: 0 <= i < n ==> req.hours[i] == k.hour
    requires k.tenant == req.tenant && k.signal == req.signal
    ensures MappedUpTo(req, k, n) == RowsFor(req.usage[..n], k.service, k.environment)
  {
    if n > 0 {
      MappedIsRows(req, k, n - 1);
      assert req.usage[..n][..n - 1] == req.usage[..n - 1];
    }
  }

  /** A request stamped within one hour has mapped, for a key of that hour, exactly the rows of the resources of
      the key's service and environment; `parts` is every resource with its row count, as the mappers tally it. */
  lemma MappedRows(req: Request, parts: seq<U.Usage>, k: Key)
    requires req.Valid() && req.usage == U.NonEmpty(parts)
    requires forall i :: 0 <= i < |req.hours| ==> req.hours[i] == k.hour
    requires k.tenant == req.tenant && k.signal == req.signal
    ensures Mapped(req, k) == RowsFor(parts, k.service, k.environment)
  {
    MappedIsRows(req, k, |req.usage|);
    assert req.usage[..|req.usage|] == req.usage;
    TallyKeepsRows(parts, k.service, k.environment);
  }

  // ---------------------------------------------------------------- every request

  /** The batches recorded before the recorder closes. */
  ghost function Accepted(s: State, ls: seq<Label>, t: State): seq<seq<Option<Row>>>
    requires Run(s, ls, t)
    decreases |ls|
  {
    if ls == [] then []
    else (if ls[0].Record? && !s.closing then [ls[0].batch] else []) + Accepted(Apply(s, ls[0]), ls[1..], t)
  }

  function SumOf(batches: seq<seq<Option<Row>>>, k: Key, f: Field): nat {
    if batches == [] then 0 else Sum(Rows(batches[0]), k, f) + SumOf(batches[1..], k, f)
  }

  lemma {:induction false} AcceptedIsRecorded(s: State, ls: seq<Label>, t: State, k: Key, f: Field)
    requires Run(s, ls, t)
    ensures Sum(t.recorded, k, f) == Sum(s.recorded, k, f) + SumOf(Accepted(s, ls, t), k, f)
    decreases |ls|
  {
    if ls != [] {
      var next := Apply(s, ls[0]);
      AcceptedIsRecorded(next, ls[1..], t, k, f);
      if ls[0].Record? && !s.closing {
        SumOfBoth(s.recorded, Rows(ls[0].batch), k, f);
        var rest := Accepted(next, ls[1..], t);
        assert ([ls[0].batch] + rest)[1..] == rest;
      } else {
        assert [] + Accepted(next, ls[1..], t) == Accepted(next, ls[1..], t);
      }
    }
  }

  /** These batches are the stat rows of these requests. */
  predicate EmittedBy(reqs: seq<Request>, batches: seq<seq<Option<Row>>>) {
    |reqs| == |batches| && forall i :: 0 <= i < |reqs| ==> reqs[i].Valid() && Emission(reqs[i], batches[i])
  }

  function MappedBy(reqs: seq<Request>, k: Key): nat
    requires forall i :: 0 <= i < |reqs| ==> reqs[i].Valid()
  {
    if reqs == [] then 0 else Mapped(reqs[0], k) + MappedBy(reqs[1..], k)
  }

  lemma {:induction false} BatchesCarryMapped(reqs: seq<Request>, batches: seq<seq<Option<Row>>>, k: Key)
    requires EmittedBy(reqs, batches)
    ensures SumOf(batches, k, Records) == MappedBy(reqs, k)
  {
    if reqs != [] {
      EmissionCarriesMapped(reqs[0], batches[0], k);
      BatchesCarryMapped(reqs[1..], batches[1..], k);
    }
  }

  /** Over any run of requests, flushes, failures and Close: the rows mapped for a key by the requests recorded
      before Close are the records buffered, being published, published and dropped for it, exactly below 2^64 and
      up to whole words beyond; once a Close returned, published and dropped alone. */
  lemma MappedRowsAreAccounted(ls: seq<Label>, s: State, reqs: seq<Request>, k: Key)
    requires Run(START, ls, s) && EmittedBy(reqs, Accepted(START, ls, s))
    ensures var mapped := MappedBy(reqs, k);
            && Accounted(s, k, Records) <= mapped && (mapped - Accounted(s, k, Records)) % U.WORD == 0
            && (mapped < U.WORD ==> Accounted(s, k, Records) == mapped)
    ensures s.finished > 0 ==>
              Accounted(s, k, Records) == Sum(s.published, k, Records) + Sum(s.dropped, k, Records)
  {
    AcceptedIsRecorded(START, ls, s, k, Records);
    BatchesCarryMapped(reqs, Accepted(START, ls, s), k);
    NothingIsLostOrDoubled(ls, s, k, Records);
  }
}
