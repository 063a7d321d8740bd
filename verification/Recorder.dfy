/** HourlyRecorder: per-key usage counters, buffered under a mutex and flushed by one goroutine.

    The class is the code under the lock, on the heap: which objects it clones, keeps and hands out. The step
    system below it interleaves Record and Close with the flushing goroutine, whose publish runs without the
    lock. Both are stated with the same functions on buffer contents. Counters are 64-bit and wrap as Go's do.
  */
module Recorder {
  import U = UsageRows

  type Uint64 = n: nat | n < U.WORD

  datatype Option<T> = None | Some(value: T)

  /** The ORDER BY key of the ingestion_stats table. */
  datatype Key = Key(tenant: nat, hour: int, signal: string, service: string, environment: string)

  datatype Row = Row(key: Key, fingerprint: nat, records: Uint64, bytes: Uint64)

  type Buffer = map<Key, Row>

  // ---------------------------------------------------------------- buffer contents

  predicate Keyed(buf: Buffer) {
    forall k :: k in buf ==> buf[k].key == k
  }

  function RecordOne(buf: Buffer, row: Row): Buffer {
    var k := row.key;
    if k in buf then
      buf[k := Row(buf[k].key, buf[k].fingerprint, U.Wrap(buf[k].records + row.records),
          U.Wrap(buf[k].bytes + row.bytes))]
    else
      buf[k := row]
  }

  /** One Record call; null rows are skipped. */
  function RecordAll(buf: Buffer, batch: seq<Option<Row>>): Buffer {
    if batch == [] then buf
    else
      var before := RecordAll(buf, batch[..|batch| - 1]);
      match batch[|batch| - 1] case None => before case Some(row) => RecordOne(before, row)
  }

  /** The rows are the buffer's, each once, in any order. */
  ghost predicate Listing(rows: seq<Row>, buf: Buffer) {
    && |rows| == |buf|
    && (forall i :: 0 <= i < |rows| ==> rows[i].key in buf && rows[i] == buf[rows[i].key])
    && (forall i, j :: 0 <= i < j < |rows| ==> rows[i].key != rows[j].key)
  }

  // ---------------------------------------------------------------- the code

  class StatRow {
    const key: Key
    const fingerprint: nat
    var records: Uint64
    var bytes: Uint64

    constructor (key: Key, fingerprint: nat, records: Uint64, bytes: Uint64)
      ensures Value() == Row(key, fingerprint, records, bytes)
    {
      this.key, this.fingerprint, this.records, this.bytes := key, fingerprint, records, bytes;
    }

    function Value(): Row
      reads this
    {
      Row(key, fingerprint, records, bytes)
    }
  }

  method CloneRow(row: StatRow) returns (clone: StatRow)
    ensures fresh(clone) && clone.Value() == row.Value()
  {
    clone := new StatRow(row.key, row.fingerprint, row.records, row.bytes);
  }

  ghost function Contents(batch: seq<StatRow?>): (rows: seq<Option<Row>>)
    reads batch
    ensures |rows| == |batch|
    ensures forall i :: 0 <= i < |batch| ==> rows[i] == if batch[i] == null then None else Some(batch[i].Value())
  {
    if batch == [] then []
    else
      var last := batch[|batch| - 1];
      Contents(batch[..|batch| - 1]) + [if last == null then None else Some(last.Value())]
  }

  ghost function Values(rows: seq<StatRow>): (values: seq<Row>)
    reads rows
    ensures |values| == |rows|
    ensures forall i :: 0 <= i < |rows| ==> values[i] == rows[i].Value()
  {
    if rows == [] then [] else Values(rows[..|rows| - 1]) + [rows[|rows| - 1].Value()]
  }

  ghost function Objects(batch: seq<StatRow?>): set<StatRow> {
    set r: StatRow | r in batch
  }

  class HourlyRecorder {
    var rows: map<Key, StatRow>
    var closing: bool
    var dropped: nat
    /** Every object ever handed to the publisher. */
    ghost var handed: set<StatRow>

    ghost predicate Valid()
      reads this
    {
      forall k :: k in rows ==> rows[k].key == k && rows[k] !in handed
    }

    ghost function Buffered(): (buf: Buffer)
      reads this, rows.Values
      requires Valid()
      ensures Keyed(buf)
    {
      map k | k in rows :: rows[k].Value()
    }

    constructor ()
      ensures Valid() && Buffered() == map[] && !closing && dropped == 0 && handed == {}
    {
      rows, closing, dropped, handed := map[], false, 0, {};
    }

    /** The buffer only ever gains objects made here, so no caller holds one: that is the second precondition.
        Rows handed out earlier, and the caller's own, keep their values. */
    method Record(batch: seq<StatRow?>)
      requires Valid()
      requires Objects(batch) !! rows.Values
      modifies this`rows, rows.Values
      ensures Valid()
      ensures Buffered() == if closing then old(Buffered()) else RecordAll(old(Buffered()), old(Contents(batch)))
      ensures fresh(rows.Values - old(rows.Values))
      ensures Objects(batch) !! rows.Values
      ensures unchanged(handed) && unchanged(Objects(batch))
    {
      if closing {
        return;
      }
      ghost var contents := Contents(batch);
      ghost var before := Buffered();
      for i := 0 to |batch|
        invariant Valid() && handed == old(handed) && closing == old(closing)
        invariant Buffered() == RecordAll(before, contents[..i])
        invariant fresh(rows.Values - old(rows.Values))
        invariant Objects(batch) !! rows.Values
        invariant unchanged(handed) && unchanged(Objects(batch))
      {
        assert contents[..i + 1][..i] == contents[..i];
        var row := batch[i];
        if row == null {
          continue;
        }
        assert row in Objects(batch);
        Add(row);
      }
      assert contents[..|batch|] == contents;
    }

    /** One turn of the loop. */
    method Add(row: StatRow)
      requires Valid() && row !in rows.Values
      modifies this`rows, rows.Values
      ensures Valid()
      ensures Buffered() == RecordOne(old(Buffered()), old(row.Value()))
      ensures fresh(rows.Values - old(rows.Values))
    {
      var k := row.key;
      if k in rows {
        var cur := rows[k];
        cur.records := U.Wrap(cur.records + row.records);
        cur.bytes := U.Wrap(cur.bytes + row.bytes);
      } else {
        var clone := CloneRow(row);
        rows := rows[k := clone];
      }
    }

    /** Every buffered object once, in any order. */
    method ListRows() returns (out: seq<StatRow>)
      requires Valid()
      ensures Listing(Values(out), Buffered())
      ensures forall r :: r in out ==> r in rows.Values
    {
      out := [];
      var todo := rows.Keys;
      while todo != {}
        invariant todo <= rows.Keys
        invariant |out| + |todo| == |rows|
        invariant forall i :: 0 <= i < |out| ==> out[i].key in rows.Keys - todo && out[i] == rows[out[i].key]
        invariant forall i, j :: 0 <= i < j < |out| ==> out[i].key != out[j].key
        decreases |todo|
      {
        var k :| k in todo;
        todo := todo - {k};
        out := out + [rows[k]];
      }
      assert Buffered().Keys == rows.Keys;
    }

    /** The rows leave the buffer: what is recorded later goes to other objects. */
    method Snapshot() returns (out: seq<StatRow>)
      requires Valid()
      modifies this
      ensures Valid() && rows == map[] && closing == old(closing) && dropped == old(dropped)
      ensures Listing(Values(out), old(Buffered()))
      ensures handed == old(handed) + set r | r in out
      ensures forall r :: r in out ==> r in old(rows.Values) && r.Value() == old(r.Value())
    {
      out := ListRows();
      handed := handed + set r | r in out;
      rows := map[];
    }

    /** `sent` is what Publish was given; nothing means it was not called. */
    method Flush(publishOk: bool) returns (sent: seq<StatRow>)
      requires Valid()
      modifies this
      ensures Valid() && rows == map[] && closing == old(closing)
      ensures Listing(Values(sent), old(Buffered()))
      ensures dropped == old(dropped) + if publishOk then 0 else |sent|
      ensures handed == old(handed) + set r | r in sent
      ensures forall r :: r in sent ==> r in old(rows.Values) && r.Value() == old(r.Value())
    {
      sent := Snapshot();
      if |sent| == 0 {
        return;
      }
      if !publishOk {
        dropped := dropped + |sent|;
      }
    }

    /** Close, with the goroutine's last flush that it waits for; only the first call does anything. */
    method Close(publishOk: bool) returns (sent: seq<StatRow>)
      requires Valid() && (closing ==> rows == map[])
      modifies this
      ensures Valid() && closing && rows == map[]
      ensures Listing(Values(sent), old(Buffered()))
      ensures dropped == old(dropped) + if publishOk then 0 else |sent|
    {
      if closing {
        return [];
      }
      closing := true;
      sent := Flush(publishOk);
    }
  }

  // ---------------------------------------------------------------- amounts per key

  datatype Field = Records | Bytes

  function Amount(r: Row, f: Field): nat {
    match f case Records => r.records case Bytes => r.bytes
  }

  function Sum(rows: seq<Row>, k: Key, f: Field): nat {
    if rows == [] then 0
    else Sum(rows[..|rows| - 1], k, f) + if rows[|rows| - 1].key == k then Amount(rows[|rows| - 1], f) else 0
  }

  function Held(buf: Buffer, k: Key, f: Field): nat {
    if k in buf then Amount(buf[k], f) else 0
  }

  /** The rows of a Record call that are not null. */
  function Rows(batch: seq<Option<Row>>): seq<Row> {
    if batch == [] then []
    else Rows(batch[..|batch| - 1]) + match batch[|batch| - 1] case None => [] case Some(row) => [row]
  }

  lemma {:induction false} SumOfBoth(a: seq<Row>, b: seq<Row>, k: Key, f: Field)
    ensures Sum(a + b, k, f) == Sum(a, k, f) + Sum(b, k, f)
  {
    if b == [] {
      assert a + b == a;
    } else {
      SumOfBoth(a, b[..|b| - 1], k, f);
      assert (a + b)[..|a + b| - 1] == a + b[..|b| - 1];
    }
  }

  lemma {:induction false} SumOfListing(rows: seq<Row>, buf: Buffer, k: Key, f: Field)
    requires Listing(rows, buf) && Keyed(buf)
    ensures Sum(rows, k, f) == Held(buf, k, f)
  {
    if rows != [] {
      var n := |rows| - 1;
      SumOfListing(rows[..n], buf - {rows[n].key}, k, f);
    }
  }

  /** The buffer holds what was added, less whole 64-bit words where a counter wrapped. */
  predicate Gained(before: nat, after: nat, more: nat) {
    after <= before + more && (before + more - after) % U.WORD == 0
  }

  lemma WrapGains(a: nat, b: nat)
    ensures Gained(a, U.Wrap(a + b), b)
  {
  }

  lemma RecordOneGains(buf: Buffer, row: Row, k: Key, f: Field)
    requires Keyed(buf)
    ensures Keyed(RecordOne(buf, row))
    ensures Gained(Held(buf, k, f), Held(RecordOne(buf, row), k, f), if row.key == k then Amount(row, f) else 0)
  {
    if row.key == k && k in buf {
      WrapGains(Amount(buf[k], f), Amount(row, f));
    }
  }

  lemma GainedTwice(a: nat, b: nat, c: nat, x: nat, y: nat)
    requires Gained(a, b, x) && Gained(b, c, y)
    ensures Gained(a, c, x + y)
  {
    assert a + (x + y) - c == (a + x - b) + (b + y - c);
    WholeWords(a + x - b, b + y - c);
  }

  lemma OneMoreGains(buf: Buffer, before: Buffer, row: Row, rows: seq<Row>, k: Key, f: Field)
    requires Keyed(before) && Gained(Held(buf, k, f), Held(before, k, f), Sum(rows, k, f))
    ensures Keyed(RecordOne(before, row))
    ensures Gained(Held(buf, k, f), Held(RecordOne(before, row), k, f), Sum(rows + [row], k, f))
  {
    var more := if row.key == k then Amount(row, f) else 0;
    RecordOneGains(before, row, k, f);
    assert (rows + [row])[..|rows|] == rows;
    GainedTwice(Held(buf, k, f), Held(before, k, f), Held(RecordOne(before, row), k, f), Sum(rows, k, f), more);
  }

  lemma {:induction false} RecordAllGains(buf: Buffer, batch: seq<Option<Row>>, k: Key, f: Field)
    requires Keyed(buf)
    ensures Keyed(RecordAll(buf, batch))
    ensures Gained(Held(buf, k, f), Held(RecordAll(buf, batch), k, f), Sum(Rows(batch), k, f))
  {
    if batch != [] {
      var rest := batch[..|batch| - 1];
      RecordAllGains(buf, rest, k, f);
      match batch[|batch| - 1] {
        case None => assert Rows(batch) == Rows(rest);
        case Some(row) =>
          OneMoreGains(buf, RecordAll(buf, rest), row, Rows(rest), k, f);
          assert Rows(batch) == Rows(rest) + [row] && RecordAll(buf, batch) == RecordOne(RecordAll(buf, rest), row);
      }
    }
  }

  // ---------------------------------------------------------------- the step system

  datatype Runner = Waiting | Publishing(rows: seq<Row>, last: bool) | Exited

  /** `recorded`, `published` and `dropped` are histories; `finished` counts Close calls that returned. */
  datatype State = State(
    buffer: Buffer,
    closing: bool,
    runner: Runner,
    recorded: seq<Row>,
    published: seq<Row>,
    dropped: seq<Row>,
    finished: nat)

  datatype Label =
    | Record(batch: seq<Option<Row>>)
    | TimerFlush(rows: seq<Row>)
    | LastFlush(rows: seq<Row>)
    | PublishReturns(ok: bool)
    | CloseStarts
    | CloseReturns

  ghost predicate Enabled(s: State, l: Label) {
    match l
    case Record(_) => true
    case TimerFlush(rows) => s.runner.Waiting? && Listing(rows, s.buffer)
    case LastFlush(rows) => s.runner.Waiting? && s.closing && Listing(rows, s.buffer)
    case PublishReturns(_) => s.runner.Publishing?
    case CloseStarts => !s.closing
    // The first Close waits for the goroutine, and every other one for the first.
    case CloseReturns => s.closing && s.runner.Exited?
  }

  ghost function Apply(s: State, l: Label): State
    requires Enabled(s, l)
  {
    match l
    case Record(batch) =>
      if s.closing then s
      else s.(buffer := RecordAll(s.buffer, batch), recorded := s.recorded + Rows(batch))
    // An empty snapshot is not published.
    case TimerFlush(rows) => s.(buffer := map[], runner := if rows == [] then Waiting else Publishing(rows, false))
    case LastFlush(rows) => s.(buffer := map[], runner := if rows == [] then Exited else Publishing(rows, true))
    case PublishReturns(ok) =>
      s.(runner := if s.runner.last then Exited else Waiting,
         published := if ok then s.published + s.runner.rows else s.published,
         dropped := if ok then s.dropped else s.dropped + s.runner.rows)
    case CloseStarts => s.(closing := true)
    case CloseReturns => s.(finished := s.finished + 1)
  }

  const START := State(map[], false, Waiting, [], [], [], 0)

  function InHand(runner: Runner): seq<Row> {
    if runner.Publishing? then runner.rows else []
  }

  /** What became of everything recorded for a key. */
  function Accounted(s: State, k: Key, f: Field): nat {
    Held(s.buffer, k, f) + Sum(InHand(s.runner), k, f) + Sum(s.published, k, f) + Sum(s.dropped, k, f)
  }

  ghost predicate Conserved(s: State, k: Key, f: Field) {
    Gained(0, Accounted(s, k, f), Sum(s.recorded, k, f))
  }

  ghost predicate Inv(s: State) {
    && Keyed(s.buffer)
    && (s.runner.Publishing? && s.runner.last ==> s.closing && s.buffer == map[])
    && (s.runner.Exited? ==> s.closing && s.buffer == map[])
    && (s.finished > 0 ==> s.closing && s.runner.Exited?)
    && forall k, f :: Conserved(s, k, f)
  }

  /** Part of what is accounted for, the buffer, gains what is recorded. */
  lemma PartGained(part: nat, after: nat, others: nat, total: nat, more: nat)
    requires Gained(0, part + others, total) && Gained(part, after, more)
    ensures Gained(0, after + others, total + more)
  {
    var a, b := total - (part + others), part + more - after;
    assert (total + more) - (after + others) == a + b;
    WholeWords(a, b);
  }

  lemma WholeWords(a: int, b: int)
    requires a % U.WORD == 0 && b % U.WORD == 0
    ensures (a + b) % U.WORD == 0
  {
  }

  lemma RecordConserves(s: State, batch: seq<Option<Row>>, k: Key, f: Field)
    requires Keyed(s.buffer) && !s.closing && Conserved(s, k, f)
    ensures Keyed(Apply(s, Record(batch)).buffer) && Conserved(Apply(s, Record(batch)), k, f)
  {
    RecordAllGains(s.buffer, batch, k, f);
    SumOfBoth(s.recorded, Rows(batch), k, f);
    PartGained(Held(s.buffer, k, f), Held(RecordAll(s.buffer, batch), k, f), Accounted(s, k, f) - Held(s.buffer, k, f),
               Sum(s.recorded, k, f), Sum(Rows(batch), k, f));
  }

  lemma FlushConserves(s: State, rows: seq<Row>, l: Label, k: Key, f: Field)
    requires Keyed(s.buffer) && s.runner.Waiting? && Conserved(s, k, f)
    requires (l == TimerFlush(rows) || l == LastFlush(rows)) && Enabled(s, l)
    ensures Conserved(Apply(s, l), k, f)
  {
    SumOfListing(rows, s.buffer, k, f);
  }

  lemma PublishConserves(s: State, ok: bool, k: Key, f: Field)
    requires s.runner.Publishing? && Conserved(s, k, f)
    ensures Conserved(Apply(s, PublishReturns(ok)), k, f)
  {
    SumOfBoth(if ok then s.published else s.dropped, s.runner.rows, k, f);
  }

  lemma StepKeeps(s: State, l: Label)
    requires Inv(s) && Enabled(s, l)
    ensures Inv(Apply(s, l))
  {
    forall k, f ensures Conserved(Apply(s, l), k, f) {
      assert Conserved(s, k, f);
      match l {
        case Record(batch) => if !s.closing { RecordConserves(s, batch, k, f); }
        case TimerFlush(rows) => FlushConserves(s, rows, l, k, f);
        case LastFlush(rows) => FlushConserves(s, rows, l, k, f);
        case PublishReturns(ok) => PublishConserves(s, ok, k, f);
        case _ =>
      }
    }
    if l.Record? && !s.closing {
      RecordAllGains(s.buffer, l.batch, Key(0, 0, "", "", ""), Records);
    }
  }

  ghost predicate Run(s: State, ls: seq<Label>, t: State)
    decreases |ls|
  {
    if ls == [] then s == t else Enabled(s, ls[0]) && Run(Apply(s, ls[0]), ls[1..], t)
  }

  lemma {:induction false} RunKeeps(s: State, ls: seq<Label>, t: State)
    requires Inv(s) && Run(s, ls, t)
    ensures Inv(t)
    decreases |ls|
  {
    if ls != [] {
      StepKeeps(s, ls[0]);
      RunKeeps(Apply(s, ls[0]), ls[1..], t);
    }
  }

  /** Over every interleaving, what was recorded for a key is buffered, being published, published or dropped:
      exactly, while its total fits 64 bits, and up to whole words always. Once any Close returned, all of it is
      published or dropped. */
  lemma NothingIsLostOrDoubled(ls: seq<Label>, s: State, k: Key, f: Field)
    requires Run(START, ls, s)
    ensures var total := Sum(s.recorded, k, f);
            && Accounted(s, k, f) <= total && (total - Accounted(s, k, f)) % U.WORD == 0
            && (total < U.WORD ==> Accounted(s, k, f) == total)
    ensures s.finished > 0 ==>
              s.buffer == map[] && InHand(s.runner) == [] &&
                  Accounted(s, k, f) == Sum(s.published, k, f) + Sum(s.dropped, k, f)
  {
    assert Inv(START);
    RunKeeps(START, ls, s);
    assert Conserved(s, k, f);
  }

  /** Once closed, nothing more is recorded, and the buffer only empties. */
  lemma {:induction false} ClosedStaysClosed(s: State, ls: seq<Label>, t: State)
    requires s.closing && Run(s, ls, t)
    ensures t.closing && t.recorded == s.recorded && (t.buffer == s.buffer || t.buffer == map[])
    decreases |ls|
  {
    if ls != [] {
      ClosedStaysClosed(Apply(s, ls[0]), ls[1..], t);
    }
  }

  /** Nothing is dropped while no publish fails, and nothing published while all do. */
  lemma {:induction false} DroppedOnlyByFailure(s: State, ls: seq<Label>, t: State)
    requires Run(s, ls, t)
    ensures (forall i :: 0 <= i < |ls| && ls[i].PublishReturns? ==> ls[i].ok) ==> t.dropped == s.dropped
    ensures (forall i :: 0 <= i < |ls| && ls[i].PublishReturns? ==> !ls[i].ok) ==> t.published == s.published
    decreases |ls|
  {
    if ls != [] {
      DroppedOnlyByFailure(Apply(s, ls[0]), ls[1..], t);
    }
  }
}
