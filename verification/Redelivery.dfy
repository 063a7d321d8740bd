/** Redelivery after a crash: the deduplication window of a raw table, and what it makes of any history of
    inserts of batches with fixed boundaries, in any order, repeated and failing.

    Tokens of different batches are assumed different; `BatchesHaveDistinctTokens` gives that for batches that
    hold their offset ranges and a hash that does not collide on their token texts.
  */
module Redelivery {
  import opened InsertHandler
  import opened Ordering
  import DedupToken

  /** What one batch inserts, and under which insert_deduplication_token. */
  datatype Block = Block(token: string, rows: seq<Record>)

  datatype Entry = Entry(token: string, at: int)

  /** Table settings replicated_deduplication_window and replicated_deduplication_window_seconds. */
  datatype Window = Window(blocks: nat, seconds: int)

  datatype Table = Table(rows: seq<Record>, log: seq<Entry>)

  ghost predicate Distinct(blocks: seq<Block>) {
    forall i, j :: 0 <= i < j < |blocks| ==> blocks[i].token != blocks[j].token
  }

  ghost predicate NoCollision(hash: string -> string, texts: set<string>) {
    forall a, b :: a in texts && b in texts && hash(a) == hash(b) ==> a == b
  }

  /** Blocks of different record sets have different tokens. */
  lemma BatchesHaveDistinctTokens(signal: string, hash: string -> string, log: set<Record>, batches: seq<seq<Record>>,
                                  blocks: seq<Block>)
    requires |blocks| == |batches|
    requires forall i :: 0 <= i < |batches| ==>
               && DedupToken.HoldsItsRanges(log, Elements(batches[i]))
               && blocks[i].token == hash(DedupToken.TokenText(signal, Elements(batches[i])))
    requires forall i, j :: 0 <= i < j < |batches| ==> Elements(batches[i]) != Elements(batches[j])
    requires NoCollision(hash, set i | 0 <= i < |batches| :: DedupToken.TokenText(signal, Elements(batches[i])))
    ensures Distinct(blocks)
  {
    forall i, j | 0 <= i < j < |blocks| ensures blocks[i].token != blocks[j].token {
      DedupToken.TokenIsRecordSet(signal, log, batches[i], batches[j]);
    }
  }

  /** The token was logged by one of the last `blocks` inserts, and not too long ago. */
  predicate Live(log: seq<Entry>, token: string, now: int, w: Window) {
    exists k :: 0 <= k < |log| && |log| - w.blocks <= k && log[k].token == token && now - log[k].at <= w.seconds
  }

  /** The handler's insert of one batch: no rows, no insert; a live token drops the block. */
  function Insert(t: Table, b: Block, now: int, w: Window): Table {
    if b.rows == [] || Live(t.log, b.token, now, w) then t
    else Table(t.rows + b.rows, t.log + [Entry(b.token, now)])
  }

  // ---------------------------------------------------------------- any history of inserts

  /** One call of the handler's insert; `applied` says whether it took effect, whatever it reported. */
  datatype Attempt = Attempt(batch: nat, at: int, applied: bool)

  predicate ValidHistory(blocks: seq<Block>, h: seq<Attempt>) {
    forall i :: 0 <= i < |h| ==> h[i].batch < |blocks|
  }

  function After(blocks: seq<Block>, h: seq<Attempt>, w: Window): Table
    requires ValidHistory(blocks, h)
  {
    if h == [] then Table([], [])
    else
      var last, before := h[|h| - 1], After(blocks, h[..|h| - 1], w);
      if last.applied then Insert(before, blocks[last.batch], last.at, w) else before
  }

  /** The first time a batch with rows was applied. */
  datatype First = First(batch: nat, at: int)

  predicate Has(firsts: seq<First>, batch: nat) {
    exists k :: 0 <= k < |firsts| && firsts[k].batch == batch
  }

  predicate IsFirst(blocks: seq<Block>, firsts: seq<First>, a: Attempt)
    requires a.batch < |blocks|
  {
    a.applied && blocks[a.batch].rows != [] && !Has(firsts, a.batch)
  }

  /** The first applications of a history, in order. */
  function Firsts(blocks: seq<Block>, h: seq<Attempt>): (firsts: seq<First>)
    requires ValidHistory(blocks, h)
    ensures forall k :: 0 <= k < |firsts| ==> firsts[k].batch < |blocks| && blocks[firsts[k].batch].rows != []
  {
    if h == [] then []
    else
      var last, before := h[|h| - 1], Firsts(blocks, h[..|h| - 1]);
      if IsFirst(blocks, before, last) then before + [First(last.batch, last.at)] else before
  }

  /** Each of these batches' rows once. */
  function RowsOf(blocks: seq<Block>, firsts: seq<First>): seq<Record>
    requires forall k :: 0 <= k < |firsts| ==> firsts[k].batch < |blocks|
  {
    if firsts == [] then []
    else RowsOf(blocks, firsts[..|firsts| - 1]) + blocks[firsts[|firsts| - 1].batch].rows
  }

  /** A batch applied before was first applied among the last `blocks` first applications, and at most `seconds`
      seconds ago. */
  predicate ReachesBack(firsts: seq<First>, a: Attempt, w: Window) {
    a.applied && Has(firsts, a.batch) ==>
      exists k :: 0 <= k < |firsts| && firsts[k].batch == a.batch && |firsts| - k <= w.blocks &&
          a.at - firsts[k].at <= w.seconds
  }

  /** Every applied redelivery reaches back within the window: read off the history alone. */
  ghost predicate WithinWindow(blocks: seq<Block>, h: seq<Attempt>, w: Window)
    requires ValidHistory(blocks, h)
  {
    forall i :: 0 <= i < |h| ==> ReachesBack(Firsts(blocks, h[..i]), h[i], w)
  }

  /** The log names only batches applied before. */
  ghost predicate LogNamesFirsts(blocks: seq<Block>, firsts: seq<First>, log: seq<Entry>)
    requires forall k :: 0 <= k < |firsts| ==> firsts[k].batch < |blocks|
  {
    forall e :: e in log ==> exists k :: 0 <= k < |firsts| && blocks[firsts[k].batch].token == e.token
  }

  /** The log is exactly the first applications. */
  ghost predicate LogIsFirsts(blocks: seq<Block>, firsts: seq<First>, log: seq<Entry>)
    requires forall k :: 0 <= k < |firsts| ==> firsts[k].batch < |blocks|
  {
    && |log| == |firsts|
    && forall k :: 0 <= k < |log| ==> log[k] == Entry(blocks[firsts[k].batch].token, firsts[k].at)
  }

  lemma SameToken(blocks: seq<Block>, i: nat, j: nat)
    requires Distinct(blocks) && i < |blocks| && j < |blocks| && blocks[i].token == blocks[j].token
    ensures i == j
  {
  }

  /** A batch never applied has no live token, so its first application inserts. */
  lemma FirstInserts(blocks: seq<Block>, firsts: seq<First>, log: seq<Entry>, a: Attempt, w: Window)
    requires Distinct(blocks) && a.batch < |blocks| && !Has(firsts, a.batch)
    requires forall k :: 0 <= k < |firsts| ==> firsts[k].batch < |blocks|
    requires LogNamesFirsts(blocks, firsts, log)
    ensures !Live(log, blocks[a.batch].token, a.at, w)
  {
    forall k | 0 <= k < |log| ensures log[k].token != blocks[a.batch].token {
      assert log[k] in log;
      var j :| 0 <= j < |firsts| && blocks[firsts[j].batch].token == log[k].token;
      if log[k].token == blocks[a.batch].token {
        SameToken(blocks, firsts[j].batch, a.batch);
      }
    }
  }

  /** While the log is the first applications, a token is live exactly when its batch's reaches back. */
  lemma LiveIsReachingBack(blocks: seq<Block>, firsts: seq<First>, log: seq<Entry>, a: Attempt, w: Window)
    requires Distinct(blocks) && a.batch < |blocks| && a.applied && Has(firsts, a.batch)
    requires forall k :: 0 <= k < |firsts| ==> firsts[k].batch < |blocks|
    requires LogIsFirsts(blocks, firsts, log)
    ensures Live(log, blocks[a.batch].token, a.at, w) <==> ReachesBack(firsts, a, w)
  {
    if Live(log, blocks[a.batch].token, a.at, w) {
      var k :| 0 <= k < |log| && |log| - w.blocks <= k && log[k].token == blocks[a.batch].token &&
               a.at - log[k].at <= w.seconds;
      SameToken(blocks, firsts[k].batch, a.batch);
    }
    if ReachesBack(firsts, a, w) {
      var k :| 0 <= k < |firsts| && firsts[k].batch == a.batch && |firsts| - k <= w.blocks &&
               a.at - firsts[k].at <= w.seconds;
      assert log[k].token == blocks[a.batch].token;
    }
  }

  lemma WithinWindowPrefix(blocks: seq<Block>, h: seq<Attempt>, w: Window, n: nat)
    requires ValidHistory(blocks, h) && |h| == n + 1
    ensures WithinWindow(blocks, h, w) <==>
            WithinWindow(blocks, h[..n], w) && ReachesBack(Firsts(blocks, h[..n]), h[n], w)
  {
    forall i | 0 <= i < n ensures h[..n][..i] == h[..i] && h[..n][i] == h[i] {
      assert h[..n][..i] == h[..i];
    }
  }

  lemma RowsOneMore(blocks: seq<Block>, firsts: seq<First>, f: First)
    requires forall k :: 0 <= k < |firsts| ==> firsts[k].batch < |blocks|
    requires f.batch < |blocks|
    ensures RowsOf(blocks, firsts + [f]) == RowsOf(blocks, firsts) + blocks[f.batch].rows
  {
    assert (firsts + [f])[..|firsts|] == firsts;
  }

  /** Within the window the table holds each batch once and the log is the first applications; outside it the
      table holds more. */
  ghost predicate TableIs(blocks: seq<Block>, firsts: seq<First>, t: Table, within: bool)
    requires forall k :: 0 <= k < |firsts| ==> firsts[k].batch < |blocks|
  {
    && LogNamesFirsts(blocks, firsts, t.log)
    && (within ==> LogIsFirsts(blocks, firsts, t.log) && t.rows == RowsOf(blocks, firsts))
    && (!within ==> |RowsOf(blocks, firsts)| < |t.rows|)
  }

  lemma FirstApplied(blocks: seq<Block>, firsts: seq<First>, t: Table, a: Attempt, w: Window, within: bool)
    requires Distinct(blocks) && a.batch < |blocks| && IsFirst(blocks, firsts, a)
    requires forall k :: 0 <= k < |firsts| ==> firsts[k].batch < |blocks|
    requires TableIs(blocks, firsts, t, within)
    ensures TableIs(blocks, firsts + [First(a.batch, a.at)], Insert(t, blocks[a.batch], a.at, w), within)
  {
    FirstInserts(blocks, firsts, t.log, a, w);
    var f := First(a.batch, a.at);
    RowsOneMore(blocks, firsts, f);
    LogNamesMore(blocks, firsts, t.log, f, Entry(blocks[a.batch].token, a.at));
  }

  lemma LogNamesMore(blocks: seq<Block>, firsts: seq<First>, log: seq<Entry>, f: First, e: Entry)
    requires forall k :: 0 <= k < |firsts| ==> firsts[k].batch < |blocks|
    requires LogNamesFirsts(blocks, firsts, log) && f.batch < |blocks| && blocks[f.batch].token == e.token
    ensures LogNamesFirsts(blocks, firsts + [f], log + [e])
  {
    var more := firsts + [f];
    forall x | x in log + [e] ensures exists k :: 0 <= k < |more| && blocks[more[k].batch].token == x.token {
      if x in log {
        var k :| 0 <= k < |firsts| && blocks[firsts[k].batch].token == x.token;
        assert more[k] == firsts[k];
      } else {
        assert more[|firsts|] == f;
      }
    }
  }

  lemma AppliedAgain(blocks: seq<Block>, firsts: seq<First>, t: Table, a: Attempt, w: Window, within: bool)
    requires Distinct(blocks) && a.batch < |blocks| && a.applied && Has(firsts, a.batch) && blocks[a.batch].rows != []
    requires forall k :: 0 <= k < |firsts| ==> firsts[k].batch < |blocks|
    requires TableIs(blocks, firsts, t, within)
    ensures TableIs(blocks, firsts, Insert(t, blocks[a.batch], a.at, w), within && ReachesBack(firsts, a, w))
  {
    if within {
      LiveIsReachingBack(blocks, firsts, t.log, a, w);
    }
    var k :| 0 <= k < |firsts| && firsts[k].batch == a.batch;
    forall e | e in t.log + [Entry(blocks[a.batch].token, a.at)]
      ensures exists j :: 0 <= j < |firsts| && blocks[firsts[j].batch].token == e.token
    {
      if e !in t.log {
        assert blocks[firsts[k].batch].token == e.token;
      }
    }
  }

  lemma {:induction false} HistoryTable(blocks: seq<Block>, h: seq<Attempt>, w: Window)
    requires Distinct(blocks) && ValidHistory(blocks, h)
    ensures TableIs(blocks, Firsts(blocks, h), After(blocks, h, w), WithinWindow(blocks, h, w))
  {
    if h != [] {
      var n := |h| - 1;
      var firsts, t, within := Firsts(blocks, h[..n]), After(blocks, h[..n], w), WithinWindow(blocks, h[..n], w);
      HistoryTable(blocks, h[..n], w);
      WithinWindowPrefix(blocks, h, w, n);
      if IsFirst(blocks, firsts, h[n]) {
        FirstApplied(blocks, firsts, t, h[n], w, within);
      } else if h[n].applied && Has(firsts, h[n].batch) {
        AppliedAgain(blocks, firsts, t, h[n], w, within);
      }
    }
  }

  /** For every history of inserts, in any order, repeated, by any number of workers and crashed consumers, any
      of them failing: the table is each applied batch's rows once, in order of first application, if and only if
      every applied redelivery reaches back at most `blocks` first applications and `seconds` seconds. */
  lemma RedeliveryIsIdempotent(blocks: seq<Block>, h: seq<Attempt>, w: Window)
    requires Distinct(blocks) && ValidHistory(blocks, h)
    ensures After(blocks, h, w).rows == RowsOf(blocks, Firsts(blocks, h)) <==> WithinWindow(blocks, h, w)
  {
    HistoryTable(blocks, h, w);
  }

  // ---------------------------------------------------------------- crashes

  /** A consumer with any number of workers: batches `committed` up to `fetched` are in flight. */
  datatype Consumer = Consumer(committed: nat, fetched: nat)

  /** Tries come in any order and may fail; a crash goes back to the committed position. */
  datatype Event = Fetch | Try(batch: nat, at: int, applied: bool) | Commit(to: nat) | Crash

  /** At most `bound` batches are in flight. */
  predicate Possible(n: nat, bound: nat, c: Consumer, e: Event) {
    match e
    case Fetch => c.fetched < n && c.fetched - c.committed < bound
    case Try(b, _, _) => c.committed <= b < c.fetched
    case Commit(to) => c.committed <= to <= c.fetched
    case Crash => true
  }

  function Step(c: Consumer, e: Event): Consumer {
    match e
    case Fetch => c.(fetched := c.fetched + 1)
    case Try(_, _, _) => c
    case Commit(to) => c.(committed := to)
    case Crash => c.(fetched := c.committed)
  }

  function ConsumerAfter(es: seq<Event>): Consumer {
    if es == [] then Consumer(0, 0) else Step(ConsumerAfter(es[..|es| - 1]), es[|es| - 1])
  }

  predicate CrashRun(n: nat, bound: nat, es: seq<Event>) {
    es == [] || (CrashRun(n, bound, es[..|es| - 1]) && Possible(n, bound, ConsumerAfter(es[..|es| - 1]), es[|es| - 1]))
  }

  /** The inserts of a run. */
  function History(es: seq<Event>): seq<Attempt> {
    if es == [] then []
    else
      var e := es[|es| - 1];
      History(es[..|es| - 1]) + if e.Try? then [Attempt(e.batch, e.at, e.applied)] else []
  }

  predicate ComesSoon(firsts: seq<First>, a: Attempt, seconds: int) {
    a.applied ==> forall f :: f in firsts && f.batch == a.batch ==> a.at - f.at <= seconds
  }

  /** Every applied redelivery comes at most `seconds` seconds after the first application. */
  ghost predicate Soon(blocks: seq<Block>, h: seq<Attempt>, seconds: int)
    requires ValidHistory(blocks, h)
  {
    forall i :: 0 <= i < |h| ==> ComesSoon(Firsts(blocks, h[..i]), h[i], seconds)
  }

  /** First applications are of different batches, never far behind an earlier one, and below everything that
      can be in flight. */
  ghost predicate Spread(firsts: seq<First>, bound: nat, c: Consumer) {
    && c.committed <= c.fetched <= c.committed + bound
    && (forall j, k :: 0 <= j < k < |firsts| ==>
           firsts[j].batch != firsts[k].batch && firsts[j].batch < firsts[k].batch + bound)
    && (forall k :: 0 <= k < |firsts| ==> firsts[k].batch < c.committed + bound)
  }

  function Range(low: int, high: int): (r: set<int>)
    ensures forall x :: x in r <==> low <= x < high
    ensures |r| == if low < high then high - low else 0
    decreases high - low
  {
    if low < high then Range(low, high - 1) + {high - 1} else {}
  }

  lemma DistinctInRange(bs: seq<int>, low: int, high: int)
    requires forall j, k :: 0 <= j < k < |bs| ==> bs[j] != bs[k]
    requires forall k :: 0 <= k < |bs| ==> low <= bs[k] < high
    ensures |bs| <= |Range(low, high)|
  {
    SizeOfDistinct(bs);
    var used, all := set k | 0 <= k < |bs| :: bs[k], Range(low, high);
    assert all == used + (all - used);
  }

  lemma {:induction false} SizeOfDistinct(bs: seq<int>)
    requires forall j, k :: 0 <= j < k < |bs| ==> bs[j] != bs[k]
    ensures |set k | 0 <= k < |bs| :: bs[k]| == |bs|
  {
    if bs != [] {
      var n := |bs| - 1;
      SizeOfDistinct(bs[..n]);
      var rest := set k | 0 <= k < n :: bs[..n][k];
      assert (set k | 0 <= k < |bs| :: bs[k]) == rest + {bs[n]};
      assert bs[n] !in rest;
    }
  }

  /** A batch in flight now was first applied among the last 2 * bound - 1 first applications. */
  lemma InFlightIsRecent(firsts: seq<First>, bound: nat, c: Consumer, k: nat)
    requires Spread(firsts, bound, c) && k < |firsts| && c.committed <= firsts[k].batch
    ensures |firsts| - k <= 2 * bound - 1
  {
    var b := firsts[k].batch;
    var bs: seq<int> := seq(|firsts| - k, i requires 0 <= i < |firsts| - k => firsts[k + i].batch);
    DistinctInRange(bs, b - bound + 1, b + bound);
  }

  lemma FirstSpreads(firsts: seq<First>, bound: nat, c: Consumer, f: First)
    requires Spread(firsts, bound, c) && c.committed <= f.batch < c.fetched && !Has(firsts, f.batch)
    ensures Spread(firsts + [f], bound, c)
  {
  }

  lemma {:induction false} RunSpreads(blocks: seq<Block>, bound: nat, es: seq<Event>)
    requires CrashRun(|blocks|, bound, es)
    ensures ValidHistory(blocks, History(es)) && ConsumerAfter(es).fetched <= |blocks|
    ensures Spread(Firsts(blocks, History(es)), bound, ConsumerAfter(es))
  {
    if es != [] {
      var before, e := es[..|es| - 1], es[|es| - 1];
      RunSpreads(blocks, bound, before);
      var h, c := History(before), ConsumerAfter(before);
      if e.Try? {
        var a := Attempt(e.batch, e.at, e.applied);
        assert History(es) == h + [a] && (h + [a])[..|h|] == h;
        FirstAdded(blocks, h, a);
        if IsFirst(blocks, Firsts(blocks, h), a) {
          FirstSpreads(Firsts(blocks, h), bound, c, First(a.batch, a.at));
        }
      } else {
        assert History(es) == h;
        StepSpreads(Firsts(blocks, h), |blocks|, bound, c, e);
      }
    }
  }

  lemma FirstAdded(blocks: seq<Block>, h: seq<Attempt>, a: Attempt)
    requires ValidHistory(blocks, h) && a.batch < |blocks|
    ensures ValidHistory(blocks, h + [a])
    ensures Firsts(blocks, h + [a]) ==
            if IsFirst(blocks, Firsts(blocks, h), a) then Firsts(blocks, h) + [First(a.batch, a.at)]
            else Firsts(blocks, h)
  {
    assert (h + [a])[..|h|] == h;
  }

  lemma StepSpreads(firsts: seq<First>, n: nat, bound: nat, c: Consumer, e: Event)
    requires Spread(firsts, bound, c) && Possible(n, bound, c, e)
    ensures Spread(firsts, bound, Step(c, e))
  {
  }

  lemma {:induction false} RunReachesBack(blocks: seq<Block>, bound: nat, w: Window, es: seq<Event>)
    requires CrashRun(|blocks|, bound, es) && 2 * bound <= w.blocks + 1
    requires ValidHistory(blocks, History(es)) && Soon(blocks, History(es), w.seconds)
    ensures WithinWindow(blocks, History(es), w)
  {
    if es != [] {
      var before, e := es[..|es| - 1], es[|es| - 1];
      RunSpreads(blocks, bound, before);
      var h := History(before);
      if e.Try? {
        var h' := History(es);
        assert h'[..|h|] == h;
        SoonPrefix(blocks, h', w.seconds, |h|);
        RunReachesBack(blocks, bound, w, before);
        WithinWindowPrefix(blocks, h', w, |h|);
        TryReachesBack(blocks, h', bound, w, ConsumerAfter(before));
      } else {
        assert History(es) == h;
        RunReachesBack(blocks, bound, w, before);
      }
    }
  }

  lemma SoonPrefix(blocks: seq<Block>, h: seq<Attempt>, seconds: int, n: nat)
    requires ValidHistory(blocks, h) && Soon(blocks, h, seconds) && n <= |h|
    ensures Soon(blocks, h[..n], seconds)
  {
    forall i | 0 <= i < n ensures h[..n][..i] == h[..i] && h[..n][i] == h[i] {
      assert h[..n][..i] == h[..i];
    }
  }

  lemma TryReachesBack(blocks: seq<Block>, h: seq<Attempt>, bound: nat, w: Window, c: Consumer)
    requires ValidHistory(blocks, h) && h != [] && Soon(blocks, h, w.seconds) && 2 * bound <= w.blocks + 1
    requires var n := |h| - 1; Spread(Firsts(blocks, h[..n]), bound, c) && c.committed <= h[n].batch
    ensures ReachesBack(Firsts(blocks, h[..|h| - 1]), h[|h| - 1], w)
  {
    var n := |h| - 1;
    var firsts := Firsts(blocks, h[..n]);
    if h[n].applied && Has(firsts, h[n].batch) {
      var k :| 0 <= k < |firsts| && firsts[k].batch == h[n].batch;
      InFlightIsRecent(firsts, bound, c, k);
    }
  }

  /** However often a consumer crashes and rereads from its commit, with its workers inserting in any order and
      any insert failing: if at most `bound` batches are ever in flight, the window holds 2 * bound - 1 blocks,
      and no redelivery comes too late, the table holds each applied batch once, in order of first application. */
  lemma CrashesDoNotDuplicate(blocks: seq<Block>, bound: nat, w: Window, es: seq<Event>)
    requires Distinct(blocks) && CrashRun(|blocks|, bound, es) && 2 * bound <= w.blocks + 1
    requires ValidHistory(blocks, History(es)) && Soon(blocks, History(es), w.seconds)
    ensures After(blocks, History(es), w).rows == RowsOf(blocks, Firsts(blocks, History(es)))
  {
    RunReachesBack(blocks, bound, w, es);
    RedeliveryIsIdempotent(blocks, History(es), w);
  }
}
