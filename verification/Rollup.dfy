/** The aggregation cascade raw -> 1m -> 5m -> 1h, for any aggregate that merges associatively and
    commutatively: materialized views fire on each inserted block, and the tables merge partial rows of one
    sorting key whenever and in whatever order they like.
  */
module Rollup {

  /** The columns of the metrics and span_stats rollups that views group by. */
  datatype Column =
    | TenantId | Timestamp | Service | Host
    | MetricName | Fingerprint
    | ServiceVersion | Environment | Pod | SpanName | KindString | StatusCodeString | HttpStatusBucket
    | HttpRoute | HttpMethod | RpcSystem | DbSystem | DbName | QueryHash
    | MessagingSystem | MessagingDestination | MessagingConsumerGroup
    | CloudProvider | CloudPlatform | CloudRegion | K8sNode | PeerName | PeerType

  datatype Cell = Time(seconds: int) | Number(n: int) | Text(s: string)

  type Cells = map<Column, Cell>

  /** A raw row lifted to a partial aggregate, or a stored partial row. */
  datatype Row<A> = Row(cells: Cells, agg: A)

  datatype Option<A> = None | Some(value: A)

  /** A rollup: the view's GROUP BY and truncation, and the table's ORDER BY. */
  datatype Level = Level(bucket: nat, groupBy: set<Column>, orderBy: set<Column>)

  /** toStartOfMinute, toStartOfFiveMinutes, toStartOfHour on seconds since the epoch. */
  function Truncate(seconds: int, bucket: nat): int
    requires bucket > 0
  {
    seconds - seconds % bucket
  }

  function TruncateCell(c: Cell, bucket: nat): Cell {
    if c.Time? && bucket > 0 then Time(Truncate(c.seconds, bucket)) else c
  }

  /** The view's key: the GROUP BY columns, `timestamp` being the truncated alias. */
  function GroupKey(l: Level, cells: Cells): Cells {
    map c | c in cells && c in l.groupBy :: if c == Timestamp then TruncateCell(cells[c], l.bucket) else cells[c]
  }

  /** The table's key: rows that agree on the ORDER BY columns may be merged. */
  function MergeKey(l: Level, cells: Cells): Cells {
    map c | c in cells && c in l.orderBy :: cells[c]
  }

  ghost predicate Mergeable<A(!new)>(plus: (A, A) -> A) {
    && (forall a, b :: plus(a, b) == plus(b, a))
    && (forall a, b, c :: plus(plus(a, b), c) == plus(a, plus(b, c)))
  }

  function Join<A>(plus: (A, A) -> A, x: Option<A>, y: Option<A>): Option<A> {
    if x.None? then y else if y.None? then x else Some(plus(x.value, y.value))
  }

  function OnlyIf<A>(b: bool, a: A): Option<A> {
    if b then Some(a) else None
  }

  /** What a query sees for one key: the rows of that key combined. */
  function Total<A>(plus: (A, A) -> A, rows: seq<Row<A>>, at: Cells -> Cells, key: Cells): Option<A> {
    if rows == [] then None
    else
      var last := rows[|rows| - 1];
      Join(plus, Total(plus, rows[..|rows| - 1], at, key), OnlyIf(at(last.cells) == key, last.agg))
  }

  // ---------------------------------------------------------------- the view

  /** Add one value to the group of its key. */
  function Put<A>(plus: (A, A) -> A, groups: seq<Row<A>>, key: Cells, a: A): seq<Row<A>> {
    if groups == [] then [Row(key, a)]
    else
      var last, rest := groups[|groups| - 1], groups[..|groups| - 1];
      if last.cells == key then rest + [Row(key, plus(last.agg, a))] else Put(plus, rest, key, a) + [last]
  }

  /** SELECT ... GROUP BY over one inserted block: one row per key. */
  function View<A>(plus: (A, A) -> A, l: Level, block: seq<Row<A>>): seq<Row<A>> {
    if block == [] then []
    else
      var last := block[|block| - 1];
      Put(plus, View(plus, l, block[..|block| - 1]), GroupKey(l, last.cells), last.agg)
  }

  // ---------------------------------------------------------------- the cascade

  datatype Step<A> = InsertBlock(rows: seq<Row<A>>) | Merge(level: nat, i: nat, j: nat)

  /** All raw rows inserted so far, and the stored partial rows of each level. */
  datatype State<A> = State(raw: seq<Row<A>>, tables: seq<seq<Row<A>>>)

  function Empty<A>(levels: seq<Level>): State<A> {
    State([], seq(|levels|, _ => []))
  }

  /** The block that reaches level n: each view reads the block its source table was just given. */
  function BlockAt<A>(plus: (A, A) -> A, levels: seq<Level>, n: nat, block: seq<Row<A>>): seq<Row<A>>
    requires n < |levels|
  {
    View(plus, levels[n], if n == 0 then block else BlockAt(plus, levels, n - 1, block))
  }

  /** Two rows of one sorting key become one. */
  function MergeRows<A>(plus: (A, A) -> A, rows: seq<Row<A>>, i: nat, j: nat): seq<Row<A>>
    requires i < j < |rows|
  {
    rows[..i] + [Row(rows[i].cells, plus(rows[i].agg, rows[j].agg))] + rows[i + 1..j] + rows[j + 1..]
  }

  predicate Allowed<A(!new)>(levels: seq<Level>, s: State<A>, step: Step<A>) {
    match step
    case InsertBlock(_) => true
    case Merge(n, i, j) =>
      && n < |levels| == |s.tables| && i < j < |s.tables[n]|
      && MergeKey(levels[n], s.tables[n][i].cells) == MergeKey(levels[n], s.tables[n][j].cells)
  }

  function Next<A(!new)>(plus: (A, A) -> A, levels: seq<Level>, s: State<A>, step: Step<A>): State<A>
    requires |s.tables| == |levels| && Allowed(levels, s, step)
  {
    match step
    case InsertBlock(block) =>
      State(s.raw + block,
            seq(|levels|, n requires 0 <= n < |levels| => s.tables[n] + BlockAt(plus, levels, n, block)))
    case Merge(n, i, j) => s.(tables := s.tables[n := MergeRows(plus, s.tables[n], i, j)])
  }

  ghost predicate Run<A(!new)>(plus: (A, A) -> A, levels: seq<Level>, s: State<A>, steps: seq<Step<A>>, t: State<A>)
    requires |s.tables| == |levels|
    decreases |steps|
  {
    if steps == [] then s == t
    else Allowed(levels, s, steps[0]) && Run(plus, levels, Next(plus, levels, s, steps[0]), steps[1..], t)
  }

  /** Each view groups by what its table sorts by, the same columns at every level, and buckets nest. */
  ghost predicate Cascade(levels: seq<Level>) {
    && (forall n :: 0 <= n < |levels| ==>
          levels[n].bucket > 0 && levels[n].groupBy == levels[n].orderBy)
    && (forall n :: 1 <= n < |levels| ==>
          && levels[n].bucket % levels[n - 1].bucket == 0
          && levels[n].groupBy == levels[n - 1].groupBy)
  }

  // ---------------------------------------------------------------- totals

  lemma JoinAssociative<A(!new)>(plus: (A, A) -> A, x: Option<A>, y: Option<A>, z: Option<A>)
    requires Mergeable(plus)
    ensures Join(plus, Join(plus, x, y), z) == Join(plus, x, Join(plus, y, z))
    ensures Join(plus, x, y) == Join(plus, y, x)
  {
  }

  lemma {:induction false} TotalConcat<A(!new)>(plus: (A, A) -> A, a: seq<Row<A>>, b: seq<Row<A>>, at: Cells -> Cells,
                                                key: Cells)
    requires Mergeable(plus)
    ensures Total(plus, a + b, at, key) == Join(plus, Total(plus, a, at, key), Total(plus, b, at, key))
  {
    if b == [] {
      assert a + b == a;
    } else {
      var last := b[|b| - 1];
      TotalConcat(plus, a, b[..|b| - 1], at, key);
      assert (a + b)[..|a + b| - 1] == a + b[..|b| - 1];
      JoinAssociative(plus, Total(plus, a, at, key), Total(plus, b[..|b| - 1], at, key),
          OnlyIf(at(last.cells) == key, last.agg));
    }
  }

  lemma TotalOne<A(!new)>(plus: (A, A) -> A, row: Row<A>, at: Cells -> Cells, key: Cells)
    ensures Total(plus, [row], at, key) == OnlyIf(at(row.cells) == key, row.agg)
  {
    assert [row][..0] == [];
  }

  lemma {:induction false} PutTotal<A(!new)>(plus: (A, A) -> A, groups: seq<Row<A>>, put: Cells, a: A,
                                             at: Cells -> Cells, key: Cells)
    requires Mergeable(plus)
    ensures Total(plus, Put(plus, groups, put, a), at, key) ==
            Join(plus, Total(plus, groups, at, key), OnlyIf(at(put) == key, a))
  {
    if groups == [] {
      TotalOne(plus, Row(put, a), at, key);
    } else {
      var last, rest := groups[|groups| - 1], groups[..|groups| - 1];
      var t, l, p := Total(plus, rest, at, key), OnlyIf(at(last.cells) == key, last.agg), OnlyIf(at(put) == key, a);
      JoinAssociative(plus, t, l, p);
      JoinAssociative(plus, t, p, l);
      JoinAssociative(plus, l, p, t);
      if last.cells == put {
        assert (rest + [Row(put, plus(last.agg, a))])[..|rest|] == rest;
      } else {
        PutTotal(plus, rest, put, a, at, key);
        var more := Put(plus, rest, put, a);
        assert (more + [last])[..|more|] == more;
      }
    }
  }

  /** `direct` is `at` of the level's group key. */
  ghost predicate Through(at: Cells -> Cells, direct: Cells -> Cells, l: Level) {
    forall c {:trigger GroupKey(l, c)} :: direct(c) == at(GroupKey(l, c))
  }

  /** Grouping a block loses nothing: a key's total over the view's rows is its total over the block. */
  lemma {:induction false} ViewTotal<A(!new)>(plus: (A, A) -> A, l: Level, block: seq<Row<A>>, at: Cells -> Cells,
                                              direct: Cells -> Cells, key: Cells)
    requires Mergeable(plus) && Through(at, direct, l)
    ensures Total(plus, View(plus, l, block), at, key) == Total(plus, block, direct, key)
  {
    if block != [] {
      var last, rest := block[|block| - 1], block[..|block| - 1];
      ViewTotal(plus, l, rest, at, direct, key);
      PutTotal(plus, View(plus, l, rest), GroupKey(l, last.cells), last.agg, at, key);
    }
  }

  predicate DistinctCells<A>(rows: seq<Row<A>>) {
    forall i, j :: 0 <= i < j < |rows| ==> rows[i].cells != rows[j].cells
  }

  lemma {:induction false} PutKeepsDistinct<A>(plus: (A, A) -> A, groups: seq<Row<A>>, key: Cells, a: A)
    requires DistinctCells(groups)
    ensures DistinctCells(Put(plus, groups, key, a))
    ensures forall r :: r in Put(plus, groups, key, a) ==>
              r.cells == key || exists g :: g in groups && g.cells == r.cells
  {
    if groups != [] {
      var last, rest := groups[|groups| - 1], groups[..|groups| - 1];
      if last.cells != key {
        PutKeepsDistinct(plus, rest, key, a);
        var more := Put(plus, rest, key, a);
        forall i | 0 <= i < |more| ensures more[i].cells != last.cells {
          assert more[i] in more;
        }
      }
    }
  }

  /** A view gives one row per group of the block. */
  lemma {:induction false} ViewIsGrouped<A>(plus: (A, A) -> A, l: Level, block: seq<Row<A>>)
    ensures DistinctCells(View(plus, l, block))
  {
    if block != [] {
      var last, rest := block[|block| - 1], block[..|block| - 1];
      ViewIsGrouped(plus, l, rest);
      PutKeepsDistinct(plus, View(plus, l, rest), GroupKey(l, last.cells), last.agg);
    }
  }

  /** Merging two rows of one key leaves every total alone. */
  lemma MergeTotal<A(!new)>(plus: (A, A) -> A, rows: seq<Row<A>>, i: nat, j: nat, at: Cells -> Cells, key: Cells)
    requires Mergeable(plus) && i < j < |rows| && at(rows[i].cells) == at(rows[j].cells)
    ensures Total(plus, MergeRows(plus, rows, i, j), at, key) == Total(plus, rows, at, key)
  {
    var a, x, b, y, c := rows[..i], rows[i], rows[i + 1..j], rows[j], rows[j + 1..];
    var xy := Row(x.cells, plus(x.agg, y.agg));
    assert rows == a + [x] + b + [y] + c;
    TotalFive(plus, a, x, b, y, c, at, key);
    TotalConcat(plus, a + [xy] + b, c, at, key);
    TotalConcat(plus, a + [xy], b, at, key);
    TotalConcat(plus, a, [xy], at, key);
    TotalOne(plus, xy, at, key);
    var ta, tb := Total(plus, a, at, key), Total(plus, b, at, key);
    var tx, ty := OnlyIf(at(x.cells) == key, x.agg), OnlyIf(at(y.cells) == key, y.agg);
    JoinAssociative(plus, Join(plus, ta, tx), tb, ty);
    JoinAssociative(plus, Join(plus, ta, tx), ty, tb);
    JoinAssociative(plus, tb, ty, ta);
    JoinAssociative(plus, ta, tx, ty);
  }

  lemma TotalFive<A(!new)>(plus: (A, A) -> A, a: seq<Row<A>>, x: Row<A>, b: seq<Row<A>>, y: Row<A>, c: seq<Row<A>>,
                           at: Cells -> Cells, key: Cells)
    requires Mergeable(plus)
    ensures Total(plus, a + [x] + b + [y] + c, at, key) ==
            Join(plus, Join(plus, Join(plus, Join(plus, Total(plus, a, at, key), OnlyIf(at(x.cells) == key, x.agg)),
                Total(plus, b, at, key)),
                                  OnlyIf(at(y.cells) == key, y.agg)), Total(plus, c, at, key))
  {
    TotalConcat(plus, a + [x] + b + [y], c, at, key);
    TotalConcat(plus, a + [x] + b, [y], at, key);
    TotalConcat(plus, a + [x], b, at, key);
    TotalConcat(plus, a, [x], at, key);
    TotalOne(plus, x, at, key);
    TotalOne(plus, y, at, key);
  }

  // ---------------------------------------------------------------- keys compose

  lemma TruncateMultiple(m: nat, a: nat, t: int)
    requires a > 0 && m > 0
    ensures Truncate(Truncate(t, a), a * m) == Truncate(t, a * m)
  {
    var b := a * m;
    assert b > 0 by { assert a * m >= a * 1; }
    var k, r := t / b, t % b;
    var s, u := r / a, r % a;
    assert t == b * k + r && r == a * s + u;
    assert t == a * (m * k + s) + u by { assert b * k == a * (m * k); assert a * (m * k) + a * s == a * (m * k + s); }
    ModUnique(t, a, m * k + s, u);
    assert Truncate(t, a) == b * k + a * s;
    assert 0 <= a * s <= r < b by { assert a * s == r - u; assert s >= 0; }
    ModUnique(b * k + a * s, b, k, a * s);
  }

  lemma AtLeastOnce(d: nat, n: int)
    requires n >= 1
    ensures d * n >= d
  {
    assert d * n == d * (n - 1) + d;
  }

  lemma ModUnique(x: int, d: nat, k: int, r: int)
    requires d > 0 && x == d * k + r && 0 <= r < d
    ensures x % d == r
  {
    var q, m := x / d, x % d;
    assert x == d * q + m;
    var diff := k - q;
    assert d * diff == m - r by { assert d * diff == d * k - d * q; }
    if diff >= 1 {
      AtLeastOnce(d, diff);
    } else if diff <= -1 {
      AtLeastOnce(d, -diff);
    }
  }

  lemma TruncateNests(t: int, a: nat, b: nat)
    requires a > 0 && b > 0 && b % a == 0
    ensures Truncate(Truncate(t, a), b) == Truncate(t, b)
  {
    var m := b / a;
    assert b == a * m;
    assert m > 0;
    TruncateMultiple(m, a, t);
  }

  /** A truncated time is the start of the one bucket that holds it. */
  lemma TruncateIsBucketStart(t: int, n: nat, start: int)
    requires n > 0
    ensures Truncate(t, n) == start <==> start % n == 0 && start <= t < start + n
  {
    var b := Truncate(t, n);
    assert t == n * (t / n) + t % n;
    ModUnique(b, n, t / n, 0);
    if start % n == 0 && start <= t < start + n {
      assert start == n * (start / n);
      ModUnique(t, n, start / n, t - start);
    }
  }

  /** A row is grouped under the bucket that holds its time and under its own other GROUP BY columns. */
  ghost predicate InBucket(cells: Cells, columns: set<Column>, seconds: nat, key: Cells)
    requires seconds > 0
  {
    && (forall c :: c in key <==> c in cells && c in columns)
    && (forall c :: c in key && c != Timestamp ==> key[c] == cells[c])
    && (Timestamp in key ==> HoldsTime(key[Timestamp], cells[Timestamp], seconds))
  }

  predicate HoldsTime(start: Cell, at: Cell, seconds: nat)
    requires seconds > 0
  {
    if at.Time? then
      start.Time? && start.seconds % seconds == 0 && start.seconds <= at.seconds < start.seconds + seconds
    else start == at
  }

  /** Which columns there are, and what a view makes of each, decide the group. */
  lemma InBucketByCells(cells: Cells, key: Cells, columns: set<Column>, seconds: nat)
    requires seconds > 0 && cells.Keys == columns && key.Keys == columns && Timestamp in columns
    ensures InBucket(cells, columns, seconds, key) <==>
            forall c :: c in columns ==> SameCell(cells[c], key[c], c, seconds)
  {
  }

  predicate SameCell(cell: Cell, key: Cell, c: Column, seconds: nat)
    requires seconds > 0
  {
    if c == Timestamp then HoldsTime(key, cell, seconds) else cell == key
  }

  lemma GroupKeyIsBucket(l: Level, cells: Cells, key: Cells)
    requires l.bucket > 0
    ensures GroupKey(l, cells) == key <==> InBucket(cells, l.groupBy, l.bucket, key)
  {
    var g := GroupKey(l, cells);
    if Timestamp in cells && cells[Timestamp].Time? {
      var t := cells[Timestamp].seconds;
      TruncateIsBucketStart(t, l.bucket, Truncate(t, l.bucket));
      if Timestamp in key && key[Timestamp].Time? {
        TruncateIsBucketStart(t, l.bucket, key[Timestamp].seconds);
      }
    }
    if InBucket(cells, l.groupBy, l.bucket, key) {
      forall c ensures (c in g <==> c in key) && (c in g ==> g[c] == key[c]) {
      }
      assert g == key;
    }
  }

  /** Grouping by a coarser level after a finer one is grouping by the coarser one directly. */
  lemma GroupKeysCompose(fine: Level, coarse: Level, cells: Cells)
    requires fine.bucket > 0 && coarse.bucket > 0 && coarse.bucket % fine.bucket == 0
    requires coarse.groupBy == fine.groupBy
    ensures GroupKey(coarse, GroupKey(fine, cells)) == GroupKey(coarse, cells)
  {
    if Timestamp in cells && cells[Timestamp].Time? {
      TruncateNests(cells[Timestamp].seconds, fine.bucket, coarse.bucket);
    }
  }

  /** A stored row's sorting key is the group it was made for. */
  lemma MergeKeyOfGroup(l: Level, cells: Cells)
    requires l.groupBy == l.orderBy
    ensures MergeKey(l, GroupKey(l, cells)) == GroupKey(l, cells)
  {
  }

  // ---------------------------------------------------------------- the cascade agrees with GROUP BY

  lemma FinerFirst(levels: seq<Level>, n: nat, at: Cells -> Cells, direct: Cells -> Cells)
    requires Cascade(levels) && 1 <= n < |levels| && Through(at, direct, levels[n])
    ensures Through(direct, direct, levels[n - 1])
  {
    forall c ensures direct(c) == direct(GroupKey(levels[n - 1], c)) {
      assert direct(c) == at(GroupKey(levels[n], c));
      GroupKeysCompose(levels[n - 1], levels[n], c);
    }
  }

  /** One block, seen through the views up to level n, has the totals of the raw block. */
  lemma {:induction false} BlockTotal<A(!new)>(plus: (A, A) -> A, levels: seq<Level>, n: nat, block: seq<Row<A>>,
                                               at: Cells -> Cells, direct: Cells -> Cells, key: Cells)
    requires Mergeable(plus) && Cascade(levels) && n < |levels| && Through(at, direct, levels[n])
    ensures Total(plus, BlockAt(plus, levels, n, block), at, key) == Total(plus, block, direct, key)
  {
    if n == 0 {
      ViewTotal(plus, levels[0], block, at, direct, key);
    } else {
      var source := BlockAt(plus, levels, n - 1, block);
      ViewTotal(plus, levels[n], source, at, direct, key);
      FinerFirst(levels, n, at, direct);
      BlockTotal(plus, levels, n - 1, block, direct, direct, key);
    }
  }

  function ByMergeKey(l: Level): Cells -> Cells {
    c => MergeKey(l, c)
  }

  function ByGroupKey(l: Level): Cells -> Cells {
    c => GroupKey(l, c)
  }

  /** At every level and key, the stored rows combine to the GROUP BY over all raw rows. */
  ghost predicate Agrees<A(!new)>(plus: (A, A) -> A, levels: seq<Level>, s: State<A>) {
    && |s.tables| == |levels|
    && forall n, key :: 0 <= n < |levels| ==>
         Total(plus, s.tables[n], ByMergeKey(levels[n]), key) == Total(plus, s.raw, ByGroupKey(levels[n]), key)
  }

  lemma InsertAgrees<A(!new)>(plus: (A, A) -> A, levels: seq<Level>, s: State<A>, block: seq<Row<A>>)
    requires Mergeable(plus) && Cascade(levels) && Agrees(plus, levels, s)
    ensures Agrees(plus, levels, Next(plus, levels, s, InsertBlock(block)))
  {
    var t := Next(plus, levels, s, InsertBlock(block));
    forall n, key | 0 <= n < |levels|
      ensures Total(plus, t.tables[n], ByMergeKey(levels[n]), key) == Total(plus, t.raw, ByGroupKey(levels[n]), key)
    {
      var at, direct := ByMergeKey(levels[n]), ByGroupKey(levels[n]);
      forall c ensures direct(c) == at(GroupKey(levels[n], c)) {
        MergeKeyOfGroup(levels[n], c);
      }
      BlockTotal(plus, levels, n, block, at, direct, key);
      TotalConcat(plus, s.tables[n], BlockAt(plus, levels, n, block), at, key);
      TotalConcat(plus, s.raw, block, direct, key);
    }
  }

  lemma MergeAgrees<A(!new)>(plus: (A, A) -> A, levels: seq<Level>, s: State<A>, n: nat, i: nat, j: nat)
    requires Mergeable(plus) && Agrees(plus, levels, s) && Allowed(levels, s, Merge(n, i, j))
    ensures Agrees(plus, levels, Next(plus, levels, s, Merge(n, i, j)))
  {
    forall key ensures Total(plus, MergeRows(plus, s.tables[n], i, j), ByMergeKey(levels[n]), key) ==
                       Total(plus, s.tables[n], ByMergeKey(levels[n]), key) {
      MergeTotal(plus, s.tables[n], i, j, ByMergeKey(levels[n]), key);
    }
  }

  lemma {:induction false} RunAgrees<A(!new)>(plus: (A, A) -> A, levels: seq<Level>, s: State<A>, steps: seq<Step<A>>,
                                              t: State<A>)
    requires Mergeable(plus) && Cascade(levels) && Agrees(plus, levels, s) && Run(plus, levels, s, steps, t)
    ensures Agrees(plus, levels, t)
    decreases |steps|
  {
    if steps != [] {
      match steps[0] {
        case InsertBlock(block) => InsertAgrees(plus, levels, s, block);
        case Merge(n, i, j) => MergeAgrees(plus, levels, s, n, i, j);
      }
      RunAgrees(plus, levels, Next(plus, levels, s, steps[0]), steps[1..], t);
    }
  }

  /** For every sequence of inserted blocks and every order of merges, every level agrees with one GROUP BY. */
  lemma CascadeAgrees<A(!new)>(plus: (A, A) -> A, levels: seq<Level>, steps: seq<Step<A>>, s: State<A>)
    requires Mergeable(plus) && Cascade(levels) && Run(plus, levels, Empty(levels), steps, s)
    ensures Agrees(plus, levels, s)
  {
    RunAgrees(plus, levels, Empty(levels), steps, s);
  }
}
