/** metrics_1m_v2, metrics_5m_v2 and metrics_1h_v2: the cascade over raw metric points. */
module MetricRollups {
  import opened Rollup

  /** A row of the raw metrics table: the columns the views group by and the values they aggregate. `at` is the
      timestamp, a DateTime in seconds. */
  datatype Point = Point(
    tenantId: int, metricName: string, fingerprint: int, at: int, service: string, host: string,
    value: real, histSum: real, histCount: nat)

  /** What the views select for a column; the other columns are those of the span rollups. */
  function CellAt(p: Point, c: Column): Cell {
    match c
    case TenantId => Number(p.tenantId)
    case MetricName => Text(p.metricName)
    case Fingerprint => Number(p.fingerprint)
    case Timestamp => Time(p.at)
    case Service => Text(p.service)
    case Host => Text(p.host)
    case _ => Text("")
  }

  function CellsOver(p: Point, columns: set<Column>): Cells {
    map c | c in columns :: CellAt(p, c)
  }

  function CellsOf(p: Point): Cells {
    CellsOver(p, VIEW_COLUMNS)
  }

  /** val_min, val_max, val_sum, val_count, hist_sum, hist_count. */
  datatype Agg = Agg(min: real, max: real, sum: real, count: nat, histSum: real, histCount: nat)

  function Combine(a: Agg, b: Agg): Agg {
    Agg(if b.min < a.min then b.min else a.min,
        if b.max > a.max then b.max else a.max,
        a.sum + b.sum, a.count + b.count, a.histSum + b.histSum, a.histCount + b.histCount)
  }

  function Lift(p: Point): Row<Agg> {
    Row(CellsOf(p), Agg(p.value, p.value, p.value, 1, p.histSum, p.histCount))
  }

  function LiftAll(ps: seq<Point>): seq<Row<Agg>> {
    seq(|ps|, i requires 0 <= i < |ps| => Lift(ps[i]))
  }

  const VIEW_COLUMNS := {TenantId, MetricName, Fingerprint, Timestamp, Service, Host}
  const TABLE_COLUMNS := {TenantId, MetricName, Timestamp, Service, Host, Fingerprint}

  const LEVELS := [
    Level(60, VIEW_COLUMNS, TABLE_COLUMNS),
    Level(300, VIEW_COLUMNS, TABLE_COLUMNS),
    Level(3600, VIEW_COLUMNS, TABLE_COLUMNS)
  ]

  // ---------------------------------------------------------------- the direct GROUP BY

  /** The key of a stored row; `start` begins its bucket. */
  datatype Key = Key(tenantId: int, metricName: string, fingerprint: int, start: int, service: string, host: string)

  function KeyAt(k: Key, c: Column): Cell {
    match c
    case TenantId => Number(k.tenantId)
    case MetricName => Text(k.metricName)
    case Fingerprint => Number(k.fingerprint)
    case Timestamp => Time(k.start)
    case Service => Text(k.service)
    case Host => Text(k.host)
    case _ => Text("")
  }

  function KeyOver(k: Key, columns: set<Column>): Cells {
    map c | c in columns :: KeyAt(k, c)
  }

  function KeyCells(k: Key): Cells {
    KeyOver(k, VIEW_COLUMNS)
  }

  /** The point belongs to the key's bucket of that many seconds. */
  predicate Counts(p: Point, seconds: nat, k: Key)
    requires seconds > 0
  {
    && p.tenantId == k.tenantId && p.metricName == k.metricName && p.fingerprint == k.fingerprint
    && p.service == k.service && p.host == k.host
    && k.start % seconds == 0 && k.start <= p.at < k.start + seconds
  }

  /** The raw points of one key. */
  function Matching(ps: seq<Point>, seconds: nat, k: Key): seq<Point>
    requires seconds > 0
  {
    if ps == [] then []
    else
      var last := ps[|ps| - 1];
      Matching(ps[..|ps| - 1], seconds, k) + (if Counts(last, seconds, k) then [last] else [])
  }

  lemma ViewColumnsAre(c: Column)
    ensures c in VIEW_COLUMNS <==>
            c == TenantId || c == MetricName || c == Fingerprint || c == Timestamp || c == Service || c == Host
  {
  }

  lemma CountsByCells(p: Point, columns: set<Column>, seconds: nat, k: Key)
    requires seconds > 0
    requires forall c :: c in columns <==>
               c == TenantId || c == MetricName || c == Fingerprint || c == Timestamp || c == Service || c == Host
    ensures InBucket(CellsOver(p, columns), columns, seconds, KeyOver(k, columns)) <==> Counts(p, seconds, k)
  {
    InBucketByCells(CellsOver(p, columns), KeyOver(k, columns), columns, seconds);
    assert TenantId in columns && MetricName in columns && Fingerprint in columns;
    assert Timestamp in columns && Service in columns && Host in columns;
  }

  /** A view groups a point under a key exactly when it counts for it. */
  lemma GroupedIfCounts(p: Point, l: Level, k: Key)
    requires l.bucket > 0 && l.groupBy == VIEW_COLUMNS
    ensures GroupKey(l, CellsOf(p)) == KeyCells(k) <==> Counts(p, l.bucket, k)
  {
    GroupKeyIsBucket(l, CellsOf(p), KeyCells(k));
    forall c ensures c in l.groupBy <==>
               c == TenantId || c == MetricName || c == Fingerprint || c == Timestamp || c == Service || c == Host {
      ViewColumnsAre(c);
    }
    CountsByCells(p, l.groupBy, l.bucket, k);
  }

  function SumOf(ps: seq<Point>, f: Point -> real): real {
    if ps == [] then 0.0 else SumOf(ps[..|ps| - 1], f) + f(ps[|ps| - 1])
  }

  function CountOf(ps: seq<Point>, f: Point -> nat): nat {
    if ps == [] then 0 else CountOf(ps[..|ps| - 1], f) + f(ps[|ps| - 1])
  }

  function ValueOf(p: Point): real { p.value }

  function HistSumOf(p: Point): real { p.histSum }

  function HistCountOf(p: Point): nat { p.histCount }

  ghost predicate IsMin(m: real, ps: seq<Point>) {
    && (exists p :: p in ps && p.value == m)
    && (forall p :: p in ps ==> m <= p.value)
  }

  ghost predicate IsMax(m: real, ps: seq<Point>) {
    && (exists p :: p in ps && p.value == m)
    && (forall p :: p in ps ==> p.value <= m)
  }

  /** The combined stored row is what aggregating these points at once gives. */
  ghost predicate Describes(o: Option<Agg>, ps: seq<Point>) {
    match o
    case None => ps == []
    case Some(a) =>
      && a.count == |ps| > 0
      && a.sum == SumOf(ps, ValueOf)
      && IsMin(a.min, ps)
      && IsMax(a.max, ps)
      && a.histSum == SumOf(ps, HistSumOf)
      && a.histCount == CountOf(ps, HistCountOf)
  }

  lemma DescribesOneMore(o: Option<Agg>, ps: seq<Point>, p: Point)
    requires Describes(o, ps)
    ensures Describes(Join(Combine, o, Some(Lift(p).agg)), ps + [p])
  {
    var more := ps + [p];
    assert more[..|ps|] == ps;
    assert p in more && forall q :: q in more <==> q in ps || q == p;
    if o.Some? {
      assert exists q :: q in ps && q.value == o.value.min;
      assert exists q :: q in ps && q.value == o.value.max;
    }
  }

  lemma {:induction false} TotalDescribes(ps: seq<Point>, l: Level, k: Key)
    requires l.bucket > 0 && l.groupBy == VIEW_COLUMNS
    ensures Describes(Total(Combine, LiftAll(ps), ByGroupKey(l), KeyCells(k)), Matching(ps, l.bucket, k))
  {
    if ps != [] {
      var n := |ps| - 1;
      TotalDescribes(ps[..n], l, k);
      assert LiftAll(ps)[..n] == LiftAll(ps[..n]);
      GroupedIfCounts(ps[n], l, k);
      var before := Total(Combine, LiftAll(ps[..n]), ByGroupKey(l), KeyCells(k));
      if Counts(ps[n], l.bucket, k) {
        DescribesOneMore(before, Matching(ps[..n], l.bucket, k), ps[n]);
      } else {
        assert Matching(ps, l.bucket, k) == Matching(ps[..n], l.bucket, k);
      }
    }
  }

  lemma LevelsCascade()
    ensures Cascade(LEVELS)
  {
  }

  /** What a query of a table sees for a key. */
  function Stored(table: seq<Row<Agg>>, l: Level, k: Key): Option<Agg> {
    Total(Combine, table, ByMergeKey(l), KeyCells(k))
  }

  /** After any inserts of raw points and any merges, in metrics_1m, 5m and 1h the stored rows of each key combine
      to the minimum, maximum, sums and counts over exactly the raw points of the key's tenant, metric,
      fingerprint, service and host whose time lies in its 60, 300 or 3600 seconds. */
  lemma RollupsAgree(steps: seq<Step<Agg>>, s: State<Agg>, points: seq<Point>, k: Key)
    requires Run(Combine, LEVELS, Empty(LEVELS), steps, s) && s.raw == LiftAll(points)
    ensures |s.tables| == 3
    ensures Describes(Stored(s.tables[0], LEVELS[0], k), Matching(points, 60, k))
    ensures Describes(Stored(s.tables[1], LEVELS[1], k), Matching(points, 300, k))
    ensures Describes(Stored(s.tables[2], LEVELS[2], k), Matching(points, 3600, k))
  {
    LevelsCascade();
    CascadeAgrees(Combine, LEVELS, steps, s);
    LevelDescribes(LEVELS, s, points, 0, k);
    LevelDescribes(LEVELS, s, points, 1, k);
    LevelDescribes(LEVELS, s, points, 2, k);
  }

  lemma LevelDescribes(levels: seq<Level>, s: State<Agg>, points: seq<Point>, n: nat, k: Key)
    requires Agrees(Combine, levels, s) && s.raw == LiftAll(points) && n < |levels|
    requires levels[n].bucket > 0 && levels[n].groupBy == VIEW_COLUMNS
    ensures Describes(Stored(s.tables[n], levels[n], k), Matching(points, levels[n].bucket, k))
  {
    TotalDescribes(points, levels[n], k);
  }
}
