/** span_stats_1m, span_stats_5m and span_stats_1h: the same cascade with a 26-column key. */
module SpanRollups {
  import opened Rollup

  /** The columns of optikk.spans the first view reads. `returnedRows` is toFloat64OrNull of its attribute. */
  datatype Span = Span(
    tenantId: int, timestampNano: int,
    service: string, serviceVersion: string, environment: string, host: string, pod: string,
    name: string, kindString: string, statusCodeString: string, httpStatusBucket: string,
    httpRoute: string, httpMethod: string, dbSystem: string, dbName: string, queryHash: string,
    peerService: string, attributes: map<string, string>,
    returnedRows: Option<real>, durationNano: nat)

  /** attributes['k'], which is '' for an absent key. */
  function Attr(s: Span, k: string): (v: string)
    ensures v != "" ==> k in s.attributes && v == s.attributes[k]
    ensures k in s.attributes ==> v == s.attributes[k]
  {
    if k in s.attributes then s.attributes[k] else ""
  }

  predicate ClientSide(s: Span) {
    s.kindString == "CLIENT" || s.kindString == "PRODUCER"
  }

  function PeerNameOf(s: Span): string {
    if !ClientSide(s) then ""
    else if s.peerService != "" then s.peerService
    else if s.dbSystem != "" then s.dbSystem
    else if s.dbName != "" then s.dbName
    else if Attr(s, "server.address") != "" then Attr(s, "server.address")
    else if Attr(s, "messaging.destination.name") != "" then Attr(s, "messaging.destination.name")
    else ""
  }

  function PeerTypeOf(s: Span): string {
    if !ClientSide(s) then ""
    else if s.peerService != "" then ""
    else if s.dbSystem != "" then "database"
    else if s.dbName != "" then "database"
    else if Attr(s, "server.address") != "" then ""
    else if Attr(s, "messaging.destination.name") != "" then "messaging"
    else ""
  }

  function CloudRegionOf(s: Span): string {
    if Attr(s, "cloud.region") != "" then Attr(s, "cloud.region") else Attr(s, "aws.region")
  }

  const NANOS_PER_SECOND := 1_000_000_000

  /** The SELECT list of spans_to_span_stats_1m, before truncation. */
  function CellAt(s: Span, c: Column): Cell {
    match c
    case TenantId => Number(s.tenantId)
    case Timestamp => Time(s.timestampNano / NANOS_PER_SECOND)
    case Service => Text(s.service)
    case ServiceVersion => Text(s.serviceVersion)
    case Environment => Text(s.environment)
    case Host => Text(s.host)
    case Pod => Text(s.pod)
    case SpanName => Text(s.name)
    case KindString => Text(s.kindString)
    case StatusCodeString => Text(s.statusCodeString)
    case HttpStatusBucket => Text(s.httpStatusBucket)
    case HttpRoute => Text(s.httpRoute)
    case HttpMethod => Text(s.httpMethod)
    case RpcSystem => Text(Attr(s, "rpc.system"))
    case DbSystem => Text(s.dbSystem)
    case DbName => Text(s.dbName)
    case QueryHash => Text(s.queryHash)
    case MessagingSystem => Text(Attr(s, "messaging.system"))
    case MessagingDestination => Text(Attr(s, "messaging.destination.name"))
    case MessagingConsumerGroup => Text(Attr(s, "messaging.consumer.group.name"))
    case CloudProvider => Text(Attr(s, "cloud.provider"))
    case CloudPlatform => Text(Attr(s, "cloud.platform"))
    case CloudRegion => Text(CloudRegionOf(s))
    case K8sNode => Text(Attr(s, "k8s.node.name"))
    case PeerName => Text(PeerNameOf(s))
    case PeerType => Text(PeerTypeOf(s))
    case MetricName => Text("")
    case Fingerprint => Number(0)
  }

  function CellsOver(s: Span, columns: set<Column>): Cells {
    map c | c in columns :: CellAt(s, c)
  }

  function CellsOf(s: Span): Cells {
    CellsOver(s, VIEW_COLUMNS)
  }

  /** db_rows_sum, db_rows_count, request_count, duration_ms_sum. */
  datatype Agg = Agg(dbRowsSum: real, dbRowsCount: nat, requests: nat, durationMsSum: real)

  function Combine(a: Agg, b: Agg): Agg {
    Agg(a.dbRowsSum + b.dbRowsSum, a.dbRowsCount + b.dbRowsCount, a.requests + b.requests,
        a.durationMsSum + b.durationMsSum)
  }

  function RowsOr0(s: Span): real {
    if s.returnedRows.Some? then s.returnedRows.value else 0.0
  }

  function DurationMs(s: Span): real {
    s.durationNano as real / 1000000.0
  }

  function Lift(s: Span): Row<Agg> {
    Row(CellsOf(s), Agg(RowsOr0(s), if s.returnedRows.Some? then 1 else 0, 1, DurationMs(s)))
  }

  function LiftAll(ss: seq<Span>): seq<Row<Agg>> {
    seq(|ss|, i requires 0 <= i < |ss| => Lift(ss[i]))
  }

  const VIEW_COLUMNS := {
    TenantId, Timestamp, Service, ServiceVersion, Environment, Host, Pod, SpanName,
    KindString, StatusCodeString, HttpStatusBucket, HttpRoute,
    HttpMethod, RpcSystem,
    DbSystem, DbName, QueryHash, MessagingSystem, MessagingDestination, MessagingConsumerGroup,
    CloudProvider, CloudPlatform, CloudRegion, K8sNode, PeerName, PeerType}

  const TABLE_COLUMNS := {
    TenantId, Timestamp, Service, ServiceVersion, SpanName, KindString, StatusCodeString,
    HttpStatusBucket, HttpRoute, DbSystem, DbName, QueryHash, MessagingSystem,
    MessagingDestination, MessagingConsumerGroup, Environment, Host, Pod,
    CloudProvider, CloudPlatform, CloudRegion, K8sNode,
    PeerName, PeerType, HttpMethod, RpcSystem}

  const LEVELS := [
    Level(60, VIEW_COLUMNS, TABLE_COLUMNS),
    Level(300, VIEW_COLUMNS, TABLE_COLUMNS),
    Level(3600, VIEW_COLUMNS, TABLE_COLUMNS)
  ]

  lemma LevelsCascade()
    ensures Cascade(LEVELS)
  {
  }

  // ---------------------------------------------------------------- the direct GROUP BY

  /** The key of a stored row; `start` begins its bucket, in seconds. */
  datatype Key = Key(
    tenantId: int, start: int, service: string, serviceVersion: string, environment: string, host: string, pod: string,
    spanName: string, kindString: string, statusCodeString: string, httpStatusBucket: string,
    httpRoute: string, httpMethod: string, rpcSystem: string, dbSystem: string, dbName: string, queryHash: string,
    messagingSystem: string, messagingDestination: string, messagingConsumerGroup: string,
    cloudProvider: string, cloudPlatform: string, cloudRegion: string, k8sNode: string,
    peerName: string, peerType: string)

  function KeyAt(k: Key, c: Column): Cell {
    match c
    case TenantId => Number(k.tenantId)
    case Timestamp => Time(k.start)
    case Service => Text(k.service)
    case ServiceVersion => Text(k.serviceVersion)
    case Environment => Text(k.environment)
    case Host => Text(k.host)
    case Pod => Text(k.pod)
    case SpanName => Text(k.spanName)
    case KindString => Text(k.kindString)
    case StatusCodeString => Text(k.statusCodeString)
    case HttpStatusBucket => Text(k.httpStatusBucket)
    case HttpRoute => Text(k.httpRoute)
    case HttpMethod => Text(k.httpMethod)
    case RpcSystem => Text(k.rpcSystem)
    case DbSystem => Text(k.dbSystem)
    case DbName => Text(k.dbName)
    case QueryHash => Text(k.queryHash)
    case MessagingSystem => Text(k.messagingSystem)
    case MessagingDestination => Text(k.messagingDestination)
    case MessagingConsumerGroup => Text(k.messagingConsumerGroup)
    case CloudProvider => Text(k.cloudProvider)
    case CloudPlatform => Text(k.cloudPlatform)
    case CloudRegion => Text(k.cloudRegion)
    case K8sNode => Text(k.k8sNode)
    case PeerName => Text(k.peerName)
    case PeerType => Text(k.peerType)
    case MetricName => Text("")
    case Fingerprint => Number(0)
  }

  function KeyOver(k: Key, columns: set<Column>): Cells {
    map c | c in columns :: KeyAt(k, c)
  }

  function KeyCells(k: Key): Cells {
    KeyOver(k, VIEW_COLUMNS)
  }

  /** The first of these that is set; empty when none is. */
  predicate FirstSet(v: string, q: seq<string>) {
    if v == "" then forall i :: 0 <= i < |q| ==> q[i] == ""
    else exists i :: 0 <= i < |q| && q[i] == v && forall j :: 0 <= j < i ==> q[j] == ""
  }

  predicate IsPeerName(s: Span, v: string) {
    if s.kindString in {"CLIENT", "PRODUCER"} then
      FirstSet(v, [s.peerService, s.dbSystem, s.dbName, Attr(s, "server.address"),
                   Attr(s, "messaging.destination.name")])
    else v == ""
  }

  /** The peer's type says which source named it: database columns, or the messaging destination. */
  predicate IsPeerType(s: Span, v: string) {
    var named := s.kindString in {"CLIENT", "PRODUCER"} && s.peerService == "";
    && (v == "database" <==> named && (s.dbSystem != "" || s.dbName != ""))
    && (v == "messaging" <==>
          && named && s.dbSystem == s.dbName == Attr(s, "server.address") == ""
          && Attr(s, "messaging.destination.name") != "")
    && v in {"database", "messaging", ""}
  }

  predicate IsRegion(s: Span, v: string) {
    FirstSet(v, [Attr(s, "cloud.region"), Attr(s, "aws.region")])
  }

  /** The span and the key agree on a column; on the timestamp, when the span lies in the key's bucket. */
  predicate AgreesOn(s: Span, seconds: nat, k: Key, c: Column)
    requires seconds > 0
  {
    match c
    case TenantId => k.tenantId == s.tenantId
    case Timestamp =>
      && k.start % seconds == 0
      && k.start * NANOS_PER_SECOND <= s.timestampNano < (k.start + seconds) * NANOS_PER_SECOND
    case Service => k.service == s.service
    case ServiceVersion => k.serviceVersion == s.serviceVersion
    case Environment => k.environment == s.environment
    case Host => k.host == s.host
    case Pod => k.pod == s.pod
    case SpanName => k.spanName == s.name
    case KindString => k.kindString == s.kindString
    case StatusCodeString => k.statusCodeString == s.statusCodeString
    case HttpStatusBucket => k.httpStatusBucket == s.httpStatusBucket
    case HttpRoute => k.httpRoute == s.httpRoute
    case HttpMethod => k.httpMethod == s.httpMethod
    case RpcSystem => k.rpcSystem == Attr(s, "rpc.system")
    case DbSystem => k.dbSystem == s.dbSystem
    case DbName => k.dbName == s.dbName
    case QueryHash => k.queryHash == s.queryHash
    case MessagingSystem => k.messagingSystem == Attr(s, "messaging.system")
    case MessagingDestination => k.messagingDestination == Attr(s, "messaging.destination.name")
    case MessagingConsumerGroup => k.messagingConsumerGroup == Attr(s, "messaging.consumer.group.name")
    case CloudProvider => k.cloudProvider == Attr(s, "cloud.provider")
    case CloudPlatform => k.cloudPlatform == Attr(s, "cloud.platform")
    case CloudRegion => IsRegion(s, k.cloudRegion)
    case K8sNode => k.k8sNode == Attr(s, "k8s.node.name")
    case PeerName => IsPeerName(s, k.peerName)
    case PeerType => IsPeerType(s, k.peerType)
    // Columns of the metrics rollups only.
    case MetricName => true
    case Fingerprint => true
  }

  /** The span belongs to the key's bucket of that many seconds. */
  ghost predicate Counts(s: Span, seconds: nat, k: Key)
    requires seconds > 0
  {
    forall c :: AgreesOn(s, seconds, k, c)
  }

  lemma FirstSetAt(q: seq<string>, i: nat)
    requires i < |q| && q[i] != "" && forall j :: 0 <= j < i ==> q[j] == ""
    ensures FirstSet(q[i], q)
  {
  }

  /** The position of the first that is set. */
  lemma PeerNameIsFirstSet(s: Span, v: string)
    ensures PeerNameOf(s) == v <==> IsPeerName(s, v)
  {
    if ClientSide(s) {
      var q := [s.peerService, s.dbSystem, s.dbName, Attr(s, "server.address"), Attr(s, "messaging.destination.name")];
      var i := if q[0] != "" then 0 else if q[1] != "" then 1 else if q[2] != "" then 2
               else if q[3] != "" then 3 else 4;
      if q[i] != "" {
        FirstSetAt(q, i);
        assert PeerNameOf(s) == q[i];
      } else {
        assert FirstSet(PeerNameOf(s), q);
      }
      FirstSetIsUnique(PeerNameOf(s), v, q);
    }
  }

  lemma FirstSetIsUnique(v: string, w: string, q: seq<string>)
    requires FirstSet(v, q)
    ensures FirstSet(w, q) <==> v == w
  {
  }

  lemma PeerTypeIsSource(s: Span, v: string)
    ensures PeerTypeOf(s) == v <==> IsPeerType(s, v)
  {
    assert |"database"| == 8 && |"messaging"| == 9;
  }

  lemma RegionIsFirstSet(s: Span, v: string)
    ensures CloudRegionOf(s) == v <==> IsRegion(s, v)
  {
    var q := [Attr(s, "cloud.region"), Attr(s, "aws.region")];
    var i := if q[0] != "" then 0 else 1;
    if q[i] != "" {
      FirstSetAt(q, i);
    }
    assert CloudRegionOf(s) == q[i];
    FirstSetIsUnique(CloudRegionOf(s), v, q);
  }

  lemma ViewColumnsAreAll(c: Column)
    ensures c in VIEW_COLUMNS <==> c != MetricName && c != Fingerprint
  {
  }

  lemma CellsAgree(s: Span, seconds: nat, k: Key, c: Column)
    requires seconds > 0
    ensures AgreesOn(s, seconds, k, c) <==>
            if c == Timestamp then HoldsTime(KeyAt(k, c), CellAt(s, c), seconds) else CellAt(s, c) == KeyAt(k, c)
  {
    match c
    case PeerName => PeerNameIsFirstSet(s, k.peerName);
    case PeerType => PeerTypeIsSource(s, k.peerType);
    case CloudRegion => RegionIsFirstSet(s, k.cloudRegion);
    case _ =>
  }

  lemma CountsByCells(s: Span, columns: set<Column>, seconds: nat, k: Key)
    requires seconds > 0 && forall c :: c in columns <==> c != MetricName && c != Fingerprint
    ensures InBucket(CellsOver(s, columns), columns, seconds, KeyOver(k, columns)) <==> Counts(s, seconds, k)
  {
    var cells, key := CellsOver(s, columns), KeyOver(k, columns);
    InBucketByCells(cells, key, columns, seconds);
    forall c ensures c in columns ==> (AgreesOn(s, seconds, k, c) <==> SameCell(cells[c], key[c], c, seconds))
             ensures c !in columns ==> AgreesOn(s, seconds, k, c) {
      CellsAgree(s, seconds, k, c);
    }
  }

  /** A view groups a span under a key exactly when it counts for it. */
  lemma GroupedIfCounts(s: Span, l: Level, k: Key)
    requires l.bucket > 0 && l.groupBy == VIEW_COLUMNS
    ensures GroupKey(l, CellsOf(s)) == KeyCells(k) <==> Counts(s, l.bucket, k)
  {
    GroupKeyIsBucket(l, CellsOf(s), KeyCells(k));
    forall c ensures c in l.groupBy <==> c != MetricName && c != Fingerprint {
      ViewColumnsAreAll(c);
    }
    CountsByCells(s, l.groupBy, l.bucket, k);
  }

  /** The raw spans of one key. */
  ghost function Matching(ss: seq<Span>, seconds: nat, k: Key): seq<Span>
    requires seconds > 0
  {
    if ss == [] then []
    else
      var last := ss[|ss| - 1];
      Matching(ss[..|ss| - 1], seconds, k) + (if Counts(last, seconds, k) then [last] else [])
  }

  /** The row counts of the spans that carry one. */
  function RowCounts(ss: seq<Span>): seq<real> {
    if ss == [] then []
    else
      var last := ss[|ss| - 1];
      RowCounts(ss[..|ss| - 1]) + if last.returnedRows.Some? then [last.returnedRows.value] else []
  }

  function SumOf(q: seq<real>): real {
    if q == [] then 0.0 else SumOf(q[..|q| - 1]) + q[|q| - 1]
  }

  function TotalNanos(ss: seq<Span>): nat {
    if ss == [] then 0 else TotalNanos(ss[..|ss| - 1]) + ss[|ss| - 1].durationNano
  }

  /** The combined stored row is what aggregating these spans at once gives; a million nanoseconds a millisecond. */
  ghost predicate Describes(o: Option<Agg>, ss: seq<Span>) {
    match o
    case None => ss == []
    case Some(a) =>
      && a.requests == |ss| > 0
      && a.dbRowsSum == SumOf(RowCounts(ss))
      && a.dbRowsCount == |RowCounts(ss)|
      && a.durationMsSum * 1000000.0 == TotalNanos(ss) as real
  }

  lemma DescribesOneMore(o: Option<Agg>, ss: seq<Span>, s: Span)
    requires Describes(o, ss)
    ensures Describes(Join(Combine, o, Some(Lift(s).agg)), ss + [s])
  {
    assert (ss + [s])[..|ss|] == ss;
    if s.returnedRows.Some? {
      assert (RowCounts(ss) + [s.returnedRows.value])[..|RowCounts(ss)|] == RowCounts(ss);
    } else {
      assert RowCounts(ss + [s]) == RowCounts(ss);
    }
  }

  lemma {:induction false} TotalDescribes(ss: seq<Span>, l: Level, k: Key)
    requires l.bucket > 0 && l.groupBy == VIEW_COLUMNS
    ensures Describes(Total(Combine, LiftAll(ss), ByGroupKey(l), KeyCells(k)), Matching(ss, l.bucket, k))
  {
    if ss != [] {
      var n := |ss| - 1;
      TotalDescribes(ss[..n], l, k);
      assert LiftAll(ss)[..n] == LiftAll(ss[..n]);
      GroupedIfCounts(ss[n], l, k);
      var before := Total(Combine, LiftAll(ss[..n]), ByGroupKey(l), KeyCells(k));
      if Counts(ss[n], l.bucket, k) {
        DescribesOneMore(before, Matching(ss[..n], l.bucket, k), ss[n]);
      } else {
        assert Matching(ss, l.bucket, k) == Matching(ss[..n], l.bucket, k);
      }
    }
  }

  /** What a query of a table sees for a key. */
  function Stored(table: seq<Row<Agg>>, l: Level, k: Key): Option<Agg> {
    Total(Combine, table, ByMergeKey(l), KeyCells(k))
  }

  /** After any inserts of spans and any merges, in span_stats_1m, 5m and 1h the stored rows of each key combine to
      the request count, row sums and duration over exactly the spans that agree with the key's other columns and
      whose time lies in its 60, 300 or 3600 seconds. */
  lemma RollupsAgree(steps: seq<Step<Agg>>, s: State<Agg>, spans: seq<Span>, k: Key)
    requires Run(Combine, LEVELS, Empty(LEVELS), steps, s) && s.raw == LiftAll(spans)
    ensures |s.tables| == 3
    ensures Describes(Stored(s.tables[0], LEVELS[0], k), Matching(spans, 60, k))
    ensures Describes(Stored(s.tables[1], LEVELS[1], k), Matching(spans, 300, k))
    ensures Describes(Stored(s.tables[2], LEVELS[2], k), Matching(spans, 3600, k))
  {
    LevelsCascade();
    CascadeAgrees(Combine, LEVELS, steps, s);
    LevelDescribes(LEVELS, s, spans, 0, k);
    LevelDescribes(LEVELS, s, spans, 1, k);
    LevelDescribes(LEVELS, s, spans, 2, k);
  }

  lemma LevelDescribes(levels: seq<Level>, s: State<Agg>, spans: seq<Span>, n: nat, k: Key)
    requires Agrees(Combine, levels, s) && s.raw == LiftAll(spans) && n < |levels|
    requires levels[n].bucket > 0 && levels[n].groupBy == VIEW_COLUMNS
    ensures Describes(Stored(s.tables[n], levels[n], k), Matching(spans, levels[n].bucket, k))
  {
    TotalDescribes(spans, levels[n], k);
  }
}
