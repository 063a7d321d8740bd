/** The metric mapper's accumulator: one row per data point, one series row per distinct fingerprint. */
module MetricMapper {
  import opened Attributes
  import opened UsageRows
  import SeriesDedup

  /** The fingerprints of a resource's data points, in order. */
  datatype ResourceMetrics = ResourceMetrics(resource: Attrs, points: seq<nat>)

  class RowAccumulator {
    var rows: seq<nat>
    var series: seq<nat>
    var seen: set<nat>

    /** Series are the distinct non-zero fingerprints of the rows. */
    ghost predicate Valid()
      reads this
    {
      && (forall fp :: fp in series <==> fp in seen)
      && (forall fp :: fp in seen <==> fp in rows && fp != 0)
      && forall i, j :: 0 <= i < j < |series| ==> series[i] != series[j]
    }

    constructor ()
      ensures Valid() && rows == [] && series == []
    {
      rows, series, seen := [], [], {};
    }

    method Add(fp: nat)
      requires Valid()
      modifies this
      ensures Valid() && rows == old(rows) + [fp]
      ensures series == if fp == 0 || fp in old(series) then old(series) else old(series) + [fp]
    {
      rows := rows + [fp];
      if fp == 0 {
        return;
      }
      if fp in seen {
        return;
      }
      seen := seen + {fp};
      series := series + [fp];
    }
  }

  /** The fingerprints of the request's data points, resource by resource. */
  function Points(req: seq<ResourceMetrics>): seq<nat> {
    if req == [] then [] else Points(req[..|req| - 1]) + req[|req| - 1].points
  }

  /** The tally before empty resources are left out. */
  function Parts(labels: Labels, req: seq<ResourceMetrics>): seq<Usage> {
    if req == [] then [] else Parts(labels, req[..|req| - 1]) + [PartOf(labels, req[|req| - 1])]
  }

  function PartOf(labels: Labels, rm: ResourceMetrics): Usage {
    var dims := ResolveResource(rm.resource, labels);
    Usage(dims.service, dims.environment, |rm.points|)
  }

  /** Resources keep their order. */
  lemma PointsInOrder(req: seq<ResourceMetrics>, last: ResourceMetrics)
    ensures Points(req + [last]) == Points(req) + last.points
  {
    assert (req + [last])[..|req|] == req;
  }

  /** A tally entry carries the resource's own service and environment, and its point count. */
  lemma TallyIsLabelled(labels: Labels, rm: ResourceMetrics)
    ensures var u := PartOf(labels, rm);
            && IsFirst(u.service, rm.resource, labels.service)
            && IsFirst(u.environment, rm.resource, labels.environment) && u.records == |rm.points|
  {
    DimensionsAreFirst(rm.resource, labels);
  }

  method AddAll(acc: RowAccumulator, points: seq<nat>)
    requires acc.Valid()
    modifies acc
    ensures acc.Valid() && acc.rows == old(acc.rows) + points
  {
    for i := 0 to |points|
      invariant acc.Valid() && acc.rows == old(acc.rows) + points[..i]
    {
      acc.Add(points[i]);
      assert points[..i + 1] == points[..i] + [points[i]];
    }
    assert points[..|points|] == points;
  }

  /** The series rows' cache keys. */
  function Keys(tenant: nat, series: seq<nat>): seq<SeriesDedup.Key> {
    seq(|series|, i requires 0 <= i < |series| => SeriesDedup.Key(tenant, series[i]))
  }

  lemma KeysDiffer(tenant: nat, series: seq<nat>)
    requires forall i, j :: 0 <= i < j < |series| ==> series[i] != series[j]
    ensures SeriesDedup.NoDuplicates(Keys(tenant, series))
  {
  }

  /** Every data point has a row, one tally entry per resource with points counts them all once, and no request
      carries two series rows of one fingerprint, which is what the dedup cache relies on. */
  method MapRequest(labels: Labels, tenant: nat, req: seq<ResourceMetrics>)
    returns (rows: seq<nat>, series: seq<nat>, usage: seq<Usage>)
    ensures rows == Points(req)
    ensures usage == NonEmpty(Parts(labels, req)) && TotalRecords(usage) == |rows|
    ensures forall fp :: fp in series <==> fp in rows && fp != 0
    ensures SeriesDedup.NoDuplicates(Keys(tenant, series))
  {
    var acc := new RowAccumulator();
    usage := [];
    for r := 0 to |req|
      invariant acc.Valid() && fresh(acc) && acc.rows == Points(req[..r])
      invariant usage == NonEmpty(Parts(labels, req[..r])) && TotalRecords(usage) == |acc.rows|
    {
      assert req[..r + 1][..r] == req[..r];
      var before := |acc.rows|;
      AddAll(acc, req[r].points);
      NonEmptyOneMore(Parts(labels, req[..r]), PartOf(labels, req[r]));
      var n := |acc.rows| - before;
      if n > 0 {
        var dims := ResolveResource(req[r].resource, labels);
        usage := usage + [Usage(dims.service, dims.environment, n)];
      }
    }
    assert req[..|req|] == req;
    rows, series := acc.rows, acc.series;
    KeysDiffer(tenant, series);
  }
}
