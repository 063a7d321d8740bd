/** The log mapper's per-resource context: one copy of the resource map is shared by all log records of the
    resource, and copied again only for a record that supplies a missing fallback key.
  */
module LogMapper {
  import opened Attributes
  import opened UsageRows

  /** The fallback keys and the label lists. */
  datatype Config = Config(fallback: seq<string>, labels: Labels)

  const FALLBACK_KEYS := ["service.name", "host.name", "k8s.pod.name", "deployment.environment"]

  // ---------------------------------------------------------------- the simple form

  /** The keys of ks the resource lacks and the record supplies. */
  function Patches(resource: Attrs, attrs: Attrs, ks: seq<string>): Attrs {
    map k | k in ks && Get(resource, k) == "" && Get(attrs, k) != "" :: attrs[k]
  }

  /** Patch every missing fallback key from the record, from scratch. */
  function Patched(c: Config, resource: Attrs, attrs: Attrs): Attrs {
    resource + Patches(resource, attrs, c.fallback)
  }

  // ---------------------------------------------------------------- the code

  /** `res` is shared and only read. */
  datatype ResourceContext = ResourceContext(res: AttrMap, dims: Dimensions, missing: seq<string>)

  /** The keys of ks the resource lacks, in order. */
  function Missing(resource: Attrs, ks: seq<string>): seq<string> {
    if ks == [] then []
    else Missing(resource, ks[..|ks| - 1]) + (if Get(resource, ks[|ks| - 1]) == "" then [ks[|ks| - 1]] else [])
  }

  ghost predicate ContextOf(rc: ResourceContext, resource: Attrs, c: Config)
    reads rc.res
  {
    && rc.res.m == resource && rc.dims == ResolveResource(resource, c.labels)
    && rc.missing == Missing(resource, c.fallback)
  }

  method NewResourceContext(resource: AttrMap, c: Config) returns (rc: ResourceContext)
    ensures fresh(rc.res) && ContextOf(rc, resource.m, c)
  {
    var res := new AttrMap(resource.m);
    var missing: seq<string> := [];
    var ks := c.fallback;
    for i := 0 to |ks|
      invariant missing == Missing(res.m, ks[..i]) && res.m == resource.m
    {
      assert ks[..i + 1][..i] == ks[..i];
      if Get(res.m, ks[i]) == "" {
        missing := missing + [ks[i]];
      }
    }
    assert ks[..|ks|] == ks;
    rc := ResourceContext(res, ResolveResource(res.m, c.labels), missing);
  }

  lemma {:induction false} MissingKeys(resource: Attrs, ks: seq<string>)
    ensures forall k :: k in Missing(resource, ks) <==> k in ks && Get(resource, k) == ""
  {
    if ks != [] {
      MissingKeys(resource, ks[..|ks| - 1]);
      assert ks == ks[..|ks| - 1] + [ks[|ks| - 1]];
    }
  }

  /** The record's values for the first i missing keys. */
  function Supplied(attrs: Attrs, missing: seq<string>): Attrs {
    map k | k in missing && Get(attrs, k) != "" :: attrs[k]
  }

  lemma SupplyOne(attrs: Attrs, missing: seq<string>, i: nat, base: Attrs)
    requires i < |missing|
    ensures Get(attrs, missing[i]) == "" ==> Supplied(attrs, missing[..i + 1]) == Supplied(attrs, missing[..i])
    ensures Get(attrs, missing[i]) != "" ==>
              base + Supplied(attrs, missing[..i + 1]) ==
                  (base + Supplied(attrs, missing[..i]))[missing[i] := attrs[missing[i]]]
    ensures Get(attrs, missing[i]) != "" ==> Supplied(attrs, missing[..i + 1]) != map[]
  {
    assert missing[..i + 1] == missing[..i] + [missing[i]];
    if Get(attrs, missing[i]) != "" {
      assert missing[i] in Supplied(attrs, missing[..i + 1]);
    }
  }

  lemma SuppliedIsPatches(resource: Attrs, attrs: Attrs, ks: seq<string>)
    ensures Supplied(attrs, Missing(resource, ks)) == Patches(resource, attrs, ks)
  {
    MissingKeys(resource, ks);
  }

  /** For every record: the map and dimensions of patching from scratch. The shared map is returned exactly
      when the record supplies nothing; it is never written, nor is any other existing map. */
  method Resolve(rc: ResourceContext, attrs: Attrs, ghost resource: Attrs, c: Config)
    returns (res: AttrMap, dims: Dimensions)
    requires ContextOf(rc, resource, c)
    ensures res.m == resource + Patches(resource, attrs, c.fallback) && dims == ResolveResource(res.m, c.labels)
    ensures Patches(resource, attrs, c.fallback) == map[] ==> res == rc.res
    ensures Patches(resource, attrs, c.fallback) != map[] ==> fresh(res)
  {
    SuppliedIsPatches(resource, attrs, c.fallback);
    res := rc.res;
    var patched := false;
    assert Supplied(attrs, rc.missing[..0]) == map[];
    for i := 0 to |rc.missing|
      invariant patched <==> Supplied(attrs, rc.missing[..i]) != map[]
      invariant patched ==> fresh(res)
      invariant !patched ==> res == rc.res
      invariant res.m == resource + Supplied(attrs, rc.missing[..i])
    {
      SupplyOne(attrs, rc.missing, i, resource);
      var k := rc.missing[i];
      var v := Get(attrs, k);
      if v == "" {
        continue;
      }
      if !patched {
        res := new AttrMap(rc.res.m);
        patched := true;
      }
      res.m := res.m[k := v];
    }
    assert rc.missing[..|rc.missing|] == rc.missing;
    if !patched {
      return rc.res, rc.dims;
    }
    dims := ResolveResource(res.m, c.labels);
  }

  // ---------------------------------------------------------------- one request

  datatype ResourceLogs = ResourceLogs(resource: Attrs, records: seq<Attrs>)

  /** The resource part of a row. */
  datatype Row = Row(res: AttrMap, dims: Dimensions)

  /** What the simple form makes of a resource and a record. */
  datatype Resolved = Resolved(res: Attrs, dims: Dimensions)

  function Simple(c: Config, resource: Attrs, attrs: Attrs): Resolved {
    Resolved(Patched(c, resource, attrs), ResolveResource(Patched(c, resource, attrs), c.labels))
  }

  function ResourceRows(c: Config, resource: Attrs, records: seq<Attrs>): (rows: seq<Resolved>)
    ensures |rows| == |records| && forall i :: 0 <= i < |records| ==> rows[i] == Simple(c, resource, records[i])
  {
    if records == [] then []
    else ResourceRows(c, resource, records[..|records| - 1]) + [Simple(c, resource, records[|records| - 1])]
  }

  function RequestRows(c: Config, req: seq<ResourceLogs>): seq<Resolved> {
    if req == [] then []
    else RequestRows(c, req[..|req| - 1]) + ResourceRows(c, req[|req| - 1].resource, req[|req| - 1].records)
  }

  /** The tally before empty resources are left out. */
  function Parts(c: Config, req: seq<ResourceLogs>): seq<Usage> {
    if req == [] then []
    else Parts(c, req[..|req| - 1]) + [PartOf(c, req[|req| - 1])]
  }

  function PartOf(c: Config, rl: ResourceLogs): Usage {
    var dims := ResolveResource(rl.resource, c.labels);
    Usage(dims.service, dims.environment, |rl.records|)
  }

  /** Resources keep their order. */
  lemma ResourcesInOrder(c: Config, req: seq<ResourceLogs>, last: ResourceLogs)
    ensures RequestRows(c, req + [last]) == RequestRows(c, req) + ResourceRows(c, last.resource, last.records)
  {
    assert (req + [last])[..|req|] == req;
  }

  /** A tally entry carries the resource's own service and environment, and its record count. */
  lemma TallyIsLabelled(c: Config, rl: ResourceLogs)
    ensures var u := PartOf(c, rl);
            && IsFirst(u.service, rl.resource, c.labels.service)
            && IsFirst(u.environment, rl.resource, c.labels.environment) && u.records == |rl.records|
  {
    DimensionsAreFirst(rl.resource, c.labels);
  }

  /** What patching makes of every key: a fallback key without a value takes the record's, no other key changes. */
  lemma PatchedKeys(c: Config, resource: Attrs, attrs: Attrs, k: string)
    ensures Get(Patched(c, resource, attrs), k) ==
            if k in c.fallback && Get(resource, k) == "" then Get(attrs, k) else Get(resource, k)
    ensures k !in c.fallback || Get(attrs, k) == "" ==> (k in Patched(c, resource, attrs) <==> k in resource)
  {
  }

  /** The i-th row's map and dimensions are the i-th of these. */
  ghost predicate Hold(rows: seq<Row>, want: seq<Resolved>)
    reads set row | row in rows :: row.res
  {
    |rows| == |want| && forall i :: 0 <= i < |rows| ==> rows[i].res.m == want[i].res && rows[i].dims == want[i].dims
  }

  lemma HoldConcat(a: seq<Row>, wantA: seq<Resolved>, b: seq<Row>, wantB: seq<Resolved>)
    requires Hold(a, wantA) && Hold(b, wantB)
    ensures Hold(a + b, wantA + wantB)
  {
  }

  method MapRecord(c: Config, rc: ResourceContext, ghost resource: Attrs, records: seq<Attrs>, i: nat,
                   ghost rows: seq<Row>)
    returns (row: Row)
    requires ContextOf(rc, resource, c)
    requires i < |records| && Hold(rows, ResourceRows(c, resource, records[..i]))
    ensures Hold(rows + [row], ResourceRows(c, resource, records[..i + 1]))
    ensures row.res == rc.res || fresh(row.res)
  {
    var res, d := Resolve(rc, records[i], resource, c);
    row := Row(res, d);
    assert records[..i + 1][..i] == records[..i];
    HoldConcat(rows, ResourceRows(c, resource, records[..i]), [row], [Simple(c, resource, records[i])]);
  }

  /** The rows of one resource; the shared map serves them all, and every map reachable before is left alone. */
  method MapResource(c: Config, rl: ResourceLogs) returns (rows: seq<Row>, dims: Dimensions)
    ensures Hold(rows, ResourceRows(c, rl.resource, rl.records)) && |rows| == |rl.records|
    ensures forall row :: row in rows ==> fresh(row.res)
    ensures dims == ResolveResource(rl.resource, c.labels)
  {
    var resMap := new AttrMap(rl.resource);
    var rc := NewResourceContext(resMap, c);
    rows := [];
    for i := 0 to |rl.records|
      invariant ContextOf(rc, rl.resource, c)
      invariant |rows| == i && Hold(rows, ResourceRows(c, rl.resource, rl.records[..i]))
      invariant forall row :: row in rows ==> fresh(row.res)
    {
      var row := MapRecord(c, rc, rl.resource, rl.records, i, rows);
      rows := rows + [row];
    }
    assert rl.records[..|rl.records|] == rl.records;
    dims := rc.dims;
  }

  /** mapRequest: row by row what the simple form gives, and one tally entry per resource with records, which
      together count every row once. */
  method MapRequest(c: Config, req: seq<ResourceLogs>) returns (rows: seq<Row>, usage: seq<Usage>)
    ensures Hold(rows, RequestRows(c, req))
    ensures usage == NonEmpty(Parts(c, req)) && TotalRecords(usage) == |rows|
  {
    rows, usage := [], [];
    for r := 0 to |req|
      invariant Hold(rows, RequestRows(c, req[..r]))
      invariant forall row :: row in rows ==> fresh(row.res)
      invariant usage == NonEmpty(Parts(c, req[..r])) && TotalRecords(usage) == |rows|
    {
      assert req[..r + 1][..r] == req[..r];
      var before := |rows|;
      var more, dims := MapResource(c, req[r]);
      HoldConcat(rows, RequestRows(c, req[..r]), more, ResourceRows(c, req[r].resource, req[r].records));
      NonEmptyOneMore(Parts(c, req[..r]), PartOf(c, req[r]));
      rows := rows + more;
      var n := |rows| - before;
      if n > 0 {
        usage := usage + [Usage(dims.service, dims.environment, n)];
      }
    }
    assert req[..|req|] == req;
  }

  // ---------------------------------------------------------------- the row's service and the tally's

  /** The keys and labels of the program. */
  const CONFIG := Config(FALLBACK_KEYS, RESOURCE_LABELS)

  /** A label list whose first key, and no other, is a fallback key. */
  predicate FallsBackFirst(c: Config, keys: seq<string>, first: string) {
    keys != [] && keys[0] == first && first in c.fallback && forall k :: k in keys[1..] ==> k !in c.fallback
  }

  /** Then patching shows through that key only. */
  lemma FirstOfPatched(c: Config, resource: Attrs, attrs: Attrs, keys: seq<string>, first: string)
    requires FallsBackFirst(c, keys, first)
    ensures FirstNonEmpty(Patched(c, resource, attrs), keys) ==
            if Get(resource, first) == "" && Get(attrs, first) != "" then attrs[first]
            else FirstNonEmpty(resource, keys)
  {
    if !(Get(resource, first) == "" && Get(attrs, first) != "") {
      forall k | k in keys ensures Get(Patched(c, resource, attrs), k) == Get(resource, k) {
        assert k == keys[0] || k in keys[1..];
      }
      SameFirst(Patched(c, resource, attrs), resource, keys);
    }
  }

  /** Only two other service labels are as long as a fallback key. */
  lemma ServiceLabelLengths(i: nat)
    requires 1 <= i < |CONFIG.labels.service|
    ensures |CONFIG.labels.service[i]| !in {9, 12, 22} ||
            CONFIG.labels.service[i] == "k8s.job.name" || CONFIG.labels.service[i] == "faas.name"
  {
  }

  lemma FallbackLengths(k: string)
    requires k in CONFIG.fallback
    ensures |k| in {9, 12, 22} && k != "k8s.job.name" && k != "faas.name"
  {
    assert k[0] == "service.name"[0] || k[0] == "host.name"[0] || k[4] == "k8s.pod.name"[4] ||
           k[0] == "deployment.environment"[0];
  }

  lemma ServiceFallsBackFirst()
    ensures FallsBackFirst(CONFIG, CONFIG.labels.service, "service.name")
  {
    var keys := CONFIG.labels.service;
    assert CONFIG.fallback[0] == "service.name";
    forall k | k in keys[1..] ensures k !in CONFIG.fallback {
      var i :| 1 <= i < |keys| && keys[i] == k;
      ServiceLabelLengths(i);
      if k in CONFIG.fallback {
        FallbackLengths(k);
      }
    }
  }

  lemma EnvironmentFallsBackFirst()
    ensures FallsBackFirst(CONFIG, CONFIG.labels.environment, "deployment.environment")
  {
    assert CONFIG.fallback[3] == "deployment.environment";
    forall k | k in CONFIG.fallback ensures k != "env" {
      FallbackLengths(k);
    }
  }

  /** The resource has the key itself, or the record supplies nothing else for it. */
  predicate KeepsLabel(resource: Attrs, attrs: Attrs, key: string, tallied: string) {
    Get(resource, key) != "" || Get(attrs, key) == "" || Get(attrs, key) == tallied
  }

  /** The tally counts a row under its resource's own service and environment. They are the row's exactly when
      neither is replaced by a fallback from the record. */
  lemma TalliedAsStored(rl: ResourceLogs, attrs: Attrs)
    ensures var dims, tally := Simple(CONFIG, rl.resource, attrs).dims, PartOf(CONFIG, rl);
            && (dims.service == tally.service <==> KeepsLabel(rl.resource, attrs, "service.name", tally.service))
            && (dims.environment == tally.environment <==>
                  KeepsLabel(rl.resource, attrs, "deployment.environment", tally.environment))
  {
    ServiceFallsBackFirst();
    EnvironmentFallsBackFirst();
    FirstOfPatched(CONFIG, rl.resource, attrs, CONFIG.labels.service, "service.name");
    FirstOfPatched(CONFIG, rl.resource, attrs, CONFIG.labels.environment, "deployment.environment");
  }
}
