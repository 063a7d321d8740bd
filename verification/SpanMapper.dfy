/** The span mapper's attribute maps and usage tally. The resource's attributes are filtered and capped once
    per ResourceSpans and shared; the simple form re-merges the whole resource for every span.

    The lists of promoted, identity and legacy keys, and the cap, are parameters.
  */
module SpanMapper {
  import Ordering
  import Text
  import opened Attributes
  import opened UsageRows

  /** A current messaging key and its older names, in order of preference. */
  datatype Legacy = Legacy(key: string, older: seq<string>)

  datatype Keys = Keys(promoted: set<string>, identity: set<string>, legacy: seq<Legacy>, limit: int, labels: Labels)

  const LEGACY_MESSAGING_KEYS := [
    Legacy("messaging.destination.name", ["messaging.source.name", "messaging.destination"]),
    Legacy("messaging.consumer.group.name", ["messaging.kafka.consumer.group"])
  ]

  // ---------------------------------------------------------------- the simple form

  function Unpromoted(ks: Keys, resource: Attrs): Attrs {
    map k | k in resource && k !in ks.promoted :: resource[k]
  }

  predicate Keeps(ks: Keys, genAI: bool, k: string) {
    k !in ks.promoted && (!genAI || k !in ks.identity)
  }

  /** The span's own attributes that stay in the map. */
  function Own(ks: Keys, span: Attrs, genAI: bool): Attrs {
    map k | k in span && Keeps(ks, genAI, k) :: span[k]
  }

  // ---------------------------------------------------------------- messaging keys

  /** Fill one key from its older names, unless it is set. */
  function FillOne(m: Attrs, l: Legacy): Attrs {
    var v := FirstNonEmpty(m, l.older);
    if Get(m, l.key) != "" || v == "" then m else m[l.key := v]
  }

  function Normalized(m: Attrs, ls: seq<Legacy>): Attrs {
    if ls == [] then m else FillOne(Normalized(m, ls[..|ls| - 1]), ls[|ls| - 1])
  }

  method NormalizeMessagingAttrs(span: AttrMap, ls: seq<Legacy>)
    modifies span
    ensures span.m == Normalized(old(span.m), ls)
  {
    for i := 0 to |ls|
      invariant span.m == Normalized(old(span.m), ls[..i])
    {
      assert ls[..i + 1][..i] == ls[..i];
      if Get(span.m, ls[i].key) != "" {
        continue;
      }
      var v := FirstNonEmpty(span.m, ls[i].older);
      if v != "" {
        span.m := span.m[ls[i].key := v];
      }
    }
    assert ls[..|ls|] == ls;
  }

  /** No current key is listed twice or is an older name of another. */
  predicate Unrelated(ls: seq<Legacy>) {
    && (forall i, j :: 0 <= i < j < |ls| ==> ls[i].key != ls[j].key)
    && (forall i, j :: 0 <= i < |ls| && 0 <= j < |ls| ==> ls[i].key !in ls[j].older)
  }

  predicate IsCurrent(ls: seq<Legacy>, k: string) {
    exists i :: 0 <= i < |ls| && ls[i].key == k
  }

  lemma FillOneSets(now: Attrs, m: Attrs, l: Legacy)
    requires Get(now, l.key) == Get(m, l.key) && forall k :: k in l.older ==> Get(now, k) == Get(m, k)
    ensures Get(FillOne(now, l), l.key) == FirstNonEmpty(m, [l.key] + l.older)
    ensures forall k :: k != l.key ==> (k in FillOne(now, l) <==> k in now) && Get(FillOne(now, l), k) == Get(now, k)
  {
    SameFirst(now, m, l.older);
    assert ([l.key] + l.older)[1..] == l.older;
  }

  /** What holds of the map once it is normalised: every current key has the first value among its own name and
      the older ones, and no other key changed. */
  ghost predicate KeysFilled(m: Attrs, now: Attrs, ls: seq<Legacy>) {
    && (forall i :: 0 <= i < |ls| ==> Get(now, ls[i].key) == FirstNonEmpty(m, [ls[i].key] + ls[i].older))
    && (forall k :: !IsCurrent(ls, k) ==> (k in now <==> k in m) && Get(now, k) == Get(m, k))
  }

  lemma CurrentStays(ls: seq<Legacy>, last: Legacy, k: string)
    requires k == last.key || IsCurrent(ls, k)
    ensures IsCurrent(ls + [last], k)
  {
    var i := if k == last.key then |ls| else var i :| 0 <= i < |ls| && ls[i].key == k; i;
    assert (ls + [last])[i].key == k;
  }

  lemma OneMoreFilled(m: Attrs, now: Attrs, ls: seq<Legacy>, last: Legacy)
    requires Unrelated(ls + [last]) && KeysFilled(m, now, ls)
    ensures KeysFilled(m, FillOne(now, last), ls + [last])
  {
    var all := ls + [last];
    assert all[|ls|] == last;
    forall i | 0 <= i < |ls| ensures ls[i].key != last.key && ls[i].key !in last.older {
      assert all[i] == ls[i];
    }
    assert !IsCurrent(ls, last.key);
    forall k | k in last.older ensures !IsCurrent(ls, k) {
    }
    FillOneSets(now, m, last);
    forall k | k == last.key || IsCurrent(ls, k) ensures IsCurrent(all, k) {
      CurrentStays(ls, last, k);
    }
  }

  /** When the keys are unrelated the order of the list does not matter: every current key ends with the first
      value among its own name and the older ones, and no other key changes. */
  lemma {:induction false} NormalizedKeys(m: Attrs, ls: seq<Legacy>)
    requires Unrelated(ls)
    ensures KeysFilled(m, Normalized(m, ls), ls)
  {
    if ls != [] {
      var n := |ls| - 1;
      assert ls == ls[..n] + [ls[n]];
      NormalizedKeys(m, ls[..n]);
      OneMoreFilled(m, Normalized(m, ls[..n]), ls[..n], ls[n]);
    }
  }

  /** The two keys the rollups read. */
  lemma MessagingKeysNormalized(m: Attrs)
    ensures var n := Normalized(m, LEGACY_MESSAGING_KEYS);
            && Get(n, "messaging.destination.name") ==
                 FirstNonEmpty(m, ["messaging.destination.name", "messaging.source.name", "messaging.destination"])
            && Get(n, "messaging.consumer.group.name") ==
                 FirstNonEmpty(m, ["messaging.consumer.group.name", "messaging.kafka.consumer.group"])
  {
    var ls := LEGACY_MESSAGING_KEYS;
    assert |ls[0].key| == 26 && |ls[1].key| == 29;
    NormalizedKeys(m, ls);
    assert [ls[0].key] + ls[0].older ==
        ["messaging.destination.name", "messaging.source.name", "messaging.destination"];
    assert [ls[1].key] + ls[1].older == ["messaging.consumer.group.name", "messaging.kafka.consumer.group"];
  }

  // ---------------------------------------------------------------- the simple form of a row

  /** Merge the whole resource with the span's attributes, cap once. */
  ghost function Reference(ks: Keys, resource: Attrs, span: Attrs, genAI: bool): Attrs {
    Cap(Unpromoted(ks, resource) + Own(ks, span, genAI), ks.limit)
  }

  // ---------------------------------------------------------------- the code

  predicate NonePromoted(ks: Keys, m: Attrs) {
    forall k :: k in m ==> k !in ks.promoted
  }

  /** Ranging over a Go map visits its keys in any order. */
  method ResourceBaseAttrs(ks: Keys, resource: AttrMap) returns (base: AttrMap)
    ensures fresh(base)
    ensures base.m == Cap(Unpromoted(ks, resource.m), ks.limit)
    ensures NonePromoted(ks, base.m)
  {
    base := new AttrMap(map[]);
    var todo := resource.m.Keys;
    while todo != {}
      invariant todo <= resource.m.Keys
      invariant base.m == map k | k in Unpromoted(ks, resource.m) && k !in todo :: resource.m[k]
      decreases |todo|
    {
      var k :| k in todo;
      if k !in ks.promoted {
        base.m := base.m[k := resource.m[k]];
      }
      todo := todo - {k};
    }
    assert base.m == Unpromoted(ks, resource.m);
    var dropped := CapStringMap(base, ks.limit);
  }

  /** Does any key of the span stay in the map? */
  method HasOwn(ks: Keys, span: AttrMap, genAI: bool) returns (hasOwn: bool)
    ensures hasOwn <==> Own(ks, span.m, genAI) != map[]
  {
    var todo := span.m.Keys;
    while todo != {}
      invariant todo <= span.m.Keys
      invariant forall k :: k in span.m && k !in todo ==> !Keeps(ks, genAI, k)
      decreases |todo|
    {
      var k :| k in todo;
      if Keeps(ks, genAI, k) {
        assert k in Own(ks, span.m, genAI);
        return true;
      }
      todo := todo - {k};
    }
    assert Own(ks, span.m, genAI) == map[];
    return false;
  }

  method CopyKept(ks: Keys, span: AttrMap, genAI: bool, merged: AttrMap)
    requires merged != span
    modifies merged
    ensures merged.m == old(merged.m) + Own(ks, span.m, genAI)
  {
    ghost var base, own := merged.m, Own(ks, span.m, genAI);
    var todo := span.m.Keys;
    assert own - todo == map[];
    assert base + map[] == base;
    while todo != {}
      invariant todo <= span.m.Keys && own == Own(ks, span.m, genAI)
      invariant merged.m == base + (own - todo)
      decreases |todo|
    {
      var k :| k in todo;
      CopyOne(base, own, todo, k);
      if Keeps(ks, genAI, k) {
        merged.m := merged.m[k := span.m[k]];
      }
      todo := todo - {k};
    }
    assert own - {} == own;
  }

  /** Returns the shared base itself when the span adds nothing, a fresh map otherwise. */
  method MergeAndCapAttrs(ks: Keys, base: AttrMap, span: AttrMap, genAI: bool) returns (merged: AttrMap)
    ensures Own(ks, span.m, genAI) == map[] ==> merged == base
    ensures Own(ks, span.m, genAI) != map[] ==>
            fresh(merged) && merged.m == Cap(base.m + Own(ks, span.m, genAI), ks.limit)
    ensures NonePromoted(ks, base.m) ==> NonePromoted(ks, merged.m)
  {
    var hasOwn := HasOwn(ks, span, genAI);
    if !hasOwn {
      return base;
    }
    merged := new AttrMap(base.m);
    CopyKept(ks, span, genAI, merged);
    var dropped := CapStringMap(merged, ks.limit);
  }

  // ---------------------------------------------------------------- one request

  /** A decoded span: its attributes, and whether it is a GenAI span. */
  datatype SpanIn = SpanIn(attrs: Attrs, genAI: bool)

  /** What the simple form gives for one span. */
  ghost function SpanRow(ks: Keys, resource: Attrs, span: SpanIn): Attrs {
    Reference(ks, resource, Normalized(span.attrs, ks.legacy), span.genAI)
  }

  datatype ResourceSpans = ResourceSpans(resource: Attrs, scopes: seq<seq<SpanIn>>)

  /** What the simple form gives: scope by scope, resource by resource, span by span. */
  ghost function ScopeRows(ks: Keys, resource: Attrs, spans: seq<SpanIn>): seq<Attrs> {
    if spans == [] then []
    else
      var last := spans[|spans| - 1];
      ScopeRows(ks, resource, spans[..|spans| - 1]) + [SpanRow(ks, resource, last)]
  }

  ghost function ResourceRows(ks: Keys, resource: Attrs, scopes: seq<seq<SpanIn>>): seq<Attrs> {
    if scopes == [] then []
    else ResourceRows(ks, resource, scopes[..|scopes| - 1]) + ScopeRows(ks, resource, scopes[|scopes| - 1])
  }

  ghost function RequestRows(ks: Keys, req: seq<ResourceSpans>): seq<Attrs> {
    if req == [] then []
    else RequestRows(ks, req[..|req| - 1]) + ResourceRows(ks, req[|req| - 1].resource, req[|req| - 1].scopes)
  }

  /** The i-th row's map holds the i-th of these. */
  ghost predicate Hold(rows: seq<AttrMap>, want: seq<Attrs>)
    reads rows
  {
    |rows| == |want| && forall i :: 0 <= i < |rows| ==> rows[i].m == want[i]
  }

  /** The fast form refines the simple one, shared map included. */
  lemma SharedBaseIsReference(ks: Keys, resource: Attrs, span: Attrs, genAI: bool)
    ensures var base, own := Cap(Unpromoted(ks, resource), ks.limit), Own(ks, span, genAI);
            Reference(ks, resource, span, genAI) == if own == map[] then base else Cap(base + own, ks.limit)
  {
    var whole, own := Unpromoted(ks, resource), Own(ks, span, genAI);
    if own == map[] {
      assert whole + own == whole;
    } else {
      CapOnceIsEnough(whole, own, ks.limit);
    }
  }

  predicate AddsNothing(ks: Keys, span: SpanIn) {
    forall k :: k in Normalized(span.attrs, ks.legacy) ==> !Keeps(ks, span.genAI, k)
  }

  method BuildSpanRow(ks: Keys, base: AttrMap, ghost resource: Attrs, span: SpanIn) returns (row: AttrMap)
    requires base.m == Cap(Unpromoted(ks, resource), ks.limit)
    ensures row.m == SpanRow(ks, resource, span)
    ensures row == base || fresh(row)
    ensures AddsNothing(ks, span) ==> row == base
  {
    var spanMap := new AttrMap(span.attrs);
    NormalizeMessagingAttrs(spanMap, ks.legacy);
    row := MergeAndCapAttrs(ks, base, spanMap, span.genAI);
    SharedBaseIsReference(ks, resource, Normalized(span.attrs, ks.legacy), span.genAI);
  }

  lemma HoldConcat(a: seq<AttrMap>, p: seq<Attrs>, b: seq<AttrMap>, q: seq<Attrs>)
    requires Hold(a, p) && Hold(b, q)
    ensures Hold(a + b, p + q)
  {
  }

  lemma ScopeRowsNext(ks: Keys, resource: Attrs, spans: seq<SpanIn>, i: nat)
    requires i < |spans|
    ensures ScopeRows(ks, resource, spans[..i + 1]) ==
            ScopeRows(ks, resource, spans[..i]) + [SpanRow(ks, resource, spans[i])]
  {
    assert spans[..i + 1][..i] == spans[..i];
  }

  /** Rows of spans that add nothing are the shared base itself. */
  predicate ShareBase(ks: Keys, base: AttrMap, rows: seq<AttrMap>, spans: seq<SpanIn>) {
    |rows| <= |spans| && forall i :: 0 <= i < |rows| && AddsNothing(ks, spans[i]) ==> rows[i] == base
  }

  lemma OneMoreShares(ks: Keys, base: AttrMap, rows: seq<AttrMap>, spans: seq<SpanIn>, row: AttrMap)
    requires ShareBase(ks, base, rows, spans) && |rows| < |spans| && (AddsNothing(ks, spans[|rows|]) ==> row == base)
    ensures ShareBase(ks, base, rows + [row], spans)
  {
  }

  /** The rows of a scope's first i spans. */
  ghost predicate ScopeRowsSoFar(ks: Keys, base: AttrMap, resource: Attrs, spans: seq<SpanIn>, i: nat,
                                 rows: seq<AttrMap>)
    requires i <= |spans|
    reads rows
  {
    |rows| == i && Hold(rows, ScopeRows(ks, resource, spans[..i])) && ShareBase(ks, base, rows, spans)
  }

  /** One turn of the loop over a scope's spans. */
  method MapSpan(ks: Keys, base: AttrMap, ghost resource: Attrs, spans: seq<SpanIn>, i: nat, ghost rows: seq<AttrMap>)
    returns (row: AttrMap)
    requires base.m == Cap(Unpromoted(ks, resource), ks.limit)
    requires i < |spans| && ScopeRowsSoFar(ks, base, resource, spans, i, rows)
    ensures ScopeRowsSoFar(ks, base, resource, spans, i + 1, rows + [row])
    ensures row == base || fresh(row)
  {
    row := BuildSpanRow(ks, base, resource, spans[i]);
    HoldConcat(rows, ScopeRows(ks, resource, spans[..i]), [row], [SpanRow(ks, resource, spans[i])]);
    ScopeRowsNext(ks, resource, spans, i);
    OneMoreShares(ks, base, rows, spans, row);
  }

  method MapScope(ks: Keys, base: AttrMap, ghost resource: Attrs, spans: seq<SpanIn>) returns (rows: seq<AttrMap>)
    requires base.m == Cap(Unpromoted(ks, resource), ks.limit)
    ensures |rows| == |spans| && Hold(rows, ScopeRows(ks, resource, spans))
    ensures forall i :: 0 <= i < |rows| ==> rows[i] == base || fresh(rows[i])
    ensures ShareBase(ks, base, rows, spans)
  {
    rows := [];
    for i := 0 to |spans|
      invariant ScopeRowsSoFar(ks, base, resource, spans, i, rows)
      invariant forall j :: 0 <= j < |rows| ==> rows[j] == base || fresh(rows[j])
    {
      var row := MapSpan(ks, base, resource, spans, i, rows);
      rows := rows + [row];
    }
    assert spans[..|spans|] == spans;
  }

  lemma ResourceRowsNext(ks: Keys, resource: Attrs, scopes: seq<seq<SpanIn>>, s: nat)
    requires s < |scopes|
    ensures ResourceRows(ks, resource, scopes[..s + 1]) ==
            ResourceRows(ks, resource, scopes[..s]) + ScopeRows(ks, resource, scopes[s])
  {
    assert scopes[..s + 1][..s] == scopes[..s];
  }

  /** The rows of one resource, scope after scope over one shared base. Every map reachable before is left alone,
      and the base still holds what the simple form says after every later span. */
  method MapResource(ks: Keys, rs: ResourceSpans) returns (rows: seq<AttrMap>)
    ensures Hold(rows, ResourceRows(ks, rs.resource, rs.scopes))
    ensures forall row :: row in rows ==> fresh(row)
  {
    var resMap := new AttrMap(rs.resource);
    var base := ResourceBaseAttrs(ks, resMap);
    rows := [];
    for s := 0 to |rs.scopes|
      invariant base.m == Cap(Unpromoted(ks, rs.resource), ks.limit)
      invariant Hold(rows, ResourceRows(ks, rs.resource, rs.scopes[..s]))
      invariant forall row :: row in rows ==> fresh(row)
    {
      var more := MapScope(ks, base, rs.resource, rs.scopes[s]);
      HoldConcat(rows, ResourceRows(ks, rs.resource, rs.scopes[..s]), more, ScopeRows(ks, rs.resource, rs.scopes[s]));
      ResourceRowsNext(ks, rs.resource, rs.scopes, s);
      rows := rows + more;
    }
    assert rs.scopes[..|rs.scopes|] == rs.scopes;
  }

  /** The tally before empty resources are left out. */
  ghost function Parts(ks: Keys, req: seq<ResourceSpans>): seq<Usage> {
    if req == [] then []
    else
      var last := req[|req| - 1];
      Parts(ks, req[..|req| - 1]) + [UsageOf(ks, last.resource, |ResourceRows(ks, last.resource, last.scopes)|)]
  }

  function UsageOf(ks: Keys, resource: Attrs, n: nat): Usage {
    var dims := ResolveResource(resource, ks.labels);
    Usage(dims.service, dims.environment, n)
  }

  /** A tally entry carries the resource's own service and environment, and its row count. */
  lemma TallyIsLabelled(ks: Keys, resource: Attrs, n: nat)
    ensures var u := UsageOf(ks, resource, n);
            && IsFirst(u.service, resource, ks.labels.service)
            && IsFirst(u.environment, resource, ks.labels.environment) && u.records == n
  {
    DimensionsAreFirst(resource, ks.labels);
  }

  /** mapRequest: row by row what the simple form gives, and one tally entry per resource with spans, which
      together count every row once. */
  method MapRequest(ks: Keys, req: seq<ResourceSpans>) returns (rows: seq<AttrMap>, usage: seq<Usage>)
    ensures Hold(rows, RequestRows(ks, req))
    ensures forall row :: row in rows ==> fresh(row) && NonePromoted(ks, row.m)
    ensures usage == NonEmpty(Parts(ks, req)) && TotalRecords(usage) == |rows|
  {
    rows, usage := [], [];
    for r := 0 to |req|
      invariant Hold(rows, RequestRows(ks, req[..r]))
      invariant forall row :: row in rows ==> fresh(row)
      invariant usage == NonEmpty(Parts(ks, req[..r])) && TotalRecords(usage) == |rows|
    {
      assert req[..r + 1][..r] == req[..r];
      ghost var want := ResourceRows(ks, req[r].resource, req[r].scopes);
      var before := |rows|;
      var more := MapResource(ks, req[r]);
      HoldConcat(rows, RequestRows(ks, req[..r]), more, want);
      NonEmptyOneMore(Parts(ks, req[..r]), UsageOf(ks, req[r].resource, |want|));
      rows := rows + more;
      var n := |rows| - before;
      if n > 0 {
        usage := usage + [UsageOf(ks, req[r].resource, n)];
      }
    }
    assert req[..|req|] == req;
    RequestRowsNonePromoted(ks, req);
  }

  // ---------------------------------------------------------------- what a row holds

  /** The key comes to the row from the resource. */
  predicate FromResource(ks: Keys, resource: Attrs, k: string) {
    k in resource && k !in ks.promoted
  }

  /** The key comes from the span: not promoted, and on a GenAI span not an identity key. */
  predicate FromSpan(ks: Keys, attrs: Attrs, genAI: bool, k: string) {
    k in attrs && k !in ks.promoted && !(genAI && k in ks.identity)
  }

  /** Everything the row would hold without a cap. */
  function Qualifying(ks: Keys, resource: Attrs, attrs: Attrs, genAI: bool): set<string> {
    set k | k in resource.Keys + attrs.Keys && (FromResource(ks, resource, k) || FromSpan(ks, attrs, genAI, k))
  }

  /** A row holds no promoted key and nothing that does not qualify; of two values for a key the span's wins. While
      at most `limit` keys qualify, or there is no limit, it holds all of them; otherwise `limit` of them, each
      smaller than every one left out. */
  ghost predicate Holds(ks: Keys, resource: Attrs, attrs: Attrs, genAI: bool, row: Attrs) {
    var all := Qualifying(ks, resource, attrs, genAI);
    && NonePromoted(ks, row) && row.Keys <= all
    && (forall k :: k in row ==> row[k] == if FromSpan(ks, attrs, genAI, k) then attrs[k] else resource[k])
    && (ks.limit <= 0 || |all| <= ks.limit ==> row.Keys == all)
    && (0 < ks.limit < |all| ==>
          |row| == ks.limit && forall k, d :: k in row && d in all - row.Keys ==> Text.Less(k, d))
  }

  lemma MergeQualifies(ks: Keys, resource: Attrs, attrs: Attrs, genAI: bool)
    ensures var merge := Unpromoted(ks, resource) + Own(ks, attrs, genAI);
            && merge.Keys == Qualifying(ks, resource, attrs, genAI)
            && forall k :: k in merge ==>
                 merge[k] == if FromSpan(ks, attrs, genAI, k) then attrs[k] else resource[k]
  {
  }

  lemma ReferenceHolds(ks: Keys, resource: Attrs, attrs: Attrs, genAI: bool)
    ensures Holds(ks, resource, attrs, genAI, Reference(ks, resource, attrs, genAI))
  {
    var merge, all := Unpromoted(ks, resource) + Own(ks, attrs, genAI), Qualifying(ks, resource, attrs, genAI);
    var row := Reference(ks, resource, attrs, genAI);
    MergeQualifies(ks, resource, attrs, genAI);
    assert |merge| == |all|;
    if 0 < ks.limit < |merge| {
      CapSize(merge, ks.limit);
      forall k, d | k in row && d in all - row.Keys ensures Text.Less(k, d) {
        KeptBelowDropped(merge, ks.limit, k, d);
      }
    }
  }

  /** For every span: its row, as `MapRequest` returns it, in terms of the resource's and the span's keys. */
  lemma RowHolds(ks: Keys, resource: Attrs, span: SpanIn)
    ensures Holds(ks, resource, Normalized(span.attrs, ks.legacy), span.genAI, SpanRow(ks, resource, span))
  {
    ReferenceHolds(ks, resource, Normalized(span.attrs, ks.legacy), span.genAI);
  }

  lemma {:induction false} ScopeRowsNonePromoted(ks: Keys, resource: Attrs, spans: seq<SpanIn>)
    ensures forall i :: 0 <= i < |ScopeRows(ks, resource, spans)| ==>
              NonePromoted(ks, ScopeRows(ks, resource, spans)[i])
  {
    if spans != [] {
      ScopeRowsNonePromoted(ks, resource, spans[..|spans| - 1]);
      RowHolds(ks, resource, spans[|spans| - 1]);
    }
  }

  lemma {:induction false} ResourceRowsNonePromoted(ks: Keys, resource: Attrs, scopes: seq<seq<SpanIn>>)
    ensures forall i :: 0 <= i < |ResourceRows(ks, resource, scopes)| ==>
              NonePromoted(ks, ResourceRows(ks, resource, scopes)[i])
  {
    if scopes != [] {
      ResourceRowsNonePromoted(ks, resource, scopes[..|scopes| - 1]);
      ScopeRowsNonePromoted(ks, resource, scopes[|scopes| - 1]);
    }
  }

  lemma {:induction false} RequestRowsNonePromoted(ks: Keys, req: seq<ResourceSpans>)
    ensures forall i :: 0 <= i < |RequestRows(ks, req)| ==> NonePromoted(ks, RequestRows(ks, req)[i])
  {
    if req != [] {
      RequestRowsNonePromoted(ks, req[..|req| - 1]);
      ResourceRowsNonePromoted(ks, req[|req| - 1].resource, req[|req| - 1].scopes);
    }
  }

  /** Spans, scopes and resources keep their order. */
  lemma {:induction false} SpansInOrder(ks: Keys, resource: Attrs, spans: seq<SpanIn>, i: nat)
    requires i < |spans|
    ensures |ScopeRows(ks, resource, spans)| == |spans|
    ensures ScopeRows(ks, resource, spans)[i] == SpanRow(ks, resource, spans[i])
  {
    var n := |spans| - 1;
    if n > 0 {
      SpansInOrder(ks, resource, spans[..n], if i < n then i else 0);
    }
    Ordering.LastOfAppended(ScopeRows(ks, resource, spans[..n]), SpanRow(ks, resource, spans[n]), i);
  }

  lemma ScopesInOrder(ks: Keys, resource: Attrs, scopes: seq<seq<SpanIn>>, last: seq<SpanIn>)
    ensures ResourceRows(ks, resource, scopes + [last]) ==
            ResourceRows(ks, resource, scopes) + ScopeRows(ks, resource, last)
  {
    assert (scopes + [last])[..|scopes|] == scopes;
  }

  lemma ResourcesInOrder(ks: Keys, req: seq<ResourceSpans>, last: ResourceSpans)
    ensures RequestRows(ks, req + [last]) == RequestRows(ks, req) + ResourceRows(ks, last.resource, last.scopes)
  {
    assert (req + [last])[..|req|] == req;
  }

  // ---------------------------------------------------------------- identity keys

  /** A GenAI span does not contribute its identity keys, but the resource's are not filtered: one stays in
      the row exactly when the resource carries it and fewer than `limit` keys of the merge are smaller. */
  lemma ResourceIdentityKeysStay(ks: Keys, resource: Attrs, span: Attrs, k: string)
    requires k in ks.identity && k !in ks.promoted && 0 < ks.limit
    ensures var merge := Unpromoted(ks, resource) + Own(ks, span, true);
            k in Reference(ks, resource, span, true) <==>
            k in resource && (|merge| <= ks.limit || |Ordering.Below(k, merge.Keys, Text.Less)| < ks.limit)
  {
    var merge := Unpromoted(ks, resource) + Own(ks, span, true);
    InCap(merge, ks.limit, k);
    assert k in merge <==> k in resource;
  }
}
