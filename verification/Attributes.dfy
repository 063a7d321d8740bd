/** Attribute maps: Go maps are shared references, so a map is an object here. CapStringMap, FirstNonEmpty
    and the resource dimensions are common to the mappers.
  */
module Attributes {
  import opened Ordering
  import opened Text

  type Attrs = map<string, string>

  class AttrMap {
    var m: Attrs

    constructor (m: Attrs)
      ensures this.m == m
    {
      this.m := m;
    }
  }

  // ---------------------------------------------------------------- capping

  /** The keys of m in order; `Less` is a strict total order. */
  ghost function SortedKeys(m: Attrs): (q: seq<string>)
    ensures |q| == |m|
  {
    LessIsStrictTotal();
    Sorted(m.Keys, Less)
  }

  /** Keep the keys that have fewer than `limit` smaller ones. */
  ghost function Cap(m: Attrs, limit: int): Attrs {
    if limit <= 0 || |m| <= limit then m
    else map k | k in m && |Below(k, m.Keys, Less)| < limit :: m[k]
  }

  function Without(m: Attrs, ks: seq<string>): Attrs {
    map k | k in m && k !in ks :: m[k]
  }

  lemma CapKeepsValues(m: Attrs, limit: int, k: string)
    ensures k in Cap(m, limit) ==> k in m && Cap(m, limit)[k] == m[k]
  {
  }

  lemma InCap(m: Attrs, limit: nat, k: string)
    requires 0 < limit
    ensures k in Cap(m, limit) <==> k in m && (|m| <= limit || |Below(k, m.Keys, Less)| < limit)
  {
  }

  lemma RankDecides(m: Attrs, limit: nat, k: string)
    requires limit <= |m| && k in m
    ensures k in SortedKeys(m)[limit..] <==> |Below(k, m.Keys, Less)| >= limit
  {
    LessIsStrictTotal();
    var q := SortedKeys(m);
    var i :| 0 <= i < |q| && q[i] == k;
    RankInSorted(m.Keys, Less, i);
    if i >= limit {
      assert q[limit..][i - limit] == k;
    }
  }

  lemma CapDropsTheLargest(m: Attrs, limit: nat)
    requires 0 < limit < |m|
    ensures Without(m, SortedKeys(m)[limit..]) == Cap(m, limit)
  {
    forall k | k in m ensures k in Without(m, SortedKeys(m)[limit..]) <==> k in Cap(m, limit) {
      RankDecides(m, limit, k);
    }
  }

  /** What is left has exactly `limit` keys. */
  lemma CapSize(m: Attrs, limit: nat)
    requires 0 < limit < |m|
    ensures |Cap(m, limit)| == limit
  {
    LessIsStrictTotal();
    var q := SortedKeys(m);
    CapDropsTheLargest(m, limit);
    forall k ensures k in Cap(m, limit) <==> k in Elements(q[..limit]) {
      if k in m {
        RankDecides(m, limit, k);
        var i :| 0 <= i < |q| && q[i] == k;
        RankInSorted(m.Keys, Less, i);
        if i < limit {
          assert q[..limit][i] == k;
        }
      }
    }
    assert Cap(m, limit).Keys == Elements(q[..limit]);
    PrefixSize(q, Less, limit);
  }

  lemma WithoutNext(m: Attrs, ks: seq<string>, i: nat)
    requires i < |ks|
    ensures Without(m, ks[..i]) - {ks[i]} == Without(m, ks[..i + 1])
  {
    assert ks[..i + 1] == ks[..i] + [ks[i]];
  }

  method DeleteAll(a: AttrMap, ks: seq<string>)
    modifies a
    ensures a.m == Without(old(a.m), ks)
  {
    for i := 0 to |ks|
      invariant a.m == Without(old(a.m), ks[..i])
    {
      WithoutNext(old(a.m), ks, i);
      a.m := a.m - {ks[i]};
    }
    assert ks[..|ks|] == ks;
  }

  /** CapStringMap: keeps the `limit` lexically smallest keys in place, returns how many it deleted. */
  method CapStringMap(a: AttrMap, limit: int) returns (dropped: nat)
    modifies a
    ensures a.m == Cap(old(a.m), limit)
    ensures dropped == |old(a.m)| - |a.m|
    ensures |a.m| <= |old(a.m)| && (limit > 0 ==> |a.m| <= limit)
  {
    if limit <= 0 || |a.m| <= limit {
      return 0;
    }
    ghost var m := a.m;
    LessIsStrictTotal();
    var sorted := Sort(a.m.Keys, Less);
    var excess := sorted[limit..];
    DeleteAll(a, excess);
    CapDropsTheLargest(m, limit);
    CapSize(m, limit);
    dropped := |excess|;
  }

  // ---------------------------------------------------------------- capping twice

  lemma BelowGrows(k: string, s: set<string>, t: set<string>)
    requires s <= t
    ensures Below(k, s, Less) <= Below(k, t, Less) && |Below(k, s, Less)| <= |Below(k, t, Less)|
  {
    SubsetSize(Below(k, s, Less), Below(k, t, Less));
  }

  lemma {:induction false} SubsetSize<T>(a: set<T>, b: set<T>)
    requires a <= b
    ensures |a| <= |b|
    ensures a != b ==> |a| < |b|
  {
    assert |b| == |a| + |b - a| by { assert b == a + (b - a); }
    if a != b {
      var x :| x in b - a;
    }
  }

  /** Every dropped key lies above every kept one. */
  lemma KeptBelowDropped(m: Attrs, limit: nat, kept: string, dropped: string)
    requires 0 < limit < |m| && kept in Cap(m, limit) && dropped in m && dropped !in Cap(m, limit)
    ensures Less(kept, dropped)
  {
    LessConnected(kept, dropped);
    if Less(dropped, kept) {
      forall x | x in Below(dropped, m.Keys, Less) ensures x in Below(kept, m.Keys, Less) {
        LessTransitive(x, dropped, kept);
      }
      SubsetSize(Below(dropped, m.Keys, Less), Below(kept, m.Keys, Less));
    }
  }

  /** A key within the limit of the capped merge has nothing dropped below it. */
  lemma NothingDroppedBelow(base: Attrs, own: Attrs, limit: nat, k: string)
    requires 0 < limit < |base| && k in Cap(base, limit) + own
    requires |Below(k, (Cap(base, limit) + own).Keys, Less)| < limit
    ensures Below(k, (Cap(base, limit) + own).Keys, Less) == Below(k, (base + own).Keys, Less)
  {
    var capped := Cap(base, limit);
    forall x | x in (base + own).Keys && Less(x, k) ensures x in (capped + own).Keys {
      if x !in own && x !in capped {
        forall c | c in capped.Keys ensures c in Below(k, (capped + own).Keys, Less) {
          KeptBelowDropped(base, limit, c, x);
          LessTransitive(c, x, k);
        }
        SubsetSize(capped.Keys, Below(k, (capped + own).Keys, Less));
        CapSize(base, limit);
      }
    }
  }

  lemma RankBelowSize(k: string, s: set<string>)
    requires k in s
    ensures |Below(k, s, Less)| < |s|
  {
    LessIrreflexive(k);
    SubsetSize(Below(k, s, Less), s);
  }

  /** Whether a key survives does not depend on the base having been capped first. */
  lemma SurvivesEitherWay(base: Attrs, own: Attrs, limit: nat, k: string)
    requires 0 < limit < |base|
    ensures k in Cap(Cap(base, limit) + own, limit) <==> k in Cap(base + own, limit)
  {
    var capped, merged := Cap(base, limit) + own, base + own;
    SubsetSize(base.Keys, merged.Keys);
    if k in Cap(merged, limit) {
      if k !in own {
        BelowGrows(k, base.Keys, merged.Keys);
      }
      assert k in capped;
      BelowGrows(k, capped.Keys, merged.Keys);
    } else if k in Cap(capped, limit) {
      RankBelowSize(k, capped.Keys);
      NothingDroppedBelow(base, own, limit, k);
    }
  }

  lemma SurvivesWithOneValue(base: Attrs, own: Attrs, limit: int, k: string)
    requires k in Cap(Cap(base, limit) + own, limit) && k in Cap(base + own, limit)
    ensures Cap(Cap(base, limit) + own, limit)[k] == Cap(base + own, limit)[k]
  {
    CapKeepsValues(base, limit, k);
    CapKeepsValues(Cap(base, limit) + own, limit, k);
    CapKeepsValues(base + own, limit, k);
  }

  lemma SameEntries(a: Attrs, b: Attrs)
    requires forall k :: k in a <==> k in b
    requires forall k :: k in a && k in b ==> a[k] == b[k]
    ensures a == b
  {
  }

  /** Capping the base, merging and capping again is merging the whole base and capping once:
      for all maps and limits. */
  lemma CapOnceIsEnough(base: Attrs, own: Attrs, limit: int)
    ensures Cap(Cap(base, limit) + own, limit) == Cap(base + own, limit)
  {
    if limit <= 0 || |base| <= limit {
      assert Cap(base, limit) == base;
    } else {
      forall k ensures k in Cap(Cap(base, limit) + own, limit) <==> k in Cap(base + own, limit) {
        SurvivesEitherWay(base, own, limit, k);
      }
      forall k | k in Cap(Cap(base, limit) + own, limit) && k in Cap(base + own, limit)
        ensures Cap(Cap(base, limit) + own, limit)[k] == Cap(base + own, limit)[k]
      {
        SurvivesWithOneValue(base, own, limit, k);
      }
      SameEntries(Cap(Cap(base, limit) + own, limit), Cap(base + own, limit));
    }
  }

  /** One turn of a loop that copies `own` over `base`, `todo` being the keys not yet visited. */
  lemma CopyOne(base: Attrs, own: Attrs, todo: set<string>, k: string)
    requires k in todo
    ensures k in own ==> (base + (own - todo))[k := own[k]] == base + (own - (todo - {k}))
    ensures k !in own ==> own - todo == own - (todo - {k})
  {
  }

  // ---------------------------------------------------------------- resource dimensions

  /** attrs[k], which is "" for an absent key. */
  function Get(m: Attrs, k: string): (v: string)
    ensures k in m ==> v == m[k]
    ensures v != "" ==> k in m
  {
    if k in m then m[k] else ""
  }

  /** v is the value of the first of these keys that has one; empty when none has. */
  predicate IsFirst(v: string, m: Attrs, keys: seq<string>) {
    if v == "" then forall i :: 0 <= i < |keys| ==> Get(m, keys[i]) == ""
    else exists i :: 0 <= i < |keys| && Get(m, keys[i]) == v && forall j :: 0 <= j < i ==> Get(m, keys[j]) == ""
  }

  function FirstNonEmpty(m: Attrs, keys: seq<string>): string {
    if keys == [] then ""
    else if Get(m, keys[0]) != "" then Get(m, keys[0])
    else FirstNonEmpty(m, keys[1..])
  }

  lemma {:induction false} FirstNonEmptyIsFirst(m: Attrs, keys: seq<string>)
    ensures IsFirst(FirstNonEmpty(m, keys), m, keys)
  {
    if keys != [] && Get(m, keys[0]) == "" {
      FirstNonEmptyIsFirst(m, keys[1..]);
      var v := FirstNonEmpty(m, keys);
      if v == "" {
        forall i | 0 <= i < |keys| ensures Get(m, keys[i]) == "" {
          if i > 0 { assert keys[1..][i - 1] == keys[i]; }
        }
      } else {
        var i :| 0 <= i < |keys| - 1 && Get(m, keys[1..][i]) == v &&
                 forall j :: 0 <= j < i ==> Get(m, keys[1..][j]) == "";
        forall j | 0 <= j < i + 1 ensures Get(m, keys[j]) == "" {
          if j > 0 { assert keys[1..][j - 1] == keys[j]; }
        }
        assert keys[i + 1] == keys[1..][i];
      }
    }
  }

  lemma {:induction false} SameFirst(a: Attrs, b: Attrs, keys: seq<string>)
    requires forall k :: k in keys ==> Get(a, k) == Get(b, k)
    ensures FirstNonEmpty(a, keys) == FirstNonEmpty(b, keys)
  {
    if keys != [] {
      assert keys[0] in keys;
      SameFirst(a, b, keys[1..]);
    }
  }

  datatype Dimensions = Dimensions(
    service: string, host: string, pod: string, container: string,
    environment: string, version: string, namespace: string)

  /** The label lists, in order of preference. */
  datatype Labels = Labels(
    service: seq<string>, host: seq<string>, pod: seq<string>, container: seq<string>,
    environment: seq<string>, version: seq<string>, namespace: seq<string>)

  const RESOURCE_LABELS := Labels(
    ["service.name", "cloudwatch.log.group.name", "k8s.deployment.name", "k8s.deployment.uid",
     "k8s.statefulset.name", "k8s.statefulset.uid", "k8s.daemonset.name", "k8s.daemonset.uid",
     "k8s.job.name", "k8s.job.uid", "k8s.cronjob.name", "k8s.cronjob.uid", "faas.name"],
    ["k8s.node.name", "k8s.node.uid", "host.id", "host.name", "host.ip", "host"],
    ["k8s.pod.name", "k8s.pod.uid"],
    ["k8s.container.name", "container.name", "container_name"],
    ["deployment.environment", "env"],
    ["service.version", "version"],
    ["service.namespace", "k8s.namespace.name"])

  function ResolveResource(m: Attrs, l: Labels): Dimensions {
    Dimensions(
      FirstNonEmpty(m, l.service), FirstNonEmpty(m, l.host), FirstNonEmpty(m, l.pod), FirstNonEmpty(m, l.container),
      FirstNonEmpty(m, l.environment), FirstNonEmpty(m, l.version), FirstNonEmpty(m, l.namespace))
  }

  /** Each dimension is the first value its own labels have. */
  lemma DimensionsAreFirst(m: Attrs, l: Labels)
    ensures var d := ResolveResource(m, l);
            && IsFirst(d.service, m, l.service) && IsFirst(d.host, m, l.host) && IsFirst(d.pod, m, l.pod)
            && IsFirst(d.container, m, l.container) && IsFirst(d.environment, m, l.environment)
            && IsFirst(d.version, m, l.version) && IsFirst(d.namespace, m, l.namespace)
  {
    FirstNonEmptyIsFirst(m, l.service);
    FirstNonEmptyIsFirst(m, l.host);
    FirstNonEmptyIsFirst(m, l.pod);
    FirstNonEmptyIsFirst(m, l.container);
    FirstNonEmptyIsFirst(m, l.environment);
    FirstNonEmptyIsFirst(m, l.version);
    FirstNonEmptyIsFirst(m, l.namespace);
  }
}
