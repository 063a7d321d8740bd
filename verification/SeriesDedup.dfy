/** The series dedup cache and the exports that use it: filter, publish, then mark.

    A cache entry (key, b) says the key's series row was published in republish bucket b.
  */
module SeriesDedup {
  import opened Lru

  datatype Key = Key(tenant: nat, fingerprint: nat)

  type Memory = Cache<Key, int>

  // ---------------------------------------------------------------- specification of the two loops

  predicate Fresh(c: Memory, k: Key, bucket: int) {
    c.Peek(k).None? || c.Peek(k).value < bucket
  }

  /** What FilterUnpublished lets through, and the cache after its lookups. */
  function Filter(c: Memory, rows: seq<Key>, bucket: int): (seq<Key>, Memory) {
    if rows == [] then ([], c)
    else
      var n := |rows| - 1;
      var (out, d) := Filter(c, rows[..n], bucket);
      (if Fresh(d, rows[n], bucket) then out + [rows[n]] else out, d.Get(rows[n]))
  }

  function Mark(c: Memory, rows: seq<Key>, bucket: int): Memory {
    if rows == [] then c else Mark(c, rows[..|rows| - 1], bucket).Add(rows[|rows| - 1], bucket)
  }

  // ---------------------------------------------------------------- the code

  const NANOS_PER_SECOND := 1_000_000_000

  /** Go's integer division, which truncates towards zero. */
  function GoDiv(a: int, b: nat): int
    requires b > 0
  {
    if a >= 0 then a / b else -((-a) / b)
  }

  /** The interval of that many seconds that holds a time; before the epoch they are counted up to it. */
  predicate InInterval(unix: int, secs: nat, b: int) {
    if unix >= 0 then b * secs <= unix < (b + 1) * secs else (b - 1) * secs < unix <= b * secs
  }

  lemma DivIsInterval(a: int, b: nat)
    requires b > 0
    ensures InInterval(a, b, GoDiv(a, b))
  {
    var n := if a >= 0 then a else -a;
    var q := n / b;
    assert n == b * q + n % b;
    assert (q + 1) * b == q * b + b;
    assert (-q) * b == -(q * b);
    assert (-q - 1) * b == (-q) * b - b;
  }

  /** One interval only. */
  lemma IntervalIsUnique(unix: int, secs: nat, b: int, c: int)
    requires secs > 0 && unix >= 0 && InInterval(unix, secs, b) && InInterval(unix, secs, c)
    ensures b == c
  {
    IntervalsInOrder(unix, unix, secs, b, c);
    IntervalsInOrder(unix, unix, secs, c, b);
  }

  lemma IntervalsInOrder(first: int, second: int, secs: nat, b: int, c: int)
    requires secs > 0 && 0 <= first <= second && InInterval(first, secs, b) && InInterval(second, secs, c)
    ensures b <= c
  {
    if c < b {
      MultiplesGrow(c + 1, b, secs);
    }
  }

  lemma MultiplesGrow(x: int, y: int, secs: nat)
    requires x <= y
    ensures x * secs <= y * secs
  {
    assert (y - x) * secs >= 0;
    assert (y - x) * secs == y * secs - x * secs;
  }

  class Dedup {
    const bucketSecs: nat
    var cache: Memory

    constructor (capacity: nat, bucketSecs: nat)
      requires capacity > 0
      ensures this.bucketSecs == bucketSecs
      ensures cache.Valid() && cache.capacity == capacity && cache.entries == []
    {
      this.bucketSecs := bucketSecs;
      this.cache := Cache(capacity, []);
    }

    method FilterUnpublished(rows: seq<Key>, bucket: int) returns (out: seq<Key>)
      modifies this
      ensures (out, cache) == Filter(old(cache), rows, bucket)
    {
      out := [];
      for i := 0 to |rows|
        invariant (out, cache) == Filter(old(cache), rows[..i], bucket)
      {
        assert rows[..i + 1][..i] == rows[..i];
        var k := rows[i];
        var last := cache.Peek(k);
        cache := cache.Get(k);
        if last.Some? && last.value >= bucket {
          continue;
        }
        out := out + [k];
      }
      assert rows[..|rows|] == rows;
    }

    method MarkPublished(rows: seq<Key>, bucket: int)
      modifies this
      ensures cache == Mark(old(cache), rows, bucket)
    {
      for i := 0 to |rows|
        invariant cache == Mark(old(cache), rows[..i], bucket)
      {
        assert rows[..i + 1][..i] == rows[..i];
        cache := cache.Add(rows[i], bucket);
      }
      assert rows[..|rows|] == rows;
    }
  }

  /** NewDedup: null when the capacity or the interval disables deduplication. */
  method NewDedup(capacity: int, republishNanos: int) returns (d: Dedup?)
    ensures d == null <==> capacity <= 0 || republishNanos <= 0
    ensures d != null ==>
            fresh(d) && d.cache.Valid() && d.cache.entries == [] && d.bucketSecs == republishNanos / NANOS_PER_SECOND
  {
    if capacity <= 0 || republishNanos <= 0 {
      return null;
    }
    d := new Dedup(capacity, republishNanos / NANOS_PER_SECOND);
  }

  /** Dedup.Bucket; None is the panic of dividing by zero. */
  method Bucket(d: Dedup?, unix: int) returns (b: Option<int>)
    ensures d == null ==> b == Some(0)
    ensures d != null ==> b == if d.bucketSecs == 0 then None else Some(GoDiv(unix, d.bucketSecs))
    ensures d != null && d.bucketSecs > 0 ==> InInterval(unix, d.bucketSecs, b.value)
  {
    if d == null {
      return Some(0);
    }
    if d.bucketSecs == 0 {
      return None;
    }
    b := Some(GoDiv(unix, d.bucketSecs));
    DivIsInterval(unix, d.bucketSecs);
  }

  /** A positive interval below one second passes the constructor's guard and makes every Bucket call panic:
      exactly those do. */
  method BucketPanicsBelowOneSecond(capacity: int, republishNanos: int, unix: int) returns (panics: bool)
    ensures panics <==> capacity > 0 && 0 < republishNanos < NANOS_PER_SECOND
  {
    var d := NewDedup(capacity, republishNanos);
    var b := Bucket(d, unix);
    panics := b.None?;
  }

  /** publishPair: the series rows given to the publisher; only a successful publish is marked. Without a cache
      all rows are published. None is the panic of Bucket. */
  method PublishPair(d: Dedup?, unix: int, rows: seq<Key>, publishOk: bool) returns (unpublished: Option<seq<Key>>)
    modifies if d == null then {} else {d}
    ensures d == null ==> unpublished == Some(rows)
    ensures d != null && d.bucketSecs == 0 ==> unpublished == None && d.cache == old(d.cache)
    ensures d != null && d.bucketSecs > 0 ==>
              && unpublished.Some?
              && (unpublished.value, d.cache) ==
                     ExportSpec(old(d.cache), Export(rows, GoDiv(unix, d.bucketSecs), publishOk))
  {
    var bucket := Bucket(d, unix);
    if bucket.None? {
      return None;
    }
    if d == null {
      return Some(rows);
    }
    var out := d.FilterUnpublished(rows, bucket.value);
    if publishOk {
      d.MarkPublished(out, bucket.value);
    }
    unpublished := Some(out);
  }

  // ---------------------------------------------------------------- sequential exports

  datatype Export = Export(rows: seq<Key>, bucket: int, ok: bool)

  function ExportSpec(c: Memory, e: Export): (seq<Key>, Memory) {
    var (out, d) := Filter(c, e.rows, e.bucket);
    (out, if e.ok then Mark(d, out, e.bucket) else d)
  }

  function AfterExports(c: Memory, es: seq<Export>): Memory {
    if es == [] then c else ExportSpec(AfterExports(c, es[..|es| - 1]), es[|es| - 1]).1
  }

  /** The buckets in which k was published and marked, one per row, in order. */
  function Successes(c: Memory, es: seq<Export>, k: Key): seq<int> {
    if es == [] then []
    else
      var n := |es| - 1;
      var e := es[n];
      Successes(c, es[..n], k) + Occurrences(ExportSpec(AfterExports(c, es[..n]), e).0, k, e)
  }

  function Occurrences(out: seq<Key>, k: Key, e: Export): seq<int> {
    if !e.ok || out == [] then []
    else Occurrences(out[..|out| - 1], k, e) + (if out[|out| - 1] == k then [e.bucket] else [])
  }

  predicate Increasing(q: seq<int>) {
    forall i, j :: 0 <= i < j < |q| ==> q[i] < q[j]
  }

  predicate NoDuplicates(rows: seq<Key>) {
    forall i, j :: 0 <= i < j < |rows| ==> rows[i] != rows[j]
  }

  lemma {:induction false} FilterKeeps(c: Memory, rows: seq<Key>, bucket: int)
    requires c.Valid()
    ensures var (out, d) := Filter(c, rows, bucket);
            && d.Valid() && d.capacity == c.capacity
            && (forall k :: d.Peek(k) == c.Peek(k))
            && (forall k :: k in out <==> k in rows && Fresh(c, k, bucket))
  {
    if rows != [] {
      var n := |rows| - 1;
      FilterKeeps(c, rows[..n], bucket);
      GetKeeps(Filter(c, rows[..n], bucket).1, rows[n]);
      assert rows == rows[..n] + [rows[n]];
    }
  }

  lemma {:induction false} FilterNoDuplicates(c: Memory, rows: seq<Key>, bucket: int)
    requires c.Valid() && NoDuplicates(rows)
    ensures NoDuplicates(Filter(c, rows, bucket).0)
  {
    if rows != [] {
      var n := |rows| - 1;
      FilterNoDuplicates(c, rows[..n], bucket);
      FilterKeeps(c, rows[..n], bucket);
      assert rows[n] !in rows[..n];
    }
  }

  lemma {:induction false} EntriesBounded(es: seq<Entry<Key, int>>, keys: set<Key>)
    requires DistinctKeys(es) && forall i :: 0 <= i < |es| ==> es[i].key in keys
    ensures |es| <= |keys|
  {
    if es != [] {
      EntriesBounded(es[1..], keys - {es[0].key});
    }
  }

  /** All the cache's keys are among `keys`. */
  predicate Holds(c: Memory, keys: set<Key>) {
    forall i :: 0 <= i < |c.entries| ==> c.entries[i].key in keys
  }

  lemma GetHolds(c: Memory, k: Key, keys: set<Key>)
    requires Holds(c, keys) && k in keys
    ensures Holds(c.Get(k), keys)
  {
    WithoutHolds(c.entries, k, keys);
  }

  lemma {:induction false} WithoutHolds(es: seq<Entry<Key, int>>, k: Key, keys: set<Key>)
    requires forall i :: 0 <= i < |es| ==> es[i].key in keys
    ensures forall i :: 0 <= i < |Without(es, k)| ==> Without(es, k)[i].key in keys
  {
    if es != [] { WithoutHolds(es[1..], k, keys); }
  }

  /** Adding one of the run's keys never evicts when they all fit. */
  lemma AddFits(c: Memory, k: Key, bucket: int, keys: set<Key>)
    requires c.Valid() && Holds(c, keys) && k in keys && |keys| <= c.capacity
    ensures var d := c.Add(k, bucket);
            && d.Valid() && Holds(d, keys) && d.capacity == c.capacity
            && forall q :: d.Peek(q) == if q == k then Some(bucket) else c.Peek(q)
  {
    if c.Peek(k).None? {
      FindMisses(c.entries, k);
      EntriesBounded(c.entries, keys - {k});
    }
    AddKeeps(c, k, bucket);
    WithoutHolds(c.entries, k, keys);
  }

  lemma {:induction false} FilterHolds(c: Memory, rows: seq<Key>, bucket: int, keys: set<Key>)
    requires Holds(c, keys) && forall k :: k in rows ==> k in keys
    ensures Holds(Filter(c, rows, bucket).1, keys)
  {
    if rows != [] {
      FilterHolds(c, rows[..|rows| - 1], bucket, keys);
      GetHolds(Filter(c, rows[..|rows| - 1], bucket).1, rows[|rows| - 1], keys);
    }
  }

  lemma {:induction false} MarkSets(c: Memory, rows: seq<Key>, bucket: int, keys: set<Key>)
    requires c.Valid() && Holds(c, keys) && |keys| <= c.capacity && forall k :: k in rows ==> k in keys
    ensures var d := Mark(c, rows, bucket);
            && d.Valid() && Holds(d, keys) && d.capacity == c.capacity
            && forall q :: d.Peek(q) == if q in rows then Some(bucket) else c.Peek(q)
  {
    if rows != [] {
      var n := |rows| - 1;
      MarkSets(c, rows[..n], bucket, keys);
      AddFits(Mark(c, rows[..n], bucket), rows[n], bucket, keys);
      assert rows == rows[..n] + [rows[n]];
    }
  }

  /** One export, without eviction: exactly the fresh rows are published, and a success is remembered. */
  lemma ExportSets(c: Memory, e: Export, keys: set<Key>)
    requires c.Valid() && Holds(c, keys) && |keys| <= c.capacity && forall k :: k in e.rows ==> k in keys
    ensures var (out, d) := ExportSpec(c, e);
            && d.Valid() && Holds(d, keys) && d.capacity == c.capacity
            && (forall k :: k in out <==> k in e.rows && Fresh(c, k, e.bucket))
            && (NoDuplicates(e.rows) ==> NoDuplicates(out))
            && forall k :: d.Peek(k) == if e.ok && k in out then Some(e.bucket) else c.Peek(k)
  {
    FilterKeeps(c, e.rows, e.bucket);
    FilterHolds(c, e.rows, e.bucket, keys);
    if NoDuplicates(e.rows) {
      FilterNoDuplicates(c, e.rows, e.bucket);
    }
    var (out, d) := Filter(c, e.rows, e.bucket);
    if e.ok {
      MarkSets(d, out, e.bucket, keys);
    }
  }

  lemma {:induction false} OccursOnce(out: seq<Key>, k: Key, e: Export)
    requires NoDuplicates(out)
    ensures Occurrences(out, k, e) == if e.ok && k in out then [e.bucket] else []
  {
    if e.ok && out != [] {
      var n := |out| - 1;
      OccursOnce(out[..n], k, e);
      assert out == out[..n] + [out[n]];
    }
  }

  // ---------------------------------------------------------------- exports as cache operations

  function Looks(rows: seq<Key>): seq<Op<Key, int>> {
    seq(|rows|, i requires 0 <= i < |rows| => Look(rows[i]))
  }

  function Puts(rows: seq<Key>, bucket: int): seq<Op<Key, int>> {
    seq(|rows|, i requires 0 <= i < |rows| => Put(rows[i], bucket))
  }

  /** A lookup per row, then, after a success, a put per published row. */
  function OpsOf(c: Memory, e: Export): seq<Op<Key, int>> {
    Looks(e.rows) + if e.ok then Puts(Filter(c, e.rows, e.bucket).0, e.bucket) else []
  }

  function Ops(c: Memory, es: seq<Export>): seq<Op<Key, int>> {
    if es == [] then [] else Ops(c, es[..|es| - 1]) + OpsOf(AfterExports(c, es[..|es| - 1]), es[|es| - 1])
  }

  lemma {:induction false} FilterIsLooks(c: Memory, rows: seq<Key>, bucket: int)
    ensures After(c, Looks(rows)) == Filter(c, rows, bucket).1
  {
    if rows != [] {
      FilterIsLooks(c, rows[..|rows| - 1], bucket);
      assert Looks(rows)[..|rows| - 1] == Looks(rows[..|rows| - 1]);
    }
  }

  lemma {:induction false} MarkIsPuts(c: Memory, rows: seq<Key>, bucket: int)
    ensures After(c, Puts(rows, bucket)) == Mark(c, rows, bucket)
  {
    if rows != [] {
      MarkIsPuts(c, rows[..|rows| - 1], bucket);
      assert Puts(rows, bucket)[..|rows| - 1] == Puts(rows[..|rows| - 1], bucket);
    }
  }

  lemma ExportIsOps(c: Memory, e: Export)
    ensures After(c, OpsOf(c, e)) == ExportSpec(c, e).1
  {
    FilterIsLooks(c, e.rows, e.bucket);
    if e.ok {
      var (out, d) := Filter(c, e.rows, e.bucket);
      AfterBoth(c, Looks(e.rows), Puts(out, e.bucket));
      MarkIsPuts(d, out, e.bucket);
    } else {
      assert Looks(e.rows) + [] == Looks(e.rows);
    }
  }

  lemma {:induction false} ExportsAreOps(c: Memory, es: seq<Export>)
    ensures After(c, Ops(c, es)) == AfterExports(c, es)
  {
    if es != [] {
      var before := es[..|es| - 1];
      ExportsAreOps(c, before);
      AfterBoth(c, Ops(c, before), OpsOf(AfterExports(c, before), es[|es| - 1]));
      ExportIsOps(AfterExports(c, before), es[|es| - 1]);
    }
  }

  lemma {:induction false} LooksPutNothing(rows: seq<Key>, k: Key)
    ensures LastPut(Looks(rows), k).None?
  {
    if rows != [] {
      LooksPutNothing(rows[..|rows| - 1], k);
      assert Looks(rows)[..|rows| - 1] == Looks(rows[..|rows| - 1]);
    }
  }

  lemma {:induction false} LastOfPuts(rows: seq<Key>, bucket: int, k: Key)
    ensures LastPut(Puts(rows, bucket), k) == if k in rows then Some(bucket) else None
  {
    if rows != [] {
      var n := |rows| - 1;
      LastOfPuts(rows[..n], bucket, k);
      assert Puts(rows, bucket)[..n] == Puts(rows[..n], bucket);
      assert rows == rows[..n] + [rows[n]];
    }
  }

  lemma LastPutOfExport(c: Memory, e: Export, k: Key)
    ensures LastPut(OpsOf(c, e), k) == if e.ok && k in Filter(c, e.rows, e.bucket).0 then Some(e.bucket) else None
  {
    LooksPutNothing(e.rows, k);
    if e.ok {
      var out := Filter(c, e.rows, e.bucket).0;
      LastOfPuts(out, e.bucket, k);
      LastPutOfBoth(Looks(e.rows), Puts(out, e.bucket), k);
    } else {
      assert Looks(e.rows) + [] == Looks(e.rows);
    }
  }

  /** The successes so far increase, and the last one is the last put. */
  predicate UpTo(successes: seq<int>, last: Option<int>) {
    Increasing(successes) && last == if successes == [] then None else Some(successes[|successes| - 1])
  }

  /** An export succeeds for a key at most once, and only for a key fresh before it. */
  lemma SuccessIsPut(c: Memory, e: Export, k: Key)
    requires c.Valid() && NoDuplicates(e.rows)
    ensures var last := LastPut(OpsOf(c, e), k);
            && (last.None? ==> Occurrences(ExportSpec(c, e).0, k, e) == [])
            && (last.Some? ==> last.value == e.bucket && Fresh(c, k, e.bucket) &&
                               Occurrences(ExportSpec(c, e).0, k, e) == [e.bucket])
  {
    LastPutOfExport(c, e, k);
    FilterKeeps(c, e.rows, e.bucket);
    FilterNoDuplicates(c, e.rows, e.bucket);
    OccursOnce(Filter(c, e.rows, e.bucket).0, k, e);
  }

  lemma AppendUpTo(successes: seq<int>, last: Option<int>, bucket: int)
    requires UpTo(successes, last) && (last.None? || last.value < bucket)
    ensures UpTo(successes + [bucket], Some(bucket))
  {
  }

  lemma OneMoreUpTo(c: Memory, e: Export, successes: seq<int>, last: Option<int>, k: Key)
    requires c.Valid() && c.Peek(k) == last && UpTo(successes, last) && NoDuplicates(e.rows)
    ensures UpTo(successes + Occurrences(ExportSpec(c, e).0, k, e),
                 if LastPut(OpsOf(c, e), k).Some? then LastPut(OpsOf(c, e), k) else last)
  {
    SuccessIsPut(c, e, k);
    if LastPut(OpsOf(c, e), k).Some? {
      AppendUpTo(successes, last, e.bucket);
    } else {
      assert successes + [] == successes;
    }
  }

  lemma {:induction false} SuccessesUpTo(c: Memory, es: seq<Export>, k: Key)
    requires c.Valid() && c.entries == [] && NeverCrowdedOut(c, Ops(c, es), k)
    requires forall e :: e in es ==> NoDuplicates(e.rows)
    ensures UpTo(Successes(c, es, k), LastPut(Ops(c, es), k))
  {
    if es != [] {
      var n := |es| - 1;
      var e, d, before := es[n], AfterExports(c, es[..n]), Ops(c, es[..n]);
      assert es == es[..n] + [e];
      assert Ops(c, es)[..|before|] == before;
      NeverCrowdedPrefix(c, Ops(c, es), k, |before|);
      SuccessesUpTo(c, es[..n], k);
      RemembersLastPut(c, before, k);
      ExportsAreOps(c, es[..n]);
      LastPutOfBoth(before, OpsOf(d, e), k);
      OneMoreUpTo(d, e, Successes(c, es[..n], k), LastPut(before, k), k);
    }
  }

  /** Sequential exports, each request naming a key at most once: the buckets in which a key succeeds strictly
      increase, even when the clock, and so the bucket, goes backwards, as long as from its first success on fewer
      than `capacity` other keys are ever touched between two touches of it. */
  lemma SuccessesIncrease(c: Memory, es: seq<Export>, k: Key)
    requires c.Valid() && c.entries == [] && NeverCrowdedOut(c, Ops(c, es), k)
    requires forall e :: e in es ==> NoDuplicates(e.rows)
    ensures Increasing(Successes(c, es, k))
  {
    SuccessesUpTo(c, es, k);
  }

  /** Every row of every successful request is one of these keys. */
  predicate SucceedWithin(es: seq<Export>, keys: set<Key>) {
    forall i :: 0 <= i < |es| && es[i].ok ==> forall k :: k in es[i].rows ==> k in keys
  }

  lemma {:induction false} OpsPutWithin(c: Memory, es: seq<Export>, keys: set<Key>)
    requires c.Valid() && SucceedWithin(es, keys)
    ensures AfterExports(c, es).Valid() && PutsWithin(Ops(c, es), keys)
  {
    if es != [] {
      var n := |es| - 1;
      OpsPutWithin(c, es[..n], keys);
      ExportPutsWithin(AfterExports(c, es[..n]), es[n], keys);
    }
  }

  lemma ExportPutsWithin(c: Memory, e: Export, keys: set<Key>)
    requires c.Valid() && (e.ok ==> forall k :: k in e.rows ==> k in keys)
    ensures ExportSpec(c, e).1.Valid() && PutsWithin(OpsOf(c, e), keys)
  {
    FilterKeeps(c, e.rows, e.bucket);
    var (out, d) := Filter(c, e.rows, e.bucket);
    MarkValid(d, out, e.bucket);
  }

  lemma {:induction false} MarkValid(c: Memory, rows: seq<Key>, bucket: int)
    requires c.Valid()
    ensures Mark(c, rows, bucket).Valid()
  {
    if rows != [] {
      MarkValid(c, rows[..|rows| - 1], bucket);
      AddKeeps(Mark(c, rows[..|rows| - 1], bucket), rows[|rows| - 1], bucket);
    }
  }

  /** In particular for every key when the keys of successful exports all fit the cache. */
  lemma SuccessesIncreaseWhenKeysFit(c: Memory, es: seq<Export>, keys: set<Key>, k: Key)
    requires c.Valid() && c.entries == [] && |keys| <= c.capacity && SucceedWithin(es, keys)
    requires forall e :: e in es ==> NoDuplicates(e.rows)
    ensures Increasing(Successes(c, es, k))
  {
    OpsPutWithin(c, es, keys);
    NobodyCrowdedOut(c, Ops(c, es), k, keys);
    SuccessesIncrease(c, es, k);
  }

  // ---------------------------------------------------------------- exporting the same rows twice

  lemma SameFresh(c: Memory, d: Memory, k: Key, bucket: int)
    requires c.Peek(k) == d.Peek(k)
    ensures Fresh(c, k, bucket) == Fresh(d, k, bucket)
  {
  }

  lemma {:induction false} FilterKeepsAll(c: Memory, rows: seq<Key>, bucket: int)
    requires c.Valid() && forall k :: k in rows ==> Fresh(c, k, bucket)
    ensures Filter(c, rows, bucket).0 == rows
  {
    if rows != [] {
      var n := |rows| - 1;
      assert rows == rows[..n] + [rows[n]];
      FilterKeepsAll(c, rows[..n], bucket);
      FilterKeeps(c, rows[..n], bucket);
      assert rows[n] in rows && Fresh(c, rows[n], bucket);
      SameFresh(c, Filter(c, rows[..n], bucket).1, rows[n], bucket);
    }
  }

  lemma {:induction false} FilterDropsAll(c: Memory, rows: seq<Key>, bucket: int)
    requires c.Valid() && forall k :: k in rows ==> !Fresh(c, k, bucket)
    ensures Filter(c, rows, bucket).0 == []
  {
    if rows != [] {
      var n := |rows| - 1;
      assert rows == rows[..n] + [rows[n]];
      FilterDropsAll(c, rows[..n], bucket);
      FilterKeeps(c, rows[..n], bucket);
      assert rows[n] in rows && !Fresh(c, rows[n], bucket);
      SameFresh(c, Filter(c, rows[..n], bucket).1, rows[n], bucket);
    }
  }

  /** After a success in one bucket, the same rows are all suppressed in that bucket, and all published again in a
      later one unless some were already published later still. */
  lemma AfterSuccess(c: Memory, rows: seq<Key>, first: int, second: int, keys: set<Key>)
    requires c.Valid() && Holds(c, keys) && |keys| <= c.capacity && forall k :: k in rows ==> k in keys
    ensures var d := ExportSpec(c, Export(rows, first, true)).1;
            && d.Valid() && (second <= first ==> Filter(d, rows, second).0 == [])
            && (second > first && (forall k :: k in rows && c.Peek(k).Some? ==> c.Peek(k).value < second) ==>
                  Filter(d, rows, second).0 == rows)
  {
    var e := Export(rows, first, true);
    ExportSets(c, e, keys);
    var d := ExportSpec(c, e).1;
    if second <= first {
      forall k | k in rows ensures !Fresh(d, k, second) {
      }
      FilterDropsAll(d, rows, second);
    } else if forall k :: k in rows && c.Peek(k).Some? ==> c.Peek(k).value < second {
      FilterKeepsAll(d, rows, second);
    }
  }

  /** publishPair twice with the same rows, the first succeeding: `interval` and `later` are the republish intervals
      of the two clocks. In one interval the second call gives the publisher nothing; in a later one it gives every
      row again, if no row was known from an interval after the first. */
  method ExportTwice(d: Dedup, first: int, second: int, rows: seq<Key>, secondOk: bool,
                     ghost interval: int, ghost later: int, ghost keys: set<Key>)
    returns (again: seq<Key>)
    requires d.bucketSecs > 0 && 0 <= first <= second
    requires interval * d.bucketSecs <= first < (interval + 1) * d.bucketSecs
    requires later * d.bucketSecs <= second < (later + 1) * d.bucketSecs
    requires d.cache.Valid() && Holds(d.cache, keys) && |keys| <= d.cache.capacity
    requires forall k :: k in rows ==> k in keys
    modifies d
    ensures later == interval ==> again == []
    ensures later > interval &&
            (forall k :: k in rows && old(d.cache).Peek(k).Some? ==> old(d.cache).Peek(k).value <= interval) ==>
              again == rows
  {
    ghost var before := d.cache;
    var out := PublishPair(d, first, rows, true);
    DivIsInterval(first, d.bucketSecs);
    DivIsInterval(second, d.bucketSecs);
    IntervalIsUnique(first, d.bucketSecs, interval, GoDiv(first, d.bucketSecs));
    IntervalIsUnique(second, d.bucketSecs, later, GoDiv(second, d.bucketSecs));
    AfterSuccess(before, rows, interval, later, keys);
    var result := PublishPair(d, second, rows, secondOk);
    again := result.value;
  }
}
