/** Concurrent exports through one dedup cache. Each lookup and each mark is atomic (the cache has its own
    lock); requests interleave between them, publishes fail, entries are evicted.
  */
module SeriesInterleaving {
  import opened Lru
  import opened SeriesDedup

  datatype Request =
    | Filtering(rows: seq<Key>, bucket: int, next: nat, out: seq<Key>)
    | Publishing(rows: seq<Key>, bucket: int, out: seq<Key>)
    | Marking(rows: seq<Key>, bucket: int, next: nat, out: seq<Key>)
    | Succeeded(rows: seq<Key>, bucket: int)
    | Failed(rows: seq<Key>, bucket: int)

  /** `published` is the history of series rows that reached Kafka, with the bucket of their export. */
  datatype State = State(cache: Memory, requests: seq<Request>, published: set<(Key, int)>)

  datatype Label =
    | Start(rows: seq<Key>, bucket: int)
    | LookUp(id: nat)
    | FinishFilter(id: nat)
    | Publish(id: nat, delivered: bool, ok: bool)
    | MarkOne(id: nat)
    | Finish(id: nat)

  predicate Enabled(s: State, l: Label) {
    match l
    case Start(_, _) => true
    case LookUp(id) => id < |s.requests| && s.requests[id].Filtering? && s.requests[id].next < |s.requests[id].rows|
    case FinishFilter(id) =>
      id < |s.requests| && s.requests[id].Filtering? && s.requests[id].next == |s.requests[id].rows|
    // Series and metrics are published together; the pair fails if either does, so series rows may have been
    // delivered by a failed export. A successful one delivered them.
    case Publish(id, delivered, ok) => id < |s.requests| && s.requests[id].Publishing? && (ok ==> delivered)
    case MarkOne(id) => id < |s.requests| && s.requests[id].Marking? && s.requests[id].next < |s.requests[id].out|
    case Finish(id) => id < |s.requests| && s.requests[id].Marking? && s.requests[id].next == |s.requests[id].out|
  }

  function Sent(out: seq<Key>, bucket: int): set<(Key, int)> {
    set k | k in out :: (k, bucket)
  }

  function Apply(s: State, l: Label): State
    requires Enabled(s, l)
  {
    match l
    case Start(rows, bucket) => s.(requests := s.requests + [Filtering(rows, bucket, 0, [])])
    case LookUp(id) =>
      var r := s.requests[id];
      var k := r.rows[r.next];
      var out := if Fresh(s.cache, k, r.bucket) then r.out + [k] else r.out;
      s.(cache := s.cache.Get(k), requests := s.requests[id := Filtering(r.rows, r.bucket, r.next + 1, out)])
    case FinishFilter(id) =>
      var r := s.requests[id];
      s.(requests := s.requests[id := Publishing(r.rows, r.bucket, r.out)])
    case Publish(id, delivered, ok) =>
      var r := s.requests[id];
      s.(published := if delivered then s.published + Sent(r.out, r.bucket) else s.published,
         requests := s.requests[id := if ok then Marking(r.rows, r.bucket, 0, r.out) else Failed(r.rows, r.bucket)])
    case MarkOne(id) =>
      var r := s.requests[id];
      s.(cache := s.cache.Add(r.out[r.next], r.bucket),
         requests := s.requests[id := Marking(r.rows, r.bucket, r.next + 1, r.out)])
    case Finish(id) =>
      var r := s.requests[id];
      s.(requests := s.requests[id := Succeeded(r.rows, r.bucket)])
  }

  // ---------------------------------------------------------------- invariants

  /** Each cache entry is backed by a publish of that key in that bucket. */
  ghost predicate Backed(cache: Memory, published: set<(Key, int)>) {
    forall k :: cache.Peek(k).Some? ==> (k, cache.Peek(k).value) in published
  }

  /** The key was published in this bucket or a later one. */
  ghost predicate PublishedSince(published: set<(Key, int)>, k: Key, bucket: int) {
    exists b :: b >= bucket && (k, b) in published
  }

  /** Rows already looked at are in `out` or were published before; rows being marked were published now. */
  ghost predicate RequestInv(published: set<(Key, int)>, r: Request) {
    match r
    case Filtering(rows, bucket, next, out) =>
      next <= |rows| && forall i :: 0 <= i < next ==> rows[i] in out || PublishedSince(published, rows[i], bucket)
    case Publishing(rows, bucket, out) =>
      forall k :: k in rows ==> k in out || PublishedSince(published, k, bucket)
    case Marking(rows, bucket, next, out) =>
      && next <= |out| && (forall k :: k in out ==> (k, bucket) in published)
      && (forall k :: k in rows ==> PublishedSince(published, k, bucket))
    case Succeeded(rows, bucket) => forall k :: k in rows ==> PublishedSince(published, k, bucket)
    case Failed(_, _) => true
  }

  ghost predicate Inv(s: State) {
    && s.cache.Valid()
    && Backed(s.cache, s.published)
    && forall id :: 0 <= id < |s.requests| ==> RequestInv(s.published, s.requests[id])
  }

  lemma MorePublished(published: set<(Key, int)>, more: set<(Key, int)>, r: Request)
    requires RequestInv(published, r) && published <= more
    ensures RequestInv(more, r)
  {
    forall k, bucket | PublishedSince(published, k, bucket) ensures PublishedSince(more, k, bucket) {
      var b :| b >= bucket && (k, b) in published;
      assert (k, b) in more;
    }
  }

  lemma LookUpKeeps(s: State, id: nat)
    requires Inv(s) && Enabled(s, LookUp(id))
    ensures Inv(Apply(s, LookUp(id)))
  {
    var r := s.requests[id];
    var k := r.rows[r.next];
    GetKeeps(s.cache, k);
    if !Fresh(s.cache, k, r.bucket) {
      assert (k, s.cache.Peek(k).value) in s.published;
      assert PublishedSince(s.published, k, r.bucket);
    }
  }

  lemma PublishKeeps(s: State, id: nat, delivered: bool, ok: bool)
    requires Inv(s) && Enabled(s, Publish(id, delivered, ok))
    ensures Inv(Apply(s, Publish(id, delivered, ok)))
  {
    var t := Apply(s, Publish(id, delivered, ok));
    var r := s.requests[id];
    forall i | 0 <= i < |t.requests| ensures RequestInv(t.published, t.requests[i]) {
      if i != id {
        MorePublished(s.published, t.published, s.requests[i]);
      } else if ok {
        MorePublished(s.published, t.published, r);
        forall k | k in r.rows ensures PublishedSince(t.published, k, r.bucket) {
          if k in r.out { assert (k, r.bucket) in t.published; }
        }
      }
    }
  }

  lemma MarkOneKeeps(s: State, id: nat)
    requires Inv(s) && Enabled(s, MarkOne(id))
    ensures Inv(Apply(s, MarkOne(id)))
  {
    var r := s.requests[id];
    AddKeeps(s.cache, r.out[r.next], r.bucket);
  }

  lemma StepKeeps(s: State, l: Label)
    requires Inv(s) && Enabled(s, l)
    ensures Inv(Apply(s, l))
  {
    match l
    case LookUp(id) => LookUpKeeps(s, id);
    case Publish(id, delivered, ok) => PublishKeeps(s, id, delivered, ok);
    case MarkOne(id) => MarkOneKeeps(s, id);
    case _ =>
  }

  ghost predicate Run(s: State, ls: seq<Label>, t: State)
    decreases |ls|
  {
    if ls == [] then s == t else Enabled(s, ls[0]) && Run(Apply(s, ls[0]), ls[1..], t)
  }

  lemma {:induction false} RunKeeps(s: State, ls: seq<Label>, t: State)
    requires Inv(s) && Run(s, ls, t)
    ensures Inv(t)
    decreases |ls|
  {
    if ls != [] {
      StepKeeps(s, ls[0]);
      RunKeeps(Apply(s, ls[0]), ls[1..], t);
    }
  }

  /** Over every interleaving, whatever fails or is evicted: each cache entry is backed by a publish, and a
      successful export leaves every series in it published in its own bucket or a later one. */
  lemma SuccessMeansPublished(capacity: nat, ls: seq<Label>, s: State)
    requires capacity > 0 && Run(State(Cache(capacity, []), [], {}), ls, s)
    ensures Backed(s.cache, s.published)
    ensures forall id, k :: 0 <= id < |s.requests| && s.requests[id].Succeeded? && k in s.requests[id].rows ==>
              PublishedSince(s.published, k, s.requests[id].bucket)
  {
    RunKeeps(State(Cache(capacity, []), [], {}), ls, s);
  }
}
