/** The LRU cache both caches use (hashicorp/golang-lru): a bounded list, most recently touched first. */
module Lru {

  datatype Option<V> = None | Some(value: V)

  datatype Entry<K, V> = Entry(key: K, value: V)

  datatype Cache<K(==), V> = Cache(capacity: nat, entries: seq<Entry<K, V>>) {

    /** Keys are distinct and there are at most `capacity`. */
    ghost predicate Valid() {
      && 1 <= capacity && |entries| <= capacity
      && DistinctKeys(entries)
    }

    function Peek(k: K): Option<V> {
      Find(entries, k)
    }

    /** A hit moves the key to the front. */
    function Get(k: K): Cache<K, V> {
      if Peek(k).None? then this else Cache(capacity, [Entry(k, Peek(k).value)] + Without(entries, k))
    }

    /** A known key is replaced and moved to the front; a new one evicts the last when there is no room. */
    function Add(k: K, v: V): Cache<K, V> {
      var rest :=
        if Peek(k).None? && |entries| >= capacity && entries != [] then entries[..|entries| - 1]
        else Without(entries, k);
      Cache(capacity, [Entry(k, v)] + rest)
    }

    function Remove(k: K): Cache<K, V> {
      Cache(capacity, Without(entries, k))
    }
  }

  function Find<K(==), V>(es: seq<Entry<K, V>>, k: K): Option<V> {
    if es == [] then None else if es[0].key == k then Some(es[0].value) else Find(es[1..], k)
  }

  function Without<K(==), V>(es: seq<Entry<K, V>>, k: K): seq<Entry<K, V>> {
    if es == [] then []
    else if es[0].key == k then Without(es[1..], k)
    else [es[0]] + Without(es[1..], k)
  }

  predicate DistinctKeys<K(==), V>(es: seq<Entry<K, V>>) {
    forall i, j :: 0 <= i < j < |es| ==> es[i].key != es[j].key
  }

  lemma {:induction false} FindMisses<K, V>(es: seq<Entry<K, V>>, k: K)
    ensures Find(es, k).None? ==> forall i :: 0 <= i < |es| ==> es[i].key != k
  {
    if es != [] { FindMisses(es[1..], k); }
  }

  lemma {:induction false} FindHits<K, V>(es: seq<Entry<K, V>>, k: K)
    ensures Find(es, k).Some? ==> Entry(k, Find(es, k).value) in es
  {
    if es != [] {
      FindHits(es[1..], k);
      assert es == [es[0]] + es[1..];
    }
  }

  lemma {:induction false} WithoutMember<K, V>(es: seq<Entry<K, V>>, k: K, e: Entry<K, V>)
    ensures e in Without(es, k) <==> e in es && e.key != k
  {
    if es != [] {
      WithoutMember(es[1..], k, e);
      assert es == [es[0]] + es[1..];
    }
  }

  lemma {:induction false} WithoutSize<K, V>(es: seq<Entry<K, V>>, k: K)
    ensures |Without(es, k)| <= |es|
    ensures Find(es, k).Some? ==> |Without(es, k)| < |es|
  {
    if es != [] { WithoutSize(es[1..], k); }
  }

  /** A new entry in front of distinct entries of other keys. */
  lemma FrontStaysDistinct<K, V>(e: Entry<K, V>, rest: seq<Entry<K, V>>)
    requires DistinctKeys(rest) && forall i :: 0 <= i < |rest| ==> rest[i].key != e.key
    ensures DistinctKeys([e] + rest)
  {
  }

  lemma {:induction false} WithoutDistinct<K, V>(es: seq<Entry<K, V>>, k: K)
    requires DistinctKeys(es)
    ensures DistinctKeys(Without(es, k))
    ensures forall i :: 0 <= i < |Without(es, k)| ==> Without(es, k)[i].key != k
  {
    if es != [] {
      WithoutDistinct(es[1..], k);
      var rest := Without(es[1..], k);
      forall i | 0 <= i < |rest| ensures rest[i].key != es[0].key {
        WithoutMember(es[1..], k, rest[i]);
        var j :| 0 <= j < |es[1..]| && es[1..][j] == rest[i];
        assert es[j + 1] == rest[i];
      }
    }
  }

  lemma {:induction false} FindWithout<K, V>(es: seq<Entry<K, V>>, k: K, q: K)
    ensures Find(Without(es, k), q) == if q == k then None else Find(es, q)
  {
    if es != [] { FindWithout(es[1..], k, q); }
  }

  lemma {:induction false} FindInit<K, V>(es: seq<Entry<K, V>>, q: K)
    requires es != []
    ensures Find(es[..|es| - 1], q).Some? ==> Find(es[..|es| - 1], q) == Find(es, q)
  {
    if |es| > 1 {
      FindInit(es[1..], q);
      assert es[..|es| - 1][1..] == es[1..][..|es| - 2];
    }
  }

  lemma GetKeeps<K, V>(c: Cache<K, V>, k: K)
    requires c.Valid()
    ensures c.Get(k).Valid()
    ensures forall q :: c.Get(k).Peek(q) == c.Peek(q)
  {
    WithoutDistinct(c.entries, k);
    WithoutSize(c.entries, k);
    if c.Peek(k).Some? {
      FrontStaysDistinct(Entry(k, c.Peek(k).value), Without(c.entries, k));
    }
    forall q ensures c.Get(k).Peek(q) == c.Peek(q) {
      FindWithout(c.entries, k, q);
    }
  }

  /** Adding sets the key and changes no other value; with room it evicts nothing. */
  lemma AddKeeps<K, V>(c: Cache<K, V>, k: K, v: V)
    requires c.Valid()
    ensures c.Add(k, v).Valid()
    ensures c.Add(k, v).Peek(k) == Some(v)
    ensures forall q :: q != k && c.Add(k, v).Peek(q).Some? ==> c.Add(k, v).Peek(q) == c.Peek(q)
    ensures c.Peek(k).Some? || |c.entries| < c.capacity ==> forall q :: q != k ==> c.Add(k, v).Peek(q) == c.Peek(q)
  {
    FindMisses(c.entries, k);
    WithoutDistinct(c.entries, k);
    WithoutSize(c.entries, k);
    forall q ensures Find(Without(c.entries, k), q) == if q == k then None else Find(c.entries, q) {
      FindWithout(c.entries, k, q);
    }
    if c.Peek(k).None? && |c.entries| >= c.capacity {
      FrontStaysDistinct(Entry(k, v), c.entries[..|c.entries| - 1]);
    } else {
      FrontStaysDistinct(Entry(k, v), Without(c.entries, k));
    }
    if c.entries != [] {
      forall q
        ensures Find(c.entries[..|c.entries| - 1], q).Some? ==>
                  Find(c.entries[..|c.entries| - 1], q) == Find(c.entries, q)
      {
        FindInit(c.entries, q);
      }
    }
  }

  lemma RemoveKeeps<K, V>(c: Cache<K, V>, k: K)
    requires c.Valid()
    ensures c.Remove(k).Valid()
    ensures forall q :: c.Remove(k).Peek(q) == if q == k then None else c.Peek(q)
  {
    WithoutDistinct(c.entries, k);
    WithoutSize(c.entries, k);
    forall q ensures c.Remove(k).Peek(q) == if q == k then None else c.Peek(q) {
      FindWithout(c.entries, k, q);
    }
  }

  // ---------------------------------------------------------------- forgetting

  datatype Op<K, V> = Look(key: K) | Put(key: K, value: V)

  function Apply<K(==), V>(c: Cache<K, V>, op: Op<K, V>): Cache<K, V> {
    match op
    case Look(k) => c.Get(k)
    case Put(k, v) => c.Add(k, v)
  }

  function After<K(==), V>(c: Cache<K, V>, ops: seq<Op<K, V>>): Cache<K, V> {
    if ops == [] then c else Apply(After(c, ops[..|ops| - 1]), ops[|ops| - 1])
  }

  /** A put touches its key; a look does when it hits. */
  predicate Touches<K(==), V>(c: Cache<K, V>, op: Op<K, V>) {
    op.Put? || c.Peek(op.key).Some?
  }

  /** The other keys touched along the way. */
  function OthersTouched<K(==), V>(c: Cache<K, V>, ops: seq<Op<K, V>>, k: K): set<K> {
    if ops == [] then {}
    else
      var before, op := ops[..|ops| - 1], ops[|ops| - 1];
      OthersTouched(c, before, k) + (if Touches(After(c, before), op) && op.key != k then {op.key} else {})
  }

  /** The keys in front of k. */
  function Ahead<K(==), V>(es: seq<Entry<K, V>>, k: K): set<K> {
    if es == [] || es[0].key == k then {} else {es[0].key} + Ahead(es[1..], k)
  }

  lemma {:induction false} AheadWithout<K, V>(es: seq<Entry<K, V>>, k: K, q: K)
    requires q != k
    ensures Ahead(Without(es, q), k) <= Ahead(es, k)
  {
    if es != [] { AheadWithout(es[1..], k, q); }
  }

  lemma {:induction false} AheadInit<K, V>(es: seq<Entry<K, V>>, k: K)
    requires es != [] && Find(es[..|es| - 1], k).Some?
    ensures Ahead(es[..|es| - 1], k) == Ahead(es, k)
  {
    if es[0].key != k {
      assert es[..|es| - 1][1..] == es[1..][..|es| - 2];
      AheadInit(es[1..], k);
    }
  }

  /** If k is the last entry, everything else is ahead of it. */
  lemma {:induction false} AheadOfLast<K, V>(es: seq<Entry<K, V>>, k: K)
    requires DistinctKeys(es) && es != [] && Find(es, k).Some? && Find(es[..|es| - 1], k).None?
    ensures |Ahead(es, k)| == |es| - 1
    ensures forall x :: x in Ahead(es, k) ==> Find(es, x).Some?
  {
    if |es| > 1 {
      assert es[..|es| - 1][0] == es[0];
      assert es[..|es| - 1][1..] == es[1..][..|es| - 2];
      AheadOfLast(es[1..], k);
      FindHits(es[1..], es[0].key);
    }
  }

  lemma {:induction false} AheadBounded<K, V>(c: Cache<K, V>, ops: seq<Op<K, V>>, k: K)
    requires c.Valid() && c.entries != [] && c.entries[0].key == k
    ensures After(c, ops).Valid() && After(c, ops).capacity == c.capacity
    ensures |OthersTouched(c, ops, k)| >= c.capacity ||
            (After(c, ops).Peek(k).Some? && Ahead(After(c, ops).entries, k) <= OthersTouched(c, ops, k))
  {
    if ops != [] {
      var before, op := After(c, ops[..|ops| - 1]), ops[|ops| - 1];
      AheadBounded(c, ops[..|ops| - 1], k);
      match op {
        case Look(q) => GetKeeps(before, q);
        case Put(q, v) => AddKeeps(before, q, v);
      }
      var touched, touched' := OthersTouched(c, ops[..|ops| - 1], k), OthersTouched(c, ops, k);
      if |touched| >= c.capacity {
        SubsetSize(touched, touched');
      } else if Touches(before, op) && op.key != k {
        TouchedOther(before, op, k, touched);
      }
    }
  }

  lemma SubsetSize<T>(a: set<T>, b: set<T>)
    requires a <= b
    ensures |a| <= |b|
  {
    assert b == a + (b - a);
  }

  lemma TouchedOther<K, V>(c: Cache<K, V>, op: Op<K, V>, k: K, touched: set<K>)
    requires c.Valid() && op.key != k && Touches(c, op) && c.Peek(k).Some? && Ahead(c.entries, k) <= touched
    ensures |touched + {op.key}| >= c.capacity ||
            (Apply(c, op).Peek(k).Some? && Ahead(Apply(c, op).entries, k) <= touched + {op.key})
  {
    var q := op.key;
    AheadWithout(c.entries, k, q);
    FindWithout(c.entries, q, k);
    if op.Put? && c.Peek(q).None? && |c.entries| >= c.capacity {
      var init := c.entries[..|c.entries| - 1];
      if Find(init, k).Some? {
        AheadInit(c.entries, k);
      } else {
        AheadOfLast(c.entries, k);
        assert q !in Ahead(c.entries, k);
        SubsetSize(Ahead(c.entries, k) + {q}, touched + {q});
      }
    }
  }

  /** A key just touched is forgotten only after `capacity` distinct other keys were touched. */
  lemma ForgottenOnlyAfterCapacityOthers<K, V>(c: Cache<K, V>, ops: seq<Op<K, V>>, k: K)
    requires c.Valid() && c.entries != [] && c.entries[0].key == k
    ensures After(c, ops).Peek(k).None? ==> |OthersTouched(c, ops, k)| >= c.capacity
  {
    AheadBounded(c, ops, k);
  }

  // ---------------------------------------------------------------- what is remembered

  /** The other keys touched since k last was. */
  function Crowd<K(==), V>(c: Cache<K, V>, ops: seq<Op<K, V>>, k: K): set<K> {
    if ops == [] then {}
    else
      var before, op := ops[..|ops| - 1], ops[|ops| - 1];
      if !Touches(After(c, before), op) then Crowd(c, before, k)
      else if op.key == k then {}
      else Crowd(c, before, k) + {op.key}
  }

  function LastPut<K(==), V>(ops: seq<Op<K, V>>, k: K): Option<V> {
    if ops == [] then None
    else
      var op := ops[|ops| - 1];
      if op.Put? && op.key == k then Some(op.value) else LastPut(ops[..|ops| - 1], k)
  }

  /** Once put, k always has fewer than `capacity` other keys touched since its own last touch. */
  predicate NeverCrowdedOut<K(==), V>(c: Cache<K, V>, ops: seq<Op<K, V>>, k: K) {
    forall i :: 0 <= i <= |ops| && LastPut(ops[..i], k).Some? ==> |Crowd(c, ops[..i], k)| < c.capacity
  }

  lemma NeverCrowdedPrefix<K, V>(c: Cache<K, V>, ops: seq<Op<K, V>>, k: K, n: nat)
    requires NeverCrowdedOut(c, ops, k) && n <= |ops|
    ensures NeverCrowdedOut(c, ops[..n], k)
  {
    forall i | 0 <= i <= n ensures ops[..n][..i] == ops[..i] {
    }
  }

  /** The value of k, and everything ahead of it in its crowd. */
  ghost predicate Recalls<K, V>(c: Cache<K, V>, k: K, value: Option<V>, crowd: set<K>) {
    c.Peek(k) == value && (value.Some? ==> Ahead(c.entries, k) <= crowd)
  }

  lemma TouchedItself<K, V>(c: Cache<K, V>, op: Op<K, V>)
    requires c.Valid() && Touches(c, op)
    ensures Apply(c, op).Valid() && Ahead(Apply(c, op).entries, op.key) == {}
    ensures Apply(c, op).Peek(op.key) == if op.Put? then Some(op.value) else c.Peek(op.key)
  {
    match op
    case Look(k) => GetKeeps(c, k);
    case Put(k, v) => AddKeeps(c, k, v);
  }

  lemma RecallsNext<K, V>(c: Cache<K, V>, op: Op<K, V>, k: K, value: Option<V>, crowd: set<K>)
    requires c.Valid() && Recalls(c, k, value, crowd)
    requires op.key != k && (Touches(c, op) && value.Some? ==> |crowd + {op.key}| < c.capacity)
    ensures Apply(c, op).Valid()
    ensures Recalls(Apply(c, op), k, value, if Touches(c, op) then crowd + {op.key} else crowd)
  {
    match op {
      case Look(q) => GetKeeps(c, q);
      case Put(q, v) => AddKeeps(c, q, v);
    }
    if Touches(c, op) && value.Some? {
      TouchedOther(c, op, k, crowd);
    }
  }

  /** A cache that never crowds k out holds what was last put for it. */
  lemma {:induction false} RemembersLastPut<K, V>(c: Cache<K, V>, ops: seq<Op<K, V>>, k: K)
    requires c.Valid() && c.entries == [] && NeverCrowdedOut(c, ops, k)
    ensures After(c, ops).Valid() && After(c, ops).capacity == c.capacity
    ensures Recalls(After(c, ops), k, LastPut(ops, k), Crowd(c, ops, k))
  {
    if ops != [] {
      var n := |ops| - 1;
      var before, op := After(c, ops[..n]), ops[n];
      NeverCrowdedPrefix(c, ops, k, n);
      RemembersLastPut(c, ops[..n], k);
      assert ops[..|ops|] == ops;
      if op.key != k {
        RecallsNext(before, op, k, LastPut(ops[..n], k), Crowd(c, ops[..n], k));
      } else if Touches(before, op) {
        TouchedItself(before, op);
      }
    }
  }

  lemma {:induction false} AfterBoth<K, V>(c: Cache<K, V>, a: seq<Op<K, V>>, b: seq<Op<K, V>>)
    ensures After(c, a + b) == After(After(c, a), b)
  {
    if b == [] {
      assert a + b == a;
    } else {
      AfterBoth(c, a, b[..|b| - 1]);
      assert (a + b)[..|a + b| - 1] == a + b[..|b| - 1];
    }
  }

  lemma {:induction false} LastPutOfBoth<K, V>(a: seq<Op<K, V>>, b: seq<Op<K, V>>, k: K)
    ensures LastPut(a + b, k) == if LastPut(b, k).Some? then LastPut(b, k) else LastPut(a, k)
  {
    if b == [] {
      assert a + b == a;
    } else {
      LastPutOfBoth(a, b[..|b| - 1], k);
      assert (a + b)[..|a + b| - 1] == a + b[..|b| - 1];
    }
  }

  /** Every put is of one of these keys. */
  predicate PutsWithin<K(==), V>(ops: seq<Op<K, V>>, keys: set<K>) {
    forall i :: 0 <= i < |ops| && ops[i].Put? ==> ops[i].key in keys
  }

  /** From empty, only put keys are ever held or touched. */
  lemma {:induction false} CrowdIsPut<K, V>(c: Cache<K, V>, ops: seq<Op<K, V>>, k: K, keys: set<K>)
    requires c.Valid() && c.entries == [] && PutsWithin(ops, keys)
    ensures After(c, ops).Valid()
    ensures forall q :: After(c, ops).Peek(q).Some? ==> q in keys
    ensures Crowd(c, ops, k) <= keys - {k}
  {
    if ops != [] {
      var n := |ops| - 1;
      CrowdIsPut(c, ops[..n], k, keys);
      match ops[n] {
        case Look(q) => GetKeeps(After(c, ops[..n]), q);
        case Put(q, v) => AddKeeps(After(c, ops[..n]), q, v);
      }
    }
  }

  lemma {:induction false} LastPutIsPut<K, V>(ops: seq<Op<K, V>>, k: K, keys: set<K>)
    requires PutsWithin(ops, keys) && LastPut(ops, k).Some?
    ensures k in keys
  {
    var n := |ops| - 1;
    if !(ops[n].Put? && ops[n].key == k) {
      LastPutIsPut(ops[..n], k, keys);
    }
  }

  /** When all put keys fit, none is ever crowded out. */
  lemma NobodyCrowdedOut<K, V>(c: Cache<K, V>, ops: seq<Op<K, V>>, k: K, keys: set<K>)
    requires c.Valid() && c.entries == [] && PutsWithin(ops, keys) && |keys| <= c.capacity
    ensures NeverCrowdedOut(c, ops, k)
  {
    forall i | 0 <= i <= |ops| && LastPut(ops[..i], k).Some? ensures |Crowd(c, ops[..i], k)| < c.capacity {
      CrowdIsPut(c, ops[..i], k, keys);
      LastPutIsPut(ops[..i], k, keys);
      SubsetSize(Crowd(c, ops[..i], k), keys - {k});
    }
  }
}
