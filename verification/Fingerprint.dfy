/** The byte streams under the stored hashes: FingerprintHash, SeriesHash and computeLogID. The hash functions
    are parameters; the statements are about what is written into them.
  */
module Fingerprint {
  import opened Ordering
  import opened Text
  import opened Attributes

  /** 0xFF: no byte of a valid UTF-8 string (RFC 3629, section 3). */
  const SEPARATOR: char := 255 as char

  predicate Clean(s: string) {
    SEPARATOR !in s
  }

  predicate CleanMap(m: Attrs) {
    forall k :: k in m ==> Clean(k) && Clean(m[k])
  }

  // ---------------------------------------------------------------- the stream

  function Field(s: string): string {
    s + [SEPARATOR]
  }

  function Pair(k: string, v: string): string {
    Field(k) + Field(v)
  }

  function Write(ks: seq<string>, m: Attrs): string
    requires forall k :: k in ks ==> k in m
  {
    if ks == [] then "" else Pair(ks[0], m[ks[0]]) + Write(ks[1..], m)
  }

  /** Every key and value in key order, each ended by the separator. */
  ghost function Stream(m: Attrs): string {
    LessIsStrictTotal();
    Write(SortedKeys(m), m)
  }

  lemma Assoc(a: string, b: string, c: string)
    ensures (a + b) + c == a + (b + c)
  {
  }

  lemma {:induction false} WriteLast(ks: seq<string>, k: string, m: Attrs)
    requires k in m && forall q :: q in ks ==> q in m
    ensures Write(ks + [k], m) == Write(ks, m) + Pair(k, m[k])
  {
    if ks == [] {
      assert ks + [k] == [k];
      assert Write([k], m) == Pair(k, m[k]) + "";
    } else {
      WriteLast(ks[1..], k, m);
      assert (ks + [k])[1..] == ks[1..] + [k];
      Assoc(Pair(ks[0], m[ks[0]]), Write(ks[1..], m), Pair(k, m[k]));
    }
  }

  lemma WriteNext(ks: seq<string>, i: nat, m: Attrs)
    requires i < |ks| && forall k :: k in ks ==> k in m
    ensures Write(ks[..i + 1], m) == (Write(ks[..i], m) + Field(ks[i])) + Field(m[ks[i]])
  {
    assert ks[..i + 1] == ks[..i] + [ks[i]];
    WriteLast(ks[..i], ks[i], m);
    Assoc(Write(ks[..i], m), Field(ks[i]), Field(m[ks[i]]));
  }

  method FingerprintHash(attrs: Attrs, xxhash: string -> nat) returns (h: nat)
    ensures h == if attrs == map[] then 0 else xxhash(Stream(attrs))
  {
    if |attrs| == 0 {
      return 0;
    }
    LessIsStrictTotal();
    var keys := Sort(attrs.Keys, Less);
    var hasher := "";
    for i := 0 to |keys|
      invariant hasher == Write(keys[..i], attrs)
    {
      WriteNext(keys, i, attrs);
      hasher := hasher + Field(keys[i]);
      hasher := hasher + Field(attrs[keys[i]]);
    }
    assert keys[..|keys|] == keys;
    h := xxhash(hasher);
  }

  // ---------------------------------------------------------------- it reads back

  /** Everything before the first separator, and everything after it. */
  function ReadField(s: string): (string, string) {
    if s == [] then ([], [])
    else if s[0] == SEPARATOR then ([], s[1..])
    else
      var (field, rest) := ReadField(s[1..]);
      ([s[0]] + field, rest)
  }

  lemma {:induction false} ReadFieldShrinks(s: string)
    ensures |ReadField(s).1| <= |s| && (s != [] ==> |ReadField(s).1| < |s|)
  {
    if s != [] && s[0] != SEPARATOR { ReadFieldShrinks(s[1..]); }
  }

  function Read(s: string): Attrs
    decreases |s|
  {
    if s == [] then map[]
    else
      var (k, afterKey) := ReadField(s);
      var (v, rest) := ReadField(afterKey);
      ReadFieldShrinks(s);
      ReadFieldShrinks(afterKey);
      Read(rest)[k := v]
  }

  lemma {:induction false} ReadsField(s: string, rest: string)
    requires Clean(s)
    ensures ReadField(Field(s) + rest) == (s, rest)
  {
    if s == [] {
      assert (Field(s) + rest)[1..] == rest;
    } else {
      assert Clean(s[1..]);
      ReadsField(s[1..], rest);
      assert (Field(s) + rest)[1..] == Field(s[1..]) + rest;
      assert s == [s[0]] + s[1..];
    }
  }

  lemma ReadsPair(k: string, v: string, rest: string)
    requires Clean(k) && Clean(v)
    ensures Read(Pair(k, v) + rest) == Read(rest)[k := v]
  {
    Assoc(Field(k), Field(v), rest);
    ReadsField(k, Field(v) + rest);
    ReadsField(v, rest);
    assert |Pair(k, v) + rest| > 0;
  }

  function Pick(ks: seq<string>, m: Attrs): Attrs
    requires forall k :: k in ks ==> k in m
  {
    map k | k in ks :: m[k]
  }

  lemma PickCons(ks: seq<string>, m: Attrs)
    requires ks != [] && forall k :: k in ks ==> k in m
    ensures Pick(ks, m) == Pick(ks[1..], m)[ks[0] := m[ks[0]]]
  {
    assert ks == [ks[0]] + ks[1..];
  }

  lemma {:induction false} ReadsWrite(ks: seq<string>, m: Attrs)
    requires CleanMap(m) && forall k :: k in ks ==> k in m
    ensures Read(Write(ks, m)) == Pick(ks, m)
  {
    if ks != [] {
      ReadsPair(ks[0], m[ks[0]], Write(ks[1..], m));
      ReadsWrite(ks[1..], m);
      PickCons(ks, m);
    }
  }

  /** The stream reads back to the map when no key or value contains the separator. */
  lemma StreamReadsBack(m: Attrs)
    requires CleanMap(m)
    ensures Read(Stream(m)) == m
  {
    LessIsStrictTotal();
    ReadsWrite(SortedKeys(m), m);
    assert Pick(SortedKeys(m), m) == m;
  }

  /** So what is hashed depends on nothing but the map, and differs whenever the maps differ. */
  lemma StreamNamesTheMap(a: Attrs, b: Attrs)
    requires CleanMap(a) && CleanMap(b)
    ensures Stream(a) == Stream(b) <==> a == b
  {
    StreamReadsBack(a);
    StreamReadsBack(b);
  }

  lemma StreamOfOne(k: string, v: string)
    ensures Stream(map[k := v]) == Pair(k, v)
  {
    LessIsStrictTotal();
    var m := map[k := v];
    SortedIsUnique([k], m.Keys, Less);
    assert Write([k], m) == Pair(k, v) + "";
  }

  lemma OnePairAsTwo(j: string, v: string, k: string, w: string)
    ensures Pair(j, v + [SEPARATOR] + k + [SEPARATOR] + w) == Pair(j, v) + Pair(k, w)
  {
  }

  lemma StreamOfTwo(j: string, v: string, k: string, w: string)
    requires Less(j, k)
    ensures Stream(map[j := v, k := w]) == Pair(j, v) + Pair(k, w)
  {
    LessIsStrictTotal();
    LessIrreflexive(j);
    var m := map[j := v, k := w];
    SortedIsUnique([j, k], m.Keys, Less);
    assert [j, k][1..] == [k];
    assert Write([k], m) == Pair(k, w) + "";
  }

  /** A separator inside a value reads as another entry: why the maps must be clean. */
  lemma SeparatorForges()
    ensures var forged, honest := map["a" := "b" + [SEPARATOR] + "c" + [SEPARATOR] + "d"], map["a" := "b", "c" := "d"];
            forged != honest && Stream(forged) == Stream(honest)
  {
    var sep := [SEPARATOR];
    StreamOfOne("a", "b" + sep + "c" + sep + "d");
    StreamOfTwo("a", "b", "c", "d");
    OnePairAsTwo("a", "b", "c", "d");
    assert "a" in map["a" := "b", "c" := "d"] && "c" !in map["a" := "b" + sep + "c" + sep + "d"];
  }

  // ---------------------------------------------------------------- maps with arbitrary bytes

  /** No other map at all, clean or not, has this map's stream. */
  ghost predicate Unforgeable(m: Attrs) {
    forall b :: Stream(b) == Stream(m) ==> b == m
  }

  function Separators(s: string): nat {
    if s == [] then 0 else (if s[0] == SEPARATOR then 1 else 0) + Separators(s[1..])
  }

  lemma {:induction false} SeparatorsOfBoth(a: string, b: string)
    ensures Separators(a + b) == Separators(a) + Separators(b)
  {
    if a == [] {
      assert a + b == b;
    } else {
      SeparatorsOfBoth(a[1..], b);
      assert (a + b)[1..] == a[1..] + b;
    }
  }

  lemma {:induction false} CleanHasNone(s: string)
    ensures Separators(s) == 0 <==> Clean(s)
  {
    if s != [] {
      CleanHasNone(s[1..]);
      assert s == [s[0]] + s[1..];
    }
  }

  lemma SeparatorsOfPair(k: string, v: string)
    ensures Separators(Pair(k, v)) == 2 + Separators(k) + Separators(v)
  {
    SeparatorsOfBoth(Field(k), Field(v));
    SeparatorsOfBoth(k, [SEPARATOR]);
    SeparatorsOfBoth(v, [SEPARATOR]);
  }

  lemma {:induction false} SeparatorsOfWrite(ks: seq<string>, m: Attrs)
    requires forall k :: k in ks ==> k in m
    ensures Separators(Write(ks, m)) >= 2 * |ks|
  {
    if ks != [] {
      SeparatorsOfPair(ks[0], m[ks[0]]);
      SeparatorsOfBoth(Pair(ks[0], m[ks[0]]), Write(ks[1..], m));
      SeparatorsOfWrite(ks[1..], m);
    }
  }

  lemma OnlyEntry(m: Attrs) returns (k: string)
    requires |m| == 1
    ensures k in m && m == map[k := m[k]]
  {
    k :| k in m;
    forall j | j in m ensures j == k {
      if j != k { SubsetSize({j, k}, m.Keys); }
    }
  }

  lemma SizeFromStream(m: Attrs)
    ensures 2 * |m| <= Separators(Stream(m))
    ensures m == map[] <==> Stream(m) == ""
  {
    LessIsStrictTotal();
    SeparatorsOfWrite(SortedKeys(m), m);
  }

  lemma EmptyIsUnforgeable()
    ensures Unforgeable(map[])
  {
    SizeFromStream(map[]);
    forall b | Stream(b) == Stream(map[]) ensures b == map[] {
      SizeFromStream(b);
    }
  }

  /** Two separators leave room for one entry only, and none inside it. */
  lemma OneCleanIsUnforgeable(k: string, v: string)
    requires Clean(k) && Clean(v)
    ensures Unforgeable(map[k := v])
  {
    var m := map[k := v];
    forall b | Stream(b) == Stream(m) ensures b == m {
      StreamOfOne(k, v);
      SeparatorsOfPair(k, v);
      CleanHasNone(k);
      CleanHasNone(v);
      SizeFromStream(m);
      SizeFromStream(b);
      var j := OnlyEntry(b);
      StreamOfOne(j, b[j]);
      SeparatorsOfPair(j, b[j]);
      CleanHasNone(j);
      CleanHasNone(b[j]);
      StreamNamesTheMap(b, m);
    }
  }

  /** A stream is its first key's field, anything, and a last separator. */
  lemma {:induction false} WriteEnds(ks: seq<string>, m: Attrs) returns (rest: string)
    requires ks != [] && forall k :: k in ks ==> k in m
    ensures Write(ks, m) == Pair(ks[0], rest)
  {
    var k, v := ks[0], m[ks[0]];
    if |ks| == 1 {
      rest := v;
      assert Write(ks[1..], m) == "";
      assert Pair(k, v) + "" == Pair(k, v);
    } else {
      var more := WriteEnds(ks[1..], m);
      rest := v + [SEPARATOR] + ks[1] + [SEPARATOR] + more;
      OnePairAsTwo(k, v, ks[1], more);
    }
  }

  lemma StreamIsOnePair(m: Attrs) returns (k: string, rest: string)
    requires m != map[]
    ensures Stream(m) == Pair(k, rest)
  {
    LessIsStrictTotal();
    k := SortedKeys(m)[0];
    rest := WriteEnds(SortedKeys(m), m);
  }

  /** All entries read as one. */
  lemma ManyAreForgeable(m: Attrs)
    requires |m| >= 2
    ensures !Unforgeable(m)
  {
    var k, rest := StreamIsOnePair(m);
    StreamOfOne(k, rest);
    assert |map[k := rest]| == 1;
  }

  lemma SplitAtSeparator(s: string) returns (before: string, after: string)
    requires !Clean(s)
    ensures s == before + [SEPARATOR] + after && before != s
  {
    var i :| 0 <= i < |s| && s[i] == SEPARATOR;
    before, after := s[..i], s[i + 1..];
  }

  /** Moving a separator from the key to the value: p, q, v and p, q with v. */
  lemma KeyIntoValue(p: string, q: string, v: string)
    ensures Pair(p + [SEPARATOR] + q, v) == Pair(p, q + [SEPARATOR] + v)
  {
  }

  /** A separator in the only entry can move between its key and its value. */
  lemma UncleanIsForgeable(k: string, v: string)
    requires !Clean(k) || !Clean(v)
    ensures !Unforgeable(map[k := v])
  {
    StreamOfOne(k, v);
    var b: Attrs;
    if !Clean(k) {
      var p, q := SplitAtSeparator(k);
      KeyIntoValue(p, q, v);
      StreamOfOne(p, q + [SEPARATOR] + v);
      b := map[p := q + [SEPARATOR] + v];
      assert p in b && p !in map[k := v];
    } else {
      var p, q := SplitAtSeparator(v);
      KeyIntoValue(k, p, q);
      StreamOfOne(k + [SEPARATOR] + p, q);
      b := map[k + [SEPARATOR] + p := q];
      assert |k + [SEPARATOR] + p| > |k|;
      assert k !in b && k in map[k := v];
    }
    assert Stream(b) == Stream(map[k := v]) && b != map[k := v];
  }

  /** Over maps of arbitrary bytes a stream names its map exactly for the empty map and a single clean entry:
      among clean maps it names every one (`StreamNamesTheMap`), and the decoders let no other map through. */
  lemma UnforgeableExactly(m: Attrs)
    ensures Unforgeable(m) <==> m == map[] || (|m| == 1 && CleanMap(m))
  {
    if m == map[] {
      EmptyIsUnforgeable();
    } else if |m| >= 2 {
      ManyAreForgeable(m);
    } else {
      var k := OnlyEntry(m);
      if CleanMap(m) {
        OneCleanIsUnforgeable(k, m[k]);
      } else {
        UncleanIsForgeable(k, m[k]);
      }
    }
  }

  // ---------------------------------------------------------------- series identity

  const NAME_KEY := "__name__"
  const TEMPORALITY_KEY := "__temporality__"

  /** A data point's metric name and temporality, resource attributes and own attributes. */
  datatype Series = Series(name: string, temporality: string, resource: Attrs, point: Attrs)

  function Low(m: Attrs, high: set<string>): Attrs {
    map k | k in m && k !in high :: m[k]
  }

  /** The filter-first form: drop the high-cardinality keys, then merge, then set the sentinels. */
  function Identity(s: Series, high: set<string>): Attrs {
    (Low(s.resource, high) + Low(s.point, high))[TEMPORALITY_KEY := s.temporality][NAME_KEY := s.name]
  }

  /** Copy the low-cardinality keys of src over into; Go visits them in any order. */
  method CopyLow(src: Attrs, high: set<string>, into: Attrs) returns (merged: Attrs)
    ensures merged == into + Low(src, high)
  {
    merged := into;
    ghost var low := Low(src, high);
    var todo := src.Keys;
    assert low - todo == map[] && into + map[] == into;
    while todo != {}
      invariant todo <= src.Keys && merged == into + (low - todo)
      decreases |todo|
    {
      var k :| k in todo;
      CopyOne(into, low, todo, k);
      if k !in high {
        merged := merged[k := src[k]];
      }
      todo := todo - {k};
    }
    assert low - {} == low;
  }

  method SeriesHash(s: Series, high: set<string>, xxhash: string -> nat) returns (h: nat)
    ensures h == xxhash(Stream(Identity(s, high)))
  {
    var merged := CopyLow(s.resource, high, map[]);
    assert merged == Low(s.resource, high);
    merged := CopyLow(s.point, high, merged);
    merged := merged[TEMPORALITY_KEY := s.temporality];
    merged := merged[NAME_KEY := s.name];
    assert NAME_KEY in merged;
    h := FingerprintHash(merged, xxhash);
  }

  /** What a series says about one key: the point wins over the resource; None when neither has it. */
  function Label(s: Series, k: string): seq<string> {
    if k in s.point then [s.point[k]] else if k in s.resource then [s.resource[k]] else []
  }

  predicate CleanSeries(s: Series) {
    Clean(s.name) && Clean(s.temporality) && CleanMap(s.resource) && CleanMap(s.point)
  }

  /** The labels that make a series' identity. */
  predicate Counts(k: string, high: set<string>) {
    k !in high && k != NAME_KEY && k != TEMPORALITY_KEY
  }

  /** Two data points hash the same bytes exactly when name, temporality and every label that counts agree;
      high-cardinality keys and attributes spelled like the sentinels have no say. */
  lemma SeriesIdentity(a: Series, b: Series, high: set<string>)
    requires CleanSeries(a) && CleanSeries(b)
    ensures Stream(Identity(a, high)) == Stream(Identity(b, high)) <==>
            && a.name == b.name && a.temporality == b.temporality
            && forall k :: Counts(k, high) ==> Label(a, k) == Label(b, k)
  {
    SentinelsAreClean();
    assert CleanMap(Identity(a, high)) && CleanMap(Identity(b, high));
    StreamNamesTheMap(Identity(a, high), Identity(b, high));
    if Identity(a, high) == Identity(b, high) {
      assert Identity(a, high)[NAME_KEY] == a.name && Identity(b, high)[NAME_KEY] == b.name;
      assert Identity(a, high)[TEMPORALITY_KEY] == a.temporality && Identity(b, high)[TEMPORALITY_KEY] == b.temporality;
      forall k | Counts(k, high) ensures Label(a, k) == Label(b, k) {
        IdentityLabel(a, high, k);
        IdentityLabel(b, high, k);
      }
    } else if forall k :: Counts(k, high) ==> Label(a, k) == Label(b, k) {
      SameLabelsSameIdentity(a, b, high);
    }
  }

  lemma SentinelsAreClean()
    ensures Clean(NAME_KEY) && Clean(TEMPORALITY_KEY) && NAME_KEY != TEMPORALITY_KEY
  {
    assert |NAME_KEY| == 8 && |TEMPORALITY_KEY| == 15;
  }

  lemma IdentityLabel(s: Series, high: set<string>, k: string)
    requires Counts(k, high)
    ensures Label(s, k) == if k in Identity(s, high) then [Identity(s, high)[k]] else []
  {
  }

  lemma SameLabelsSameIdentity(a: Series, b: Series, high: set<string>)
    requires forall k :: Counts(k, high) ==> Label(a, k) == Label(b, k)
    ensures a.name == b.name && a.temporality == b.temporality ==> Identity(a, high) == Identity(b, high)
  {
    if a.name == b.name && a.temporality == b.temporality {
      var x, y := Identity(a, high), Identity(b, high);
      forall k ensures (k in x <==> k in y) && (k in x ==> x[k] == y[k]) {
        if Counts(k, high) {
          assert Label(a, k) == Label(b, k);
          IdentityLabel(a, high, k);
          IdentityLabel(b, high, k);
        }
      }
      SameEntries(x, y);
    }
  }

  // ---------------------------------------------------------------- log identity

  method ComputeLogId(traceId: string, tsNs: nat, body: string, fnv: string -> string) returns (id: string)
    ensures id == fnv(LogText(traceId, tsNs, body))
  {
    var hasher := traceId;
    hasher := hasher + [SEPARATOR];
    hasher := hasher + Decimal(tsNs);
    hasher := hasher + [SEPARATOR];
    hasher := hasher + body;
    assert hasher == Field(traceId) + (Field(Decimal(tsNs)) + body);
    id := fnv(hasher);
  }

  function LogText(traceId: string, tsNs: nat, body: string): string {
    Field(traceId) + (Field(Decimal(tsNs)) + body)
  }

  /** Trace ids are hexadecimal; the body may hold any bytes. The text names all three parts. */
  lemma LogTextNamesTheRecord(traceA: string, tsA: nat, bodyA: string, traceB: string, tsB: nat, bodyB: string)
    requires Clean(traceA) && Clean(traceB)
    ensures LogText(traceA, tsA, bodyA) == LogText(traceB, tsB, bodyB) <==>
            traceA == traceB && tsA == tsB && bodyA == bodyB
  {
    LogTextReads(traceA, tsA, bodyA);
    LogTextReads(traceB, tsB, bodyB);
    DecimalValue(tsA);
    DecimalValue(tsB);
  }

  lemma LogTextReads(traceId: string, tsNs: nat, body: string)
    requires Clean(traceId)
    ensures ReadField(LogText(traceId, tsNs, body)) == (traceId, Field(Decimal(tsNs)) + body)
    ensures ReadField(Field(Decimal(tsNs)) + body) == (Decimal(tsNs), body)
  {
    ReadsField(traceId, Field(Decimal(tsNs)) + body);
    assert Clean(Decimal(tsNs)) by {
      assert !IsDigit(SEPARATOR);
    }
    ReadsField(Decimal(tsNs), body);
  }
}
