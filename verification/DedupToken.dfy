/** `dedupToken`: a batch becomes its sorted (partition, offset-range) spans, written as text and hashed.

    The hash is a parameter; the statements are about the text that goes into it.
  */
module DedupToken {
  import opened Ordering
  import opened Text
  import opened InsertHandler

  datatype Span = Span(min: int, max: int)

  // ---------------------------------------------------------------- specification

  function OffsetsOf(recs: set<Record>, p: int): set<int> {
    set r | r in recs && r.partition == p :: r.offset
  }

  /** `m` gives each partition of the records its smallest and largest offset, and nothing else. */
  ghost predicate AreSpans(recs: set<Record>, m: map<int, Span>) {
    && (forall r :: r in recs ==> r.partition in m && m[r.partition].min <= r.offset <= m[r.partition].max)
    && (forall p :: p in m ==> m[p].min in OffsetsOf(recs, p) && m[p].max in OffsetsOf(recs, p))
  }

  lemma SpansAreUnique(recs: set<Record>, a: map<int, Span>, b: map<int, Span>)
    requires AreSpans(recs, a) && AreSpans(recs, b)
    ensures a == b
  {
    forall p | p in a || p in b ensures p in a && p in b && a[p] == b[p] {
      assert p in a ==> exists r :: r in recs && r.partition == p && r.offset == a[p].min;
      assert p in b ==> exists r :: r in recs && r.partition == p && r.offset == b[p].min;
      assert a[p].min in OffsetsOf(recs, p) && b[p].min in OffsetsOf(recs, p);
    }
  }

  lemma SpansExist(recs: set<Record>) returns (m: map<int, Span>)
    ensures AreSpans(recs, m)
  {
    m := map[];
    var rest := recs;
    while rest != {}
      invariant rest <= recs && AreSpans(recs - rest, m)
      decreases |rest|
    {
      var r :| r in rest;
      Widened(recs - rest, m, r);
      m := Widen(m, r);
      assert recs - (rest - {r}) == recs - rest + {r};
      rest := rest - {r};
    }
    assert recs - rest == recs;
  }

  /** One turn of the loop over the batch. */
  function Widen(m: map<int, Span>, r: Record): map<int, Span> {
    if r.partition !in m then m[r.partition := Span(r.offset, r.offset)]
    else
      var s := m[r.partition];
      m[r.partition := Span(if r.offset < s.min then r.offset else s.min, if r.offset > s.max then r.offset else s.max)]
  }

  lemma Widened(recs: set<Record>, m: map<int, Span>, r: Record)
    requires AreSpans(recs, m)
    ensures AreSpans(recs + {r}, Widen(m, r))
  {
    var w := Widen(m, r);
    forall p | p in w
      ensures w[p].min in OffsetsOf(recs + {r}, p) && w[p].max in OffsetsOf(recs + {r}, p)
    {
      assert OffsetsOf(recs + {r}, p) == OffsetsOf(recs, p) + (if p == r.partition then {r.offset} else {});
    }
  }

  ghost function Spans(recs: set<Record>): (m: map<int, Span>)
    ensures AreSpans(recs, m)
  {
    assert exists m :: AreSpans(recs, m) by {
      var m := SpansExist(recs);
    }
    var m :| AreSpans(recs, m);
    m
  }

  function IntLess(a: int, b: int): bool {
    a < b
  }

  function WriteSpan(p: int, s: Span): string {
    "|" + (FormatInt(p) + (":" + (FormatInt(s.min) + ("-" + FormatInt(s.max)))))
  }

  function Write(ps: seq<int>, m: map<int, Span>): (t: string)
    requires forall p :: p in ps ==> p in m
    ensures t == [] || t[0] == '|'
  {
    if ps == [] then "" else WriteSpan(ps[0], m[ps[0]]) + Write(ps[1..], m)
  }

  ghost function SpanText(m: map<int, Span>): string {
    Write(Sorted(m.Keys, IntLess), m)
  }

  ghost function TokenText(signal: string, recs: set<Record>): string {
    signal + SpanText(Spans(recs))
  }

  // ---------------------------------------------------------------- the code

  method Token(signal: string, recs: seq<Record>, hash: string -> string) returns (token: string)
    ensures token == hash(TokenText(signal, Elements(recs)))
  {
    var byPartition: map<int, Span> := map[];
    for i := 0 to |recs|
      invariant AreSpans(Elements(recs[..i]), byPartition)
    {
      var rec := recs[i];
      ghost var before := byPartition;
      if rec.partition !in byPartition {
        byPartition := byPartition[rec.partition := Span(rec.offset, rec.offset)];
      } else {
        var s := byPartition[rec.partition];
        var low := if rec.offset < s.min then rec.offset else s.min;
        var high := if rec.offset > s.max then rec.offset else s.max;
        byPartition := byPartition[rec.partition := Span(low, high)];
      }
      Widened(Elements(recs[..i]), before, rec);
      assert recs[..i + 1] == recs[..i] + [rec];
      assert Elements(recs[..i + 1]) == Elements(recs[..i]) + {rec};
    }
    assert recs[..|recs|] == recs;
    SpansAreUnique(Elements(recs), byPartition, Spans(Elements(recs)));

    token := WriteToken(signal, byPartition, hash);
  }

  method WriteToken(signal: string, byPartition: map<int, Span>, hash: string -> string) returns (token: string)
    ensures token == hash(signal + SpanText(byPartition))
  {
    var partitions := Sort(byPartition.Keys, IntLess);
    var text := signal;
    for i := 0 to |partitions|
      invariant text == signal + Write(partitions[..i], byPartition)
    {
      var p := partitions[i];
      var s := byPartition[p];
      WriteNext(signal, partitions, i, byPartition);
      text := text + WriteSpan(p, s);
    }
    assert partitions[..|partitions|] == partitions;
    token := hash(text);
  }

  lemma Assoc(a: string, b: string, c: string)
    ensures (a + b) + c == a + (b + c)
  {
  }

  lemma WriteNext(signal: string, ps: seq<int>, i: nat, m: map<int, Span>)
    requires i < |ps| && forall p :: p in ps ==> p in m
    ensures signal + Write(ps[..i + 1], m) == (signal + Write(ps[..i], m)) + WriteSpan(ps[i], m[ps[i]])
  {
    assert ps[..i + 1] == ps[..i] + [ps[i]];
    WriteLast(ps[..i], ps[i], m);
    Assoc(signal, Write(ps[..i], m), WriteSpan(ps[i], m[ps[i]]));
  }

  lemma {:induction false} WriteLast(ps: seq<int>, p: int, m: map<int, Span>)
    requires p in m && forall q :: q in ps ==> q in m
    ensures Write(ps + [p], m) == Write(ps, m) + WriteSpan(p, m[p])
  {
    if ps == [] {
      assert ps + [p] == [p];
      assert Write([p], m) == WriteSpan(p, m[p]) + "";
    } else {
      WriteLast(ps[1..], p, m);
      assert (ps + [p])[1..] == ps[1..] + [p];
      Assoc(WriteSpan(ps[0], m[ps[0]]), Write(ps[1..], m), WriteSpan(p, m[p]));
    }
  }

  // ---------------------------------------------------------------- the text reads back

  /** Skip one separator and read an integer. */
  function ReadAfter(s: string): (int, string) {
    ReadInt(if s == [] then [] else s[1..])
  }

  function ReadSpan(s: string): (int, Span, string) {
    var (p, r1) := ReadAfter(s);
    var (min, r2) := ReadAfter(r1);
    var (max, r3) := ReadAfter(r2);
    (p, Span(min, max), r3)
  }

  function Read(s: string): map<int, Span>
    decreases |s|
  {
    if s == [] then map[]
    else
      var (p, span, rest) := ReadSpan(s);
      if |rest| < |s| then Read(rest)[p := span] else map[]
  }

  lemma ReadsAfter(c: char, i: int, rest: string)
    requires rest == [] || !IsDigit(rest[0])
    ensures ReadAfter([c] + (FormatInt(i) + rest)) == (i, rest)
  {
    ReadFormatted(i, rest);
    assert ([c] + (FormatInt(i) + rest))[1..] == FormatInt(i) + rest;
  }

  lemma Regroup(a: string, b: string, c: string, d: string, e: string, f: string, rest: string)
    ensures (a + (b + (c + (d + (e + f))))) + rest == a + (b + (c + (d + (e + (f + rest)))))
  {
  }

  lemma ReadsSpan(p: int, s: Span, rest: string)
    requires rest == [] || rest[0] == '|'
    ensures ReadSpan(WriteSpan(p, s) + rest) == (p, s, rest)
  {
    var r2 := "-" + (FormatInt(s.max) + rest);
    var r1 := ":" + (FormatInt(s.min) + r2);
    Regroup("|", FormatInt(p), ":", FormatInt(s.min), "-", FormatInt(s.max), rest);
    ReadsAfter('|', p, r1);
    ReadsAfter(':', s.min, r2);
    ReadsAfter('-', s.max, rest);
  }

  lemma ReadCons(p: int, s: Span, rest: string)
    requires rest == [] || rest[0] == '|'
    ensures Read(WriteSpan(p, s) + rest) == Read(rest)[p := s]
  {
    ReadsSpan(p, s, rest);
    var t := WriteSpan(p, s);
    assert |t| > 0;
    assert |t + rest| > |rest|;
  }

  function Pick(ps: seq<int>, m: map<int, Span>): map<int, Span>
    requires forall p :: p in ps ==> p in m
  {
    map p | p in ps :: m[p]
  }

  lemma PickCons(ps: seq<int>, m: map<int, Span>)
    requires ps != [] && forall p :: p in ps ==> p in m
    ensures Pick(ps, m) == Pick(ps[1..], m)[ps[0] := m[ps[0]]]
  {
    assert ps == [ps[0]] + ps[1..];
  }

  lemma {:induction false} ReadsWrite(ps: seq<int>, m: map<int, Span>)
    requires forall p :: p in ps ==> p in m
    ensures Read(Write(ps, m)) == Pick(ps, m)
  {
    if ps != [] {
      ReadCons(ps[0], m[ps[0]], Write(ps[1..], m));
      ReadsWrite(ps[1..], m);
      PickCons(ps, m);
    }
  }

  lemma PickAll(ps: seq<int>, m: map<int, Span>)
    requires forall p :: p in ps <==> p in m
    ensures Pick(ps, m) == m
  {
    forall p ensures p in Pick(ps, m) <==> p in m {
      assert p in ps <==> p in m;
    }
    assert Pick(ps, m).Keys == m.Keys;
  }

  /** Reading the text gives back the spans, for any partitions and offsets. */
  lemma ReadsSpanText(m: map<int, Span>)
    ensures Read(SpanText(m)) == m
  {
    var ps := Sorted(m.Keys, IntLess);
    ReadsWrite(ps, m);
    PickAll(ps, m);
  }

  // ---------------------------------------------------------------- tokens and record sets

  /** Two batches of one signal get the same text exactly when their spans agree. */
  lemma TokenIsSpans(signal: string, a: set<Record>, b: set<Record>)
    ensures TokenText(signal, a) == TokenText(signal, b) <==> Spans(a) == Spans(b)
  {
    var ta, tb := SpanText(Spans(a)), SpanText(Spans(b));
    assert (signal + ta)[|signal|..] == ta && (signal + tb)[|signal|..] == tb;
    ReadsSpanText(Spans(a));
    ReadsSpanText(Spans(b));
  }

  predicate InRange(r: Record, m: map<int, Span>) {
    r.partition in m && m[r.partition].min <= r.offset <= m[r.partition].max
  }

  /** The batch holds every record of the log inside its own offset ranges. */
  ghost predicate HoldsItsRanges(log: set<Record>, recs: set<Record>) {
    && recs <= log
    && (forall r :: r in log && InRange(r, Spans(recs)) ==> r in recs)
  }

  /** For batches that hold their ranges the token text names the record set, whatever the order of the
      records: equal texts exactly for equal sets. */
  lemma TokenIsRecordSet(signal: string, log: set<Record>, a: seq<Record>, b: seq<Record>)
    requires HoldsItsRanges(log, Elements(a)) && HoldsItsRanges(log, Elements(b))
    ensures TokenText(signal, Elements(a)) == TokenText(signal, Elements(b)) <==> Elements(a) == Elements(b)
  {
    TokenIsSpans(signal, Elements(a), Elements(b));
    if Spans(Elements(a)) == Spans(Elements(b)) {
      SameSpansSameRecords(log, Elements(a), Elements(b));
      SameSpansSameRecords(log, Elements(b), Elements(a));
    }
  }

  lemma SameSpansSameRecords(log: set<Record>, a: set<Record>, b: set<Record>)
    requires HoldsItsRanges(log, a) && HoldsItsRanges(log, b) && Spans(a) == Spans(b)
    ensures a <= b
  {
    assert AreSpans(a, Spans(a));
  }

  /** Tokens of different signals, whose names have no separator, differ too. */
  lemma TokenNamesSignal(s: string, t: string, a: set<Record>, b: set<Record>)
    requires '|' !in s && '|' !in t
    ensures TokenText(s, a) == TokenText(t, b) <==> s == t && Spans(a) == Spans(b)
  {
    BeforeBarOf(s, SpanText(Spans(a)));
    BeforeBarOf(t, SpanText(Spans(b)));
    TokenIsSpans(s, a, b);
  }

  function BeforeBar(s: string): string {
    if s == [] || s[0] == '|' then "" else [s[0]] + BeforeBar(s[1..])
  }

  lemma {:induction false} BeforeBarOf(s: string, x: string)
    requires '|' !in s && (x == [] || x[0] == '|')
    ensures BeforeBar(s + x) == s
  {
    if s == [] {
      assert s + x == x;
    } else {
      assert (s + x)[0] == s[0] && (s + x)[1..] == s[1..] + x;
      BeforeBarOf(s[1..], x);
    }
  }

  /** Lower partitions come first. */
  lemma PartitionsInOrder(p: int, q: int, s: Span, t: Span)
    requires p < q
    ensures SpanText(map[q := t, p := s]) == WriteSpan(p, s) + WriteSpan(q, t)
  {
    var m := map[q := t, p := s];
    SortedIsUnique([p, q], m.Keys, IntLess);
    assert [p, q][1..] == [q];
    assert Write([q], m) == WriteSpan(q, t) + "";
  }

  /** What one partition looks like. */
  lemma SpanExample()
    ensures WriteSpan(0, Span(5, 6)) == "|0:5-6"
  {
    assert FormatInt(0) == "0" && FormatInt(5) == "5" && FormatInt(6) == "6";
  }

  /** Without the whole ranges different batches can share a text: only the ends are in it. */
  lemma GapsShareTokens(signal: string)
    ensures var a := {Record(0, 1, "", ""), Record(0, 3, "", "")};
            var b := a + {Record(0, 2, "", "")};
            a != b && TokenText(signal, a) == TokenText(signal, b)
  {
    var a := {Record(0, 1, "", ""), Record(0, 3, "", "")};
    var b := a + {Record(0, 2, "", "")};
    var spans := map[0 := Span(1, 3)];
    assert Record(0, 1, "", "") in a && Record(0, 3, "", "") in a;
    assert 1 in OffsetsOf(a, 0) && 3 in OffsetsOf(a, 0);
    assert 1 in OffsetsOf(b, 0) && 3 in OffsetsOf(b, 0);
    SpansAreUnique(a, spans, Spans(a));
    SpansAreUnique(b, spans, Spans(b));
    assert Record(0, 2, "", "") in b && Record(0, 2, "", "") !in a;
  }
}
