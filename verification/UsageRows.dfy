/** Usage accounting of one request: the mappers' record tallies, and `usageRows`, which apportions the
    request's bytes by record share. Counters are 64-bit and wrap as Go's do.
  */
module UsageRows {

  datatype Usage = Usage(service: string, environment: string, records: nat)

  function TotalRecords(usage: seq<Usage>): nat {
    if usage == [] then 0 else TotalRecords(usage[..|usage| - 1]) + usage[|usage| - 1].records
  }

  lemma TallyOneMore(usage: seq<Usage>, u: Usage)
    ensures TotalRecords(usage + [u]) == TotalRecords(usage) + u.records
  {
    assert (usage + [u])[..|usage|] == usage;
  }

  /** The mappers' tally: one entry per resource that produced rows. */
  function NonEmpty(parts: seq<Usage>): seq<Usage> {
    if parts == [] then []
    else NonEmpty(parts[..|parts| - 1]) + (if parts[|parts| - 1].records > 0 then [parts[|parts| - 1]] else [])
  }

  /** The tally holds exactly the entries with rows, in order of their resources. */
  lemma {:induction false} NonEmptyEntries(parts: seq<Usage>, u: Usage)
    ensures u in NonEmpty(parts) <==> u in parts && u.records > 0
  {
    if parts != [] {
      NonEmptyEntries(parts[..|parts| - 1], u);
      assert parts == parts[..|parts| - 1] + [parts[|parts| - 1]];
    }
  }

  lemma NonEmptyOneMore(parts: seq<Usage>, u: Usage)
    ensures NonEmpty(parts + [u]) == if u.records > 0 then NonEmpty(parts) + [u] else NonEmpty(parts)
    ensures TotalRecords(NonEmpty(parts + [u])) == TotalRecords(NonEmpty(parts)) + u.records
  {
    assert (parts + [u])[..|parts|] == parts;
    if u.records > 0 {
      TallyOneMore(NonEmpty(parts), u);
    }
  }

  // ---------------------------------------------------------------- 64-bit arithmetic

  const WORD := 0x1_0000_0000_0000_0000

  function Wrap(n: int): (r: nat)
    ensures r < WORD
  {
    n % WORD
  }

  /** The 64-bit products and sums of this request do not wrap. */
  predicate Fits(usage: seq<Usage>, totalBytes: nat) {
    TotalRecords(usage) < WORD && totalBytes * TotalRecords(usage) < WORD
  }

  // ---------------------------------------------------------------- specification

  datatype StatRow = StatRow(service: string, environment: string, records: nat, bytes: nat)

  function SumBytes(rows: seq<StatRow>): nat {
    if rows == [] then 0 else SumBytes(rows[..|rows| - 1]) + rows[|rows| - 1].bytes
  }

  /** One row per resource, with its tally. */
  predicate RowPerResource(rows: seq<StatRow>, usage: seq<Usage>) {
    && |rows| == |usage|
    && forall i :: 0 <= i < |rows| ==>
         && rows[i].service == usage[i].service && rows[i].environment == usage[i].environment
         && rows[i].records == usage[i].records
  }

  /** Byte counts fit their 64-bit field. */
  predicate Encodable(rows: seq<StatRow>) {
    forall i :: 0 <= i < |rows| ==> rows[i].bytes < WORD
  }

  function FloorShare(u: Usage, totalBytes: nat, totalRecords: nat): nat
    requires totalRecords > 0
  {
    totalBytes * u.records / totalRecords
  }

  function Sum(q: seq<nat>): nat {
    if q == [] then 0 else Sum(q[..|q| - 1]) + q[|q| - 1]
  }

  /** The floor share of each resource. */
  function Shares(usage: seq<Usage>, totalBytes: nat, totalRecords: nat): (q: seq<nat>)
    requires totalRecords > 0
    ensures |q| == |usage|
    ensures forall i :: 0 <= i < |q| ==> q[i] == FloorShare(usage[i], totalBytes, totalRecords)
  {
    if usage == [] then []
    else
      Shares(usage[..|usage| - 1], totalBytes, totalRecords) +
      [FloorShare(usage[|usage| - 1], totalBytes, totalRecords)]
  }

  /** The bytes add up to the request; each row but the last has its floor share, and the last its floor
      share plus less than one byte per row. */
  ghost predicate Apportioned(rows: seq<StatRow>, shares: seq<nat>, totalBytes: nat) {
    && |rows| == |shares| > 0
    && SumBytes(rows) == totalBytes
    && (forall i :: 0 <= i < |rows| - 1 ==> rows[i].bytes == shares[i])
    && shares[|rows| - 1] <= rows[|rows| - 1].bytes < shares[|rows| - 1] + |rows|
  }

  lemma FloorBounds(x: nat, r: nat)
    requires r > 0
    ensures (x / r) * r <= x <= (x / r) * r + (r - 1)
  {
  }

  /** One more resource, with its floor share, keeps shares and tally within n units of rounding. */
  lemma OneMoreShare(before: nat, after: nat, tally: nat, more: nat, tallied: nat, n: nat, t: nat, r: nat)
    requires r > 0 && before * r <= t * tally <= before * r + n * (r - 1)
    requires after == before + t * more / r && tallied == tally + more
    ensures after * r <= t * tallied <= after * r + (n + 1) * (r - 1)
  {
    var share := t * more / r;
    FloorBounds(t * more, r);
    assert t * tallied == t * tally + t * more;
    assert after * r == before * r + share * r;
    assert (n + 1) * (r - 1) == n * (r - 1) + (r - 1);
  }

  /** Floor shares never exceed the whole, and lose less than one byte each. */
  lemma {:induction false} SharesBound(usage: seq<Usage>, t: nat, r: nat)
    requires r > 0
    ensures Sum(Shares(usage, t, r)) * r <= t * TotalRecords(usage) <= Sum(Shares(usage, t, r)) * r + |usage| * (r - 1)
  {
    if usage != [] {
      var rest, last := usage[..|usage| - 1], usage[|usage| - 1];
      SharesBound(rest, t, r);
      SumOneMore(Shares(rest, t, r), FloorShare(last, t, r));
      OneMoreShare(Sum(Shares(rest, t, r)), Sum(Shares(usage, t, r)), TotalRecords(rest), last.records,
          TotalRecords(usage), |rest|, t, r);
    }
  }

  lemma SumOneMore(q: seq<nat>, x: nat)
    ensures Sum(q + [x]) == Sum(q) + x
  {
    assert (q + [x])[..|q|] == q;
  }

  lemma CancelFactor(a: int, b: int, r: nat)
    requires r > 0 && a * r < b * r
    ensures a < b
  {
  }

  /** With all records counted, the floor shares sum to the whole or up to one byte per row less. */
  lemma SharesSum(usage: seq<Usage>, t: nat)
    requires TotalRecords(usage) > 0
    ensures var f := Sum(Shares(usage, t, TotalRecords(usage)));
            f <= t < f + |usage|
  {
    var r := TotalRecords(usage);
    SharesBound(usage, t, r);
    assert |usage| > 0;
    BetweenMultiples(Sum(Shares(usage, t, r)), t, |usage|, r);
  }

  lemma BetweenMultiples(f: nat, t: nat, n: nat, r: nat)
    requires r > 0 && n > 0 && f * r <= t * r <= f * r + n * (r - 1)
    ensures f <= t < f + n
  {
    assert (t + 1) * r == t * r + r;
    CancelFactor(f, t + 1, r);
    assert (f + n) * r == f * r + n * r;
    assert n * r == n * (r - 1) + n;
    CancelFactor(t, f + n, r);
  }

  lemma {:induction false} SumPrefix(q: seq<nat>, i: nat)
    requires i <= |q|
    ensures Sum(q[..i]) <= Sum(q)
    decreases |q| - i
  {
    if i < |q| {
      SumPrefix(q, i + 1);
      assert q[..i + 1][..i] == q[..i];
    } else {
      assert q[..i] == q;
    }
  }

  lemma {:induction false} TallyPrefix(usage: seq<Usage>, i: nat)
    requires i <= |usage|
    ensures TotalRecords(usage[..i]) <= TotalRecords(usage)
    ensures forall j :: 0 <= j < |usage| ==> usage[j].records <= TotalRecords(usage)
    decreases |usage|
  {
    if usage != [] {
      var n := |usage| - 1;
      TallyPrefix(usage[..n], if i <= n then i else n);
      if i <= n {
        assert usage[..n][..i] == usage[..i];
      } else {
        assert usage[..i] == usage;
      }
      forall j | 0 <= j < |usage| ensures usage[j].records <= TotalRecords(usage) {
        if j < n { assert usage[..n][j] == usage[j]; }
      }
    }
  }

  lemma ProductFits(usage: seq<Usage>, t: nat, i: nat)
    requires i < |usage| && Fits(usage, t)
    ensures t * usage[i].records < WORD
  {
    TallyPrefix(usage, 0);
    assert t * usage[i].records <= t * TotalRecords(usage) by {
      assert t * (TotalRecords(usage) - usage[i].records) >= 0;
      assert t * (TotalRecords(usage) - usage[i].records) == t * TotalRecords(usage) - t * usage[i].records;
    }
  }

  lemma SumBytesOneMore(rows: seq<StatRow>, row: StatRow)
    ensures SumBytes(rows + [row]) == SumBytes(rows) + row.bytes
  {
    assert (rows + [row])[..|rows|] == rows;
  }

  // ---------------------------------------------------------------- the code

  method CountRecords(usage: seq<Usage>) returns (totalRecords: nat)
    ensures totalRecords == Wrap(TotalRecords(usage))
  {
    totalRecords := 0;
    for i := 0 to |usage|
      invariant totalRecords == Wrap(TotalRecords(usage[..i]))
    {
      assert usage[..i + 1][..i] == usage[..i];
      totalRecords := Wrap(totalRecords + usage[i].records);
    }
    assert usage[..|usage|] == usage;
  }

  lemma WholeWords(x: nat, k: int)
    requires x < WORD
    ensures Wrap(x + k * WORD) == x
  {
  }

  lemma ShareFits(usage: seq<Usage>, t: nat, i: nat)
    requires i < |usage| && Fits(usage, t) && TotalRecords(usage) > 0
    ensures Wrap(t * usage[i].records) / TotalRecords(usage) == Shares(usage, t, TotalRecords(usage))[i]
  {
    ProductFits(usage, t, i);
    SmallQuotient(t * usage[i].records, TotalRecords(usage));
  }

  lemma SmallQuotient(x: nat, r: nat)
    requires x < WORD && r > 0
    ensures Wrap(x) / r == x / r
  {
  }

  /** The rows so far, on the way to `Apportioned`. */
  ghost predicate OnTheWay(rows: seq<StatRow>, shares: seq<nat>, t: nat, remaining: nat) {
    && |rows| < |shares|
    && SumBytes(rows) == Sum(shares[..|rows|])
    && SumBytes(rows) + remaining == t
    && forall j :: 0 <= j < |rows| ==> rows[j].bytes == shares[j]
  }

  lemma NotLast(rows: seq<StatRow>, shares: seq<nat>, t: nat, remaining: nat, row: StatRow)
    requires OnTheWay(rows, shares, t, remaining) && |rows| < |shares| - 1 && Sum(shares) <= t < WORD
    requires row.bytes == shares[|rows|]
    ensures row.bytes <= remaining && OnTheWay(rows + [row], shares, t, Wrap(remaining - row.bytes))
  {
    var i := |rows|;
    assert shares[..i + 1] == shares[..i] + [shares[i]];
    SumOneMore(shares[..i], shares[i]);
    SumPrefix(shares, i + 1);
    SumBytesOneMore(rows, row);
  }

  lemma Last(rows: seq<StatRow>, shares: seq<nat>, t: nat, row: StatRow)
    requires OnTheWay(rows, shares, t, row.bytes) && |rows| == |shares| - 1 && Sum(shares) <= t < Sum(shares) + |shares|
    ensures Apportioned(rows + [row], shares, t)
  {
    SumBytesOneMore(rows, row);
  }

  method ShareOf(usage: seq<Usage>, i: nat, totalBytes: nat, totalRecords: nat) returns (bytes: nat)
    requires i < |usage| && 0 < totalRecords == Wrap(TotalRecords(usage))
    ensures bytes < WORD
    ensures Fits(usage, totalBytes) ==> bytes == Shares(usage, totalBytes, TotalRecords(usage))[i]
  {
    bytes := Wrap(totalBytes * usage[i].records) / totalRecords;
    if Fits(usage, totalBytes) {
      ShareFits(usage, totalBytes, i);
    }
  }

  /** usageRows. Modulo the word size the bytes always add up to the request; when nothing wraps they do so
      exactly, and `remaining` never underflows. */
  method Rows(usage: seq<Usage>, totalBytes: nat) returns (rows: seq<StatRow>)
    requires totalBytes < WORD
    ensures Wrap(TotalRecords(usage)) == 0 ==> rows == []
    ensures Wrap(TotalRecords(usage)) != 0 ==> RowPerResource(rows, usage) && Wrap(SumBytes(rows)) == totalBytes
    ensures Encodable(rows)
    ensures Fits(usage, totalBytes) && TotalRecords(usage) > 0 ==>
              Apportioned(rows, Shares(usage, totalBytes, TotalRecords(usage)), totalBytes)
  {
    var totalRecords := CountRecords(usage);
    if totalRecords == 0 {
      return [];
    }
    ghost var exact := Fits(usage, totalBytes);
    ghost var shares: seq<nat> := if exact then Shares(usage, totalBytes, TotalRecords(usage)) else [];
    if exact {
      SharesSum(usage, totalBytes);
    }
    rows := Fill(usage, totalBytes, totalRecords, exact, shares);
  }

  method Fill(usage: seq<Usage>, totalBytes: nat, totalRecords: nat, ghost exact: bool, ghost shares: seq<nat>)
    returns (rows: seq<StatRow>)
    requires totalBytes < WORD && 0 < totalRecords == Wrap(TotalRecords(usage))
    requires exact ==> Fits(usage, totalBytes) && shares == Shares(usage, totalBytes, TotalRecords(usage))
    requires exact ==> Sum(shares) <= totalBytes < Sum(shares) + |shares|
    ensures RowPerResource(rows, usage) && Wrap(SumBytes(rows)) == totalBytes
    ensures Encodable(rows)
    ensures exact ==> Apportioned(rows, shares, totalBytes)
  {
    rows := [];
    var remaining: nat := totalBytes;
    ghost var wraps := 0;
    assert |usage| > 0;
    for i := 0 to |usage|
      invariant RowPerResource(rows, usage[..i]) && Encodable(rows)
      invariant remaining < WORD && SumBytes(rows) + remaining == totalBytes + wraps * WORD
      invariant exact && i < |usage| ==> OnTheWay(rows, shares, totalBytes, remaining)
      invariant exact && i == |usage| ==> Apportioned(rows, shares, totalBytes)
      invariant i == |usage| ==> remaining == 0
    {
      var row;
      ghost var more;
      row, remaining, more := NextRow(usage, i, totalBytes, totalRecords, remaining, rows, exact, shares);
      rows := rows + [row];
      wraps := wraps + more;
    }
    assert usage[..|usage|] == usage;
    WholeWords(totalBytes, wraps);
  }

  /** One turn of the loop. */
  method NextRow(usage: seq<Usage>, i: nat, totalBytes: nat, totalRecords: nat, before: nat,
                 ghost rows: seq<StatRow>, ghost exact: bool, ghost shares: seq<nat>)
    returns (row: StatRow, remaining: nat, ghost wraps: int)
    requires i < |usage| && totalBytes < WORD && before < WORD && 0 < totalRecords == Wrap(TotalRecords(usage)) &&
             |rows| == i
    requires exact ==> Fits(usage, totalBytes) && shares == Shares(usage, totalBytes, TotalRecords(usage))
    requires exact ==> Sum(shares) <= totalBytes < Sum(shares) + |shares| && OnTheWay(rows, shares, totalBytes, before)
    ensures row.service == usage[i].service && row.environment == usage[i].environment &&
            row.records == usage[i].records
    ensures row.bytes < WORD
    ensures remaining < WORD && SumBytes(rows + [row]) + remaining == SumBytes(rows) + before + wraps * WORD
    ensures i == |usage| - 1 ==> remaining == 0
    ensures exact && i < |usage| - 1 ==> OnTheWay(rows + [row], shares, totalBytes, remaining)
    ensures exact && i == |usage| - 1 ==> Apportioned(rows + [row], shares, totalBytes)
  {
    var u := usage[i];
    var bytes := ShareOf(usage, i, totalBytes, totalRecords);
    if i == |usage| - 1 {
      bytes := before;
    }
    remaining := Wrap(before - bytes);
    row := StatRow(u.service, u.environment, u.records, bytes);
    SumBytesOneMore(rows, row);
    wraps := -((before - bytes) / WORD);
    if exact {
      if i < |usage| - 1 {
        NotLast(rows, shares, totalBytes, before, row);
      } else {
        Last(rows, shares, totalBytes, row);
      }
    }
  }
}
