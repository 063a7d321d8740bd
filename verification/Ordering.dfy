/** Sorting by a strict total order: what `slices.Sort` and `slices.Sorted(maps.Keys(m))` return. */
module Ordering {

  ghost predicate StrictTotal<T(!new)>(less: (T, T) -> bool) {
    && (forall x :: !less(x, x))
    && (forall x, y :: x == y || less(x, y) || less(y, x))
    && (forall x, y, z :: less(x, y) && less(y, z) ==> less(x, z))
  }

  predicate Ascending<T>(q: seq<T>, less: (T, T) -> bool) {
    forall i, j :: 0 <= i < j < |q| ==> less(q[i], q[j])
  }

  ghost predicate IsLeast<T(!new)>(k: T, s: set<T>, less: (T, T) -> bool) {
    k in s && forall x :: x in s ==> x == k || less(k, x)
  }

  lemma {:induction false} LeastExists<T(!new)>(s: set<T>, less: (T, T) -> bool) returns (k: T)
    requires StrictTotal(less) && s != {}
    ensures IsLeast(k, s, less)
  {
    var x :| x in s;
    if s == {x} {
      k := x;
    } else {
      assert s == {x} + (s - {x});
      var y := LeastExists(s - {x}, less);
      k := if less(x, y) then x else y;
      forall z | z in s ensures z == k || less(k, z) {
        assert z == x || z in s - {x};
      }
    }
  }

  /** The elements of a set in ascending order. */
  ghost function Sorted<T(!new)>(s: set<T>, less: (T, T) -> bool): (q: seq<T>)
    requires StrictTotal(less)
    ensures |q| == |s|
    ensures forall x :: x in q <==> x in s
    ensures Ascending(q, less)
    decreases |s|
  {
    if s == {} then []
    else
      var k := Least(s, less);
      [k] + Sorted(s - {k}, less)
  }

  ghost function Least<T(!new)>(s: set<T>, less: (T, T) -> bool): (k: T)
    requires StrictTotal(less) && s != {}
    ensures IsLeast(k, s, less)
  {
    assert exists k :: IsLeast(k, s, less) by {
      var k := LeastExists(s, less);
    }
    var k :| IsLeast(k, s, less);
    k
  }

  /** A set has one ascending enumeration, so sorting forgets the order the elements came in. */
  lemma {:induction false} SortedIsUnique<T(!new)>(q: seq<T>, s: set<T>, less: (T, T) -> bool)
    requires StrictTotal(less) && Ascending(q, less) && forall x :: x in q <==> x in s
    ensures q == Sorted(s, less)
    decreases |q|
  {
    if q == [] {
      assert s == {};
    } else {
      HeadIsLeast(q, s, less);
      TailElements(q, s, less);
      SortedIsUnique(q[1..], s - {q[0]}, less);
      SortedCons(s, less);
      assert q == [q[0]] + q[1..];
    }
  }

  lemma SortedCons<T(!new)>(s: set<T>, less: (T, T) -> bool)
    requires StrictTotal(less) && s != {}
    ensures Sorted(s, less) == [Least(s, less)] + Sorted(s - {Least(s, less)}, less)
  {
  }

  lemma HeadIsLeast<T(!new)>(q: seq<T>, s: set<T>, less: (T, T) -> bool)
    requires StrictTotal(less) && Ascending(q, less) && q != [] && forall x :: x in q <==> x in s
    ensures s != {} && Least(s, less) == q[0]
  {
    assert q[0] in s;
    var k := Least(s, less);
    var j :| 0 <= j < |q| && q[j] == k;
  }

  lemma TailElements<T(!new)>(q: seq<T>, s: set<T>, less: (T, T) -> bool)
    requires StrictTotal(less) && Ascending(q, less) && q != [] && forall x :: x in q <==> x in s
    ensures forall x :: x in q[1..] <==> x in s - {q[0]}
    ensures Ascending(q[1..], less)
  {
    forall x ensures x in q[1..] <==> x in s - {q[0]} {
      if x in q[1..] {
        var i :| 1 <= i < |q| && q[i] == x;
        assert less(q[0], q[i]);
      }
    }
  }

  method Sort<T(!new,==)>(s: set<T>, less: (T, T) -> bool) returns (q: seq<T>)
    requires StrictTotal(less)
    ensures q == Sorted(s, less)
  {
    q := [];
    var rest := s;
    while rest != {}
      invariant rest <= s && forall x :: x in q <==> x in s - rest
      invariant Ascending(q, less)
      invariant forall x, y :: x in q && y in rest ==> less(x, y)
      decreases |rest|
    {
      ghost var least := Least(rest, less);
      var k :| k in rest && forall x :: x in rest ==> x == k || less(k, x);
      q := q + [k];
      rest := rest - {k};
    }
    SortedIsUnique(q, s, less);
  }

  lemma LastOfAppended<T>(q: seq<T>, x: T, i: nat)
    requires i <= |q|
    ensures |q + [x]| == |q| + 1 && (q + [x])[i] == if i == |q| then x else q[i]
  {
  }

  // ---------------------------------------------------------------- ranks

  function Elements<T>(q: seq<T>): set<T> {
    set x | x in q
  }

  ghost function Below<T(!new)>(k: T, s: set<T>, less: (T, T) -> bool): set<T> {
    set x | x in s && less(x, k)
  }

  /** The i-th element of a sorted set has i elements below it. */
  lemma {:induction false} RankInSorted<T(!new)>(s: set<T>, less: (T, T) -> bool, i: nat)
    requires StrictTotal(less) && i < |s|
    ensures Below(Sorted(s, less)[i], s, less) == Elements(Sorted(s, less)[..i])
    ensures |Below(Sorted(s, less)[i], s, less)| == i
  {
    var q := Sorted(s, less);
    var below := Below(q[i], s, less);
    var prefix := Elements(q[..i]);
    forall x ensures x in below <==> x in prefix {
      if x in below {
        var j :| 0 <= j < |q| && q[j] == x;
        assert j < i;
        assert q[..i][j] == x;
      }
    }
    assert below == prefix;
    PrefixSize(q, less, i);
  }

  predicate Distinct<T(==)>(q: seq<T>) {
    forall i, j :: 0 <= i < j < |q| ==> q[i] != q[j]
  }

  lemma AscendingIsDistinct<T(!new)>(q: seq<T>, less: (T, T) -> bool)
    requires StrictTotal(less) && Ascending(q, less)
    ensures Distinct(q)
  {
    forall i, j | 0 <= i < j < |q| ensures q[i] != q[j] {
      assert less(q[i], q[j]);
    }
  }

  lemma NextElement<T>(q: seq<T>, i: nat)
    requires Distinct(q) && i < |q|
    ensures Elements(q[..i + 1]) == Elements(q[..i]) + {q[i]} && q[i] !in Elements(q[..i])
  {
    assert q[..i + 1] == q[..i] + [q[i]];
  }

  lemma {:induction false} DistinctPrefixSize<T>(q: seq<T>, i: nat)
    requires Distinct(q) && i <= |q|
    ensures |Elements(q[..i])| == i
  {
    if i > 0 {
      DistinctPrefixSize(q, i - 1);
      NextElement(q, i - 1);
    }
  }

  lemma PrefixSize<T(!new)>(q: seq<T>, less: (T, T) -> bool, i: nat)
    requires StrictTotal(less) && Ascending(q, less) && i <= |q|
    ensures |Elements(q[..i])| == i
  {
    AscendingIsDistinct(q, less);
    DistinctPrefixSize(q, i);
  }
}
