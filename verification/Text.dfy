/** Go strings as byte strings: one Dafny `char` is one byte. Their order, and `%d`. */
module Text {
  import opened Ordering

  /** Go's `<` on strings: bytewise lexicographic order. */
  predicate Less(a: string, b: string) {
    b != [] && (a == [] || a[0] < b[0] || (a[0] == b[0] && Less(a[1..], b[1..])))
  }

  /** Where a and b first differ, a ends or has the smaller byte. */
  predicate SmallerAt(a: string, b: string, i: nat) {
    && i <= |a| && i < |b| && a[..i] == b[..i]
    && (i == |a| || a[i] < b[i])
  }

  lemma {:induction false} LessIsFirstDifference(a: string, b: string)
    ensures Less(a, b) <==> exists i: nat :: SmallerAt(a, b, i)
  {
    if b == [] {
    } else if a == [] {
      assert SmallerAt(a, b, 0);
    } else if a[0] != b[0] {
      if a[0] < b[0] {
        assert SmallerAt(a, b, 0);
      }
    } else {
      LessIsFirstDifference(a[1..], b[1..]);
      if Less(a, b) {
        var i: nat :| SmallerAt(a[1..], b[1..], i);
        LaterDifference(a, b, i);
      }
      if i: nat :| SmallerAt(a, b, i) {
        assert i > 0;
        LaterDifference(a, b, i - 1);
      }
    }
  }

  lemma LaterDifference(a: string, b: string, i: nat)
    requires a != [] && b != [] && a[0] == b[0]
    ensures SmallerAt(a[1..], b[1..], i) <==> SmallerAt(a, b, i + 1)
  {
    if i < |a| && i < |b| - 1 {
      assert a[..i + 1] == [a[0]] + a[1..][..i] && b[..i + 1] == [b[0]] + b[1..][..i];
      assert a[1..][..i] == a[..i + 1][1..] && b[1..][..i] == b[..i + 1][1..];
    }
  }

  lemma {:induction false} LessIrreflexive(a: string)
    ensures !Less(a, a)
  {
    if a != [] { LessIrreflexive(a[1..]); }
  }

  lemma {:induction false} LessConnected(a: string, b: string)
    ensures a == b || Less(a, b) || Less(b, a)
  {
    if a != [] && b != [] && a[0] == b[0] {
      LessConnected(a[1..], b[1..]);
      assert a == [a[0]] + a[1..] && b == [b[0]] + b[1..];
    }
  }

  lemma {:induction false} LessTransitive(a: string, b: string, c: string)
    requires Less(a, b) && Less(b, c)
    ensures Less(a, c)
  {
    if a != [] && a[0] == b[0] == c[0] {
      LessTransitive(a[1..], b[1..], c[1..]);
    }
  }

  lemma LessIsStrictTotal()
    ensures StrictTotal(Less)
  {
    forall x ensures !Less(x, x) { LessIrreflexive(x); }
    forall x, y ensures x == y || Less(x, y) || Less(y, x) { LessConnected(x, y); }
    forall x, y, z | Less(x, y) && Less(y, z) ensures Less(x, z) { LessTransitive(x, y, z); }
  }

  // ---------------------------------------------------------------- %d

  predicate IsDigit(c: char) {
    '0' <= c <= '9'
  }

  function Digit(d: nat): (c: char)
    requires d < 10
    ensures IsDigit(c) && c as int - '0' as int == d
  {
    ('0' as int + d) as char
  }

  function Decimal(n: nat): (s: string)
    ensures s != [] && forall i :: 0 <= i < |s| ==> IsDigit(s[i])
  {
    if n < 10 then [Digit(n)] else Decimal(n / 10) + [Digit(n % 10)]
  }

  function FormatInt(i: int): string {
    if i < 0 then "-" + Decimal(-i) else Decimal(i)
  }

  /** Reading back: the value of a run of digits, and how long the run is. */
  function Value(s: string): nat
    requires forall i :: 0 <= i < |s| ==> IsDigit(s[i])
  {
    if s == [] then 0 else assert IsDigit(s[|s| - 1]); 10 * Value(s[..|s| - 1]) + (s[|s| - 1] as int - '0' as int)
  }

  function DigitRun(s: string): (n: nat)
    ensures n <= |s| && forall i :: 0 <= i < n ==> IsDigit(s[i])
  {
    if s == [] || !IsDigit(s[0]) then 0 else 1 + DigitRun(s[1..])
  }

  /** An integer at the front of a string, and the rest. */
  function ReadInt(s: string): (int, string) {
    if s != [] && s[0] == '-' then
      var n := DigitRun(s[1..]);
      (-(Value(s[1..][..n]) as int), s[1..][n..])
    else
      var n := DigitRun(s);
      (Value(s[..n]), s[n..])
  }

  lemma {:induction false} DecimalValue(n: nat)
    ensures Value(Decimal(n)) == n
  {
    if n < 10 {
      assert Decimal(n)[..0] == [];
    } else {
      DecimalValue(n / 10);
      assert Decimal(n)[..|Decimal(n)| - 1] == Decimal(n / 10);
    }
  }

  lemma {:induction false} DigitRunStops(digits: string, rest: string)
    requires forall i :: 0 <= i < |digits| ==> IsDigit(digits[i])
    requires rest == [] || !IsDigit(rest[0])
    ensures DigitRun(digits + rest) == |digits|
  {
    if digits == [] {
      assert digits + rest == rest;
    } else {
      DigitRunStops(digits[1..], rest);
      assert (digits + rest)[1..] == digits[1..] + rest;
    }
  }

  /** Reading undoes formatting, for any integer followed by anything that is not a digit. */
  lemma ReadFormatted(i: int, rest: string)
    requires rest == [] || !IsDigit(rest[0])
    ensures ReadInt(FormatInt(i) + rest) == (i, rest)
  {
    var digits := Decimal(if i < 0 then -i else i);
    DigitRunStops(digits, rest);
    DecimalValue(if i < 0 then -i else i);
    assert (digits + rest)[..|digits|] == digits && (digits + rest)[|digits|..] == rest;
    if i < 0 {
      assert (FormatInt(i) + rest)[1..] == digits + rest;
    } else {
      assert (digits + rest)[0] == digits[0];
    }
  }
}
