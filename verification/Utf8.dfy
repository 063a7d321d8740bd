/** TruncateUTF8: capping a string in bytes without splitting a code point. */
module Utf8 {

  type Byte = b: int | 0 <= b < 256

  datatype Option<T> = None | Some(value: T)

  // ---------------------------------------------------------------- UTF-8, RFC 3629 section 4

  predicate Tail(b: Byte) {
    0x80 <= b <= 0xBF
  }

  /** Bytes of the code point a first byte announces; 0 if none starts with it. */
  function Length(first: Byte): nat {
    if first <= 0x7F then 1
    else if 0xC2 <= first <= 0xDF then 2
    else if 0xE0 <= first <= 0xEF then 3
    else if 0xF0 <= first <= 0xF4 then 4
    else 0
  }

  /** The second byte's range depends on the first: no surrogates, no overlong forms, nothing above U+10FFFF. */
  predicate SecondOk(first: Byte, second: Byte) {
    if first == 0xE0 then 0xA0 <= second <= 0xBF
    else if first == 0xED then 0x80 <= second <= 0x9F
    else if first == 0xF0 then 0x90 <= second <= 0xBF
    else if first == 0xF4 then 0x80 <= second <= 0x8F
    else Tail(second)
  }

  predicate StartsWithCodePoint(s: seq<Byte>) {
    && s != []
    && var n := Length(s[0]);
       && 1 <= n <= |s|
       && (n >= 2 ==> SecondOk(s[0], s[1]))
       && (n >= 3 ==> Tail(s[2]))
       && (n >= 4 ==> Tail(s[3]))
  }

  predicate Valid(s: seq<Byte>) {
    s == [] || (StartsWithCodePoint(s) && Valid(s[Length(s[0])..]))
  }

  /** Position i lies between two code points of s. */
  predicate Boundary(s: seq<Byte>, i: nat)
    requires Valid(s) && i <= |s|
    decreases |s|
  {
    i == 0 || (Length(s[0]) <= i && Boundary(s[Length(s[0])..], i - Length(s[0])))
  }

  /** utf8.RuneStart: not a continuation byte. */
  predicate RuneStart(b: Byte) {
    !Tail(b)
  }

  // ---------------------------------------------------------------- the code

  /** None is the panic of slicing with a negative bound. */
  method TruncateUTF8(s: seq<Byte>, maxBytes: int) returns (r: Option<seq<Byte>>)
    ensures maxBytes >= |s| ==> r == Some(s)
    ensures 0 <= maxBytes < |s| ==> r == Some(s[..Cut(s, maxBytes)])
    ensures r == None <==> maxBytes < 0
  {
    if |s| <= maxBytes {
      return Some(s);
    }
    var cut := maxBytes;
    while cut > 0 && !RuneStart(s[cut])
      invariant cut <= maxBytes
      invariant 0 <= maxBytes ==> 0 <= cut && Cut(s, cut) == Cut(s, maxBytes)
      invariant maxBytes < 0 ==> cut < 0
    {
      cut := cut - 1;
    }
    if cut < 0 {
      return None;
    }
    r := Some(s[..cut]);
  }

  /** The last position up to n that is 0 or starts a rune. */
  function Cut(s: seq<Byte>, n: nat): (cut: nat)
    requires n < |s|
    ensures cut <= n
    ensures cut == 0 || RuneStart(s[cut])
    ensures forall i :: cut < i <= n ==> !RuneStart(s[i])
  {
    if n == 0 || RuneStart(s[n]) then n else Cut(s, n - 1)
  }

  // ---------------------------------------------------------------- what it means

  /** In valid UTF-8 the boundaries are the end and the bytes that start a rune. */
  lemma {:induction false} BoundaryIsRuneStart(s: seq<Byte>, i: nat)
    requires Valid(s) && i <= |s|
    ensures Boundary(s, i) <==> i == |s| || RuneStart(s[i])
    decreases |s|
  {
    if s != [] && i > 0 {
      var n := Length(s[0]);
      if n <= i {
        BoundaryIsRuneStart(s[n..], i - n);
      }
    }
  }

  /** A prefix of valid UTF-8 is valid exactly when it ends on a boundary. */
  lemma {:induction false} PrefixValid(s: seq<Byte>, i: nat)
    requires Valid(s) && i <= |s|
    ensures Valid(s[..i]) <==> Boundary(s, i)
    decreases |s|
  {
    if s != [] && i > 0 {
      var n := Length(s[0]);
      if n <= i {
        PrefixValid(s[n..], i - n);
        assert s[..i][n..] == s[n..][..i - n];
      }
    }
  }

  /** From any position a boundary is at most three bytes back. */
  lemma {:induction false} BoundaryNear(s: seq<Byte>, i: nat) returns (b: nat)
    requires Valid(s) && i <= |s|
    ensures b <= i && i - b <= 3 && Boundary(s, b)
    decreases |s|
  {
    b := 0;
    if s != [] {
      var n := Length(s[0]);
      if n <= i {
        b := BoundaryNear(s[n..], i - n);
        b := b + n;
      }
    }
  }

  /** For valid UTF-8 and every cap that cuts: the result is the longest prefix of at most maxBytes bytes that
      is valid UTF-8, which is the longest that ends between code points, and at most three bytes are lost
      below the cap. */
  lemma TruncationIsLongestValidPrefix(s: seq<Byte>, maxBytes: nat)
    requires Valid(s) && maxBytes < |s|
    ensures var cut := Cut(s, maxBytes);
            && Valid(s[..cut]) && Boundary(s, cut)
            && maxBytes - cut <= 3
            && forall i :: cut < i <= maxBytes ==> !Valid(s[..i]) && !Boundary(s, i)
  {
    var cut := Cut(s, maxBytes);
    BoundaryIsRuneStart(s, cut);
    PrefixValid(s, cut);
    var near := BoundaryNear(s, maxBytes);
    BoundaryIsRuneStart(s, near);
    forall i | cut < i <= maxBytes ensures !Valid(s[..i]) && !Boundary(s, i) {
      BoundaryIsRuneStart(s, i);
      PrefixValid(s, i);
    }
  }
}
