/** Concatenation of a sequence of pieces. */
module Concat {
  function Join<T>(parts: seq<seq<T>>): seq<T> {
    if parts == [] then [] else Join(parts[..|parts| - 1]) + parts[|parts| - 1]
  }

  lemma AppendAssoc<T>(x: seq<T>, y: seq<T>, z: seq<T>)
    ensures x + y + z == x + (y + z)
  {
  }

  /** A piece of a slice is a slice at the shifted position. */
  lemma SubSlice<T>(b: seq<T>, lo: nat, hi: nat, i: nat, j: nat)
    requires lo <= hi <= |b| && i <= j <= hi - lo
    ensures b[lo..hi][i..j] == b[lo + i..lo + j]
  {
    assert b[lo..hi] == b[lo..][..hi - lo];
    assert b[lo + i..lo + j] == b[lo..][i..j];
  }

  lemma FourParts<T>(x: seq<T>, y: seq<T>, z: seq<T>, w: seq<T>)
    ensures var e := x + y + z + w;
            && e[..|x|] == x
            && e[|x|..|x| + |y|] == y
            && e[|x| + |y|..|x| + |y| + |z|] == z
            && e[|x| + |y| + |z|..] == w
  {
  }

  lemma {:induction false} JoinAppend<T>(a: seq<seq<T>>, b: seq<seq<T>>)
    ensures Join(a + b) == Join(a) + Join(b)
  {
    if b == [] {
      assert a + b == a;
    } else {
      var n := |b| - 1;
      var ab := a + b;
      assert ab[..|ab| - 1] == a + b[..n];
      JoinAppend(a, b[..n]);
      AppendAssoc(Join(a), Join(b[..n]), b[n]);
    }
  }

  lemma JoinSnoc<T>(a: seq<seq<T>>, x: seq<T>)
    ensures Join(a + [x]) == Join(a) + x
  {
    assert (a + [x])[..|a|] == a;
  }

  /** Piece `i` lies right after the pieces before it. */
  lemma {:induction false} PartAt<T>(parts: seq<seq<T>>, i: nat)
    requires i < |parts|
    ensures |Join(parts[..i])| + |parts[i]| <= |Join(parts)|
    ensures Join(parts)[|Join(parts[..i])|..|Join(parts[..i])| + |parts[i]|] == parts[i]
  {
    assert parts == parts[..i] + [parts[i]] + parts[i + 1..];
    JoinAppend(parts[..i] + [parts[i]], parts[i + 1..]);
    JoinSnoc(parts[..i], parts[i]);
  }

  lemma PrefixJoins<T>(a: seq<T>, b: seq<T>, c: seq<T>)
    requires a <= b && b <= c
    ensures a <= c
  {
  }

  /** With a sum of pieces every shorter sum is a prefix. */
  lemma Prefixes<T>(goal: seq<T>, a: seq<T>, b: seq<T>, c: seq<T>, d: seq<T>, e: seq<T>)
    requires a + b + c + d + e <= goal
    ensures a <= goal && a + b <= goal && a + b + c <= goal && a + b + c + d <= goal
  {
    PrefixJoins(a + b + c + d, a + b + c + d + e, goal);
    PrefixJoins(a + b + c, a + b + c + d, goal);
    PrefixJoins(a + b, a + b + c, goal);
    PrefixJoins(a, a + b, goal);
  }

  lemma LongerPrefix<T>(x: seq<T>, y: seq<T>, z: seq<T>)
    requires y <= z
    ensures x <= x + y <= x + z
  {
  }
}
