/** Shared vocabulary: bytes, options, sequence splicing and the few facts about
    multiplication and division that chunked buffers and positional codes need. */
module Basics {

  type byte = x: int | 0 <= x < 256

  datatype Option<+T> = None | Some(value: T)

  function Min(a: int, b: int): int { if a <= b then a else b }

  function Max(a: int, b: int): int { if a >= b then a else b }

  /** `s` with the elements from `p` on replaced, one after the other, by those of `d`. */
  function Splice<T>(s: seq<T>, p: nat, d: seq<T>): (r: seq<T>)
    requires p + |d| <= |s|
    ensures |r| == |s|
    decreases |d|
  {
    if d == [] then s else Splice(s[p := d[0]], p + 1, d[1..])
  }

  /** A splice keeps the two ends and puts `d` between them. */
  lemma {:induction false} SpliceIs<T>(s: seq<T>, p: nat, d: seq<T>)
    requires p + |d| <= |s|
    ensures Splice(s, p, d) == s[..p] + d + s[p + |d|..]
    decreases |d|
  {
    if d != [] {
      SpliceIs(s[p := d[0]], p + 1, d[1..]);
    }
  }

  /** Splicing a prefix and then more of the same data is splicing the longer prefix. */
  lemma SpliceExtend<T>(s: seq<T>, p: nat, d: seq<T>, b: nat, n: nat)
    requires p + |d| <= |s| && b + n <= |d|
    ensures Splice(Splice(s, p, d[..b]), p + b, d[b..b + n]) == Splice(s, p, d[..b + n])
  {
    SpliceIs(s, p, d[..b]);
    SpliceIs(Splice(s, p, d[..b]), p + b, d[b..b + n]);
    SpliceIs(s, p, d[..b + n]);
  }

  lemma SpliceSplit<T>(s: seq<T>, p: nat, d: seq<T>, n: nat)
    requires p + |d| <= |s| && n <= |d|
    ensures Splice(Splice(s, p, d[..n]), p + n, d[n..]) == Splice(s, p, d)
  {
    SpliceExtend(s, p, d, n, |d| - n);
    assert d[..n + (|d| - n)] == d;
  }

  lemma {:induction false} SpliceLeft<T>(s: seq<T>, t: seq<T>, p: nat, d: seq<T>)
    requires p + |d| <= |s|
    ensures Splice(s + t, p, d) == Splice(s, p, d) + t
    decreases |d|
  {
    if d != [] {
      assert (s + t)[p := d[0]] == s[p := d[0]] + t;
      SpliceLeft(s[p := d[0]], t, p + 1, d[1..]);
    }
  }

  lemma {:induction false} SpliceRight<T>(s: seq<T>, t: seq<T>, p: nat, d: seq<T>)
    requires p + |d| <= |t|
    ensures Splice(s + t, |s| + p, d) == s + Splice(t, p, d)
    decreases |d|
  {
    if d != [] {
      assert (s + t)[|s| + p := d[0]] == s + t[p := d[0]];
      SpliceRight(s, t[p := d[0]], p + 1, d[1..]);
    }
  }

  lemma SliceJoin<T>(s: seq<T>, a: nat, b: nat, c: nat)
    requires a <= b <= c <= |s|
    ensures s[a..b] + s[b..c] == s[a..c]
  {
  }

  lemma SliceOfPrefix<T>(s: seq<T>, n: nat, a: nat, b: nat)
    requires a <= b <= n <= |s|
    ensures s[..n][a..b] == s[a..b]
  {
  }

  lemma SuffixSplit<T>(s: seq<T>, a: nat, n: nat)
    requires a + n <= |s|
    ensures s[a..][..n] == s[a..a + n] && s[a..][n..] == s[a + n..]
  {
  }

  lemma MulMono(i: int, j: int, b: nat)
    requires i <= j
    ensures i * b <= j * b
  {
  }

  lemma MulNext(i: int, b: int)
    ensures (i + 1) * b == i * b + b
  {
  }

  /** Quotient and remainder are determined by the equation they satisfy. */
  lemma DivModUnique(p: int, b: int, i: int, r: int)
    requires b > 0 && 0 <= r < b && p == i * b + r
    ensures p / b == i && p % b == r
  {
    var d := p / b - i;
    assert p == (p / b) * b + p % b;
    assert d * b == r - p % b by {
      assert d * b == (p / b) * b - i * b;
    }
    if d > 0 {
      MulMono(1, d, b);
    } else if d < 0 {
      MulMono(d, -1, b);
    }
  }
}
