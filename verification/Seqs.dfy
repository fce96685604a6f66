/** Splitting, rejoining and flat-mapping sequences. */
module Seqs {
  lemma SplitAt<T>(s: seq<T>, j: nat)
    requires j < |s|
    ensures s == s[..j] + ([s[j]] + s[j + 1..])
    ensures s[..j + 1] == s[..j] + [s[j]]
  {
  }

  lemma Assoc<T>(a: seq<T>, b: seq<T>, c: seq<T>)
    ensures a + (b + c) == a + b + c
  {
  }

  lemma PartsOfSum<T>(a: seq<T>, b: seq<T>)
    ensures (a + b)[..|a|] == a && (a + b)[|a|..] == b && |a + b| == |a| + |b|
  {
  }

  lemma Adjoining<T>(s: seq<T>, a: nat, b: nat, c: nat)
    requires a <= b <= c <= |s|
    ensures s[a..c] == s[a..b] + s[b..c]
  {
  }

  lemma SliceWithin<T>(a: seq<T>, rest: seq<T>, from: nat, n: nat)
    requires from + n <= |a|
    ensures var f := a + rest;
            f[from..][..n] == a[from..from + n] && f[from..] == f[from..][..n] + f[from + n..]
  {
  }

  lemma SliceAcross<T>(a: seq<T>, b: seq<T>, rest: seq<T>, from: nat, m: nat)
    requires from <= |a| && m <= |b|
    ensures var tail := b + rest;
            var f, n := a + tail, |a| - from + m;
            f[from..][..n] == a[from..] + b[..m] && f[from..] == f[from..][..n] + tail[m..]
  {
    var tail := b + rest;
    var f, n := a + tail, |a| - from + m;
    assert f[from..] == a[from..] + tail;
    assert tail[..m] == b[..m];
  }

  /** A replaced element leaves what is before and behind it alone. */
  lemma ReplaceAt<T>(s: seq<T>, j: nat, x: T)
    requires j < |s|
    ensures var r := s[..j] + [x] + s[j + 1..];
            |r| == |s| && r[j] == x && r[..j] == s[..j] && r[j + 1..] == s[j + 1..]
  {
  }

  /** Positions of the tail of a sequence. */
  lemma TailAt<T>(s: seq<T>, j: nat)
    requires 0 < j < |s|
    ensures s[1..][j - 1] == s[j]
    ensures s[..j] == [s[0]] + s[1..][..j - 1] && s[1..][j..] == s[j + 1..]
  {
  }

  /** The images of all elements, concatenated. */
  function FlatMap<A, B>(f: A -> seq<B>, s: seq<A>): seq<B> {
    if s == [] then [] else f(s[0]) + FlatMap(f, s[1..])
  }

  lemma FlatMapOne<A, B>(f: A -> seq<B>, x: A)
    ensures FlatMap(f, [x]) == f(x)
  {
    assert [x][1..] == [];
  }

  lemma {:induction false} FlatMapAppend<A, B>(f: A -> seq<B>, s: seq<A>, t: seq<A>)
    ensures FlatMap(f, s + t) == FlatMap(f, s) + FlatMap(f, t)
  {
    if s == [] {
      assert s + t == t;
    } else {
      assert (s + t)[1..] == s[1..] + t;
      FlatMapAppend(f, s[1..], t);
    }
  }

  /** The image of element `j` among the others. */
  lemma FlatMapSplit<A, B>(f: A -> seq<B>, s: seq<A>, j: nat)
    requires j < |s|
    ensures FlatMap(f, s) == FlatMap(f, s[..j]) + (f(s[j]) + FlatMap(f, s[j + 1..]))
    ensures FlatMap(f, s[..j + 1]) == FlatMap(f, s[..j]) + f(s[j])
  {
    SplitAt(s, j);
    FlatMapAppend(f, s[..j], [s[j]] + s[j + 1..]);
    FlatMapAppend(f, [s[j]], s[j + 1..]);
    FlatMapAppend(f, s[..j], [s[j]]);
    FlatMapOne(f, s[j]);
  }

  /** The image of a sequence with element `j` replaced. */
  lemma FlatMapReplace<A, B>(f: A -> seq<B>, s: seq<A>, j: nat, x: A)
    requires j < |s|
    ensures FlatMap(f, s[..j] + [x] + s[j + 1..]) == FlatMap(f, s[..j]) + f(x) + FlatMap(f, s[j + 1..])
  {
    FlatMapAppend(f, s[..j] + [x], s[j + 1..]);
    FlatMapAppend(f, s[..j], [x]);
    FlatMapOne(f, x);
  }
}
