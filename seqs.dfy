/** Sequence helpers shared by the table, scoring and report modules. */
module Seqs {

  /** The least of two naturals. */
  function Min(a: nat, b: nat): nat {
    if a <= b then a else b
  }

  /** No element occurs twice. */
  predicate Distinct<T(==)>(s: seq<T>) {
    forall i, j :: 0 <= i < j < |s| ==> s[i] != s[j]
  }

  /** Dropping the head of a duplicate-free sequence leaves a duplicate-free
      sequence without the head. */
  lemma DistinctTail<T>(s: seq<T>)
    requires s != [] && Distinct(s)
    ensures Distinct(s[1..]) && s[0] !in s[1..]
  {
    var rest := s[1..];
    forall i, j | 0 <= i < j < |rest| ensures rest[i] != rest[j] {
      assert rest[i] == s[i + 1] && rest[j] == s[j + 1];
    }
    forall k | 0 <= k < |rest| ensures rest[k] != s[0] {
      assert rest[k] == s[k + 1];
    }
  }

  /** The elements of a sequence, as a set. */
  function Elems<T>(s: seq<T>): set<T> {
    set x | x in s
  }

  /** A sequence has at least as many positions as distinct elements. */
  lemma {:induction false} ElemsCard<T>(s: seq<T>)
    ensures |Elems(s)| <= |s|
  {
    if s != [] {
      ElemsCard(s[1..]);
      assert Elems(s) == {s[0]} + Elems(s[1..]);
    }
  }

  /** A duplicate-free sequence has exactly as many elements as positions. */
  lemma {:induction false} DistinctCard<T>(s: seq<T>)
    requires Distinct(s)
    ensures |Elems(s)| == |s|
  {
    if s != [] {
      DistinctTail(s);
      DistinctCard(s[1..]);
      assert Elems(s) == {s[0]} + Elems(s[1..]);
    }
  }

  lemma SubsetCard<T>(a: set<T>, b: set<T>)
    requires a <= b
    ensures |a| <= |b|
  {
    assert b == a + (b - a);
  }

  /** Python's slice `s[lo:hi]` for non-negative bounds: both bounds are
      clamped to the length, and a slice running backwards is empty. */
  function Slice<T>(s: seq<T>, lo: nat, hi: nat): (r: seq<T>)
    ensures lo <= hi <= |s| ==> r == s[lo..hi]
    ensures lo <= |s| <= hi ==> r == s[lo..]
    ensures |s| <= lo ==> r == []
    ensures |r| == if lo <= hi && lo <= |s| then Min(hi, |s|) - lo else 0
  {
    var a := Min(lo, |s|);
    var b := Min(hi, |s|);
    if a <= b then s[a..b] else []
  }

  /** Number of occurrences of `v` in `s` (pandas `(s == v).sum()`). */
  function Count<T(==)>(s: seq<T>, v: T): (n: nat)
    ensures n <= |s|
    ensures v !in s ==> n == 0
  {
    if s == [] then 0
    else Count(s[..|s| - 1], v) + (if s[|s| - 1] == v then 1 else 0)
  }

  /** Applies `f` to every element, keeping the order. */
  function Apply<A, B>(xs: seq<A>, f: A -> B): (r: seq<B>)
    ensures |r| == |xs|
    ensures forall i :: 0 <= i < |xs| ==> r[i] == f(xs[i])
  {
    seq(|xs|, i requires 0 <= i < |xs| => f(xs[i]))
  }

  /** The concatenation of a sequence of sequences. */
  function Flatten<T>(ss: seq<seq<T>>): seq<T> {
    if ss == [] then [] else ss[0] + Flatten(ss[1..])
  }

  /** The lengths of a sequence of sequences. */
  function Lengths<T>(ss: seq<seq<T>>): (r: seq<nat>)
    ensures |r| == |ss|
    ensures forall i :: 0 <= i < |ss| ==> r[i] == |ss[i]|
  {
    seq(|ss|, i requires 0 <= i < |ss| => |ss[i]|)
  }

  /** Two different values occur at most `|s|` times together, and exactly
      `|s|` times when every element is one of them. */
  lemma {:induction false} CountTwoValues<T>(s: seq<T>, a: T, b: T)
    requires a != b
    ensures Count(s, a) + Count(s, b) <= |s|
    ensures (forall i :: 0 <= i < |s| ==> s[i] == a || s[i] == b) ==> Count(s, a) + Count(s, b) == |s|
  {
    if s != [] {
      var init := s[..|s| - 1];
      assert forall i :: 0 <= i < |init| ==> init[i] == s[i];
      CountTwoValues(init, a, b);
    }
  }

  /** Counting commutes with an injective relabelling of the elements. */
  lemma {:induction false} CountApply<A, B>(xs: seq<A>, f: A -> B, v: A)
    requires forall x :: f(x) == f(v) ==> x == v
    ensures Count(Apply(xs, f), f(v)) == Count(xs, v)
  {
    if xs != [] {
      var n := |xs| - 1;
      assert Apply(xs, f)[..n] == Apply(xs[..n], f);
      CountApply(xs[..n], f, v);
    }
  }

  /** The sum of a sequence of reals, added left to right. */
  function Sum(s: seq<real>): real {
    if s == [] then 0.0 else Sum(s[..|s| - 1]) + s[|s| - 1]
  }

  /** Values in [0, 1] sum to between 0 and their number. */
  lemma {:induction false} SumBounds(s: seq<real>)
    requires forall i :: 0 <= i < |s| ==> 0.0 <= s[i] <= 1.0
    ensures 0.0 <= Sum(s) <= |s| as real
  {
    if s != [] {
      SumBounds(s[..|s| - 1]);
    }
  }

  /** Moving the next piece from the remainder onto the accumulator keeps
      their concatenation. */
  lemma AppendStep<T>(acc: seq<T>, piece: seq<T>, rest: seq<T>, whole: seq<T>)
    requires acc + (piece + rest) == whole
    ensures (acc + piece) + rest == whole
  {
  }

  lemma MulSucc(b: nat, n: nat)
    ensures b * (n + 1) == b + b * n
  {
  }

  /** Concatenating `|ss|` pieces of `b` elements each gives `b * |ss|`
      elements. */
  lemma {:induction false} FlattenUniform<T>(ss: seq<seq<T>>, b: nat)
    requires forall c :: 0 <= c < |ss| ==> |ss[c]| == b
    ensures |Flatten(ss)| == b * |ss|
  {
    if ss != [] {
      FlattenUniform(ss[1..], b);
      MulSucc(b, |ss| - 1);
    }
  }

  /** Position `|a| + x` of `a + r` is position `x` of `r`. */
  lemma ConcatShift<T>(a: seq<T>, r: seq<T>, x: nat)
    requires x < |r|
    ensures |a| + x < |a + r| && (a + r)[|a| + x] == r[x]
  {
  }

  /** In a concatenation of pieces of `b` elements each, element `k` of piece
      `c` sits at position `c * b + k`. */
  lemma {:induction false} FlattenAt<T>(ss: seq<seq<T>>, b: nat, c: nat, k: nat)
    requires forall i :: 0 <= i < |ss| ==> |ss[i]| == b
    requires c < |ss| && k < b
    ensures c * b + k < |Flatten(ss)|
    ensures Flatten(ss)[c * b + k] == ss[c][k]
  {
    var tail := ss[1..];
    var at := c * b + k;
    assert Flatten(ss) == ss[0] + Flatten(tail);
    if c == 0 {
      assert at == k;
    } else {
      var x := (c - 1) * b + k;
      assert at == b + x by {
        MulSucc(b, c - 1);
      }
      assert x < |Flatten(tail)| && Flatten(tail)[x] == ss[c][k] by {
        assert forall i :: 0 <= i < |tail| ==> |tail[i]| == b;
        FlattenAt(tail, b, c - 1, k);
        assert tail[c - 1] == ss[c];
      }
      ConcatShift(ss[0], Flatten(tail), x);
    }
  }
}
