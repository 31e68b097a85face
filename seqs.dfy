/** Sequence helpers shared by the analyzers. */
module Seqs {

  predicate NoDuplicates<T(==)>(s: seq<T>) {
    forall i, j :: 0 <= i < j < |s| ==> s[i] != s[j]
  }

  /** `list(set(xs))`: every distinct element once. Python leaves the order open;
      this model keeps each element where it first occurs. */
  function Dedup<T(==,!new)>(s: seq<T>): (r: seq<T>)
    ensures NoDuplicates(r)
    ensures forall x :: x in r <==> x in s
    ensures |r| <= |s|
    decreases |s|
  {
    if s == [] then []
    else
      var d := Dedup(s[..|s| - 1]);
      assert s == s[..|s| - 1] + [s[|s| - 1]];
      if s[|s| - 1] in d then d else d + [s[|s| - 1]]
  }

  /** A sequence that already has no duplicates comes back unchanged. */
  lemma {:induction false} DedupOfDistinct<T(!new)>(s: seq<T>)
    requires NoDuplicates(s)
    ensures Dedup(s) == s
    decreases |s|
  {
    if s != [] {
      var p := s[..|s| - 1];
      assert NoDuplicates(p);
      DedupOfDistinct(p);
      assert s[|s| - 1] !in p by {
        forall i | 0 <= i < |p| ensures p[i] != s[|s| - 1] {
          assert p[i] == s[i];
        }
      }
      assert s == p + [s[|s| - 1]];
    }
  }

  lemma DedupOne<T(!new)>(a: T)
    ensures Dedup([a]) == [a]
  {
    DedupOfDistinct([a]);
  }

  lemma DedupTwo<T(!new)>(a: T, b: T)
    requires a != b
    ensures Dedup([a, b]) == [a, b]
  {
    DedupOfDistinct([a, b]);
  }

  /** Python's slice `s[:n]`. */
  function Take<T>(s: seq<T>, n: nat): (r: seq<T>)
    ensures |r| <= n && |r| <= |s|
    ensures |s| >= n ==> |r| == n
    ensures r == s[..|r|]
  {
    if |s| <= n then s else s[..n]
  }

  /** f applied to each element in turn. */
  function Map<A, B>(f: A --> B, xs: seq<A>): (ys: seq<B>)
    requires forall x :: x in xs ==> f.requires(x)
    ensures |ys| == |xs|
    decreases |xs|
  {
    if xs == [] then [] else Map(f, xs[..|xs| - 1]) + [f(xs[|xs| - 1])]
  }

  /** Element i of the mapped sequence is f of element i. */
  lemma {:induction false} MapAt<A, B>(f: A --> B, xs: seq<A>, i: nat)
    requires i < |xs| && forall x :: x in xs ==> f.requires(x)
    ensures Map(f, xs)[i] == f(xs[i])
    decreases |xs|
  {
    var n := |xs| - 1;
    if i < n {
      assert xs[..n][i] == xs[i];
      assert forall x :: x in xs[..n] ==> x in xs;
      MapAt(f, xs[..n], i);
    }
  }

  /** Mapping one more element appends its image. */
  lemma MapSnoc<A, B>(f: A --> B, xs: seq<A>, i: nat)
    requires i < |xs| && forall x :: x in xs ==> f.requires(x)
    ensures Map(f, xs[..i + 1]) == Map(f, xs[..i]) + [f(xs[i])]
  {
    assert xs[..i + 1][..i] == xs[..i];
    assert forall x :: x in xs[..i + 1] ==> x in xs;
  }

  /** Mapping a concatenation maps each part. */
  lemma MapAppend<A, B>(f: A --> B, a: seq<A>, b: seq<A>)
    requires forall x :: x in a + b ==> f.requires(x)
    ensures Map(f, a + b) == Map(f, a) + Map(f, b)
  {
    assert forall x :: x in a ==> x in a + b;
    assert forall x :: x in b ==> x in a + b;
    var l, r := Map(f, a + b), Map(f, a) + Map(f, b);
    forall i | 0 <= i < |l| ensures l[i] == r[i] {
      MapAt(f, a + b, i);
      if i < |a| {
        MapAt(f, a, i);
      } else {
        assert (a + b)[i] == b[i - |a|];
        MapAt(f, b, i - |a|);
      }
    }
  }
}
