/** Generic list operations used by the model: `Array.prototype.filter`,
    flattening (string and array concatenation) and order-preserving
    sub-sequences. */
module Lists {

  /** `xs.filter(p)`: the elements of `xs` that satisfy `p`, in order. */
  function Filter<T(!new)>(xs: seq<T>, p: T -> bool): (r: seq<T>)
    ensures |r| <= |xs|
    ensures forall i :: 0 <= i < |r| ==> p(r[i])
    ensures forall x :: p(x) ==> multiset(r)[x] == multiset(xs)[x]
    ensures forall x :: !p(x) ==> multiset(r)[x] == 0
  {
    if xs == [] then []
    else
      var rest := Filter(xs[1..], p);
      assert xs == [xs[0]] + xs[1..];
      if p(xs[0]) then [xs[0]] + rest else rest
  }

  /** `ys` can be obtained from `xs` by deleting elements: the order of what
      is kept is the order of `xs`. */
  predicate IsSubsequence<T(==)>(ys: seq<T>, xs: seq<T>)
    decreases |xs|
  {
    if ys == [] then true
    else if xs == [] then false
    else if ys[0] == xs[0] then IsSubsequence(ys[1..], xs[1..])
    else IsSubsequence(ys, xs[1..])
  }

  lemma {:induction false} FilterIsSubsequence<T(!new)>(xs: seq<T>, p: T -> bool)
    ensures IsSubsequence(Filter(xs, p), xs)
  {
    if xs != [] {
      FilterIsSubsequence(xs[1..], p);
      if !p(xs[0]) {
        SubsequenceOfTail(Filter(xs[1..], p), xs);
      }
    }
  }

  lemma {:induction false} SubsequenceOfTail<T>(ys: seq<T>, xs: seq<T>)
    requires xs != []
    requires IsSubsequence(ys, xs[1..])
    ensures IsSubsequence(ys, xs)
    decreases |xs|, 0
  {
    if ys != [] && ys[0] == xs[0] {
      // ys[1..] is a subsequence of xs[1..] because ys is
      SubsequenceDropHead(ys, xs[1..]);
    }
  }

  lemma {:induction false} SubsequenceDropHead<T>(ys: seq<T>, xs: seq<T>)
    requires ys != []
    requires IsSubsequence(ys, xs)
    ensures IsSubsequence(ys[1..], xs)
    decreases |xs|, 1
  {
    if xs != [] {
      if ys[0] == xs[0] {
        if ys[1..] != [] {
          SubsequenceOfTail(ys[1..], xs);
        }
      } else {
        SubsequenceDropHead(ys, xs[1..]);
        if ys[1..] != [] {
          SubsequenceOfTail(ys[1..], xs);
        }
      }
    }
  }

  /** Filtering by a predicate every element already satisfies changes nothing. */
  lemma {:induction false} FilterKeepsAll<T(!new)>(xs: seq<T>, p: T -> bool)
    requires forall i :: 0 <= i < |xs| ==> p(xs[i])
    ensures Filter(xs, p) == xs
  {
    if xs != [] {
      FilterKeepsAll(xs[1..], p);
    }
  }

  /** A filter keeps something exactly when some element passes it. */
  lemma {:induction false} FilterNonEmpty<T(!new)>(xs: seq<T>, p: T -> bool)
    ensures Filter(xs, p) != [] <==> exists i :: 0 <= i < |xs| && p(xs[i])
  {
    if xs != [] {
      FilterNonEmpty(xs[1..], p);
      if exists i :: 0 <= i < |xs[1..]| && p(xs[1..][i]) {
        var i :| 0 <= i < |xs[1..]| && p(xs[1..][i]);
        assert p(xs[i + 1]);
      }
      if exists i :: 0 <= i < |xs| && p(xs[i]) {
        var i :| 0 <= i < |xs| && p(xs[i]);
        if i > 0 {
          assert p(xs[1..][i - 1]);
        }
      }
    }
  }

  /** Filtering twice by the same predicate is filtering once. */
  lemma FilterIdempotent<T(!new)>(xs: seq<T>, p: T -> bool)
    ensures Filter(Filter(xs, p), p) == Filter(xs, p)
  {
    FilterKeepsAll(Filter(xs, p), p);
  }

  /** Filtering distributes over concatenation. */
  lemma {:induction false} FilterAppend<T(!new)>(xs: seq<T>, ys: seq<T>, p: T -> bool)
    ensures Filter(xs + ys, p) == Filter(xs, p) + Filter(ys, p)
  {
    if xs == [] {
      assert xs + ys == ys;
    } else {
      assert (xs + ys)[1..] == xs[1..] + ys;
      FilterAppend(xs[1..], ys, p);
    }
  }

  /** Concatenation of a sequence of sequences (`a + b + ...`, `[...a, ...b]`). */
  function Flatten<T>(xss: seq<seq<T>>): (r: seq<T>)
  {
    if xss == [] then [] else xss[0] + Flatten(xss[1..])
  }

  lemma {:induction false} FlattenAppend<T>(xss: seq<seq<T>>, yss: seq<seq<T>>)
    ensures Flatten(xss + yss) == Flatten(xss) + Flatten(yss)
  {
    if xss == [] {
      assert xss + yss == yss;
    } else {
      assert (xss + yss)[1..] == xss[1..] + yss;
      FlattenAppend(xss[1..], yss);
    }
  }

  lemma FlattenSnoc<T>(xss: seq<seq<T>>, ys: seq<T>)
    ensures Flatten(xss + [ys]) == Flatten(xss) + ys
  {
    FlattenAppend(xss, [ys]);
    assert Flatten([ys]) == ys + Flatten([ys][1..]);
  }

  /** Every element of a flattened sequence comes from one of its parts. */
  lemma {:induction false} FlattenMember<T>(xss: seq<seq<T>>, k: nat)
    requires k < |Flatten(xss)|
    ensures exists i, j :: 0 <= i < |xss| && 0 <= j < |xss[i]| && xss[i][j] == Flatten(xss)[k]
  {
    if k < |xss[0]| {
      assert xss[0][k] == Flatten(xss)[k];
    } else {
      FlattenMember(xss[1..], k - |xss[0]|);
      var i, j :| 0 <= i < |xss[1..]| && 0 <= j < |xss[1..][i]| && xss[1..][i][j] == Flatten(xss[1..])[k - |xss[0]|];
      assert xss[i + 1][j] == Flatten(xss)[k];
    }
  }

  /** The parts of a sequence, in order, each lie inside its flattening. */
  lemma {:induction false} FlattenContains<T>(xss: seq<seq<T>>, i: nat, j: nat)
    requires i < |xss| && j < |xss[i]|
    ensures exists k :: 0 <= k < |Flatten(xss)| && Flatten(xss)[k] == xss[i][j]
  {
    if i == 0 {
      assert Flatten(xss)[j] == xss[0][j];
    } else {
      FlattenContains(xss[1..], i - 1, j);
      var k :| 0 <= k < |Flatten(xss[1..])| && Flatten(xss[1..])[k] == xss[1..][i - 1][j];
      assert Flatten(xss)[|xss[0]| + k] == xss[i][j];
    }
  }
  /** No element occurs twice. */
  predicate Distinct<T(==)>(xs: seq<T>)
  {
    forall i, j :: 0 <= i < j < |xs| ==> xs[i] != xs[j]
  }

  /** A sequence is free of duplicates exactly when it holds every value at
      most once, so distinctness depends only on the multiset. */
  lemma {:induction false} DistinctCounts<T>(xs: seq<T>)
    ensures Distinct(xs) <==> forall x :: multiset(xs)[x] <= 1
  {
    if xs != [] {
      var t := xs[1..];
      assert xs == [xs[0]] + t;
      DistinctCounts(t);
      if Distinct(xs) {
        assert Distinct(t) by {
          forall i, j | 0 <= i < j < |t| ensures t[i] != t[j] {
            assert t[i] == xs[i + 1] && t[j] == xs[j + 1];
          }
        }
        assert xs[0] !in t by {
          forall k | 0 <= k < |t| ensures t[k] != xs[0] {
            assert t[k] == xs[k + 1];
          }
        }
      }
      if forall x :: multiset(xs)[x] <= 1 {
        forall x ensures multiset(t)[x] <= 1 {
          assert multiset(xs)[x] == multiset(t)[x] + multiset([xs[0]])[x];
        }
        assert multiset(xs)[xs[0]] == multiset(t)[xs[0]] + 1;
        forall i, j | 0 <= i < j < |xs| ensures xs[i] != xs[j] {
          if i == 0 {
            assert xs[j] == t[j - 1];
            assert xs[j] in multiset(t);
          } else {
            assert xs[i] == t[i - 1] && xs[j] == t[j - 1];
          }
        }
      }
    }
  }
}
