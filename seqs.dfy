/** Sequence helpers: duplicate-freedom and the order-preserving de-duplication the source writes as `if x not in xs: xs.append(x)`. */
module Seqs {
  import opened Wrappers

  predicate NoDup<T(==, !new)>(s: seq<T>) {
    forall i, j :: 0 <= i < j < |s| ==> s[i] != s[j]
  }

  /** `xs.append(x)` guarded by `if x not in xs`. */
  function AppendNew<T(==, !new)>(xs: seq<T>, x: T): (r: seq<T>)
    ensures NoDup(xs) ==> NoDup(r)
    ensures forall y :: y in r <==> y in xs || y == x
  {
    if x in xs then xs else xs + [x]
  }

  /** The keys a loop has visited, one step further: `before + ks[..j + 1]` is one key longer. */
  lemma PrefixStep<T>(before: seq<T>, ks: seq<T>, j: int)
    requires 0 <= j < |ks|
    ensures before + ks[..j + 1] == (before + ks[..j]) + [ks[j]]
    ensures ks[..j + 1] == ks[..j] + [ks[j]]
  {
  }

  /** The distinct elements of `s` in order of first appearance. */
  function Dedup<T(==, !new)>(s: seq<T>): (r: seq<T>)
    ensures NoDup(r)
    ensures forall x :: x in r <==> x in s
    ensures |r| <= |s|
  {
    if |s| == 0 then [] else AppendNew(Dedup(s[..|s| - 1]), s[|s| - 1])
  }

  /** A duplicate-free sequence has as many elements as its set. */
  lemma {:induction false} NoDupCardinality<T(!new)>(s: seq<T>)
    requires NoDup(s)
    ensures |set x | x in s| == |s|
  {
    if |s| > 0 {
      var p := s[..|s| - 1];
      NoDupCardinality(p);
      assert (set x | x in s) == (set x | x in p) + {s[|s| - 1]};
      assert s[|s| - 1] !in p;
    }
  }

  /** One row of a cross product: `x` paired with every element of `ys`, in order. */
  function Row<A, B, C>(x: A, ys: seq<B>, f: (A, B) -> C): (r: seq<C>)
    ensures |r| == |ys|
    ensures forall j :: 0 <= j < |ys| ==> r[j] == f(x, ys[j])
  {
    if |ys| == 0 then [] else Row(x, ys[..|ys| - 1], f) + [f(x, ys[|ys| - 1])]
  }

  /** The cross product of two nested loops, outer loop over `xs`: the rows laid end to end. */
  function Grid<A, B, C>(xs: seq<A>, ys: seq<B>, f: (A, B) -> C): seq<C> {
    if |xs| == 0 then [] else Grid(xs[..|xs| - 1], ys, f) + Row(xs[|xs| - 1], ys, f)
  }

  /** `i * m`, by repeated addition, so that grid proofs stay linear. */
  function Offset(i: nat, m: nat): nat {
    if i == 0 then 0 else Offset(i - 1, m) + m
  }

  lemma {:induction false} OffsetMonotone(i: nat, n: nat, m: nat)
    requires i < n
    ensures Offset(i, m) + m <= Offset(n, m)
    decreases n - i
  {
    if i + 1 < n {
      OffsetMonotone(i + 1, n, m);
    }
  }

  lemma {:induction false} GridLen<A, B, C>(xs: seq<A>, ys: seq<B>, f: (A, B) -> C)
    ensures |Grid(xs, ys, f)| == Offset(|xs|, |ys|)
  {
    if |xs| > 0 {
      GridLen(xs[..|xs| - 1], ys, f);
    }
  }

  /** Cell `(i, j)` of the grid exists and is `f(xs[i], ys[j])`. */
  lemma {:induction false} GridCell<A, B, C>(xs: seq<A>, ys: seq<B>, f: (A, B) -> C, i: nat, j: nat)
    requires i < |xs| && j < |ys|
    ensures Offset(i, |ys|) + j < |Grid(xs, ys, f)| && Grid(xs, ys, f)[Offset(i, |ys|) + j] == f(xs[i], ys[j])
    decreases |xs|
  {
    var p := xs[..|xs| - 1];
    GridLen(p, ys, f);
    var g := Grid(p, ys, f);
    var r := Row(xs[|xs| - 1], ys, f);
    assert Grid(xs, ys, f) == g + r;
    if i < |p| {
      GridCell(p, ys, f, i, j);
      OffsetMonotone(i, |p|, |ys|);
      assert xs[i] == p[i];
    } else {
      assert Offset(i, |ys|) == |g|;
    }
  }

  lemma {:induction false} OffsetIsProduct(i: nat, m: nat)
    ensures Offset(i, m) == i * m
  {
    if i > 0 {
      OffsetIsProduct(i - 1, m);
      assert i * m == (i - 1) * m + m;
    }
  }

  /** The grid holds exactly the values `f(x, y)` for `x` in `xs` and `y` in `ys`. */
  lemma GridMember<A, B, C>(xs: seq<A>, ys: seq<B>, f: (A, B) -> C)
    ensures forall z :: z in Grid(xs, ys, f) <==> exists i, j :: 0 <= i < |xs| && 0 <= j < |ys| && z == f(xs[i], ys[j])
  {
    forall z | z in Grid(xs, ys, f)
      ensures exists i, j :: 0 <= i < |xs| && 0 <= j < |ys| && z == f(xs[i], ys[j])
    {
      var k :| 0 <= k < |Grid(xs, ys, f)| && Grid(xs, ys, f)[k] == z;
      GridIndex(xs, ys, f, k);
    }
    forall z | exists i, j :: 0 <= i < |xs| && 0 <= j < |ys| && z == f(xs[i], ys[j])
      ensures z in Grid(xs, ys, f)
    {
      var i, j :| 0 <= i < |xs| && 0 <= j < |ys| && z == f(xs[i], ys[j]);
      GridCell(xs, ys, f, i, j);
    }
  }

  /** Every cell of the grid is `f(xs[i], ys[j])` for some pair of positions. */
  lemma {:induction false} GridIndex<A, B, C>(xs: seq<A>, ys: seq<B>, f: (A, B) -> C, k: nat)
    requires k < |Grid(xs, ys, f)|
    ensures exists i, j :: 0 <= i < |xs| && 0 <= j < |ys| && Grid(xs, ys, f)[k] == f(xs[i], ys[j])
    decreases |xs|
  {
    var p := xs[..|xs| - 1];
    var g := Grid(p, ys, f);
    assert Grid(xs, ys, f) == g + Row(xs[|xs| - 1], ys, f);
    if k < |g| {
      GridIndex(p, ys, f, k);
      var i, j :| 0 <= i < |p| && 0 <= j < |ys| && g[k] == f(p[i], ys[j]);
      assert p[i] == xs[i];
    } else {
      assert Grid(xs, ys, f)[k] == f(xs[|xs| - 1], ys[k - |g|]);
    }
  }

  /** The values of the successful attempts among the first `n`, in order: a loop that skips the failures. */
  function Oks<T>(rs: seq<Result<T>>, n: nat): seq<T>
    requires n <= |rs|
  {
    if n == 0 then [] else Oks(rs, n - 1) + (if rs[n - 1].Ok? then [rs[n - 1].value] else [])
  }

  /** The positions of the successful attempts among the first `n`. */
  function OkPositions<T>(rs: seq<Result<T>>, n: nat): seq<nat>
    requires n <= |rs|
  {
    if n == 0 then [] else OkPositions(rs, n - 1) + (if rs[n - 1].Ok? then [n - 1] else [])
  }

  /** The k-th kept value comes from the k-th successful position. */
  lemma {:induction false} OksAt<T>(rs: seq<Result<T>>, n: nat)
    requires n <= |rs|
    ensures |OkPositions(rs, n)| == |Oks(rs, n)| <= n
    ensures forall k :: 0 <= k < |OkPositions(rs, n)| ==> OkPositions(rs, n)[k] < n && rs[OkPositions(rs, n)[k]] == Ok(Oks(rs, n)[k])
  {
    if n > 0 {
      OksAt(rs, n - 1);
    }
  }

  /** The successful positions strictly increase. */
  lemma {:induction false} OkPositionsOrdered<T>(rs: seq<Result<T>>, n: nat)
    requires n <= |rs|
    ensures forall k :: 0 <= k < |OkPositions(rs, n)| ==> OkPositions(rs, n)[k] < n
    ensures forall k, l :: 0 <= k < l < |OkPositions(rs, n)| ==> OkPositions(rs, n)[k] < OkPositions(rs, n)[l]
  {
    if n > 0 {
      OkPositionsOrdered(rs, n - 1);
    }
  }

  /** A position is kept exactly when its attempt succeeded. */
  lemma {:induction false} OkPositionsExact<T>(rs: seq<Result<T>>, n: nat)
    requires n <= |rs|
    ensures forall i :: 0 <= i < n ==> (rs[i].Ok? <==> i in OkPositions(rs, n))
  {
    if n > 0 {
      OkPositionsExact(rs, n - 1);
      OkPositionsOrdered(rs, n - 1);
      var prev := OkPositions(rs, n - 1);
      assert n - 1 !in prev;
      if rs[n - 1].Ok? {
        assert OkPositions(rs, n) == prev + [n - 1];
      } else {
        assert OkPositions(rs, n) == prev;
      }
    }
  }
}
