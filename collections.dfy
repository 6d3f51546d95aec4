/**
 * The Python building blocks the profiler and the retriever assemble their dictionaries from:
 * `collections.Counter` and its `most_common`, `defaultdict(list)` filled by appending,
 * plain `d[k] = v` assignment in a loop (the last write wins), list comprehensions with a
 * filter, and `min`/`max`. A filtered loop is described by a table with one `Option` per
 * visited element: `None` where the loop skips it.
 */
module Collections {
  import opened Wrappers
  import opened Seqs
  import opened Sorting

  /** `xs.count(x)`. */
  function Count<T(==)>(xs: seq<T>, x: T): (c: nat)
    ensures c <= |xs|
    ensures c > 0 <==> x in xs
  {
    if |xs| == 0 then 0
    else
      assert xs == xs[..|xs| - 1] + [xs[|xs| - 1]];
      Count(xs[..|xs| - 1], x) + (if xs[|xs| - 1] == x then 1 else 0)
  }

  lemma CountSnoc<T>(xs: seq<T>, y: T, x: T)
    ensures Count(xs + [y], x) == Count(xs, x) + (if y == x then 1 else 0)
  {
    assert (xs + [y])[..|xs|] == xs;
  }

  /** The counts of the keys `ks` in `xs`, added up. */
  function SumCounts<T(==)>(ks: seq<T>, xs: seq<T>): nat {
    if |ks| == 0 then 0 else SumCounts(ks[..|ks| - 1], xs) + Count(xs, ks[|ks| - 1])
  }

  /** Appending `y` to `xs` adds one to the sum exactly when `y` is one of the (distinct) keys. */
  lemma {:induction false} SumCountsSnoc<T(!new)>(ks: seq<T>, xs: seq<T>, y: T)
    requires NoDup(ks)
    ensures SumCounts(ks, xs + [y]) == SumCounts(ks, xs) + (if y in ks then 1 else 0)
  {
    if |ks| > 0 {
      var p := ks[..|ks| - 1];
      assert NoDup(p);
      SumCountsSnoc(p, xs, y);
      CountSnoc(xs, y, ks[|ks| - 1]);
      assert y in ks <==> y in p || y == ks[|ks| - 1];
      assert ks[|ks| - 1] !in p;
    }
  }

  /** Adding a key that does not occur in `xs` adds nothing. */
  lemma SumCountsAppend<T>(ks: seq<T>, k: T, xs: seq<T>)
    ensures SumCounts(ks + [k], xs) == SumCounts(ks, xs) + Count(xs, k)
  {
    assert (ks + [k])[..|ks|] == ks;
  }

  /** Every element is counted under exactly one distinct key. */
  lemma {:induction false} DedupCountsSum<T(!new)>(xs: seq<T>)
    ensures SumCounts(Dedup(xs), xs) == |xs|
  {
    if |xs| > 0 {
      var p := xs[..|xs| - 1];
      var y := xs[|xs| - 1];
      assert xs == p + [y];
      DedupCountsSum(p);
      var d := Dedup(p);
      SumCountsSnoc(d, p, y);
      if y !in d {
        assert Dedup(xs) == d + [y];
        SumCountsAppend(d, y, xs);
        CountSnoc(p, y, y);
        assert Count(p, y) == 0;
      }
    }
  }

  /** The items of `Counter(xs)` in insertion order: each distinct element once, in order of first appearance, with its count. */
  function Counter<T(==, !new)>(xs: seq<T>): seq<(T, nat)> {
    var ks := Dedup(xs);
    seq(|ks|, i requires 0 <= i < |ks| => (ks[i], Count(xs, ks[i])))
  }

  /** `sum(counter.values())`. */
  function Total<T>(c: seq<(T, nat)>): nat {
    if |c| == 0 then 0 else Total(c[..|c| - 1]) + c[|c| - 1].1
  }

  lemma {:induction false} TotalOfCounts<T(!new)>(ks: seq<T>, xs: seq<T>)
    ensures Total(seq(|ks|, i requires 0 <= i < |ks| => (ks[i], Count(xs, ks[i])))) == SumCounts(ks, xs)
  {
    if |ks| > 0 {
      var p := ks[..|ks| - 1];
      TotalOfCounts(p, xs);
      var c := seq(|ks|, i requires 0 <= i < |ks| => (ks[i], Count(xs, ks[i])));
      assert c[..|c| - 1] == seq(|p|, i requires 0 <= i < |p| => (p[i], Count(xs, p[i])));
    }
  }

  /** The keys are distinct and are exactly the elements, each carries its count, and the counts add up to `len(xs)`. */
  lemma CounterFacts<T(!new)>(xs: seq<T>)
    ensures forall i, j :: 0 <= i < j < |Counter(xs)| ==> Counter(xs)[i].0 != Counter(xs)[j].0
    ensures forall x :: x in xs <==> exists i :: 0 <= i < |Counter(xs)| && Counter(xs)[i].0 == x
    ensures forall i :: 0 <= i < |Counter(xs)| ==> Counter(xs)[i].1 == Count(xs, Counter(xs)[i].0) > 0
    ensures Total(Counter(xs)) == |xs|
  {
    var ks := Dedup(xs);
    forall x | x in xs
      ensures exists i :: 0 <= i < |Counter(xs)| && Counter(xs)[i].0 == x
    {
      var i :| 0 <= i < |ks| && ks[i] == x;
      assert Counter(xs)[i].0 == x;
    }
    TotalOfCounts(ks, xs);
    DedupCountsSum(xs);
  }

  /** The sort key that puts larger counts first. */
  function ByCountDescending<T>(p: (T, nat)): int {
    -(p.1 as int)
  }

  /** `Counter(xs)`'s items sorted by decreasing count, ties in insertion order, as `most_common` returns them. */
  function CountsDescending<T(==, !new)>(xs: seq<T>): seq<(T, nat)> {
    SortBy(Counter(xs), ByCountDescending)
  }

  /** `dict(Counter(xs).most_common(k))`: the `k` most frequent elements with their counts, most frequent first. */
  function MostCommon<T(==, !new)>(xs: seq<T>, k: nat): seq<(T, nat)> {
    var sorted := CountsDescending(xs);
    sorted[..if k < |sorted| then k else |sorted|]
  }

  /** A sequence without repeated elements has every element exactly once in its multiset. */
  lemma {:induction false} NoDupMultiplicity<T(!new)>(s: seq<T>)
    requires NoDup(s)
    ensures forall x :: multiset(s)[x] <= 1
  {
    if |s| > 0 {
      var p := s[..|s| - 1];
      assert s == p + [s[|s| - 1]];
      assert NoDup(p);
      NoDupMultiplicity(p);
      assert s[|s| - 1] !in multiset(p);
    }
  }

  lemma RepeatMultiplicity<T>(s: seq<T>, i: nat, j: nat)
    requires i < j < |s| && s[i] == s[j]
    ensures multiset(s)[s[i]] >= 2
  {
    assert s == s[..i] + [s[i]] + s[i + 1..j] + [s[j]] + s[j + 1..];
  }

  /** Rearranging a sequence with distinct elements keeps them distinct. */
  lemma PermutationNoDup<T(!new)>(s: seq<T>, t: seq<T>)
    requires NoDup(t) && multiset(s) == multiset(t)
    ensures NoDup(s)
  {
    NoDupMultiplicity(t);
    forall i, j | 0 <= i < j < |s|
      ensures s[i] != s[j]
    {
      if s[i] == s[j] {
        RepeatMultiplicity(s, i, j);
      }
    }
  }

  /** The sorted items are a permutation of the counter's items. */
  lemma CountsDescendingPermutes<T(!new)>(xs: seq<T>)
    ensures multiset(CountsDescending(xs)) == multiset(Counter(xs))
    ensures |CountsDescending(xs)| == |Dedup(xs)|
    ensures forall i, j :: 0 <= i < j < |CountsDescending(xs)| ==> CountsDescending(xs)[i] != CountsDescending(xs)[j]
    ensures forall i, j :: 0 <= i < j < |CountsDescending(xs)| ==> CountsDescending(xs)[i].1 >= CountsDescending(xs)[j].1
  {
    var c := Counter(xs);
    var sorted := CountsDescending(xs);
    SortByCorrect(c, ByCountDescending);
    assert |sorted| == |multiset(sorted)| == |multiset(c)| == |c|;
    CounterFacts(xs);
    assert NoDup(c);
    PermutationNoDup(sorted, c);
    forall i, j | 0 <= i < j < |sorted|
      ensures sorted[i].1 >= sorted[j].1
    {
      assert ByCountDescending(sorted[i]) <= ByCountDescending(sorted[j]);
    }
  }

  /** The sorted items: one per distinct element, with its count, pairs distinct, counts decreasing. */
  lemma CountsDescendingFacts<T(!new)>(xs: seq<T>)
    ensures |CountsDescending(xs)| == |Dedup(xs)|
    ensures forall i :: 0 <= i < |CountsDescending(xs)| ==>
      CountsDescending(xs)[i].0 in xs && CountsDescending(xs)[i].1 == Count(xs, CountsDescending(xs)[i].0)
    ensures forall i, j :: 0 <= i < j < |CountsDescending(xs)| ==> CountsDescending(xs)[i] != CountsDescending(xs)[j]
    ensures forall i, j :: 0 <= i < j < |CountsDescending(xs)| ==> CountsDescending(xs)[i].1 >= CountsDescending(xs)[j].1
    ensures forall x :: x in xs ==> exists m :: 0 <= m < |CountsDescending(xs)| && CountsDescending(xs)[m].0 == x
  {
    var c := Counter(xs);
    var sorted := CountsDescending(xs);
    CountsDescendingPermutes(xs);
    CounterFacts(xs);
    forall i | 0 <= i < |sorted|
      ensures sorted[i].0 in xs && sorted[i].1 == Count(xs, sorted[i].0)
    {
      assert sorted[i] in multiset(c);
    }
    forall x | x in xs
      ensures exists m :: 0 <= m < |sorted| && sorted[m].0 == x
    {
      var j :| 0 <= j < |c| && c[j].0 == x;
      assert c[j] in multiset(sorted);
      var m :| 0 <= m < |sorted| && sorted[m] == c[j];
    }
  }

  /** The summary has `min(k, distinct)` entries with distinct keys, each an element with its count, ordered by decreasing count. */
  lemma MostCommonFacts<T(!new)>(xs: seq<T>, k: nat)
    ensures |MostCommon(xs, k)| == if k < |Dedup(xs)| then k else |Dedup(xs)|
    ensures forall i :: 0 <= i < |MostCommon(xs, k)| ==>
      MostCommon(xs, k)[i].0 in xs && MostCommon(xs, k)[i].1 == Count(xs, MostCommon(xs, k)[i].0)
    ensures forall i, j :: 0 <= i < j < |MostCommon(xs, k)| ==>
      MostCommon(xs, k)[i].0 != MostCommon(xs, k)[j].0 && MostCommon(xs, k)[i].1 >= MostCommon(xs, k)[j].1
  {
    var sorted := CountsDescending(xs);
    CountsDescendingFacts(xs);
    var r := MostCommon(xs, k);
    forall i, j | 0 <= i < j < |r|
      ensures r[i].0 != r[j].0
    {
      assert r[i] == sorted[i] && r[j] == sorted[j];
    }
  }

  /** An element left out of the summary is no more frequent than any element kept; with at most `k` distinct elements nothing is left out. */
  lemma MostCommonIsTop<T(!new)>(xs: seq<T>, k: nat, x: T)
    requires x in xs && forall i :: 0 <= i < |MostCommon(xs, k)| ==> MostCommon(xs, k)[i].0 != x
    ensures k < |Dedup(xs)|
    ensures forall i :: 0 <= i < |MostCommon(xs, k)| ==> MostCommon(xs, k)[i].1 >= Count(xs, x)
  {
    var sorted := CountsDescending(xs);
    var r := MostCommon(xs, k);
    assert exists m :: 0 <= m < |sorted| && sorted[m].0 == x by {
      CountsDescendingFacts(xs);
    }
    var m :| 0 <= m < |sorted| && sorted[m].0 == x;
    assert forall i :: 0 <= i < |r| ==> r[i] == sorted[i];
    assert |r| <= m;
    assert |sorted| == |Dedup(xs)| && sorted[m].1 == Count(xs, x) by {
      CountsDescendingFacts(xs);
    }
    forall i | 0 <= i < |r|
      ensures r[i].1 >= Count(xs, x)
    {
      assert sorted[i].1 >= sorted[m].1 by {
        CountsDescendingFacts(xs);
      }
    }
  }

  /** `[x for x in xs if x is not None]` over a table of the loop's outcomes. */
  function Somes<T>(ps: seq<Option<T>>, n: nat): (r: seq<T>)
    requires n <= |ps|
    ensures |r| <= n
  {
    if n == 0 then [] else Somes(ps, n - 1) + (if ps[n - 1].Some? then [ps[n - 1].value] else [])
  }

  lemma {:induction false} SomesMember<T>(ps: seq<Option<T>>, n: nat)
    requires n <= |ps|
    ensures forall x :: x in Somes(ps, n) <==> exists i :: 0 <= i < n && ps[i] == Some(x)
  {
    if n > 0 {
      SomesMember(ps, n - 1);
    }
  }

  /** The keys of a table of key/value writes, in order, repeats included. */
  function Keys<K, V>(ps: seq<Option<(K, V)>>, n: nat): (r: seq<K>)
    requires n <= |ps|
    ensures |r| <= n
  {
    if n == 0 then [] else Keys(ps, n - 1) + (if ps[n - 1].Some? then [ps[n - 1].value.0] else [])
  }

  lemma {:induction false} KeysMember<K, V>(ps: seq<Option<(K, V)>>, n: nat)
    requires n <= |ps|
    ensures forall k :: k in Keys(ps, n) <==> exists i :: 0 <= i < n && ps[i].Some? && ps[i].value.0 == k
  {
    if n > 0 {
      KeysMember(ps, n - 1);
    }
  }

  /** `groups[k]` of a `defaultdict(list)` after appending `v` to `groups[k]` for every write `(k, v)`. */
  function Members<K(==), V>(ps: seq<Option<(K, V)>>, k: K, n: nat): seq<V>
    requires n <= |ps|
  {
    if n == 0 then []
    else Members(ps, k, n - 1) + (if ps[n - 1].Some? && ps[n - 1].value.0 == k then [ps[n - 1].value.1] else [])
  }

  /** A key's list is as long as the number of writes to it. */
  lemma {:induction false} MembersCount<K, V>(ps: seq<Option<(K, V)>>, k: K, n: nat)
    requires n <= |ps|
    ensures |Members(ps, k, n)| == Count(Keys(ps, n), k)
  {
    if n > 0 {
      MembersCount(ps, k, n - 1);
      MembersCountStep(ps, k, n);
    }
  }

  /** One more write adds one to a key's list and to the key's count together, or to neither. */
  lemma MembersCountStep<K, V>(ps: seq<Option<(K, V)>>, k: K, n: nat)
    requires 0 < n <= |ps|
    ensures |Members(ps, k, n)| - |Members(ps, k, n - 1)| == Count(Keys(ps, n), k) - Count(Keys(ps, n - 1), k)
  {
    if ps[n - 1].Some? {
      CountSnoc(Keys(ps, n - 1), ps[n - 1].value.0, k);
    } else {
      assert Keys(ps, n) == Keys(ps, n - 1);
    }
  }

  /** A key's list holds exactly the values written to it. */
  lemma {:induction false} MembersMember<K, V>(ps: seq<Option<(K, V)>>, k: K, n: nat)
    requires n <= |ps|
    ensures forall v :: v in Members(ps, k, n) <==> exists i :: 0 <= i < n && ps[i] == Some((k, v))
  {
    if n > 0 {
      MembersMember(ps, k, n - 1);
    }
  }

  /** The groups of the keys `ks`, in that order. */
  function GroupsOver<K(==), V>(ks: seq<K>, ps: seq<Option<(K, V)>>, n: nat): (gs: seq<(K, seq<V>)>)
    requires n <= |ps|
    ensures |gs| == |ks|
  {
    seq(|ks|, j requires 0 <= j < |ks| => (ks[j], Members(ps, ks[j], n)))
  }

  /** The items of the `defaultdict(list)`: each key once, in order of its first write, with its values. */
  function Grouped<K(==, !new), V>(ps: seq<Option<(K, V)>>): seq<(K, seq<V>)> {
    GroupsOver(Dedup(Keys(ps, |ps|)), ps, |ps|)
  }

  /** The values of a group list, counted. */
  function SumSizes<K, V>(gs: seq<(K, seq<V>)>): nat {
    if |gs| == 0 then 0 else SumSizes(gs[..|gs| - 1]) + |gs[|gs| - 1].1|
  }

  lemma {:induction false} SumSizesOver<K(!new), V>(ks: seq<K>, ps: seq<Option<(K, V)>>, n: nat)
    requires n <= |ps|
    ensures SumSizes(GroupsOver(ks, ps, n)) == SumCounts(ks, Keys(ps, n))
  {
    if |ks| > 0 {
      var p := ks[..|ks| - 1];
      SumSizesOver(p, ps, n);
      assert GroupsOver(ks, ps, n)[..|ks| - 1] == GroupsOver(p, ps, n);
      MembersCount(ps, ks[|ks| - 1], n);
    }
  }

  /** The groups have distinct keys, and these are exactly the keys written. */
  lemma GroupedKeys<K(!new), V>(ps: seq<Option<(K, V)>>)
    ensures forall i, j :: 0 <= i < j < |Grouped(ps)| ==> Grouped(ps)[i].0 != Grouped(ps)[j].0
    ensures forall j :: 0 <= j < |Grouped(ps)| ==> Grouped(ps)[j].0 in Keys(ps, |ps|)
    ensures forall k :: k in Keys(ps, |ps|) ==> exists j :: 0 <= j < |Grouped(ps)| && Grouped(ps)[j].0 == k
  {
    var ks := Dedup(Keys(ps, |ps|));
    forall k | k in Keys(ps, |ps|)
      ensures exists j :: 0 <= j < |Grouped(ps)| && Grouped(ps)[j].0 == k
    {
      var j :| 0 <= j < |ks| && ks[j] == k;
      assert Grouped(ps)[j].0 == k;
    }
  }

  /** A group holds exactly the values written to its key, one per write. */
  lemma GroupedMembers<K(!new), V>(ps: seq<Option<(K, V)>>, j: nat)
    requires j < |Grouped(ps)|
    ensures |Grouped(ps)[j].1| == Count(Keys(ps, |ps|), Grouped(ps)[j].0) > 0
    ensures forall v :: v in Grouped(ps)[j].1 <==> exists i :: 0 <= i < |ps| && ps[i] == Some((Grouped(ps)[j].0, v))
  {
    var ks := Dedup(Keys(ps, |ps|));
    assert ks[j] in Keys(ps, |ps|);
    MembersCount(ps, ks[j], |ps|);
    MembersMember(ps, ks[j], |ps|);
  }

  /** Every write lands in the group of its key. */
  lemma GroupedCovers<K(!new), V>(ps: seq<Option<(K, V)>>, i: nat)
    requires i < |ps| && ps[i].Some?
    ensures exists j :: 0 <= j < |Grouped(ps)| && Grouped(ps)[j].0 == ps[i].value.0 && ps[i].value.1 in Grouped(ps)[j].1
  {
    KeysMember(ps, |ps|);
    assert ps[i].value.0 in Keys(ps, |ps|);
    GroupedKeys(ps);
    var j :| 0 <= j < |Grouped(ps)| && Grouped(ps)[j].0 == ps[i].value.0;
    GroupedMembers(ps, j);
    assert ps[i] == Some((Grouped(ps)[j].0, ps[i].value.1));
  }

  /** No write is lost: the group sizes add up to the number of writes. */
  lemma GroupedTotal<K(!new), V>(ps: seq<Option<(K, V)>>)
    ensures SumSizes(Grouped(ps)) == |Keys(ps, |ps|)|
  {
    SumSizesOver(Dedup(Keys(ps, |ps|)), ps, |ps|);
    DedupCountsSum(Keys(ps, |ps|));
  }

  lemma DedupSnoc<T(!new)>(xs: seq<T>, x: T)
    ensures Dedup(xs + [x]) == AppendNew(Dedup(xs), x)
  {
    assert (xs + [x])[..|xs|] == xs;
  }

  /** The `defaultdict(list)` after the first `n` writes. */
  function Table<K, V>(ps: seq<Option<(K, V)>>, n: nat): map<K, seq<V>>
    requires n <= |ps|
  {
    if n == 0 then map[]
    else
      var t := Table(ps, n - 1);
      if ps[n - 1].None? then t
      else
        var k := ps[n - 1].value.0;
        t[k := (if k in t then t[k] else []) + [ps[n - 1].value.1]]
  }

  /** The table's keys are the keys written. */
  lemma {:induction false} TableKeys<K, V>(ps: seq<Option<(K, V)>>, n: nat)
    requires n <= |ps|
    ensures forall k :: k in Table(ps, n) <==> k in Keys(ps, n)
  {
    if n > 0 {
      TableKeys(ps, n - 1);
    }
  }

  /** A key's list in the table is its group. */
  lemma {:induction false} TableFacts<K, V>(ps: seq<Option<(K, V)>>, n: nat)
    requires n <= |ps|
    ensures forall k :: k in Table(ps, n) <==> k in Keys(ps, n)
    ensures forall k :: k in Table(ps, n) ==> Table(ps, n)[k] == Members(ps, k, n)
  {
    TableKeys(ps, n);
    if n > 0 {
      TableFacts(ps, n - 1);
      if ps[n - 1].Some? {
        var k := ps[n - 1].value.0;
        if k !in Table(ps, n - 1) {
          MembersCount(ps, k, n - 1);
          assert Members(ps, k, n - 1) == [];
        }
        assert Table(ps, n) == Table(ps, n - 1)[k := (if k in Table(ps, n - 1) then Table(ps, n - 1)[k] else []) + [ps[n - 1].value.1]];
      }
    }
  }

  /** The dict's key order after the first `n` writes: each key where it was first written. */
  function KeyOrder<K(==), V>(ps: seq<Option<(K, V)>>, n: nat): seq<K>
    requires n <= |ps|
  {
    if n == 0 then []
    else
      var o := KeyOrder(ps, n - 1);
      if ps[n - 1].Some? && ps[n - 1].value.0 !in o then o + [ps[n - 1].value.0] else o
  }

  /** The key order is the written keys without repeats. */
  lemma {:induction false} KeyOrderIsDedup<K(!new), V>(ps: seq<Option<(K, V)>>, n: nat)
    requires n <= |ps|
    ensures KeyOrder(ps, n) == Dedup(Keys(ps, n))
  {
    if n > 0 {
      KeyOrderIsDedup(ps, n - 1);
      if ps[n - 1].Some? {
        DedupKeysWrite(ps, n);
      } else {
        assert Keys(ps, n) == Keys(ps, n - 1);
      }
    }
  }

  /** A write adds its key to the written keys without repeats unless the key is already there. */
  lemma DedupKeysWrite<K(!new), V>(ps: seq<Option<(K, V)>>, n: nat)
    requires 0 < n <= |ps| && ps[n - 1].Some?
    ensures Dedup(Keys(ps, n)) == AppendNew(Dedup(Keys(ps, n - 1)), ps[n - 1].value.0)
  {
    assert Keys(ps, n) == Keys(ps, n - 1) + [ps[n - 1].value.0];
    DedupSnoc(Keys(ps, n - 1), ps[n - 1].value.0);
  }

  /** A key is in the table exactly when it is in the key order. */
  lemma KeyOrderInTable<K(!new), V>(ps: seq<Option<(K, V)>>, n: nat, k: K)
    requires n <= |ps|
    ensures k in Table(ps, n) <==> k in KeyOrder(ps, n)
  {
    KeyOrderIsDedup(ps, n);
    TableKeys(ps, n);
  }

  /** After the last write, reading the table out in key order gives the groups. */
  lemma ReadOut<K(!new), V>(ps: seq<Option<(K, V)>>, groups: seq<(K, seq<V>)>)
    requires |groups| == |Dedup(Keys(ps, |ps|))|
    requires forall j :: 0 <= j < |groups| ==>
      && Dedup(Keys(ps, |ps|))[j] in Table(ps, |ps|)
      && groups[j] == (Dedup(Keys(ps, |ps|))[j], Table(ps, |ps|)[Dedup(Keys(ps, |ps|))[j]])
    ensures groups == Grouped(ps)
  {
    TableFacts(ps, |ps|);
  }

  /** Every key of the order is in the table. */
  lemma OrderInTable<K(!new), V>(ps: seq<Option<(K, V)>>)
    ensures forall j :: 0 <= j < |Dedup(Keys(ps, |ps|))| ==> Dedup(Keys(ps, |ps|))[j] in Table(ps, |ps|)
  {
    TableFacts(ps, |ps|);
  }

  /** The `defaultdict(list)` filled by the appending loop, read out in key order. */
  method GroupBy<K(==, !new), V>(ps: seq<Option<(K, V)>>) returns (groups: seq<(K, seq<V>)>)
    ensures groups == Grouped(ps)
  {
    var order: seq<K> := [];
    var table: map<K, seq<V>> := map[];
    for i := 0 to |ps|
      invariant order == KeyOrder(ps, i)
      invariant table == Table(ps, i)
    {
      order, table := GroupStep(ps, i, order, table);
    }
    KeyOrderIsDedup(ps, |ps|);
    OrderInTable(ps);
    groups := seq(|order|, j requires 0 <= j < |order| && order[j] in table => (order[j], table[order[j]]));
    ReadOut(ps, groups);
  }

  /** One write of the appending loop: a new key joins the key order, and the value joins the key's list. */
  method GroupStep<K(==, !new), V>(ps: seq<Option<(K, V)>>, i: nat, order0: seq<K>, table0: map<K, seq<V>>)
    returns (order: seq<K>, table: map<K, seq<V>>)
    requires i < |ps| && order0 == KeyOrder(ps, i) && table0 == Table(ps, i)
    ensures order == KeyOrder(ps, i + 1)
    ensures table == Table(ps, i + 1)
  {
    order, table := order0, table0;
    if ps[i].Some? {
      var k, v := ps[i].value.0, ps[i].value.1;
      KeyOrderInTable(ps, i, k);
      if k !in table {
        // The dict keeps its keys in first-insertion order.
        order := order + [k];
      }
      table := table[k := (if k in table then table[k] else []) + [v]];
    }
  }

  /** `dict(ws)`, or `d[k] = v` for each pair in turn: the last write to a key wins. */
  function Dict<K, V>(ws: seq<(K, V)>): map<K, V> {
    if |ws| == 0 then map[] else Dict(ws[..|ws| - 1])[ws[|ws| - 1].0 := ws[|ws| - 1].1]
  }

  lemma DictSnoc<K, V>(ws: seq<(K, V)>, w: (K, V))
    ensures Dict(ws + [w]) == Dict(ws)[w.0 := w.1]
  {
    assert (ws + [w])[..|ws|] == ws;
  }

  /** The dict of a table's writes has exactly the keys written. */
  lemma {:induction false} DictKeys<K, V>(ps: seq<Option<(K, V)>>, n: nat)
    requires n <= |ps|
    ensures forall k :: k in Dict(Somes(ps, n)) <==> k in Keys(ps, n)
  {
    if n > 0 {
      DictKeys(ps, n - 1);
      if ps[n - 1].Some? {
        assert Somes(ps, n) == Somes(ps, n - 1) + [ps[n - 1].value];
        DictSnoc(Somes(ps, n - 1), ps[n - 1].value);
      } else {
        assert Somes(ps, n) == Somes(ps, n - 1);
        assert Keys(ps, n) == Keys(ps, n - 1);
      }
    }
  }

  /** Every value in the dict was written under its key. */
  lemma {:induction false} DictValues<K, V>(ps: seq<Option<(K, V)>>, n: nat)
    requires n <= |ps|
    ensures forall k :: k in Dict(Somes(ps, n)) ==> exists i :: 0 <= i < n && ps[i] == Some((k, Dict(Somes(ps, n))[k]))
  {
    if n > 0 {
      DictValues(ps, n - 1);
      if ps[n - 1].Some? {
        assert Somes(ps, n) == Somes(ps, n - 1) + [ps[n - 1].value];
        DictSnoc(Somes(ps, n - 1), ps[n - 1].value);
      } else {
        assert Somes(ps, n) == Somes(ps, n - 1);
        assert Keys(ps, n) == Keys(ps, n - 1);
      }
    }
  }

  /** A key holds the value of its last write. */
  lemma {:induction false} DictLastWrite<K, V>(ps: seq<Option<(K, V)>>, n: nat, i: nat)
    requires i < n <= |ps| && ps[i].Some?
    requires forall j :: i < j < n ==> !(ps[j].Some? && ps[j].value.0 == ps[i].value.0)
    ensures ps[i].value.0 in Dict(Somes(ps, n)) && Dict(Somes(ps, n))[ps[i].value.0] == ps[i].value.1
  {
    if ps[n - 1].Some? {
      assert Somes(ps, n) == Somes(ps, n - 1) + [ps[n - 1].value];
      DictSnoc(Somes(ps, n - 1), ps[n - 1].value);
    } else {
      assert Somes(ps, n) == Somes(ps, n - 1);
    }
    if i < n - 1 {
      DictLastWrite(ps, n - 1, i);
    }
  }

  /** `[f(x) for x in xs]`. */
  function Map<A, B>(f: A -> B, xs: seq<A>): (r: seq<B>)
    ensures |r| == |xs|
    ensures forall i :: 0 <= i < |xs| ==> r[i] == f(xs[i])
  {
    seq(|xs|, i requires 0 <= i < |xs| => f(xs[i]))
  }

  lemma MapAppend<A, B>(f: A -> B, xs: seq<A>, ys: seq<A>)
    ensures Map(f, xs + ys) == Map(f, xs) + Map(f, ys)
  {
  }

  lemma MapSnoc<A, B>(f: A -> B, xs: seq<A>, x: A)
    ensures Map(f, xs + [x]) == Map(f, xs) + [f(x)]
  {
  }

  /** Mapping two rearrangements of the same elements gives two rearrangements of the same images. */
  lemma {:induction false} MapPermutes<A, B>(f: A -> B, xs: seq<A>, ys: seq<A>)
    requires multiset(xs) == multiset(ys)
    ensures multiset(Map(f, xs)) == multiset(Map(f, ys))
    decreases |xs|
  {
    if |xs| > 0 {
      var j := RemoveMatching(xs, ys);
      MapPermutes(f, xs[1..], ys[..j] + ys[j + 1..]);
      MapPermutesStep(f, xs, ys, j);
    } else {
      assert |ys| == |multiset(ys)| == 0;
    }
  }

  /** The first element of `xs` sits at some `j` in its permutation `ys`; without them, the rests are permutations. */
  lemma RemoveMatching<A>(xs: seq<A>, ys: seq<A>) returns (j: int)
    requires multiset(xs) == multiset(ys) && |xs| > 0
    ensures 0 <= j < |ys| && ys[j] == xs[0]
    ensures multiset(xs[1..]) == multiset(ys[..j] + ys[j + 1..])
  {
    assert xs[0] in multiset(ys);
    j :| 0 <= j < |ys| && ys[j] == xs[0];
    RemoveAtMultiset(ys, j);
    RemoveFirstMultiset(xs);
  }

  lemma RemoveFirstMultiset<A>(xs: seq<A>)
    requires |xs| > 0
    ensures multiset(xs[1..]) == multiset(xs) - multiset{xs[0]}
  {
    assert xs == [xs[0]] + xs[1..];
  }

  /** Taking the same element out of both sides keeps the mapped multisets equal. */
  lemma MapPermutesStep<A, B>(f: A -> B, xs: seq<A>, ys: seq<A>, j: int)
    requires |xs| > 0 && 0 <= j < |ys| && ys[j] == xs[0]
    requires multiset(Map(f, xs[1..])) == multiset(Map(f, ys[..j] + ys[j + 1..]))
    ensures multiset(Map(f, xs)) == multiset(Map(f, ys))
  {
    MapRemoveFirst(f, xs);
    MapRemoveAt(f, ys, j);
    var a := multiset(Map(f, xs[1..]));
    assert multiset(Map(f, xs)) == a + multiset{f(xs[0])};
    assert multiset(Map(f, ys)) == a + multiset{f(xs[0])};
  }

  lemma MapRemoveFirst<A, B>(f: A -> B, xs: seq<A>)
    requires |xs| > 0
    ensures multiset(Map(f, xs)) == multiset(Map(f, xs[1..])) + multiset{f(xs[0])}
  {
    assert xs == [xs[0]] + xs[1..];
    MapAppend(f, [xs[0]], xs[1..]);
    assert Map(f, [xs[0]]) == [f(xs[0])];
  }

  lemma RemoveAtMultiset<A>(ys: seq<A>, j: int)
    requires 0 <= j < |ys|
    ensures multiset(ys[..j] + ys[j + 1..]) == multiset(ys) - multiset{ys[j]}
  {
    assert ys == ys[..j] + ([ys[j]] + ys[j + 1..]);
  }

  lemma MapRemoveAt<A, B>(f: A -> B, ys: seq<A>, j: int)
    requires 0 <= j < |ys|
    ensures multiset(Map(f, ys)) == multiset(Map(f, ys[..j] + ys[j + 1..])) + multiset{f(ys[j])}
  {
    assert ys == ys[..j] + ([ys[j]] + ys[j + 1..]);
    MapAppend(f, ys[..j], [ys[j]] + ys[j + 1..]);
    MapAppend(f, [ys[j]], ys[j + 1..]);
    MapAppend(f, ys[..j], ys[j + 1..]);
    assert Map(f, [ys[j]]) == [f(ys[j])];
  }

  /** `min(xs)`. */
  function Min(xs: seq<int>): (m: int)
    requires |xs| > 0
    ensures m in xs && forall x :: x in xs ==> m <= x
  {
    if |xs| == 1 then xs[0]
    else
      var rest := Min(xs[1..]);
      assert xs == [xs[0]] + xs[1..];
      if xs[0] <= rest then xs[0] else rest
  }

  /** `max(xs)`. */
  function Max(xs: seq<int>): (m: int)
    requires |xs| > 0
    ensures m in xs && forall x :: x in xs ==> x <= m
  {
    if |xs| == 1 then xs[0]
    else
      var rest := Max(xs[1..]);
      assert xs == [xs[0]] + xs[1..];
      if xs[0] >= rest then xs[0] else rest
  }

  /** Position `i` holds the first element of `xs` whose key is `k`. */
  predicate IsFirst<T>(xs: seq<T>, key: T -> string, k: string, i: int) {
    0 <= i < |xs| && key(xs[i]) == k && forall j :: 0 <= j < i ==> key(xs[j]) != k
  }

  /** `next((x for x in xs if key(x) == k), None)`, and a dictionary lookup `d.get(k)` on `d`'s items. */
  function FindFirst<T>(xs: seq<T>, key: T -> string, k: string): (r: Option<T>)
    ensures r.None? <==> forall i :: 0 <= i < |xs| ==> key(xs[i]) != k
    ensures r.Some? ==> exists i :: IsFirst(xs, key, k, i) && xs[i] == r.value
  {
    if |xs| == 0 then None
    else
      var prior := FindFirst(xs[..|xs| - 1], key, k);
      if prior.Some? then
        assert exists i :: IsFirst(xs[..|xs| - 1], key, k, i) && xs[i] == prior.value;
        prior
      else if key(xs[|xs| - 1]) == k then
        assert IsFirst(xs, key, k, |xs| - 1);
        Some(xs[|xs| - 1])
      else None
  }

  /** The element found is the first with its key. */
  lemma FindFirstIsFirst<T>(xs: seq<T>, key: T -> string, k: string, i: int)
    requires IsFirst(xs, key, k, i)
    ensures FindFirst(xs, key, k) == Some(xs[i])
  {
    assert FindFirst(xs, key, k).Some?;
    var j :| IsFirst(xs, key, k, j) && xs[j] == FindFirst(xs, key, k).value;
    assert key(xs[i]) == k && key(xs[j]) == k;
  }

  /** `[x for x in xs if keep(x, p)]`: a loop that appends the elements it keeps. */
  function Filter<T, P>(xs: seq<T>, p: P, keep: (T, P) -> bool): (r: seq<T>)
    ensures |r| <= |xs|
  {
    if |xs| == 0 then [] else Filter(xs[..|xs| - 1], p, keep) + (if keep(xs[|xs| - 1], p) then [xs[|xs| - 1]] else [])
  }

  lemma {:induction false} FilterMember<T, P>(xs: seq<T>, p: P, keep: (T, P) -> bool)
    ensures forall x :: x in Filter(xs, p, keep) <==> x in xs && keep(x, p)
  {
    if |xs| > 0 {
      FilterMember(xs[..|xs| - 1], p, keep);
      assert xs == xs[..|xs| - 1] + [xs[|xs| - 1]];
    }
  }

  /** Filtering keeps a duplicate-free sequence duplicate-free. */
  lemma {:induction false} FilterNoDup<T(!new), P>(xs: seq<T>, p: P, keep: (T, P) -> bool)
    requires NoDup(xs)
    ensures NoDup(Filter(xs, p, keep))
  {
    if |xs| > 0 {
      var init := xs[..|xs| - 1];
      assert NoDup(init) by {
        forall i, j | 0 <= i < j < |init| ensures init[i] != init[j] {
          assert init[i] == xs[i] && init[j] == xs[j];
        }
      }
      FilterNoDup(init, p, keep);
      FilterMember(init, p, keep);
      assert xs[|xs| - 1] !in init;
    }
  }

  /** A filter that keeps everything is the identity; one that keeps nothing is empty. */
  lemma {:induction false} FilterExtremes<T, P>(xs: seq<T>, p: P, keep: (T, P) -> bool)
    ensures (forall i :: 0 <= i < |xs| ==> keep(xs[i], p)) ==> Filter(xs, p, keep) == xs
    ensures (forall i :: 0 <= i < |xs| ==> !keep(xs[i], p)) ==> Filter(xs, p, keep) == []
  {
    if |xs| > 0 {
      FilterExtremes(xs[..|xs| - 1], p, keep);
      assert xs == xs[..|xs| - 1] + [xs[|xs| - 1]];
    }
  }

  lemma FilterSnoc<T, P>(xs: seq<T>, x: T, p: P, keep: (T, P) -> bool)
    ensures Filter(xs + [x], p, keep) == Filter(xs, p, keep) + (if keep(x, p) then [x] else [])
  {
    assert (xs + [x])[..|xs|] == xs;
  }

  /** The loop `for x in xs: if keep(x, p): r.append(x)`. */
  method FilterLoop<T, P>(xs: seq<T>, p: P, keep: (T, P) -> bool) returns (r: seq<T>)
    ensures r == Filter(xs, p, keep)
  {
    r := [];
    for i := 0 to |xs|
      invariant r == Filter(xs[..i], p, keep)
    {
      FilterSnoc(xs[..i], xs[i], p, keep);
      assert xs[..i + 1] == xs[..i] + [xs[i]];
      if keep(xs[i], p) {
        r := r + [xs[i]];
      }
    }
    assert xs[..|xs|] == xs;
  }

  /** `[d[k] for k in ks if k in d]`, with `d` the items `xs` keyed by `key`. */
  function Lookups<T>(xs: seq<T>, key: T -> string, ks: seq<string>): (r: seq<T>)
    ensures |r| <= |ks|
  {
    if |ks| == 0 then []
    else
      var found := FindFirst(xs, key, ks[|ks| - 1]);
      Lookups(xs, key, ks[..|ks| - 1]) + (if found.Some? then [found.value] else [])
  }

  /** Every element looked up is the item of its own key, asked for; every key asked for that has an item yields it. */
  lemma {:induction false} LookupsMember<T>(xs: seq<T>, key: T -> string, ks: seq<string>)
    ensures forall v :: v in Lookups(xs, key, ks) ==> v in xs && key(v) in ks && FindFirst(xs, key, key(v)) == Some(v)
    ensures forall k :: k in ks && FindFirst(xs, key, k).Some? ==> FindFirst(xs, key, k).value in Lookups(xs, key, ks)
  {
    if |ks| > 0 {
      var init := ks[..|ks| - 1];
      LookupsMember(xs, key, init);
      assert ks == init + [ks[|ks| - 1]];
      var found := FindFirst(xs, key, ks[|ks| - 1]);
      if found.Some? {
        var i :| IsFirst(xs, key, ks[|ks| - 1], i) && xs[i] == found.value;
      }
    }
  }

  lemma LookupsSnoc<T>(xs: seq<T>, key: T -> string, ks: seq<string>, k: string)
    ensures Lookups(xs, key, ks + [k]) ==
      Lookups(xs, key, ks) + (if FindFirst(xs, key, k).Some? then [FindFirst(xs, key, k).value] else [])
  {
    assert (ks + [k])[..|ks|] == ks;
  }

  /** The loop `for k in ks: if k in d: r.append(d[k])`. */
  method LookupLoop<T>(xs: seq<T>, key: T -> string, ks: seq<string>) returns (r: seq<T>)
    ensures r == Lookups(xs, key, ks)
  {
    r := [];
    for i := 0 to |ks|
      invariant r == Lookups(xs, key, ks[..i])
    {
      LookupsSnoc(xs, key, ks[..i], ks[i]);
      assert ks[..i + 1] == ks[..i] + [ks[i]];
      var found := FindFirst(xs, key, ks[i]);
      if found.Some? {
        r := r + [found.value];
      }
    }
    assert ks[..|ks|] == ks;
  }

  /**
   * The step of a loop that appends `d[k]` unless an item with key `k` is already there:
   * asking whether the key is present is asking whether the item is.
   */
  lemma DedupLookupsSnoc<T(!new)>(xs: seq<T>, key: T -> string, ks: seq<string>, k: string)
    ensures var d := Dedup(Lookups(xs, key, ks)); var found := FindFirst(xs, key, k);
      Dedup(Lookups(xs, key, ks + [k])) == if found.Some? && k !in Map(key, d) then d + [found.value] else d
  {
    var l := Lookups(xs, key, ks);
    var d := Dedup(l);
    var found := FindFirst(xs, key, k);
    LookupsSnoc(xs, key, ks, k);
    if found.Some? {
      DedupSnoc(l, found.value);
      FoundInDedup(xs, key, ks, k);
    } else {
      assert l + [] == l;
    }
  }

  /** The item of key `k` is among the items looked up exactly when one of them has key `k`. */
  lemma FoundInDedup<T(!new)>(xs: seq<T>, key: T -> string, ks: seq<string>, k: string)
    requires FindFirst(xs, key, k).Some?
    ensures k in Map(key, Dedup(Lookups(xs, key, ks))) <==> FindFirst(xs, key, k).value in Dedup(Lookups(xs, key, ks))
  {
    var l := Lookups(xs, key, ks);
    var d := Dedup(l);
    var v := FindFirst(xs, key, k).value;
    LookupsMember(xs, key, ks);
    var i :| IsFirst(xs, key, k, i) && xs[i] == v;
    if k in Map(key, d) {
      var j :| 0 <= j < |d| && key(d[j]) == k;
      assert d[j] in l;
      assert d[j] == v;
    } else {
      assert v !in d;
    }
  }

  /** The same step when items are compared whole: an item is appended unless it is already there. */
  lemma DedupLookupsItemSnoc<T(!new)>(xs: seq<T>, key: T -> string, ks: seq<string>, k: string)
    ensures var d := Dedup(Lookups(xs, key, ks)); var found := FindFirst(xs, key, k);
      Dedup(Lookups(xs, key, ks + [k])) == if found.Some? && found.value !in d then d + [found.value] else d
  {
    var l := Lookups(xs, key, ks);
    LookupsSnoc(xs, key, ks, k);
    if FindFirst(xs, key, k).Some? {
      DedupSnoc(l, FindFirst(xs, key, k).value);
    } else {
      assert l + [] == l;
    }
  }

  /**
   * The step `if k in d and k not in [key(v) for v in r]: r.append(d[k])`, after the items
   * `r0` gathered for the keys `before`.
   */
  method AddKnown<T(!new)>(xs: seq<T>, key: T -> string, ghost before: seq<string>, k: string, r0: seq<T>) returns (r: seq<T>)
    requires r0 == Dedup(Lookups(xs, key, before))
    ensures r == Dedup(Lookups(xs, key, before + [k]))
  {
    DedupLookupsSnoc(xs, key, before, k);
    r := r0;
    var found := FindFirst(xs, key, k);
    if found.Some? && k !in Map(key, r) {
      r := r + [found.value];
    }
  }

  /** The loop of `AddKnown` steps over the keys `ks`. */
  method DedupLookupLoop<T(!new)>(xs: seq<T>, key: T -> string, ghost before: seq<string>, ks: seq<string>, r0: seq<T>)
    returns (r: seq<T>)
    requires r0 == Dedup(Lookups(xs, key, before))
    ensures r == Dedup(Lookups(xs, key, before + ks))
  {
    r := r0;
    assert before + ks[..0] == before;
    for j := 0 to |ks|
      invariant r == Dedup(Lookups(xs, key, before + ks[..j]))
    {
      PrefixStep(before, ks, j);
      r := AddKnown(xs, key, before + ks[..j], ks[j], r);
    }
    assert ks[..|ks|] == ks;
  }
}
