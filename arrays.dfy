/**
 * The JavaScript array operations the ordering engine is written with:
 * `findIndex`, `find`, `filter` and the summing `reduce`. Every derived list
 * and lookup of the application is one of these over a small in-memory array.
 */
module Arrays {
  import opened Wrappers

  /** No two positions of `s` hold the same value. */
  predicate Distinct<T(==)>(s: seq<T>) {
    forall i, j :: 0 <= i < j < |s| ==> s[i] != s[j]
  }

  /** `s.findIndex(p)`: the first position whose element satisfies `p`, or -1 when there is none. */
  function FindIndex<T>(s: seq<T>, p: T -> bool): (i: int)
    ensures -1 <= i < |s|
    ensures 0 <= i ==> p(s[i]) && forall j :: 0 <= j < i ==> !p(s[j])
    ensures i == -1 <==> forall j :: 0 <= j < |s| ==> !p(s[j])
  {
    if |s| == 0 then -1
    else if p(s[0]) then 0
    else
      var k := FindIndex(s[1..], p);
      assert forall j :: 1 <= j < |s| ==> s[j] == s[1..][j - 1];
      if k == -1 then -1 else k + 1
  }

  /** `s.find(p)`: the first element satisfying `p`, or nothing. */
  function Find<T>(s: seq<T>, p: T -> bool): (r: Option<T>)
    ensures r.None? <==> forall j :: 0 <= j < |s| ==> !p(s[j])
    ensures r.Some? ==> exists i :: 0 <= i < |s| && s[i] == r.value && p(r.value) &&
                                    forall j :: 0 <= j < i ==> !p(s[j])
  {
    var i := FindIndex(s, p);
    if i == -1 then None else Some(s[i])
  }

  /** When position `i` is the first to satisfy `p`, `find` returns its element. */
  lemma FindFirst<T>(s: seq<T>, p: T -> bool, i: int)
    requires 0 <= i < |s| && p(s[i])
    requires forall j :: 0 <= j < i ==> !p(s[j])
    ensures Find(s, p) == Some(s[i])
  {
    var k := FindIndex(s, p);
    assert k <= i && i <= k;
  }

  /** `s.filter(p)`: the elements satisfying `p`, in their original order. */
  function Filter<T>(s: seq<T>, p: T -> bool): (r: seq<T>)
    ensures |r| <= |s|
    ensures forall j :: 0 <= j < |r| ==> p(r[j]) && r[j] in s
    ensures forall j :: 0 <= j < |s| && p(s[j]) ==> s[j] in r
  {
    if |s| == 0 then []
    else
      assert forall j :: 1 <= j < |s| ==> s[j] == s[1..][j - 1];
      (if p(s[0]) then [s[0]] else []) + Filter(s[1..], p)
  }

  /** Filtering distributes over concatenation, so it keeps the relative order of what it keeps. */
  lemma {:induction false} FilterAppend<T>(a: seq<T>, b: seq<T>, p: T -> bool)
    ensures Filter(a + b, p) == Filter(a, p) + Filter(b, p)
  {
    if |a| == 0 {
      assert a + b == b;
    } else {
      assert (a + b)[1..] == a[1..] + b;
      FilterAppend(a[1..], b, p);
    }
  }

  /** A filter whose predicate holds of every element keeps the whole sequence. */
  lemma {:induction false} FilterKeepsAll<T>(s: seq<T>, p: T -> bool)
    requires forall j :: 0 <= j < |s| ==> p(s[j])
    ensures Filter(s, p) == s
  {
    if |s| > 0 {
      FilterKeepsAll(s[1..], p);
    }
  }

  /** Filtering out one rejected element between two kept stretches joins the stretches. */
  lemma FilterSkipsOne<T>(pre: seq<T>, x: T, post: seq<T>, p: T -> bool)
    requires Filter(pre, p) == pre && Filter(post, p) == post && !p(x)
    ensures Filter(pre + [x] + post, p) == pre + post
  {
    assert Filter([x], p) == [] by {
      assert [x][1..] == [];
    }
    assert Filter(pre + [x], p) == pre by {
      FilterAppend(pre, [x], p);
      assert pre + [] == pre;
    }
    FilterAppend(pre + [x], post, p);
  }

  /** Filtering a sequence with a first element: that element counts once if it is kept. */
  lemma FilterCons<T>(x: T, rest: seq<T>, p: T -> bool)
    ensures multiset(Filter([x] + rest, p)) == (if p(x) then multiset{x} else multiset{}) + multiset(Filter(rest, p))
  {
    assert ([x] + rest)[1..] == rest;
  }

  /** Filters by two exclusive predicates together keep what a filter by their disjunction keeps. */
  lemma {:induction false} FilterUnion<T>(s: seq<T>, p: T -> bool, q: T -> bool, r: T -> bool)
    requires forall i :: 0 <= i < |s| ==> !(p(s[i]) && q(s[i])) && (r(s[i]) == (p(s[i]) || q(s[i])))
    ensures multiset(Filter(s, p)) + multiset(Filter(s, q)) == multiset(Filter(s, r))
  {
    if |s| > 0 {
      var x, rest := s[0], s[1..];
      assert s == [x] + rest;
      assert forall i :: 0 <= i < |rest| ==> rest[i] == s[i + 1];
      FilterUnion(rest, p, q, r);
      FilterCons(x, rest, p);
      FilterCons(x, rest, q);
      FilterCons(x, rest, r);
    }
  }

  /** The first position of an element that occurs: its place in the insertion order a `Set` built from `s` keeps. */
  function FirstPos<T(==)>(s: seq<T>, x: T): (k: nat)
    requires x in s
    ensures k < |s| && s[k] == x
    ensures forall j :: 0 <= j < k ==> s[j] != x
  {
    if s[0] == x then 0
    else
      assert forall j :: 1 <= j < |s| ==> s[j] == s[1..][j - 1];
      1 + FirstPos(s[1..], x)
  }

  /** An element occurring in a prefix is first found at the same position in the whole sequence. */
  lemma FirstPosPrefix<T>(s: seq<T>, n: nat, x: T)
    requires n <= |s| && x in s[..n]
    ensures FirstPos(s, x) == FirstPos(s[..n], x)
  {
    var k, m := FirstPos(s, x), FirstPos(s[..n], x);
    assert s[m] == x;
    assert k <= m;
    assert s[..n][k] == x;
  }

  /**
   * `Array.from(new Set(s))`: the distinct elements of `s`, each kept where
   * it first occurs.
   */
  function Dedup<T(==)>(s: seq<T>): (r: seq<T>)
    ensures Distinct(r)
    ensures forall i :: 0 <= i < |r| ==> r[i] in s
    ensures forall i :: 0 <= i < |s| ==> s[i] in r
  {
    if |s| == 0 then []
    else
      var init := s[..|s| - 1];
      var d := Dedup(init);
      assert forall i :: 0 <= i < |init| ==> init[i] == s[i];
      if s[|s| - 1] in d then d else d + [s[|s| - 1]]
  }

  /** Dedup lists the distinct elements in the order of their first occurrence. */
  lemma {:induction false} DedupOrder<T>(s: seq<T>)
    ensures forall i, j :: 0 <= i < j < |Dedup(s)| ==> FirstPos(s, Dedup(s)[i]) < FirstPos(s, Dedup(s)[j])
  {
    if |s| > 0 {
      var n := |s| - 1;
      var init := s[..n];
      var d := Dedup(init);
      DedupOrder(init);
      forall i | 0 <= i < |d|
        ensures FirstPos(s, d[i]) == FirstPos(init, d[i])
      {
        FirstPosPrefix(s, n, d[i]);
      }
      if s[n] !in d {
        assert s[n] !in init;
        assert FirstPos(s, s[n]) == n by {
          assert forall j :: 0 <= j < n ==> s[j] == init[j];
        }
      }
    }
  }

  /** `s.reduce((sum, x) => sum + f(x), 0)`: a left fold from 0. */
  function Sum<T>(s: seq<T>, f: T -> real): (r: real)
    ensures (forall j :: 0 <= j < |s| ==> f(s[j]) >= 0.0) ==> r >= 0.0
  {
    if |s| == 0 then 0.0 else Sum(s[..|s| - 1], f) + f(s[|s| - 1])
  }

  /** The sum over a concatenation is the sum of the sums. */
  lemma {:induction false} SumAppend<T>(a: seq<T>, b: seq<T>, f: T -> real)
    ensures Sum(a + b, f) == Sum(a, f) + Sum(b, f)
  {
    if |b| == 0 {
      assert a + b == a;
    } else {
      assert (a + b)[..|a + b| - 1] == a + b[..|b| - 1];
      SumAppend(a, b[..|b| - 1], f);
    }
  }
}
