/** Sequence helpers mirroring the JavaScript array methods the store uses:
    `filter`, `find`, `findIndex`, `splice(i, 1)` and `every` / `some`. */
module Seqs {
  import opened Wrappers

  /** The negation of a predicate, as one function value so that callers agree on it. */
  function Not<T>(p: T -> bool): T -> bool {
    x => !p(x)
  }

  /** `s.filter(p)`: the elements of `s` satisfying `p`, in their original order. */
  function Filter<T(!new)>(s: seq<T>, p: T -> bool): (r: seq<T>)
    ensures |r| <= |s|
    ensures forall x :: x in r <==> x in s && p(x)
    ensures forall i :: 0 <= i < |r| ==> p(r[i])
    decreases |s|
  {
    if |s| == 0 then []
    else if p(s[0]) then [s[0]] + Filter(s[1..], p)
    else Filter(s[1..], p)
  }

  /** The first element of `s` is kept by `Filter(s, p)` exactly when it satisfies `p`. */
  lemma FilterHead<T(!new)>(s: seq<T>, p: T -> bool, x: T, b: bool)
    requires |s| > 0 && s[0] == x && p(x) == b
    ensures Filter(s, p) == (if b then [x] else []) + Filter(s[1..], p)
  {
  }

  /** `Filter(s, Not(p))` keeps the first element exactly when `Filter(s, p)` drops it. */
  lemma FilterNotHead<T(!new)>(s: seq<T>, p: T -> bool, x: T, b: bool)
    requires |s| > 0 && s[0] == x && p(x) == b
    ensures Filter(s, Not(p)) == (if b then [] else [x]) + Filter(s[1..], Not(p))
  {
  }

  /** Filtering keeps every element satisfying `p` as often as it occurs, and no other. */
  lemma {:induction false} FilterMultiset<T(!new)>(s: seq<T>, p: T -> bool)
    ensures forall x :: multiset(Filter(s, p))[x] == if p(x) then multiset(s)[x] else 0
    decreases |s|
  {
    if |s| > 0 {
      FilterMultiset(s[1..], p);
      assert s == [s[0]] + s[1..];
      assert multiset(s) == multiset{s[0]} + multiset(s[1..]);
    }
  }

  /** The number of elements of `s` satisfying `p`. */
  function Count<T>(s: seq<T>, p: T -> bool): nat
    decreases |s|
  {
    if |s| == 0 then 0
    else (if p(s[0]) then 1 else 0) + Count(s[1..], p)
  }

  /** Filtering keeps exactly the counted elements, and the two halves of a
      partition add up to the whole sequence. */
  lemma {:induction false} FilterCount<T(!new)>(s: seq<T>, p: T -> bool)
    ensures |Filter(s, p)| == Count(s, p)
    ensures Count(s, p) + Count(s, Not(p)) == |s|
    decreases |s|
  {
    if |s| > 0 {
      FilterCount(s[1..], p);
    }
  }

  /** Filtering by a predicate and by its negation together keep every element once. */
  lemma {:induction false} FilterSplit<T(!new)>(s: seq<T>, p: T -> bool, q: T -> bool)
    requires forall x :: q(x) == !p(x)
    ensures |Filter(s, p)| + |Filter(s, q)| == |s|
    decreases |s|
  {
    if |s| > 0 {
      FilterSplit(s[1..], p, q);
    }
  }

  /** Filtering with a predicate that holds everywhere on `s` returns `s` itself. */
  lemma {:induction false} FilterAll<T(!new)>(s: seq<T>, p: T -> bool)
    requires forall i :: 0 <= i < |s| ==> p(s[i])
    ensures Filter(s, p) == s
    decreases |s|
  {
    if |s| > 0 {
      FilterAll(s[1..], p);
    }
  }

  /** Filtering with a predicate that holds nowhere on `s` returns nothing. */
  lemma {:induction false} FilterNone<T(!new)>(s: seq<T>, p: T -> bool)
    requires forall i :: 0 <= i < |s| ==> !p(s[i])
    ensures Filter(s, p) == []
    decreases |s|
  {
    if |s| > 0 {
      FilterNone(s[1..], p);
    }
  }

  /** `s.findIndex(p)`: the first position whose element satisfies `p`. */
  function FindIndex<T>(s: seq<T>, p: T -> bool): (r: Option<nat>)
    ensures r.Some? ==> r.value < |s| && p(s[r.value])
    ensures r.Some? ==> forall j :: 0 <= j < r.value ==> !p(s[j])
    ensures r.None? <==> forall j :: 0 <= j < |s| ==> !p(s[j])
    decreases |s|
  {
    if |s| == 0 then None
    else if p(s[0]) then Some(0)
    else
      match FindIndex(s[1..], p)
      case None => None
      case Some(k) => Some(k + 1)
  }

  /** `s.find(p)`: the first element satisfying `p`. */
  function Find<T(!new)>(s: seq<T>, p: T -> bool): (r: Option<T>)
    ensures r.Some? ==> r.value in s && p(r.value)
    ensures r.Some? ==> r.value == s[FindIndex(s, p).value]
    ensures r.None? <==> forall x :: x in s ==> !p(x)
  {
    match FindIndex(s, p)
    case None => None
    case Some(i) => Some(s[i])
  }

  /** `s.splice(i, 1)`: `s` without its element at position `i`; the other
      elements keep their relative order. */
  function RemoveAt<T>(s: seq<T>, i: nat): (r: seq<T>)
    requires i < |s|
    ensures |r| == |s| - 1
    ensures forall j :: 0 <= j < i ==> r[j] == s[j]
    ensures forall j :: i <= j < |r| ==> r[j] == s[j + 1]
  {
    s[..i] + s[i + 1..]
  }

  /** Every element of a sequence with one position removed comes from the original. */
  lemma RemoveAtSubset<T>(s: seq<T>, i: nat)
    requires i < |s|
    ensures forall x :: x in RemoveAt(s, i) ==> x in s
  {
    forall x | x in RemoveAt(s, i)
      ensures x in s
    {
      var j :| 0 <= j < |RemoveAt(s, i)| && RemoveAt(s, i)[j] == x;
      if j < i {
        assert s[j] == x;
      } else {
        assert s[j + 1] == x;
      }
    }
  }

  /** Removing a later position keeps the head in front. */
  lemma RemoveAtCons<T>(s: seq<T>, k: nat)
    requires 0 < k < |s|
    ensures RemoveAt(s, k) == [s[0]] + RemoveAt(s[1..], k - 1)
  {
    assert s[..k] == [s[0]] + s[1..][..k - 1];
    assert s[k + 1..] == s[1..][k..];
  }

  /** At most one match in `s` means at most one match in its tail. */
  lemma AtMostOneTail<T>(s: seq<T>, p: T -> bool)
    requires |s| > 0
    requires forall i, j :: 0 <= i < j < |s| && p(s[i]) ==> !p(s[j])
    ensures forall i, j :: 0 <= i < j < |s[1..]| && p(s[1..][i]) ==> !p(s[1..][j])
  {
    var t := s[1..];
    forall i, j | 0 <= i < j < |t| && p(t[i])
      ensures !p(t[j])
    {
      assert t[i] == s[i + 1] && t[j] == s[j + 1];
    }
  }

  /** When at most one element satisfies `p`, removing the first match is the
      same as filtering all matches out. */
  lemma {:induction false} RemoveFirstIsFilter<T(!new)>(s: seq<T>, p: T -> bool)
    requires forall i, j :: 0 <= i < j < |s| && p(s[i]) ==> !p(s[j])
    requires FindIndex(s, p).Some?
    ensures RemoveAt(s, FindIndex(s, p).value) == Filter(s, Not(p))
    decreases |s|
  {
    var k := FindIndex(s, p).value;
    if k == 0 {
      assert forall j :: 0 <= j < |s[1..]| ==> Not(p)(s[1..][j]) by {
        forall j | 0 <= j < |s[1..]|
          ensures Not(p)(s[1..][j])
        {
          assert s[1..][j] == s[j + 1];
        }
      }
      FilterAll(s[1..], Not(p));
      assert RemoveAt(s, 0) == s[1..];
    } else {
      assert !p(s[0]);
      var t := s[1..];
      assert FindIndex(t, p) == Some(k - 1);
      AtMostOneTail(s, p);
      RemoveFirstIsFilter(t, p);
      FilterNotHead(s, p, s[0], false);
      RemoveAtCons(s, k);
    }
  }

  /** `s.every(p)`, written as the array method walks the sequence. */
  function Every<T>(s: seq<T>, p: T -> bool): (r: bool)
    ensures r <==> forall i :: 0 <= i < |s| ==> p(s[i])
    decreases |s|
  {
    |s| == 0 || (p(s[0]) && Every(s[1..], p))
  }

  /** `s.some(p)`, written as the array method walks the sequence. */
  function Any<T>(s: seq<T>, p: T -> bool): (r: bool)
    ensures r <==> exists i :: 0 <= i < |s| && p(s[i])
    decreases |s|
  {
    |s| > 0 && (p(s[0]) || Any(s[1..], p))
  }

  /** Every two elements, taken in order, are related by `ok`. */
  predicate Pairwise<T>(xs: seq<T>, ok: (T, T) -> bool) {
    forall i, j :: 0 <= i < j < |xs| ==> ok(xs[i], xs[j])
  }

  lemma PairwiseTail<T>(xs: seq<T>, ok: (T, T) -> bool)
    requires |xs| > 0 && Pairwise(xs, ok)
    ensures Pairwise(xs[1..], ok)
  {
    var t := xs[1..];
    forall i, j | 0 <= i < j < |t|
      ensures ok(t[i], t[j])
    {
      assert t[i] == xs[i + 1] && t[j] == xs[j + 1];
    }
  }

  /** Filtering keeps a pairwise property. */
  lemma {:induction false} PairwiseFilter<T(!new)>(xs: seq<T>, ok: (T, T) -> bool, p: T -> bool)
    requires Pairwise(xs, ok)
    ensures Pairwise(Filter(xs, p), ok)
    decreases |xs|
  {
    if |xs| > 0 {
      var t := xs[1..];
      PairwiseTail(xs, ok);
      PairwiseFilter(t, ok, p);
      if p(xs[0]) {
        var rest := Filter(t, p);
        forall j | 0 <= j < |rest|
          ensures ok(xs[0], rest[j])
        {
          assert rest[j] in t;
          var m :| 0 <= m < |t| && t[m] == rest[j];
          assert xs[m + 1] == rest[j];
        }
        assert Filter(xs, p) == [xs[0]] + rest;
      }
    }
  }

  /** Removing one position keeps a pairwise property. */
  lemma PairwiseRemoveAt<T>(xs: seq<T>, ok: (T, T) -> bool, k: nat)
    requires Pairwise(xs, ok) && k < |xs|
    ensures Pairwise(RemoveAt(xs, k), ok)
  {
    var r := RemoveAt(xs, k);
    forall i, j | 0 <= i < j < |r|
      ensures ok(r[i], r[j])
    {
      var i' := if i < k then i else i + 1;
      var j' := if j < k then j else j + 1;
      assert r[i] == xs[i'] && r[j] == xs[j'];
    }
  }

  /** Filtering by `p` and then by `q` is filtering once by their conjunction. */
  lemma {:induction false} FilterFilter<T(!new)>(s: seq<T>, p: T -> bool, q: T -> bool, pq: T -> bool)
    requires forall x :: pq(x) == (p(x) && q(x))
    ensures Filter(Filter(s, p), q) == Filter(s, pq)
    decreases |s|
  {
    if |s| > 0 {
      FilterFilter(s[1..], p, q, pq);
      if p(s[0]) {
        assert Filter(s, p) == [s[0]] + Filter(s[1..], p);
        assert Filter(s, p)[1..] == Filter(s[1..], p);
      }
    }
  }

  /** Overwriting a position by an element that `p` judges the same way does not
      move the first match. */
  lemma {:induction false} FindIndexUpdate<T>(s: seq<T>, p: T -> bool, k: nat, x: T)
    requires k < |s| && p(x) == p(s[k])
    ensures FindIndex(s[k := x], p) == FindIndex(s, p)
    decreases |s|
  {
    if k > 0 {
      assert s[k := x][1..] == s[1..][k - 1 := x];
      FindIndexUpdate(s[1..], p, k - 1, x);
    }
  }
}
