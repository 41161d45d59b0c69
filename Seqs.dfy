/** Sequence helpers shared by the models: order-preserving filtering (the
    source's `Array.prototype.filter`), prefixes (`.limit(n)`, `.slice(0, n)`)
    and the subsequence relation that states "only removes, keeps order". */
module Seqs {
  import opened Wrappers

  /** `a` is obtained from `b` by deleting elements, without reordering. */
  ghost predicate IsSubsequence<T>(a: seq<T>, b: seq<T>)
    decreases |b|
  {
    if a == [] then true
    else if b == [] then false
    else if a[0] == b[0] then IsSubsequence(a[1..], b[1..])
    else IsSubsequence(a, b[1..])
  }

  lemma {:induction false} SubsequenceRefl<T>(s: seq<T>)
    ensures IsSubsequence(s, s)
    decreases |s|
  {
    if s != [] {
      SubsequenceRefl(s[1..]);
    }
  }

  lemma {:induction false} SubsequenceOfTail<T>(a: seq<T>, x: T, b: seq<T>)
    requires IsSubsequence(a, b)
    ensures IsSubsequence(a, [x] + b)
    decreases |b|, 1
  {
    if a != [] {
      assert ([x] + b)[1..] == b;
      if a[0] == x {
        SubsequenceDropHead(a, b);
      }
    }
  }

  lemma {:induction false} SubsequenceDropHead<T>(a: seq<T>, b: seq<T>)
    requires a != [] && IsSubsequence(a, b)
    ensures IsSubsequence(a[1..], b)
    decreases |b|, 0
  {
    assert b != [];
    assert b == [b[0]] + b[1..];
    if a[0] == b[0] {
      SubsequenceOfTail(a[1..], b[0], b[1..]);
    } else {
      SubsequenceDropHead(a, b[1..]);
      SubsequenceOfTail(a[1..], b[0], b[1..]);
    }
  }

  /** Keeps the elements that satisfy `p`, in their original order;
      `FilterCount` gives the multiplicities. */
  function Filter<T(!new)>(s: seq<T>, p: T -> bool): (r: seq<T>)
    ensures |r| <= |s|
    ensures forall x :: x in r <==> x in s && p(x)
    ensures IsSubsequence(r, s)
    decreases |s|
  {
    if s == [] then []
    else
      var rest := Filter(s[1..], p);
      assert s == [s[0]] + s[1..];
      if p(s[0]) then
        assert ([s[0]] + rest)[1..] == rest;
        [s[0]] + rest
      else
        SubsequenceOfTail(rest, s[0], s[1..]);
        rest
  }

  /** Each accepted element is kept as often as it occurs, no other element
      at all. */
  lemma {:induction false} FilterCount<T(!new)>(s: seq<T>, p: T -> bool)
    ensures forall x :: multiset(Filter(s, p))[x] == if p(x) then multiset(s)[x] else 0
    decreases |s|
  {
    if s != [] {
      FilterCount(s[1..], p);
      assert s == [s[0]] + s[1..];
      assert multiset(s) == multiset([s[0]]) + multiset(s[1..]);
      if p(s[0]) {
        assert Filter(s, p) == [s[0]] + Filter(s[1..], p);
        assert multiset(Filter(s, p)) == multiset([s[0]]) + multiset(Filter(s[1..], p));
      }
    }
  }

  lemma {:induction false} FilterAppend<T(!new)>(s: seq<T>, x: T, p: T -> bool)
    ensures Filter(s + [x], p) == Filter(s, p) + (if p(x) then [x] else [])
    decreases |s|
  {
    if s == [] {
      assert [x][1..] == [];
    } else {
      assert (s + [x])[1..] == s[1..] + [x];
      FilterAppend(s[1..], x, p);
    }
  }

  /** Filtering depends only on which elements the predicate accepts. */
  lemma {:induction false} FilterExt<T(!new)>(s: seq<T>, p: T -> bool, q: T -> bool)
    requires forall x :: p(x) == q(x)
    ensures Filter(s, p) == Filter(s, q)
    decreases |s|
  {
    if s != [] {
      FilterExt(s[1..], p, q);
    }
  }

  /** A predicate that accepts everything keeps the whole sequence. */
  lemma {:induction false} FilterAll<T(!new)>(s: seq<T>, p: T -> bool)
    requires forall x :: p(x)
    ensures Filter(s, p) == s
    decreases |s|
  {
    if s != [] {
      FilterAll(s[1..], p);
      assert s == [s[0]] + s[1..];
    }
  }

  /** Filtering twice is filtering once by the conjunction. */
  lemma {:induction false} FilterFilter<T(!new)>(s: seq<T>, p: T -> bool, q: T -> bool, pq: T -> bool)
    requires forall x :: pq(x) == (p(x) && q(x))
    ensures Filter(Filter(s, p), q) == Filter(s, pq)
    decreases |s|
  {
    if s != [] {
      FilterFilter(s[1..], p, q, pq);
      if p(s[0]) {
        var rest := Filter(s[1..], p);
        assert ([s[0]] + rest)[1..] == rest;
      }
    }
  }

  /** Appending an element changes the first passing index only when none
      passed before. */
  lemma {:induction false} FirstWhereAppend<T>(s: seq<T>, x: T, p: T -> bool)
    ensures FirstWhere(s + [x], p)
            == if FirstWhere(s, p).Some? then FirstWhere(s, p) else if p(x) then Some(|s|) else None
    decreases |s|
  {
    if s == [] {
      assert [] + [x] == [x] && [x][1..] == [];
    } else {
      assert (s + [x])[0] == s[0] && (s + [x])[1..] == s[1..] + [x];
      FirstWhereAppend(s[1..], x, p);
    }
  }

  /** Some element passes exactly when the filter keeps something. */
  lemma FilterNonEmptyIffFound<T(!new)>(s: seq<T>, p: T -> bool)
    ensures Filter(s, p) != [] <==> FirstWhere(s, p).Some?
  {
    var r := Filter(s, p);
    if r != [] {
      assert r[0] in r;
    }
    var i := FirstWhere(s, p);
    if i.Some? {
      assert s[i.value] in r;
    }
  }

  /** A prefix one element longer is the prefix and that element. */
  lemma PrefixExtend<T>(s: seq<T>, i: nat)
    requires i < |s|
    ensures s[..i + 1] == s[..i] + [s[i]]
  {
  }

  /** The first `n` elements, or all of them when there are fewer. */
  function Take<T>(s: seq<T>, n: nat): (r: seq<T>)
    ensures |r| == if |s| < n then |s| else n
    ensures r <= s
  {
    if |s| <= n then s else s[..n]
  }

  /** The index of the first element satisfying `p`, as a linear scan finds it. */
  function FirstWhere<T>(s: seq<T>, p: T -> bool): (r: Option<nat>)
    ensures r.None? <==> forall i :: 0 <= i < |s| ==> !p(s[i])
    ensures r.Some? ==> r.value < |s| && p(s[r.value]) && forall j :: 0 <= j < r.value ==> !p(s[j])
  {
    if s == [] then None
    else if p(s[0]) then Some(0)
    else
      var r := FirstWhere(s[1..], p);
      if r.None? then None
      else
        assert forall j :: 1 <= j <= r.value ==> s[j] == s[1..][j - 1];
        Some(r.value + 1)
  }

  /** The rank of `x` under three tests tried in turn: 1, 2 or 3 for the
      first test it passes, 0 when it passes none. */
  function Rank<T>(p1: T -> bool, p2: T -> bool, p3: T -> bool, x: T): (k: nat)
    ensures k <= 3 && (k == 0 <==> !p1(x) && !p2(x) && !p3(x))
  {
    if p1(x) then 1 else if p2(x) then 2 else if p3(x) then 3 else 0
  }

  /** Three linear scans, each over the whole sequence, each tried only when
      the one before it found nothing. The result is the first element of the
      best rank reached. */
  function TieredFirst<T>(s: seq<T>, p1: T -> bool, p2: T -> bool, p3: T -> bool): (r: Option<nat>)
    ensures r.None? <==> forall i :: 0 <= i < |s| ==> Rank(p1, p2, p3, s[i]) == 0
    ensures r.Some? ==> r.value < |s| && Rank(p1, p2, p3, s[r.value]) > 0
    ensures r.Some? ==> forall i :: 0 <= i < |s| ==>
              Rank(p1, p2, p3, s[i]) == 0 || Rank(p1, p2, p3, s[i]) >= Rank(p1, p2, p3, s[r.value])
    ensures r.Some? ==> forall i :: 0 <= i < r.value ==> Rank(p1, p2, p3, s[i]) != Rank(p1, p2, p3, s[r.value])
  {
    var first := FirstWhere(s, p1);
    if first.Some? then first
    else
      var second := FirstWhere(s, p2);
      if second.Some? then second
      else FirstWhere(s, p3)
  }
}
