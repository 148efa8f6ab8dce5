/** Python's `sorted(xs, key=key, reverse=desc)` and `heapq.nlargest`, over an
    integer key. Python's sort is stable, also with `reverse=True`: elements
    with equal keys keep their input order. The model is an insertion sort
    that places each later element after every earlier one it does not
    strictly precede; SortUnique shows that this is the only ordered,
    stable permutation, so it is exactly what `sorted` returns. */
module Sorting {
  import opened Common

  /** `x` must be placed strictly before `y`. */
  predicate Precedes<T>(key: T -> int, desc: bool, x: T, y: T) {
    if desc then key(x) > key(y) else key(x) < key(y)
  }

  /** No element is strictly preceded by a later one. */
  ghost predicate Ordered<T>(s: seq<T>, key: T -> int, desc: bool) {
    forall i, j :: 0 <= i < j < |s| ==> !Precedes(key, desc, s[j], s[i])
  }

  ghost predicate NonIncreasing<T>(s: seq<T>, key: T -> int) {
    forall i, j :: 0 <= i < j < |s| ==> key(s[i]) >= key(s[j])
  }

  ghost predicate NonDecreasing<T>(s: seq<T>, key: T -> int) {
    forall i, j :: 0 <= i < j < |s| ==> key(s[i]) <= key(s[j])
  }

  lemma OrderedMeans<T>(s: seq<T>, key: T -> int, desc: bool)
    requires Ordered(s, key, desc)
    ensures desc ==> NonIncreasing(s, key)
    ensures !desc ==> NonDecreasing(s, key)
  {
  }

  /** Where an element that comes after all of `s` in input order is put:
      before the first element it strictly precedes. */
  function InsertPos<T>(s: seq<T>, x: T, key: T -> int, desc: bool): (p: nat)
    ensures p <= |s|
    ensures forall i :: 0 <= i < p ==> !Precedes(key, desc, x, s[i])
    ensures p < |s| ==> Precedes(key, desc, x, s[p])
  {
    if s == [] then 0
    else if Precedes(key, desc, x, s[0]) then 0
    else 1 + InsertPos(s[1..], x, key, desc)
  }

  function InsertAfterTies<T>(s: seq<T>, x: T, key: T -> int, desc: bool): (r: seq<T>)
    ensures |r| == |s| + 1
  {
    var p := InsertPos(s, x, key, desc);
    s[..p] + [x] + s[p..]
  }

  /** The stable sort of `s` by `key`, descending when `desc`. */
  function SortByKey<T>(s: seq<T>, key: T -> int, desc: bool): (r: seq<T>)
    ensures |r| == |s|
  {
    if s == [] then []
    else InsertAfterTies(SortByKey(s[..|s| - 1], key, desc), s[|s| - 1], key, desc)
  }

  // ---------------------------------------------------------------------
  // The result is a permutation of the input
  // ---------------------------------------------------------------------

  lemma InsertPermutes<T>(s: seq<T>, x: T, key: T -> int, desc: bool)
    ensures multiset(InsertAfterTies(s, x, key, desc)) == multiset(s) + multiset{x}
  {
    var p := InsertPos(s, x, key, desc);
    assert s == s[..p] + s[p..];
  }

  lemma {:induction false} SortPermutes<T>(s: seq<T>, key: T -> int, desc: bool)
    ensures multiset(SortByKey(s, key, desc)) == multiset(s)
  {
    if s != [] {
      var init, x := s[..|s| - 1], s[|s| - 1];
      assert s == init + [x];
      SortPermutes(init, key, desc);
      InsertPermutes(SortByKey(init, key, desc), x, key, desc);
    }
  }

  // ---------------------------------------------------------------------
  // The result is ordered by the key
  // ---------------------------------------------------------------------

  lemma InsertOrdered<T>(s: seq<T>, x: T, key: T -> int, desc: bool)
    requires Ordered(s, key, desc)
    ensures Ordered(InsertAfterTies(s, x, key, desc), key, desc)
  {
    var p := InsertPos(s, x, key, desc);
    var r := InsertAfterTies(s, x, key, desc);
    assert forall i :: 0 <= i < p ==> r[i] == s[i];
    assert r[p] == x;
    assert forall i :: p < i < |r| ==> r[i] == s[i - 1];
    forall i, j | 0 <= i < j < |r|
      ensures !Precedes(key, desc, r[j], r[i])
    {
      if i == p && j > p {
        assert Precedes(key, desc, x, s[p]);
        assert !Precedes(key, desc, s[j - 1], s[p]) || j - 1 == p;
      }
    }
  }

  lemma {:induction false} SortOrdered<T>(s: seq<T>, key: T -> int, desc: bool)
    ensures Ordered(SortByKey(s, key, desc), key, desc)
  {
    if s != [] {
      SortOrdered(s[..|s| - 1], key, desc);
      InsertOrdered(SortByKey(s[..|s| - 1], key, desc), s[|s| - 1], key, desc);
    }
  }

  // ---------------------------------------------------------------------
  // The sort is stable: equal keys keep their input order
  // ---------------------------------------------------------------------

  /** The elements of `s` whose key is `k`, in order. */
  function KeyClass<T>(s: seq<T>, key: T -> int, k: int): (r: seq<T>)
    ensures |r| <= |s|
  {
    if s == [] then []
    else KeyClass(s[..|s| - 1], key, k) + (if key(s[|s| - 1]) == k then [s[|s| - 1]] else [])
  }

  lemma {:induction false} KeyClassAppend<T>(a: seq<T>, b: seq<T>, key: T -> int, k: int)
    ensures KeyClass(a + b, key, k) == KeyClass(a, key, k) + KeyClass(b, key, k)
  {
    if b == [] {
      assert a + b == a;
    } else {
      var b', y := b[..|b| - 1], b[|b| - 1];
      assert (a + b)[..|a + b| - 1] == a + b';
      assert (a + b)[|a + b| - 1] == y;
      KeyClassAppend(a, b', key, k);
    }
  }

  lemma {:induction false} KeyClassNone<T>(s: seq<T>, key: T -> int, k: int)
    requires forall i :: 0 <= i < |s| ==> key(s[i]) != k
    ensures KeyClass(s, key, k) == []
  {
    if s != [] {
      KeyClassNone(s[..|s| - 1], key, k);
    }
  }

  /** Behind the insertion point nothing shares the inserted element's key. */
  lemma AfterInsertPosOtherKeys<T>(s: seq<T>, x: T, key: T -> int, desc: bool)
    requires Ordered(s, key, desc)
    ensures var p := InsertPos(s, x, key, desc);
            forall i :: p <= i < |s| ==> key(s[i]) != key(x)
  {
    var p := InsertPos(s, x, key, desc);
    forall i | p <= i < |s| ensures key(s[i]) != key(x) {
      assert Precedes(key, desc, x, s[p]);
      if i > p { assert !Precedes(key, desc, s[i], s[p]); }
    }
  }

  lemma InsertClass<T>(pre: seq<T>, x: T, post: seq<T>, key: T -> int, k: int)
    requires key(x) == k ==> forall i :: 0 <= i < |post| ==> key(post[i]) != k
    ensures KeyClass(pre + [x] + post, key, k)
         == KeyClass(pre + post, key, k) + (if key(x) == k then [x] else [])
  {
    KeyClassAppend(pre, post, key, k);
    KeyClassAppend(pre + [x], post, key, k);
    KeyClassAppend(pre, [x], key, k);
    assert [x][..0] == [];
    if key(x) == k {
      KeyClassNone(post, key, k);
    }
  }

  lemma InsertStable<T>(s: seq<T>, x: T, key: T -> int, desc: bool, k: int)
    requires Ordered(s, key, desc)
    ensures KeyClass(InsertAfterTies(s, x, key, desc), key, k)
         == KeyClass(s, key, k) + (if key(x) == k then [x] else [])
  {
    var p := InsertPos(s, x, key, desc);
    AfterInsertPosOtherKeys(s, x, key, desc);
    assert s == s[..p] + s[p..];
    InsertClass(s[..p], x, s[p..], key, k);
  }

  lemma {:induction false} SortStable<T>(s: seq<T>, key: T -> int, desc: bool, k: int)
    ensures KeyClass(SortByKey(s, key, desc), key, k) == KeyClass(s, key, k)
  {
    if s != [] {
      var init, x := s[..|s| - 1], s[|s| - 1];
      SortStable(init, key, desc, k);
      SortOrdered(init, key, desc);
      InsertStable(SortByKey(init, key, desc), x, key, desc, k);
    }
  }

  /** Everything `sorted` promises: a permutation, ordered by the key, and
      stable for every key value. */
  lemma SortSpec<T>(s: seq<T>, key: T -> int, desc: bool)
    ensures multiset(SortByKey(s, key, desc)) == multiset(s)
    ensures Ordered(SortByKey(s, key, desc), key, desc)
    ensures desc ==> NonIncreasing(SortByKey(s, key, desc), key)
    ensures !desc ==> NonDecreasing(SortByKey(s, key, desc), key)
    ensures forall k :: KeyClass(SortByKey(s, key, desc), key, k) == KeyClass(s, key, k)
  {
    SortPermutes(s, key, desc);
    SortOrdered(s, key, desc);
    OrderedMeans(SortByKey(s, key, desc), key, desc);
    forall k ensures KeyClass(SortByKey(s, key, desc), key, k) == KeyClass(s, key, k) {
      SortStable(s, key, desc, k);
    }
  }

  // ---------------------------------------------------------------------
  // Uniqueness: an ordered sequence with the same key classes is the sort
  // ---------------------------------------------------------------------

  lemma KeyClassCons<T>(x: T, s: seq<T>, key: T -> int, k: int)
    ensures KeyClass([x] + s, key, k) == (if key(x) == k then [x] else []) + KeyClass(s, key, k)
  {
    KeyClassAppend([x], s, key, k);
    assert [x][..0] == [];
  }

  lemma {:induction false} KeyClassHas<T>(s: seq<T>, key: T -> int, i: nat)
    requires i < |s|
    ensures KeyClass(s, key, key(s[i])) != []
  {
    if i < |s| - 1 {
      KeyClassHas(s[..|s| - 1], key, i);
    }
  }

  lemma {:induction false} KeyClassMember<T>(s: seq<T>, key: T -> int, k: int)
    requires KeyClass(s, key, k) != []
    ensures exists i :: 0 <= i < |s| && key(s[i]) == k
  {
    if KeyClass(s[..|s| - 1], key, k) != [] {
      KeyClassMember(s[..|s| - 1], key, k);
      var i :| 0 <= i < |s| - 1 && key(s[..|s| - 1][i]) == k;
      assert s[i] == s[..|s| - 1][i];
    }
  }

  /** Two sequences that are both ordered and agree on every key class are
      equal. */
  lemma {:induction false} OrderedSameClassesEqual<T>(t: seq<T>, u: seq<T>, key: T -> int, desc: bool)
    requires Ordered(t, key, desc) && Ordered(u, key, desc)
    requires forall k :: KeyClass(t, key, k) == KeyClass(u, key, k)
    ensures t == u
    decreases |t| + |u|
  {
    if t == [] || u == [] {
      if t != [] {
        KeyClassHas(t, key, 0);
      } else if u != [] {
        KeyClassHas(u, key, 0);
      }
    } else {
      var a, b := t[0], u[0];
      assert t == [a] + t[1..] && u == [b] + u[1..];
      KeyClassHas(u, key, 0);
      KeyClassMember(t, key, key(b));
      KeyClassHas(t, key, 0);
      KeyClassMember(u, key, key(a));
      assert key(a) == key(b);
      var m := key(a);
      KeyClassCons(a, t[1..], key, m);
      KeyClassCons(b, u[1..], key, m);
      assert a == KeyClass(t, key, m)[0] == KeyClass(u, key, m)[0] == b;
      forall k ensures KeyClass(t[1..], key, k) == KeyClass(u[1..], key, k) {
        KeyClassCons(a, t[1..], key, k);
        KeyClassCons(b, u[1..], key, k);
        assert KeyClass(t, key, k) == KeyClass([a] + t[1..], key, k);
        assert KeyClass(u, key, k) == KeyClass([b] + u[1..], key, k);
        assert KeyClass(t, key, k) == KeyClass(u, key, k);
        if k == m {
          assert KeyClass(t, key, k) == [a] + KeyClass(t[1..], key, k);
          assert KeyClass(u, key, k) == [a] + KeyClass(u[1..], key, k);
          assert KeyClass(t, key, k)[1..] == KeyClass(t[1..], key, k);
          assert KeyClass(u, key, k)[1..] == KeyClass(u[1..], key, k);
        } else {
          assert KeyClass(t, key, k) == KeyClass(t[1..], key, k);
          assert KeyClass(u, key, k) == KeyClass(u[1..], key, k);
        }
      }
      OrderedSameClassesEqual(t[1..], u[1..], key, desc);
    }
  }

  /** Any stable sort of `s` (an ordered sequence with the same key classes)
      is SortByKey(s). */
  lemma SortUnique<T>(s: seq<T>, t: seq<T>, key: T -> int, desc: bool)
    requires Ordered(t, key, desc)
    requires forall k :: KeyClass(t, key, k) == KeyClass(s, key, k)
    ensures t == SortByKey(s, key, desc)
  {
    SortSpec(s, key, desc);
    OrderedSameClassesEqual(t, SortByKey(s, key, desc), key, desc);
  }

  // ---------------------------------------------------------------------
  // Stability in positional form: ties keep their input order
  // ---------------------------------------------------------------------

  function HasKey<T>(key: T -> int, k: int): T -> bool {
    (x: T) => key(x) == k
  }

  lemma {:induction false} KeyClassIsFilter<T>(s: seq<T>, key: T -> int, k: int)
    ensures KeyClass(s, key, k) == KeepIf(s, HasKey(key, k))
  {
    if s != [] {
      var init, x := s[..|s| - 1], s[|s| - 1];
      KeyClassIsFilter(init, key, k);
      assert s == init + [x];
      KeepIfAppend(init, [x], HasKey(key, k));
      assert KeepIf([x], HasKey(key, k)) == if key(x) == k then [x] else [];
    }
  }

  /** Where do the elements of a key class sit in `s`: at increasing
      positions, covering every element with that key. */
  lemma KeyClassPositions<T>(s: seq<T>, key: T -> int, k: int) returns (idx: seq<nat>)
    ensures PicksInOrder(KeyClass(s, key, k), s, idx)
    ensures forall p :: 0 <= p < |s| ==> (p in idx <==> key(s[p]) == k)
  {
    KeyClassIsFilter(s, key, k);
    KeepIfIndices(s, HasKey(key, k));
    idx :| PicksInOrder(KeepIf(s, HasKey(key, k)), s, idx) &&
           forall p :: 0 <= p < |s| ==> (p in idx <==> HasKey(key, k)(s[p]));
  }

  /** Two sequences with the same key classes list equal-key elements in the
      same relative order. */
  lemma SameClassesTieOrder<T>(t: seq<T>, s: seq<T>, key: T -> int, i: nat, j: nat)
    requires i < j < |t| && key(t[i]) == key(t[j])
    requires KeyClass(t, key, key(t[i])) == KeyClass(s, key, key(t[i]))
    ensures exists p, q :: 0 <= p < q < |s| && s[p] == t[i] && s[q] == t[j]
  {
    var k := key(t[i]);
    var c := KeyClass(t, key, k);
    var idxT := KeyClassPositions(t, key, k);
    var idxS := KeyClassPositions(s, key, k);
    assert i in idxT && j in idxT;
    var a :| 0 <= a < |idxT| && idxT[a] == i;
    var b :| 0 <= b < |idxT| && idxT[b] == j;
    assert s[idxS[a]] == c[a] == t[i];
    assert s[idxS[b]] == c[b] == t[j];
  }

  /** Python's stable sort: two elements with equal keys appear in the output
      in the same order as in the input. */
  lemma SortKeepsTieOrder<T>(s: seq<T>, key: T -> int, desc: bool, i: nat, j: nat)
    requires i < j < |SortByKey(s, key, desc)|
    requires key(SortByKey(s, key, desc)[i]) == key(SortByKey(s, key, desc)[j])
    ensures exists p, q :: 0 <= p < q < |s| && s[p] == SortByKey(s, key, desc)[i] &&
                                               s[q] == SortByKey(s, key, desc)[j]
  {
    var t := SortByKey(s, key, desc);
    SortStable(s, key, desc, key(t[i]));
    SameClassesTieOrder(t, s, key, i, j);
  }

  // ---------------------------------------------------------------------
  // Top-N selection (`heapq.nlargest`)
  // ---------------------------------------------------------------------

  /** The first `n` elements, or all of them when there are fewer: Python's
      `s[:n]` for a non-negative `n` (`TakeIsPySlice`). The sorting proofs
      use this form, whose count is a `nat`; the rest of the model slices
      with `PySliceTo`. */
  function Take<T>(s: seq<T>, n: nat): (r: seq<T>)
    ensures |r| == Min(n, |s|)
    ensures r == s[..|r|]
  {
    if |s| <= n then s else s[..n]
  }

  lemma TakeIsPySlice<T>(s: seq<T>, n: nat)
    ensures Take(s, n) == PySliceTo(s, n)
  {
  }

  /** Bounded selection: scan the input once, inserting each element into a
      descending list of at most `n` elements after every element whose key
      it does not exceed, and dropping what falls off the end. Earlier
      elements win ties, as in `heapq.nlargest`. */
  function SelectTop<T>(s: seq<T>, n: nat, key: T -> int): (r: seq<T>)
    ensures |r| == Min(n, |s|)
  {
    if s == [] then []
    else Take(InsertAfterTies(SelectTop(s[..|s| - 1], n, key), s[|s| - 1], key, true), n)
  }

  lemma {:induction false} InsertPosPrefix<T>(s: seq<T>, n: nat, x: T, key: T -> int, desc: bool)
    requires n <= |s|
    ensures InsertPos(s[..n], x, key, desc) == Min(InsertPos(s, x, key, desc), n)
  {
    if n > 0 {
      assert s[..n][0] == s[0];
      if !Precedes(key, desc, x, s[0]) {
        assert s[..n][1..] == s[1..][..n - 1];
        InsertPosPrefix(s[1..], n - 1, x, key, desc);
      }
    }
  }

  /** Truncating before inserting does not change the first `n`. */
  lemma TakeInsertTake<T>(s: seq<T>, n: nat, x: T, key: T -> int, desc: bool)
    ensures Take(InsertAfterTies(Take(s, n), x, key, desc), n) == Take(InsertAfterTies(s, x, key, desc), n)
  {
    if |s| > n {
      var p := InsertPos(s, x, key, desc);
      InsertPosPrefix(s, n, x, key, desc);
      var l := InsertAfterTies(s[..n], x, key, desc);
      var r := InsertAfterTies(s, x, key, desc);
      if p < n {
        assert l == s[..p] + [x] + s[p..n];
        assert r == s[..p] + [x] + s[p..];
        assert l[..n] == r[..n];
      } else {
        assert l == s[..n] + [x];
        assert r[..n] == s[..n];
      }
    }
  }

  /** The documented equivalence of `heapq.nlargest`: the same elements in the
      same order as `sorted(s, key=key, reverse=True)[:n]`. */
  lemma {:induction false} SelectTopIsSortedPrefix<T>(s: seq<T>, n: nat, key: T -> int)
    ensures SelectTop(s, n, key) == Take(SortByKey(s, key, true), n)
  {
    if s != [] {
      var init, x := s[..|s| - 1], s[|s| - 1];
      SelectTopIsSortedPrefix(init, n, key);
      TakeInsertTake(SortByKey(init, key, true), n, x, key, true);
    }
  }

  /** `heapq.nlargest(n, s, key=key)`: nothing for `n <= 0`, otherwise the
      first `n` of the stable descending sort. */
  function NLargest<T>(n: int, s: seq<T>, key: T -> int): (r: seq<T>)
    ensures n <= 0 ==> r == []
    ensures n > 0 ==> r == Take(SortByKey(s, key, true), n)
  {
    if n <= 0 then []
    else
      SelectTopIsSortedPrefix(s, n, key);
      SelectTop(s, n, key)
  }

  /** The kept prefix of a descending sort dominates what was left out. */
  lemma TopDominates<T>(s: seq<T>, n: nat, key: T -> int)
    ensures var sorted := SortByKey(s, key, true);
            var top := Take(sorted, n);
            multiset(top) + multiset(sorted[|top|..]) == multiset(s) &&
            forall i, j :: 0 <= i < |top| <= j < |sorted| ==> key(top[i]) >= key(sorted[j])
  {
    var sorted := SortByKey(s, key, true);
    SortSpec(s, key, true);
    var top := Take(sorted, n);
    assert sorted == top + sorted[|top|..];
  }

  /** In a non-increasing sequence, the first `m` elements dominate the rest. */
  lemma PrefixDominates<T>(t: seq<T>, key: T -> int, m: nat)
    requires m <= |t| && NonIncreasing(t, key)
    ensures NonIncreasing(t[..m], key)
    ensures forall i, y :: 0 <= i < m && y in multiset(t) - multiset(t[..m]) ==> key(t[i]) >= key(y)
  {
    assert t == t[..m] + t[m..];
    assert multiset(t) == multiset(t[..m]) + multiset(t[m..]);
    forall i, y | 0 <= i < m && y in multiset(t) - multiset(t[..m]) ensures key(t[i]) >= key(y) {
      assert y in multiset(t[m..]);
      var j :| 0 <= j < |t[m..]| && t[m..][j] == y;
      assert t[m + j] == y;
    }
  }

  /** What a prefix of a length-`m` descending sort promises: it is ordered,
      it is drawn from the input, and it dominates every element left out. */
  lemma SortedPrefixSpec<T>(s: seq<T>, key: T -> int, m: nat)
    requires m <= |s|
    ensures NonIncreasing(SortByKey(s, key, true)[..m], key)
    ensures multiset(SortByKey(s, key, true)[..m]) <= multiset(s)
    ensures forall i, y :: 0 <= i < m && y in multiset(s) - multiset(SortByKey(s, key, true)[..m]) ==>
              key(SortByKey(s, key, true)[i]) >= key(y)
  {
    var sorted := SortByKey(s, key, true);
    SortPermutes(s, key, true);
    SortOrdered(s, key, true);
    OrderedMeans(sorted, key, true);
    PrefixDominates(sorted, key, m);
    PermutedPrefix(s, sorted, m);
  }

  /** A prefix of a permutation of `s` is drawn from `s`. */
  lemma PermutedPrefix<T>(s: seq<T>, t: seq<T>, m: nat)
    requires multiset(t) == multiset(s) && m <= |t|
    ensures multiset(t[..m]) <= multiset(s)
  {
    assert t == t[..m] + t[m..];
  }
}
