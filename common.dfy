/** Small value-level helpers shared by the model: an optional value, the
    order-preserving filter of a list comprehension, Python's `s[:n]`,
    first-occurrence de-duplication, ASCII lower-casing and decimal rendering
    of integers (Python's `str(int)`). */
module Common {

  datatype Option<+T> = None | Some(value: T)

  // ---------------------------------------------------------------------
  // Order-preserving filter: `[x for x in s if f(x)]`
  // ---------------------------------------------------------------------

  function KeepIf<T(==)>(s: seq<T>, f: T -> bool): (r: seq<T>)
    ensures |r| <= |s|
    ensures forall i :: 0 <= i < |r| ==> r[i] in s && f(r[i])
    ensures forall i :: 0 <= i < |s| && f(s[i]) ==> s[i] in r
  {
    if s == [] then [] else (if f(s[0]) then [s[0]] else []) + KeepIf(s[1..], f)
  }

  lemma AppendAssoc<T>(a: seq<T>, b: seq<T>, c: seq<T>)
    ensures a + b + c == a + (b + c)
  {
  }

  lemma KeepIfCons<T>(x: T, s: seq<T>, f: T -> bool)
    ensures KeepIf([x] + s, f) == (if f(x) then [x] else []) + KeepIf(s, f)
  {
    assert ([x] + s)[1..] == s;
  }

  /** The filter keeps every copy of an element that passes and no copy of
      one that fails. */
  lemma {:induction false} KeepIfCounts<T>(s: seq<T>, f: T -> bool)
    ensures forall x :: multiset(KeepIf(s, f))[x] == if f(x) then multiset(s)[x] else 0
  {
    if s != [] {
      KeepIfCounts(s[1..], f);
      assert s == [s[0]] + s[1..];
    }
  }

  /** `r` lists `s[idx[0]], s[idx[1]], ...` for strictly increasing indices. */
  ghost predicate PicksInOrder<T>(r: seq<T>, s: seq<T>, idx: seq<nat>) {
    |idx| == |r| &&
    (forall i :: 0 <= i < |idx| ==> idx[i] < |s| && r[i] == s[idx[i]]) &&
    (forall i, j :: 0 <= i < j < |idx| ==> idx[i] < idx[j])
  }

  /** The filter keeps exactly the positions where `f` holds, in their
      original order: its result is `s` read at the increasing enumeration
      of those positions. */
  lemma KeepIfIndices<T>(s: seq<T>, f: T -> bool)
    ensures exists idx: seq<nat> :: PicksInOrder(KeepIf(s, f), s, idx) &&
              forall k :: 0 <= k < |s| ==> (k in idx <==> f(s[k]))
  {
    var idx := KeepIfIndexSeq(s, f);
  }

  lemma {:induction false} KeepIfIndexSeq<T>(s: seq<T>, f: T -> bool) returns (idx: seq<nat>)
    ensures PicksInOrder(KeepIf(s, f), s, idx)
    ensures forall k :: 0 <= k < |s| ==> (k in idx <==> f(s[k]))
  {
    if s == [] {
      idx := [];
    } else {
      var rt := KeepIf(s[1..], f);
      var idx' := KeepIfIndexSeq(s[1..], f);
      if f(s[0]) {
        assert KeepIf(s, f) == [s[0]] + rt;
        idx := KeptHead(s, f, rt, idx');
      } else {
        assert KeepIf(s, f) == rt;
        idx := DroppedHead(s, f, rt, idx');
      }
    }
  }

  /** The step of the enumeration when the first element is kept. */
  lemma KeptHead<T>(s: seq<T>, f: T -> bool, rt: seq<T>, idx': seq<nat>) returns (idx: seq<nat>)
    requires s != [] && f(s[0]) && PicksInOrder(rt, s[1..], idx')
    requires forall k :: 0 <= k < |s[1..]| ==> (k in idx' <==> f(s[1..][k]))
    ensures PicksInOrder([s[0]] + rt, s, idx)
    ensures forall k :: 0 <= k < |s| ==> (k in idx <==> f(s[k]))
  {
    var shifted := ShiftedTail(s, f, rt, idx');
    idx := [0] + shifted;
    ConsPicks(s, rt, shifted);
  }

  /** The step of the enumeration when the first element is dropped. */
  lemma DroppedHead<T>(s: seq<T>, f: T -> bool, rt: seq<T>, idx': seq<nat>) returns (idx: seq<nat>)
    requires s != [] && !f(s[0]) && PicksInOrder(rt, s[1..], idx')
    requires forall k :: 0 <= k < |s[1..]| ==> (k in idx' <==> f(s[1..][k]))
    ensures PicksInOrder(rt, s, idx)
    ensures forall k :: 0 <= k < |s| ==> (k in idx <==> f(s[k]))
  {
    idx := ShiftedTail(s, f, rt, idx');
  }

  /** The tail's enumeration, shifted by one, enumerates the kept positions
      after the first. */
  lemma ShiftedTail<T>(s: seq<T>, f: T -> bool, rt: seq<T>, idx': seq<nat>) returns (shifted: seq<nat>)
    requires s != [] && PicksInOrder(rt, s[1..], idx')
    requires forall k :: 0 <= k < |s[1..]| ==> (k in idx' <==> f(s[1..][k]))
    ensures PicksInOrder(rt, s, shifted)
    ensures forall i :: 0 <= i < |shifted| ==> shifted[i] > 0
    ensures forall k :: 0 < k < |s| ==> (k in shifted <==> f(s[k]))
    ensures 0 !in shifted
  {
    shifted := ShiftIndices(idx');
    ShiftedPicks(s, rt, idx', shifted);
    forall k | 0 < k < |s| ensures k in shifted <==> f(s[k]) {
      assert s[1..][k - 1] == s[k];
    }
  }

  function ShiftIndices(idx: seq<nat>): (r: seq<nat>)
    ensures |r| == |idx| && forall i :: 0 <= i < |idx| ==> r[i] == idx[i] + 1
  {
    seq(|idx|, i requires 0 <= i < |idx| => idx[i] + 1)
  }

  lemma ConsPicks<T>(s: seq<T>, r: seq<T>, idx: seq<nat>)
    requires s != [] && PicksInOrder(r, s, idx)
    requires forall i :: 0 <= i < |idx| ==> idx[i] > 0
    ensures PicksInOrder([s[0]] + r, s, [0] + idx)
    ensures forall k :: k in [0] + idx <==> k == 0 || k in idx
  {
    var r', idx' := [s[0]] + r, [0] + idx;
    forall i | 0 < i < |idx'| ensures idx'[i] < |s| && r'[i] == s[idx'[i]] {
      assert idx'[i] == idx[i - 1] && r'[i] == r[i - 1];
    }
  }

  /** Indices into the tail, shifted by one, are indices into the whole. */
  lemma ShiftedPicks<T>(s: seq<T>, r: seq<T>, idx': seq<nat>, shifted: seq<nat>)
    requires s != [] && PicksInOrder(r, s[1..], idx')
    requires |shifted| == |idx'| && forall i :: 0 <= i < |idx'| ==> shifted[i] == idx'[i] + 1
    ensures PicksInOrder(r, s, shifted)
    ensures forall i :: 0 <= i < |shifted| ==> shifted[i] > 0
    ensures forall k :: 0 < k < |s| ==> (k in shifted <==> k - 1 in idx')
  {
    forall i | 0 <= i < |shifted| ensures shifted[i] < |s| && r[i] == s[shifted[i]] {
      assert s[1..][idx'[i]] == s[idx'[i] + 1];
    }
    forall k | 0 < k < |s| ensures k in shifted <==> k - 1 in idx' {
      if k - 1 in idx' {
        var i :| 0 <= i < |idx'| && idx'[i] == k - 1;
        assert shifted[i] == k;
      }
    }
  }

  lemma {:induction false} KeepIfAppend<T>(a: seq<T>, b: seq<T>, f: T -> bool)
    ensures KeepIf(a + b, f) == KeepIf(a, f) + KeepIf(b, f)
  {
    if a == [] {
      assert a + b == b;
    } else {
      assert (a + b)[0] == a[0];
      assert (a + b)[1..] == a[1..] + b;
      KeepIfAppend(a[1..], b, f);
    }
  }

  /** Filtering with a predicate that holds everywhere changes nothing. */
  lemma {:induction false} KeepIfAll<T>(s: seq<T>, f: T -> bool)
    requires forall x :: x in s ==> f(x)
    ensures KeepIf(s, f) == s
  {
    if s != [] {
      KeepIfAll(s[1..], f);
    }
  }

  /** Two filters in a row are one filter by the conjunction. */
  lemma {:induction false} KeepIfTwice<T>(s: seq<T>, f: T -> bool, g: T -> bool, h: T -> bool)
    requires forall x :: h(x) == (f(x) && g(x))
    ensures KeepIf(KeepIf(s, f), g) == KeepIf(s, h)
  {
    if s != [] {
      KeepIfTwice(s[1..], f, g, h);
      if f(s[0]) {
        var t := KeepIf(s, f);
        assert t == [s[0]] + KeepIf(s[1..], f);
        assert t[0] == s[0] && t[1..] == KeepIf(s[1..], f);
        assert KeepIf(t, g) == (if g(s[0]) then [s[0]] else []) + KeepIf(KeepIf(s[1..], f), g);
      } else {
        assert KeepIf(s, f) == KeepIf(s[1..], f);
      }
    }
  }

  /** Filters that agree pointwise give the same list. */
  lemma {:induction false} KeepIfSame<T>(s: seq<T>, f: T -> bool, g: T -> bool)
    requires forall x :: x in s ==> f(x) == g(x)
    ensures KeepIf(s, f) == KeepIf(s, g)
  {
    if s != [] {
      KeepIfSame(s[1..], f, g);
    }
  }

  // ---------------------------------------------------------------------
  // Python slicing `s[:n]` and `sorted(...)[:n]`-style truncation
  // ---------------------------------------------------------------------

  function Min(a: int, b: int): int { if a <= b then a else b }
  function Max(a: int, b: int): int { if a <= b then b else a }

  /** The number of elements Python's `s[:n]` keeps: a negative `n` counts
      from the end. */
  function SliceLength(len: nat, n: int): (k: nat)
    ensures k <= len
    ensures n >= 0 ==> k == Min(n, len)
    ensures n < 0 ==> k == Max(0, len + n)
  {
    if n >= 0 then (if n <= len then n else len)
    else if len + n >= 0 then len + n else 0
  }

  /** The strings laid end to end. */
  function Concat(ws: seq<string>): string {
    if ws == [] then "" else ws[0] + Concat(ws[1..])
  }

  lemma ConcatCons(w: string, ws: seq<string>)
    ensures Concat([w] + ws) == w + Concat(ws)
  {
    assert ([w] + ws)[1..] == ws;
  }

  /** Python's `s[:n]`. */
  function PySliceTo<T>(s: seq<T>, n: int): (r: seq<T>)
    ensures |r| == SliceLength(|s|, n)
    ensures r == s[..|r|]
  {
    s[..SliceLength(|s|, n)]
  }

  // ---------------------------------------------------------------------
  // First-occurrence de-duplication by a key
  // ---------------------------------------------------------------------

  /** The set of keys that occur in `s`. */
  function KeySet<T, K>(s: seq<T>, key: T -> K): (ks: set<K>)
    ensures forall i :: 0 <= i < |s| ==> key(s[i]) in ks
  {
    if s == [] then {} else KeySet(s[..|s| - 1], key) + {key(s[|s| - 1])}
  }

  lemma KeySetSnoc<T, K>(s: seq<T>, x: T, key: T -> K)
    ensures KeySet(s + [x], key) == KeySet(s, key) + {key(x)}
  {
    assert (s + [x])[..|s|] == s;
  }

  /** Every key in the set comes from some element. */
  lemma {:induction false} KeySetWitness<T, K>(s: seq<T>, key: T -> K, k: K)
    requires k in KeySet(s, key)
    ensures exists i :: 0 <= i < |s| && key(s[i]) == k
  {
    var init := s[..|s| - 1];
    if k != key(s[|s| - 1]) {
      KeySetWitness(init, key, k);
      var i :| 0 <= i < |init| && key(init[i]) == k;
      assert s[i] == init[i];
    }
  }

  /** The index of the first element of `s` whose key is `k`. */
  function FirstIndex<T, K(==)>(s: seq<T>, key: T -> K, k: K): (i: nat)
    requires k in KeySet(s, key)
    ensures i < |s| && key(s[i]) == k
    ensures forall j :: 0 <= j < i ==> key(s[j]) != k
  {
    var init := s[..|s| - 1];
    if k in KeySet(init, key) then
      var i := FirstIndex(init, key, k);
      assert forall j :: 0 <= j <= i ==> s[j] == init[j];
      i
    else
      |s| - 1
  }

  /** The elements of `s` whose key has not occurred earlier, in order:
      the first occurrence of every key wins. */
  function FirstOccurrences<T, K(==)>(s: seq<T>, key: T -> K): (r: seq<T>)
    ensures |r| <= |s|
  {
    if s == [] then []
    else
      var init := s[..|s| - 1];
      var d := FirstOccurrences(init, key);
      if key(s[|s| - 1]) in KeySet(init, key) then d else d + [s[|s| - 1]]
  }

  /** Appending one element: it is kept exactly when its key is new. */
  lemma FirstOccurrencesSnoc<T, K>(s: seq<T>, x: T, key: T -> K)
    ensures KeySet(s + [x], key) == KeySet(s, key) + {key(x)}
    ensures FirstOccurrences(s + [x], key)
            == if key(x) in KeySet(s, key) then FirstOccurrences(s, key) else FirstOccurrences(s, key) + [x]
  {
    assert (s + [x])[..|s|] == s;
  }

  /** No two elements of `s` share a key. */
  ghost predicate DistinctKeys<T, K>(s: seq<T>, key: T -> K) {
    forall i, j :: 0 <= i < j < |s| ==> key(s[i]) != key(s[j])
  }

  /** De-duplication keeps exactly the keys of the input. */
  lemma {:induction false} FirstOccurrencesKeys<T, K>(s: seq<T>, key: T -> K)
    ensures KeySet(FirstOccurrences(s, key), key) == KeySet(s, key)
  {
    if s != [] {
      var init, x := s[..|s| - 1], s[|s| - 1];
      FirstOccurrencesKeys(init, key);
      var d := FirstOccurrences(init, key);
      if key(x) !in KeySet(init, key) {
        KeySetSnoc(d, x, key);
      }
    }
  }

  /** De-duplication keeps each key once. */
  lemma {:induction false} FirstOccurrencesDistinct<T, K>(s: seq<T>, key: T -> K)
    ensures DistinctKeys(FirstOccurrences(s, key), key)
  {
    if s != [] {
      var init, x := s[..|s| - 1], s[|s| - 1];
      FirstOccurrencesDistinct(init, key);
      FirstOccurrencesKeys(init, key);
      var d := FirstOccurrences(init, key);
      if key(x) !in KeySet(init, key) {
        var d' := d + [x];
        forall i, j | 0 <= i < j < |d'| ensures key(d'[i]) != key(d'[j]) {
          assert d'[i] == d[i];
          if j < |d| { assert d'[j] == d[j]; }
        }
      }
    }
  }

  /** Every kept element is the first occurrence of its key. */
  lemma {:induction false} FirstOccurrencesFirst<T, K>(s: seq<T>, key: T -> K)
    ensures forall i :: 0 <= i < |FirstOccurrences(s, key)| ==>
              var d := FirstOccurrences(s, key);
              key(d[i]) in KeySet(s, key) && d[i] == s[FirstIndex(s, key, key(d[i]))]
  {
    FirstOccurrencesKeys(s, key);
    if s != [] {
      var init, x := s[..|s| - 1], s[|s| - 1];
      FirstOccurrencesFirst(init, key);
      var d := FirstOccurrences(init, key);
      var d' := FirstOccurrences(s, key);
      forall i | 0 <= i < |d'|
        ensures key(d'[i]) in KeySet(s, key) && d'[i] == s[FirstIndex(s, key, key(d'[i]))]
      {
        if i < |d| {
          assert d'[i] == d[i];
          var j := FirstIndex(init, key, key(d[i]));
          assert FirstIndex(s, key, key(d[i])) == j;
          assert s[j] == init[j];
        } else {
          assert d'[i] == x;
        }
      }
    }
  }

  /** The kept elements appear in the order their keys were first seen. */
  lemma {:induction false} FirstOccurrencesOrder<T, K>(s: seq<T>, key: T -> K)
    ensures forall i, j :: 0 <= i < j < |FirstOccurrences(s, key)| ==>
              var d := FirstOccurrences(s, key);
              key(d[i]) in KeySet(s, key) && key(d[j]) in KeySet(s, key) &&
              FirstIndex(s, key, key(d[i])) < FirstIndex(s, key, key(d[j]))
  {
    FirstOccurrencesKeys(s, key);
    if s != [] {
      var init, x := s[..|s| - 1], s[|s| - 1];
      FirstOccurrencesOrder(init, key);
      FirstOccurrencesKeys(init, key);
      var d := FirstOccurrences(init, key);
      var d' := FirstOccurrences(s, key);
      forall i, j | 0 <= i < j < |d'|
        ensures key(d'[i]) in KeySet(s, key) && key(d'[j]) in KeySet(s, key) &&
                FirstIndex(s, key, key(d'[i])) < FirstIndex(s, key, key(d'[j]))
      {
        assert d'[i] == d[i];
        assert key(d[i]) in KeySet(init, key);
        if j < |d| {
          assert d'[j] == d[j];
          assert key(d[j]) in KeySet(init, key);
        } else {
          assert d'[j] == x;
        }
      }
    }
  }

  /** The full characterisation of first-occurrence de-duplication. */
  lemma FirstOccurrencesSpec<T, K>(s: seq<T>, key: T -> K)
    ensures DistinctKeys(FirstOccurrences(s, key), key)
    ensures KeySet(FirstOccurrences(s, key), key) == KeySet(s, key)
    ensures forall i :: 0 <= i < |FirstOccurrences(s, key)| ==>
              var d := FirstOccurrences(s, key);
              key(d[i]) in KeySet(s, key) && d[i] == s[FirstIndex(s, key, key(d[i]))]
    ensures forall i, j :: 0 <= i < j < |FirstOccurrences(s, key)| ==>
              var d := FirstOccurrences(s, key);
              key(d[i]) in KeySet(s, key) && key(d[j]) in KeySet(s, key) &&
              FirstIndex(s, key, key(d[i])) < FirstIndex(s, key, key(d[j]))
  {
    FirstOccurrencesDistinct(s, key);
    FirstOccurrencesKeys(s, key);
    FirstOccurrencesFirst(s, key);
    FirstOccurrencesOrder(s, key);
  }

  lemma {:induction false} KeySetAppend<T, K>(s: seq<T>, t: seq<T>, key: T -> K)
    ensures KeySet(s + t, key) == KeySet(s, key) + KeySet(t, key)
  {
    if t != [] {
      var t', x := t[..|t| - 1], t[|t| - 1];
      assert t == t' + [x];
      assert s + t == (s + t') + [x];
      KeySetAppend(s, t', key);
      KeySetSnoc(s + t', x, key);
      KeySetSnoc(t', x, key);
    } else {
      assert s + t == s;
    }
  }

  /** Appending elements whose keys were all seen already changes nothing. */
  lemma {:induction false} FirstOccurrencesSeen<T, K>(s: seq<T>, t: seq<T>, key: T -> K)
    requires KeySet(t, key) <= KeySet(s, key)
    ensures FirstOccurrences(s + t, key) == FirstOccurrences(s, key)
  {
    if t != [] {
      var t', x := t[..|t| - 1], t[|t| - 1];
      assert t == t' + [x];
      KeySetSnoc(t', x, key);
      assert (s + t)[..|s + t| - 1] == s + t';
      assert (s + t)[|s + t| - 1] == x;
      FirstOccurrencesSeen(s, t', key);
      KeySetAppend(s, t', key);
      assert key(x) in KeySet(s + t', key);
    } else {
      assert s + t == s;
    }
  }

  /** De-duplicating the same input twice over equals de-duplicating it once. */
  lemma FirstOccurrencesDoubled<T, K>(s: seq<T>, key: T -> K)
    ensures FirstOccurrences(s + s, key) == FirstOccurrences(s, key)
  {
    FirstOccurrencesSeen(s, s, key);
  }

  // ---------------------------------------------------------------------
  // ASCII lower-casing (Python's `str.lower` restricted to ASCII letters)
  // ---------------------------------------------------------------------

  predicate IsUpper(c: char) { 'A' <= c <= 'Z' }

  function LowerChar(c: char): (d: char)
    ensures !IsUpper(d)
    ensures IsUpper(c) ==> d as int == c as int + 32
    ensures !IsUpper(c) ==> d == c
  {
    if IsUpper(c) then (c as int + 32) as char else c
  }

  function Lower(s: string): (r: string)
    ensures |r| == |s|
    ensures forall i :: 0 <= i < |s| ==> r[i] == LowerChar(s[i])
  {
    seq(|s|, i requires 0 <= i < |s| => LowerChar(s[i]))
  }

  /** Lower-casing is idempotent, so comparing lower-cased forms is an
      equivalence that ignores ASCII case. */
  lemma LowerIdempotent(s: string)
    ensures Lower(Lower(s)) == Lower(s)
  {
  }

  // ---------------------------------------------------------------------
  // Decimal rendering (Python's `str(n)` / f-string of an int) and parsing
  // ---------------------------------------------------------------------

  predicate IsDigit(c: char) { '0' <= c <= '9' }

  function DigitChar(d: nat): (c: char)
    requires d < 10
    ensures IsDigit(c)
  {
    ('0' as int + d) as char
  }

  function DigitValue(c: char): (d: nat)
    requires IsDigit(c)
    ensures d < 10
  {
    c as int - '0' as int
  }

  /** Decimal digits of `n`, most significant first, with no leading zero. */
  function NatToString(n: nat): (s: string)
    ensures |s| >= 1
    ensures forall i :: 0 <= i < |s| ==> IsDigit(s[i])
    ensures |s| > 1 ==> s[0] != '0'
  {
    if n < 10 then [DigitChar(n)] else NatToString(n / 10) + [DigitChar(n % 10)]
  }

  /** Python's `str(n)` for an int: an optional minus sign and the digits. */
  function IntToString(n: int): (s: string)
    ensures |s| >= 1
    ensures n >= 0 ==> s == NatToString(n)
    ensures n < 0 ==> s == "-" + NatToString(-n)
  {
    if n < 0 then "-" + NatToString(-n) else NatToString(n)
  }

  function ParseDigits(s: string): nat
    requires forall i :: 0 <= i < |s| ==> IsDigit(s[i])
  {
    if s == [] then 0 else ParseDigits(s[..|s| - 1]) * 10 + DigitValue(s[|s| - 1])
  }

  /** Reads back what IntToString writes. */
  function ParseInt(s: string): int
  {
    if |s| >= 1 && s[0] == '-' && forall i :: 1 <= i < |s| ==> IsDigit(s[i]) then
      -(ParseDigits(s[1..]) as int)
    else if forall i :: 0 <= i < |s| ==> IsDigit(s[i]) then
      ParseDigits(s)
    else 0
  }

  lemma {:induction false} ParseNatToString(n: nat)
    ensures ParseDigits(NatToString(n)) == n
  {
    if n >= 10 {
      var s := NatToString(n);
      assert s[..|s| - 1] == NatToString(n / 10);
      ParseNatToString(n / 10);
    }
  }

  /** Decimal rendering is reversible, hence injective: distinct counts and
      indices render as distinct text. */
  lemma IntToStringRoundTrip(n: int)
    ensures ParseInt(IntToString(n)) == n
  {
    if n < 0 {
      ParseNatToString(-n);
      assert IntToString(n)[1..] == NatToString(-n);
    } else {
      ParseNatToString(n);
    }
  }

  // ---------------------------------------------------------------------
  // Substrings (Python's `t in s` on strings)
  // ---------------------------------------------------------------------

  /** The `len` characters of `s` starting at `i`. */
  function Window(s: string, i: int, len: nat): string
    requires 0 <= i && i + len <= |s|
  {
    s[i..i + len]
  }

  ghost predicate IsInfix(t: string, s: string) {
    exists i :: 0 <= i && i + |t| <= |s| && Window(s, i, |t|) == t
  }

  lemma InfixPrefix(t: string, b: string)
    ensures IsInfix(t, t + b)
  {
    assert Window(t + b, 0, |t|) == t;
  }

  lemma InfixSuffix(a: string, t: string)
    ensures IsInfix(t, a + t)
  {
    assert Window(a + t, |a|, |t|) == t;
  }

  lemma InfixTrans(t: string, u: string, s: string)
    requires IsInfix(t, u) && IsInfix(u, s)
    ensures IsInfix(t, s)
  {
    var i :| 0 <= i && i + |t| <= |u| && Window(u, i, |t|) == t;
    var j :| 0 <= j && j + |u| <= |s| && Window(s, j, |u|) == u;
    forall k | 0 <= k < |t| ensures Window(s, j + i, |t|)[k] == t[k] {
      assert Window(s, j + i, |t|)[k] == s[j + i + k] == Window(s, j, |u|)[i + k];
    }
    assert Window(s, j + i, |t|) == t;
  }
}
