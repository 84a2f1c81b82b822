/** `Array.prototype.filter`, `indexOf` and counting, over sequences. */
module Seqs {

  /** `s.filter(keep)`: the elements that pass, in their original order. */
  function Filter<T>(s: seq<T>, keep: T -> bool): (r: seq<T>)
    ensures |r| <= |s|
    ensures forall i :: 0 <= i < |r| ==> r[i] in s && keep(r[i])
    ensures forall i :: 0 <= i < |s| && keep(s[i]) ==> s[i] in r
  {
    if s == [] then []
    else (if keep(s[0]) then [s[0]] else []) + Filter(s[1..], keep)
  }

  /** Number of elements of `s` that satisfy `p`. */
  function Count<T>(s: seq<T>, p: T -> bool): (n: nat)
    ensures n <= |s|
  {
    if s == [] then 0 else (if p(s[0]) then 1 else 0) + Count(s[1..], p)
  }

  /** Filtering distributes over concatenation: the order of the kept
      elements is the order of the input. */
  lemma {:induction false} FilterAppend<T>(a: seq<T>, b: seq<T>, keep: T -> bool)
    ensures Filter(a + b, keep) == Filter(a, keep) + Filter(b, keep)
  {
    if a != [] {
      assert (a + b)[1..] == a[1..] + b;
      FilterAppend(a[1..], b, keep);
    } else {
      assert a + b == b;
    }
  }

  /** The filtered sequence is as long as the number of passing elements. */
  lemma {:induction false} FilterLength<T>(s: seq<T>, keep: T -> bool)
    ensures |Filter(s, keep)| == Count(s, keep)
  {
    if s != [] {
      FilterLength(s[1..], keep);
    }
  }

  /** Every passing element keeps its multiplicity; the others are gone. */
  lemma {:induction false} FilterMultiplicity<T>(s: seq<T>, keep: T -> bool, x: T)
    ensures multiset(Filter(s, keep))[x] == if keep(x) then multiset(s)[x] else 0
  {
    if s != [] {
      var rest := s[1..];
      FilterMultiplicity(rest, keep, x);
      assert s == [s[0]] + rest;
      assert multiset(s) == multiset{s[0]} + multiset(rest);
      if keep(s[0]) {
        assert Filter(s, keep) == [s[0]] + Filter(rest, keep);
        assert multiset(Filter(s, keep)) == multiset{s[0]} + multiset(Filter(rest, keep));
      } else {
        assert Filter(s, keep) == Filter(rest, keep);
      }
    }
  }

  /** Filtering leaves the sequence alone exactly when every element passes. */
  lemma {:induction false} FilterIdentity<T>(s: seq<T>, keep: T -> bool)
    ensures Filter(s, keep) == s <==> forall i :: 0 <= i < |s| ==> keep(s[i])
  {
    if s != [] {
      FilterIdentity(s[1..], keep);
      if !keep(s[0]) {
        assert |Filter(s, keep)| < |s|;
      } else if Filter(s, keep) == s {
        assert Filter(s[1..], keep) == s[1..];
      }
    }
  }

  /** Nothing passes, nothing is kept. */
  lemma {:induction false} FilterNone<T>(s: seq<T>, keep: T -> bool)
    requires forall i :: 0 <= i < |s| ==> !keep(s[i])
    ensures Filter(s, keep) == []
  {
    if s != [] {
      FilterNone(s[1..], keep);
    }
  }

  /** The elements that pass and the elements that fail make up the whole. */
  lemma {:induction false} CountSplit<T>(s: seq<T>, p: T -> bool, q: T -> bool)
    requires forall i :: 0 <= i < |s| ==> q(s[i]) == !p(s[i])
    ensures Count(s, p) + Count(s, q) == |s|
  {
    if s != [] {
      CountSplit(s[1..], p, q);
    }
  }

  /** `s.indexOf(x)`: the first position of `x`, or -1. */
  function IndexOf<T(==)>(s: seq<T>, x: T): (i: int)
    ensures -1 <= i < |s|
    ensures i == -1 <==> x !in s
    ensures i >= 0 ==> s[i] == x && forall j :: 0 <= j < i ==> s[j] != x
  {
    if s == [] then -1
    else if s[0] == x then 0
    else var k := IndexOf(s[1..], x); if k == -1 then -1 else k + 1
  }

  /** No element occurs twice. */
  predicate Distinct<T(==)>(s: seq<T>) {
    forall i, j :: 0 <= i < j < |s| ==> s[i] != s[j]
  }

  /** `s.filter((x, i, arr) => arr.indexOf(x) === i)`: each distinct element
      once, at the position of its first occurrence. */
  function Dedup<T(==)>(s: seq<T>): (r: seq<T>)
    ensures Distinct(r)
    ensures forall i :: 0 <= i < |r| ==> r[i] in s
    ensures forall i :: 0 <= i < |s| ==> s[i] in r
    ensures forall i, j :: 0 <= i < j < |r| ==> IndexOf(s, r[i]) < IndexOf(s, r[j])
  {
    if s == [] then []
    else
      var init, last := s[..|s| - 1], s[|s| - 1];
      assert s == init + [last];
      var d := Dedup(init);
      DedupStep(init, last, d);
      if last in init then d else d + [last]
  }

  /** One step of `Dedup`: given the de-duplicated prefix, keeping it or
      appending the new last element de-duplicates the whole sequence. */
  lemma DedupStep<T>(init: seq<T>, last: T, d: seq<T>)
    requires Distinct(d)
    requires forall i :: 0 <= i < |d| ==> d[i] in init
    requires forall i :: 0 <= i < |init| ==> init[i] in d
    requires forall i, j :: 0 <= i < j < |d| ==> IndexOf(init, d[i]) < IndexOf(init, d[j])
    ensures var r := if last in init then d else d + [last];
      && Distinct(r)
      && (forall i :: 0 <= i < |r| ==> r[i] in init + [last])
      && (forall i :: 0 <= i < |init + [last]| ==> (init + [last])[i] in r)
      && (forall i, j :: 0 <= i < j < |r| ==> IndexOf(init + [last], r[i]) < IndexOf(init + [last], r[j]))
  {
    IndexOfPrefix(init, last);
    if last in init {
      DedupStepSeen(init, last, d);
    } else {
      DedupStepMembers(init, last, d);
      DedupStepOrder(init, last, d);
    }
  }

  /** `DedupStep` when the last element already occurs earlier. */
  lemma DedupStepSeen<T>(init: seq<T>, last: T, d: seq<T>)
    requires last in init
    requires forall i :: 0 <= i < |d| ==> d[i] in init
    requires forall i :: 0 <= i < |init| ==> init[i] in d
    requires forall i, j :: 0 <= i < j < |d| ==> IndexOf(init, d[i]) < IndexOf(init, d[j])
    requires forall x :: x in init ==> IndexOf(init + [last], x) == IndexOf(init, x)
    ensures forall i :: 0 <= i < |d| ==> d[i] in init + [last]
    ensures forall i :: 0 <= i < |init + [last]| ==> (init + [last])[i] in d
    ensures forall i, j :: 0 <= i < j < |d| ==> IndexOf(init + [last], d[i]) < IndexOf(init + [last], d[j])
  {
    var s := init + [last];
    forall i | 0 <= i < |s| ensures s[i] in d {
      if i < |init| {
        assert s[i] == init[i];
      }
    }
    forall i, j | 0 <= i < j < |d| ensures IndexOf(s, d[i]) < IndexOf(s, d[j]) {
      assert d[i] in init && d[j] in init;
    }
  }

  /** The membership half of `DedupStep` when the last element is new. */
  lemma DedupStepMembers<T>(init: seq<T>, last: T, d: seq<T>)
    requires last !in init
    requires Distinct(d)
    requires forall i :: 0 <= i < |d| ==> d[i] in init
    requires forall i :: 0 <= i < |init| ==> init[i] in d
    ensures Distinct(d + [last])
    ensures forall i :: 0 <= i < |d + [last]| ==> (d + [last])[i] in init + [last]
    ensures forall i :: 0 <= i < |init + [last]| ==> (init + [last])[i] in d + [last]
  {
    var s, r := init + [last], d + [last];
    assert last !in d;
    forall i, j | 0 <= i < j < |r| ensures r[i] != r[j] {
      assert r[i] == d[i];
    }
    forall i | 0 <= i < |r| ensures r[i] in s {
      if i < |d| {
        assert r[i] == d[i];
      }
    }
    forall i | 0 <= i < |s| ensures s[i] in r {
      if i < |init| {
        assert s[i] == init[i];
      }
    }
  }

  /** The ordering half of `DedupStep` when the last element is new. */
  lemma DedupStepOrder<T>(init: seq<T>, last: T, d: seq<T>)
    requires last !in init
    requires forall i :: 0 <= i < |d| ==> d[i] in init
    requires forall i, j :: 0 <= i < j < |d| ==> IndexOf(init, d[i]) < IndexOf(init, d[j])
    requires forall x :: x in init ==> IndexOf(init + [last], x) == IndexOf(init, x)
    requires IndexOf(init + [last], last) == |init|
    ensures var r := d + [last];
      forall i, j :: 0 <= i < j < |r| ==> IndexOf(init + [last], r[i]) < IndexOf(init + [last], r[j])
  {
    var s, r := init + [last], d + [last];
    forall i, j | 0 <= i < j < |r| ensures IndexOf(s, r[i]) < IndexOf(s, r[j]) {
      var x := d[i];
      assert r[i] == x && x in init;
      assert IndexOf(s, x) == IndexOf(init, x) < |init|;
      if j < |d| {
        assert r[j] == d[j] && d[j] in init;
      } else {
        assert r[j] == last;
      }
    }
  }

  /** Looking up an element of a prefix in the extended sequence finds it at
      the same place; an appended new element is found last. */
  lemma IndexOfPrefix<T>(init: seq<T>, last: T)
    ensures forall x :: x in init ==> IndexOf(init + [last], x) == IndexOf(init, x)
    ensures last !in init ==> IndexOf(init + [last], last) == |init|
  {
    var s := init + [last];
    forall x | x in init ensures IndexOf(s, x) == IndexOf(init, x) {
      var k := IndexOf(init, x);
      assert s[k] == x;
      assert forall j :: 0 <= j < k ==> s[j] == init[j];
    }
    assert forall j :: 0 <= j < |init| ==> s[j] == init[j];
  }
}
