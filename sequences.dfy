/**
 * `Array.prototype.filter` and what it promises: the elements that pass the test, each as
 * often as it occurs, in their original order, and as many as there are passing positions.
 */
module Sequences {

  /** `s.filter(p)`, built the way a `forEach` that pushes the passing elements builds it. */
  function Filter<T(!new)>(p: T -> bool, s: seq<T>): (r: seq<T>)
    ensures |r| <= |s|
  {
    if s == [] then []
    else
      var init, last := s[..|s| - 1], s[|s| - 1];
      Filter(p, init) + (if p(last) then [last] else [])
  }

  /** The filter holds exactly the elements of `s` that pass. */
  lemma {:induction false} FilterMembers<T(!new)>(p: T -> bool, s: seq<T>)
    ensures forall x :: x in Filter(p, s) <==> x in s && p(x)
  {
    if s != [] {
      var init, last := s[..|s| - 1], s[|s| - 1];
      FilterMembers(p, init);
      assert s == init + [last];
    }
  }

  /** Each passing element is kept as often as it occurs in `s`, every other one never. */
  lemma {:induction false} FilterMultiset<T(!new)>(p: T -> bool, s: seq<T>)
    ensures forall x :: multiset(Filter(p, s))[x] == if p(x) then multiset(s)[x] else 0
  {
    if s != [] {
      var init, last := s[..|s| - 1], s[|s| - 1];
      FilterMultiset(p, init);
      assert s == init + [last];
      assert multiset(s) == multiset(init) + multiset{last};
    }
  }

  /** `r` is `s` read at the strictly increasing indices `idx`, each of which passes `p`. */
  ghost predicate PicksWhere<T(!new)>(p: T -> bool, s: seq<T>, idx: seq<int>, r: seq<T>)
  {
    |idx| == |r| &&
    (forall k :: 0 <= k < |idx| ==> 0 <= idx[k] < |s| && p(s[idx[k]]) && r[k] == s[idx[k]]) &&
    (forall k, l :: 0 <= k < l < |idx| ==> idx[k] < idx[l])
  }

  /** The positions `Filter` keeps: the filter preserves the order of `s`. */
  ghost function Positions<T(!new)>(p: T -> bool, s: seq<T>): (idx: seq<int>)
    ensures PicksWhere(p, s, idx, Filter(p, s))
  {
    if s == [] then []
    else
      var init, last := s[..|s| - 1], s[|s| - 1];
      var before := Positions(p, init);
      assert s == init + [last];
      PositionsStep(p, init, last, before);
      before + (if p(last) then [|init|] else [])
  }

  /** One more element: its position is kept exactly when it passes. */
  lemma {:induction false} PositionsStep<T(!new)>(p: T -> bool, init: seq<T>, last: T, before: seq<int>)
    requires PicksWhere(p, init, before, Filter(p, init))
    ensures PicksWhere(p, init + [last], before + (if p(last) then [|init|] else []), Filter(p, init + [last]))
  {
    var s := init + [last];
    assert s[..|s| - 1] == init;
    var r0 := Filter(p, init);
    if p(last) {
      var idx, r := before + [|init|], r0 + [last];
      assert Filter(p, s) == r;
      forall k | 0 <= k < |idx| ensures 0 <= idx[k] < |s| && p(s[idx[k]]) && r[k] == s[idx[k]] {
        if k < |before| {
          assert idx[k] == before[k] && r[k] == r0[k] && s[before[k]] == init[before[k]];
        }
      }
      forall k, l | 0 <= k < l < |idx| ensures idx[k] < idx[l] {
        assert idx[k] == before[k];
      }
    } else {
      assert Filter(p, s) == r0;
      assert before + [] == before;
      forall k | 0 <= k < |before| ensures before[k] < |s| && s[before[k]] == init[before[k]] {
      }
    }
  }

  /** No passing position is skipped. */
  lemma {:induction false} PositionsComplete<T(!new)>(p: T -> bool, s: seq<T>)
    ensures forall i :: 0 <= i < |s| && p(s[i]) ==> i in Positions(p, s)
  {
    if s != [] {
      var init, last := s[..|s| - 1], s[|s| - 1];
      PositionsComplete(p, init);
      forall i | 0 <= i < |init| ensures s[i] == init[i] { }
    }
  }

  /** The passing positions of `s`. */
  ghost function Passing<T(!new)>(p: T -> bool, s: seq<T>): set<int>
  {
    set i | 0 <= i < |s| && p(s[i])
  }

  /** The filter keeps one element per passing position. */
  lemma {:induction false} FilterCount<T(!new)>(p: T -> bool, s: seq<T>)
    ensures |Filter(p, s)| == |Passing(p, s)|
  {
    if s != [] {
      var init, last := s[..|s| - 1], s[|s| - 1];
      FilterCount(p, init);
      var before := Passing(p, init);
      assert forall i :: 0 <= i < |init| ==> s[i] == init[i];
      if p(last) {
        assert Passing(p, s) == before + {|s| - 1};
        assert |s| - 1 !in before;
      } else {
        assert Passing(p, s) == before;
      }
    }
  }

  /** One element is kept exactly when it passes. */
  lemma FilterOne<T(!new)>(p: T -> bool, x: T)
    ensures Filter(p, [x]) == if p(x) then [x] else []
  {
    assert [x][..0] == [];
  }

  /** Filtering splits over concatenation. */
  lemma {:induction false} FilterAppend<T(!new)>(p: T -> bool, s: seq<T>, t: seq<T>)
    ensures Filter(p, s + t) == Filter(p, s) + Filter(p, t)
    decreases |t|
  {
    if t == [] {
      assert s + t == s;
    } else {
      var init := t[..|t| - 1];
      assert (s + t)[..|s + t| - 1] == s + init;
      assert (s + t)[|s + t| - 1] == t[|t| - 1];
      FilterAppend(p, s, init);
    }
  }

  /** The first element, then the filter of the rest. */
  lemma {:induction false} FilterCons<T(!new)>(p: T -> bool, x: T, s: seq<T>)
    ensures Filter(p, [x] + s) == (if p(x) then [x] else []) + Filter(p, s)
  {
    FilterAppend(p, [x], s);
    assert [x][..0] == [];
  }

  /** Nothing passes, nothing is kept. */
  lemma {:induction false} FilterNone<T(!new)>(p: T -> bool, s: seq<T>)
    requires forall i :: 0 <= i < |s| ==> !p(s[i])
    ensures Filter(p, s) == []
  {
    assert Passing(p, s) == {};
    FilterCount(p, s);
  }

  /** More than one element is kept exactly when two different positions pass. */
  lemma {:induction false} FilterMoreThanOne<T(!new)>(p: T -> bool, s: seq<T>)
    ensures |Filter(p, s)| > 1 <==> exists i, j :: 0 <= i < j < |s| && p(s[i]) && p(s[j])
  {
    if |Filter(p, s)| > 1 {
      TwoKeptTwoPassing(p, s);
    }
    if exists i, j :: 0 <= i < j < |s| && p(s[i]) && p(s[j]) {
      var i, j :| 0 <= i < j < |s| && p(s[i]) && p(s[j]);
      TwoPassingTwoKept(p, s, i, j);
    }
  }

  /** Two kept elements come from two passing positions. */
  lemma {:induction false} TwoKeptTwoPassing<T(!new)>(p: T -> bool, s: seq<T>)
    requires |Filter(p, s)| > 1
    ensures exists i, j :: 0 <= i < j < |s| && p(s[i]) && p(s[j])
  {
    var idx := Positions(p, s);
    assert 0 <= idx[0] < idx[1] < |s| && p(s[idx[0]]) && p(s[idx[1]]);
  }

  /** Two passing positions are both kept. */
  lemma {:induction false} TwoPassingTwoKept<T(!new)>(p: T -> bool, s: seq<T>, i: int, j: int)
    requires 0 <= i < j < |s| && p(s[i]) && p(s[j])
    ensures |Filter(p, s)| > 1
  {
    var idx := Positions(p, s);
    PositionsComplete(p, s);
    assert i in idx && j in idx;
    var k :| 0 <= k < |idx| && idx[k] == i;
    var l :| 0 <= l < |idx| && idx[l] == j;
    assert k != l;
  }

  /** `r` lists, in order, the elements of `s` at exactly the positions where `p` holds. */
  ghost predicate FilteredInOrder<T(!new)>(p: T -> bool, s: seq<T>, r: seq<T>)
  {
    exists idx :: PicksWhere(p, s, idx, r) && forall i :: 0 <= i < |s| && p(s[i]) ==> i in idx
  }

  /** The filter lists the passing elements in the order of `s`, skipping none. */
  lemma {:induction false} FilterInOrder<T(!new)>(p: T -> bool, s: seq<T>)
    ensures FilteredInOrder(p, s, Filter(p, s))
  {
    PositionsComplete(p, s);
    var idx := Positions(p, s);
  }

  /** `s.filter(p).map(f)`. */
  function FilterMap<T(!new), U>(p: T -> bool, f: T -> U, s: seq<T>): (r: seq<U>)
    ensures |r| == |Filter(p, s)|
  {
    var kept := Filter(p, s);
    seq(|kept|, k requires 0 <= k < |kept| => f(kept[k]))
  }

  /** `r` is `f` of the elements of `s` at exactly the positions where `p` holds, in order. */
  ghost predicate MappedInOrder<T(!new), U>(p: T -> bool, f: T -> U, s: seq<T>, r: seq<U>)
  {
    exists idx: seq<int> :: |idx| == |r| &&
      (forall k :: 0 <= k < |idx| ==> 0 <= idx[k] < |s| && p(s[idx[k]]) && r[k] == f(s[idx[k]])) &&
      (forall k, l :: 0 <= k < l < |idx| ==> idx[k] < idx[l]) &&
      (forall i :: 0 <= i < |s| && p(s[i]) ==> i in idx)
  }

  /** The mapped filter follows the passing positions of `s` in order, skipping none. */
  lemma {:induction false} FilterMapInOrder<T(!new), U>(p: T -> bool, f: T -> U, s: seq<T>)
    ensures MappedInOrder(p, f, s, FilterMap(p, f, s))
  {
    PositionsComplete(p, s);
    var idx := Positions(p, s);
    var r := FilterMap(p, f, s);
    forall k | 0 <= k < |idx| ensures r[k] == f(s[idx[k]]) {
      assert Filter(p, s)[k] == s[idx[k]];
    }
  }

  /** The mapped elements are `f` of the passing elements of `s`, and of nothing else. */
  lemma {:induction false} FilterMapMembers<T(!new), U>(p: T -> bool, f: T -> U, s: seq<T>)
    ensures forall y :: y in FilterMap(p, f, s) <==> exists x :: x in s && p(x) && y == f(x)
  {
    var kept := Filter(p, s);
    FilterMembers(p, s);
    var r := FilterMap(p, f, s);
    forall y | y in r ensures exists x :: x in s && p(x) && y == f(x) {
      var k :| 0 <= k < |r| && r[k] == y;
      assert kept[k] in kept;
    }
    forall y | exists x :: x in s && p(x) && y == f(x) ensures y in r {
      var x :| x in s && p(x) && y == f(x);
      var k :| 0 <= k < |kept| && kept[k] == x;
      assert r[k] == y;
    }
  }

  /** The first element's image, if it passes, then the mapped filter of the rest. */
  lemma {:induction false} FilterMapCons<T(!new), U>(p: T -> bool, f: T -> U, x: T, s: seq<T>)
    ensures FilterMap(p, f, [x] + s) == (if p(x) then [f(x)] else []) + FilterMap(p, f, s)
  {
    FilterCons(p, x, s);
    var r, rest := FilterMap(p, f, [x] + s), FilterMap(p, f, s);
    var kept := Filter(p, s);
    if p(x) {
      assert Filter(p, [x] + s) == [x] + kept;
      assert forall k :: 0 < k < |r| ==> r[k] == rest[k - 1];
      assert r == [f(x)] + rest;
    } else {
      assert Filter(p, [x] + s) == kept;
      assert r == [] + rest;
    }
  }
}
