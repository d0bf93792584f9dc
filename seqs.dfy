/**
 * Filtering and counting over sequences: the `for x in xs: if keep(x):
 * out.append(x)` loops and the `len([x for x in xs if p(x)])` counts that the
 * scripts repeat.
 */
module Seqs {

  /** The elements of s that satisfy keep, in their original order. */
  function Filter<T>(s: seq<T>, keep: T -> bool): (r: seq<T>)
    ensures |r| <= |s|
    ensures forall k :: 0 <= k < |r| ==> keep(r[k])
    decreases |s|
  {
    if s == [] then []
    else Filter(s[..|s| - 1], keep) + (if keep(s[|s| - 1]) then [s[|s| - 1]] else [])
  }

  /** The positions in s of the elements that satisfy keep. */
  function KeptIndices<T>(s: seq<T>, keep: T -> bool): seq<nat>
    decreases |s|
  {
    if s == [] then []
    else KeptIndices(s[..|s| - 1], keep) + (if keep(s[|s| - 1]) then [|s| - 1] else [])
  }

  /** `f(x) for x in s` */
  function Map<T, U>(f: T -> U, s: seq<T>): (r: seq<U>)
    ensures |r| == |s| && forall i :: 0 <= i < |s| ==> r[i] == f(s[i])
  {
    seq(|s|, i requires 0 <= i < |s| => f(s[i]))
  }

  /** The number of elements of s that satisfy p. */
  function Count<T>(s: seq<T>, p: T -> bool): nat
    decreases |s|
  {
    if s == [] then 0 else Count(s[..|s| - 1], p) + (if p(s[|s| - 1]) then 1 else 0)
  }

  /** The filtered sequence is s read at a strictly increasing list of positions. */
  ghost predicate PicksFrom<T>(s: seq<T>, r: seq<T>, idx: seq<nat>, keep: T -> bool) {
    |idx| == |r|
    && (forall k :: 0 <= k < |idx| ==> idx[k] < |s| && keep(s[idx[k]]) && r[k] == s[idx[k]])
    && (forall k, l :: 0 <= k < l < |idx| ==> idx[k] < idx[l])
    && (forall i :: 0 <= i < |s| && keep(s[i]) ==> i in idx)
  }

  /**
   * Filtering keeps exactly the elements that satisfy keep, once each and in
   * their original order: the result is s read at the strictly increasing
   * positions where keep holds, and every such position is read.
   */
  lemma {:induction false} FilterPicks<T>(s: seq<T>, keep: T -> bool)
    ensures PicksFrom(s, Filter(s, keep), KeptIndices(s, keep), keep)
    ensures forall k :: 0 <= k < |KeptIndices(s, keep)| ==> KeptIndices(s, keep)[k] < |s|
    decreases |s|
  {
    if s != [] {
      var init := s[..|s| - 1];
      FilterPicks(init, keep);
      var idx := KeptIndices(init, keep);
      var r := Filter(init, keep);
      forall k | 0 <= k < |idx| ensures s[idx[k]] == init[idx[k]] { }
      if keep(s[|s| - 1]) {
        var idx' := idx + [|s| - 1];
        var r' := r + [s[|s| - 1]];
        assert KeptIndices(s, keep) == idx' && Filter(s, keep) == r';
        forall i | 0 <= i < |s| && keep(s[i]) ensures i in idx' {
          if i < |s| - 1 { assert init[i] == s[i]; assert i in idx; }
        }
      } else {
        forall i | 0 <= i < |s| && keep(s[i]) ensures i in idx {
          assert init[i] == s[i];
        }
      }
    }
  }

  /** Filtering never lengthens, and keeps everything exactly when everything satisfies keep. */
  lemma {:induction false} FilterAll<T>(s: seq<T>, keep: T -> bool)
    requires forall i :: 0 <= i < |s| ==> keep(s[i])
    ensures Filter(s, keep) == s
    decreases |s|
  {
    if s != [] {
      FilterAll(s[..|s| - 1], keep);
    }
  }

  /** The count is the length of the filtered sequence. */
  lemma {:induction false} CountIsFilterLength<T>(s: seq<T>, p: T -> bool)
    ensures Count(s, p) == |Filter(s, p)|
    decreases |s|
  {
    if s != [] {
      CountIsFilterLength(s[..|s| - 1], p);
    }
  }

  /** Every element satisfies p or its negation, so the two counts add up to the length. */
  lemma {:induction false} CountComplement<T>(s: seq<T>, p: T -> bool, q: T -> bool)
    requires forall x :: q(x) == !p(x)
    ensures Count(s, p) + Count(s, q) == |s|
    decreases |s|
  {
    if s != [] {
      CountComplement(s[..|s| - 1], p, q);
    }
  }

  /** Two sequences that agree position by position on p and q have equal counts. */
  lemma {:induction false} CountPointwise<T, U>(a: seq<T>, b: seq<U>, p: T -> bool, q: U -> bool)
    requires |a| == |b| && forall i :: 0 <= i < |a| ==> (p(a[i]) <==> q(b[i]))
    ensures Count(a, p) == Count(b, q)
    decreases |a|
  {
    if a != [] {
      CountPointwise(a[..|a| - 1], b[..|b| - 1], p, q);
    }
  }

  /** Counting q among the elements kept by p counts the elements satisfying both. */
  lemma {:induction false} CountFiltered<T>(s: seq<T>, p: T -> bool, q: T -> bool, both: T -> bool)
    requires forall x :: both(x) == (p(x) && q(x))
    ensures Count(Filter(s, p), q) == Count(s, both)
    decreases |s|
  {
    if s != [] {
      var init, x := s[..|s| - 1], s[|s| - 1];
      CountFiltered(init, p, q, both);
      assert Filter(s, p) == Filter(init, p) + (if p(x) then [x] else []);
      assert Count(s, both) == Count(init, both) + (if both(x) then 1 else 0);
      if p(x) {
        CountSnoc(Filter(init, p), x, q);
      } else {
        assert Filter(s, p) == Filter(init, p);
      }
    }
  }

  /** The count of one more element. */
  lemma CountSnoc<T>(s: seq<T>, x: T, p: T -> bool)
    ensures Count(s + [x], p) == Count(s, p) + (if p(x) then 1 else 0)
  {
    assert (s + [x])[..|s|] == s;
  }

  /** Filtering one more element. */
  lemma FilterSnoc<T>(s: seq<T>, x: T, keep: T -> bool)
    ensures Filter(s + [x], keep) == Filter(s, keep) + (if keep(x) then [x] else [])
  {
    assert (s + [x])[..|s|] == s;
  }

  /** The smallest element of a non-empty set of integers. */
  function MinOf(s: set<int>): (m: int)
    requires s != {}
    ensures m in s && forall x :: x in s ==> m <= x
  {
    MinExists(s);
    var m :| m in s && forall x :: x in s ==> m <= x; m
  }

  lemma {:induction false} MinExists(s: set<int>)
    requires s != {}
    ensures exists m :: m in s && forall x :: x in s ==> m <= x
    decreases |s|
  {
    if !exists y :: y in s { assert false; }
    var y :| y in s;
    var rest := s - {y};
    if rest != {} {
      assert |rest| < |s| by { assert s == rest + {y}; }
      MinExists(rest);
      var m :| m in rest && forall x :: x in rest ==> m <= x;
      var least := if y < m then y else m;
      forall x | x in s ensures least <= x {
        if x != y { assert x in rest; }
      }
      assert least in s;
    } else {
      forall x | x in s ensures y <= x {
        assert x !in rest;
      }
    }
  }

  /** `sorted(s)`: the elements of a set of integers in ascending order, each once. */
  function SortedInts(s: set<int>): (r: seq<int>)
    ensures |r| == |s|
    ensures forall k :: 0 <= k < |r| ==> r[k] in s
    ensures forall k, l :: 0 <= k < l < |r| ==> r[k] < r[l]
    decreases |s|
  {
    if s == {} then []
    else
      var m := MinOf(s);
      [m] + SortedInts(s - {m})
  }

  /** Every element of the set is listed by `SortedInts`. */
  lemma {:induction false} SortedIntsCovers(s: set<int>, x: int)
    requires x in s
    ensures exists k :: 0 <= k < |SortedInts(s)| && SortedInts(s)[k] == x
    decreases |s|
  {
    var m := MinOf(s);
    if x != m {
      SortedIntsCovers(s - {m}, x);
      var k :| 0 <= k < |SortedInts(s - {m})| && SortedInts(s - {m})[k] == x;
      assert SortedInts(s)[k + 1] == x;
    } else {
      assert SortedInts(s)[0] == x;
    }
  }

  /** Filtering a prefix one element longer. */
  lemma FilterPrefixStep<T>(s: seq<T>, i: nat, keep: T -> bool)
    requires i < |s|
    ensures Filter(s[..i + 1], keep) == Filter(s[..i], keep) + (if keep(s[i]) then [s[i]] else [])
  {
    assert s[..i + 1] == s[..i] + [s[i]];
    FilterSnoc(s[..i], s[i], keep);
  }

  /** Mapping one more element. */
  lemma MapSnoc<T, U>(f: T -> U, s: seq<T>, x: T)
    ensures Map(f, s + [x]) == Map(f, s) + [f(x)]
  {
  }

  /** Mapping a prefix one element longer. */
  lemma MapPrefix<T, U>(f: T -> U, s: seq<T>, i: nat)
    requires i < |s|
    ensures Map(f, s)[..i + 1] == Map(f, s)[..i] + [f(s[i])]
  {
  }

  /** The concatenation of a sequence of sequences, as `''.join` or repeated `+=` builds it. */
  function Flatten<T>(ss: seq<seq<T>>): (r: seq<T>)
    decreases |ss|
  {
    if ss == [] then [] else Flatten(ss[..|ss| - 1]) + ss[|ss| - 1]
  }

  /** Concatenating one more piece. */
  lemma FlattenSnoc<T>(ss: seq<seq<T>>, x: seq<T>)
    ensures Flatten(ss + [x]) == Flatten(ss) + x
  {
    assert (ss + [x])[..|ss|] == ss;
  }

  /**
   * Mapping the kept elements: one result per element that satisfies keep, the
   * k-th computed from the k-th kept position.
   */
  lemma MapFilterAt<T, U>(f: T -> U, s: seq<T>, keep: T -> bool)
    ensures var out := Map(f, Filter(s, keep)); var kept := KeptIndices(s, keep);
      |out| == Count(s, keep) == |kept|
      && forall k :: 0 <= k < |out| ==> kept[k] < |s| && out[k] == f(s[kept[k]])
  {
    FilterPicks(s, keep);
    CountIsFilterLength(s, keep);
  }

  /** `any(p(x) for x in s)` */
  predicate Any<T>(s: seq<T>, p: T -> bool) {
    exists i :: 0 <= i < |s| && p(s[i])
  }

  /** Some element of a non-empty sequence satisfies p exactly when one before the last does or the last does. */
  lemma AnySnoc<T>(s: seq<T>, p: T -> bool)
    requires s != []
    ensures Any(s, p) <==> Any(s[..|s| - 1], p) || p(s[|s| - 1])
  {
    var init := s[..|s| - 1];
    if Any(init, p) {
      var i :| 0 <= i < |init| && p(init[i]);
      assert s[i] == init[i];
    }
    if Any(s, p) && !p(s[|s| - 1]) {
      var i :| 0 <= i < |s| && p(s[i]);
      assert init[i] == s[i];
    }
  }

  /** Counting a prefix one element longer. */
  lemma CountPrefixStep<T>(s: seq<T>, i: nat, p: T -> bool)
    requires i < |s|
    ensures Count(s[..i + 1], p) == Count(s[..i], p) + (if p(s[i]) then 1 else 0)
  {
    assert s[..i + 1][..i] == s[..i];
  }

  /** A prefix one element longer. */
  lemma PrefixSnoc<T>(s: seq<T>, i: nat)
    requires i < |s|
    ensures s[..i + 1] == s[..i] + [s[i]]
  {
  }
}
