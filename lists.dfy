/**
 * Generic list operations the aggregators are built from: `filter` followed by `map`, the
 * insertion-ordered `Set` of JavaScript (adding an element that is already there changes
 * nothing), and `flat`.
 */
module Lists {
  import Wrappers
  /** `s.filter(keep).map(f)`. */
  function FilterMap<A, B>(s: seq<A>, keep: A -> bool, f: A -> B): (r: seq<B>)
    ensures |r| <= |s|
  {
    if s == [] then []
    else FilterMap(s[..|s| - 1], keep, f) + (if keep(s[|s| - 1]) then [f(s[|s| - 1])] else [])
  }

  lemma FilterMapSnoc<A, B>(s: seq<A>, i: nat, keep: A -> bool, f: A -> B)
    requires i < |s|
    ensures FilterMap(s[..i + 1], keep, f) == FilterMap(s[..i], keep, f) + (if keep(s[i]) then [f(s[i])] else [])
  {
    assert s[..i + 1][..i] == s[..i];
  }

  /** Every element of the result is the image of a kept element. */
  lemma {:induction false} FilterMapSource<A, B>(s: seq<A>, keep: A -> bool, f: A -> B, k: nat) returns (i: nat)
    requires k < |FilterMap(s, keep, f)|
    ensures i < |s| && keep(s[i]) && FilterMap(s, keep, f)[k] == f(s[i])
  {
    var init := s[..|s| - 1];
    if k < |FilterMap(init, keep, f)| {
      i := FilterMapSource(init, keep, f, k);
      assert init[i] == s[i];
    } else {
      i := |s| - 1;
    }
  }

  /** Every kept element has its image in the result. */
  lemma {:induction false} FilterMapIncludes<A, B>(s: seq<A>, keep: A -> bool, f: A -> B, i: nat)
    requires i < |s| && keep(s[i])
    ensures f(s[i]) in FilterMap(s, keep, f)
  {
    var init := s[..|s| - 1];
    if i < |init| {
      assert init[i] == s[i];
      FilterMapIncludes(init, keep, f, i);
    }
  }

  /** Keeping everything maps every element, in order. */
  lemma {:induction false} FilterMapAll<A, B>(s: seq<A>, keep: A -> bool, f: A -> B)
    requires forall i :: 0 <= i < |s| ==> keep(s[i])
    ensures |FilterMap(s, keep, f)| == |s|
    ensures forall i :: 0 <= i < |s| ==> FilterMap(s, keep, f)[i] == f(s[i])
  {
    if s != [] {
      var init := s[..|s| - 1];
      FilterMapAll(init, keep, f);
      assert forall i :: 0 <= i < |init| ==> init[i] == s[i];
    }
  }

  /** `filter` and `map` distribute over concatenation. */
  lemma {:induction false} FilterMapAppend<A, B>(a: seq<A>, b: seq<A>, keep: A -> bool, f: A -> B)
    ensures FilterMap(a + b, keep, f) == FilterMap(a, keep, f) + FilterMap(b, keep, f)
  {
    if b == [] {
      assert a + b == a;
    } else {
      var init := b[..|b| - 1];
      FilterMapAppend(a, init, keep, f);
      assert (a + b)[..|a + b| - 1] == a + init;
      assert (a + b)[|a + b| - 1] == b[|b| - 1];
    }
  }

  /** `s.filter(keep)`. */
  function Filter<T(!new)>(s: seq<T>, keep: T -> bool): (r: seq<T>)
    ensures forall x :: x in r <==> x in s && keep(x)
  {
    var r := FilterMap(s, keep, x => x);
    assert forall x :: x in r ==> x in s && keep(x) by {
      forall k | 0 <= k < |r| ensures r[k] in s && keep(r[k]) {
        var i := FilterMapSource(s, keep, x => x, k);
      }
    }
    assert forall i :: 0 <= i < |s| && keep(s[i]) ==> s[i] in r by {
      forall i | 0 <= i < |s| && keep(s[i]) ensures s[i] in r {
        FilterMapIncludes(s, keep, x => x, i);
      }
    }
    r
  }

  /**
   * `r` is the subsequence of `s` at the strictly increasing positions `idx`: the elements
   * of `r` come from `s`, once each, in the order they have in `s`.
   */
  ghost predicate SubsequenceAt<T>(r: seq<T>, s: seq<T>, idx: seq<nat>) {
    && |idx| == |r|
    && (forall k :: 0 <= k < |idx| ==> idx[k] < |s| && r[k] == s[idx[k]])
    && (forall k, l :: 0 <= k < l < |idx| ==> idx[k] < idx[l])
  }

  /**
   * `filter` keeps exactly the elements that pass, in order and each as often as in `s`:
   * the result sits at increasing positions of `s`, all of which pass, and every position
   * that passes is among them.
   */
  lemma {:induction false} FilterIndices<T(!new)>(s: seq<T>, keep: T -> bool) returns (idx: seq<nat>)
    ensures SubsequenceAt(Filter(s, keep), s, idx)
    ensures forall k :: 0 <= k < |idx| ==> keep(s[idx[k]])
    ensures forall i :: 0 <= i < |s| && keep(s[i]) ==> i in idx
  {
    if s == [] {
      idx := [];
    } else {
      var init, x := s[..|s| - 1], s[|s| - 1];
      var prev := FilterIndices(init, keep);
      FilterSnoc(s, keep);
      FrontLast(s);
      idx := FilterIndicesStep(init, x, Filter(init, keep), prev, keep);
    }
  }

  /** The step of `FilterIndices`: one more element, kept or not. */
  lemma FilterIndicesStep<T>(init: seq<T>, x: T, r0: seq<T>, prev: seq<nat>, keep: T -> bool) returns (idx: seq<nat>)
    requires SubsequenceAt(r0, init, prev)
    requires forall k :: 0 <= k < |prev| ==> keep(init[prev[k]])
    requires forall i :: 0 <= i < |init| && keep(init[i]) ==> i in prev
    ensures SubsequenceAt(r0 + (if keep(x) then [x] else []), init + [x], idx)
    ensures forall k :: 0 <= k < |idx| ==> keep((init + [x])[idx[k]])
    ensures forall i :: 0 <= i < |init + [x]| && keep((init + [x])[i]) ==> i in idx
  {
    var s := init + [x];
    if keep(x) {
      idx := prev + [|init|];
    } else {
      idx := prev;
    }
    assert forall k :: 0 <= k < |prev| ==> idx[k] == prev[k] && s[prev[k]] == init[prev[k]];
  }

  lemma FilterSnoc<T(!new)>(s: seq<T>, keep: T -> bool)
    requires s != []
    ensures Filter(s, keep) == Filter(s[..|s| - 1], keep) + (if keep(s[|s| - 1]) then [s[|s| - 1]] else [])
  {
  }

  /** `s.find(p)`: the first element that passes, or nothing when none does. */
  function Find<T(!new)>(s: seq<T>, p: T -> bool): (r: Wrappers.Option<T>)
    ensures r.None? <==> forall x :: x in s ==> !p(x)
    ensures r.Some? ==> exists i :: 0 <= i < |s| && s[i] == r.value && p(s[i]) && forall j :: 0 <= j < i ==> !p(s[j])
  {
    if s == [] then Wrappers.None
    else if p(s[0]) then Wrappers.Some(s[0])
    else
      var r := Find(s[1..], p);
      assert forall x :: x in s ==> x == s[0] || x in s[1..];
      r
  }

  /** The elements of a list with no element twice. */
  predicate Distinct<T(==)>(s: seq<T>) {
    forall i, j :: 0 <= i < j < |s| ==> s[i] != s[j]
  }

  /** `set.add(x)` on an insertion-ordered set. */
  function Add<T(==, !new)>(s: seq<T>, x: T): (r: seq<T>)
    ensures Distinct(s) ==> Distinct(r)
    ensures forall y :: y in r <==> y in s || y == x
  {
    if x in s then s else s + [x]
  }

  /** Adding each element of `xs` in turn. */
  function AddAll<T(==, !new)>(s: seq<T>, xs: seq<T>): (r: seq<T>)
    ensures Distinct(s) ==> Distinct(r)
    ensures forall y :: y in r <==> y in s || y in xs
  {
    if xs == [] then s
    else
      var r := Add(AddAll(s, xs[..|xs| - 1]), xs[|xs| - 1]);
      assert forall y :: y in xs <==> y in xs[..|xs| - 1] || y == xs[|xs| - 1] by {
        assert xs == xs[..|xs| - 1] + [xs[|xs| - 1]];
      }
      r
  }

  /** Adding two lists one after the other is adding their concatenation. */
  lemma {:induction false} AddAllAppend<T(!new)>(s: seq<T>, a: seq<T>, b: seq<T>)
    ensures AddAll(AddAll(s, a), b) == AddAll(s, a + b)
  {
    if b != [] {
      AddAllAppend(s, a, b[..|b| - 1]);
      assert (a + b)[..|a + b| - 1] == a + b[..|b| - 1];
      assert (a + b)[|a + b| - 1] == b[|b| - 1];
    } else {
      assert a + b == a;
    }
  }

  /**
   * The elements of `ks` come in the order of their first appearance in `xs`: wherever a later
   * element of `ks` occurs in `xs`, every earlier one has already occurred.
   */
  ghost predicate FirstAppearanceOrder<T>(ks: seq<T>, xs: seq<T>) {
    forall i, j, p :: 0 <= i < j < |ks| && 0 <= p < |xs| && xs[p] == ks[j] ==>
      exists q :: 0 <= q < p && xs[q] == ks[i]
  }

  /** `Array.from(new Set(xs))` lists the distinct elements in order of first appearance. */
  lemma {:induction false} AddAllFirstAppearance<T(!new)>(xs: seq<T>)
    ensures FirstAppearanceOrder(AddAll([], xs), xs)
  {
    if xs != [] {
      var n := |xs|;
      var init, x := xs[..n - 1], xs[n - 1];
      var prev := AddAll([], init);
      AddAllFirstAppearance(init);
      var ks := AddAll([], xs);
      assert ks == Add(prev, x);
      forall i, j, p | 0 <= i < j < |ks| && 0 <= p < n && xs[p] == ks[j]
        ensures exists q :: 0 <= q < p && xs[q] == ks[i]
      {
        if j < |prev| {
          if p < n - 1 {
            assert init[p] == ks[j];
            var q :| 0 <= q < p && init[q] == prev[i];
            assert xs[q] == ks[i];
          } else {
            assert prev[j] in init;
            var p' :| 0 <= p' < n - 1 && init[p'] == prev[j];
            var q :| 0 <= q < p' && init[q] == prev[i];
            assert xs[q] == ks[i];
          }
        } else {
          assert x !in prev && ks[j] == x;
          assert prev[i] in init;
          var q :| 0 <= q < n - 1 && init[q] == prev[i];
          assert xs[q] == ks[i];
        }
      }
    }
  }

  /** Adding an element keeps the earlier order: the old set is a prefix of the new one. */
  lemma {:induction false} AddAllExtends<T(!new)>(s: seq<T>, xs: seq<T>)
    ensures |s| <= |AddAll(s, xs)| && AddAll(s, xs)[..|s|] == s
  {
    if xs != [] {
      AddAllExtends(s, xs[..|xs| - 1]);
    }
  }

  /** `lists.flat()`. */
  function Flatten<T>(lists: seq<seq<T>>): seq<T> {
    if lists == [] then [] else Flatten(lists[..|lists| - 1]) + lists[|lists| - 1]
  }

  lemma FlattenSnoc<T>(lists: seq<seq<T>>, i: nat)
    requires i < |lists|
    ensures Flatten(lists[..i + 1]) == Flatten(lists[..i]) + lists[i]
  {
    assert lists[..i + 1][..i] == lists[..i];
  }

  /** `s.map(f)`. */
  function Map<A, B>(s: seq<A>, f: A -> B): (r: seq<B>)
    ensures |r| == |s| && forall i :: 0 <= i < |s| ==> r[i] == f(s[i])
  {
    seq(|s|, i requires 0 <= i < |s| => f(s[i]))
  }

  /** `s.map((x, i) => f(x, i))`: each element with its position. */
  function MapIndexed<A, B>(s: seq<A>, f: (A, nat) -> B): (r: seq<B>)
    ensures |r| == |s| && forall i :: 0 <= i < |s| ==> r[i] == f(s[i], i)
  {
    seq(|s|, i requires 0 <= i < |s| => f(s[i], i))
  }

  lemma MapSnoc<A, B>(s: seq<A>, x: A, f: A -> B)
    ensures Map(s + [x], f) == Map(s, f) + [f(x)]
  {
  }

  lemma MapTakeSnoc<A, B>(s: seq<A>, j: nat, f: A -> B)
    requires j < |s|
    ensures Map(s[..j + 1], f) == Map(s[..j], f) + [f(s[j])]
  {
  }

  lemma MapAppend<A, B>(a: seq<A>, b: seq<A>, f: A -> B)
    ensures Map(a + b, f) == Map(a, f) + Map(b, f)
  {
  }

  lemma MapIndexedSnoc<A, B>(s: seq<A>, j: nat, f: (A, nat) -> B)
    requires j < |s|
    ensures MapIndexed(s[..j + 1], f) == MapIndexed(s[..j], f) + [f(s[j], j)]
  {
  }

  lemma TakeSnoc<T>(s: seq<T>, i: nat)
    requires i < |s|
    ensures s[..i + 1] == s[..i] + [s[i]]
  {
  }

  /** Taking the whole of a sequence leaves it as it is. */
  lemma TakeAll<T>(s: seq<T>)
    ensures s[..|s|] == s
  {
  }

  /** `s` without its element at `m`; the multiset loses that one element. */
  lemma RemoveAt<T>(s: seq<T>, m: nat) returns (rest: seq<T>)
    requires m < |s|
    ensures rest == s[..m] + s[m + 1..]
    ensures multiset(rest) == multiset(s) - multiset{s[m]}
  {
    rest := s[..m] + s[m + 1..];
    assert s == s[..m] + [s[m]] + s[m + 1..];
  }

  /** A non-empty sequence is its front followed by its last element. */
  lemma FrontLast<T>(s: seq<T>)
    requires s != []
    ensures s == s[..|s| - 1] + [s[|s| - 1]]
  {
  }

  lemma AppendAssoc<T>(a: seq<T>, b: seq<T>, c: seq<T>)
    ensures (a + b) + c == a + (b + c)
  {
  }
}
