/**
 * `Array.prototype.sort` with a comparator: a stable sort. The model is a stable insertion
 * sort over a "may come first" relation `le(a, b)`, which stands for `compare(a, b) <= 0`.
 */
module Sorting {
  import opened Lists

  /** Every two elements are related one way or the other. */
  ghost predicate Total<T(!new)>(le: (T, T) -> bool) {
    forall a: T, b: T :: le(a, b) || le(b, a)
  }

  ghost predicate Transitive<T(!new)>(le: (T, T) -> bool) {
    forall a: T, b: T, c: T :: le(a, b) && le(b, c) ==> le(a, c)
  }

  /** Every element may come before every later one. */
  predicate SortedBy<T>(s: seq<T>, le: (T, T) -> bool) {
    forall i, j :: 0 <= i < j < |s| ==> le(s[i], s[j])
  }

  /** Places `x` before the first element it may precede (so after every element it must follow). */
  function Insert<T>(x: T, s: seq<T>, le: (T, T) -> bool): (r: seq<T>)
    ensures |r| == |s| + 1 && multiset(r) == multiset(s) + multiset{x}
  {
    if s == [] then [x]
    else if le(x, s[0]) then [x] + s
    else
      var r := [s[0]] + Insert(x, s[1..], le);
      assert s == [s[0]] + s[1..];
      r
  }

  /** The stable sort of `s`: each element goes in front of the equal ones that follow it. */
  function SortBy<T>(s: seq<T>, le: (T, T) -> bool): (r: seq<T>)
    ensures |r| == |s| && multiset(r) == multiset(s)
  {
    if s == [] then []
    else
      var r := Insert(s[0], SortBy(s[1..], le), le);
      assert s == [s[0]] + s[1..];
      r
  }

  /** The comparator that compares two elements by a key of each. */
  function ByKey<T, K>(key: T -> K, le: (K, K) -> bool): (T, T) -> bool {
    (a: T, b: T) => le(key(a), key(b))
  }

  /** Inserting by key and then taking keys is inserting the key among the keys. */
  lemma {:induction false} InsertByKey<T, K>(x: T, s: seq<T>, key: T -> K, le: (K, K) -> bool)
    ensures Map(Insert(x, s, ByKey(key, le)), key) == Insert(key(x), Map(s, key), le)
  {
    if s == [] {
    } else if le(key(x), key(s[0])) {
      assert ByKey(key, le)(x, s[0]);
      MapAppend([x], s, key);
    } else {
      assert !ByKey(key, le)(x, s[0]);
      InsertByKey(x, s[1..], key, le);
      assert Map(s, key)[1..] == Map(s[1..], key);
      MapAppend([s[0]], Insert(x, s[1..], ByKey(key, le)), key);
    }
  }

  /** Sorting by a key and then taking keys is sorting the keys. */
  lemma {:induction false} SortByKey<T, K>(s: seq<T>, key: T -> K, le: (K, K) -> bool)
    ensures Map(SortBy(s, ByKey(key, le)), key) == SortBy(Map(s, key), le)
  {
    if s != [] {
      SortByKey(s[1..], key, le);
      assert Map(s, key)[1..] == Map(s[1..], key);
      InsertByKey(s[0], SortBy(s[1..], ByKey(key, le)), key, le);
    }
  }

  /** Inserting an element that is not there keeps a list free of repeats. */
  lemma {:induction false} InsertDistinct<T>(x: T, s: seq<T>, le: (T, T) -> bool)
    requires Distinct(s) && x !in s
    ensures Distinct(Insert(x, s, le))
  {
    if s != [] && !le(x, s[0]) {
      InsertDistinct(x, s[1..], le);
      var r := Insert(x, s[1..], le);
      assert s[0] !in multiset(s[1..]) + multiset{x} by {
        assert s == [s[0]] + s[1..];
      }
      assert s[0] !in multiset(r);
    }
  }

  /** Sorting keeps a list free of repeats. */
  lemma {:induction false} SortByDistinct<T>(s: seq<T>, le: (T, T) -> bool)
    requires Distinct(s)
    ensures Distinct(SortBy(s, le))
  {
    if s != [] {
      SortByDistinct(s[1..], le);
      var t := SortBy(s[1..], le);
      assert s[0] !in s[1..];
      assert s[0] !in multiset(t);
      InsertDistinct(s[0], t, le);
    }
  }

  lemma {:induction false} InsertSorted<T(!new)>(x: T, s: seq<T>, le: (T, T) -> bool)
    requires Total(le) && Transitive(le) && SortedBy(s, le)
    ensures SortedBy(Insert(x, s, le), le)
  {
    if s != [] && !le(x, s[0]) {
      assert le(s[0], x);
      InsertSorted(x, s[1..], le);
      var r := Insert(x, s[1..], le);
      assert forall k :: 0 <= k < |r| ==> r[k] in multiset(s[1..]) + multiset{x};
      forall k | 0 <= k < |r| ensures le(s[0], r[k]) {
        assert r[k] in multiset(s[1..]) + multiset{x};
        if r[k] != x {
          assert r[k] in multiset(s[1..]);
          var m :| 0 <= m < |s[1..]| && s[1..][m] == r[k];
          assert s[m + 1] == r[k];
        }
      }
    }
  }

  /** Under a total, transitive order the result is sorted. */
  lemma {:induction false} SortBySorted<T(!new)>(s: seq<T>, le: (T, T) -> bool)
    requires Total(le) && Transitive(le)
    ensures SortedBy(SortBy(s, le), le)
  {
    if s != [] {
      SortBySorted(s[1..], le);
      InsertSorted(s[0], SortBy(s[1..], le), le);
    }
  }

  /** Sorting leaves an already sorted sequence as it is (and so is idempotent). */
  lemma {:induction false} SortByOfSorted<T>(s: seq<T>, le: (T, T) -> bool)
    requires SortedBy(s, le)
    ensures SortBy(s, le) == s
  {
    if s != [] {
      assert SortedBy(s[1..], le);
      SortByOfSorted(s[1..], le);
      if |s| > 1 {
        assert le(s[0], s[1..][0]);
      }
    }
  }

  /** `a` and `b` may each come before the other: the comparator returns 0 for them. */
  predicate Tied<T>(le: (T, T) -> bool, a: T, b: T) {
    le(a, b) && le(b, a)
  }

  /** The elements of `s` tied with `x`, in the order they have in `s`. */
  function Peers<T>(s: seq<T>, x: T, le: (T, T) -> bool): seq<T> {
    if s == [] then []
    else (if Tied(le, s[0], x) then [s[0]] else []) + Peers(s[1..], x, le)
  }

  /** Inserting `y` puts it ahead of every element tied with it. */
  lemma {:induction false} InsertPeers<T>(y: T, s: seq<T>, x: T, le: (T, T) -> bool)
    requires forall k :: 0 <= k < |s| && Tied(le, y, x) && Tied(le, s[k], x) ==> le(y, s[k])
    ensures Peers(Insert(y, s, le), x, le) == Peers([y] + s, x, le)
  {
    if s != [] && !le(y, s[0]) {
      InsertPeers(y, s[1..], x, le);
      PeersInsertBehind(y, s, x, le);
    }
  }

  /** The step of `InsertPeers` where `y` goes behind `s[0]`, which it is not tied with. */
  lemma PeersInsertBehind<T>(y: T, s: seq<T>, x: T, le: (T, T) -> bool)
    requires s != [] && !le(y, s[0])
    requires !(Tied(le, y, x) && Tied(le, s[0], x))
    requires Peers(Insert(y, s[1..], le), x, le) == Peers([y] + s[1..], x, le)
    ensures Peers(Insert(y, s, le), x, le) == Peers([y] + s, x, le)
  {
    var rest := s[1..];
    var t := Insert(y, rest, le);
    var a := if Tied(le, s[0], x) then [s[0]] else [];
    var b := if Tied(le, y, x) then [y] else [];
    calc {
      Peers(Insert(y, s, le), x, le);
    == { assert Insert(y, s, le) == [s[0]] + t; }
      Peers([s[0]] + t, x, le);
    == { PeersCons(s[0], t, x, le); }
      a + Peers([y] + rest, x, le);
    == { PeersCons(y, rest, x, le); }
      a + (b + Peers(rest, x, le));
    == { assert a == [] || b == []; SwapEmpty(a, b, Peers(rest, x, le)); }
      b + (a + Peers(rest, x, le));
    == { PeersCons(s[0], rest, x, le); assert s == [s[0]] + rest; }
      b + Peers(s, x, le);
    == { PeersCons(y, s, x, le); }
      Peers([y] + s, x, le);
    }
  }

  lemma SwapEmpty<T>(a: seq<T>, b: seq<T>, p: seq<T>)
    requires a == [] || b == []
    ensures a + (b + p) == b + (a + p)
  {
    if a == [] {
      assert a + (b + p) == b + p && a + p == p;
    } else {
      assert b + (a + p) == a + p && b + p == p;
    }
  }

  lemma PeersCons<T>(a: T, s: seq<T>, x: T, le: (T, T) -> bool)
    ensures Peers([a] + s, x, le) == (if Tied(le, a, x) then [a] else []) + Peers(s, x, le)
  {
    assert ([a] + s)[1..] == s;
  }

  /** Any two elements of `s` tied with `x` may come in either order, as transitivity gives. */
  ghost predicate TiesInterchangeable<T>(s: seq<T>, x: T, le: (T, T) -> bool) {
    forall a, b :: a in s && b in s && Tied(le, a, x) && Tied(le, b, x) ==> le(a, b)
  }

  /**
   * The sort is stable: elements the comparator ties keep their input order, so the tied
   * elements of the result are those of the input in the same order.
   */
  lemma {:induction false} SortByStable<T>(s: seq<T>, x: T, le: (T, T) -> bool)
    requires TiesInterchangeable(s, x, le)
    ensures Peers(SortBy(s, le), x, le) == Peers(s, x, le)
  {
    if s != [] {
      var t := SortBy(s[1..], le);
      assert TiesInterchangeable(s[1..], x, le);
      SortByStable(s[1..], x, le);
      forall k | 0 <= k < |t| && Tied(le, s[0], x) && Tied(le, t[k], x) ensures le(s[0], t[k]) {
        assert t[k] in multiset(s[1..]);
      }
      InsertPeers(s[0], t, x, le);
      assert ([s[0]] + t)[1..] == t;
    }
  }

  /** Under a transitive order every tie class is interchangeable. */
  lemma TransitiveTies<T(!new)>(s: seq<T>, x: T, le: (T, T) -> bool)
    requires Transitive(le)
    ensures TiesInterchangeable(s, x, le)
  {
    forall a, b | a in s && b in s && Tied(le, a, x) && Tied(le, b, x) ensures le(a, b) {
      assert le(a, x) && le(x, b);
    }
  }

  /** Comparing by a key under a transitive key order makes every tie class interchangeable. */
  lemma ByKeyTies<T, K(!new)>(s: seq<T>, x: T, key: T -> K, le: (K, K) -> bool)
    requires Transitive(le)
    ensures TiesInterchangeable(s, x, ByKey(key, le))
  {
    forall a, b | a in s && b in s && Tied(ByKey(key, le), a, x) && Tied(ByKey(key, le), b, x)
      ensures ByKey(key, le)(a, b)
    {
      assert le(key(a), key(x)) && le(key(x), key(b));
    }
  }

  // ---------------------------------------------------------------------------
  // localeCompare, taken as the lexicographic order of code units
  // ---------------------------------------------------------------------------

  /** `a.localeCompare(b) <= 0`. */
  predicate StrLe(a: string, b: string) {
    a == [] || (b != [] && (a[0] < b[0] || (a[0] == b[0] && StrLe(a[1..], b[1..]))))
  }

  /** `a.localeCompare(b) < 0`. */
  predicate StrLt(a: string, b: string) {
    StrLe(a, b) && a != b
  }

  lemma {:induction false} StrLeTotal(a: string, b: string)
    ensures StrLe(a, b) || StrLe(b, a)
  {
    if a != [] && b != [] && a[0] == b[0] {
      StrLeTotal(a[1..], b[1..]);
    }
  }

  lemma {:induction false} StrLeTransitive(a: string, b: string, c: string)
    requires StrLe(a, b) && StrLe(b, c)
    ensures StrLe(a, c)
  {
    if a != [] && b != [] && c != [] && a[0] == b[0] && b[0] == c[0] {
      StrLeTransitive(a[1..], b[1..], c[1..]);
    }
  }

  lemma {:induction false} StrLeAntisymmetric(a: string, b: string)
    requires StrLe(a, b) && StrLe(b, a)
    ensures a == b
  {
    if a != [] && b != [] {
      StrLeAntisymmetric(a[1..], b[1..]);
      assert a == [a[0]] + a[1..] && b == [b[0]] + b[1..];
    }
  }

  lemma StrLeReflexive(a: string)
    ensures StrLe(a, a)
  {
    if a != [] {
      StrLeReflexive(a[1..]);
    }
  }

  /** The text order is a total preorder, so sorting by it yields sorted text. */
  lemma StrLeIsOrder()
    ensures Total(StrLe) && Transitive(StrLe)
  {
    forall a: string, b: string ensures StrLe(a, b) || StrLe(b, a) {
      StrLeTotal(a, b);
    }
    forall a: string, b: string, c: string | StrLe(a, b) && StrLe(b, c) ensures StrLe(a, c) {
      StrLeTransitive(a, b, c);
    }
  }
}
