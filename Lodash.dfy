/** The lodash helpers and array methods the checkout code relies on, by
    their meaning: key restriction (`pick`), key removal (`omit`),
    first-occurrence deduplication (`uniq`) and order-preserving filters.
    Structural equality (`isEqual`) on records is Dafny's `==`. */
module Lodash {
  import opened JsValues

  /** `pick(object, keys)`: the properties of `object` whose key is listed. */
  function Pick(r: Record, keys: seq<Key>): (p: Record)
    ensures forall k :: k in p <==> k in r && k in keys
    ensures forall k :: k in p ==> p[k] == r[k]
  {
    map k | k in r && k in keys :: r[k]
  }

  /** `pick(object, keys)` where `object` may be null or undefined (giving `{}`). */
  function PickOf(r: Option<Record>, keys: seq<Key>): (p: Record)
    ensures r.None? ==> p == map[]
  {
    match r
    case None => map[]
    case Some(o) => Pick(o, keys)
  }

  /** `omit(object, keys)`: the properties of `object` whose key is not listed. */
  function Omit(r: Record, keys: seq<Key>): (p: Record)
    ensures forall k :: k in p <==> k in r && k !in keys
    ensures forall k :: k in p ==> p[k] == r[k]
  {
    map k | k in r && k !in keys :: r[k]
  }

  /** `omit(object, keys)` where `object` may be null or undefined (giving `{}`). */
  function OmitOf(r: Option<Record>, keys: seq<Key>): (p: Record)
    ensures r.None? ==> p == map[]
  {
    match r
    case None => map[]
    case Some(o) => Omit(o, keys)
  }

  predicate NoDuplicates<T(==)>(s: seq<T>) {
    forall i, j :: 0 <= i < j < |s| ==> s[i] != s[j]
  }

  /** A sequence whose every element is ranked by its own position holds no element twice. */
  lemma DistinctByRank<T>(s: seq<T>, rank: T -> int)
    requires forall i :: 0 <= i < |s| ==> rank(s[i]) == i
    ensures NoDuplicates(s)
  {
  }

  /** Position of the first occurrence of `x` in `s`. */
  function IndexOf<T(==)>(s: seq<T>, x: T): (i: nat)
    requires x in s
    ensures i < |s| && s[i] == x
    ensures forall j :: 0 <= j < i ==> s[j] != x
  {
    if s[0] == x then 0 else 1 + IndexOf(s[1..], x)
  }

  /** `uniq(s)`: the elements of `s` with every repeat after the first dropped. */
  function Uniq<T(==,!new)>(s: seq<T>): (u: seq<T>)
    ensures NoDuplicates(u)
    ensures forall x :: x in u <==> x in s
    ensures |u| <= |s|
  {
    if s == [] then []
    else
      var init, x := s[..|s| - 1], s[|s| - 1];
      assert s == init + [x];
      var u := Uniq(init);
      if x in u then u else u + [x]
  }

  /** `s.filter((x) => x !== v)` */
  function Without<T(==,!new)>(s: seq<T>, v: T): (r: seq<T>)
    ensures forall x :: x in r <==> x in s && x != v
    ensures |r| <= |s|
  {
    if s == [] then []
    else (if s[0] == v then [] else [s[0]]) + Without(s[1..], v)
  }

  /** `s.filter((x) => allowed.includes(x))` */
  function KeepIfIn<T(==,!new)>(s: seq<T>, allowed: seq<T>): (r: seq<T>)
    ensures forall x :: x in r <==> x in s && x in allowed
    ensures |r| <= |s|
  {
    if s == [] then []
    else (if s[0] in allowed then [s[0]] else []) + KeepIfIn(s[1..], allowed)
  }

  /** Filtering distributes over concatenation. */
  lemma {:induction false} WithoutAppend<T(!new)>(a: seq<T>, b: seq<T>, v: T)
    ensures Without(a + b, v) == Without(a, v) + Without(b, v)
  {
    if a != [] {
      WithoutAppend(a[1..], b, v);
      assert (a + b)[1..] == a[1..] + b;
    } else {
      assert a + b == b;
    }
  }

  /** Filtering out a value that does not occur changes nothing. */
  lemma {:induction false} WithoutAbsent<T(!new)>(s: seq<T>, v: T)
    requires v !in s
    ensures Without(s, v) == s
  {
    if s != [] {
      WithoutAbsent(s[1..], v);
    }
  }

  /** Uniq keeps the elements in the order of their first occurrence in `s`. */
  lemma {:induction false} UniqFirstOccurrenceOrder<T(!new)>(s: seq<T>)
    ensures forall i, j :: 0 <= i < j < |Uniq(s)| ==> IndexOf(s, Uniq(s)[i]) < IndexOf(s, Uniq(s)[j])
  {
    if s != [] {
      var init, x := s[..|s| - 1], s[|s| - 1];
      assert s == init + [x];
      UniqFirstOccurrenceOrder(init);
      var u := Uniq(init);
      forall y | y in init
        ensures IndexOf(s, y) == IndexOf(init, y)
      {
        IndexOfExtend(init, [x], y);
      }
      if x !in u {
        assert x !in init;
        assert IndexOf(s, x) == |init| by {
          assert s[|init|] == x;
          assert forall j :: 0 <= j < |init| ==> s[j] == init[j];
        }
      }
    }
  }

  /** Appending elements does not move the first occurrence of an element already present. */
  lemma IndexOfExtend<T>(a: seq<T>, b: seq<T>, y: T)
    requires y in a
    ensures IndexOf(a + b, y) == IndexOf(a, y)
  {
    var i, k := IndexOf(a + b, y), IndexOf(a, y);
    assert (a + b)[k] == y;
  }

  /** Deduplicating a longer sequence only appends: `uniq(a)` is a prefix of `uniq(a + b)`. */
  lemma {:induction false} UniqPrefix<T(!new)>(a: seq<T>, b: seq<T>)
    ensures Uniq(a) <= Uniq(a + b)
  {
    if b == [] {
      assert a + b == a;
    } else {
      var init := b[..|b| - 1];
      UniqPrefix(a, init);
      assert (a + b)[..|a + b| - 1] == a + init;
    }
  }

  /** Deduplicating a duplicate-free sequence changes nothing. */
  lemma {:induction false} UniqOfDistinct<T(!new)>(s: seq<T>)
    requires NoDuplicates(s)
    ensures Uniq(s) == s
  {
    if s != [] {
      var init, x := s[..|s| - 1], s[|s| - 1];
      assert s == init + [x];
      UniqOfDistinct(init);
    }
  }

  /** Appending elements a duplicate-free `u` already holds leaves `uniq` at `u`. */
  lemma {:induction false} UniqAbsorbs<T(!new)>(u: seq<T>, xs: seq<T>)
    requires NoDuplicates(u)
    requires forall x :: x in xs ==> x in u
    ensures Uniq(u + xs) == u
  {
    if xs == [] {
      assert u + xs == u;
      UniqOfDistinct(u);
    } else {
      var init := xs[..|xs| - 1];
      UniqAbsorbs(u, init);
      assert (u + xs)[..|u + xs| - 1] == u + init;
      assert xs[|xs| - 1] in xs;
    }
  }

  /** `s.filter((x) => allowed.includes(x))` depends only on which elements of `s` are allowed. */
  lemma {:induction false} KeepIfInSameMembers<T(!new)>(s: seq<T>, a: seq<T>, b: seq<T>)
    requires forall x :: x in s ==> (x in a <==> x in b)
    ensures KeepIfIn(s, a) == KeepIfIn(s, b)
  {
    if s != [] {
      assert s[0] in s;
      assert forall x :: x in s[1..] ==> x in s;
      KeepIfInSameMembers(s[1..], a, b);
    }
  }

  /** `s.filter(...)` over a duplicate-free `s` keeps the elements in the order of `s`. */
  lemma {:induction false} KeepIfInOrdered<T(!new)>(s: seq<T>, allowed: seq<T>)
    requires NoDuplicates(s)
    ensures forall i, j :: 0 <= i < j < |KeepIfIn(s, allowed)| ==>
              IndexOf(s, KeepIfIn(s, allowed)[i]) < IndexOf(s, KeepIfIn(s, allowed)[j])
  {
    if s != [] {
      var tail := KeepIfIn(s[1..], allowed);
      KeepIfInOrdered(s[1..], allowed);
      forall y | y in s[1..]
        ensures IndexOf(s, y) == 1 + IndexOf(s[1..], y)
      {
        assert s[0] != y;
      }
      var r := KeepIfIn(s, allowed);
      forall i, j | 0 <= i < j < |r|
        ensures IndexOf(s, r[i]) < IndexOf(s, r[j])
      {
        if s[0] in allowed {
          assert r == [s[0]] + tail;
          if i == 0 {
            assert r[j] == tail[j - 1];
          } else {
            assert r[i] == tail[i - 1] && r[j] == tail[j - 1];
          }
        } else {
          assert r == tail;
        }
      }
    }
  }

  /** `s.filter(p)` */
  function Filter<T>(s: seq<T>, p: T -> bool): seq<T> {
    if s == [] then [] else (if p(s[0]) then [s[0]] else []) + Filter(s[1..], p)
  }

  /** `s.map(f)` */
  function Map<T, U>(s: seq<T>, f: T -> U): seq<U> {
    if s == [] then [] else [f(s[0])] + Map(s[1..], f)
  }

  /** `s.flatMap(f)`: the pieces `f` makes of each element, one after the other. */
  function FlatMap<T, U>(s: seq<T>, f: T -> seq<U>): seq<U> {
    if s == [] then [] else f(s[0]) + FlatMap(s[1..], f)
  }

  /** A filter splits at every concatenation, so it keeps its elements in order. */
  lemma {:induction false} FilterAppend<T>(a: seq<T>, b: seq<T>, p: T -> bool)
    ensures Filter(a + b, p) == Filter(a, p) + Filter(b, p)
  {
    if a == [] {
      assert a + b == b;
    } else {
      FilterAppend(a[1..], b, p);
      assert (a + b)[1..] == a[1..] + b;
      assert Filter(a + b, p) == (if p(a[0]) then [a[0]] else []) + Filter(a[1..] + b, p);
    }
  }

  /** A filter keeps exactly the elements that pass its test. */
  lemma {:induction false} FilterMembership<T>(s: seq<T>, p: T -> bool)
    ensures forall x :: x in Filter(s, p) <==> x in s && p(x)
  {
    if s != [] {
      FilterMembership(s[1..], p);
      assert s == [s[0]] + s[1..];
    }
  }

  /** Two complementary filters together are as long as their input. */
  lemma {:induction false} FilterComplementLength<T>(s: seq<T>, p: T -> bool, q: T -> bool)
    requires forall x :: q(x) == !p(x)
    ensures |Filter(s, p)| + |Filter(s, q)| == |s|
  {
    if s != [] {
      FilterComplementLength(s[1..], p, q);
    }
  }

  /** Elements that all pass the test are all kept. */
  lemma {:induction false} FilterKeepsAll<T>(s: seq<T>, p: T -> bool)
    requires forall x :: x in s ==> p(x)
    ensures Filter(s, p) == s
  {
    if s != [] {
      assert s[0] in s;
      assert forall x :: x in s[1..] ==> x in s;
      FilterKeepsAll(s[1..], p);
    }
  }

  /** `map` splits at every concatenation. */
  lemma {:induction false} MapAppend<T, U>(a: seq<T>, b: seq<T>, f: T -> U)
    ensures Map(a + b, f) == Map(a, f) + Map(b, f)
  {
    if a == [] {
      assert a + b == b;
    } else {
      assert (a + b)[1..] == a[1..] + b;
      MapAppend(a[1..], b, f);
    }
  }

  /** `map` of a list with one more element has one more result, at the end. */
  lemma MapSnoc<T, U>(a: seq<T>, x: T, f: T -> U)
    ensures Map(a + [x], f) == Map(a, f) + [f(x)]
  {
    MapAppend(a, [x], f);
    assert [x][1..] == [];
  }

  /** `map` gives one result per element, each in the position of its element. */
  lemma {:induction false} MapMeaning<T, U>(s: seq<T>, f: T -> U)
    ensures |Map(s, f)| == |s|
    ensures forall i :: 0 <= i < |s| ==> Map(s, f)[i] == f(s[i])
  {
    if s != [] {
      MapMeaning(s[1..], f);
    }
  }

  /** `flatMap` splits at every concatenation. */
  lemma {:induction false} FlatMapAppend<T, U>(a: seq<T>, b: seq<T>, f: T -> seq<U>)
    ensures FlatMap(a + b, f) == FlatMap(a, f) + FlatMap(b, f)
  {
    if a == [] {
      assert a + b == b;
    } else {
      assert (a + b)[1..] == a[1..] + b;
      FlatMapAppend(a[1..], b, f);
    }
  }

  /** A `flatMap` that makes each element into itself and one more element
      exactly when the element passes a test grows by the number of
      elements that pass it. */
  lemma {:induction false} FlatMapLength<T, U>(s: seq<T>, f: T -> seq<U>, p: T -> bool)
    requires forall x :: |f(x)| == if p(x) then 2 else 1
    ensures |FlatMap(s, f)| == |s| + |Filter(s, p)|
  {
    if s != [] {
      FlatMapLength(s[1..], f, p);
    }
  }

  /** A `flatMap` whose pieces differ from their elements only by copies of
      `v` differs from its input only by copies of `v`. */
  lemma {:induction false} FlatMapWithout<T(!new)>(s: seq<T>, f: T -> seq<T>, v: T)
    requires forall x :: Without(f(x), v) == Without([x], v)
    ensures Without(FlatMap(s, f), v) == Without(s, v)
  {
    if s != [] {
      FlatMapWithout(s[1..], f, v);
      WithoutAppend(f(s[0]), FlatMap(s[1..], f), v);
      assert s == [s[0]] + s[1..];
      WithoutAppend([s[0]], s[1..], v);
    }
  }
}
