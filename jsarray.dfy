/**
 * The JavaScript array idioms the source uses, on sequences: `filter`, `slice` (with
 * its negative and out-of-range arguments), `[...new Set(xs)]`, `.sort()` on strings,
 * and the `reduce` that counts occurrences into an object (kept in key insertion order,
 * as `Object.entries` reports it).
 */
module JsArray {
  import opened Wrappers
  import JsString

  /** `a` is `b` with some elements left out, order kept. */
  predicate IsSubsequence<T(==)>(a: seq<T>, b: seq<T>)
    decreases |b|
  {
    if a == [] then true
    else if b == [] then false
    else if a[0] == b[0] then IsSubsequence(a[1..], b[1..])
    else IsSubsequence(a, b[1..])
  }

  /** `s.filter(p)`. */
  function Filter<T(==,!new)>(s: seq<T>, p: T -> bool): (r: seq<T>)
    ensures |r| <= |s|
    ensures forall x :: x in r <==> x in s && p(x)
    ensures IsSubsequence(r, s)
  {
    if s == [] then []
    else
      var rest := Filter(s[1..], p);
      if p(s[0]) then
        assert ([s[0]] + rest)[1..] == rest;
        [s[0]] + rest
      else rest
  }

  /** The first element `p` keeps is the first of the filtered sequence. */
  lemma {:induction false} FilterHead<T(!new)>(s: seq<T>, p: T -> bool, i: nat)
    requires i < |s| && p(s[i])
    requires forall j :: 0 <= j < i ==> !p(s[j])
    ensures Filter(s, p) != [] && Filter(s, p)[0] == s[i]
    decreases i
  {
    if i > 0 {
      FilterHead(s[1..], p, i - 1);
    }
  }

  /** Nothing is kept when no element satisfies `p`. */
  lemma {:induction false} FilterNone<T(!new)>(s: seq<T>, p: T -> bool)
    requires forall j :: 0 <= j < |s| ==> !p(s[j])
    ensures Filter(s, p) == []
    decreases |s|
  {
    if s != [] {
      FilterNone(s[1..], p);
    }
  }

  /** Two filters in a row keep what both tests accept. */
  lemma {:induction false} FilterFilter<T(!new)>(s: seq<T>, p: T -> bool, q: T -> bool, pq: T -> bool)
    requires forall x :: pq(x) == (p(x) && q(x))
    ensures Filter(Filter(s, p), q) == Filter(s, pq)
    decreases |s|
  {
    if s != [] {
      FilterFilter(s[1..], p, q, pq);
      if p(s[0]) {
        assert ([s[0]] + Filter(s[1..], p))[1..] == Filter(s[1..], p);
      }
    }
  }

  /** Three filters in a row are one filter by the conjunction of their tests. */
  lemma FilterThree<T(!new)>(s: seq<T>, p: T -> bool, q: T -> bool, r: T -> bool, all: T -> bool)
    requires forall x :: all(x) == (p(x) && q(x) && r(x))
    ensures Filter(Filter(Filter(s, p), q), r) == Filter(s, all)
  {
    var pq := x => p(x) && q(x);
    FilterFilter(s, p, q, pq);
    FilterFilter(s, pq, r, all);
  }

  /** Filtering with two tests that agree everywhere gives the same result. */
  lemma {:induction false} FilterSame<T(!new)>(s: seq<T>, p: T -> bool, q: T -> bool)
    requires forall j :: 0 <= j < |s| ==> p(s[j]) == q(s[j])
    ensures Filter(s, p) == Filter(s, q)
    decreases |s|
  {
    if s != [] {
      FilterSame(s[1..], p, q);
    }
  }

  /** Nothing is dropped when every element passes. */
  lemma {:induction false} FilterAll<T(!new)>(s: seq<T>, p: T -> bool)
    requires forall j :: 0 <= j < |s| ==> p(s[j])
    ensures Filter(s, p) == s
    decreases |s|
  {
    if s != [] {
      FilterAll(s[1..], p);
    }
  }

  /** How many elements of `s` satisfy `p`: `s.filter(p).length`. */
  function CountIf<T(==,!new)>(s: seq<T>, p: T -> bool): nat {
    |Filter(s, p)|
  }

  /** The index `slice` uses for one argument: negative counts from the end, and the
      result is clamped to `[0, n]`. */
  function SliceIndex(i: int, n: nat): (r: nat)
    ensures r <= n
    ensures 0 <= i <= n ==> r == i
  {
    if i < 0 then (if n + i < 0 then 0 else n + i) else if i > n then n else i
  }

  /** `s.slice(start, end)`. */
  function Slice<T>(s: seq<T>, start: int, end: int): (r: seq<T>)
    ensures |r| <= |s|
    ensures 0 <= start <= end <= |s| ==> r == s[start..end]
    ensures start <= end ==> |r| <= end - start
    ensures forall x :: x in r ==> x in s
  {
    var a := SliceIndex(start, |s|);
    var b := SliceIndex(end, |s|);
    if a < b then s[a..b] else []
  }

  /** Filtering a sequence with one more element at the end filters the old part,
      then keeps or drops the new element. */
  lemma {:induction false} FilterSnoc<T(!new)>(s: seq<T>, x: T, p: T -> bool)
    ensures Filter(s + [x], p) == Filter(s, p) + (if p(x) then [x] else [])
  {
    if s == [] {
      assert s + [x] == [x];
      assert [x][1..] == [];
    } else {
      assert (s + [x])[0] == s[0];
      assert (s + [x])[1..] == s[1..] + [x];
      FilterSnoc(s[1..], x, p);
    }
  }

  /** The first `n` elements, all of them when there are fewer: what a loop that
      stops collecting at `n` keeps. */
  function Take<T>(s: seq<T>, n: int): (r: seq<T>)
    ensures |r| <= |s| && (n >= 0 ==> |r| <= n)
    ensures r == s[..|r|]
    ensures |r| == if n < 0 then 0 else if n < |s| then n else |s|
  {
    if n <= 0 then [] else if n >= |s| then s else s[..n]
  }

  /** `s.map(f)`. */
  function Map<A, B>(s: seq<A>, f: A -> B): (r: seq<B>)
    ensures |r| == |s| && forall k :: 0 <= k < |s| ==> r[k] == f(s[k])
  {
    seq(|s|, k requires 0 <= k < |s| => f(s[k]))
  }

  lemma MapSnoc<A, B>(s: seq<A>, x: A, f: A -> B)
    ensures Map(s + [x], f) == Map(s, f) + [f(x)]
  {
    assert forall k :: 0 <= k < |s| ==> (s + [x])[k] == s[k];
  }

  /** A loop that collects until it has `n`: one more element is kept exactly when
      fewer than `n` were collected. */
  lemma TakeSnoc<T>(s: seq<T>, x: T, n: int)
    ensures Take(s + [x], n) == if |s| < n then Take(s, n) + [x] else Take(s, n)
  {
    if 0 < n <= |s| {
      assert (s + [x])[..n] == s[..n];
    }
  }

  /** The values `f` gives, in order, skipping the elements it gives nothing for:
      what a loop that pushes only some results collects. */
  function FilterMap<A, B>(s: seq<A>, f: A -> Option<B>): (r: seq<B>)
    ensures |r| <= |s|
  {
    if s == [] then []
    else
      var last := f(s[|s| - 1]);
      FilterMap(s[..|s| - 1], f) + (if last.Some? then [last.value] else [])
  }

  lemma FilterMapSnoc<A, B>(s: seq<A>, x: A, f: A -> Option<B>)
    ensures FilterMap(s + [x], f) == FilterMap(s, f) + (if f(x).Some? then [f(x).value] else [])
  {
    assert (s + [x])[..|s|] == s;
  }

  /** One more element of a prefix. */
  lemma FilterMapPrefix<A, B>(s: seq<A>, i: nat, f: A -> Option<B>)
    requires i < |s|
    ensures FilterMap(s[..i + 1], f) == FilterMap(s[..i], f) + (if f(s[i]).Some? then [f(s[i]).value] else [])
  {
    assert s[..i + 1][..i] == s[..i];
  }

  /** The values of a non-empty sequence after some others: those of its head, then
      those of its tail. */
  lemma FilterMapAfter<A, B>(prefix: seq<B>, s: seq<A>, f: A -> Option<B>)
    requires s != []
    ensures prefix + FilterMap(s, f)
         == (prefix + (if f(s[0]).Some? then [f(s[0]).value] else [])) + FilterMap(s[1..], f)
  {
    var first := if f(s[0]).Some? then [f(s[0]).value] else [];
    var tail := FilterMap(s[1..], f);
    assert s == [s[0]] + s[1..];
    FilterMapCons(s[0], s[1..], f);
    assert prefix + (first + tail) == (prefix + first) + tail;
  }

  lemma {:induction false} FilterMapCons<A, B>(x: A, s: seq<A>, f: A -> Option<B>)
    ensures FilterMap([x] + s, f) == (if f(x).Some? then [f(x).value] else []) + FilterMap(s, f)
    decreases |s|
  {
    if s == [] {
      assert [x] + s == [] + [x];
      FilterMapSnoc([], x, f);
    } else {
      var init := s[..|s| - 1];
      var y := s[|s| - 1];
      FilterMapCons(x, init, f);
      assert [x] + s == ([x] + init) + [y];
      FilterMapSnoc([x] + init, y, f);
      assert s == init + [y];
      FilterMapSnoc(init, y, f);
    }
  }

  /** When the value `f` gives for the element at position `i` carries the id
      `base + i`, the collected values come in strictly increasing id order, and each
      is the value of the element its id names. */
  lemma {:induction false} FilterMapIds<A, B>(all: seq<A>, f: A -> Option<B>, id: B -> int, base: int)
    requires forall i :: 0 <= i < |all| && f(all[i]).Some? ==> id(f(all[i]).value) == base + i
    ensures forall k :: 0 <= k < |FilterMap(all, f)| ==>
      base <= id(FilterMap(all, f)[k]) < base + |all|
      && f(all[id(FilterMap(all, f)[k]) - base]) == Some(FilterMap(all, f)[k])
    ensures forall a, b :: 0 <= a < b < |FilterMap(all, f)| ==>
      id(FilterMap(all, f)[a]) < id(FilterMap(all, f)[b])
    decreases |all|
  {
    if all != [] {
      var n := |all| - 1;
      var init := all[..n];
      FilterMapIds(init, f, id, base);
      assert init + [all[n]] == all;
      FilterMapSnoc(init, all[n], f);
      var r0 := FilterMap(init, f);
      var r := FilterMap(all, f);
      assert r == r0 + (if f(all[n]).Some? then [f(all[n]).value] else []);
      forall k | 0 <= k < |r|
        ensures base <= id(r[k]) < base + |all| && f(all[id(r[k]) - base]) == Some(r[k])
      {
        if k < |r0| {
          assert r[k] == r0[k];
          assert all[id(r0[k]) - base] == init[id(r0[k]) - base];
        }
      }
      forall a, b | 0 <= a < b < |r| ensures id(r[a]) < id(r[b]) {
        if b < |r0| {
          assert r[a] == r0[a] && r[b] == r0[b];
        } else {
          assert r[a] == r0[a];
        }
      }
    }
  }

  /** When `f` gives a value exactly where `p` holds, and that value is `g`'s, the
      collected values are `g` over the elements `p` keeps. */
  lemma {:induction false} FilterMapIsFilter<A(!new), B>(s: seq<A>, f: A -> Option<B>, p: A -> bool, g: A -> B)
    requires forall x :: f(x) == if p(x) then Some(g(x)) else None
    ensures FilterMap(s, f) == Map(Filter(s, p), g)
  {
    if s != [] {
      var init := s[..|s| - 1];
      var x := s[|s| - 1];
      FilterMapIsFilter(init, f, p, g);
      assert init + [x] == s;
      FilterSnoc(init, x, p);
      if p(x) {
        MapSnoc(Filter(init, p), x, g);
      } else {
        assert Map(Filter(init, p), g) + [] == Map(Filter(init, p), g);
      }
    }
  }

  /** `Math.min(...s)`, with None for the empty list (where it gives `Infinity`). */
  function MinOf(s: seq<int>): (r: Option<int>)
    ensures r.None? <==> s == []
    ensures r.Some? ==> r.value in s && forall x :: x in s ==> r.value <= x
  {
    if s == [] then None
    else
      var m := MinOf(s[1..]);
      assert forall x :: x in s ==> x == s[0] || x in s[1..];
      if m.None? || s[0] <= m.value then Some(s[0]) else m
  }

  /** `Math.max(...s)`, with None for the empty list (where it gives `-Infinity`). */
  function MaxOf(s: seq<int>): (r: Option<int>)
    ensures r.None? <==> s == []
    ensures r.Some? ==> r.value in s && forall x :: x in s ==> x <= r.value
  {
    if s == [] then None
    else
      var m := MaxOf(s[1..]);
      assert forall x :: x in s ==> x == s[0] || x in s[1..];
      if m.None? || s[0] >= m.value then Some(s[0]) else m
  }

  /** `flatMap` over lists already mapped: the lists one after another. */
  function Flatten<T(!new)>(ss: seq<seq<T>>): (r: seq<T>)
    ensures forall x :: x in r <==> exists i :: 0 <= i < |ss| && x in ss[i]
  {
    if ss == [] then []
    else
      var rest := Flatten(ss[1..]);
      assert forall i :: 1 <= i < |ss| ==> ss[i] == ss[1..][i - 1];
      ss[0] + rest
  }

  predicate NoDuplicates<T(==)>(s: seq<T>) {
    forall i, j :: 0 <= i < j < |s| ==> s[i] != s[j]
  }

  /** `[...new Set(s)]`: each element once, in order of first occurrence. */
  function Distinct<T(==,!new)>(s: seq<T>): (r: seq<T>)
    ensures forall x :: x in r <==> x in s
    ensures NoDuplicates(r)
    ensures |r| <= |s|
  {
    if s == [] then []
    else
      var init := s[..|s| - 1];
      var r := Distinct(init);
      assert forall x :: x in s <==> x in init || x == s[|s| - 1];
      if s[|s| - 1] in r then r else r + [s[|s| - 1]]
  }

  /** A sequence without duplicates has as many elements as the set of its elements. */
  lemma {:induction false} NoDuplicatesCard<T>(s: seq<T>)
    requires NoDuplicates(s)
    ensures |set x | x in s| == |s|
    decreases |s|
  {
    if s != [] {
      var rest := s[1..];
      assert NoDuplicates(rest) by {
        forall i, j | 0 <= i < j < |rest| ensures rest[i] != rest[j] {
          assert rest[i] == s[i + 1] && rest[j] == s[j + 1];
        }
      }
      NoDuplicatesCard(rest);
      assert s[0] !in rest by {
        forall j | 0 <= j < |rest| ensures rest[j] != s[0] {
          assert rest[j] == s[j + 1];
        }
      }
      assert (set x | x in s) == (set x | x in rest) + {s[0]} by {
        forall x ensures x in s <==> x in rest || x == s[0] {
          if x in s {
            var i :| 0 <= i < |s| && s[i] == x;
            if i > 0 { assert rest[i - 1] == x; }
          }
        }
      }
    }
  }

  /** Fewer distinct values come out of a sequence whose values all occur in another. */
  lemma DistinctSmaller<T(!new)>(a: seq<T>, b: seq<T>)
    requires forall x :: x in a ==> x in b
    ensures |Distinct(a)| <= |Distinct(b)|
  {
    NoDuplicatesCard(Distinct(a));
    NoDuplicatesCard(Distinct(b));
    var sa := set x | x in Distinct(a);
    var sb := set x | x in Distinct(b);
    assert sa <= sb;
    assert sb == sa + (sb - sa);
    assert |sb| == |sa| + |sb - sa|;
  }

  /** Sorted in JavaScript's default string order, no element twice. */
  predicate StrictlySorted(s: seq<string>) {
    forall i :: 0 <= i < |s| - 1 ==> JsString.Less(s[i], s[i + 1])
  }

  /** Inserts `x` into a strictly sorted sequence, unless it is there already. */
  function Insert(x: string, s: seq<string>): (r: seq<string>)
    requires StrictlySorted(s)
    ensures StrictlySorted(r)
    ensures forall y :: y in r <==> y == x || y in s
    ensures |r| > 0 && (r[0] == x || (s != [] && r[0] == s[0]))
  {
    if s == [] then [x]
    else if x == s[0] then s
    else if JsString.Less(x, s[0]) then [x] + s
    else
      JsString.LessTrichotomy(x, s[0]);
      var rest := Insert(x, s[1..]);
      var r := [s[0]] + rest;
      assert r[1..] == rest;
      r
  }

  /** `[...new Set(s)].sort()` on strings. */
  function SortedDistinct(s: seq<string>): (r: seq<string>)
    ensures StrictlySorted(r)
    ensures forall x :: x in r <==> x in s
  {
    if s == [] then [] else Insert(s[|s| - 1], SortedDistinct(s[..|s| - 1]))
  }

  /** In a strictly sorted sequence every earlier element is smaller than every later
      one, so no element occurs twice. */
  lemma {:induction false} StrictlySortedPairwise(s: seq<string>)
    requires StrictlySorted(s)
    ensures forall i, j :: 0 <= i < j < |s| ==> JsString.Less(s[i], s[j])
    ensures NoDuplicates(s)
  {
    if |s| > 1 {
      StrictlySortedPairwise(s[1..]);
      forall j | 1 < j < |s| ensures JsString.Less(s[0], s[j]) {
        assert JsString.Less(s[1..][0], s[1..][j - 1]);
        JsString.LessTransitive(s[0], s[1], s[j]);
      }
      forall i, j | 0 <= i < j < |s| ensures s[i] != s[j] {
        if i == 0 { JsString.LessIrreflexive(s[0]); }
        else {
          assert JsString.Less(s[1..][i - 1], s[1..][j - 1]);
          JsString.LessIrreflexive(s[i]);
        }
      }
    }
  }

  /** Sorting the distinct strings gives exactly one answer: two strictly sorted
      sequences with the same elements are equal. */
  lemma {:induction false} StrictlySortedUnique(a: seq<string>, b: seq<string>)
    requires StrictlySorted(a) && StrictlySorted(b)
    requires forall x :: x in a <==> x in b
    ensures a == b
  {
    StrictlySortedPairwise(a);
    StrictlySortedPairwise(b);
    SameElementsEmpty(a, b);
    if a != [] && b != [] {
      // the least element of each is the first one of each
      if a[0] != b[0] {
        assert a[0] in a && b[0] in b;
        var i :| 0 <= i < |b| && b[i] == a[0];
        var j :| 0 <= j < |a| && a[j] == b[0];
        assert i > 0 && j > 0;
        JsString.LessAsymmetric(a[0], a[j]);
        assert false;
      }
      assert a == [a[0]] + a[1..] && b == [b[0]] + b[1..];
      forall x ensures x in a[1..] <==> x in b[1..] {
        if x in a[1..] {
          var k :| 0 <= k < |a[1..]| && a[1..][k] == x;
          assert a[k + 1] == x && a[0] != a[k + 1];
          assert x in b;
        }
        if x in b[1..] {
          var k :| 0 <= k < |b[1..]| && b[1..][k] == x;
          assert b[k + 1] == x && b[0] != b[k + 1];
          assert x in a;
        }
      }
      assert StrictlySorted(a[1..]) && StrictlySorted(b[1..]);
      StrictlySortedUnique(a[1..], b[1..]);
      assert a == [a[0]] + a[1..] && b == [b[0]] + b[1..];
    }
  }

  lemma SameElementsEmpty<T>(a: seq<T>, b: seq<T>)
    requires forall x :: x in a <==> x in b
    ensures a == [] <==> b == []
  {
    if a != [] { assert a[0] in b; }
    if b != [] { assert b[0] in a; }
  }

  /** The counts object built by `reduce((acc, k) => { acc[k] = (acc[k] || 0) + 1 })`,
      as its `Object.entries`: one pair per distinct key, in first-occurrence order. */
  function Tally<K(==)>(ks: seq<K>): seq<(K, nat)> {
    if ks == [] then [] else Bump(Tally(ks[..|ks| - 1]), ks[|ks| - 1])
  }

  /** `acc[k] = (acc[k] || 0) + 1` on the entries. */
  function Bump<K(==)>(t: seq<(K, nat)>, k: K): (r: seq<(K, nat)>)
    ensures |r| == |t| || |r| == |t| + 1
  {
    if t == [] then [(k, 1)]
    else if t[0].0 == k then [(k, t[0].1 + 1)] + t[1..]
    else [t[0]] + Bump(t[1..], k)
  }

  function Keys<K, V>(t: seq<(K, V)>): (r: seq<K>)
    ensures |r| == |t| && forall i :: 0 <= i < |t| ==> r[i] == t[i].0
  {
    if t == [] then [] else [t[0].0] + Keys(t[1..])
  }

  function SumCounts<K>(t: seq<(K, nat)>): nat {
    if t == [] then 0 else t[0].1 + SumCounts(t[1..])
  }

  /** The count recorded for `k`, 0 when `k` has no entry. */
  function CountOf<K(==)>(t: seq<(K, nat)>, k: K): nat {
    if t == [] then 0 else if t[0].0 == k then t[0].1 else CountOf(t[1..], k)
  }

  /** How many times `k` occurs in `ks`. */
  function Occurrences<K(==)>(ks: seq<K>, k: K): nat {
    if ks == [] then 0 else Occurrences(ks[..|ks| - 1], k) + (if ks[|ks| - 1] == k then 1 else 0)
  }

  lemma {:induction false} BumpFacts<K>(t: seq<(K, nat)>, k: K)
    requires NoDuplicates(Keys(t))
    ensures SumCounts(Bump(t, k)) == SumCounts(t) + 1
    ensures NoDuplicates(Keys(Bump(t, k)))
    ensures forall x :: x in Keys(Bump(t, k)) <==> x in Keys(t) || x == k
    ensures forall x :: CountOf(Bump(t, k), x) == CountOf(t, x) + (if x == k then 1 else 0)
  {
    if t != [] {
      assert Keys(t) == [t[0].0] + Keys(t[1..]);
      assert NoDuplicates(Keys(t[1..])) by {
        forall i, j | 0 <= i < j < |Keys(t[1..])| ensures Keys(t[1..])[i] != Keys(t[1..])[j] {
          assert Keys(t)[i + 1] == Keys(t[1..])[i] && Keys(t)[j + 1] == Keys(t[1..])[j];
        }
      }
      assert t[0].0 !in Keys(t[1..]) by {
        forall i | 0 <= i < |Keys(t[1..])| ensures Keys(t[1..])[i] != t[0].0 {
          assert Keys(t)[i + 1] == Keys(t[1..])[i];
        }
      }
      if t[0].0 == k {
        var r := [(k, t[0].1 + 1)] + t[1..];
        assert r[1..] == t[1..];
        NotInKeysCount(t[1..], k);
      } else {
        BumpFacts(t[1..], k);
        var r := [t[0]] + Bump(t[1..], k);
        assert r[1..] == Bump(t[1..], k);
        assert Keys(r) == [t[0].0] + Keys(Bump(t[1..], k));
        var kr := Keys(r);
        forall i, j | 0 <= i < j < |kr| ensures kr[i] != kr[j] {
          if i > 0 {
            assert kr[i] == Keys(Bump(t[1..], k))[i - 1] && kr[j] == Keys(Bump(t[1..], k))[j - 1];
          } else {
            assert kr[j] == Keys(Bump(t[1..], k))[j - 1];
            assert kr[j] in Keys(Bump(t[1..], k));
          }
        }
      }
    }
  }

  /** With each key once, the count stored at position `i` is the count of its key. */
  lemma {:induction false} CountOfAt<K>(t: seq<(K, nat)>, i: nat)
    requires NoDuplicates(Keys(t)) && i < |t|
    ensures CountOf(t, t[i].0) == t[i].1
    decreases i
  {
    if i > 0 {
      assert Keys(t)[0] == t[0].0 && Keys(t)[i] == t[i].0;
      assert NoDuplicates(Keys(t[1..])) by {
        forall a, b | 0 <= a < b < |Keys(t[1..])| ensures Keys(t[1..])[a] != Keys(t[1..])[b] {
          assert Keys(t)[a + 1] == Keys(t[1..])[a] && Keys(t)[b + 1] == Keys(t[1..])[b];
        }
      }
      CountOfAt(t[1..], i - 1);
    }
  }

  lemma {:induction false} NotInKeysCount<K>(t: seq<(K, nat)>, k: K)
    requires k !in Keys(t)
    ensures CountOf(t, k) == 0
  {
    if t != [] {
      assert Keys(t) == [t[0].0] + Keys(t[1..]);
      NotInKeysCount(t[1..], k);
    }
  }

  /** The counts object has one entry per distinct key, each entry holds that key's
      number of occurrences, and the counts add up to the number of items. */
  lemma {:induction false} TallyFacts<K>(ks: seq<K>)
    ensures NoDuplicates(Keys(Tally(ks)))
    ensures forall x :: x in Keys(Tally(ks)) <==> x in ks
    ensures forall x :: CountOf(Tally(ks), x) == Occurrences(ks, x)
    ensures SumCounts(Tally(ks)) == |ks|
  {
    if ks != [] {
      var init := ks[..|ks| - 1];
      TallyFacts(init);
      BumpFacts(Tally(init), ks[|ks| - 1]);
      assert forall x :: x in ks <==> x in init || x == ks[|ks| - 1];
    }
  }
}
