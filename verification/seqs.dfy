/** Sequence operations the telemetry code uses through JavaScript array
    methods: `slice(-n)`, `filter`, `map`, de-duplication through a `Set`, and
    the orderings that the SQL queries ask for. */
module Seqs {

  /** `s.slice(-n)` for n > 0: the last `n` elements, or all of them. */
  function LastN<T>(s: seq<T>, n: nat): (r: seq<T>)
    ensures |r| == if |s| <= n then |s| else n
    ensures r == s[|s| - |r|..]
  {
    if |s| <= n then s else s[|s| - n..]
  }

  /** Taking the last `n` after an earlier trim to the last `n` is the same as
      trimming once: a bounded store that trims after every append holds the
      last `n` of everything ever appended. */
  lemma LastNAppend<T>(s: seq<T>, t: seq<T>, n: nat)
    ensures LastN(LastN(s, n) + t, n) == LastN(s + t, n)
  {
    var u := LastN(s, n);
    var k := |s| - |u|;
    assert u + t == (s + t)[k..];
    var r := LastN(u + t, n);
    assert r == (u + t)[|u + t| - |r|..];
    assert |r| == |LastN(s + t, n)|;
  }

  /** A bounded list after appending each of `xs` in turn, trimming to the
      last `n` after every append. */
  function AppendEach<T>(s: seq<T>, xs: seq<T>, n: nat): seq<T>
    decreases |xs|
  {
    if xs == [] then s else AppendEach(LastN(s + [xs[0]], n), xs[1..], n)
  }

  /** However many elements are appended one at a time, the bounded list holds
      exactly the last `n` of everything, in order. */
  lemma {:induction false} AppendEachKeepsLast<T>(s: seq<T>, xs: seq<T>, n: nat)
    requires |s| <= n
    decreases |xs|
    ensures AppendEach(s, xs, n) == LastN(s + xs, n)
  {
    if xs == [] {
      assert s + xs == s;
    } else {
      var next := LastN(s + [xs[0]], n);
      AppendEachKeepsLast(next, xs[1..], n);
      LastNAppend(s + [xs[0]], xs[1..], n);
      assert s + [xs[0]] + xs[1..] == s + xs;
    }
  }

  /** The last element appended is the newest one kept. */
  lemma LastNKeepsNewest<T>(s: seq<T>, x: T, n: nat)
    requires n > 0
    ensures LastN(s + [x], n) != [] && LastN(s + [x], n)[|LastN(s + [x], n)| - 1] == x
  {
  }

  /** `s.filter(p)`. */
  function Filter<T>(s: seq<T>, p: T -> bool): (r: seq<T>)
    ensures |r| <= |s|
    ensures forall i :: 0 <= i < |r| ==> p(r[i]) && r[i] in s
    ensures forall i :: 0 <= i < |s| && p(s[i]) ==> s[i] in r
  {
    if s == [] then [] else (if p(s[0]) then [s[0]] else []) + Filter(s[1..], p)
  }

  /** Filtering distributes over concatenation, so it preserves the relative
      order of the kept elements. */
  lemma {:induction false} FilterAppend<T>(s: seq<T>, t: seq<T>, p: T -> bool)
    ensures Filter(s + t, p) == Filter(s, p) + Filter(t, p)
  {
    if s == [] {
      assert s + t == t;
    } else {
      assert (s + t)[1..] == s[1..] + t;
      FilterAppend(s[1..], t, p);
    }
  }

  /** Filtering with a predicate that every element satisfies keeps the whole
      sequence. */
  lemma {:induction false} FilterAll<T>(s: seq<T>, p: T -> bool)
    requires forall i :: 0 <= i < |s| ==> p(s[i])
    ensures Filter(s, p) == s
  {
    if s != [] {
      FilterAll(s[1..], p);
    }
  }

  /** `s.map(f)`. */
  function Map<T, U>(s: seq<T>, f: T -> U): (r: seq<U>)
    ensures |r| == |s|
    ensures forall i :: 0 <= i < |s| ==> r[i] == f(s[i])
  {
    seq(|s|, i requires 0 <= i < |s| => f(s[i]))
  }

  /** The number of elements that satisfy `p`. */
  function Count<T>(s: seq<T>, p: T -> bool): nat {
    |Filter(s, p)|
  }

  /** The values kept by filtering a mapped sequence are the images of the
      elements whose image is kept. */
  lemma MapFilterSet<T, U>(s: seq<T>, f: T -> U, keep: U -> bool)
    ensures (set x | x in Filter(Map(s, f), keep)) == (set t | t in s && keep(f(t)) :: f(t))
  {
    var m := Map(s, f);
    var r := Filter(m, keep);
    forall x | x in r
      ensures exists t :: t in s && keep(f(t)) && f(t) == x
    {
      var j :| 0 <= j < |m| && m[j] == x;
      assert f(s[j]) == x;
    }
    forall t | t in s && keep(f(t))
      ensures f(t) in r
    {
      var j :| 0 <= j < |s| && s[j] == t;
      assert m[j] == f(t);
    }
  }

  /** `s.reverse()` on a copy. */
  function Reverse<T>(s: seq<T>): (r: seq<T>)
    ensures |r| == |s|
    ensures forall i :: 0 <= i < |s| ==> r[i] == s[|s| - 1 - i]
  {
    if s == [] then [] else Reverse(s[1..]) + [s[0]]
  }

  predicate NoDup<T(==)>(s: seq<T>) {
    forall i, j :: 0 <= i < j < |s| ==> s[i] != s[j]
  }

  /** `Array.from(new Set(s))`: the distinct elements in order of first
      occurrence. */
  function Dedup<T(==)>(s: seq<T>): (r: seq<T>)
    ensures NoDup(r)
    ensures forall i :: 0 <= i < |r| ==> r[i] in s
    ensures forall i :: 0 <= i < |s| ==> s[i] in r
  {
    if s == [] then []
    else
      var init := Dedup(s[..|s| - 1]);
      var last := s[|s| - 1];
      assert forall i :: 0 <= i < |s| - 1 ==> s[i] == s[..|s| - 1][i];
      if last in init then init else init + [last]
  }

  /** A sequence without duplicates has as many elements as its set, so the
      length of `Array.from(new Set(s))` is the size of `new Set(s)`. */
  lemma {:induction false} NoDupCard<T>(s: seq<T>)
    requires NoDup(s)
    ensures |set x | x in s| == |s|
  {
    if s != [] {
      var t := s[1..];
      assert NoDup(t);
      NoDupCard(t);
      assert s[0] !in t;
      assert (set x | x in s) == (set x | x in t) + {s[0]};
    }
  }

  /** The number of distinct elements of `s`: `new Set(s).size`. */
  function DistinctCount<T(==)>(s: seq<T>): (n: nat)
    ensures n == |Dedup(s)|
    ensures n == |set x | x in s|
    ensures n <= |s|
  {
    DedupBound(s);
    NoDupCard(Dedup(s));
    assert (set x | x in Dedup(s)) == (set x | x in s);
    |set x | x in s|
  }

  lemma {:induction false} DedupBound<T>(s: seq<T>)
    ensures |Dedup(s)| <= |s|
  {
    if s != [] {
      DedupBound(s[..|s| - 1]);
    }
  }

  predicate SortedDesc<T>(s: seq<T>, key: T -> int) {
    forall i, j :: 0 <= i < j < |s| ==> key(s[i]) >= key(s[j])
  }

  predicate SortedAsc(s: seq<int>) {
    forall i, j :: 0 <= i < j < |s| ==> s[i] < s[j]
  }

  function InsertDesc<T>(x: T, s: seq<T>, key: T -> int): (r: seq<T>)
    requires SortedDesc(s, key)
    ensures SortedDesc(r, key)
    ensures multiset(r) == multiset(s) + multiset{x}
    ensures |r| == |s| + 1
    ensures r[0] == x || (s != [] && r[0] == s[0])
  {
    if s == [] then [x]
    else if key(x) >= key(s[0]) then [x] + s
    else
      var rest := InsertDesc(x, s[1..], key);
      InsertDescStep(x, s, rest, key);
      [s[0]] + rest
  }

  /** Putting the head back in front of the insertion into the tail. */
  lemma InsertDescStep<T>(x: T, s: seq<T>, rest: seq<T>, key: T -> int)
    requires s != [] && SortedDesc(s, key) && SortedDesc(rest, key) && key(x) < key(s[0])
    requires multiset(rest) == multiset(s[1..]) + multiset{x}
    requires rest != [] && (rest[0] == x || (s[1..] != [] && rest[0] == s[1]))
    ensures SortedDesc([s[0]] + rest, key)
    ensures multiset([s[0]] + rest) == multiset(s) + multiset{x}
  {
    assert s == [s[0]] + s[1..];
    assert key(s[0]) >= key(rest[0]);
    var r := [s[0]] + rest;
    forall i, j | 0 <= i < j < |r|
      ensures key(r[i]) >= key(r[j])
    {
      if i == 0 {
        assert key(rest[0]) >= key(rest[j - 1]);
      }
    }
  }

  /** `ORDER BY key DESC` (stable: elements with equal keys keep their order). */
  function SortDesc<T>(s: seq<T>, key: T -> int): (r: seq<T>)
    ensures SortedDesc(r, key)
    ensures multiset(r) == multiset(s)
    ensures |r| == |s|
  {
    if s == [] then []
    else
      assert s == [s[0]] + s[1..];
      InsertDesc(s[0], SortDesc(s[1..], key), key)
  }

  /** A permutation has the same elements. */
  lemma PermutationMember<T>(x: T, a: seq<T>, b: seq<T>)
    requires multiset(a) == multiset(b)
    ensures x in a <==> x in b
  {
    assert x in a <==> x in multiset(a);
    assert x in b <==> x in multiset(b);
  }

  /** Inserts `x` into a strictly ascending sequence unless it is there. */
  function InsertAsc(x: int, s: seq<int>): (r: seq<int>)
    requires SortedAsc(s)
    ensures SortedAsc(r)
    ensures forall y :: y in r <==> y == x || y in s
    ensures r != [] && (r[0] == x || (s != [] && r[0] == s[0]))
  {
    if s == [] then [x]
    else if x < s[0] then [x] + s
    else if x == s[0] then s
    else
      var rest := InsertAsc(x, s[1..]);
      assert s == [s[0]] + s[1..];
      [s[0]] + rest
  }

  /** The distinct values of `xs` in ascending order (`GROUP BY x ORDER BY x`). */
  function Ascending(xs: seq<int>): (r: seq<int>)
    ensures SortedAsc(r)
    ensures forall y :: y in r <==> y in xs
  {
    if xs == [] then []
    else
      var rest := Ascending(xs[1..]);
      assert xs == [xs[0]] + xs[1..];
      InsertAsc(xs[0], rest)
  }

  /** An element with the largest key (`MAX(key)`). */
  function MaxBy<T>(s: seq<T>, key: T -> int): (r: T)
    requires |s| > 0
    ensures r in s
    ensures forall i :: 0 <= i < |s| ==> key(s[i]) <= key(r)
  {
    if |s| == 1 then s[0]
    else
      var m := MaxBy(s[1..], key);
      if key(s[0]) >= key(m) then s[0] else m
  }

  /** `ORDER BY ... LIMIT count OFFSET offset`: the elements ranked
      `offset` .. `offset + count - 1`, as many of them as exist. */
  function Window<T>(s: seq<T>, offset: nat, count: nat): (r: seq<T>)
    ensures |r| <= count
    ensures offset + count <= |s| ==> |r| == count
    ensures forall i :: 0 <= i < |r| ==> offset + i < |s| && r[i] == s[offset + i]
  {
    if offset >= |s| then []
    else if offset + count >= |s| then s[offset..]
    else s[offset..offset + count]
  }

  /** A window is a contiguous piece of the sequence, so it holds nothing
      the sequence does not. */
  lemma WindowSlice<T>(s: seq<T>, offset: nat, count: nat)
    ensures var r := Window(s, offset, count);
      && (offset <= |s| ==> r == s[offset..offset + |r|])
      && multiset(r) <= multiset(s)
  {
    var r := Window(s, offset, count);
    if offset < |s| {
      assert s == s[..offset] + r + s[offset + |r|..];
      assert multiset(s) == multiset(s[..offset]) + multiset(r) + multiset(s[offset + |r|..]);
    }
  }

  /** Consecutive windows of the same size tile the sequence: no overlap and
      no gap. */
  lemma WindowsTile<T>(s: seq<T>, offset: nat, count: nat)
    requires offset + 2 * count <= |s|
    ensures Window(s, offset, count) + Window(s, offset + count, count) == s[offset..offset + 2 * count]
  {
    WindowSlice(s, offset, count);
    WindowSlice(s, offset + count, count);
  }
}
