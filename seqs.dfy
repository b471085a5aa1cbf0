/** Sequence operations the extension's scripts use on JavaScript arrays:
    `filter`, `Array.from(new Set(...))`, `slice(0, n)`, and the optional
    values (`null` / a value) that many of its functions return. */
module Seqs {

  datatype Option<+T> = None | Some(value: T) {
    function GetOr(default: T): T {
      match this
      case Some(v) => v
      case None => default
    }
  }

  /** No element occurs twice. */
  predicate NoDup<T(==)>(s: seq<T>) {
    forall i, j :: 0 <= i < j < |s| ==> s[i] != s[j]
  }

  /** The tail of a sequence without duplicates has none and lacks the head. */
  lemma NoDupTail<T>(s: seq<T>)
    requires s != [] && NoDup(s)
    ensures NoDup(s[1..]) && s[0] !in s[1..]
  {
    forall i, j | 0 <= i < j < |s[1..]| ensures s[1..][i] != s[1..][j] {
      assert s[1..][i] == s[i + 1] && s[1..][j] == s[j + 1];
    }
    forall i | 0 <= i < |s[1..]| ensures s[1..][i] != s[0] {
      assert s[1..][i] == s[i + 1];
    }
  }

  /** `s.filter(keep)`: the elements that satisfy `keep`, in their original order. */
  function Filter<T(!new)>(s: seq<T>, keep: T -> bool): (r: seq<T>)
    ensures |r| <= |s|
    ensures forall x :: x in r <==> x in s && keep(x)
  {
    if s == [] then []
    else (if keep(s[0]) then [s[0]] else []) + Filter(s[1..], keep)
  }

  /** `s.map(f)` */
  function Map<T, U>(s: seq<T>, f: T -> U): (r: seq<U>)
    ensures |r| == |s|
    ensures forall i :: 0 <= i < |s| ==> r[i] == f(s[i])
  {
    if s == [] then [] else [f(s[0])] + Map(s[1..], f)
  }

  /** Filtering distributes over concatenation; with the one-element case this
      fixes the order of the result: kept elements stay in input order. */
  lemma {:induction false} FilterConcat<T(!new)>(a: seq<T>, b: seq<T>, keep: T -> bool)
    ensures Filter(a + b, keep) == Filter(a, keep) + Filter(b, keep)
  {
    if a == [] {
      assert a + b == b;
    } else {
      assert (a + b)[1..] == a[1..] + b;
      FilterConcat(a[1..], b, keep);
    }
  }

  /** Two filters in a row keep what satisfies both tests. */
  lemma {:induction false} FilterFilter<T(!new)>(s: seq<T>, p: T -> bool, q: T -> bool, both: T -> bool)
    requires forall x :: both(x) == (p(x) && q(x))
    ensures Filter(Filter(s, p), q) == Filter(s, both)
  {
    if s != [] {
      FilterFilter(s[1..], p, q, both);
      var rest := Filter(s[1..], p);
      if p(s[0]) {
        assert Filter(s, p) == [s[0]] + rest;
        assert Filter(s, p)[1..] == rest;
        assert Filter(Filter(s, p), q) == (if q(s[0]) then [s[0]] else []) + Filter(rest, q);
      } else {
        assert Filter(s, p) == rest;
      }
      assert Filter(s, both) == (if both(s[0]) then [s[0]] else []) + Filter(s[1..], both);
    }
  }

  /** A filter whose test every element passes changes nothing. */
  lemma {:induction false} FilterAll<T(!new)>(s: seq<T>, keep: T -> bool)
    requires forall i :: 0 <= i < |s| ==> keep(s[i])
    ensures Filter(s, keep) == s
  {
    if s != [] {
      assert forall i :: 0 <= i < |s[1..]| ==> s[1..][i] == s[i + 1];
      FilterAll(s[1..], keep);
    }
  }

  /** Mapping distributes over concatenation. */
  lemma {:induction false} MapConcat<T, U>(a: seq<T>, b: seq<T>, f: T -> U)
    ensures Map(a + b, f) == Map(a, f) + Map(b, f)
  {
    if a == [] {
      assert a + b == b;
    } else {
      assert (a + b)[1..] == a[1..] + b;
      MapConcat(a[1..], b, f);
    }
  }

  /** One more input element adds at most its own image to a filtered map:
      the step of a loop that maps, tests and pushes. */
  lemma FilterMapStep<T, U(!new)>(s: seq<T>, f: T -> U, keep: U -> bool, i: nat)
    requires i < |s|
    ensures Filter(Map(s[..i + 1], f), keep)
            == Filter(Map(s[..i], f), keep) + (if keep(f(s[i])) then [f(s[i])] else [])
  {
    assert s[..i + 1] == s[..i] + [s[i]];
    MapConcat(s[..i], [s[i]], f);
    assert [s[i]][1..] == [];
    assert Map([s[i]], f) == [f(s[i])];
    FilterConcat(Map(s[..i], f), [f(s[i])], keep);
    assert [f(s[i])][1..] == [];
  }

  /** `for (const x of s) { const y = f(x); if (keep(y)) out.push(y); }`:
      the kept images in input order, built up one element at a time. */
  function MapFilter<T, U>(s: seq<T>, f: T -> U, keep: U -> bool): seq<U>
    decreases |s|
  {
    if s == [] then []
    else
      var y := f(s[|s| - 1]);
      MapFilter(s[..|s| - 1], f, keep) + (if keep(y) then [y] else [])
  }

  /** The loop's step: one more element adds at most its own image. */
  lemma MapFilterStep<T, U>(s: seq<T>, f: T -> U, keep: U -> bool, i: nat)
    requires i < |s|
    ensures MapFilter(s[..i + 1], f, keep)
            == MapFilter(s[..i], f, keep) + (if keep(f(s[i])) then [f(s[i])] else [])
  {
    assert s[..i + 1][..i] == s[..i];
  }

  /** The loop computes the filtered map. */
  lemma {:induction false} MapFilterIsFilterMap<T, U(!new)>(s: seq<T>, f: T -> U, keep: U -> bool)
    ensures MapFilter(s, f, keep) == Filter(Map(s, f), keep)
    decreases |s|
  {
    if s != [] {
      var n := |s| - 1;
      MapFilterIsFilterMap(s[..n], f, keep);
      FilterMapStep(s, f, keep, n);
      assert s[..n + 1] == s;
    }
  }

  /** Every output is a kept image of an input. */
  lemma {:induction false} MapFilterSpec<T, U>(s: seq<T>, f: T -> U, keep: U -> bool)
    ensures forall y :: y in MapFilter(s, f, keep) ==> keep(y) && exists i :: 0 <= i < |s| && y == f(s[i])
    decreases |s|
  {
    if s != [] {
      var n := |s| - 1;
      MapFilterSpec(s[..n], f, keep);
      forall y | y in MapFilter(s, f, keep) ensures keep(y) && exists i :: 0 <= i < |s| && y == f(s[i]) {
        if y in MapFilter(s[..n], f, keep) {
          var i :| 0 <= i < n && y == f(s[..n][i]);
          assert s[i] == s[..n][i];
        } else {
          assert y == f(s[n]);
        }
      }
    }
  }

  /** The output for a prefix of the input is a prefix of the output. */
  lemma {:induction false} MapFilterPrefix<T, U>(s: seq<T>, f: T -> U, keep: U -> bool, n: nat)
    requires n <= |s|
    ensures |MapFilter(s[..n], f, keep)| <= |MapFilter(s, f, keep)|
    ensures MapFilter(s, f, keep)[..|MapFilter(s[..n], f, keep)|] == MapFilter(s[..n], f, keep)
    decreases |s|
  {
    if n == |s| {
      assert s[..n] == s;
    } else {
      var m := |s| - 1;
      assert s[..m][..n] == s[..n];
      MapFilterPrefix(s[..m], f, keep, n);
      var p := MapFilter(s[..n], f, keep);
      var q := MapFilter(s[..m], f, keep);
      var y := f(s[m]);
      assert (q + (if keep(y) then [y] else []))[..|p|] == q[..|p|];
    }
  }

  /** A loop that stops once it holds `m` outputs, after the first `n`
      inputs, has the first `m` outputs of the whole input. */
  lemma MapFilterStop<T, U>(s: seq<T>, f: T -> U, keep: U -> bool, n: nat, m: nat)
    requires n <= |s| && (n == |s| || |MapFilter(s[..n], f, keep)| >= m)
    requires |MapFilter(s[..n], f, keep)| <= m
    ensures MapFilter(s[..n], f, keep) == Take(MapFilter(s, f, keep), m)
  {
    MapFilterPrefix(s, f, keep, n);
    var all := MapFilter(s, f, keep);
    if n == |s| {
      assert s[..n] == s;
      assert Take(all, m) == all;
    } else {
      assert Take(all, m) == all[..m];
    }
  }

  /** Filtering keeps the relative order: two kept elements stand in the
      input in the same order as in the output. */
  lemma FilterOrder<T(!new)>(s: seq<T>, keep: T -> bool, i: nat, j: nat)
    requires i < j < |Filter(s, keep)|
    ensures exists i': nat, j': nat :: i' < j' < |s| && s[i'] == Filter(s, keep)[i] && s[j'] == Filter(s, keep)[j]
  {
    var i', j' := FilterIndices(s, keep, i, j);
  }

  /** Where two kept elements stand in the input. */
  lemma {:induction false} FilterIndices<T(!new)>(s: seq<T>, keep: T -> bool, i: nat, j: nat)
    returns (i': nat, j': nat)
    requires i < j < |Filter(s, keep)|
    ensures i' < j' < |s| && s[i'] == Filter(s, keep)[i] && s[j'] == Filter(s, keep)[j]
  {
    var f := Filter(s, keep);
    var g := Filter(s[1..], keep);
    if keep(s[0]) {
      assert f == [s[0]] + g;
      if i == 0 {
        assert f[j] == g[j - 1] && g[j - 1] in g;
        var k :| 0 <= k < |s[1..]| && s[1..][k] == g[j - 1];
        i', j' := 0, k + 1;
      } else {
        var a, b := FilterIndices(s[1..], keep, i - 1, j - 1);
        i', j' := a + 1, b + 1;
      }
    } else {
      assert f == g;
      var a, b := FilterIndices(s[1..], keep, i, j);
      i', j' := a + 1, b + 1;
    }
  }

  lemma FilterNoDup<T(!new)>(s: seq<T>, keep: T -> bool)
    requires NoDup(s)
    ensures NoDup(Filter(s, keep))
  {
    var f := Filter(s, keep);
    forall i, j | 0 <= i < j < |f| ensures f[i] != f[j] {
      FilterOrder(s, keep, i, j);
    }
  }

  /** The elements that are rejected are exactly the ones removed: the
      multiplicity of every kept value is unchanged. */
  lemma {:induction false} FilterCount<T(!new)>(s: seq<T>, keep: T -> bool, x: T)
    ensures multiset(Filter(s, keep))[x] == if keep(x) then multiset(s)[x] else 0
  {
    if s != [] {
      FilterCount(s[1..], keep, x);
      assert s == [s[0]] + s[1..];
    }
  }

  /** `Array.from(new Set(s))`: a Set keeps the first insertion of each value
      and iterates in insertion order, so each appended element is dropped
      when it was already seen. */
  function Dedup<T(==,!new)>(s: seq<T>): (r: seq<T>)
    ensures NoDup(r)
    ensures forall x :: x in r <==> x in s
    decreases |s|
  {
    if s == [] then []
    else
      var d := Dedup(s[..|s| - 1]);
      if s[|s| - 1] in d then d else d + [s[|s| - 1]]
  }

  /** Index of the first occurrence of `x` in `s`. */
  function FirstIndex<T(==)>(s: seq<T>, x: T): (k: nat)
    requires x in s
    ensures k < |s| && s[k] == x && x !in s[..k]
  {
    if s[0] == x then 0 else 1 + FirstIndex(s[1..], x)
  }

  lemma {:induction false} FirstIndexPrefix<T>(s: seq<T>, n: nat, x: T)
    requires n <= |s| && x in s[..n]
    ensures FirstIndex(s, x) == FirstIndex(s[..n], x)
  {
    if s[0] != x {
      assert s[1..][..n - 1] == s[..n][1..];
      FirstIndexPrefix(s[1..], n - 1, x);
    }
  }

  /** Dedup keeps first-seen order: distinct values appear in the order of
      their first occurrences in the input. */
  lemma {:induction false} DedupFirstSeenOrder<T(!new)>(s: seq<T>, i: nat, j: nat)
    requires i < j < |Dedup(s)|
    ensures FirstIndex(s, Dedup(s)[i]) < FirstIndex(s, Dedup(s)[j])
    decreases |s|
  {
    var p := s[..|s| - 1];
    var d := Dedup(p);
    var last := s[|s| - 1];
    assert s == p + [last];
    assert forall y :: y in p ==> y in s[..|p|] by { assert s[..|p|] == p; }
    if last in d {
      DedupFirstSeenOrder(p, i, j);
      FirstIndexPrefix(s, |p|, d[i]);
      FirstIndexPrefix(s, |p|, d[j]);
    } else if j < |d| {
      DedupFirstSeenOrder(p, i, j);
      FirstIndexPrefix(s, |p|, d[i]);
      FirstIndexPrefix(s, |p|, d[j]);
    } else {
      assert Dedup(s)[j] == last && last !in p;
      FirstIndexPrefix(s, |p|, d[i]);
      assert FirstIndex(s, last) == |p|;
    }
  }

  /** `s.findIndex(p)`: the first index whose element satisfies `p`; `find`
      returns the element there. */
  function FindIndex<T>(s: seq<T>, p: T -> bool): (r: Option<nat>)
    ensures r.Some? ==> r.value < |s| && p(s[r.value])
    ensures forall j :: 0 <= j < |s| && (r.None? || j < r.value) ==> !p(s[j])
  {
    if s == [] then None
    else if p(s[0]) then Some(0)
    else match FindIndex(s[1..], p)
      case None => None
      case Some(k) => Some(k + 1)
  }

  /** `s.slice(0, n)`. */
  function Take<T>(s: seq<T>, n: nat): (r: seq<T>)
    ensures |r| == if |s| < n then |s| else n
    ensures r == s[..|r|]
  {
    if |s| <= n then s else s[..n]
  }

  /** The accumulator after applying `f` to each element in turn. */
  function FoldLeft<A, B>(acc: A, xs: seq<B>, f: (A, B) -> A): A
    decreases |xs|
  {
    if xs == [] then acc else f(FoldLeft(acc, xs[..|xs| - 1], f), xs[|xs| - 1])
  }

  /** One more element folds in after the ones before it. */
  lemma FoldLeftStep<A, B>(acc: A, xs: seq<B>, i: nat, f: (A, B) -> A)
    requires i < |xs|
    ensures FoldLeft(acc, xs[..i + 1], f) == f(FoldLeft(acc, xs[..i], f), xs[i])
  {
    assert xs[..i + 1][..i] == xs[..i];
  }
}
