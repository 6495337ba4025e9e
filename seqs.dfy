/** Sequence and set helpers shared by every module of the model. */
module Seqs {

  /** The set of elements of a sequence (a Python list's membership test). */
  function Elems<T>(s: seq<T>): set<T>
  {
    set x | x in s
  }

  /** No element occurs twice. */
  ghost predicate Distinct<T>(s: seq<T>)
  {
    forall i, j :: 0 <= i < j < |s| ==> s[i] != s[j]
  }

  /** `a` is obtained from `b` by deleting elements: the relative order of `b` is kept. */
  ghost predicate IsSubseq<T>(a: seq<T>, b: seq<T>)
    decreases |b|
  {
    if a == [] then true
    else if b == [] then false
    else (a[0] == b[0] && IsSubseq(a[1..], b[1..])) || IsSubseq(a, b[1..])
  }

  /** The elements of `s` that satisfy `p`, in the order of `s` (a list comprehension with a filter). */
  function Filter(s: seq<int>, p: int -> bool): (r: seq<int>)
    ensures forall x :: x in r <==> x in s && p(x)
    decreases |s|
  {
    if s == [] then []
    else if p(s[0]) then [s[0]] + Filter(s[1..], p)
    else Filter(s[1..], p)
  }

  /** A filter keeps the order of its input, and with it the absence of duplicates. */
  lemma {:induction false} FilterOrder(s: seq<int>, p: int -> bool)
    ensures IsSubseq(Filter(s, p), s)
    ensures Distinct(s) ==> Distinct(Filter(s, p))
    decreases |s|
  {
    if s != [] {
      var rest := Filter(s[1..], p);
      FilterOrder(s[1..], p);
      if p(s[0]) {
        assert Filter(s, p) == [s[0]] + rest;
        assert ([s[0]] + rest)[1..] == rest;
        if Distinct(s) {
          assert Distinct(s[1..]);
          assert s[0] !in rest;
        }
      } else {
        assert Filter(s, p) == rest;
        if Distinct(s) {
          assert Distinct(s[1..]);
        }
      }
    }
  }

  /** Filtering one more element onto the end of the input. */
  lemma {:induction false} FilterSnoc(s: seq<int>, x: int, p: int -> bool)
    ensures Filter(s + [x], p) == Filter(s, p) + (if p(x) then [x] else [])
    decreases |s|
  {
    if s == [] {
      assert [x][1..] == [];
    } else {
      assert (s + [x])[0] == s[0];
      assert (s + [x])[1..] == s[1..] + [x];
      FilterSnoc(s[1..], x, p);
    }
  }

  /** Filtering a concatenation filters each part. */
  lemma {:induction false} FilterConcat(s: seq<int>, t: seq<int>, p: int -> bool)
    ensures Filter(s + t, p) == Filter(s, p) + Filter(t, p)
    decreases |s|
  {
    if s == [] {
      assert s + t == t;
    } else {
      assert (s + t)[0] == s[0];
      assert (s + t)[1..] == s[1..] + t;
      FilterConcat(s[1..], t, p);
    }
  }

  /** A kept element of both parts of a concatenation occurs twice in its filter. */
  lemma FilterTwice(s: seq<int>, t: seq<int>, p: int -> bool, x: int)
    requires x in s && x in t && p(x)
    ensures exists a, b :: 0 <= a < b < |Filter(s + t, p)| && Filter(s + t, p)[a] == x && Filter(s + t, p)[b] == x
  {
    FilterConcat(s, t, p);
    var front, back := Filter(s, p), Filter(t, p);
    assert x in front && x in back;
    var a :| 0 <= a < |front| && front[a] == x;
    var b :| 0 <= b < |back| && back[b] == x;
    assert (front + back)[a] == x;
    assert (front + back)[|front| + b] == x;
  }

  /** One step of the filter, as a fact a proof can call on. */
  lemma FilterStep(s: seq<int>, p: int -> bool)
    requires s != []
    ensures Filter(s, p) == (if p(s[0]) then [s[0]] + Filter(s[1..], p) else Filter(s[1..], p))
  {
  }

  /** Two predicates that agree on the elements of `s` filter it identically. */
  lemma {:induction false} FilterCongruent(s: seq<int>, p: int -> bool, q: int -> bool)
    requires forall x :: x in s ==> p(x) == q(x)
    ensures Filter(s, p) == Filter(s, q)
    decreases |s|
  {
    if s != [] {
      var h := s[0];
      assert h in s;
      assert p(h) == q(h);
      assert forall x :: x in s[1..] ==> x in s;
      FilterCongruent(s[1..], p, q);
      FilterStep(s, p);
      FilterStep(s, q);
    }
  }

  /** Keeping every element is the identity. */
  lemma {:induction false} FilterAll(s: seq<int>, p: int -> bool)
    requires forall x :: x in s ==> p(x)
    ensures Filter(s, p) == s
    decreases |s|
  {
    if s != [] {
      var h := s[0];
      assert h in s;
      assert p(h);
      assert forall x :: x in s[1..] ==> x in s;
      FilterAll(s[1..], p);
      FilterStep(s, p);
      assert s == [s[0]] + s[1..];
    }
  }

  /** Keeping no element gives the empty list. */
  lemma {:induction false} FilterNone(s: seq<int>, p: int -> bool)
    requires forall x :: x in s ==> !p(x)
    ensures Filter(s, p) == []
    decreases |s|
  {
    if s != [] {
      var h := s[0];
      assert h in s;
      assert !p(h);
      assert forall x :: x in s[1..] ==> x in s;
      FilterNone(s[1..], p);
      FilterStep(s, p);
    }
  }

  /** The elements of `s` that occur in `within`, in the order of `s`. */
  function Keep(s: seq<int>, within: seq<int>): (r: seq<int>)
    ensures forall x :: x in r <==> x in s && x in within
  {
    Filter(s, x => x in within)
  }

  /** The elements of `s` that do not occur in `drop`, in the order of `s`. */
  function Without(s: seq<int>, drop: seq<int>): (r: seq<int>)
    ensures forall x :: x in r <==> x in s && x !in drop
  {
    Filter(s, x => x !in drop)
  }

  /** Keeping and removing keep the order of `s`, and with it the absence of duplicates. */
  lemma KeepWithoutOrder(s: seq<int>, other: seq<int>)
    ensures IsSubseq(Keep(s, other), s) && IsSubseq(Without(s, other), s)
    ensures Distinct(s) ==> Distinct(Keep(s, other)) && Distinct(Without(s, other))
  {
    FilterOrder(s, x => x in other);
    FilterOrder(s, x => x !in other);
  }

  /** Removing nothing that is there leaves `s` as it is; removing all of it leaves nothing. */
  lemma WithoutExtremes(s: seq<int>, drop: seq<int>)
    ensures (forall x :: x in s ==> x !in drop) ==> Without(s, drop) == s
    ensures (forall x :: x in s ==> x in drop) ==> Without(s, drop) == []
  {
    if forall x :: x in s ==> x !in drop {
      FilterAll(s, x => x !in drop);
    }
    if forall x :: x in s ==> x in drop {
      FilterNone(s, x => x !in drop);
    }
  }

  /** Every element of a prefix of `b` is an element of `b`. */
  lemma PrefixMembers<T>(a: seq<T>, b: seq<T>)
    requires |a| <= |b| && b[..|a|] == a
    ensures forall x :: x in a ==> x in b
  {
    forall x | x in a ensures x in b {
      var k :| 0 <= k < |a| && a[k] == x;
      assert b[k] == x;
    }
  }

  /** A prefix of a prefix of `c` is a prefix of `c`. */
  lemma PrefixTransitive<T>(a: seq<T>, b: seq<T>, c: seq<T>)
    requires |a| <= |b| && b[..|a|] == a
    requires |b| <= |c| && c[..|b|] == b
    ensures c[..|a|] == a
  {
    assert c[..|a|] == c[..|b|][..|a|];
  }

  predicate StrictlyIncreasing(s: seq<int>)
  {
    forall i, j :: 0 <= i < j < |s| ==> s[i] < s[j]
  }

  /** Inserts `x` into an increasing sequence unless it is already there. */
  function Insert(s: seq<int>, x: int): (r: seq<int>)
    requires StrictlyIncreasing(s)
    ensures StrictlyIncreasing(r)
    ensures forall y :: y in r <==> y in s || y == x
    decreases |s|
  {
    if s == [] then [x]
    else if x < s[0] then [x] + s
    else if x == s[0] then s
    else
      var rest := Insert(s[1..], x);
      assert forall y :: y in s <==> y == s[0] || y in s[1..];
      assert forall k :: 0 <= k < |rest| ==> s[0] < rest[k] by {
        forall k | 0 <= k < |rest| ensures s[0] < rest[k] {
          assert rest[k] in rest;
        }
      }
      [s[0]] + rest
  }

  /** The distinct values of `xs`, in increasing order (the group keys of a pandas groupby). */
  function SortedKeys(xs: seq<int>): (r: seq<int>)
    ensures StrictlyIncreasing(r)
    ensures forall y :: y in r <==> y in xs
    decreases |xs|
  {
    if xs == [] then []
    else
      var init := xs[..|xs| - 1];
      assert forall y :: y in xs <==> y in init || y == xs[|xs| - 1] by {
        assert xs == init + [xs[|xs| - 1]];
      }
      Insert(SortedKeys(init), xs[|xs| - 1])
  }

  /** An increasing sequence has no repeated element. */
  lemma IncreasingIsDistinct(s: seq<int>)
    requires StrictlyIncreasing(s)
    ensures Distinct(s)
  {
  }

  /** The elements of a duplicate-free sequence are as many as its positions. */
  lemma {:induction false} DistinctCard<T>(s: seq<T>)
    requires Distinct(s)
    ensures |Elems(s)| == |s|
    decreases |s|
  {
    if s != [] {
      var t := s[1..];
      assert Elems(s) == Elems(t) + {s[0]};
      assert s[0] !in Elems(t);
      DistinctCard(t);
    }
  }

  /** Two duplicate-free sequences with no common element concatenate to a duplicate-free one. */
  lemma DistinctConcat<T>(a: seq<T>, b: seq<T>)
    requires Distinct(a) && Distinct(b)
    requires forall x :: x in a ==> x !in b
    ensures Distinct(a + b)
  {
    forall i, j | 0 <= i < j < |a + b| ensures (a + b)[i] != (a + b)[j] {
      if i < |a| && j >= |a| {
        assert (a + b)[i] in a && (a + b)[j] == b[j - |a|];
      }
    }
  }

  /** A duplicate-free sequence whose elements all occur in a duplicate-free `b` is no longer than `b`. */
  lemma DistinctSubsetLength<T>(a: seq<T>, b: seq<T>)
    requires Distinct(a) && Distinct(b)
    requires forall x :: x in a ==> x in b
    ensures |a| <= |b|
  {
    DistinctCard(a);
    DistinctCard(b);
    assert Elems(a) * Elems(b) == Elems(a);
    assert |Elems(b) - Elems(a)| + |Elems(a)| == |Elems(b)|;
  }
}
