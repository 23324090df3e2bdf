/** Shared vocabulary of the model: nullable references, error results,
    Java's 32-bit `int`, entity identifiers, and the few list operations the
    repositories and streams of the services rely on. */
module Common {

  /** A Java reference that may be `null`. */
  datatype Option<T> = None | Some(value: T)

  /** Either the value an operation returns or the exception it throws. */
  datatype Result<T, E> = Ok(value: T) | Err(error: E)

  /** Identifiers the persistence layer generates (UUIDs in the source). */
  type AccountId = nat
  type ItemId = nat

  /** Java's `int`. */
  type Int32 = x: int | -0x8000_0000 <= x < 0x8000_0000

  /** Two's-complement reduction of an exact integer into Java's `int`. */
  function Wrap32(x: int): (r: Int32)
    ensures (x - r) % 0x1_0000_0000 == 0
    ensures -0x8000_0000 <= x < 0x8000_0000 ==> r == x
  {
    (x + 0x8000_0000) % 0x1_0000_0000 - 0x8000_0000
  }

  /** Index of the first element satisfying `p`: what a repository's
      `findBy…` returns when it scans its rows in order. */
  function Find<T>(s: seq<T>, p: T -> bool): (r: Option<nat>)
    ensures r.Some? ==> r.value < |s| && p(s[r.value])
    ensures r.Some? ==> forall j :: 0 <= j < r.value ==> !p(s[j])
    ensures r.None? <==> forall j :: 0 <= j < |s| ==> !p(s[j])
  {
    if |s| == 0 then None
    else if p(s[0]) then Some(0)
    else match Find(s[1..], p)
      case None => None
      case Some(k) => Some(k + 1)
  }

  /** `r` is `s` with some elements deleted and the rest in their order. */
  ghost predicate IsSubsequence<T>(r: seq<T>, s: seq<T>)
    decreases |s|
  {
    |r| == 0
    || (&& |s| > 0
        && ((r[0] == s[0] && IsSubsequence(r[1..], s[1..])) || IsSubsequence(r, s[1..])))
  }

  /** The elements of `s` that satisfy `p`, in order: Java's `stream().filter(p)`.
      A subsequence of `s` holding every satisfying element as often as `s`
      does is unique, so the contract determines the result. */
  function Filter<T(!new)>(s: seq<T>, p: T -> bool): (r: seq<T>)
    ensures |r| <= |s|
    ensures IsSubsequence(r, s)
    ensures forall i :: 0 <= i < |r| ==> p(r[i])
    ensures forall x :: x in r <==> x in s && p(x)
    ensures forall x :: multiset(r)[x] == if p(x) then multiset(s)[x] else 0
  {
    if |s| == 0 then []
    else
      var rest := Filter(s[1..], p);
      assert s == [s[0]] + s[1..];
      if p(s[0]) then
        assert ([s[0]] + rest)[1..] == rest;
        [s[0]] + rest
      else rest
  }

  /** The elements of `s` with later repetitions dropped: Java's `stream().distinct()`. */
  function Distinct<T(==,!new)>(s: seq<T>): (r: seq<T>)
    ensures |r| <= |s|
    ensures forall x :: x in r <==> x in s
    ensures forall i, j :: 0 <= i < j < |r| ==> r[i] != r[j]
  {
    if |s| == 0 then []
    else
      var front := Distinct(s[..|s| - 1]);
      var last := s[|s| - 1];
      assert s == s[..|s| - 1] + [last];
      if last in front then front else front + [last]
  }

  /** `distinct()` changes nothing on a sequence without repeats, so applying
      it twice is applying it once. */
  lemma {:induction false} DistinctKeepsRepeatFree<T(!new)>(s: seq<T>)
    requires forall i, j :: 0 <= i < j < |s| ==> s[i] != s[j]
    ensures Distinct(s) == s
    ensures Distinct(Distinct(s)) == Distinct(s)
    decreases |s|
  {
    if |s| > 0 {
      var init := s[..|s| - 1];
      var last := s[|s| - 1];
      assert forall i, j :: 0 <= i < j < |init| ==> init[i] != init[j] by {
        forall i, j | 0 <= i < j < |init|
          ensures init[i] != init[j]
        {
          assert init[i] == s[i] && init[j] == s[j];
        }
      }
      DistinctKeepsRepeatFree(init);
      assert last !in init by {
        forall k | 0 <= k < |init|
          ensures init[k] != last
        {
          assert init[k] == s[k];
        }
      }
      assert s == init + [last];
    }
  }

  /** `distinct()` keeps elements in the order they first occur: what it
      makes of a prefix of `s` is a prefix of what it makes of `s`, so an
      element that first occurs earlier comes earlier. */
  lemma {:induction false} DistinctPrefix<T(!new)>(s: seq<T>, k: nat)
    requires k <= |s|
    ensures Distinct(s[..k]) <= Distinct(s)
    decreases |s| - k
  {
    if k < |s| {
      var init := s[..|s| - 1];
      assert init[..k] == s[..k];
      DistinctPrefix(init, k);
      assert Distinct(init) <= Distinct(s);
    } else {
      assert s[..k] == s;
    }
  }

  /** A subsequence holds no element more often than the sequence. */
  lemma {:induction false} SubsequenceMultiset<T>(r: seq<T>, s: seq<T>)
    requires IsSubsequence(r, s)
    ensures multiset(r) <= multiset(s)
    decreases |s|
  {
    if |r| > 0 {
      assert s == [s[0]] + s[1..];
      if r[0] == s[0] && IsSubsequence(r[1..], s[1..]) {
        SubsequenceMultiset(r[1..], s[1..]);
        assert r == [r[0]] + r[1..];
      } else {
        SubsequenceMultiset(r, s[1..]);
      }
    }
  }

  /** `Filter`'s contract determines it: a subsequence of `s` whose elements
      satisfy `p` and that holds each satisfying element as often as `s`
      does is `Filter(s, p)`. */
  lemma {:induction false} FilterUnique<T(!new)>(s: seq<T>, p: T -> bool, r: seq<T>)
    requires IsSubsequence(r, s)
    requires forall i :: 0 <= i < |r| ==> p(r[i])
    requires forall x :: p(x) ==> multiset(r)[x] == multiset(s)[x]
    ensures r == Filter(s, p)
    decreases |s|
  {
    if |s| == 0 {
    } else {
      var tail := s[1..];
      assert s == [s[0]] + tail;
      if |r| > 0 && r[0] == s[0] && IsSubsequence(r[1..], tail) {
        assert p(r[0]);
        assert r == [r[0]] + r[1..];
        forall i | 0 <= i < |r[1..]|
          ensures p(r[1..][i])
        {
          assert r[1..][i] == r[i + 1];
        }
        forall x | p(x)
          ensures multiset(r[1..])[x] == multiset(tail)[x]
        {
          assert multiset(r) == multiset{r[0]} + multiset(r[1..]);
          assert multiset(s) == multiset{s[0]} + multiset(tail);
        }
        FilterUnique(tail, p, r[1..]);
      } else {
        assert IsSubsequence(r, tail);
        SubsequenceMultiset(r, tail);
        if p(s[0]) {
          assert false;
        }
        forall x | p(x)
          ensures multiset(r)[x] == multiset(tail)[x]
        {
          assert multiset(s) == multiset{s[0]} + multiset(tail);
        }
        FilterUnique(tail, p, r);
      }
    }
  }

  /** Filtering a sequence with one more element at its end. */
  lemma {:induction false} FilterAppend<T(!new)>(a: seq<T>, x: T, p: T -> bool)
    ensures Filter(a + [x], p) == Filter(a, p) + (if p(x) then [x] else [])
    decreases |a|
  {
    if |a| == 0 {
      assert a + [x] == [x];
      assert [x][1..] == [];
    } else {
      assert (a + [x])[0] == a[0];
      assert (a + [x])[1..] == a[1..] + [x];
      FilterAppend(a[1..], x, p);
    }
  }

  /** Filtering twice is filtering once by the conjunction. */
  lemma {:induction false} FilterCompose<T(!new)>(s: seq<T>, p: T -> bool, q: T -> bool, both: T -> bool)
    requires forall x :: both(x) == (p(x) && q(x))
    ensures Filter(Filter(s, p), q) == Filter(s, both)
    decreases |s|
  {
    if |s| > 0 {
      FilterCompose(s[1..], p, q, both);
      if p(s[0]) {
        var f := Filter(s, p);
        assert f == [s[0]] + Filter(s[1..], p);
        assert f[0] == s[0] && f[1..] == Filter(s[1..], p);
      }
    }
  }

  /** Filters by predicates that agree everywhere agree. */
  lemma {:induction false} FilterExtensional<T(!new)>(s: seq<T>, p: T -> bool, q: T -> bool)
    requires forall x :: p(x) == q(x)
    ensures Filter(s, p) == Filter(s, q)
    decreases |s|
  {
    if |s| > 0 {
      FilterExtensional(s[1..], p, q);
    }
  }
}
