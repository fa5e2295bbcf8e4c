/**
 * `Array.prototype.filter`, as the listing pages and the configuration files use it:
 * the elements a predicate accepts, in their original order.  `TryFilter` is the same
 * walk with a predicate that may throw; the first error ends it.  `Collect` is a `map`
 * followed by filters, fused: the values a function gives, skipping the elements it
 * gives nothing for.
 */
module Listing {
  import opened Wrappers

  /** `xs.filter(p)`. */
  function Filter<T>(xs: seq<T>, p: T -> bool): (r: seq<T>)
    ensures |r| <= |xs|
    ensures forall i :: 0 <= i < |r| ==> p(r[i])
    decreases |xs|
  {
    if xs == [] then []
    else (if p(xs[0]) then [xs[0]] else []) + Filter(xs[1..], p)
  }

  /** `r` is `xs` with some elements removed, the others kept in order. */
  predicate IsSubsequence<T(==)>(r: seq<T>, xs: seq<T>)
    decreases |xs|
  {
    r == [] || (xs != [] && ((r[0] == xs[0] && IsSubsequence(r[1..], xs[1..])) || IsSubsequence(r, xs[1..])))
  }

  /** The filtered list keeps the original order. */
  lemma {:induction false} FilterSubsequence<T>(xs: seq<T>, p: T -> bool)
    ensures IsSubsequence(Filter(xs, p), xs)
    decreases |xs|
  {
    if xs != [] {
      FilterSubsequence(xs[1..], p);
      var r := Filter(xs, p);
      if p(xs[0]) {
        assert r[0] == xs[0] && r[1..] == Filter(xs[1..], p);
      } else {
        assert r == Filter(xs[1..], p);
      }
    }
  }

  /** An element is kept exactly when it is in the list and the predicate accepts it. */
  lemma {:induction false} FilterMembers<T>(xs: seq<T>, p: T -> bool, x: T)
    ensures x in Filter(xs, p) <==> x in xs && p(x)
    decreases |xs|
  {
    if xs != [] {
      FilterMembers(xs[1..], p, x);
      assert xs == [xs[0]] + xs[1..];
    }
  }

  /** A predicate that accepts every element keeps the whole list. */
  lemma {:induction false} FilterAll<T>(xs: seq<T>, p: T -> bool)
    requires forall i :: 0 <= i < |xs| ==> p(xs[i])
    ensures Filter(xs, p) == xs
    decreases |xs|
  {
    if xs != [] {
      FilterAll(xs[1..], p);
      assert xs == [xs[0]] + xs[1..];
    }
  }

  /** Two predicates that agree on the elements keep the same elements. */
  lemma {:induction false} FilterSame<T>(xs: seq<T>, p: T -> bool, q: T -> bool)
    requires forall i :: 0 <= i < |xs| ==> (p(xs[i]) <==> q(xs[i]))
    ensures Filter(xs, p) == Filter(xs, q)
    decreases |xs|
  {
    if xs != [] {
      FilterSame(xs[1..], p, q);
    }
  }

  /** `xs.map(f)` followed by filters that drop what `f` gives nothing for. */
  function Collect<T, U>(xs: seq<T>, f: T -> Option<U>): (r: seq<U>)
    ensures |r| <= |xs|
    decreases |xs|
  {
    if xs == [] then []
    else (if f(xs[0]).Some? then [f(xs[0]).value] else []) + Collect(xs[1..], f)
  }

  /** Collecting from two lists joined is collecting from each, in order. */
  lemma {:induction false} CollectAppend<T, U>(a: seq<T>, b: seq<T>, f: T -> Option<U>)
    ensures Collect(a + b, f) == Collect(a, f) + Collect(b, f)
    decreases |a|
  {
    if a == [] {
      assert a + b == b;
    } else {
      var head := if f(a[0]).Some? then [f(a[0]).value] else [];
      assert (a + b)[0] == a[0] && (a + b)[1..] == a[1..] + b;
      assert Collect(a + b, f) == head + Collect(a[1..] + b, f);
      CollectAppend(a[1..], b, f);
      assert head + (Collect(a[1..], f) + Collect(b, f)) == (head + Collect(a[1..], f)) + Collect(b, f);
    }
  }

  /** A value is collected exactly when `f` gives it for some element. */
  lemma {:induction false} CollectMembers<T, U>(xs: seq<T>, f: T -> Option<U>, y: U)
    ensures y in Collect(xs, f) <==> exists i :: 0 <= i < |xs| && f(xs[i]) == Some(y)
    decreases |xs|
  {
    if xs != [] {
      CollectMembers(xs[1..], f, y);
      if exists i :: 0 <= i < |xs| && f(xs[i]) == Some(y) {
        var i :| 0 <= i < |xs| && f(xs[i]) == Some(y);
        if i > 0 {
          assert xs[1..][i - 1] == xs[i];
        }
      }
      if y in Collect(xs[1..], f) {
        var i :| 0 <= i < |xs[1..]| && f(xs[1..][i]) == Some(y);
        assert xs[i + 1] == xs[1..][i];
      }
    }
  }

  /** When `f` gives a value for every element, every element's value is collected, in order. */
  lemma {:induction false} CollectAll<T, U>(xs: seq<T>, f: T -> Option<U>)
    requires forall i :: 0 <= i < |xs| ==> f(xs[i]).Some?
    ensures |Collect(xs, f)| == |xs|
    ensures forall i :: 0 <= i < |xs| ==> f(xs[i]) == Some(Collect(xs, f)[i])
    decreases |xs|
  {
    if xs != [] {
      CollectAll(xs[1..], f);
      var r := Collect(xs, f);
      assert r == [f(xs[0]).value] + Collect(xs[1..], f);
      forall i | 0 < i < |xs|
        ensures f(xs[i]) == Some(r[i])
      {
        assert xs[1..][i - 1] == xs[i];
      }
    }
  }

  /** `xs.filter(p)` with a predicate that may throw: the predicate runs on every element
      in order, and the first error is the result. */
  function TryFilter<T, E>(xs: seq<T>, p: T -> Result<bool, E>): Result<seq<T>, E>
    decreases |xs|
  {
    if xs == [] then Ok([])
    else match p(xs[0])
      case Err(e) => Err(e)
      case Ok(keep) =>
        match TryFilter(xs[1..], p)
        case Err(e) => Err(e)
        case Ok(rest) => Ok((if keep then [xs[0]] else []) + rest)
  }

  /** The walk fails exactly when the predicate fails on some element, and then with the
      error of the first such element. */
  lemma {:induction false} TryFilterFails<T, E>(xs: seq<T>, p: T -> Result<bool, E>)
    ensures TryFilter(xs, p).Err? <==> exists i :: 0 <= i < |xs| && p(xs[i]).Err?
    ensures TryFilter(xs, p).Err? ==>
      exists i :: 0 <= i < |xs| && p(xs[i]).Err? && TryFilter(xs, p).error == p(xs[i]).error
        && forall j :: 0 <= j < i ==> p(xs[j]).Ok?
    decreases |xs|
  {
    if xs != [] {
      TryFilterFails(xs[1..], p);
      if p(xs[0]).Ok? && TryFilter(xs[1..], p).Err? {
        var i :| 0 <= i < |xs[1..]| && p(xs[1..][i]).Err? && TryFilter(xs[1..], p).error == p(xs[1..][i]).error
          && forall j :: 0 <= j < i ==> p(xs[1..][j]).Ok?;
        assert forall j :: 1 <= j < i + 1 ==> xs[j] == xs[1..][j - 1];
        assert p(xs[i + 1]).Err?;
      }
      if exists i :: 0 <= i < |xs| && p(xs[i]).Err? {
        var i :| 0 <= i < |xs| && p(xs[i]).Err?;
        if i > 0 {
          assert xs[1..][i - 1] == xs[i];
        }
      }
    }
  }

  /** A predicate that never fails filters like the plain predicate it agrees with. */
  lemma {:induction false} TryFilterAgrees<T, E>(xs: seq<T>, p: T -> Result<bool, E>, q: T -> bool)
    requires forall i :: 0 <= i < |xs| ==> p(xs[i]) == Ok(q(xs[i]))
    ensures TryFilter(xs, p) == Ok(Filter(xs, q))
    decreases |xs|
  {
    if xs != [] {
      TryFilterAgrees(xs[1..], p, q);
    }
  }
}
