/** Filters, tails and single removals of sequences. */
module Sequences {

  function Filter<T>(s: seq<T>, p: T -> bool): seq<T> {
    if s == [] then [] else (if p(s[0]) then [s[0]] else []) + Filter(s[1..], p)
  }

  function Without<T>(s: seq<T>, i: nat): seq<T>
    requires i < |s|
  {
    s[..i] + s[i + 1..]
  }

  lemma {:induction false} FilterConcat<T>(a: seq<T>, b: seq<T>, p: T -> bool)
    ensures Filter(a + b, p) == Filter(a, p) + Filter(b, p)
  {
    if a == [] {
      assert a + b == b;
    } else {
      FilterConcat(a[1..], b, p);
      assert (a + b)[0] == a[0] && (a + b)[1..] == a[1..] + b;
      var head, mid, tail := if p(a[0]) then [a[0]] else [], Filter(a[1..], p), Filter(b, p);
      assert head + (mid + tail) == (head + mid) + tail;
    }
  }

  lemma FilterPush<T>(s: seq<T>, x: T, p: T -> bool)
    ensures Filter(s + [x], p) == Filter(s, p) + (if p(x) then [x] else [])
  {
    FilterConcat(s, [x], p);
    assert [x][1..] == [];
  }

  lemma FilterWithout<T>(s: seq<T>, i: nat, p: T -> bool)
    requires i < |s|
    ensures Filter(s, p) == Filter(s[..i], p) + (if p(s[i]) then [s[i]] else []) + Filter(s[i + 1..], p)
    ensures Filter(Without(s, i), p) == Filter(s[..i], p) + Filter(s[i + 1..], p)
    ensures |Filter(s, p)| == |Filter(Without(s, i), p)| + (if p(s[i]) then 1 else 0)
    ensures !p(s[i]) ==> Filter(Without(s, i), p) == Filter(s, p)
  {
    FilterConcat(s[..i], s[i + 1..], p);
    FilterPush(s[..i], s[i], p);
    FilterConcat(s[..i] + [s[i]], s[i + 1..], p);
    assert s == s[..i] + [s[i]] + s[i + 1..];
  }

  lemma {:induction false} FilterNone<T>(s: seq<T>, p: T -> bool)
    ensures Filter(s, p) == [] <==> forall x <- s :: !p(x)
  {
    if s != [] {
      FilterNone(s[1..], p);
      assert s == [s[0]] + s[1..];
    }
  }

  lemma {:induction false} FilterMembers<T>(s: seq<T>, p: T -> bool)
    ensures forall x :: x in Filter(s, p) <==> x in s && p(x)
  {
    if s != [] {
      FilterMembers(s[1..], p);
      assert s == [s[0]] + s[1..];
    }
  }

  /** A first filter that keeps all the second one wants makes no difference to it. */
  lemma {:induction false} FilterImplied<T>(s: seq<T>, p: T -> bool, q: T -> bool)
    requires forall x <- s :: q(x) ==> p(x)
    ensures Filter(Filter(s, p), q) == Filter(s, q)
  {
    if s != [] {
      assert s == [s[0]] + s[1..];
      FilterImplied(s[1..], p, q);
      if p(s[0]) {
        var rest := Filter(s[1..], p);
        assert Filter(s, p) == [s[0]] + rest && ([s[0]] + rest)[1..] == rest;
      } else {
        assert Filter(s, p) == Filter(s[1..], p);
      }
    }
  }

  lemma {:induction false} FilterExcluded<T>(s: seq<T>, p: T -> bool, q: T -> bool)
    requires forall x <- s :: q(x) ==> !p(x)
    ensures Filter(Filter(s, p), q) == []
  {
    if s != [] {
      assert s == [s[0]] + s[1..];
      FilterExcluded(s[1..], p, q);
      if p(s[0]) {
        var rest := Filter(s[1..], p);
        assert Filter(s, p) == [s[0]] + rest && ([s[0]] + rest)[1..] == rest;
      } else {
        assert Filter(s, p) == Filter(s[1..], p);
      }
    }
  }

  lemma {:induction false} FilterSkips<T>(s: seq<T>, k: nat, p: T -> bool)
    requires k <= |s| && forall i :: 0 <= i < k ==> !p(s[i])
    ensures Filter(s, p) == Filter(s[k..], p)
  {
    if k > 0 {
      FilterSkips(s[1..], k - 1, p);
      assert s[1..][k - 1..] == s[k..];
    } else {
      assert s[0..] == s;
    }
  }

  lemma {:induction false} FilterCount<T>(s: seq<T>, p: T -> bool, x: T)
    ensures multiset(Filter(s, p))[x] == if p(x) then multiset(s)[x] else 0
  {
    if s != [] {
      FilterCount(s[1..], p, x);
      assert s == [s[0]] + s[1..];
    }
  }

  lemma {:induction false} FilterOne<T>(s: seq<T>, p: T -> bool, x: T)
    requires p(x) && forall i :: 0 <= i < |s| && p(s[i]) ==> s[i] == x
    ensures |Filter(s, p)| == multiset(s)[x]
  {
    if s != [] {
      FilterOne(s[1..], p, x);
      assert s == [s[0]] + s[1..];
    }
  }

  /** The last `n` elements, or all of them when there are fewer. */
  function LastN<T>(s: seq<T>, n: nat): seq<T> {
    if |s| <= n then s else s[|s| - n..]
  }
}
