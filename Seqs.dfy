/** Sequence helpers that stand for the JavaScript array methods the storefront
    uses: `filter`, `includes` and the "remove if present, append if absent"
    toggle written out on both catalog pages. */
module Seqs {

  datatype Option<T> = None | Some(value: T)

  /** `s.filter(p)`: the elements of `s` that satisfy `p`, in their original order. */
  function Filter<T>(s: seq<T>, p: T -> bool): (r: seq<T>)
    ensures |r| <= |s|
    ensures forall i :: 0 <= i < |r| ==> p(r[i])
    ensures forall i :: 0 <= i < |r| ==> r[i] in s
    ensures forall i :: 0 <= i < |s| && p(s[i]) ==> s[i] in r
  {
    if s == [] then []
    else (if p(s[0]) then [s[0]] else []) + Filter(s[1..], p)
  }

  /** `r` can be obtained from `s` by deleting elements: it keeps their relative order. */
  ghost predicate IsSubsequence<T>(r: seq<T>, s: seq<T>)
    decreases |s|
  {
    r == [] || (s != [] && ((r[0] == s[0] && IsSubsequence(r[1..], s[1..])) || IsSubsequence(r, s[1..])))
  }

  /** Filtering keeps the relative order of the kept elements. */
  lemma {:induction false} FilterIsSubsequence<T>(s: seq<T>, p: T -> bool)
    ensures IsSubsequence(Filter(s, p), s)
  {
    if s != [] {
      FilterIsSubsequence(s[1..], p);
      var r := Filter(s, p);
      if p(s[0]) {
        assert r[0] == s[0] && r[1..] == Filter(s[1..], p);
      } else {
        assert r == Filter(s[1..], p);
      }
    }
  }

  /** Filtering keeps every element that satisfies `p` exactly as often as it occurs. */
  lemma {:induction false} FilterCount<T>(s: seq<T>, p: T -> bool, x: T)
    ensures multiset(Filter(s, p))[x] == if p(x) then multiset(s)[x] else 0
  {
    if s != [] {
      FilterCount(s[1..], p, x);
      assert s == [s[0]] + s[1..];
      assert multiset(s) == multiset{s[0]} + multiset(s[1..]);
      var head := if p(s[0]) then [s[0]] else [];
      assert multiset(Filter(s, p)) == multiset(head) + multiset(Filter(s[1..], p));
    }
  }

  lemma {:induction false} FilterAppend<T>(a: seq<T>, b: seq<T>, p: T -> bool)
    ensures Filter(a + b, p) == Filter(a, p) + Filter(b, p)
  {
    if a != [] {
      assert (a + b)[0] == a[0] && (a + b)[1..] == a[1..] + b;
      FilterAppend(a[1..], b, p);
      var head := if p(a[0]) then [a[0]] else [];
      calc {
        Filter(a + b, p);
        head + Filter(a[1..] + b, p);
        head + (Filter(a[1..], p) + Filter(b, p));
        (head + Filter(a[1..], p)) + Filter(b, p);
      }
    } else {
      assert a + b == b;
    }
  }

  /** A filter that keeps every element returns its input unchanged. */
  lemma {:induction false} FilterKeepsAll<T>(s: seq<T>, p: T -> bool)
    requires forall i :: 0 <= i < |s| ==> p(s[i])
    ensures Filter(s, p) == s
  {
    if s != [] {
      FilterKeepsAll(s[1..], p);
    }
  }

  /** Two filters in a row keep exactly what their conjunction keeps. */
  lemma {:induction false} FilterThen<T>(s: seq<T>, p: T -> bool, q: T -> bool, both: T -> bool)
    requires forall x :: both(x) == (p(x) && q(x))
    ensures Filter(Filter(s, p), q) == Filter(s, both)
  {
    if s != [] {
      FilterThen(s[1..], p, q, both);
      var head := if p(s[0]) then [s[0]] else [];
      FilterAppend(head, Filter(s[1..], p), q);
    }
  }

  /** An element is in a filtered list exactly when it is in the input and passes. */
  lemma FilterMembership<T>(s: seq<T>, p: T -> bool)
    ensures forall x :: x in Filter(s, p) <==> x in s && p(x)
  {
    forall x | x in s && p(x)
      ensures x in Filter(s, p)
    {
      var i :| 0 <= i < |s| && s[i] == x;
    }
  }

  /** The predicate that keeps everything. */
  function Always<T>(): T -> bool
  {
    x => true
  }

  /** A stage that runs only when `on` holds (`if (on) s = s.filter(p)`) is a filter by
      the predicate with the switch folded in. */
  lemma SwitchedStage<T>(s: seq<T>, on: bool, p: T -> bool, stage: T -> bool)
    requires forall x :: stage(x) == (!on || p(x))
    ensures (if on then Filter(s, p) else s) == Filter(s, stage)
  {
    if on {
      FilterThen(s, p, Always(), stage);
      FilterKeepsAll(Filter(s, p), Always());
    } else {
      FilterKeepsAll(s, stage);
    }
  }

  /** `[...s]` and the arrays `filter` returns: a fresh array holding `s`. */
  method ToArray<T>(s: seq<T>) returns (a: array<T>)
    ensures fresh(a) && a[..] == s
  {
    a := new T[|s|](i requires 0 <= i < |s| => s[i]);
  }

  /** The order of two filter stages does not matter. */
  lemma FilterCommutes<T>(s: seq<T>, p: T -> bool, q: T -> bool)
    ensures Filter(Filter(s, p), q) == Filter(Filter(s, q), p)
  {
    var both := x => p(x) && q(x);
    FilterThen(s, p, q, both);
    FilterThen(s, q, p, both);
  }

  /** Filtering twice by the same predicate is filtering once. */
  lemma FilterIdempotent<T>(s: seq<T>, p: T -> bool)
    ensures Filter(Filter(s, p), p) == Filter(s, p)
  {
    FilterKeepsAll(Filter(s, p), p);
  }

  /** `x => x != v`, the predicate of `xs.filter(item => item !== v)`. */
  function Except<T(==)>(v: T): T -> bool
  {
    x => x != v
  }

  /** `xs.includes(v) ? xs.filter(x => x !== v) : [...xs, v]`. */
  function Toggle<T(==)>(xs: seq<T>, v: T): (r: seq<T>)
    ensures v in r <==> v !in xs
    ensures forall i :: 0 <= i < |xs| && xs[i] != v ==> xs[i] in r
    ensures forall i :: 0 <= i < |r| && r[i] != v ==> r[i] in xs
  {
    if v in xs then Filter(xs, Except(v)) else xs + [v]
  }

  /** Toggling the same value twice restores membership of every value; when the
      value was absent the list itself comes back, and when it was present every
      copy of it has been replaced by a single one at the end. */
  lemma ToggleTwice<T>(xs: seq<T>, v: T)
    ensures forall i :: 0 <= i < |xs| ==> xs[i] in Toggle(Toggle(xs, v), v)
    ensures var r := Toggle(Toggle(xs, v), v); forall i :: 0 <= i < |r| ==> r[i] in xs
    ensures v !in xs ==> Toggle(Toggle(xs, v), v) == xs
    ensures v in xs ==> Toggle(Toggle(xs, v), v) == Filter(xs, Except(v)) + [v]
  {
    if v !in xs {
      FilterAppend(xs, [v], Except(v));
      FilterKeepsAll(xs, Except(v));
    }
  }
}
