/** `Array.prototype.sort` with a comparator of the shape `(a, b) => key(a) - key(b)`.
    The sort is stable (section 22.1.3.27 of ECMA-262, 10th edition), so for such a
    comparator its result is the unique arrangement that orders the keys
    non-decreasingly and keeps equal-key elements in their original order. It is
    modelled as an insertion sort: `Sort` is the functional definition, and
    `SortInPlace` sorts an array in place and is proved to produce `Sort`. */
module StableSort {
  import opened Seqs

  /** The keys of `s` never decrease from left to right. */
  ghost predicate SortedBy<T>(s: seq<T>, key: T -> real)
  {
    forall i, j :: 0 <= i < j < |s| ==> key(s[i]) <= key(s[j])
  }

  /** Inserts `x` into `s`, right after the last element whose key is not greater
      than that of `x`, scanning from the right end (one step of insertion sort). */
  function Insert<T>(s: seq<T>, x: T, key: T -> real): (r: seq<T>)
    ensures |r| == |s| + 1
  {
    if s == [] || key(s[|s| - 1]) <= key(x) then s + [x]
    else Insert(s[..|s| - 1], x, key) + [s[|s| - 1]]
  }

  /** Stable sort of `s` by `key`: insert each element, left to right, into the
      sorted prefix before it. */
  function Sort<T>(s: seq<T>, key: T -> real): (r: seq<T>)
    ensures |r| == |s|
  {
    if s == [] then [] else Insert(Sort(s[..|s| - 1], key), s[|s| - 1], key)
  }

  /** The predicate "has key `k`", one class of elements the sort must not reorder. */
  function HasKey<T>(key: T -> real, k: real): T -> bool
  {
    x => key(x) == k
  }

  lemma {:induction false} InsertPermutes<T>(s: seq<T>, x: T, key: T -> real)
    ensures multiset(Insert(s, x, key)) == multiset(s) + multiset{x}
  {
    if s != [] && key(s[|s| - 1]) > key(x) {
      var init, last := s[..|s| - 1], s[|s| - 1];
      InsertPermutes(init, x, key);
      assert s == init + [last];
    }
  }

  /** The sort only rearranges its input. */
  lemma {:induction false} SortPermutes<T>(s: seq<T>, key: T -> real)
    ensures multiset(Sort(s, key)) == multiset(s)
  {
    if s != [] {
      var init, last := s[..|s| - 1], s[|s| - 1];
      SortPermutes(init, key);
      InsertPermutes(Sort(init, key), last, key);
      assert s == init + [last];
    }
  }

  /** The sort keeps exactly the elements of its input. */
  lemma SortMembership<T>(s: seq<T>, key: T -> real)
    ensures forall x :: x in Sort(s, key) <==> x in s
  {
    SortPermutes(s, key);
    forall x
      ensures x in Sort(s, key) <==> x in s
    {
      assert x in Sort(s, key) <==> x in multiset(Sort(s, key));
      assert x in s <==> x in multiset(s);
    }
  }

  lemma {:induction false} InsertSorted<T>(s: seq<T>, x: T, key: T -> real)
    requires SortedBy(s, key)
    ensures SortedBy(Insert(s, x, key), key)
    ensures forall i :: 0 <= i < |Insert(s, x, key)| ==>
      Insert(s, x, key)[i] == x || Insert(s, x, key)[i] in s
  {
    if s != [] && key(s[|s| - 1]) > key(x) {
      var init, last := s[..|s| - 1], s[|s| - 1];
      InsertSorted(init, x, key);
      var r := Insert(init, x, key);
      assert forall i :: 0 <= i < |r| ==> key(r[i]) <= key(last) by {
        forall i | 0 <= i < |r|
          ensures key(r[i]) <= key(last)
        {
          if r[i] != x {
            var j :| 0 <= j < |init| && init[j] == r[i];
            assert s[j] == init[j];
          }
        }
      }
      assert forall i :: 0 <= i < |r| ==> r[i] == x || r[i] in s by {
        forall i | 0 <= i < |r| && r[i] != x
          ensures r[i] in s
        {
          var j :| 0 <= j < |init| && init[j] == r[i];
          assert s[j] == init[j];
        }
      }
    }
  }

  /** The sort orders its output by non-decreasing key. */
  lemma {:induction false} SortSorted<T>(s: seq<T>, key: T -> real)
    ensures SortedBy(Sort(s, key), key)
  {
    if s != [] {
      SortSorted(s[..|s| - 1], key);
      InsertSorted(Sort(s[..|s| - 1], key), s[|s| - 1], key);
    }
  }

  lemma {:induction false} InsertKeepsClass<T>(s: seq<T>, x: T, key: T -> real, k: real)
    ensures Filter(Insert(s, x, key), HasKey(key, k))
         == Filter(s, HasKey(key, k)) + (if key(x) == k then [x] else [])
  {
    var p := HasKey(key, k);
    if s == [] || key(s[|s| - 1]) <= key(x) {
      FilterAppend(s, [x], p);
    } else {
      var init, last := s[..|s| - 1], s[|s| - 1];
      assert s == init + [last];
      InsertKeepsClass(init, x, key, k);
      FilterAppend(Insert(init, x, key), [last], p);
      FilterAppend(init, [last], p);
    }
  }

  /** Stability: the elements that share a key keep their original relative order. */
  lemma {:induction false} SortStable<T>(s: seq<T>, key: T -> real, k: real)
    ensures Filter(Sort(s, key), HasKey(key, k)) == Filter(s, HasKey(key, k))
  {
    if s != [] {
      var init, last := s[..|s| - 1], s[|s| - 1];
      assert s == init + [last];
      SortStable(init, key, k);
      InsertKeepsClass(Sort(init, key), last, key, k);
      FilterAppend(init, [last], HasKey(key, k));
    }
  }

  /** Inserting `x` in front of a block `b` of strictly larger keys, behind a
      prefix `a` whose last key is not larger, puts it exactly between them. */
  lemma {:induction false} InsertBetween<T>(a: seq<T>, b: seq<T>, x: T, key: T -> real)
    requires a != [] ==> key(a[|a| - 1]) <= key(x)
    requires forall i :: 0 <= i < |b| ==> key(b[i]) > key(x)
    ensures Insert(a + b, x, key) == a + [x] + b
  {
    if b == [] {
      assert a + b == a;
    } else {
      var s := a + b;
      assert s[..|s| - 1] == a + b[..|b| - 1];
      assert s[|s| - 1] == b[|b| - 1];
      InsertBetween(a, b[..|b| - 1], x, key);
      assert b == b[..|b| - 1] + [b[|b| - 1]];
    }
  }

  /** A comparator with only two key values (`top` elements first, the `rest`
      after them) makes the stable sort a partition that keeps each group's order. */
  lemma {:induction false} SortTwoTiers<T>(s: seq<T>, key: T -> real, top: T -> bool, rest: T -> bool, lo: real, hi: real)
    requires lo < hi
    requires forall x :: key(x) == (if top(x) then lo else hi)
    requires forall x :: rest(x) == !top(x)
    ensures Sort(s, key) == Filter(s, top) + Filter(s, rest)
  {
    if s != [] {
      var init, last := s[..|s| - 1], s[|s| - 1];
      SortTwoTiers(init, key, top, rest, lo, hi);
      TwoTiersInsert(Filter(init, top), Filter(init, rest), last, key, top, rest, lo, hi);
      assert s == init + [last];
      FilterAppend(init, [last], top);
      FilterAppend(init, [last], rest);
    }
  }

  /** The step of `SortTwoTiers`: inserting into an already partitioned sequence. */
  lemma TwoTiersInsert<T>(a: seq<T>, b: seq<T>, x: T, key: T -> real, top: T -> bool, rest: T -> bool, lo: real, hi: real)
    requires lo < hi
    requires forall x :: key(x) == (if top(x) then lo else hi)
    requires forall x :: rest(x) == !top(x)
    requires forall i :: 0 <= i < |a| ==> top(a[i])
    requires forall i :: 0 <= i < |b| ==> rest(b[i])
    ensures Insert(a + b, x, key) == (a + Filter([x], top)) + (b + Filter([x], rest))
  {
    if top(x) {
      assert a != [] ==> key(a[|a| - 1]) <= key(x) by {
        if a != [] { assert top(a[|a| - 1]); }
      }
      assert forall i :: 0 <= i < |b| ==> key(b[i]) > key(x) by {
        forall i | 0 <= i < |b|
          ensures key(b[i]) > key(x)
        {
          assert rest(b[i]);
        }
      }
      InsertBetween(a, b, x, key);
      assert Filter([x], top) == [x] && Filter([x], rest) == [];
      assert b + [] == b;
    } else {
      assert a + b != [] ==> key((a + b)[|a + b| - 1]) <= key(x) by {
        if a + b != [] { assert key((a + b)[|a + b| - 1]) <= hi; }
      }
      InsertBetween(a + b, [], x, key);
      assert Filter([x], top) == [] && Filter([x], rest) == [x];
      assert a + b + [] == a + b && a + [] == a;
    }
  }

  /** Moving left past an element with a larger key. */
  lemma InsertPastLarger<T>(s: seq<T>, j: nat, i: nat, x: T, key: T -> real)
    requires 0 < j <= i <= |s|
    requires key(s[j - 1]) > key(x)
    ensures Insert(s[..j], x, key) + s[j..i] == Insert(s[..j - 1], x, key) + s[j - 1..i]
  {
    assert s[..j][..j - 1] == s[..j - 1];
    assert [s[j - 1]] + s[j..i] == s[j - 1..i];
  }

  /** Stopping behind an element whose key is not larger (or at the front). */
  lemma InsertStops<T>(s: seq<T>, j: nat, x: T, key: T -> real)
    requires j <= |s|
    requires j > 0 ==> key(s[j - 1]) <= key(x)
    ensures Insert(s[..j], x, key) == s[..j] + [x]
  {
  }

  /** One step of insertion sort in place: moves `a[i]` left past the larger keys of
      the sorted prefix `a[..i]`, shifting them one place right. */
  method InsertAt<T>(a: array<T>, i: nat, key: T -> real)
    requires i < a.Length
    modifies a
    ensures a[..i + 1] == Insert(old(a[..i]), old(a[i]), key)
    ensures a[i + 1..] == old(a[i + 1..])
  {
    ghost var s := a[..];
    var x := a[i];
    var j := i;
    while j > 0 && key(a[j - 1]) > key(x)
      invariant 0 <= j <= i
      invariant forall k :: 0 <= k < j ==> a[k] == s[k]
      invariant forall k :: j < k <= i ==> a[k] == s[k - 1]
      invariant forall k :: i < k < a.Length ==> a[k] == s[k]
      invariant Insert(s[..i], x, key) == Insert(s[..j], x, key) + s[j..i]
    {
      InsertPastLarger(s, j, i, x, key);
      a[j] := a[j - 1];
      j := j - 1;
    }
    a[j] := x;
    InsertStops(s, j, x, key);
    assert a[..i + 1] == s[..j] + [x] + s[j..i] by {
      forall k | 0 <= k <= i
        ensures a[k] == (s[..j] + [x] + s[j..i])[k]
      {
      }
    }
    assert a[i + 1..] == s[i + 1..];
  }

  /** `array.sort((a, b) => key(a) - key(b))`: sorts `a` in place, stably. */
  method SortInPlace<T>(a: array<T>, key: T -> real)
    modifies a
    ensures a[..] == Sort(old(a[..]), key)
  {
    var i := 0;
    while i < a.Length
      invariant 0 <= i <= a.Length
      invariant a[..i] == Sort(old(a[..])[..i], key)
      invariant a[i..] == old(a[..])[i..]
    {
      ghost var before := old(a[..]);
      assert before[..i + 1][..i] == before[..i];
      InsertAt(a, i, key);
      i := i + 1;
    }
    assert a[..] == a[..a.Length];
    assert old(a[..])[..a.Length] == old(a[..]);
  }
}
