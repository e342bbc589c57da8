/**
 Sequence operations the application uses everywhere: `filter` (the
 pages' `array.filter(...)`), the counting sum of the backend
 (`sum(1 for x in xs if p(x))`), and what it means for one sequence to be
 an order-preserving subsequence of another.
 */
module Seqs {

  /** The elements of `s` that satisfy `p`, in their original order. */
  function Filter<T>(s: seq<T>, p: T -> bool): (r: seq<T>)
    ensures |r| <= |s|
    ensures forall i :: 0 <= i < |r| ==> p(r[i])
  {
    if s == [] then [] else (if p(s[0]) then [s[0]] else []) + Filter(s[1..], p)
  }

  /** The number of elements of `s` that satisfy `p`, summed one by one. */
  function Count<T>(s: seq<T>, p: T -> bool): (n: nat)
    ensures n <= |s|
  {
    if s == [] then 0 else (if p(s[0]) then 1 else 0) + Count(s[1..], p)
  }

  /** `a` is obtained from `b` by deleting elements, keeping the order of the rest. */
  predicate IsSubsequence<T(==)>(a: seq<T>, b: seq<T>)
    decreases |b|
  {
    a == [] || (b != [] && ((a[0] == b[0] && IsSubsequence(a[1..], b[1..])) || IsSubsequence(a, b[1..])))
  }

  /** Counting by a sum and counting the filtered list give the same number. */
  lemma {:induction false} CountIsFilterLength<T>(s: seq<T>, p: T -> bool)
    ensures Count(s, p) == |Filter(s, p)|
  {
    if s != [] {
      CountIsFilterLength(s[1..], p);
    }
  }

  /** An element survives the filter exactly when it is in the input and satisfies `p`. */
  lemma {:induction false} FilterMembership<T>(s: seq<T>, p: T -> bool, x: T)
    ensures x in Filter(s, p) <==> x in s && p(x)
  {
    if s != [] {
      FilterMembership(s[1..], p, x);
      assert s == [s[0]] + s[1..];
    }
  }

  /** The filter keeps the input order. */
  lemma {:induction false} FilterIsSubsequence<T>(s: seq<T>, p: T -> bool)
    ensures IsSubsequence(Filter(s, p), s)
  {
    if s != [] {
      FilterIsSubsequence(s[1..], p);
      var rest := Filter(s[1..], p);
      if p(s[0]) {
        assert Filter(s, p) == [s[0]] + rest;
        assert ([s[0]] + rest)[1..] == rest;
      } else {
        assert Filter(s, p) == rest;
      }
    }
  }

  /** Filtering distributes over concatenation. */
  lemma {:induction false} FilterConcat<T>(a: seq<T>, b: seq<T>, p: T -> bool)
    ensures Filter(a + b, p) == Filter(a, p) + Filter(b, p)
  {
    if a == [] {
      assert a + b == b;
    } else {
      assert (a + b)[0] == a[0];
      assert (a + b)[1..] == a[1..] + b;
      FilterConcat(a[1..], b, p);
    }
  }

  /** Filtering a sequence extended by one element. */
  lemma FilterAppend<T>(s: seq<T>, x: T, p: T -> bool)
    ensures Filter(s + [x], p) == Filter(s, p) + (if p(x) then [x] else [])
  {
    FilterConcat(s, [x], p);
    assert Filter([x], p) == (if p(x) then [x] else []) + Filter([], p);
  }

  /** Of two elements, the filter keeps only the second when only the second satisfies `p`. */
  lemma FilterDropsFirst<T>(a: T, b: T, p: T -> bool)
    requires !p(a) && p(b)
    ensures Filter([a, b], p) == [b]
  {
    assert [a, b][1..] == [b];
    assert [b][1..] == [];
  }

  /** When every element satisfies `p`, the filter returns its input. */
  lemma {:induction false} FilterKeepsAll<T>(s: seq<T>, p: T -> bool)
    requires forall i :: 0 <= i < |s| ==> p(s[i])
    ensures Filter(s, p) == s
  {
    if s != [] {
      FilterKeepsAll(s[1..], p);
    }
  }

  /** The filter is empty exactly when no element satisfies `p`. */
  lemma {:induction false} FilterEmptyIff<T>(s: seq<T>, p: T -> bool)
    ensures Filter(s, p) == [] <==> forall i :: 0 <= i < |s| ==> !p(s[i])
  {
    if s != [] {
      FilterEmptyIff(s[1..], p);
      if !p(s[0]) {
        assert forall i :: 1 <= i < |s| ==> s[i] == s[1..][i - 1];
      }
    }
  }

  /** A count is zero exactly when no element satisfies `p`. */
  lemma CountZeroIff<T>(s: seq<T>, p: T -> bool)
    ensures Count(s, p) == 0 <==> forall i :: 0 <= i < |s| ==> !p(s[i])
  {
    CountIsFilterLength(s, p);
    FilterEmptyIff(s, p);
  }

  /** Counting a sequence extended by one element. */
  lemma CountAppend<T>(s: seq<T>, x: T, p: T -> bool)
    ensures Count(s + [x], p) == Count(s, p) + (if p(x) then 1 else 0)
  {
    CountIsFilterLength(s + [x], p);
    CountIsFilterLength(s, p);
    FilterAppend(s, x, p);
  }

  /** Two sequences that agree position by position on their predicates have equal counts. */
  lemma {:induction false} CountPointwise<T, U>(s: seq<T>, p: T -> bool, t: seq<U>, q: U -> bool)
    requires |s| == |t|
    requires forall i :: 0 <= i < |s| ==> p(s[i]) == q(t[i])
    ensures Count(s, p) == Count(t, q)
  {
    if s != [] {
      CountPointwise(s[1..], p, t[1..], q);
    }
  }

  /** Complementary predicates split a sequence between them. */
  lemma {:induction false} FilterSplit<T>(s: seq<T>, p: T -> bool, q: T -> bool)
    requires forall x :: q(x) <==> !p(x)
    ensures |Filter(s, p)| + |Filter(s, q)| == |s|
  {
    if s != [] {
      FilterSplit(s[1..], p, q);
    }
  }

  /** A weaker predicate keeps at least as many elements. */
  lemma {:induction false} FilterMonotone<T>(s: seq<T>, p: T -> bool, q: T -> bool)
    requires forall x :: p(x) ==> q(x)
    ensures |Filter(s, p)| <= |Filter(s, q)|
  {
    if s != [] {
      FilterMonotone(s[1..], p, q);
    }
  }

  /** Replacing one element changes the filtered length by what the old and new element contribute. */
  lemma {:induction false} FilterLengthUpdate<T>(s: seq<T>, j: nat, x: T, p: T -> bool)
    requires j < |s|
    ensures |Filter(s[j := x], p)| + (if p(s[j]) then 1 else 0) == |Filter(s, p)| + (if p(x) then 1 else 0)
  {
    if j == 0 {
      assert s[j := x][1..] == s[1..];
    } else {
      assert s[j := x][0] == s[0];
      assert s[j := x][1..] == s[1..][j - 1 := x];
      FilterLengthUpdate(s[1..], j - 1, x, p);
    }
  }

  /** The position in `s` of the `k`-th element that satisfies `p`. */
  function SourceIndex<T>(s: seq<T>, p: T -> bool, k: nat): (j: nat)
    requires k < |Filter(s, p)|
    ensures j < |s| && p(s[j]) && s[j] == Filter(s, p)[k]
  {
    if p(s[0]) && k == 0 then 0
    else if p(s[0]) then 1 + SourceIndex(s[1..], p, k - 1)
    else 1 + SourceIndex(s[1..], p, k)
  }

  /** Past a kept first element, the search for the `k`-th kept element continues in the tail. */
  lemma SourceIndexPastKept<T>(s: seq<T>, p: T -> bool, k: nat)
    requires s != [] && p(s[0]) && 0 < k && k - 1 < |Filter(s[1..], p)|
    ensures k < |Filter(s, p)| && SourceIndex(s, p, k) == 1 + SourceIndex(s[1..], p, k - 1)
  {
    assert Filter(s, p) == [s[0]] + Filter(s[1..], p);
  }

  /** When every element satisfies `p`, the `k`-th kept element sits at position `k`. */
  lemma {:induction false} SourceIndexKeepsAll<T>(s: seq<T>, p: T -> bool, k: nat)
    requires forall i :: 0 <= i < |s| ==> p(s[i])
    requires k < |s|
    ensures k < |Filter(s, p)| && SourceIndex(s, p, k) == k
  {
    if k == 0 {
      assert Filter(s, p) == [s[0]] + Filter(s[1..], p);
    } else {
      SourceIndexKeepsAll(s[1..], p, k - 1);
      SourceIndexPastKept(s, p, k);
    }
  }

  /**
   Replacing the `k`-th kept element in the full sequence by another one that
   `p` still keeps replaces exactly the `k`-th element of the filtered sequence.
   */
  lemma {:induction false} FilterUpdateAt<T>(s: seq<T>, p: T -> bool, k: nat, x: T)
    requires k < |Filter(s, p)| && p(x)
    ensures Filter(s[SourceIndex(s, p, k) := x], p) == Filter(s, p)[k := x]
  {
    var rest := Filter(s[1..], p);
    assert Filter(s, p) == (if p(s[0]) then [s[0]] else []) + rest;
    if p(s[0]) && k == 0 {
      assert s[0 := x] == [x] + s[1..];
      assert Filter([x] + s[1..], p) == [x] + rest;
    } else {
      var k' := if p(s[0]) then k - 1 else k;
      var j' := SourceIndex(s[1..], p, k');
      assert SourceIndex(s, p, k) == 1 + j';
      assert s[1 + j' := x] == [s[0]] + s[1..][j' := x];
      FilterUpdateAt(s[1..], p, k', x);
      FilterConcat([s[0]], s[1..][j' := x], p);
    }
  }

  /** The positions of `s` whose element satisfies `p`. */
  function Positions<T>(s: seq<T>, p: T -> bool): set<int>
  {
    set i | 0 <= i < |s| && p(s[i])
  }

  /** Extending a sequence by one element adds its position when `p` keeps it. */
  lemma PositionsAppend<T>(front: seq<T>, x: T, p: T -> bool)
    ensures Positions(front + [x], p) == Positions(front, p) + (if p(x) then {|front|} else {})
    ensures |front| !in Positions(front, p)
  {
    var s := front + [x];
    forall i | 0 <= i < |front| ensures s[i] == front[i] { }
  }

  /** The filtered length is the number of positions whose element satisfies `p`. */
  lemma {:induction false} FilterLengthIsIndexCount<T>(s: seq<T>, p: T -> bool)
    ensures |Filter(s, p)| == |Positions(s, p)|
  {
    if s != [] {
      var front, x := s[..|s| - 1], s[|s| - 1];
      assert s == front + [x];
      FilterAppend(front, x, p);
      FilterLengthIsIndexCount(front, p);
      PositionsAppend(front, x, p);
    }
  }
}
