/** The two list operations the app leans on: `Array.prototype.filter`, and a
    comparator-driven stable sort (what `Array.prototype.sort` and SQL
    `ORDER BY` provide). */
module Seqs {

  /** `s.filter(p)`: the elements satisfying `p`, in their original order. */
  function Filter<T>(p: T -> bool, s: seq<T>): (r: seq<T>)
    ensures |r| <= |s|
    ensures forall i :: 0 <= i < |r| ==> r[i] in s && p(r[i])
    ensures forall i :: 0 <= i < |s| && p(s[i]) ==> s[i] in r
    decreases |s|
  {
    if |s| == 0 then []
    else (if p(s[0]) then [s[0]] else []) + Filter(p, s[1..])
  }

  /** Filtering distributes over concatenation, so relative order is kept. */
  lemma {:induction false} FilterConcat<T>(p: T -> bool, a: seq<T>, b: seq<T>)
    ensures Filter(p, a + b) == Filter(p, a) + Filter(p, b)
    decreases |a|
  {
    if |a| > 0 {
      assert (a + b)[1..] == a[1..] + b && (a + b)[0] == a[0];
      FilterConcat(p, a[1..], b);
      calc {
        Filter(p, a + b);
        (if p(a[0]) then [a[0]] else []) + Filter(p, a[1..] + b);
        (if p(a[0]) then [a[0]] else []) + (Filter(p, a[1..]) + Filter(p, b));
        ((if p(a[0]) then [a[0]] else []) + Filter(p, a[1..])) + Filter(p, b);
      }
    } else {
      assert a + b == b;
    }
  }

  /** Each element occurs in the result as often as in the input when it
      satisfies `p`, and not at all otherwise. */
  lemma {:induction false} FilterMultiset<T>(p: T -> bool, s: seq<T>, x: T)
    ensures multiset(Filter(p, s))[x] == if p(x) then multiset(s)[x] else 0
    decreases |s|
  {
    if |s| > 0 {
      FilterMultiset(p, s[1..], x);
      assert s == [s[0]] + s[1..];
    }
  }

  /** `r` lists, in order, the elements of `s` at the positions `idx`, and
      those positions are exactly the ones whose element satisfies `p`. */
  ghost predicate SelectsInOrder<T>(r: seq<T>, s: seq<T>, idx: seq<nat>, p: T -> bool) {
    && |idx| == |r|
    && (forall k :: 0 <= k < |idx| ==> idx[k] < |s| && r[k] == s[idx[k]])
    && (forall k, l :: 0 <= k < l < |idx| ==> idx[k] < idx[l])
    && (forall i :: 0 <= i < |s| ==> (p(s[i]) <==> i in idx))
  }

  function Shift(idx: seq<nat>): (r: seq<nat>)
    ensures |r| == |idx| && forall k :: 0 <= k < |r| ==> r[k] == idx[k] + 1
  {
    seq(|idx|, k requires 0 <= k < |idx| => idx[k] + 1)
  }

  /** Putting an element satisfying `p` in front of the input selects
      position 0 and moves every other selected position one place on. */
  lemma SelectsConsKept<T>(x: T, tail: seq<T>, r: seq<T>, rest: seq<nat>, p: T -> bool)
    requires SelectsInOrder(r, tail, rest, p) && p(x)
    ensures SelectsInOrder([x] + r, [x] + tail, [0] + Shift(rest), p)
  {
    ShiftSelects(x, tail, r, rest, p);
    KeptPositions(x, tail, r, Shift(rest));
    ConsZeroIncreasing(Shift(rest));
    KeptMembers(x, tail, Shift(rest), p);
  }

  lemma KeptPositions<T>(x: T, tail: seq<T>, r: seq<T>, shifted: seq<nat>)
    requires |shifted| == |r|
    requires forall k :: 0 <= k < |shifted| ==> 0 < shifted[k] < |[x] + tail| && r[k] == ([x] + tail)[shifted[k]]
    ensures forall k :: 0 <= k < |[0] + shifted| ==>
      ([0] + shifted)[k] < |[x] + tail| && ([x] + r)[k] == ([x] + tail)[([0] + shifted)[k]]
  {
    var s := [x] + tail;
    var r2 := [x] + r;
    var idx := [0] + shifted;
    forall k | 0 <= k < |idx| ensures idx[k] < |s| && r2[k] == s[idx[k]] {
      if k > 0 { assert idx[k] == shifted[k - 1] && r2[k] == r[k - 1]; }
    }
  }

  lemma KeptMembers<T>(x: T, tail: seq<T>, shifted: seq<nat>, p: T -> bool)
    requires p(x) && 0 !in shifted
    requires forall i :: 0 < i < |[x] + tail| ==> (p(([x] + tail)[i]) <==> i in shifted)
    ensures forall i :: 0 <= i < |[x] + tail| ==> (p(([x] + tail)[i]) <==> i in [0] + shifted)
  {
    var s := [x] + tail;
    var idx := [0] + shifted;
    forall i | 0 <= i < |s| ensures p(s[i]) <==> i in idx {
      if i > 0 { assert i in shifted <==> i in idx; }
    }
  }

  /** Putting an element failing `p` in front of the input moves every
      selected position one place on. */
  lemma SelectsConsDropped<T>(x: T, tail: seq<T>, r: seq<T>, rest: seq<nat>, p: T -> bool)
    requires SelectsInOrder(r, tail, rest, p) && !p(x)
    ensures SelectsInOrder(r, [x] + tail, Shift(rest), p)
  {
    ShiftSelects(x, tail, r, rest, p);
  }

  /** Position 0 followed by positive increasing positions is increasing. */
  lemma ConsZeroIncreasing(shifted: seq<nat>)
    requires forall k :: 0 <= k < |shifted| ==> shifted[k] > 0
    requires forall k, l :: 0 <= k < l < |shifted| ==> shifted[k] < shifted[l]
    ensures forall k, l :: 0 <= k < l < |[0] + shifted| ==> ([0] + shifted)[k] < ([0] + shifted)[l]
  {
    var idx := [0] + shifted;
    forall k, l | 0 <= k < l < |idx| ensures idx[k] < idx[l] {
      assert idx[l] == shifted[l - 1];
      if k > 0 {
        assert idx[k] == shifted[k - 1];
      }
    }
  }

  /** The shifted positions select, from `[x] + tail`, what the original
      positions selected from `tail`. */
  lemma ShiftSelects<T>(x: T, tail: seq<T>, r: seq<T>, rest: seq<nat>, p: T -> bool)
    requires SelectsInOrder(r, tail, rest, p)
    ensures var s := [x] + tail;
            var shifted := Shift(rest);
            && |shifted| == |r|
            && (forall k :: 0 <= k < |shifted| ==> 0 < shifted[k] < |s| && r[k] == s[shifted[k]])
            && (forall k, l :: 0 <= k < l < |shifted| ==> shifted[k] < shifted[l])
            && (forall i :: 0 < i < |s| ==> (p(s[i]) <==> i in shifted))
            && 0 !in shifted
  {
    var s := [x] + tail;
    var shifted := Shift(rest);
    forall i | 0 < i < |s| ensures p(s[i]) <==> i in shifted {
      assert s[i] == tail[i - 1];
      if i - 1 in rest {
        var j :| 0 <= j < |rest| && rest[j] == i - 1;
        assert shifted[j] == i;
      }
    }
  }

  /** The filter's result is the subsequence of the input made of the
      elements satisfying `p`: nothing is reordered, repeated or dropped. */
  lemma {:induction false} FilterSelectsInOrder<T>(p: T -> bool, s: seq<T>) returns (idx: seq<nat>)
    ensures SelectsInOrder(Filter(p, s), s, idx, p)
    decreases |s|
  {
    if |s| == 0 {
      idx := [];
    } else {
      var rest := FilterSelectsInOrder(p, s[1..]);
      assert [s[0]] + s[1..] == s;
      if p(s[0]) {
        SelectsConsKept(s[0], s[1..], Filter(p, s[1..]), rest, p);
        idx := [0] + Shift(rest);
      } else {
        SelectsConsDropped(s[0], s[1..], Filter(p, s[1..]), rest, p);
        idx := Shift(rest);
      }
    }
  }

  /** A filter and its complement split the input: what `filter` drops is
      exactly the elements failing `p`. */
  lemma {:induction false} FilterSplit<T>(p: T -> bool, s: seq<T>)
    ensures |Filter(p, s)| + |Filter(x => !p(x), s)| == |s|
    decreases |s|
  {
    if |s| > 0 { FilterSplit(p, s[1..]); }
  }

  /** Filtering with a predicate every element satisfies changes nothing. */
  lemma {:induction false} FilterAll<T>(p: T -> bool, s: seq<T>)
    requires forall i :: 0 <= i < |s| ==> p(s[i])
    ensures Filter(p, s) == s
    decreases |s|
  {
    if |s| > 0 { FilterAll(p, s[1..]); }
  }

  ghost predicate TotalPreorder<T(!new)>(le: (T, T) -> bool) {
    && (forall a, b :: le(a, b) || le(b, a))
    && (forall a, b, c :: le(a, b) && le(b, c) ==> le(a, c))
  }

  predicate SortedBy<T>(le: (T, T) -> bool, s: seq<T>) {
    forall i, j :: 0 <= i < j < |s| ==> le(s[i], s[j])
  }

  /** Inserts `x` before the first element it may precede. */
  function Insert<T>(le: (T, T) -> bool, x: T, s: seq<T>): (r: seq<T>)
    ensures |r| == |s| + 1
    ensures multiset(r) == multiset(s) + multiset{x}
    decreases |s|
  {
    if |s| == 0 then [x]
    else if le(x, s[0]) then [x] + s
    else
      assert s == [s[0]] + s[1..];
      [s[0]] + Insert(le, x, s[1..])
  }

  /** Stable insertion sort under the comparator `le` (`le(a, b)` means the
      comparator does not put `b` before `a`). */
  function SortBy<T>(le: (T, T) -> bool, s: seq<T>): (r: seq<T>)
    ensures |r| == |s|
    ensures multiset(r) == multiset(s)
    decreases |s|
  {
    if |s| == 0 then []
    else
      assert s == [s[0]] + s[1..];
      Insert(le, s[0], SortBy(le, s[1..]))
  }

  lemma {:induction false} InsertSorted<T(!new)>(le: (T, T) -> bool, x: T, s: seq<T>)
    requires TotalPreorder(le) && SortedBy(le, s)
    ensures SortedBy(le, Insert(le, x, s))
    decreases |s|
  {
    if |s| > 0 && !le(x, s[0]) {
      InsertSorted(le, x, s[1..]);
      var r := Insert(le, x, s);
      var t := Insert(le, x, s[1..]);
      assert r == [s[0]] + t;
      forall k | 0 <= k < |t| ensures le(s[0], t[k]) {
        assert t[k] in multiset(t);
        assert t[k] in multiset(s[1..]) + multiset{x};
        if t[k] != x {
          assert t[k] in s[1..];
          var m :| 0 <= m < |s[1..]| && s[1..][m] == t[k];
          assert s[1 + m] == t[k];
        }
      }
    }
  }

  /** The sort's output is ordered by `le` when `le` is a total preorder. */
  lemma {:induction false} SortBySorted<T(!new)>(le: (T, T) -> bool, s: seq<T>)
    requires TotalPreorder(le)
    ensures SortedBy(le, SortBy(le, s))
    decreases |s|
  {
    if |s| > 0 {
      SortBySorted(le, s[1..]);
      InsertSorted(le, s[0], SortBy(le, s[1..]));
    }
  }

  /** When the comparator ranks all elements equal, the sort keeps the input
      order (stability). */
  lemma {:induction false} SortByAllEqual<T>(le: (T, T) -> bool, s: seq<T>)
    requires forall i, j :: 0 <= i < |s| && 0 <= j < |s| ==> le(s[i], s[j])
    ensures SortBy(le, s) == s
    decreases |s|
  {
    if |s| > 0 {
      SortByAllEqual(le, s[1..]);
      assert s == [s[0]] + s[1..];
    }
  }
}
