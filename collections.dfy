/** Generic sequence operations shared by the modules: the order-preserving
    `Array.prototype.filter`, `Array.prototype.find` (as an index), the
    first-occurrence de-duplication `[...new Set(xs)]`, and duplicate freedom. */
module Collections {
  import opened Wrappers

  /** No element occurs twice. */
  ghost predicate NoDuplicates<T>(s: seq<T>) {
    forall i, j :: 0 <= i < j < |s| ==> s[i] != s[j]
  }

  /** `s.filter(p)`: the elements satisfying `p`, in their original order. */
  function Filter<T(!new)>(s: seq<T>, p: T -> bool): (r: seq<T>)
    ensures |r| <= |s|
    ensures forall x :: x in r <==> x in s && p(x)
  {
    if |s| == 0 then [] else (if p(s[0]) then [s[0]] else []) + Filter(s[1..], p)
  }

  /** Filtering distributes over concatenation: together with the one-element
      case this says the filter keeps the survivors in their original order. */
  lemma {:induction false} FilterAppend<T(!new)>(a: seq<T>, b: seq<T>, p: T -> bool)
    ensures Filter(a + b, p) == Filter(a, p) + Filter(b, p)
  {
    if |a| == 0 {
      assert a + b == b;
    } else {
      assert (a + b)[1..] == a[1..] + b;
      FilterAppend(a[1..], b, p);
    }
  }

  /** A filter whose predicate holds everywhere returns its input. */
  lemma {:induction false} FilterAll<T(!new)>(s: seq<T>, p: T -> bool)
    requires forall x :: x in s ==> p(x)
    ensures Filter(s, p) == s
  {
    if |s| > 0 {
      FilterAll(s[1..], p);
    }
  }

  /** Filtering out one rejected element between accepted ones leaves the rest. */
  lemma {:induction false} FilterDropsOne<T(!new)>(before: seq<T>, x: T, after: seq<T>, p: T -> bool)
    requires forall i :: 0 <= i < |before| ==> p(before[i])
    requires !p(x)
    requires forall y :: y in after ==> p(y)
    ensures Filter(before + [x] + after, p) == before + after
  {
    var s := before + [x] + after;
    if |before| == 0 {
      assert s[1..] == after;
      FilterAll(after, p);
    } else {
      var t := before[1..] + [x] + after;
      assert s == [before[0]] + t;
      FilterDropsOne(before[1..], x, after, p);
      assert Filter(s, p) == [before[0]] + Filter(t, p);
    }
  }


  /** Two predicates that agree on the elements filter alike. */
  lemma {:induction false} FilterCongruent<T(!new)>(s: seq<T>, p: T -> bool, q: T -> bool)
    requires forall x :: x in s ==> p(x) == q(x)
    ensures Filter(s, p) == Filter(s, q)
  {
    if |s| > 0 {
      FilterCongruent(s[1..], p, q);
    }
  }

  /** The filter keeps order: two survivors come from positions in the same
      order. */
  lemma {:induction false} FilterOrder<T(!new)>(s: seq<T>, p: T -> bool, i: nat, j: nat)
    requires i < j < |Filter(s, p)|
    ensures exists a, b :: 0 <= a < b < |s| && s[a] == Filter(s, p)[i] && s[b] == Filter(s, p)[j]
  {
    var head := if p(s[0]) then [s[0]] else [];
    var tail := Filter(s[1..], p);
    assert Filter(s, p) == head + tail;
    if p(s[0]) && i == 0 {
      assert tail[j - 1] in tail;
      var b :| 0 <= b < |s[1..]| && s[1..][b] == tail[j - 1];
      assert s[b + 1] == Filter(s, p)[j];
    } else {
      var i', j' := i - |head|, j - |head|;
      FilterOrder(s[1..], p, i', j');
      var a, b :| 0 <= a < b < |s[1..]| && s[1..][a] == tail[i'] && s[1..][b] == tail[j'];
      assert s[a + 1] == Filter(s, p)[i] && s[b + 1] == Filter(s, p)[j];
    }
  }

  /** An element that passes sits in the filter right after the survivors
      of the prefix before it. */
  lemma FilterRank<T(!new)>(s: seq<T>, p: T -> bool, b: nat)
    requires b < |s| && p(s[b])
    ensures |Filter(s[..b], p)| < |Filter(s, p)|
    ensures Filter(s, p)[|Filter(s[..b], p)|] == s[b]
  {
    var back := s[b..];
    assert s == s[..b] + back;
    FilterAppend(s[..b], back, p);
    assert back[0] == s[b];
    assert Filter(back, p) == [s[b]] + Filter(back[1..], p);
  }

  /** The converse: two elements that pass, in order, are found in that
      order among the survivors. */
  lemma FilterKeepsPair<T(!new)>(s: seq<T>, p: T -> bool, a: nat, b: nat)
    requires a < b < |s| && p(s[a]) && p(s[b])
    ensures exists i, j :: 0 <= i < j < |Filter(s, p)| && Filter(s, p)[i] == s[a] && Filter(s, p)[j] == s[b]
  {
    FilterRank(s, p, a);
    FilterRank(s, p, b);
    var middle := s[a..b];
    assert s[..b] == s[..a] + middle;
    FilterAppend(s[..a], middle, p);
    assert middle[0] == s[a];
    assert |Filter(middle, p)| > 0;
    var i, j := |Filter(s[..a], p)|, |Filter(s[..b], p)|;
    assert Filter(s, p)[i] == s[a] && Filter(s, p)[j] == s[b];
  }

  /** Filtering a duplicate-free sequence gives a duplicate-free sequence. */
  lemma {:induction false} FilterNoDuplicates<T(!new)>(s: seq<T>, p: T -> bool)
    requires NoDuplicates(s)
    ensures NoDuplicates(Filter(s, p))
  {
    if |s| > 0 {
      FilterNoDuplicates(s[1..], p);
      var rest := Filter(s[1..], p);
      assert s[0] !in s[1..] by {
        forall k | 0 <= k < |s| - 1 ensures s[1..][k] != s[0] {
          assert s[1..][k] == s[k + 1];
        }
      }
      assert s[0] !in rest;
    }
  }

  /** `s.find(p)` as the index of the first element satisfying `p`. */
  function FindIndex<T>(s: seq<T>, p: T -> bool): (r: Option<nat>)
    ensures r.Some? ==> r.value < |s| && p(s[r.value])
    ensures r.Some? ==> forall k :: 0 <= k < r.value ==> !p(s[k])
    ensures r.None? <==> forall k :: 0 <= k < |s| ==> !p(s[k])
  {
    if |s| == 0 then None
    else if p(s[0]) then Some(0)
    else match FindIndex(s[1..], p)
      case None => None
      case Some(k) => Some(k + 1)
  }

  /** `s.find(p)`: the first element satisfying `p`, or `undefined`. */
  function Find<T>(s: seq<T>, p: T -> bool): (r: Option<T>)
    ensures r.Some? <==> exists k :: 0 <= k < |s| && p(s[k])
    ensures r.Some? ==> r.value in s && p(r.value)
    ensures r.Some? ==> exists k :: 0 <= k < |s| && s[k] == r.value && forall j :: 0 <= j < k ==> !p(s[j])
  {
    match FindIndex(s, p)
    case None => None
    case Some(k) => Some(s[k])
  }

  /** `[...new Set(s)]`: each element once, at the place of its first occurrence.
      Written as the left-to-right insertion the `Set` constructor performs. */
  function Dedup<T(==,!new)>(s: seq<T>): (r: seq<T>)
    ensures |r| <= |s|
    ensures forall x :: x in r <==> x in s
    ensures NoDuplicates(r)
  {
    if |s| == 0 then []
    else
      var d := Dedup(s[..|s| - 1]);
      assert forall x :: x in s <==> x in s[..|s| - 1] || x == s[|s| - 1];
      if s[|s| - 1] in d then d else d + [s[|s| - 1]]
  }

  /** The index of the first occurrence of `x` in `s`. */
  function FirstIndex<T(==)>(s: seq<T>, x: T): (k: nat)
    requires x in s
    ensures k < |s| && s[k] == x
    ensures forall j :: 0 <= j < k ==> s[j] != x
  {
    if s[0] == x then 0 else 1 + FirstIndex(s[1..], x)
  }

  lemma FirstIndexSnoc<T>(s: seq<T>, y: T, x: T)
    requires x in s
    ensures x in s + [y] && FirstIndex(s + [y], x) == FirstIndex(s, x)
  {
    var k := FirstIndex(s, x);
    var k' := FirstIndex(s + [y], x);
    assert (s + [y])[k] == x;
    assert k' <= k;
    assert s[k'] == (s + [y])[k'];
  }

  /** The de-duplicated sequence lists elements in the order of their first
      occurrence in the input. */
  lemma {:induction false} DedupFirstSeenOrder<T(!new)>(s: seq<T>)
    ensures forall i, j :: 0 <= i < j < |Dedup(s)| ==>
      FirstIndex(s, Dedup(s)[i]) < FirstIndex(s, Dedup(s)[j])
  {
    if |s| > 0 {
      var init, x := s[..|s| - 1], s[|s| - 1];
      assert s == init + [x];
      DedupFirstSeenOrder(init);
      var d := Dedup(init);
      forall i, j | 0 <= i < j < |Dedup(s)|
        ensures FirstIndex(s, Dedup(s)[i]) < FirstIndex(s, Dedup(s)[j])
      {
        assert Dedup(s)[i] == d[i];
        FirstIndexSnoc(init, x, d[i]);
        if j < |d| {
          assert Dedup(s)[j] == d[j];
          FirstIndexSnoc(init, x, d[j]);
        } else {
          assert Dedup(s)[j] == x && x !in init;
          assert FirstIndex(s, x) == |init|;
        }
      }
    }
  }

  /** De-duplicating a sequence that already has no duplicates changes nothing. */
  lemma {:induction false} DedupOfDistinct<T(!new)>(s: seq<T>)
    requires NoDuplicates(s)
    ensures Dedup(s) == s
  {
    if |s| > 0 {
      var init := s[..|s| - 1];
      DedupOfDistinct(init);
      assert s[|s| - 1] !in init;
      assert init + [s[|s| - 1]] == s;
    }
  }
}
