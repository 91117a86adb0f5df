/**
 * Python's `sorted(peaks, key=operator.attrgetter(...))` over peaks: a stable sort by
 * one of the two keys, written as insertion sort that inserts each later peak after
 * every earlier peak whose key is not greater.
 */
module Ordering {
  import opened Peaks

  /** Non-decreasing in the given key. */
  predicate SortedBy(s: seq<DeconvolutedPeak>, key: Key)
  {
    forall i, j :: 0 <= i < j < |s| ==> KeyOf(s[i], key) <= KeyOf(s[j], key)
  }

  /** No peak object occurs twice. */
  predicate Distinct(s: seq<DeconvolutedPeak>)
  {
    forall i, j :: 0 <= i < j < |s| ==> s[i] != s[j]
  }

  /** The peaks of s whose key equals k, in their order in s. */
  function WithKey(s: seq<DeconvolutedPeak>, key: Key, k: real): seq<DeconvolutedPeak>
  {
    if s == [] then [] else Picked(s[0], key, k) + WithKey(s[1..], key, k)
  }

  /** [p] when p's key is k, otherwise nothing. */
  function Picked(p: DeconvolutedPeak, key: Key, k: real): seq<DeconvolutedPeak>
  {
    if KeyOf(p, key) == k then [p] else []
  }

  /** Puts p into t before the first peak whose key is greater than p's. */
  function Insert(p: DeconvolutedPeak, t: seq<DeconvolutedPeak>, key: Key): (r: seq<DeconvolutedPeak>)
    ensures |r| == |t| + 1
  {
    if t == [] then [p]
    else if KeyOf(p, key) < KeyOf(t[0], key) then [p] + t
    else [t[0]] + Insert(p, t[1..], key)
  }

  /** `sorted(s, key=...)`: each peak in turn inserted into the sorted earlier ones. */
  function StableSort(s: seq<DeconvolutedPeak>, key: Key): (r: seq<DeconvolutedPeak>)
    ensures |r| == |s|
  {
    if s == [] then []
    else Insert(s[|s| - 1], StableSort(s[..|s| - 1], key), key)
  }

  /** Inserting adds exactly p. */
  lemma {:induction false} InsertPermutes(p: DeconvolutedPeak, t: seq<DeconvolutedPeak>, key: Key)
    ensures multiset(Insert(p, t, key)) == multiset(t) + multiset{p}
  {
    if t != [] && KeyOf(p, key) >= KeyOf(t[0], key) {
      assert t == [t[0]] + t[1..];
      InsertPermutes(p, t[1..], key);
    }
  }

  /** Every peak of the result is p or a peak of t. */
  lemma {:induction false} InsertElements(p: DeconvolutedPeak, t: seq<DeconvolutedPeak>, key: Key)
    ensures forall i :: 0 <= i < |t| + 1 ==> Insert(p, t, key)[i] == p || Insert(p, t, key)[i] in t
  {
    if t != [] && KeyOf(p, key) >= KeyOf(t[0], key) {
      InsertElements(p, t[1..], key);
      var rest := Insert(p, t[1..], key);
      assert Insert(p, t, key) == [t[0]] + rest;
      forall i | 0 <= i < |rest| ensures rest[i] == p || rest[i] in t {
        if rest[i] != p {
          var j :| 0 <= j < |t[1..]| && t[1..][j] == rest[i];
          assert t[j + 1] == rest[i];
        }
      }
    }
  }

  /** Inserting into a sorted sequence keeps it sorted. */
  lemma {:induction false} InsertSorted(p: DeconvolutedPeak, t: seq<DeconvolutedPeak>, key: Key)
    requires SortedBy(t, key)
    ensures SortedBy(Insert(p, t, key), key)
  {
    if t != [] && KeyOf(p, key) >= KeyOf(t[0], key) {
      var tail := t[1..];
      assert SortedBy(tail, key) by {
        forall i, j | 0 <= i < j < |tail| ensures KeyOf(tail[i], key) <= KeyOf(tail[j], key) {
          assert tail[i] == t[i + 1] && tail[j] == t[j + 1];
        }
      }
      InsertSorted(p, tail, key);
      InsertElements(p, tail, key);
      var rest := Insert(p, tail, key);
      forall i | 0 <= i < |rest| ensures KeyOf(t[0], key) <= KeyOf(rest[i], key) {
        if rest[i] != p {
          var j :| 0 <= j < |tail| && tail[j] == rest[i];
          assert tail[j] == t[j + 1];
        }
      }
      assert Insert(p, t, key) == [t[0]] + rest;
    }
  }

  /** The sort is a sorted permutation of its input. */
  lemma {:induction false} StableSortSorted(s: seq<DeconvolutedPeak>, key: Key)
    ensures multiset(StableSort(s, key)) == multiset(s)
    ensures SortedBy(StableSort(s, key), key)
  {
    if s != [] {
      var init := s[..|s| - 1];
      assert s == init + [s[|s| - 1]];
      StableSortSorted(init, key);
      InsertPermutes(s[|s| - 1], StableSort(init, key), key);
      InsertSorted(s[|s| - 1], StableSort(init, key), key);
    }
  }

  lemma {:induction false} WithKeyAppend(a: seq<DeconvolutedPeak>, b: seq<DeconvolutedPeak>, key: Key, k: real)
    ensures WithKey(a + b, key, k) == WithKey(a, key, k) + WithKey(b, key, k)
  {
    if a == [] {
      assert a + b == b;
    } else {
      assert (a + b)[0] == a[0] && (a + b)[1..] == a[1..] + b;
      WithKeyAppend(a[1..], b, key, k);
      calc {
        WithKey(a + b, key, k);
        Picked(a[0], key, k) + WithKey(a[1..] + b, key, k);
        Picked(a[0], key, k) + (WithKey(a[1..], key, k) + WithKey(b, key, k));
        (Picked(a[0], key, k) + WithKey(a[1..], key, k)) + WithKey(b, key, k);
      }
    }
  }

  lemma {:induction false} WithKeyNone(t: seq<DeconvolutedPeak>, key: Key, k: real)
    requires forall i :: 0 <= i < |t| ==> KeyOf(t[i], key) != k
    ensures WithKey(t, key, k) == []
  {
    if t != [] {
      WithKeyNone(t[1..], key, k);
    }
  }

  /** Putting p in front of a sorted t whose keys are all greater keeps the same order for k. */
  lemma PrependSmaller(p: DeconvolutedPeak, t: seq<DeconvolutedPeak>, key: Key, k: real)
    requires SortedBy(t, key) && t != [] && KeyOf(p, key) < KeyOf(t[0], key)
    ensures WithKey([p] + t, key, k) == WithKey(t, key, k) + Picked(p, key, k)
  {
    assert ([p] + t)[1..] == t;
    if KeyOf(p, key) == k {
      forall i | 0 <= i < |t| ensures KeyOf(t[i], key) != k {
        assert KeyOf(t[0], key) <= KeyOf(t[i], key);
      }
      WithKeyNone(t, key, k);
    }
  }

  /** Inserting p adds p, if its key is k, after every peak of t with key k. */
  lemma {:induction false} InsertStable(p: DeconvolutedPeak, t: seq<DeconvolutedPeak>, key: Key, k: real)
    requires SortedBy(t, key)
    ensures WithKey(Insert(p, t, key), key, k) == WithKey(t, key, k) + Picked(p, key, k)
  {
    if t == [] {
      assert Insert(p, t, key) == [p];
      assert [p][1..] == [];
    } else if KeyOf(p, key) < KeyOf(t[0], key) {
      PrependSmaller(p, t, key, k);
    } else {
      var tail := t[1..];
      assert SortedBy(tail, key) by {
        forall i, j | 0 <= i < j < |tail| ensures KeyOf(tail[i], key) <= KeyOf(tail[j], key) {
          assert tail[i] == t[i + 1] && tail[j] == t[j + 1];
        }
      }
      var rest := Insert(p, tail, key);
      assert Insert(p, t, key) == [t[0]] + rest;
      assert ([t[0]] + rest)[1..] == rest;
      InsertStable(p, tail, key, k);
      calc {
        WithKey([t[0]] + rest, key, k);
        Picked(t[0], key, k) + WithKey(rest, key, k);
        Picked(t[0], key, k) + (WithKey(tail, key, k) + Picked(p, key, k));
        (Picked(t[0], key, k) + WithKey(tail, key, k)) + Picked(p, key, k);
      }
    }
  }

  /** Stability: for every key value, the peaks with that key keep their input order. */
  lemma {:induction false} StableSortStable(s: seq<DeconvolutedPeak>, key: Key, k: real)
    ensures WithKey(StableSort(s, key), key, k) == WithKey(s, key, k)
  {
    if s != [] {
      var init, last := s[..|s| - 1], s[|s| - 1];
      var sortedInit := StableSort(init, key);
      StableSortSorted(init, key);
      StableSortStable(init, key, k);
      InsertStable(last, sortedInit, key, k);
      assert s == init + [last];
      WithKeyAppend(init, [last], key, k);
      assert WithKey([last], key, k) == Picked(last, key, k) by {
        assert [last][1..] == [];
      }
      calc {
        WithKey(StableSort(s, key), key, k);
        WithKey(Insert(last, sortedInit, key), key, k);
        WithKey(sortedInit, key, k) + Picked(last, key, k);
        WithKey(init, key, k) + WithKey([last], key, k);
        WithKey(s, key, k);
      }
    }
  }

  lemma {:induction false} InsertAtEnd(p: DeconvolutedPeak, t: seq<DeconvolutedPeak>, key: Key)
    requires forall i :: 0 <= i < |t| ==> KeyOf(t[i], key) <= KeyOf(p, key)
    ensures Insert(p, t, key) == t + [p]
  {
    if t != [] {
      InsertAtEnd(p, t[1..], key);
    }
  }

  /** Sorting an already sorted sequence changes nothing. */
  lemma {:induction false} StableSortOfSorted(s: seq<DeconvolutedPeak>, key: Key)
    requires SortedBy(s, key)
    ensures StableSort(s, key) == s
  {
    if s != [] {
      var init := s[..|s| - 1];
      StableSortOfSorted(init, key);
      InsertAtEnd(s[|s| - 1], init, key);
    }
  }

  lemma StableSortIdempotent(s: seq<DeconvolutedPeak>, key: Key)
    ensures StableSort(StableSort(s, key), key) == StableSort(s, key)
  {
    StableSortSorted(s, key);
    StableSortOfSorted(StableSort(s, key), key);
  }

  lemma {:induction false} DistinctCount(s: seq<DeconvolutedPeak>, x: DeconvolutedPeak)
    requires Distinct(s)
    ensures multiset(s)[x] <= 1
  {
    if s != [] {
      assert s == [s[0]] + s[1..];
      assert s[0] !in s[1..];
      DistinctCount(s[1..], x);
    }
  }

  lemma RepeatCount(t: seq<DeconvolutedPeak>, i: nat, j: nat)
    requires i < j < |t| && t[i] == t[j]
    ensures multiset(t)[t[i]] >= 2
  {
    assert t == t[..j] + t[j..];
    assert t[i] in t[..j];
    assert t[j] in t[j..];
  }

  /** A permutation of a sequence without repeats has no repeats. */
  lemma DistinctPermutation(s: seq<DeconvolutedPeak>, t: seq<DeconvolutedPeak>)
    requires Distinct(s) && multiset(s) == multiset(t)
    ensures Distinct(t)
  {
    forall i, j | 0 <= i < j < |t|
      ensures t[i] != t[j]
    {
      if t[i] == t[j] {
        RepeatCount(t, i, j);
        DistinctCount(s, t[i]);
      }
    }
  }

  /** Every peak of the input is in the sort and every peak of the sort is in the input. */
  lemma SortedMembers(s: seq<DeconvolutedPeak>, key: Key)
    ensures forall i :: 0 <= i < |s| ==> StableSort(s, key)[i] in s && s[i] in StableSort(s, key)
  {
    var t := StableSort(s, key);
    StableSortSorted(s, key);
    forall i | 0 <= i < |s| ensures t[i] in s && s[i] in t {
      assert t[i] in multiset(t);
      assert s[i] in multiset(s);
    }
  }

  /** The sort has a repeated peak exactly when its input has one. */
  lemma SortKeepsDistinct(s: seq<DeconvolutedPeak>, key: Key)
    ensures Distinct(StableSort(s, key)) <==> Distinct(s)
  {
    StableSortSorted(s, key);
    if Distinct(s) {
      DistinctPermutation(s, StableSort(s, key));
    }
    if Distinct(StableSort(s, key)) {
      DistinctPermutation(StableSort(s, key), s);
    }
  }
}
