/** A stable sort by an integer key: the model of `Array.prototype.sort` with a
    numeric comparator `(a, b) => key(a) - key(b)`, which ECMAScript requires
    to be stable. Elements with equal keys keep their relative order. */
module StableSort {
  import opened Seqs

  /** Keys never decrease along `s`. */
  predicate SortedBy<T>(s: seq<T>, key: T -> int) {
    forall i, j :: 0 <= i < j < |s| ==> key(s[i]) <= key(s[j])
  }

  /** The elements of `s` whose key is `k`, in order. */
  function KeyFilter<T>(s: seq<T>, key: T -> int, k: int): (r: seq<T>)
    ensures |r| <= |s|
    decreases |s|
  {
    if |s| == 0 then []
    else if key(s[0]) == k then [s[0]] + KeyFilter(s[1..], key, k)
    else KeyFilter(s[1..], key, k)
  }

  /** Places `x` in front of the first element whose key is not smaller. */
  function Insert<T>(x: T, s: seq<T>, key: T -> int): (r: seq<T>)
    ensures |r| == |s| + 1
    ensures multiset(r) == multiset(s) + multiset{x}
    decreases |s|
  {
    if |s| == 0 || key(x) <= key(s[0]) then [x] + s
    else
      assert s == [s[0]] + s[1..];
      [s[0]] + Insert(x, s[1..], key)
  }

  /** Inserting into a sorted sequence keeps it sorted. */
  lemma {:induction false} InsertSorted<T>(x: T, s: seq<T>, key: T -> int)
    requires SortedBy(s, key)
    ensures SortedBy(Insert(x, s, key), key)
    decreases |s|
  {
    if |s| > 0 && key(x) > key(s[0]) {
      var rest := Insert(x, s[1..], key);
      InsertSorted(x, s[1..], key);
      forall i | 0 <= i < |rest|
        ensures key(s[0]) <= key(rest[i])
      {
        assert rest[i] in multiset(s[1..]) + multiset{x};
        if rest[i] != x {
          var j :| 0 <= j < |s[1..]| && s[1..][j] == rest[i];
          assert s[j + 1] == rest[i];
        }
      }
      ConsSorted(s[0], rest, key);
    }
  }

  /** Insertion sort from the back: the head of `s` is inserted in front of
      every equal key of the sorted tail, which is what makes it stable. */
  function Sort<T>(s: seq<T>, key: T -> int): (r: seq<T>)
    ensures |r| == |s|
    ensures multiset(r) == multiset(s)
    ensures SortedBy(r, key)
    decreases |s|
  {
    if |s| == 0 then []
    else
      assert s == [s[0]] + s[1..];
      InsertSorted(s[0], Sort(s[1..], key), key);
      Insert(s[0], Sort(s[1..], key), key)
  }

  /** Inserting `x` adds it in front of the elements sharing its key and
      leaves every other key's elements untouched. */
  lemma {:induction false} InsertKeyFilter<T>(x: T, s: seq<T>, key: T -> int, k: int)
    ensures KeyFilter(Insert(x, s, key), key, k)
         == (if key(x) == k then [x] else []) + KeyFilter(s, key, k)
    decreases |s|
  {
    if |s| == 0 || key(x) <= key(s[0]) {
      assert ([x] + s)[1..] == s;
    } else {
      InsertKeyFilter(x, s[1..], key, k);
      assert ([s[0]] + Insert(x, s[1..], key))[1..] == Insert(x, s[1..], key);
    }
  }

  /** Stability: for every key, the sorted sequence lists the elements with
      that key in exactly the order they had in the input. */
  lemma {:induction false} SortIsStable<T>(s: seq<T>, key: T -> int, k: int)
    ensures KeyFilter(Sort(s, key), key, k) == KeyFilter(s, key, k)
    decreases |s|
  {
    if |s| > 0 {
      SortIsStable(s[1..], key, k);
      InsertKeyFilter(s[0], Sort(s[1..], key), key, k);
    }
  }

  /** Inserting permutes any projection of the elements as well. */
  lemma {:induction false} InsertProjection<T, U>(x: T, s: seq<T>, key: T -> int, f: T -> U)
    ensures multiset(MapSeq(Insert(x, s, key), f)) == multiset(MapSeq(s, f)) + multiset{f(x)}
    decreases |s|
  {
    if |s| == 0 || key(x) <= key(s[0]) {
      assert MapSeq([x] + s, f) == [f(x)] + MapSeq(s, f);
    } else {
      InsertProjection(x, s[1..], key, f);
      assert MapSeq([s[0]] + Insert(x, s[1..], key), f) == [f(s[0])] + MapSeq(Insert(x, s[1..], key), f);
      assert MapSeq(s, f) == [f(s[0])] + MapSeq(s[1..], f);
    }
  }

  /** Sorting permutes any projection of the elements: the multiset of, say,
      identifiers is the same before and after. */
  lemma {:induction false} SortProjection<T, U>(s: seq<T>, key: T -> int, f: T -> U)
    ensures multiset(MapSeq(Sort(s, key), f)) == multiset(MapSeq(s, f))
    decreases |s|
  {
    if |s| > 0 {
      SortProjection(s[1..], key, f);
      InsertProjection(s[0], Sort(s[1..], key), key, f);
      assert MapSeq(s, f) == [f(s[0])] + MapSeq(s[1..], f);
    }
  }

  /** The head of an insertion is `x` exactly when no key in front is smaller. */
  lemma InsertHead<T>(x: T, s: seq<T>, key: T -> int)
    ensures Insert(x, s, key)[0] == if |s| == 0 || key(x) <= key(s[0]) then x else s[0]
  {
  }

  /** The head of the sorted sequence is the FIRST element of the input that
      carries the minimum key: ties go to the earlier position. */
  lemma {:induction false} SortHeadIsFirstMinimum<T>(s: seq<T>, key: T -> int) returns (k: nat)
    requires |s| > 0
    ensures k < |s| && Sort(s, key)[0] == s[k]
    ensures forall j :: 0 <= j < |s| ==> key(s[k]) <= key(s[j])
    ensures forall j :: 0 <= j < k ==> key(s[k]) < key(s[j])
    decreases |s|
  {
    var tail := Sort(s[1..], key);
    assert Sort(s, key) == Insert(s[0], tail, key);
    InsertHead(s[0], tail, key);
    if |s| == 1 {
      k := 0;
    } else {
      var k' := SortHeadIsFirstMinimum(s[1..], key);
      k := FirstMinimumOfCons(s, key, k');
    }
  }

  /** The first minimum of `s`, given the first minimum `k'` of `s[1..]`: it
      is `s[0]` when no key of the tail is smaller, else the tail's. */
  lemma FirstMinimumOfCons<T>(s: seq<T>, key: T -> int, k': nat) returns (k: nat)
    requires 1 < |s| && k' < |s| - 1
    requires forall j :: 0 <= j < |s[1..]| ==> key(s[1..][k']) <= key(s[1..][j])
    requires forall j :: 0 <= j < k' ==> key(s[1..][k']) < key(s[1..][j])
    ensures k < |s| && s[k] == if key(s[0]) <= key(s[k' + 1]) then s[0] else s[k' + 1]
    ensures forall j :: 0 <= j < |s| ==> key(s[k]) <= key(s[j])
    ensures forall j :: 0 <= j < k ==> key(s[k]) < key(s[j])
  {
    var h := s[1..][k'];
    assert h == s[k' + 1];
    if key(s[0]) <= key(h) {
      k := 0;
      TailBound(s, key, key(s[0]));
    } else {
      k := k' + 1;
      TailBound(s, key, key(h));
      TailStrict(s, key, key(h), k');
    }
  }

  /** `SortHeadIsFirstMinimum` as a plain statement, usable inside functions. */
  lemma SortHeadMinimum<T>(s: seq<T>, key: T -> int)
    requires |s| > 0
    ensures exists k :: 0 <= k < |s| && Sort(s, key)[0] == s[k]
                     && (forall j :: 0 <= j < k ==> key(s[k]) < key(s[j]))
    ensures forall j :: 0 <= j < |s| ==> key(Sort(s, key)[0]) <= key(s[j])
  {
    var k := SortHeadIsFirstMinimum(s, key);
  }

  /** A lower bound on the keys of `s[1..]` is one on the keys of `s` from 1 on. */
  lemma TailBound<T>(s: seq<T>, key: T -> int, m: int)
    requires |s| > 0
    requires forall j :: 0 <= j < |s[1..]| ==> m <= key(s[1..][j])
    ensures forall j :: 1 <= j < |s| ==> m <= key(s[j])
  {
    forall j | 1 <= j < |s|
      ensures m <= key(s[j])
    {
      assert s[j] == s[1..][j - 1];
    }
  }

  /** A strict bound on a prefix of `s[1..]`, shifted by one position. */
  lemma TailStrict<T>(s: seq<T>, key: T -> int, m: int, n: nat)
    requires 0 < |s| && n < |s| - 1
    requires forall j :: 0 <= j < n ==> m < key(s[1..][j])
    requires m < key(s[0])
    ensures forall j :: 0 <= j < n + 1 ==> m < key(s[j])
  {
    forall j | 1 <= j < n + 1
      ensures m < key(s[j])
    {
      assert s[j] == s[1..][j - 1];
    }
  }

  /** Sorting a sequence that is already sorted changes nothing. */
  lemma {:induction false} SortOfSorted<T>(s: seq<T>, key: T -> int)
    requires SortedBy(s, key)
    ensures Sort(s, key) == s
    decreases |s|
  {
    if |s| > 0 {
      SortOfSorted(s[1..], key);
      assert s == [s[0]] + s[1..];
    }
  }

  /** An element no greater than every element of a sorted sequence can go
      in front of it. */
  lemma ConsSorted<T>(x: T, s: seq<T>, key: T -> int)
    requires SortedBy(s, key)
    requires forall j :: 0 <= j < |s| ==> key(x) <= key(s[j])
    ensures SortedBy([x] + s, key)
  {
    var r := [x] + s;
    forall i, j | 0 <= i < j < |r|
      ensures key(r[i]) <= key(r[j])
    {
      assert r[j] == s[j - 1];
      if i > 0 {
        assert r[i] == s[i - 1];
      }
    }
  }

  /** A filter keeps order: when the kept elements already appear in key
      order, the filtered sequence is sorted. */
  lemma {:induction false} FilterSortedBy<T(!new)>(s: seq<T>, p: T -> bool, key: T -> int)
    requires forall i, j :: 0 <= i < j < |s| && p(s[i]) && p(s[j]) ==> key(s[i]) <= key(s[j])
    ensures SortedBy(Filter(s, p), key)
    decreases |s|
  {
    if |s| > 0 {
      var t := s[1..];
      assert forall i, j :: 0 <= i < j < |t| && p(t[i]) && p(t[j]) ==> key(t[i]) <= key(t[j]) by {
        forall i, j | 0 <= i < j < |t| && p(t[i]) && p(t[j])
          ensures key(t[i]) <= key(t[j])
        {
          assert t[i] == s[i + 1] && t[j] == s[j + 1];
        }
      }
      FilterSortedBy(t, p, key);
      if p(s[0]) {
        var rest := Filter(t, p);
        forall j | 0 <= j < |rest|
          ensures key(s[0]) <= key(rest[j])
        {
          var m :| 0 <= m < |t| && t[m] == rest[j];
          assert s[m + 1] == rest[j];
        }
        ConsSorted(s[0], rest, key);
      }
    }
  }
}
