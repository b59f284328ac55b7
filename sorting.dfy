/** Python's `list.sort(key=...)`: a stable sort. Modelled by insertion sort, which places
    each element after every earlier element whose key is not greater. */
module Sorting {
  import opened Text

  /** `le(a, b)` reads "the key of `a` is at most the key of `b`". */
  ghost predicate TotalPreorder<T(!new)>(le: (T, T) -> bool) {
    && (forall a, b :: le(a, b) || le(b, a))
    && (forall a, b, c :: le(a, b) && le(b, c) ==> le(a, c))
  }

  predicate SortedBy<T>(s: seq<T>, le: (T, T) -> bool) {
    forall i, j :: 0 <= i < j < |s| ==> le(s[i], s[j])
  }

  /** Two elements with equal keys. */
  predicate Equiv<T>(a: T, b: T, le: (T, T) -> bool) {
    le(a, b) && le(b, a)
  }

  /** The elements of `s` whose key equals the key of `x`, in their order in `s`. */
  function Run<T>(s: seq<T>, x: T, le: (T, T) -> bool): seq<T> {
    if s == [] then []
    else (if Equiv(s[0], x, le) then [s[0]] else []) + Run(s[1..], x, le)
  }

  predicate NoDupBy<T, K(==)>(s: seq<T>, key: T -> K) {
    forall i, j :: 0 <= i < j < |s| ==> key(s[i]) != key(s[j])
  }

  function Insert<T>(x: T, s: seq<T>, le: (T, T) -> bool): seq<T> {
    if s == [] then [x]
    else if le(s[0], x) then [s[0]] + Insert(x, s[1..], le)
    else [x] + s
  }

  /** `sorted(s, key=...)` */
  function SortBy<T>(s: seq<T>, le: (T, T) -> bool): seq<T> {
    if s == [] then [] else Insert(s[|s| - 1], SortBy(s[..|s| - 1], le), le)
  }

  lemma {:induction false} InsertPermutes<T>(x: T, s: seq<T>, le: (T, T) -> bool)
    ensures multiset(Insert(x, s, le)) == multiset(s) + multiset{x}
  {
    if s != [] && le(s[0], x) {
      InsertPermutes(x, s[1..], le);
      assert s == [s[0]] + s[1..];
    }
  }

  /** The sort returns a permutation of its input. */
  lemma {:induction false} SortPermutes<T>(s: seq<T>, le: (T, T) -> bool)
    ensures multiset(SortBy(s, le)) == multiset(s)
  {
    if s != [] {
      var init, last := s[..|s| - 1], s[|s| - 1];
      SortPermutes(init, le);
      InsertPermutes(last, SortBy(init, le), le);
      MultisetSnoc(s);
    }
  }

  lemma MultisetSnoc<T>(s: seq<T>)
    requires s != []
    ensures multiset(s) == multiset(s[..|s| - 1]) + multiset{s[|s| - 1]}
  {
    assert s == s[..|s| - 1] + [s[|s| - 1]];
  }

  lemma {:induction false} InsertSorted<T(!new)>(x: T, s: seq<T>, le: (T, T) -> bool)
    requires TotalPreorder(le) && SortedBy(s, le)
    ensures SortedBy(Insert(x, s, le), le)
  {
    if s != [] {
      if le(s[0], x) {
        var rest := Insert(x, s[1..], le);
        InsertSorted(x, s[1..], le);
        InsertPermutes(x, s[1..], le);
        forall k | 0 <= k < |rest| ensures le(s[0], rest[k]) {
          assert rest[k] in multiset(rest);
          if rest[k] != x {
            assert rest[k] in s[1..];
            var j :| 0 <= j < |s[1..]| && s[1..][j] == rest[k];
            assert s[1..][j] == s[j + 1];
          }
        }
        SortedCons(s[0], rest, le);
      } else {
        forall k | 0 <= k < |s| ensures le(x, s[k]) {
          if k > 0 {
            assert le(s[0], s[k]);
          }
        }
        SortedCons(x, s, le);
      }
    }
  }

  lemma SortedCons<T>(h: T, s: seq<T>, le: (T, T) -> bool)
    requires SortedBy(s, le)
    requires forall k :: 0 <= k < |s| ==> le(h, s[k])
    ensures SortedBy([h] + s, le)
  {
    forall i, j | 0 <= i < j < |[h] + s| ensures le(([h] + s)[i], ([h] + s)[j]) {
      assert ([h] + s)[j] == s[j - 1];
      if i > 0 {
        assert ([h] + s)[i] == s[i - 1];
      }
    }
  }

  /** The sort returns its input in ascending order of keys. */
  lemma {:induction false} SortSorted<T(!new)>(s: seq<T>, le: (T, T) -> bool)
    requires TotalPreorder(le)
    ensures SortedBy(SortBy(s, le), le)
  {
    if s != [] {
      SortSorted(s[..|s| - 1], le);
      InsertSorted(s[|s| - 1], SortBy(s[..|s| - 1], le), le);
    }
  }

  lemma {:induction false} RunAppend<T>(a: seq<T>, b: seq<T>, x: T, le: (T, T) -> bool)
    ensures Run(a + b, x, le) == Run(a, x, le) + Run(b, x, le)
  {
    if a != [] {
      RunAppend(a[1..], b, x, le);
      assert (a + b)[1..] == a[1..] + b;
    } else {
      assert a + b == b;
    }
  }

  lemma {:induction false} RunNone<T>(s: seq<T>, x: T, le: (T, T) -> bool)
    requires forall k :: 0 <= k < |s| ==> !Equiv(s[k], x, le)
    ensures Run(s, x, le) == []
  {
    if s != [] {
      RunNone(s[1..], x, le);
    }
  }

  lemma {:induction false} InsertRun<T(!new)>(y: T, s: seq<T>, x: T, le: (T, T) -> bool)
    requires TotalPreorder(le) && SortedBy(s, le)
    ensures Run(Insert(y, s, le), x, le) == Run(s + [y], x, le)
  {
    RunAppend(s, [y], x, le);
    var ey := Run([y], x, le);
    if s != [] {
      var e0 := if Equiv(s[0], x, le) then [s[0]] else [];
      if le(s[0], y) {
        InsertRun(y, s[1..], x, le);
        RunAppend(s[1..], [y], x, le);
        RunCons(s[0], Insert(y, s[1..], le), x, le);
        calc {
          Run(Insert(y, s, le), x, le);
          e0 + Run(Insert(y, s[1..], le), x, le);
          e0 + (Run(s[1..], x, le) + ey);
          { assert e0 + (Run(s[1..], x, le) + ey) == (e0 + Run(s[1..], x, le)) + ey; }
          Run(s, x, le) + ey;
        }
      } else {
        RunCons(y, s, x, le);
        if Equiv(y, x, le) {
          forall k | 0 <= k < |s| ensures !Equiv(s[k], x, le) {
            if k > 0 {
              assert le(s[0], s[k]);
            }
          }
          RunNone(s, x, le);
        }
      }
    }
  }

  lemma RunCons<T>(h: T, t: seq<T>, x: T, le: (T, T) -> bool)
    ensures Run([h] + t, x, le) == (if Equiv(h, x, le) then [h] else []) + Run(t, x, le)
  {
    assert ([h] + t)[1..] == t;
  }


  /** The sort is stable: the elements with any given key keep their relative order. */
  lemma {:induction false} SortStable<T(!new)>(s: seq<T>, x: T, le: (T, T) -> bool)
    requires TotalPreorder(le)
    ensures Run(SortBy(s, le), x, le) == Run(s, x, le)
  {
    if s != [] {
      var init, last := s[..|s| - 1], s[|s| - 1];
      SortStable(init, x, le);
      SortSorted(init, le);
      InsertRun(last, SortBy(init, le), x, le);
      RunAppend(SortBy(init, le), [last], x, le);
      RunAppend(init, [last], x, le);
      assert s == init + [last];
    }
  }

  lemma {:induction false} InsertNoDup<T, K>(x: T, s: seq<T>, le: (T, T) -> bool, key: T -> K)
    requires NoDupBy(s, key)
    requires forall k :: 0 <= k < |s| ==> key(s[k]) != key(x)
    ensures NoDupBy(Insert(x, s, le), key)
  {
    if s != [] && le(s[0], x) {
      var rest := Insert(x, s[1..], le);
      InsertNoDup(x, s[1..], le, key);
      InsertPermutes(x, s[1..], le);
      forall k | 0 <= k < |rest| ensures key(s[0]) != key(rest[k]) {
        assert rest[k] in multiset(rest);
        assert rest[k] == x || rest[k] in multiset(s[1..]);
      }
    }
  }

  /** Sorting keeps keys pairwise distinct. */
  lemma {:induction false} SortNoDup<T, K>(s: seq<T>, le: (T, T) -> bool, key: T -> K)
    requires NoDupBy(s, key)
    ensures NoDupBy(SortBy(s, le), key)
  {
    if s != [] {
      var init, last := s[..|s| - 1], s[|s| - 1];
      var sorted := SortBy(init, le);
      SortNoDup(init, le, key);
      SortPermutes(init, le);
      forall k | 0 <= k < |sorted| ensures key(sorted[k]) != key(last) {
        assert sorted[k] in multiset(init);
        var j :| 0 <= j < |init| && init[j] == sorted[k];
      }
      InsertNoDup(last, sorted, le, key);
    }
  }

  /** A prefix of a sorted sequence is sorted. */
  lemma PrefixSorted<T>(s: seq<T>, n: nat, le: (T, T) -> bool)
    requires SortedBy(s, le) && n <= |s|
    ensures SortedBy(s[..n], le)
  {
  }

  /** `key=lambda x: <string>`: compare by a string key, in Python's code-point order. */
  function ByKey<T>(key: T -> string): (T, T) -> bool {
    (a: T, b: T) => StrLe(key(a), key(b))
  }

  lemma ByKeyPreorder<T(!new)>(key: T -> string)
    ensures TotalPreorder(ByKey(key))
  {
    var le := ByKey(key);
    forall a: T, b: T ensures le(a, b) || le(b, a) {
      StrLeTotal(key(a), key(b));
    }
    forall a: T, b: T, c: T | le(a, b) && le(b, c) ensures le(a, c) {
      StrLeTransitive(key(a), key(b), key(c));
    }
  }

  /** A contiguous slice of a sorted sequence is sorted. */
  lemma SliceSorted<T>(s: seq<T>, lo: nat, hi: nat, le: (T, T) -> bool)
    requires SortedBy(s, le) && lo <= hi <= |s|
    ensures SortedBy(s[lo..hi], le)
  {
    assert forall i :: 0 <= i < hi - lo ==> s[lo..hi][i] == s[lo + i];
  }

}
