/** Newest-first ordering, as done by `Array.prototype.sort` with the comparator
    `(a, b) => new Date(b.createdAt) - new Date(a.createdAt)`: a stable sort by decreasing
    `createdAt` date, each date given as an integer timestamp. */
module Ordering {

  /** No element is newer than one before it. */
  predicate NewestFirst<T>(s: seq<T>, stamp: T -> int) {
    forall i, j :: 0 <= i < j < |s| ==> stamp(s[i]) >= stamp(s[j])
  }

  /** The elements carrying timestamp `k`, in their order in `s`. */
  function Stamped<T>(s: seq<T>, stamp: T -> int, k: int): seq<T>
  {
    if |s| == 0 then []
    else if stamp(s[0]) == k then [s[0]] + Stamped(s[1..], stamp, k)
    else Stamped(s[1..], stamp, k)
  }

  /** No element of `s` is newer than `b`. */
  predicate NoneNewerThan<T>(s: seq<T>, stamp: T -> int, b: int) {
    forall i :: 0 <= i < |s| ==> stamp(s[i]) <= b
  }

  /** Places `x` before the first element that is not newer than it. */
  function Insert<T(==)>(x: T, s: seq<T>, stamp: T -> int): (r: seq<T>)
    ensures multiset(r) == multiset(s) + multiset{x}
  {
    if |s| == 0 then [x]
    else if stamp(x) >= stamp(s[0]) then [x] + s
    else
      assert s == [s[0]] + s[1..];
      [s[0]] + Insert(x, s[1..], stamp)
  }

  lemma {:induction false} InsertNoneNewer<T>(x: T, s: seq<T>, stamp: T -> int, b: int)
    requires stamp(x) <= b && NoneNewerThan(s, stamp, b)
    ensures NoneNewerThan(Insert(x, s, stamp), stamp, b)
  {
    if |s| > 0 && stamp(x) < stamp(s[0]) {
      InsertNoneNewer(x, s[1..], stamp, b);
    }
  }

  lemma NewestFirstCons<T>(y: T, s: seq<T>, stamp: T -> int)
    requires NewestFirst(s, stamp) && NoneNewerThan(s, stamp, stamp(y))
    ensures NewestFirst([y] + s, stamp)
  {
  }

  lemma NewestFirstTail<T>(s: seq<T>, stamp: T -> int)
    requires |s| > 0 && NewestFirst(s, stamp)
    ensures NewestFirst(s[1..], stamp) && NoneNewerThan(s[1..], stamp, stamp(s[0]))
  {
  }

  lemma {:induction false} InsertKeepsNewestFirst<T>(x: T, s: seq<T>, stamp: T -> int)
    requires NewestFirst(s, stamp)
    ensures NewestFirst(Insert(x, s, stamp), stamp)
  {
    if |s| == 0 {
    } else {
      NewestFirstTail(s, stamp);
      if stamp(x) >= stamp(s[0]) {
        assert NoneNewerThan(s, stamp, stamp(x)) by {
          forall i | 0 <= i < |s| ensures stamp(s[i]) <= stamp(x) {
            if i > 0 {
              assert s[1..][i - 1] == s[i];
            }
          }
        }
        NewestFirstCons(x, s, stamp);
      } else {
        InsertKeepsNewestFirst(x, s[1..], stamp);
        InsertNoneNewer(x, s[1..], stamp, stamp(s[0]));
        NewestFirstCons(s[0], Insert(x, s[1..], stamp), stamp);
      }
    }
  }

  /** The stable newest-first sort: a permutation of `s` in non-increasing timestamp order. */
  function SortNewestFirst<T(==)>(s: seq<T>, stamp: T -> int): (r: seq<T>)
    ensures multiset(r) == multiset(s)
    ensures NewestFirst(r, stamp)
  {
    if |s| == 0 then []
    else
      assert s == [s[0]] + s[1..];
      var rest := SortNewestFirst(s[1..], stamp);
      InsertKeepsNewestFirst(s[0], rest, stamp);
      Insert(s[0], rest, stamp)
  }

  lemma {:induction false} InsertStamped<T>(x: T, s: seq<T>, stamp: T -> int, k: int)
    ensures Stamped(Insert(x, s, stamp), stamp, k)
         == (if stamp(x) == k then [x] + Stamped(s, stamp, k) else Stamped(s, stamp, k))
  {
    if |s| == 0 {
    } else if stamp(x) >= stamp(s[0]) {
      assert ([x] + s)[1..] == s;
    } else {
      var rest := Insert(x, s[1..], stamp);
      assert ([s[0]] + rest)[1..] == rest;
      InsertStamped(x, s[1..], stamp, k);
    }
  }

  /** The sort is stable: elements with equal timestamps keep their relative order. */
  lemma {:induction false} SortIsStable<T>(s: seq<T>, stamp: T -> int, k: int)
    ensures Stamped(SortNewestFirst(s, stamp), stamp, k) == Stamped(s, stamp, k)
  {
    if |s| > 0 {
      SortIsStable(s[1..], stamp, k);
      InsertStamped(s[0], SortNewestFirst(s[1..], stamp), stamp, k);
    }
  }

  /** A sequence that is already newest first is returned as it is. */
  lemma {:induction false} SortKeepsOrderedInput<T>(s: seq<T>, stamp: T -> int)
    requires NewestFirst(s, stamp)
    ensures SortNewestFirst(s, stamp) == s
  {
    if |s| > 0 {
      NewestFirstTail(s, stamp);
      SortKeepsOrderedInput(s[1..], stamp);
      if |s| > 1 {
        assert stamp(s[0]) >= stamp(s[1..][0]);
      }
      assert [s[0]] + s[1..] == s;
    }
  }
}
