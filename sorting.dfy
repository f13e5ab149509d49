/** A stable sort, standing for `Array.prototype.sort` with a comparator.
    The engines the source runs on sort stably, and a comparator that
    answers NaN is read as "equal", so every call the source makes is a
    stable sort by a total preorder. */
module Sorting {
  import opened Seqs

  ghost predicate TotalPreorder<T(!new)>(le: (T, T) -> bool)
  {
    && (forall a, b :: le(a, b) || le(b, a))
    && (forall a, b, c :: le(a, b) && le(b, c) ==> le(a, c))
  }

  predicate Sorted<T>(s: seq<T>, le: (T, T) -> bool)
  {
    forall i, j :: 0 <= i < j < |s| ==> le(s[i], s[j])
  }

  /** Puts `x` in front of the first element it is not after. */
  function Insert<T>(x: T, s: seq<T>, le: (T, T) -> bool): (r: seq<T>)
    ensures |r| == |s| + 1
  {
    if |s| == 0 then [x]
    else if le(x, s[0]) then [x] + s
    else
      assert s == [s[0]] + s[1..];
      [s[0]] + Insert(x, s[1..], le)
  }

  lemma {:induction false} InsertMultiset<T>(x: T, s: seq<T>, le: (T, T) -> bool)
    ensures multiset(Insert(x, s, le)) == multiset(s) + multiset{x}
  {
    if |s| > 0 && !le(x, s[0]) {
      InsertMultiset(x, s[1..], le);
      assert s == [s[0]] + s[1..];
    }
  }

  lemma {:induction false} InsertSorted<T(!new)>(x: T, s: seq<T>, le: (T, T) -> bool)
    requires TotalPreorder(le) && Sorted(s, le)
    ensures Sorted(Insert(x, s, le), le)
  {
    if |s| > 0 && !le(x, s[0]) {
      var t := Insert(x, s[1..], le);
      InsertSorted(x, s[1..], le);
      InsertMultiset(x, s[1..], le);
      forall k | 0 <= k < |t| ensures le(s[0], t[k]) {
        assert t[k] in multiset(t);
        if t[k] != x {
          var j :| 1 <= j < |s| && s[j] == t[k];
        }
      }
      assert Insert(x, s, le) == [s[0]] + t;
    }
  }

  /** Stable insertion sort by `le`. */
  function Sort<T(!new)>(s: seq<T>, le: (T, T) -> bool): (r: seq<T>)
    requires TotalPreorder(le)
    ensures Sorted(r, le)
    ensures multiset(r) == multiset(s)
    ensures |r| == |s|
  {
    if |s| == 0 then []
    else
      var t := Sort(s[1..], le);
      InsertSorted(s[0], t, le);
      InsertMultiset(s[0], t, le);
      assert s == [s[0]] + s[1..];
      Insert(s[0], t, le)
  }

  /** Elements that compare equal to `c`. */
  function EquivTo<T>(c: T, le: (T, T) -> bool): T -> bool
  {
    y => le(y, c) && le(c, y)
  }

  /** Inserting `x` into a list lands it after every element of its class
      already there, when `x` is not after any member of that class. */
  lemma {:induction false} InsertFilter<T(!new)>(x: T, s: seq<T>, le: (T, T) -> bool, p: T -> bool)
    requires forall y :: p(x) && p(y) ==> le(x, y)
    ensures Filter(Insert(x, s, le), p) == (if p(x) then [x] else []) + Filter(s, p)
  {
    if |s| == 0 || le(x, s[0]) {
      FilterCons(x, s, p);
    } else {
      var t := Insert(x, s[1..], le);
      assert Insert(x, s, le) == [s[0]] + t;
      assert s == [s[0]] + s[1..];
      InsertFilter(x, s[1..], le, p);
      FilterCons(s[0], t, p);
      FilterCons(s[0], s[1..], p);
      var rest := Filter(s[1..], p);
      if p(x) {
        assert !p(s[0]);
        assert Filter([s[0]] + t, p) == [] + Filter(t, p) == [x] + rest;
        assert Filter(s, p) == [] + rest == rest;
      } else {
        assert Filter(t, p) == [] + rest == rest;
      }
    }
  }

  /** The sort is stable: the elements of every class of equal keys keep
      their input order. */
  lemma {:induction false} SortStable<T(!new)>(s: seq<T>, le: (T, T) -> bool, c: T)
    requires TotalPreorder(le)
    ensures Filter(Sort(s, le), EquivTo(c, le)) == Filter(s, EquivTo(c, le))
  {
    if |s| > 0 {
      var p := EquivTo(c, le);
      SortStable(s[1..], le, c);
      forall y | p(s[0]) && p(y) ensures le(s[0], y) {
        assert le(s[0], c) && le(c, y);
      }
      InsertFilter(s[0], Sort(s[1..], le), le, p);
      FilterCons(s[0], s[1..], p);
      assert s == [s[0]] + s[1..];
    }
  }
}
