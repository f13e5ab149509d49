/** Sequence and map helpers standing for `Array.prototype.filter` and for
    a JavaScript `Map` filled with `set` calls in order. */
module Seqs {

  /** `Array.prototype.filter(p)`. */
  function Filter<T(!new)>(s: seq<T>, p: T -> bool): (r: seq<T>)
    ensures |r| <= |s|
    ensures forall x :: x in r <==> x in s && p(x)
  {
    if |s| == 0 then [] else (if p(s[0]) then [s[0]] else []) + Filter(s[1..], p)
  }

  lemma FilterCons<T(!new)>(a: T, t: seq<T>, p: T -> bool)
    ensures Filter([a] + t, p) == (if p(a) then [a] else []) + Filter(t, p)
  {
    assert ([a] + t)[0] == a && ([a] + t)[1..] == t;
  }

  /** Filtering distributes over concatenation. */
  lemma {:induction false} FilterConcat<T(!new)>(a: seq<T>, b: seq<T>, p: T -> bool)
    ensures Filter(a + b, p) == Filter(a, p) + Filter(b, p)
  {
    if |a| > 0 {
      FilterConcat(a[1..], b, p);
      assert a + b == [a[0]] + (a[1..] + b);
      FilterCons(a[0], a[1..] + b, p);
      FilterCons(a[0], a[1..], p);
      assert a == [a[0]] + a[1..];
    } else {
      assert a + b == b;
    }
  }

  /** Filtering keeps every copy of a passing element and no copy of any
      other element. */
  lemma {:induction false} FilterCount<T(!new)>(s: seq<T>, p: T -> bool, x: T)
    ensures multiset(Filter(s, p))[x] == if p(x) then multiset(s)[x] else 0
  {
    if |s| > 0 {
      FilterCount(s[1..], p, x);
      assert s == [s[0]] + s[1..];
    }
  }

  /** The first element kept is the first element that passes. */
  lemma {:induction false} FilterHead<T(!new)>(s: seq<T>, p: T -> bool, i: nat)
    requires i < |s| && p(s[i])
    requires forall j :: 0 <= j < i ==> !p(s[j])
    ensures |Filter(s, p)| > 0 && Filter(s, p)[0] == s[i]
  {
    if i > 0 {
      FilterHead(s[1..], p, i - 1);
    }
  }

  /** Filters with predicates that agree on every element are equal. */
  lemma {:induction false} FilterSame<T(!new)>(s: seq<T>, p: T -> bool, q: T -> bool)
    requires forall i :: 0 <= i < |s| ==> p(s[i]) == q(s[i])
    ensures Filter(s, p) == Filter(s, q)
  {
    if |s| > 0 {
      FilterSame(s[1..], p, q);
    }
  }

  /** `a` is `b` with some elements removed, the rest kept in order. */
  ghost predicate IsSubseq<T>(a: seq<T>, b: seq<T>)
    decreases |b|
  {
    |a| == 0 || (|b| > 0 && ((a[0] == b[0] && IsSubseq(a[1..], b[1..])) || IsSubseq(a, b[1..])))
  }

  lemma {:induction false} FilterIsSubseq<T(!new)>(s: seq<T>, p: T -> bool)
    ensures IsSubseq(Filter(s, p), s)
  {
    if |s| > 0 {
      FilterIsSubseq(s[1..], p);
      var f := Filter(s, p);
      if p(s[0]) {
        assert f == [s[0]] + Filter(s[1..], p);
        assert f[0] == s[0] && f[1..] == Filter(s[1..], p);
      } else {
        assert f == Filter(s[1..], p);
      }
    }
  }

  lemma {:induction false} FilterIdempotent<T(!new)>(s: seq<T>, p: T -> bool)
    ensures Filter(Filter(s, p), p) == Filter(s, p)
  {
    if |s| > 0 {
      FilterIdempotent(s[1..], p);
      var f := Filter(s, p);
      if p(s[0]) {
        assert f == [s[0]] + Filter(s[1..], p);
        assert f[0] == s[0] && f[1..] == Filter(s[1..], p);
        assert Filter(f, p) == [f[0]] + Filter(f[1..], p);
      } else {
        assert f == Filter(s[1..], p);
      }
    }
  }

  lemma {:induction false} FilterKeepsAll<T(!new)>(s: seq<T>, p: T -> bool)
    requires forall i :: 0 <= i < |s| ==> p(s[i])
    ensures Filter(s, p) == s
  {
    if |s| > 0 {
      FilterKeepsAll(s[1..], p);
    }
  }

  /** The keys of a list of pairs. */
  function Keys<K, V>(pairs: seq<(K, V)>): set<K>
  {
    set i | 0 <= i < |pairs| :: pairs[i].0
  }

  /** A `Map` filled by `set(k, v)` for every pair in order: a later pair
      overwrites an earlier one with the same key. */
  function LastWins<K, V>(pairs: seq<(K, V)>): (m: map<K, V>)
    ensures m.Keys == Keys(pairs)
  {
    if |pairs| == 0 then map[]
    else
      var m := LastWins(pairs[..|pairs| - 1]);
      assert Keys(pairs) == Keys(pairs[..|pairs| - 1]) + {pairs[|pairs| - 1].0};
      m[pairs[|pairs| - 1].0 := pairs[|pairs| - 1].1]
  }

  /** A pair that no later pair overrides gives the value of its key. */
  lemma {:induction false} LastWinsValue<K, V>(pairs: seq<(K, V)>, i: nat)
    requires i < |pairs|
    requires forall j :: i < j < |pairs| ==> pairs[j].0 != pairs[i].0
    ensures LastWins(pairs)[pairs[i].0] == pairs[i].1
  {
    if i < |pairs| - 1 {
      LastWinsValue(pairs[..|pairs| - 1], i);
    }
  }

  /** Every value of the map is the value of the last pair with its key. */
  lemma {:induction false} LastWinsSource<K, V>(pairs: seq<(K, V)>, k: K) returns (i: nat)
    requires k in Keys(pairs)
    ensures i < |pairs| && pairs[i].0 == k && LastWins(pairs)[k] == pairs[i].1
    ensures forall j :: i < j < |pairs| ==> pairs[j].0 != k
  {
    var n := |pairs| - 1;
    if pairs[n].0 == k {
      i := n;
    } else {
      assert k in Keys(pairs[..n]) by {
        var w :| 0 <= w < |pairs| && pairs[w].0 == k;
        assert pairs[..n][w].0 == k;
      }
      i := LastWinsSource(pairs[..n], k);
      assert pairs[..n][i] == pairs[i];
    }
  }

  lemma {:induction false} KeysSize<K, V>(pairs: seq<(K, V)>)
    ensures |Keys(pairs)| <= |pairs|
  {
    if |pairs| > 0 {
      var n := |pairs| - 1;
      KeysSize(pairs[..n]);
      assert Keys(pairs) == Keys(pairs[..n]) + {pairs[n].0};
    }
  }

  /** A `Map` filled in order by `if (!m.has(k)) m.set(k, v)`: the first
      pair with a key wins. */
  function FirstWins<K, V>(pairs: seq<(K, V)>): (m: map<K, V>)
    ensures m.Keys == Keys(pairs)
  {
    if |pairs| == 0 then map[]
    else
      var m := FirstWins(pairs[..|pairs| - 1]);
      var p := pairs[|pairs| - 1];
      assert Keys(pairs) == Keys(pairs[..|pairs| - 1]) + {p.0};
      if p.0 in m then m else m[p.0 := p.1]
  }

  /** The value under a key is that of the first pair carrying the key. */
  lemma {:induction false} FirstWinsValue<K, V>(pairs: seq<(K, V)>, i: nat)
    requires i < |pairs|
    requires forall j :: 0 <= j < i ==> pairs[j].0 != pairs[i].0
    ensures FirstWins(pairs)[pairs[i].0] == pairs[i].1
  {
    var n := |pairs| - 1;
    if i < n {
      FirstWinsValue(pairs[..n], i);
    } else {
      forall w | 0 <= w < n ensures pairs[..n][w].0 != pairs[i].0 {
        assert pairs[..n][w] == pairs[w];
      }
    }
  }

  /** `Set.prototype.add` on a JavaScript `Set`, whose iteration order is
      first-insertion order: a new element goes to the end, a present one
      changes nothing. */
  function SetAdd<T(==)>(s: seq<T>, x: T): seq<T>
  {
    if x in s then s else s + [x]
  }

  /** Adding every element of `xs` in order. */
  function SetAddAll<T(==)>(s: seq<T>, xs: seq<T>): seq<T>
    decreases |xs|
  {
    if |xs| == 0 then s else SetAddAll(SetAdd(s, xs[0]), xs[1..])
  }

  predicate NoDup<T(==)>(s: seq<T>) { forall i, j :: 0 <= i < j < |s| ==> s[i] != s[j] }

  /** Adding the elements one at a time: the last one goes last. */
  lemma {:induction false} SetAddAllSnoc<T>(s: seq<T>, xs: seq<T>, x: T)
    ensures SetAddAll(s, xs + [x]) == SetAdd(SetAddAll(s, xs), x)
    decreases |xs|
  {
    if |xs| == 0 {
      assert (xs + [x])[1..] == [];
    } else {
      assert (xs + [x])[0] == xs[0] && (xs + [x])[1..] == xs[1..] + [x];
      SetAddAllSnoc(SetAdd(s, xs[0]), xs[1..], x);
    }
  }

  /** Adding `a` and then `b` is adding `a + b`. */
  lemma {:induction false} SetAddAllAppend<T>(s: seq<T>, a: seq<T>, b: seq<T>)
    ensures SetAddAll(s, a + b) == SetAddAll(SetAddAll(s, a), b)
    decreases |a|
  {
    if |a| == 0 {
      assert a + b == b;
    } else {
      assert (a + b)[0] == a[0] && (a + b)[1..] == a[1..] + b;
      SetAddAllAppend(SetAdd(s, a[0]), a[1..], b);
    }
  }

  /** The set afterwards holds exactly what it held and what was added. */
  lemma {:induction false} SetAddAllHas<T>(s: seq<T>, xs: seq<T>, x: T)
    ensures x in SetAddAll(s, xs) <==> x in s || x in xs
    decreases |xs|
  {
    if |xs| > 0 {
      SetAddAllHas(SetAdd(s, xs[0]), xs[1..], x);
      assert xs == [xs[0]] + xs[1..];
    }
  }

  /** Adding never duplicates an element. */
  lemma {:induction false} SetAddAllNoDup<T>(s: seq<T>, xs: seq<T>)
    requires NoDup(s)
    ensures NoDup(SetAddAll(s, xs))
    decreases |xs|
  {
    if |xs| > 0 {
      SetAddAllNoDup(SetAdd(s, xs[0]), xs[1..]);
    }
  }

  /** Adding never moves what was there: the old elements stay in front,
      in their order. */
  lemma {:induction false} SetAddAllKeepsFront<T>(s: seq<T>, xs: seq<T>)
    ensures |s| <= |SetAddAll(s, xs)| && SetAddAll(s, xs)[..|s|] == s
    decreases |xs|
  {
    if |xs| > 0 {
      var s1 := SetAdd(s, xs[0]);
      SetAddAllKeepsFront(s1, xs[1..]);
      assert s1[..|s|] == s;
    }
  }

  /** Adding elements that are all new and distinct appends them. */
  lemma {:induction false} SetAddAllFresh<T>(s: seq<T>, xs: seq<T>)
    requires NoDup(s + xs)
    ensures SetAddAll(s, xs) == s + xs
    decreases |xs|
  {
    if |xs| > 0 {
      assert xs[0] !in s by {
        forall i | 0 <= i < |s| ensures s[i] != xs[0] {
          assert (s + xs)[i] == s[i] && (s + xs)[|s|] == xs[0];
        }
      }
      assert (s + [xs[0]]) + xs[1..] == s + xs;
      SetAddAllFresh(s + [xs[0]], xs[1..]);
    }
  }
}
