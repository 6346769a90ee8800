/** The group-by vocabulary shared by every aggregation of the pipeline.

    A pandas `groupby(...)` over a frame is modelled by a KEY function
    `key: T -> Option<K>`: a row `x` belongs to group `k` when
    `key(x) == Some(k)`, and to no group when `key(x) == None` (rows that a
    preceding filter removed, or whose group column is NaN and therefore
    dropped by `groupby`). `size()` becomes `CountKey`, `sum()` becomes
    `SumKey`, the groups that appear become `Keys` (in order of first
    appearance; pandas sorts them, and row order is not modelled), and
    `nunique()` is the length of `Keys` of a projection (`KeysCount`).

    The partition lemmas say that summing a per-group quantity over all the
    groups gives back the quantity over all grouped rows: a group-by neither
    drops nor double-counts a row. */
module Grouping {
  import opened Wrappers

  predicate Distinct<K(==)>(ks: seq<K>) {
    forall i, j :: 0 <= i < j < |ks| ==> ks[i] != ks[j]
  }

  /** The rows that satisfy `p`, in their original order (a boolean mask). */
  function Filter<T(==)>(s: seq<T>, p: T -> bool): (r: seq<T>)
    ensures |r| <= |s|
    ensures forall i :: 0 <= i < |r| ==> r[i] in s && p(r[i])
    ensures forall i :: 0 <= i < |s| && p(s[i]) ==> s[i] in r
  {
    if s == [] then []
    else
      var rest := Filter(s[1..], p);
      assert forall i :: 1 <= i < |s| ==> s[i] == s[1..][i - 1];
      (if p(s[0]) then [s[0]] else []) + rest
  }

  /** The rows on which `f` is defined, mapped through `f`, in order. */
  function FilterMap<A, B>(s: seq<A>, f: A -> Option<B>): (r: seq<B>)
    ensures |r| <= |s|
    ensures forall i :: 0 <= i < |r| ==> exists j :: 0 <= j < |s| && f(s[j]) == Some(r[i])
    ensures forall j :: 0 <= j < |s| && f(s[j]).Some? ==> f(s[j]).value in r
  {
    if s == [] then []
    else
      var rest := FilterMap(s[1..], f);
      assert forall j :: 1 <= j < |s| ==> s[j] == s[1..][j - 1];
      match f(s[0])
      case None => rest
      case Some(b) =>
        var r := [b] + rest;
        assert forall i :: 1 <= i < |r| ==> r[i] == rest[i - 1];
        r
  }

  /** Number of rows that satisfy `p` (the sum of a boolean mask). */
  function Count<T>(s: seq<T>, p: T -> bool): nat
  {
    if s == [] then 0 else (if p(s[0]) then 1 else 0) + Count(s[1..], p)
  }

  /** No row satisfies a mask that every row fails. */
  lemma {:induction false} CountNone<T>(s: seq<T>, p: T -> bool)
    requires forall x :: x in s ==> !p(x)
    ensures Count(s, p) == 0
  {
    if s != [] {
      assert forall x :: x in s[1..] ==> x in s;
      CountNone(s[1..], p);
    }
  }

  /** `FilterMap` keeps exactly the rows of a mask `p` that says where `f`
      is defined. */
  lemma {:induction false} FilterMapLength<A, B>(s: seq<A>, f: A -> Option<B>, p: A -> bool)
    requires forall x :: x in s ==> (f(x).Some? <==> p(x))
    ensures |FilterMap(s, f)| == Count(s, p)
  {
    if s != [] {
      assert forall x :: x in s[1..] ==> x in s;
      FilterMapLength(s[1..], f, p);
    }
  }

  lemma {:induction false} FilterLength<T>(s: seq<T>, p: T -> bool)
    ensures |Filter(s, p)| == Count(s, p)
  {
    if s != [] {
      FilterLength(s[1..], p);
    }
  }

  /** Filtering twice by the same mask is filtering once. */
  lemma {:induction false} FilterIdempotent<T>(s: seq<T>, p: T -> bool)
    ensures Filter(Filter(s, p), p) == Filter(s, p)
  {
    if s != [] {
      FilterIdempotent(s[1..], p);
      if p(s[0]) {
        var x := [s[0]] + Filter(s[1..], p);
        assert x[0] == s[0] && x[1..] == Filter(s[1..], p);
        assert Filter(x, p) == [s[0]] + Filter(x[1..], p);
      } else {
        assert Filter(s, p) == [] + Filter(s[1..], p) == Filter(s[1..], p);
      }
    }
  }

  /** A stronger mask counts fewer rows. */
  lemma {:induction false} CountMonotone<T>(s: seq<T>, p: T -> bool, q: T -> bool)
    requires forall x :: x in s && q(x) ==> p(x)
    ensures Count(s, q) <= Count(s, p)
  {
    if s != [] {
      assert forall x :: x in s[1..] ==> x in s;
      CountMonotone(s[1..], p, q);
    }
  }

  /** Rows satisfying `p` split into those that also satisfy `q` and those
      that do not. */
  lemma {:induction false} CountSplit<T>(s: seq<T>, p: T -> bool, q: T -> bool, pq: T -> bool, pnq: T -> bool)
    requires forall x :: x in s ==> (pq(x) <==> p(x) && q(x)) && (pnq(x) <==> p(x) && !q(x))
    ensures Count(s, p) == Count(s, pq) + Count(s, pnq)
  {
    if s != [] {
      assert forall x :: x in s[1..] ==> x in s;
      CountSplit(s[1..], p, q, pq, pnq);
    }
  }

  /** Two masks that agree on every row count the same rows. */
  lemma {:induction false} CountAgree<T>(s: seq<T>, p: T -> bool, q: T -> bool)
    requires forall x :: x in s ==> (p(x) <==> q(x))
    ensures Count(s, p) == Count(s, q)
  {
    if s != [] {
      assert forall x :: x in s[1..] ==> x in s;
      CountAgree(s[1..], p, q);
    }
  }

  /** A list without repetitions has as many elements as its set. */
  lemma {:induction false} DistinctCardinality<K>(ks: seq<K>)
    requires Distinct(ks)
    ensures |set k | k in ks| == |ks|
  {
    if ks != [] {
      var rest := ks[1..];
      assert Distinct(rest) by {
        forall i, j | 0 <= i < j < |rest| ensures rest[i] != rest[j] {
          assert rest[i] == ks[i + 1] && rest[j] == ks[j + 1];
        }
      }
      DistinctCardinality(rest);
      assert ks[0] !in rest by {
        forall i | 0 <= i < |rest| ensures rest[i] != ks[0] {
          assert rest[i] == ks[i + 1];
        }
      }
      assert (set k | k in ks) == (set k | k in rest) + {ks[0]};
    }
  }

  /** Two lists without repetitions that hold the same elements have the
      same length. */
  lemma SameElementsSameLength<K>(a: seq<K>, b: seq<K>)
    requires Distinct(a) && Distinct(b)
    requires forall k :: k in a <==> k in b
    ensures |a| == |b|
  {
    DistinctCardinality(a);
    DistinctCardinality(b);
    assert (set k | k in a) == (set k | k in b);
  }

  /** Size of group `k`. */
  function CountKey<T, K(==)>(s: seq<T>, key: T -> Option<K>, k: K): nat
  {
    if s == [] then 0
    else (if key(s[0]) == Some(k) then 1 else 0) + CountKey(s[1..], key, k)
  }

  /** Number of rows that belong to some group. */
  function CountKeyed<T, K(==)>(s: seq<T>, key: T -> Option<K>): nat
  {
    if s == [] then 0
    else (if key(s[0]).Some? then 1 else 0) + CountKeyed(s[1..], key)
  }

  /** Sum of the weight `w` over group `k`. */
  function SumKey<T, K(==)>(s: seq<T>, key: T -> Option<K>, w: T -> int, k: K): int
  {
    if s == [] then 0
    else (if key(s[0]) == Some(k) then w(s[0]) else 0) + SumKey(s[1..], key, w, k)
  }

  /** Sum of the weight `w` over every row that belongs to some group. */
  function SumKeyed<T, K(==)>(s: seq<T>, key: T -> Option<K>, w: T -> int): int
  {
    if s == [] then 0
    else (if key(s[0]).Some? then w(s[0]) else 0) + SumKeyed(s[1..], key, w)
  }

  /** Sum of the group sizes of the groups listed in `ks`. */
  function CountOver<T, K(==)>(ks: seq<K>, s: seq<T>, key: T -> Option<K>): nat
  {
    if ks == [] then 0 else CountKey(s, key, ks[0]) + CountOver(ks[1..], s, key)
  }

  /** Sum of the group sums of the groups listed in `ks`. */
  function SumOver<T, K(==)>(ks: seq<K>, s: seq<T>, key: T -> Option<K>, w: T -> int): int
  {
    if ks == [] then 0 else SumKey(s, key, w, ks[0]) + SumOver(ks[1..], s, key, w)
  }

  /** How many entries of `ks` the key `o` of one row hits. */
  function Hits<K(==)>(ks: seq<K>, o: Option<K>): nat
  {
    if ks == [] then 0 else (if o == Some(ks[0]) then 1 else 0) + Hits(ks[1..], o)
  }

  /** The weight `v` of one row, counted once per entry of `ks` it hits. */
  function HitWeight<K(==)>(ks: seq<K>, o: Option<K>, v: int): int
  {
    if ks == [] then 0 else (if o == Some(ks[0]) then v else 0) + HitWeight(ks[1..], o, v)
  }

  lemma {:induction false} HitsDistinct<K>(ks: seq<K>, o: Option<K>)
    requires Distinct(ks)
    ensures Hits(ks, o) == if o.Some? && o.value in ks then 1 else 0
    ensures HitWeight(ks, o, 0) == 0
  {
    if ks != [] {
      HitsDistinct(ks[1..], o);
      if o == Some(ks[0]) {
        assert ks[0] !in ks[1..] by {
          forall i | 0 <= i < |ks[1..]| ensures ks[1..][i] != ks[0] {
            assert ks[1..][i] == ks[i + 1];
          }
        }
      }
    }
  }

  lemma {:induction false} HitWeightDistinct<K>(ks: seq<K>, o: Option<K>, v: int)
    requires Distinct(ks)
    ensures HitWeight(ks, o, v) == if o.Some? && o.value in ks then v else 0
  {
    if ks != [] {
      HitWeightDistinct(ks[1..], o, v);
      if o == Some(ks[0]) {
        assert ks[0] !in ks[1..] by {
          forall i | 0 <= i < |ks[1..]| ensures ks[1..][i] != ks[0] {
            assert ks[1..][i] == ks[i + 1];
          }
        }
      }
    }
  }

  lemma {:induction false} CountOverHead<T, K>(ks: seq<K>, s: seq<T>, key: T -> Option<K>)
    requires s != []
    ensures CountOver(ks, s, key) == Hits(ks, key(s[0])) + CountOver(ks, s[1..], key)
  {
    if ks != [] {
      CountOverHead(ks[1..], s, key);
    }
  }

  lemma {:induction false} SumOverHead<T, K>(ks: seq<K>, s: seq<T>, key: T -> Option<K>, w: T -> int)
    requires s != []
    ensures SumOver(ks, s, key, w) == HitWeight(ks, key(s[0]), w(s[0])) + SumOver(ks, s[1..], key, w)
  {
    if ks != [] {
      SumOverHead(ks[1..], s, key, w);
    }
  }

  lemma {:induction false} OverEmpty<T, K>(ks: seq<K>, key: T -> Option<K>, w: T -> int)
    ensures CountOver(ks, [], key) == 0
    ensures SumOver(ks, [], key, w) == 0
  {
    if ks != [] {
      OverEmpty(ks[1..], key, w);
    }
  }

  /** Counting group by group over a list of distinct keys that covers every
      grouped row counts every grouped row exactly once. */
  lemma {:induction false} PartitionCount<T, K>(ks: seq<K>, s: seq<T>, key: T -> Option<K>)
    requires Distinct(ks)
    requires forall x :: x in s && key(x).Some? ==> key(x).value in ks
    ensures CountOver(ks, s, key) == CountKeyed(s, key)
  {
    if s == [] {
      OverEmpty(ks, key, _ => 0);
    } else {
      CountOverHead(ks, s, key);
      HitsDistinct(ks, key(s[0]));
      assert forall x :: x in s[1..] ==> x in s;
      PartitionCount(ks, s[1..], key);
    }
  }

  /** Summing group by group over a list of distinct keys that covers every
      grouped row sums every grouped row exactly once. */
  lemma {:induction false} PartitionSum<T, K>(ks: seq<K>, s: seq<T>, key: T -> Option<K>, w: T -> int)
    requires Distinct(ks)
    requires forall x :: x in s && key(x).Some? ==> key(x).value in ks
    ensures SumOver(ks, s, key, w) == SumKeyed(s, key, w)
  {
    if s == [] {
      OverEmpty(ks, key, w);
    } else {
      SumOverHead(ks, s, key, w);
      HitWeightDistinct(ks, key(s[0]), w(s[0]));
      assert forall x :: x in s[1..] ==> x in s;
      PartitionSum(ks, s[1..], key, w);
    }
  }

  /** The groups that occur, each once. This definition happens to list
      them in order of first appearance, while the pipeline's `groupby`
      sorts them; no contract depends on the order, only on which groups
      there are. */
  function Keys<T, K(==)>(s: seq<T>, key: T -> Option<K>): (ks: seq<K>)
    ensures Distinct(ks)
    ensures forall k :: k in ks ==> exists i :: 0 <= i < |s| && key(s[i]) == Some(k)
    ensures forall i :: 0 <= i < |s| && key(s[i]).Some? ==> key(s[i]).value in ks
    decreases |s|
  {
    if s == [] then []
    else
      var init := Keys(s[..|s| - 1], key);
      var last := key(s[|s| - 1]);
      assert forall i :: 0 <= i < |s| - 1 ==> s[..|s| - 1][i] == s[i];
      if last.Some? && last.value !in init then init + [last.value] else init
  }

  lemma {:induction false} CountKeyedSnoc<T, K>(s: seq<T>, x: T, key: T -> Option<K>)
    ensures CountKeyed(s + [x], key) == CountKeyed(s, key) + (if key(x).Some? then 1 else 0)
  {
    if s != [] {
      assert (s + [x])[1..] == s[1..] + [x];
      CountKeyedSnoc(s[1..], x, key);
    }
  }

  /** There are at most as many groups as grouped rows (`nunique <= size`). */
  lemma {:induction false} KeysAtMostCount<T, K>(s: seq<T>, key: T -> Option<K>)
    ensures |Keys(s, key)| <= CountKeyed(s, key)
    decreases |s|
  {
    if s != [] {
      var init := s[..|s| - 1];
      assert s == init + [s[|s| - 1]];
      KeysAtMostCount(init, key);
      CountKeyedSnoc(init, s[|s| - 1], key);
    }
  }

  /** A group is non-empty exactly when some row has its key. */
  lemma {:induction false} CountKeyPositive<T, K>(s: seq<T>, key: T -> Option<K>, k: K)
    ensures CountKey(s, key, k) > 0 <==> exists i :: 0 <= i < |s| && key(s[i]) == Some(k)
  {
    if s != [] {
      CountKeyPositive(s[1..], key, k);
      if exists i :: 0 <= i < |s| && key(s[i]) == Some(k) {
        var i :| 0 <= i < |s| && key(s[i]) == Some(k);
        if i > 0 {
          assert s[1..][i - 1] == s[i];
        }
      }
      forall i | 0 <= i < |s[1..]| ensures s[1..][i] == s[i + 1] {}
    }
  }

  /** Two key functions that put the same rows in the groups `k1` and `k2`
      give those groups the same size. */
  lemma {:induction false} CountKeyAgree<T, K1, K2>(s: seq<T>, key1: T -> Option<K1>, k1: K1,
                                                     key2: T -> Option<K2>, k2: K2)
    requires forall x :: x in s ==> (key1(x) == Some(k1) <==> key2(x) == Some(k2))
    ensures CountKey(s, key1, k1) == CountKey(s, key2, k2)
  {
    if s != [] {
      assert forall x :: x in s[1..] ==> x in s;
      CountKeyAgree(s[1..], key1, k1, key2, k2);
    }
  }

  /** Two key functions that group the same rows count the same rows. */
  lemma {:induction false} CountKeyedAgree<T, K1, K2>(s: seq<T>, key1: T -> Option<K1>, key2: T -> Option<K2>)
    requires forall x :: x in s ==> (key1(x).Some? <==> key2(x).Some?)
    ensures CountKeyed(s, key1) == CountKeyed(s, key2)
  {
    if s != [] {
      assert forall x :: x in s[1..] ==> x in s;
      CountKeyedAgree(s[1..], key1, key2);
    }
  }

  /** A group's size is the number of grouped rows minus those elsewhere. */
  lemma {:induction false} CountKeyAtMostKeyed<T, K>(s: seq<T>, key: T -> Option<K>, k: K)
    ensures CountKey(s, key, k) <= CountKeyed(s, key)
  {
    if s != [] {
      CountKeyAtMostKeyed(s[1..], key, k);
    }
  }

  /** The sum over a group in which every weight is `v` is `v` times its size. */
  lemma {:induction false} SumKeyConstant<T, K>(s: seq<T>, key: T -> Option<K>, w: T -> int, k: K, v: int)
    requires forall x :: x in s && key(x) == Some(k) ==> w(x) == v
    ensures SumKey(s, key, w, k) == v * CountKey(s, key, k)
  {
    if s != [] {
      assert forall x :: x in s[1..] ==> x in s;
      SumKeyConstant(s[1..], key, w, k, v);
    }
  }
  /** The projection `proj` of the rows of group `k`, and nothing for the
      rows of other groups: `nunique` of a column inside one group is the
      number of `Keys` of this key. */
  function Within<T, K(==), V>(key: T -> Option<K>, k: K, proj: T -> V): T -> Option<V> {
    (x: T) => if key(x) == Some(k) then Some(proj(x)) else None
  }

  /** Restricting to group `k` keeps exactly the rows of group `k`. */
  lemma {:induction false} CountWithin<T, K, V>(s: seq<T>, key: T -> Option<K>, k: K, proj: T -> V)
    ensures CountKeyed(s, Within(key, k, proj)) == CountKey(s, key, k)
  {
    if s != [] {
      CountWithin(s[1..], key, k, proj);
    }
  }

  /** A grouping of a subset of group `k` groups at most the rows of `k`. */
  lemma {:induction false} CountKeyedAtMost<T, K, V>(s: seq<T>, key: T -> Option<K>, k: K, sub: T -> Option<V>)
    requires forall x :: x in s && sub(x).Some? ==> key(x) == Some(k)
    ensures CountKeyed(s, sub) <= CountKey(s, key, k)
  {
    if s != [] {
      assert forall x :: x in s[1..] ==> x in s;
      CountKeyedAtMost(s[1..], key, k, sub);
    }
  }

  /** A non-empty group has at least one distinct value in any column. */
  lemma KeysWithinNonEmpty<T, K, V>(s: seq<T>, key: T -> Option<K>, k: K, proj: T -> V)
    ensures CountKey(s, key, k) > 0 ==> |Keys(s, Within(key, k, proj))| >= 1
  {
    CountKeyPositive(s, key, k);
    if CountKey(s, key, k) > 0 {
      var i :| 0 <= i < |s| && key(s[i]) == Some(k);
      assert Within(key, k, proj)(s[i]).Some?;
    }
  }

  /** Two key functions that put the same rows in the groups `k1` and `k2`
      give those groups the same sum. */
  lemma {:induction false} SumKeyAgree<T, K1, K2>(s: seq<T>, key1: T -> Option<K1>, k1: K1,
                                                   key2: T -> Option<K2>, k2: K2, w: T -> int)
    requires forall x :: x in s ==> (key1(x) == Some(k1) <==> key2(x) == Some(k2))
    ensures SumKey(s, key1, w, k1) == SumKey(s, key2, w, k2)
  {
    if s != [] {
      assert forall x :: x in s[1..] ==> x in s;
      SumKeyAgree(s[1..], key1, k1, key2, k2, w);
    }
  }

  /** When every row belongs to a group, the grouped rows are all the rows. */
  lemma {:induction false} CountKeyedAll<T, K>(s: seq<T>, key: T -> Option<K>)
    requires forall x :: x in s ==> key(x).Some?
    ensures CountKeyed(s, key) == |s|
  {
    if s != [] {
      assert forall x :: x in s[1..] ==> x in s;
      CountKeyedAll(s[1..], key);
    }
  }

  /** Sum of a weight over all rows. */
  function Sum<T>(s: seq<T>, w: T -> int): int
  {
    if s == [] then 0 else w(s[0]) + Sum(s[1..], w)
  }

  /** When every row belongs to a group, the grouped sum is the plain sum. */
  lemma {:induction false} SumKeyedAll<T, K>(s: seq<T>, key: T -> Option<K>, w: T -> int)
    requires forall x :: x in s ==> key(x).Some?
    ensures SumKeyed(s, key, w) == Sum(s, w)
  {
    if s != [] {
      assert forall x :: x in s[1..] ==> x in s;
      SumKeyedAll(s[1..], key, w);
    }
  }

  /** A mask applied to a list without repetitions has none either. */
  lemma {:induction false} FilterDistinct<T>(s: seq<T>, p: T -> bool)
    requires Distinct(s)
    ensures Distinct(Filter(s, p))
  {
    if s != [] {
      var rest := s[1..];
      assert Distinct(rest) by {
        forall i, j | 0 <= i < j < |rest| ensures rest[i] != rest[j] {
          assert rest[i] == s[i + 1] && rest[j] == s[j + 1];
        }
      }
      FilterDistinct(rest, p);
      assert s[0] !in rest by {
        forall i | 0 <= i < |rest| ensures rest[i] != s[0] {
          assert rest[i] == s[i + 1];
        }
      }
    }
  }

  /** The column `f` of a list of rows. */
  function Project<A, B>(s: seq<A>, f: A -> B): (r: seq<B>)
    ensures |r| == |s|
    ensures forall i :: 0 <= i < |s| ==> r[i] == f(s[i])
  {
    seq(|s|, i requires 0 <= i < |s| => f(s[i]))
  }

  /** A column that tells distinct rows apart has no repetitions. */
  lemma ProjectDistinct<A, B>(s: seq<A>, f: A -> B)
    requires Distinct(s)
    requires forall i, j :: 0 <= i < |s| && 0 <= j < |s| && f(s[i]) == f(s[j]) ==> s[i] == s[j]
    ensures Distinct(Project(s, f))
  {
  }

  /** Counting the grouped rows is counting with the mask "has a group". */
  lemma {:induction false} CountKeyedIsCount<T, K>(s: seq<T>, key: T -> Option<K>, p: T -> bool)
    requires forall x :: x in s ==> (p(x) <==> key(x).Some?)
    ensures CountKeyed(s, key) == Count(s, p)
  {
    if s != [] {
      assert forall x :: x in s[1..] ==> x in s;
      CountKeyedIsCount(s[1..], key, p);
    }
  }

  lemma InFilter<T>(s: seq<T>, p: T -> bool, x: T)
    requires x in s && p(x)
    ensures x in Filter(s, p)
  {
    var i :| 0 <= i < |s| && s[i] == x;
  }

  lemma InProject<A, B>(s: seq<A>, f: A -> B, x: A)
    requires x in s
    ensures f(x) in Project(s, f)
  {
    var i :| 0 <= i < |s| && s[i] == x;
    assert Project(s, f)[i] == f(x);
  }

  lemma {:induction false} CountAtMostLength<T>(s: seq<T>, p: T -> bool)
    ensures Count(s, p) <= |s|
  {
    if s != [] {
      CountAtMostLength(s[1..], p);
    }
  }

  /** A group whose rows fall into two disjoint sub-groupings sums to the
      sum of the two. */
  lemma {:induction false} SumKeySplit<T, K, V>(s: seq<T>, key: T -> Option<K>, k: K,
                                                  a: T -> Option<V>, b: T -> Option<K>, w: T -> int)
    requires forall x :: x in s ==> (key(x) == Some(k) <==> a(x).Some? || b(x) == Some(k))
    requires forall x :: x in s ==> !(a(x).Some? && b(x) == Some(k))
    ensures SumKey(s, key, w, k) == SumKeyed(s, a, w) + SumKey(s, b, w, k)
  {
    if s != [] {
      assert forall x :: x in s[1..] ==> x in s;
      SumKeySplit(s[1..], key, k, a, b, w);
    }
  }

  /** Sum of a real-valued weight over all rows. */
  function SumR<T>(s: seq<T>, w: T -> real): real
  {
    if s == [] then 0.0 else w(s[0]) + SumR(s[1..], w)
  }

  /** A mask every row passes keeps the list as it is. */
  lemma {:induction false} FilterAll<T>(s: seq<T>, p: T -> bool)
    requires forall i :: 0 <= i < |s| ==> p(s[i])
    ensures Filter(s, p) == s
  {
    if s != [] {
      FilterAll(s[1..], p);
    }
  }

  /** The size of group `k` is the count of the mask "belongs to `k`". */
  lemma {:induction false} CountKeyIsCount<T, K>(s: seq<T>, key: T -> Option<K>, k: K, p: T -> bool)
    requires forall x :: x in s ==> (p(x) <==> key(x) == Some(k))
    ensures CountKey(s, key, k) == Count(s, p)
  {
    if s != [] {
      assert forall x :: x in s[1..] ==> x in s;
      CountKeyIsCount(s[1..], key, k, p);
    }
  }

  /** Two lists without repetitions and without common elements concatenate
      to a list without repetitions. */
  lemma DistinctConcat<K>(a: seq<K>, b: seq<K>)
    requires Distinct(a) && Distinct(b)
    requires forall x :: x in a ==> x !in b
    ensures Distinct(a + b)
  {
    var c := a + b;
    forall i, j | 0 <= i < j < |c| ensures c[i] != c[j] {
      if j < |a| {
        assert c[i] == a[i] && c[j] == a[j];
      } else if i >= |a| {
        assert c[i] == b[i - |a|] && c[j] == b[j - |a|];
      } else {
        assert c[i] == a[i] && c[j] == b[j - |a|];
        assert a[i] in a && b[j - |a|] in b;
      }
    }
  }

  /** `nunique`: the number of groups is the number of distinct keys among
      the grouped rows. */
  lemma KeysCount<T, K>(s: seq<T>, key: T -> Option<K>)
    ensures |Keys(s, key)| == |set x | x in s && key(x).Some? :: key(x).value|
  {
    var ks := Keys(s, key);
    DistinctCardinality(ks);
    var a := set k | k in ks;
    var b := set x | x in s && key(x).Some? :: key(x).value;
    forall k | k in a ensures k in b {
      var i :| 0 <= i < |s| && key(s[i]) == Some(k);
      assert s[i] in s;
    }
    forall k | k in b ensures k in a {
      var x :| x in s && key(x).Some? && key(x).value == k;
      var i :| 0 <= i < |s| && s[i] == x;
    }
    assert a == b;
  }

  /** The distinct values of the column `proj` among the rows of group `k`. */
  function ValuesIn<T(==), K(==), V>(s: seq<T>, key: T -> Option<K>, k: K, proj: T -> V): set<V> {
    set x | x in s && key(x) == Some(k) :: proj(x)
  }

  /** `nunique` of the column `proj` inside group `k`: the number of
      distinct values of `proj` among the rows of `k`. */
  lemma WithinCount<T, K, V>(s: seq<T>, key: T -> Option<K>, k: K, proj: T -> V)
    ensures |Keys(s, Within(key, k, proj))| == |ValuesIn(s, key, k, proj)|
  {
    KeysCount(s, Within(key, k, proj));
    var w := Within(key, k, proj);
    assert (set x | x in s && w(x).Some? :: w(x).value) == ValuesIn(s, key, k, proj);
  }

  /** A mask keeps every row that passes as often as it occurs, and no
      other row. */
  lemma {:induction false} FilterMultiset<T>(s: seq<T>, p: T -> bool)
    ensures forall t :: multiset(Filter(s, p))[t] == if p(t) then multiset(s)[t] else 0
  {
    if s != [] {
      FilterMultiset(s[1..], p);
      assert s == [s[0]] + s[1..];
      var head: seq<T> := if p(s[0]) then [s[0]] else [];
      assert Filter(s, p) == head + Filter(s[1..], p);
      assert multiset(Filter(s, p)) == multiset(head) + multiset(Filter(s[1..], p));
      assert multiset(s) == multiset{s[0]} + multiset(s[1..]);
    }
  }

  /** A mask works row by row. */
  lemma {:induction false} FilterConcat<T>(a: seq<T>, b: seq<T>, p: T -> bool)
    ensures Filter(a + b, p) == Filter(a, p) + Filter(b, p)
  {
    if a != [] {
      assert (a + b)[0] == a[0] && (a + b)[1..] == a[1..] + b;
      FilterConcat(a[1..], b, p);
    } else {
      assert a + b == b;
    }
  }

  /** `FilterMap` works row by row. */
  lemma {:induction false} FilterMapConcat<A, B>(a: seq<A>, b: seq<A>, f: A -> Option<B>)
    ensures FilterMap(a + b, f) == FilterMap(a, f) + FilterMap(b, f)
  {
    if a != [] {
      assert (a + b)[0] == a[0] && (a + b)[1..] == a[1..] + b;
      FilterMapConcat(a[1..], b, f);
    } else {
      assert a + b == b;
    }
  }

  /** Sum of a real-valued weight over group `k` of a total key. */
  function SumRKey<T, K(==)>(s: seq<T>, key: T -> K, w: T -> real, k: K): real
  {
    if s == [] then 0.0 else (if key(s[0]) == k then w(s[0]) else 0.0) + SumRKey(s[1..], key, w, k)
  }

  /** Sum of the real group sums of the groups listed in `ks`. */
  function SumROver<T, K(==)>(ks: seq<K>, s: seq<T>, key: T -> K, w: T -> real): real
  {
    if ks == [] then 0.0 else SumRKey(s, key, w, ks[0]) + SumROver(ks[1..], s, key, w)
  }

  /** The weight `v` of one row with key `k`, once per entry of `ks` it hits. */
  function HitR<K(==)>(ks: seq<K>, k: K, v: real): real
  {
    if ks == [] then 0.0 else (if ks[0] == k then v else 0.0) + HitR(ks[1..], k, v)
  }

  lemma {:induction false} HitRDistinct<K>(ks: seq<K>, k: K, v: real)
    requires Distinct(ks)
    ensures HitR(ks, k, v) == if k in ks then v else 0.0
  {
    if ks != [] {
      HitRDistinct(ks[1..], k, v);
      if ks[0] == k {
        assert ks[0] !in ks[1..] by {
          forall i | 0 <= i < |ks[1..]| ensures ks[1..][i] != ks[0] {
            assert ks[1..][i] == ks[i + 1];
          }
        }
      }
    }
  }

  lemma {:induction false} SumROverHead<T, K>(ks: seq<K>, s: seq<T>, key: T -> K, w: T -> real)
    requires s != []
    ensures SumROver(ks, s, key, w) == HitR(ks, key(s[0]), w(s[0])) + SumROver(ks, s[1..], key, w)
  {
    if ks != [] {
      SumROverHead(ks[1..], s, key, w);
    }
  }

  lemma {:induction false} SumROverEmpty<T, K>(ks: seq<K>, key: T -> K, w: T -> real)
    ensures SumROver(ks, [], key, w) == 0.0
  {
    if ks != [] {
      SumROverEmpty(ks[1..], key, w);
    }
  }

  /** Summing real weights group by group over distinct keys that cover
      every row sums every row exactly once. */
  lemma {:induction false} PartitionSumR<T, K>(ks: seq<K>, s: seq<T>, key: T -> K, w: T -> real)
    requires Distinct(ks)
    requires forall x :: x in s ==> key(x) in ks
    ensures SumROver(ks, s, key, w) == SumR(s, w)
  {
    if s == [] {
      SumROverEmpty(ks, key, w);
    } else {
      SumROverHead(ks, s, key, w);
      HitRDistinct(ks, key(s[0]), w(s[0]));
      assert forall x :: x in s[1..] ==> x in s;
      PartitionSumR(ks, s[1..], key, w);
    }
  }

  /** Groups that all sum to `c` sum to `c` once per group. */
  lemma {:induction false} SumROverConstant<T, K>(ks: seq<K>, s: seq<T>, key: T -> K, w: T -> real, c: real)
    requires forall k :: k in ks ==> SumRKey(s, key, w, k) == c
    ensures SumROver(ks, s, key, w) == |ks| as real * c
  {
    if ks != [] {
      assert forall k :: k in ks[1..] ==> k in ks;
      SumROverConstant(ks[1..], s, key, w, c);
      assert SumRKey(s, key, w, ks[0]) == c;
      OneMore(|ks[1..]|, c);
    }
  }

  /** Groups that each weigh `c` weigh `c` once per group in total. */
  lemma SumOfConstantGroups<T, K>(ks: seq<K>, s: seq<T>, key: T -> K, w: T -> real, c: real)
    requires Distinct(ks)
    requires forall x :: x in s ==> key(x) in ks
    requires forall k :: k in ks ==> SumRKey(s, key, w, k) == c
    ensures SumR(s, w) == |ks| as real * c
  {
    SumROverConstant(ks, s, key, w, c);
    PartitionSumR(ks, s, key, w);
  }

  lemma OneMore(n: nat, c: real)
    ensures (n + 1) as real * c == c + n as real * c
  {
  }
}
