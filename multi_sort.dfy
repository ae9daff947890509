/** `MultiSort`: a list of int values, optionally paired with a list of keys, with integer
    statistics and a sort that reorders both lists together. The keyed sort is modelled as
    the code does it: it sorts the values in place first and then pairs each key with the
    value at the key's index in the SORTED list, skips values equal to the one visited just
    before (starting from 0), and visits largest-first when the sort is not descending. */
module MultiSort {
  import opened JavaInt
  import opened Wrappers

  // ---- sequence vocabulary ----

  predicate NonDecreasing(s: seq<int>)
  {
    forall i, j :: 0 <= i < j < |s| ==> s[i] <= s[j]
  }

  predicate NonIncreasing(s: seq<int>)
  {
    forall i, j :: 0 <= i < j < |s| ==> s[i] >= s[j]
  }

  /** `a` comes no later than `b` in the ascending (up) or the descending order. */
  predicate Le(up: bool, a: int, b: int)
  {
    if up then a <= b else a >= b
  }

  predicate Monotone(up: bool, s: seq<int>)
  {
    forall i, j :: 0 <= i < j < |s| ==> Le(up, s[i], s[j])
  }

  function Insert(x: int, s: seq<int>): (r: seq<int>)
    requires NonDecreasing(s)
    ensures NonDecreasing(r)
    ensures multiset(r) == multiset(s) + multiset{x}
  {
    if s == [] then [x]
    else if x <= s[0] then
      ConsNonDecreasing(x, s);
      [x] + s
    else
      var t := Insert(x, s[1..]);
      InsertAbove(x, s, t);
      ConsNonDecreasing(s[0], t);
      [s[0]] + t
  }

  lemma ConsNonDecreasing(h: int, t: seq<int>)
    requires NonDecreasing(t)
    requires t != [] ==> h <= t[0]
    ensures NonDecreasing([h] + t)
  {
    var r := [h] + t;
    forall i, j | 0 <= i < j < |r|
      ensures r[i] <= r[j]
    {
      if i == 0 {
        assert r[j] == t[j - 1];
        assert t[0] <= t[j - 1];
      } else {
        assert r[i] == t[i - 1] && r[j] == t[j - 1];
      }
    }
  }

  /** Inserting above the head keeps every element at least the head. */
  lemma InsertAbove(x: int, s: seq<int>, t: seq<int>)
    requires s != [] && NonDecreasing(s) && s[0] < x
    requires multiset(t) == multiset(s[1..]) + multiset{x}
    ensures t != [] ==> s[0] <= t[0]
    ensures multiset([s[0]] + t) == multiset(s) + multiset{x}
  {
    assert s == [s[0]] + s[1..];
    if t != [] {
      assert t[0] in multiset(t);
      if t[0] != x {
        assert t[0] in multiset(s[1..]);
        var k :| 0 <= k < |s[1..]| && s[1..][k] == t[0];
        assert s[k + 1] == t[0];
      }
    }
  }

  /** What `Collections.sort` leaves in a list of Integers: the ascending permutation. */
  function SortAsc(vs: seq<int>): (r: seq<int>)
    ensures NonDecreasing(r)
    ensures multiset(r) == multiset(vs)
  {
    if vs == [] then []
    else
      assert vs == [vs[0]] + vs[1..];
      Insert(vs[0], SortAsc(vs[1..]))
  }

  /** What `Collections.reverse` leaves. */
  function Reverse(s: seq<int>): (r: seq<int>)
    ensures |r| == |s|
    ensures forall i :: 0 <= i < |s| ==> r[i] == s[|s| - 1 - i]
  {
    if s == [] then [] else Reverse(s[1..]) + [s[0]]
  }

  /** Reversing keeps the values and turns ascending into descending order. */
  lemma {:induction false} ReverseProperties(s: seq<int>)
    ensures multiset(Reverse(s)) == multiset(s)
    ensures NonDecreasing(s) ==> NonIncreasing(Reverse(s))
  {
    if s != [] {
      ReverseProperties(s[1..]);
      assert s == [s[0]] + s[1..];
      assert Reverse(s) == Reverse(s[1..]) + [s[0]];
    }
  }

  /** The exact sum of the values. */
  function Sum(vs: seq<int>): int
  {
    if vs == [] then 0 else Sum(vs[..|vs| - 1]) + vs[|vs| - 1]
  }

  lemma {:induction false} SumBounds(vs: seq<int>, lo: int, hi: int)
    requires forall i :: 0 <= i < |vs| ==> lo <= vs[i] <= hi
    ensures lo * |vs| <= Sum(vs) <= hi * |vs|
  {
    if vs != [] {
      var n := |vs| - 1;
      SumBounds(vs[..n], lo, hi);
      assert lo * (n + 1) == lo * n + lo && hi * (n + 1) == hi * n + hi;
    }
  }

  /** `Collections.frequency` */
  function Occurrences(vs: seq<int>, v: int): (n: nat)
    ensures n == multiset(vs)[v]
  {
    if vs == [] then 0
    else
      assert vs == [vs[0]] + vs[1..];
      (if vs[0] == v then 1 else 0) + Occurrences(vs[1..], v)
  }

  /** `Collections.max` of a non-empty list. */
  function Max(vs: seq<int>): (m: int)
    requires vs != []
    ensures m in vs
    ensures forall i :: 0 <= i < |vs| ==> vs[i] <= m
  {
    if |vs| == 1 then vs[0]
    else
      var t := Max(vs[1..]);
      if vs[0] >= t then vs[0] else t
  }

  /** `Collections.min` of a non-empty list. */
  function Min(vs: seq<int>): (m: int)
    requires vs != []
    ensures m in vs
    ensures forall i :: 0 <= i < |vs| ==> m <= vs[i]
  {
    if |vs| == 1 then vs[0]
    else
      var t := Min(vs[1..]);
      if vs[0] <= t then vs[0] else t
  }

  // ---- the keyed sort, as a specification over the visit order ----

  /** The `lastValue` in force when the keyed loop reaches visit position i. It starts at 0
      and, since a skipped value equals it already, is always the previously visited value. */
  function Prev(vis: seq<int>, i: nat): int
    requires i <= |vis|
  {
    if i == 0 then 0 else vis[i - 1]
  }

  /** Whether visit position i is processed rather than skipped. */
  predicate Visited(vis: seq<int>, i: nat)
    requires i < |vis|
  {
    vis[i] != Prev(vis, i)
  }

  predicate AnyVisited(vis: seq<int>, k: nat)
    requires k <= |vis|
  {
    exists i :: 0 <= i < k && Visited(vis, i)
  }

  /** The inner loop: indices j < m of the sorted list s whose value is v, in order. */
  function MatchIdx(s: seq<int>, v: int, m: nat): (r: seq<nat>)
    requires m <= |s|
    ensures forall t :: 0 <= t < |r| ==> r[t] < m && s[r[t]] == v
    ensures forall a, b :: 0 <= a < b < |r| ==> r[a] < r[b]
    ensures forall j :: 0 <= j < m && s[j] == v ==> j in r
  {
    if m == 0 then []
    else MatchIdx(s, v, m - 1) + (if s[m - 1] == v then [m - 1] else [])
  }

  /** The indices picked by the first k visit positions of the outer loop; the keys output
      are the keys at these indices and the values output the sorted values there. */
  function Picks(vis: seq<int>, k: nat, s: seq<int>, m: nat): (r: seq<nat>)
    requires k <= |vis| && m <= |s|
    ensures forall t :: 0 <= t < |r| ==> r[t] < m
  {
    if k == 0 then []
    else Picks(vis, k - 1, s, m) + (if Visited(vis, k - 1) then MatchIdx(s, vis[k - 1], m) else [])
  }

  function Project<T>(xs: seq<T>, idx: seq<nat>): (r: seq<T>)
    requires forall t :: 0 <= t < |idx| ==> idx[t] < |xs|
    ensures |r| == |idx|
    ensures forall t :: 0 <= t < |idx| ==> r[t] == xs[idx[t]]
  {
    seq(|idx|, t requires 0 <= t < |idx| => xs[idx[t]])
  }

  lemma ProjectAppend<T>(xs: seq<T>, p: seq<nat>, q: seq<nat>)
    requires forall t :: 0 <= t < |p| ==> p[t] < |xs|
    requires forall t :: 0 <= t < |q| ==> q[t] < |xs|
    ensures Project(xs, p + q) == Project(xs, p) + Project(xs, q)
  {
  }

  /** An index is picked exactly when the key exists and its sorted value is visited. */
  lemma {:induction false} PicksMembership(vis: seq<int>, k: nat, s: seq<int>, m: nat, j: nat)
    requires k <= |vis| && m <= |s|
    ensures j in Picks(vis, k, s, m) <==>
      j < m && exists i :: 0 <= i < k && Visited(vis, i) && vis[i] == s[j]
  {
    if k > 0 {
      PicksMembership(vis, k - 1, s, m, j);
      if j < m && Visited(vis, k - 1) && vis[k - 1] == s[j] {
        assert j in MatchIdx(s, vis[k - 1], m);
      }
    }
  }

  lemma LeTrans(up: bool, a: int, b: int, c: int)
    requires Le(up, a, b) && Le(up, b, c)
    ensures Le(up, a, c)
    ensures b != c ==> a != c
  {
  }

  /** The values at the indices p follow the order `up`, and no index repeats. */
  predicate Ordered(up: bool, s: seq<int>, p: seq<nat>)
    requires forall t :: 0 <= t < |p| ==> p[t] < |s|
  {
    forall a, b :: 0 <= a < b < |p| ==> Le(up, s[p[a]], s[p[b]]) && p[a] != p[b]
  }

  lemma OrderedAppend(up: bool, s: seq<int>, p: seq<nat>, q: seq<nat>, pivot: int)
    requires forall t :: 0 <= t < |p| ==> p[t] < |s|
    requires forall t :: 0 <= t < |q| ==> q[t] < |s|
    requires Ordered(up, s, p) && Ordered(up, s, q)
    requires forall t :: 0 <= t < |p| ==> Le(up, s[p[t]], pivot) && s[p[t]] != pivot
    requires forall t :: 0 <= t < |q| ==> s[q[t]] == pivot
    ensures Ordered(up, s, p + q)
  {
    var r := p + q;
    forall a, b | 0 <= a < b < |r|
      ensures Le(up, s[r[a]], s[r[b]]) && r[a] != r[b]
    {
      if b < |p| {
        assert r[a] == p[a] && r[b] == p[b];
      } else if a < |p| {
        assert r[a] == p[a] && r[b] == q[b - |p|];
      } else {
        assert r[a] == q[a - |p|] && r[b] == q[b - |p|];
      }
    }
  }

  /** Values no later than `prev` are no later than a `pivot` after it, and differ from a
      pivot that differs from `prev`. */
  lemma PrefixBelow(up: bool, s: seq<int>, p: seq<nat>, prev: int, pivot: int)
    requires forall t :: 0 <= t < |p| ==> p[t] < |s| && Le(up, s[p[t]], prev)
    requires Le(up, prev, pivot)
    ensures forall t :: 0 <= t < |p| ==> Le(up, s[p[t]], pivot) && (prev != pivot ==> s[p[t]] != pivot)
  {
    forall t | 0 <= t < |p|
      ensures Le(up, s[p[t]], pivot) && (prev != pivot ==> s[p[t]] != pivot)
    {
      LeTrans(up, s[p[t]], prev, pivot);
    }
  }

  lemma AppendBelow(up: bool, s: seq<int>, p: seq<nat>, q: seq<nat>, pivot: int)
    requires forall t :: 0 <= t < |p| ==> p[t] < |s| && Le(up, s[p[t]], pivot)
    requires forall t :: 0 <= t < |q| ==> q[t] < |s| && s[q[t]] == pivot
    ensures forall t :: 0 <= t < |p + q| ==> Le(up, s[(p + q)[t]], pivot)
  {
    forall t | 0 <= t < |p + q|
      ensures Le(up, s[(p + q)[t]], pivot)
    {
      if t >= |p| {
        assert (p + q)[t] == q[t - |p|];
      }
    }
  }

  /** The indices of one inner loop are in order and share their value. */
  lemma MatchIdxOrdered(up: bool, s: seq<int>, v: int, m: nat)
    requires m <= |s|
    ensures Ordered(up, s, MatchIdx(s, v, m))
  {
    var q := MatchIdx(s, v, m);
    forall a, b | 0 <= a < b < |q|
      ensures Le(up, s[q[a]], s[q[b]]) && q[a] != q[b]
    {
      assert s[q[a]] == v && s[q[b]] == v;
      assert q[a] < q[b];
    }
  }

  /** Over a monotone visit order, the values output follow that order, and no key is output
      twice. */
  lemma {:induction false} PicksOrdered(up: bool, vis: seq<int>, k: nat, s: seq<int>, m: nat)
    requires k <= |vis| && m <= |s|
    requires Monotone(up, vis)
    ensures Ordered(up, s, Picks(vis, k, s, m))
  {
    if k > 0 {
      PicksOrdered(up, vis, k - 1, s, m);
      var p0 := Picks(vis, k - 1, s, m);
      var pivot := vis[k - 1];
      if Visited(vis, k - 1) {
        var blk := MatchIdx(s, pivot, m);
        assert Picks(vis, k, s, m) == p0 + blk;
        if k >= 2 {
          PicksBelow(up, vis, k - 1, s, m);
          assert Le(up, vis[k - 2], pivot);
          PrefixBelow(up, s, p0, vis[k - 2], pivot);
        }
        MatchIdxOrdered(up, s, pivot, m);
        OrderedAppend(up, s, p0, blk, pivot);
      } else {
        assert Picks(vis, k, s, m) == p0;
      }
    }
  }

  /** Over a monotone visit order, no value output lies past the value being visited. */
  lemma {:induction false} PicksBelow(up: bool, vis: seq<int>, k: nat, s: seq<int>, m: nat)
    requires 0 < k <= |vis| && m <= |s|
    requires Monotone(up, vis)
    ensures forall t :: 0 <= t < |Picks(vis, k, s, m)| ==> Le(up, s[Picks(vis, k, s, m)[t]], vis[k - 1])
  {
    var p0 := Picks(vis, k - 1, s, m);
    var pivot := vis[k - 1];
    if k >= 2 {
      PicksBelow(up, vis, k - 1, s, m);
      assert Le(up, vis[k - 2], pivot);
      PrefixBelow(up, s, p0, vis[k - 2], pivot);
    }
    if Visited(vis, k - 1) {
      var blk := MatchIdx(s, pivot, m);
      assert Picks(vis, k, s, m) == p0 + blk;
      AppendBelow(up, s, p0, blk, pivot);
    } else {
      assert Picks(vis, k, s, m) == p0;
    }
  }

  /** With `lastValue` starting at 0, a zero at the front of the visit order is never visited,
      so over a monotone order the keys whose sorted value is 0 are all dropped. */
  lemma LeadingZeroDropped(up: bool, vis: seq<int>, s: seq<int>, m: nat, j: nat)
    requires m <= |s| && Monotone(up, vis)
    requires vis != [] && vis[0] == 0 && j < |s| && s[j] == 0
    ensures j !in Picks(vis, |vis|, s, m)
  {
    PicksMembership(vis, |vis|, s, m, j);

  }

  /** The visit order of the keyed loop: largest first when not descending, smallest first
      when descending. */
  function VisitOrder(s: seq<int>, descending: bool): seq<int>
  {
    if descending then s else Reverse(s)
  }

  /** The keyed sort throws (`IndexOutOfBoundsException` at `getValues().get(j)`) once a value
      is visited while there are more keys than values. */
  predicate Throws(s: seq<int>, descending: bool, nKeys: nat)
  {
    nKeys > |s| && AnyVisited(VisitOrder(s, descending), |s|)
  }

  /** Keys [10, 20] with values [2, 1], sorted descending: the output pairs 10 with 1 and 20
      with 2, because each key is matched against the sorted list. */
  lemma PairsFollowSortedList()
    ensures SortAsc([2, 1]) == [1, 2]
    ensures Project([10, 20], Picks([1, 2], 2, [1, 2], 2)) == [10, 20]
    ensures Project([1, 2], Picks([1, 2], 2, [1, 2], 2)) == [1, 2]
  {
    SortTwoOne();
    PicksBoth();
  }

  lemma SortTwoOne()
    ensures SortAsc([2, 1]) == [1, 2]
  {
    assert [2, 1][1..] == [1];
    assert [1][1..] == [];
    assert SortAsc([1]) == [1];
    assert Insert(2, [1]) == [1] + Insert(2, []);
  }

  lemma PicksBoth()
    ensures Picks([1, 2], 2, [1, 2], 2) == [0, 1]
  {
    var s := [1, 2];
    assert MatchIdx(s, 1, 2) == [0];
    assert MatchIdx(s, 2, 2) == [1];
    assert Picks(s, 1, s, 2) == [0];
  }

  /** How many key indices the keyed loop can pair before `getValues().get(j)` would fail. */
  function Paired(nKeys: nat, s: seq<int>): (m: nat)
    ensures m <= |s| && m <= nKeys
    ensures m == nKeys || m == |s|
  {
    if nKeys <= |s| then nKeys else |s|
  }

  /** The keys output by a keyed sort of the sorted values s: the keys at the picked indices. */
  function KeysOut<K>(keys: seq<K>, s: seq<int>, descending: bool): (r: seq<K>)
    ensures |r| == |Picks(VisitOrder(s, descending), |s|, s, Paired(|keys|, s))|
  {
    Project(keys, Picks(VisitOrder(s, descending), |s|, s, Paired(|keys|, s)))
  }

  /** The values output alongside: the sorted values at the same indices. */
  function ValuesOut(s: seq<int>, descending: bool, nKeys: nat): (r: seq<int>)
    ensures |r| == |Picks(VisitOrder(s, descending), |s|, s, Paired(nKeys, s))|
  {
    Project(s, Picks(VisitOrder(s, descending), |s|, s, Paired(nKeys, s)))
  }

  lemma {:induction false} NothingVisitedNothingPicked(vis: seq<int>, k: nat, s: seq<int>, m: nat)
    requires k <= |vis| && m <= |s|
    requires !AnyVisited(vis, k)
    ensures Picks(vis, k, s, m) == []
  {
    if k > 0 {
      assert !Visited(vis, k - 1);
      NothingVisitedNothingPicked(vis, k - 1, s, m);
    }
  }

  lemma VisitOrderMonotone(s: seq<int>, descending: bool)
    requires NonDecreasing(s)
    ensures Monotone(descending, VisitOrder(s, descending))
  {
    ReverseProperties(s);
    var vis := VisitOrder(s, descending);
    forall i, j | 0 <= i < j < |vis|
      ensures Le(descending, vis[i], vis[j])
    {
    }
  }

  /** A keyed sort of sorted values outputs them descending when not descending and ascending
      when descending, and outputs no key twice. */
  lemma KeyedSortOutput(s: seq<int>, descending: bool, nKeys: nat)
    requires NonDecreasing(s)
    ensures Monotone(descending, ValuesOut(s, descending, nKeys))
    ensures var p := Picks(VisitOrder(s, descending), |s|, s, Paired(nKeys, s));
      forall a, b :: 0 <= a < b < |p| ==> p[a] != p[b]
  {
    var vis := VisitOrder(s, descending);
    VisitOrderMonotone(s, descending);
    var p := Picks(vis, |s|, s, Paired(nKeys, s));
    PicksOrdered(descending, vis, |s|, s, Paired(nKeys, s));
    var r := ValuesOut(s, descending, nKeys);
    forall a, b | 0 <= a < b < |r|
      ensures Le(descending, r[a], r[b])
    {
      assert r[a] == s[p[a]] && r[b] == s[p[b]];
    }
  }

  // ---- the object ----

  class MultiSort<K> {
    var keyList: Option<seq<K>>
    var valueList: Option<seq<int>>
    var isSortDescending: bool
    var isSorted: bool

    /** `MultiSort(int[])` and `MultiSort(Collection<Integer>)` */
    constructor FromValues(values: seq<int>)
      ensures keyList == None && valueList == Some(values)
      ensures !isSortDescending && !isSorted
    {
      keyList := None;
      valueList := Some(values);
      isSortDescending := false;
      isSorted := false;
    }

    /** `MultiSort(Object[], int[])` */
    constructor FromKeysAndValues(keys: seq<K>, values: seq<int>)
      ensures keyList == Some(keys) && valueList == Some(values)
      ensures !isSortDescending && !isSorted
    {
      keyList := Some(keys);
      valueList := Some(values);
      isSortDescending := false;
      isSorted := false;
    }

    /** `MultiSort(Map<?, Integer>)`: `entries` is the map's iteration order, which its key set
        and its values both follow. */
    constructor FromMap(entries: seq<(K, int)>)
      ensures keyList.Some? && valueList.Some?
      ensures |keyList.value| == |valueList.value| == |entries|
      ensures forall i :: 0 <= i < |entries| ==> (keyList.value[i], valueList.value[i]) == entries[i]
      ensures !isSortDescending && !isSorted
    {
      keyList := Some(seq(|entries|, i requires 0 <= i < |entries| => entries[i].0));
      valueList := Some(seq(|entries|, i requires 0 <= i < |entries| => entries[i].1));
      isSortDescending := false;
      isSorted := false;
    }

    /** `getValues`: the empty list when none is held. */
    function Values(): (vs: seq<int>)
      reads this
      ensures valueList.None? ==> vs == []
      ensures valueList.Some? ==> vs == valueList.value
    {
      if valueList.None? then [] else valueList.value
    }

    /** `getKeys`: the empty list when none is held. */
    function Keys(): (ks: seq<K>)
      reads this
      ensures keyList.None? ==> ks == []
      ensures keyList.Some? ==> ks == keyList.value
    {
      if keyList.None? then [] else keyList.value
    }

    /** `getCount` */
    function Count(): (n: nat)
      reads this
      ensures n == |Values()|
      ensures n == 0 <==> valueList.None? || valueList.value == []
    {
      |Values()|
    }

    /** `getFrequency` */
    function Frequency(v: int): (n: nat)
      reads this
      ensures n == multiset(Values())[v]
      ensures n <= Count()
    {
      Occurrences(Values(), v)
    }

    /** `getMaxValue`: None stands for the `NoSuchElementException` of an empty list. */
    function MaxValue(): (r: Option<int>)
      reads this
      ensures r.None? <==> Values() == []
      ensures r.Some? ==> r.value in Values() && forall i :: 0 <= i < |Values()| ==> Values()[i] <= r.value
    {
      if Values() == [] then None else Some(Max(Values()))
    }

    /** `getMinValue`: None stands for the `NoSuchElementException` of an empty list. */
    function MinValue(): (r: Option<int>)
      reads this
      ensures r.None? <==> Values() == []
      ensures r.Some? ==> r.value in Values() && forall i :: 0 <= i < |Values()| ==> r.value <= Values()[i]
    {
      if Values() == [] then None else Some(Min(Values()))
    }

    /** `getTotalValue`: the sum in Java `int` arithmetic, 0 for no values. */
    method GetTotalValue() returns (total: int)
      ensures total == Wrap32(Sum(Values()))
    {
      var vs := Values();
      if vs == [] {
        return 0;
      }
      total := 0;
      for i := 0 to |vs|
        invariant total == Wrap32(Sum(vs[..i]))
      {
        assert vs[..i + 1][..i] == vs[..i];
        Wrap32AddWrapped(Sum(vs[..i]), vs[i]);
        total := Wrap32(total + vs[i]);
      }
      assert vs[..|vs|] == vs;
    }

    /** `getMean`: total / count with Java's truncating division, -1 for no values. */
    method GetMean() returns (mean: int)
      ensures Values() == [] ==> mean == -1
      ensures Values() != [] ==> mean == Quot(Wrap32(Sum(Values())), |Values()|)
    {
      if Values() == [] {
        return -1;
      }
      var total := GetTotalValue();
      mean := Quot(total, Count());
    }

    method SetSortDescending(isDescending: bool)
      modifies this
      ensures isSortDescending == isDescending
      ensures keyList == old(keyList) && valueList == old(valueList) && isSorted == old(isSorted)
    {
      isSortDescending := isDescending;
    }

    /** `sort` */
    method Sort() returns (ok: bool)
      modifies this
      ensures isSortDescending == old(isSortDescending)
      ensures var s := SortAsc(old(Values()));
        var keys := old(Keys());
        var desc := old(isSortDescending);
        if keys == [] then
          && ok && isSorted == old(isSorted) && keyList == old(keyList)
          && valueList == (if old(valueList).None? then None else Some(if desc then Reverse(s) else s))
        else if Throws(s, desc, |keys|) then
          && !ok && isSorted == old(isSorted) && keyList == old(keyList) && valueList == Some(s)
        else
          && ok && isSorted
          && keyList == Some(KeysOut(keys, s, desc))
          && valueList == Some(ValuesOut(s, desc, |keys|))
    {
      var s := SortAsc(Values());
      if valueList.Some? {
        valueList := Some(s);
      }
      var keys := Keys();
      if keys == [] {
        if isSortDescending && valueList.Some? {
          valueList := Some(Reverse(s));
        }
        return true;
      }
      var fine, newKeys, newValues;
      if !isSortDescending {
        fine, newKeys, newValues := KeyedLargestFirst(keys, s);
      } else {
        fine, newKeys, newValues := KeyedSmallestFirst(keys, s);
      }
      if !fine {
        return false;
      }
      keyList := Some(newKeys);
      valueList := Some(newValues);
      isSorted := true;
      return true;
    }
  }

  /** The keyed branch of `sort` when not descending: walks the sorted values from the last
      index down, skipping a value equal to the one before it (0 at first). */
  method KeyedLargestFirst<K>(keys: seq<K>, s: seq<int>) returns (fine: bool, newKeys: seq<K>, newValues: seq<int>)
    ensures fine <==> !Throws(s, false, |keys|)
    ensures fine ==> newKeys == KeysOut(keys, s, false) && newValues == ValuesOut(s, false, |keys|)
  {
    var vis := Reverse(s);
    assert vis == VisitOrder(s, false);
    var m := Paired(|keys|, s);
    newKeys := [];
    newValues := [];
    var lastValue := 0;
    var i := |s| - 1;
    while i > -1
      invariant -1 <= i < |s|
      invariant lastValue == Prev(vis, |s| - 1 - i)
      invariant |keys| > |s| ==> !AnyVisited(vis, |s| - 1 - i)
      invariant newKeys == Project(keys, Picks(vis, |s| - 1 - i, s, m))
      invariant newValues == Project(s, Picks(vis, |s| - 1 - i, s, m))
    {
      var k := |s| - 1 - i;
      var currValue := s[i];
      assert currValue == vis[k];
      if currValue != lastValue {
        lastValue := currValue;
        var ok, ks, vs := CollectKeys(keys, s, currValue);
        if !ok {
          assert AnyVisited(vis, |s|) by { assert Visited(vis, k); }
          return false, newKeys, newValues;
        }
        ProjectAppend(keys, Picks(vis, k, s, m), MatchIdx(s, currValue, m));
        ProjectAppend(s, Picks(vis, k, s, m), MatchIdx(s, currValue, m));
        newKeys := newKeys + ks;
        newValues := newValues + vs;
      }
      i := i - 1;
    }
    if |keys| > |s| {
      NothingVisitedNothingPicked(vis, |s|, s, m);
    }
    fine := true;
  }

  /** The keyed branch of `sort` when descending: the same walk from the first index up. */
  method KeyedSmallestFirst<K>(keys: seq<K>, s: seq<int>) returns (fine: bool, newKeys: seq<K>, newValues: seq<int>)
    ensures fine <==> !Throws(s, true, |keys|)
    ensures fine ==> newKeys == KeysOut(keys, s, true) && newValues == ValuesOut(s, true, |keys|)
  {
    var vis := s;
    var m := Paired(|keys|, s);
    newKeys := [];
    newValues := [];
    var lastValue := 0;
    for i := 0 to |s|
      invariant lastValue == Prev(vis, i)
      invariant |keys| > |s| ==> !AnyVisited(vis, i)
      invariant newKeys == Project(keys, Picks(vis, i, s, m))
      invariant newValues == Project(s, Picks(vis, i, s, m))
    {
      var currValue := s[i];
      if currValue != lastValue {
        lastValue := currValue;
        var ok, ks, vs := CollectKeys(keys, s, currValue);
        if !ok {
          assert AnyVisited(vis, |s|) by { assert Visited(vis, i); }
          return false, newKeys, newValues;
        }
        ProjectAppend(keys, Picks(vis, i, s, m), MatchIdx(s, currValue, m));
        ProjectAppend(s, Picks(vis, i, s, m), MatchIdx(s, currValue, m));
        newKeys := newKeys + ks;
        newValues := newValues + vs;
      }
    }
    if |keys| > |s| {
      NothingVisitedNothingPicked(vis, |s|, s, m);
    }
    fine := true;
  }

  /** The inner loop of the keyed sort: walks every key index j and outputs the key and the
      value when the sorted list holds `currValue` at j; fails once j runs past the values. */
  method CollectKeys<K>(keys: seq<K>, s: seq<int>, currValue: int) returns (fine: bool, ks: seq<K>, vs: seq<int>)
    ensures fine <==> |keys| <= |s|
    ensures fine ==> ks == Project(keys, MatchIdx(s, currValue, |keys|))
    ensures fine ==> vs == Project(s, MatchIdx(s, currValue, |keys|))
  {
    ks := [];
    vs := [];
    for j := 0 to |keys|
      invariant j <= |s|
      invariant ks == Project(keys, MatchIdx(s, currValue, j))
      invariant vs == Project(s, MatchIdx(s, currValue, j))
    {
      if j >= |s| {
        return false, ks, vs;
      }
      if s[j] == currValue {
        ProjectAppend(keys, MatchIdx(s, currValue, j), [j]);
        ProjectAppend(s, MatchIdx(s, currValue, j), [j]);
        ks := ks + [keys[j]];
        vs := vs + [currValue];
      }
    }
    fine := true;
  }

  /** The mean lies between the smallest and the largest value when the total does not overflow. */
  lemma MeanBetween(vs: seq<int>, lo: int, hi: int)
    requires vs != [] && IsInt(Sum(vs))
    requires forall i :: 0 <= i < |vs| ==> lo <= vs[i] <= hi
    ensures lo <= Quot(Wrap32(Sum(vs)), |vs|) <= hi
  {
    SumBounds(vs, lo, hi);
    QuotBetween(Sum(vs), |vs|, lo, hi);
  }
}
