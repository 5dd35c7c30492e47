/**
 * The alias tables the path tracer samples light instances and emissive
 * triangles with (Vose's alias method). One builder serves both tables:
 * each weight becomes a bucket holding weight × N, buckets above one are
 * "overflown", the others "empty"; both lists are sorted, then every empty
 * bucket in turn is topped up from the largest overflown bucket, which
 * becomes its alias, until no bucket overflows.
 */
module AliasTables {
  import opened RealSums

  /** One table entry: the probability of keeping the bucket, and the bucket to use otherwise. */
  datatype Alias = Alias(cutOff: real, ki: nat)

  /** A (scaled weight, table index) pair, as kept in the two work lists. */
  datatype Bucket = Bucket(value: real, index: nat)

  /** A weight times the number of buckets: the bucket's expected share times N. */
  function Scale(w: real, numBuckets: nat): real
  {
    w * (numBuckets as real)
  }

  /** Each weight times the number of buckets. */
  function ScaledWeights(weights: seq<real>): (cut0: seq<real>)
    ensures |cut0| == |weights|
    ensures forall k :: 0 <= k < |weights| ==> cut0[k] == Scale(weights[k], |weights|)
  {
    seq(|weights|, k requires 0 <= k < |weights| => Scale(weights[k], |weights|))
  }

  /** The bucket of item k, appended at table index base + k. */
  function InitialBuckets(cut0: seq<real>, base: nat): (bs: seq<Bucket>)
    ensures |bs| == |cut0|
    ensures forall k :: 0 <= k < |bs| ==> bs[k] == Bucket(cut0[k], base + k)
  {
    seq(|cut0|, k requires 0 <= k < |cut0| => Bucket(cut0[k], base + k))
  }

  /** The entry of item k before balancing: its scaled weight, aliased to itself. */
  function InitialAliases(weights: seq<real>, base: nat): (t: seq<Alias>)
    ensures |t| == |weights|
    ensures forall k :: 0 <= k < |t| ==> t[k] == Alias(ScaledWeights(weights)[k], base + k)
  {
    seq(|weights|, k requires 0 <= k < |weights| => Alias(ScaledWeights(weights)[k], base + k))
  }

  /** The buckets of at most one, in order: the initial "empty" list. */
  function Deficient(bs: seq<Bucket>): seq<Bucket>
  {
    if bs == [] then []
    else Deficient(bs[..|bs| - 1]) + (if bs[|bs| - 1].value <= 1.0 then [bs[|bs| - 1]] else [])
  }

  /** The buckets above one, in order: the initial "overflown" list. */
  function Overflowing(bs: seq<Bucket>): seq<Bucket>
  {
    if bs == [] then []
    else Overflowing(bs[..|bs| - 1]) + (if bs[|bs| - 1].value > 1.0 then [bs[|bs| - 1]] else [])
  }

  /**
   * Every bucket goes to exactly one of the two lists: the empty list
   * holds the buckets of at most one (one included), the overflown list
   * those above one.
   */
  lemma {:induction false} SpreadPartitions(bs: seq<Bucket>)
    ensures multiset(Deficient(bs)) + multiset(Overflowing(bs)) == multiset(bs)
    ensures forall x :: x in Deficient(bs) ==> x.value <= 1.0
    ensures forall x :: x in Overflowing(bs) ==> x.value > 1.0
  {
    if bs != [] {
      var init := bs[..|bs| - 1];
      assert bs == init + [bs[|bs| - 1]];
      SpreadPartitions(init);
    }
  }

  lemma {:induction false} DeficientSnoc(bs: seq<Bucket>)
    requires bs != []
    ensures Deficient(bs) == Deficient(bs[..|bs| - 1]) + (if bs[|bs| - 1].value <= 1.0 then [bs[|bs| - 1]] else [])
  {
  }

  lemma {:induction false} OverflowingSnoc(bs: seq<Bucket>)
    requires bs != []
    ensures Overflowing(bs) == Overflowing(bs[..|bs| - 1]) + (if bs[|bs| - 1].value > 1.0 then [bs[|bs| - 1]] else [])
  {
  }

  /**
   * The spreading loop: appends one entry per weight, in order, at the end
   * of the table (which is not cleared first), and files each bucket under
   * overflown or empty.
   */
  method SpreadBuckets(table0: seq<Alias>, weights: seq<real>)
    returns (table: seq<Alias>, empty: seq<Bucket>, overflown: seq<Bucket>)
    ensures table == table0 + InitialAliases(weights, |table0|)
    ensures empty == Deficient(InitialBuckets(ScaledWeights(weights), |table0|))
    ensures overflown == Overflowing(InitialBuckets(ScaledWeights(weights), |table0|))
  {
    var numBuckets := |weights|;
    ghost var bs := InitialBuckets(ScaledWeights(weights), |table0|);
    ghost var cut0 := ScaledWeights(weights);
    table, empty, overflown := table0, [], [];
    for k := 0 to numBuckets
      invariant |table| == |table0| + k
      invariant forall j :: 0 <= j < |table0| ==> table[j] == table0[j]
      invariant forall j :: 0 <= j < k ==> table[|table0| + j] == Alias(cut0[j], |table0| + j)
      invariant empty == Deficient(bs[..k])
      invariant overflown == Overflowing(bs[..k])
    {
      var i := |table|;
      var alias := Alias(Scale(weights[k], numBuckets), i);
      assert alias.cutOff == cut0[k];
      assert bs[k] == Bucket(alias.cutOff, i);
      assert bs[..k + 1][..k] == bs[..k];
      DeficientSnoc(bs[..k + 1]);
      OverflowingSnoc(bs[..k + 1]);
      table := table + [alias];
      if alias.cutOff > 1.0 {
        overflown := overflown + [Bucket(alias.cutOff, i)];
      } else {
        empty := empty + [Bucket(alias.cutOff, i)];
      }
    }
    assert bs[..numBuckets] == bs;
    ghost var spread := table0 + InitialAliases(weights, |table0|);
    assert forall j :: 0 <= j < |table| ==> table[j] == spread[j];
  }

  /** Ascending by scaled weight, the order the comparator a.first < b.first gives. */
  predicate SortedByValue(bs: seq<Bucket>)
  {
    forall a, b :: 0 <= a < b < |bs| ==> bs[a].value <= bs[b].value
  }

  /** x inserted into a list before the first bucket of larger value. */
  function Insert(bs: seq<Bucket>, x: Bucket): (r: seq<Bucket>)
    ensures |r| == |bs| + 1
  {
    if bs == [] then [x]
    else if x.value <= bs[0].value then [x] + bs
    else [bs[0]] + Insert(bs[1..], x)
  }

  /** Inserting a bucket of at least lo among buckets of at least lo gives buckets of at least lo. */
  lemma {:induction false} InsertAbove(bs: seq<Bucket>, x: Bucket, lo: real)
    requires forall k :: 0 <= k < |bs| ==> bs[k].value >= lo
    requires x.value >= lo
    ensures forall k :: 0 <= k < |Insert(bs, x)| ==> Insert(bs, x)[k].value >= lo
  {
    if bs != [] && x.value > bs[0].value {
      InsertAbove(bs[1..], x, lo);
    }
  }

  /** Inserting adds exactly x. */
  lemma {:induction false} InsertPermutes(bs: seq<Bucket>, x: Bucket)
    ensures multiset(Insert(bs, x)) == multiset(bs) + multiset{x}
  {
    if bs != [] && x.value > bs[0].value {
      assert bs == [bs[0]] + bs[1..];
      InsertPermutes(bs[1..], x);
    }
  }

  /** Inserting into a sorted list keeps it sorted. */
  lemma {:induction false} InsertSorted(bs: seq<Bucket>, x: Bucket)
    requires SortedByValue(bs)
    ensures SortedByValue(Insert(bs, x))
  {
    if bs != [] && x.value > bs[0].value {
      var rest := bs[1..];
      assert SortedByValue(rest) by {
        forall a, b | 0 <= a < b < |rest| ensures rest[a].value <= rest[b].value
        {
          assert rest[a] == bs[a + 1] && rest[b] == bs[b + 1];
        }
      }
      InsertSorted(rest, x);
      InsertAbove(rest, x, bs[0].value);
      var r0 := Insert(rest, x);
      var r := Insert(bs, x);
      assert r == [bs[0]] + r0;
      forall a, b | 0 <= a < b < |r| ensures r[a].value <= r[b].value
      {
        assert r[b] == r0[b - 1];
        if a > 0 {
          assert r[a] == r0[a - 1];
        }
      }
    }
  }

  /**
   * std::sort of one work list by scaled weight. The order among equal
   * values is unspecified there; this sort is one of the orders it may give
   * and nothing below depends on it.
   */
  method SortByValue(bs: seq<Bucket>) returns (r: seq<Bucket>)
    ensures SortedByValue(r)
    ensures multiset(r) == multiset(bs)
  {
    r := [];
    for k := 0 to |bs|
      invariant SortedByValue(r)
      invariant multiset(r) == multiset(bs[..k])
    {
      assert bs[..k + 1] == bs[..k] + [bs[k]];
      InsertSorted(r, bs[k]);
      InsertPermutes(r, bs[k]);
      r := Insert(r, bs[k]);
    }
    assert bs[..|bs|] == bs;
  }

  // ---------------------------------------------------------------------
  // Bookkeeping for the balancing loop. cut[k] is the current scaled
  // weight of bucket k (table index base + k), closed[k] says that bucket k
  // has been topped up from an alias, and loc[k] says where bucket k sits:
  // at loc[k] in the empty list when loc[k] >= 0, at -loc[k] - 1 in the
  // overflown list otherwise.
  // ---------------------------------------------------------------------

  /** Every bucket is in exactly one of the two lists, carrying its current value. */
  ghost predicate Placed(base: nat, empty: seq<Bucket>, overflown: seq<Bucket>, cut: seq<real>, loc: seq<int>)
  {
    |loc| == |cut| && |empty| + |overflown| == |cut| &&
    (forall a :: 0 <= a < |empty| ==>
      base <= empty[a].index < base + |cut| && empty[a].value == cut[empty[a].index - base] &&
      loc[empty[a].index - base] == a && empty[a].value <= 1.0) &&
    (forall b :: 0 <= b < |overflown| ==>
      base <= overflown[b].index < base + |cut| && overflown[b].value == cut[overflown[b].index - base] &&
      loc[overflown[b].index - base] == -b - 1 && overflown[b].value > 1.0) &&
    (forall k :: 0 <= k < |cut| ==> Slot(base, empty, overflown, loc, k))
  }

  /** Bucket k is where loc[k] says. */
  ghost predicate Slot(base: nat, empty: seq<Bucket>, overflown: seq<Bucket>, loc: seq<int>, k: nat)
    requires k < |loc|
  {
    if 0 <= loc[k] then loc[k] < |empty| && empty[loc[k]].index == base + k
    else -loc[k] - 1 < |overflown| && overflown[-loc[k] - 1].index == base + k
  }

  /** The closed buckets are exactly the visited empty-list entries below one. */
  ghost predicate Visited(base: nat, empty: seq<Bucket>, overflown: seq<Bucket>, i: nat, closed: seq<bool>)
  {
    i <= |empty| &&
    (forall a :: 0 <= a < |empty| && base <= empty[a].index < base + |closed| ==>
      (closed[empty[a].index - base] <==> a < i && empty[a].value < 1.0)) &&
    (forall b :: 0 <= b < |overflown| && base <= overflown[b].index < base + |closed| ==>
      !closed[overflown[b].index - base])
  }

  /** Aliases stay in range, and a bucket points away from itself exactly when it is closed. */
  ghost predicate Aliased(table: seq<Alias>, base: nat, closed: seq<bool>)
  {
    |table| == base + |closed| &&
    forall j :: base <= j < |table| ==>
      base <= table[j].ki < |table| && (closed[j - base] <==> table[j].ki != j)
  }

  /** How far each open bucket is above one; closed buckets count zero. */
  function Excess(cut: seq<real>, closed: seq<bool>): (r: seq<real>)
    requires |closed| == |cut|
    ensures |r| == |cut|
  {
    seq(|cut|, k requires 0 <= k < |cut| => if closed[k] then 0.0 else cut[k] - 1.0)
  }

  /** What bucket p has handed out: 1 - cut[j] for every closed bucket j aliased to p. */
  function Received(table: seq<Alias>, base: nat, cut: seq<real>, closed: seq<bool>, p: nat): (r: seq<real>)
    requires |closed| == |cut| && |table| == base + |cut|
    ensures |r| == |cut|
  {
    seq(|cut|, j requires 0 <= j < |cut| =>
      if closed[j] && table[base + j].ki == base + p then 1.0 - cut[j] else 0.0)
  }

  /**
   * Nothing is created or lost: the open excess totals what it did at the
   * start, and every bucket's scaled weight is what it still holds plus
   * what it has handed to the buckets aliased to it.
   */
  ghost predicate Conserved(table: seq<Alias>, base: nat, cut0: seq<real>, cut: seq<real>, closed: seq<bool>)
  {
    |cut0| == |cut| && |closed| == |cut| && |table| == base + |cut| &&
    Sum(Excess(cut, closed)) == Sum(cut0) - (|cut| as real) &&
    forall p :: 0 <= p < |cut| ==> MassKept(table, base, cut0, cut, closed, p)
  }

  /** Bucket p's scaled weight is what it holds plus what it has handed out. */
  ghost predicate MassKept(table: seq<Alias>, base: nat, cut0: seq<real>, cut: seq<real>, closed: seq<bool>, p: nat)
    requires |cut0| == |cut| && |closed| == |cut| && |table| == base + |cut| && p < |cut|
  {
    cut0[p] == cut[p] + Sum(Received(table, base, cut, closed, p))
  }

  predicate AllNonneg(xs: seq<real>)
  {
    forall k :: 0 <= k < |xs| ==> xs[k] >= 0.0
  }

  /** The balancing loop's invariant. */
  ghost predicate BalanceInv(table0: seq<Alias>, table: seq<Alias>, cut0: seq<real>,
                             empty: seq<Bucket>, overflown: seq<Bucket>, i: nat,
                             cut: seq<real>, closed: seq<bool>, loc: seq<int>)
  {
    var base := |table0|;
    |closed| == |cut| && |cut0| == |cut| &&
    Placed(base, empty, overflown, cut, loc) &&
    Visited(base, empty, overflown, i, closed) &&
    Aliased(table, base, closed) &&
    (forall j :: 0 <= j < base ==> table[j] == table0[j]) &&
    Conserved(table, base, cut0, cut, closed) &&
    (AllNonneg(cut0) ==> AllNonneg(cut))
  }

  lemma {:induction false} RepeatCounts<T>(s: seq<T>, a: nat, b: nat)
    requires a < b < |s| && s[a] == s[b]
    ensures multiset(s)[s[a]] >= 2
  {
    assert s == s[..b] + [s[b]] + s[b + 1..];
    assert s[..b][a] == s[a];
  }

  lemma {:induction false} DistinctCounts<T>(s: seq<T>)
    requires forall a, b :: 0 <= a < b < |s| ==> s[a] != s[b]
    ensures forall x :: multiset(s)[x] <= 1
  {
    if s != [] {
      var init := s[..|s| - 1];
      assert s == init + [s[|s| - 1]];
      DistinctCounts(init);
      assert s[|s| - 1] !in init;
    }
  }

  /** Each listed bucket is one of the initial buckets: its index is in range and its value that item's. */
  ghost predicate Genuine(base: nat, cut0: seq<real>, bs: seq<Bucket>)
  {
    forall a :: 0 <= a < |bs| ==> base <= bs[a].index < base + |cut0| && bs[a].value == cut0[bs[a].index - base]
  }

  ghost predicate DistinctIndices(bs: seq<Bucket>)
  {
    forall a, b :: 0 <= a < b < |bs| ==> bs[a].index != bs[b].index
  }

  lemma {:induction false} SubBagGenuine(base: nat, cut0: seq<real>, bs: seq<Bucket>)
    requires multiset(bs) <= multiset(InitialBuckets(cut0, base))
    ensures Genuine(base, cut0, bs)
  {
    var all := InitialBuckets(cut0, base);
    forall a | 0 <= a < |bs|
      ensures base <= bs[a].index < base + |cut0| && bs[a].value == cut0[bs[a].index - base]
    {
      assert bs[a] in multiset(all);
      var k :| 0 <= k < |all| && all[k] == bs[a];
    }
  }

  lemma {:induction false} SubBagDistinct(base: nat, cut0: seq<real>, bs: seq<Bucket>)
    requires multiset(bs) <= multiset(InitialBuckets(cut0, base))
    requires Genuine(base, cut0, bs)
    ensures DistinctIndices(bs)
  {
    var all := InitialBuckets(cut0, base);
    DistinctCounts(all);
    forall a, b | 0 <= a < b < |bs| ensures bs[a].index != bs[b].index
    {
      if bs[a].index == bs[b].index {
        RepeatCounts(bs, a, b);
        assert false;
      }
    }
  }

  lemma {:induction false} SplitCovers(base: nat, cut0: seq<real>, empty: seq<Bucket>, overflown: seq<Bucket>, k: nat)
    requires multiset(empty) + multiset(overflown) == multiset(InitialBuckets(cut0, base))
    requires k < |cut0|
    ensures Bucket(cut0[k], base + k) in empty || Bucket(cut0[k], base + k) in overflown
  {
    var all := InitialBuckets(cut0, base);
    assert all[k] in multiset(all);
  }

  /** Where every bucket of two disjoint, duplicate-free lists sits. */
  lemma {:induction false} Positions(base: nat, n: nat, empty: seq<Bucket>, overflown: seq<Bucket>)
    returns (loc: seq<int>)
    requires forall a :: 0 <= a < |empty| ==> base <= empty[a].index < base + n
    requires forall b :: 0 <= b < |overflown| ==> base <= overflown[b].index < base + n
    requires DistinctIndices(empty) && DistinctIndices(overflown)
    requires forall a, b :: 0 <= a < |empty| && 0 <= b < |overflown| ==> empty[a].index != overflown[b].index
    ensures |loc| == n
    ensures forall a :: 0 <= a < |empty| ==> loc[empty[a].index - base] == a
    ensures forall b :: 0 <= b < |overflown| ==> loc[overflown[b].index - base] == -b - 1
  {
    loc := seq(n, k => 0);
    for a := 0 to |empty|
      invariant |loc| == n
      invariant forall a' :: 0 <= a' < a ==> loc[empty[a'].index - base] == a'
    {
      loc := loc[empty[a].index - base := a];
    }
    for b := 0 to |overflown|
      invariant |loc| == n
      invariant forall a :: 0 <= a < |empty| ==> loc[empty[a].index - base] == a
      invariant forall b' :: 0 <= b' < b ==> loc[overflown[b'].index - base] == -b' - 1
    {
      loc := loc[overflown[b].index - base := -b - 1];
    }
  }

  /** Every item's bucket has a position in one of the lists. */
  lemma {:induction false} PositionsCover(base: nat, cut0: seq<real>, empty: seq<Bucket>, overflown: seq<Bucket>, loc: seq<int>)
    requires multiset(empty) + multiset(overflown) == multiset(InitialBuckets(cut0, base))
    requires |loc| == |cut0|
    requires forall a :: 0 <= a < |empty| ==> base <= empty[a].index < base + |cut0| && loc[empty[a].index - base] == a
    requires forall b :: 0 <= b < |overflown| ==> base <= overflown[b].index < base + |cut0| && loc[overflown[b].index - base] == -b - 1
    ensures forall k :: 0 <= k < |cut0| ==> Slot(base, empty, overflown, loc, k)
  {
    forall k | 0 <= k < |cut0|
      ensures Slot(base, empty, overflown, loc, k)
    {
      SplitCovers(base, cut0, empty, overflown, k);
      if Bucket(cut0[k], base + k) in empty {
        var a :| 0 <= a < |empty| && empty[a] == Bucket(cut0[k], base + k);
      } else {
        var b :| 0 <= b < |overflown| && overflown[b] == Bucket(cut0[k], base + k);
      }
    }
  }

  /** The sorted lists still hold every bucket once: locate each of them. */
  lemma {:induction false} Locate(base: nat, cut0: seq<real>, empty: seq<Bucket>, overflown: seq<Bucket>)
    returns (loc: seq<int>)
    requires multiset(empty) + multiset(overflown) == multiset(InitialBuckets(cut0, base))
    requires forall a :: 0 <= a < |empty| ==> empty[a].value <= 1.0
    requires forall b :: 0 <= b < |overflown| ==> overflown[b].value > 1.0
    ensures Placed(base, empty, overflown, cut0, loc)
  {
    var n := |cut0|;
    SubBagGenuine(base, cut0, empty);
    SubBagGenuine(base, cut0, overflown);
    SubBagDistinct(base, cut0, empty);
    SubBagDistinct(base, cut0, overflown);
    assert |multiset(empty)| + |multiset(overflown)| == n;
    loc := Positions(base, n, empty, overflown);
    PositionsCover(base, cut0, empty, overflown, loc);
  }

  // Balancing steps. dst is the visited empty-list entry (below one), src
  // the last overflown entry; src gives 1 - dst.value to dst and becomes
  // its alias, and moves to the empty list once it is at most one.

  lemma {:induction false} PlacedStay(base: nat, empty: seq<Bucket>, overflown: seq<Bucket>, cut: seq<real>, loc: seq<int>, src: Bucket)
    requires Placed(base, empty, overflown, cut, loc) && overflown != []
    requires src.index == overflown[|overflown| - 1].index && src.value > 1.0
    ensures Placed(base, empty, overflown[|overflown| - 1 := src], cut[src.index - base := src.value], loc)
  {
    var o1 := overflown[|overflown| - 1 := src];
    var cut1 := cut[src.index - base := src.value];
    forall a | 0 <= a < |empty| ensures empty[a].value == cut1[empty[a].index - base]
    {
      assert loc[empty[a].index - base] == a;
    }
    forall b | 0 <= b < |o1| ensures o1[b].value == cut1[o1[b].index - base]
    {
      if b < |overflown| - 1 {
        assert loc[overflown[b].index - base] == -b - 1;
      }
    }
    forall k | 0 <= k < |cut1| ensures Slot(base, empty, o1, loc, k)
    {
      assert Slot(base, empty, overflown, loc, k);
    }
  }

  lemma {:induction false} PlacedMove(base: nat, empty: seq<Bucket>, overflown: seq<Bucket>, cut: seq<real>, loc: seq<int>, src: Bucket)
    requires Placed(base, empty, overflown, cut, loc) && overflown != []
    requires src.index == overflown[|overflown| - 1].index && src.value <= 1.0
    ensures var s := src.index - base;
      Placed(base, empty + [src], overflown[..|overflown| - 1], cut[s := src.value], loc[s := |empty|])
  {
    var s := src.index - base;
    var e1 := empty + [src];
    var o1 := overflown[..|overflown| - 1];
    var cut1 := cut[s := src.value];
    var loc1 := loc[s := |empty|];
    forall a | 0 <= a < |e1|
      ensures base <= e1[a].index < base + |cut1| && e1[a].value == cut1[e1[a].index - base] &&
              loc1[e1[a].index - base] == a && e1[a].value <= 1.0
    {
      if a < |empty| {
        assert loc[empty[a].index - base] == a;
      }
    }
    forall b | 0 <= b < |o1|
      ensures base <= o1[b].index < base + |cut1| && o1[b].value == cut1[o1[b].index - base] &&
              loc1[o1[b].index - base] == -b - 1 && o1[b].value > 1.0
    {
      assert o1[b] == overflown[b];
      assert loc[overflown[b].index - base] == -b - 1;
    }
    forall k | 0 <= k < |cut1|
      ensures Slot(base, e1, o1, loc1, k)
    {
      assert Slot(base, empty, overflown, loc, k);
      if k != s && loc[k] < 0 {
        assert -loc[k] - 1 != |overflown| - 1;
        assert o1[-loc[k] - 1] == overflown[-loc[k] - 1];
      }
    }
  }

  lemma {:induction false} VisitedStay(base: nat, empty: seq<Bucket>, overflown: seq<Bucket>, i: nat,
                                       cut: seq<real>, closed: seq<bool>, loc: seq<int>, x: Bucket)
    requires Placed(base, empty, overflown, cut, loc) && Visited(base, empty, overflown, i, closed)
    requires |closed| == |cut| && overflown != [] && i < |empty| && empty[i].value < 1.0
    requires x.index == overflown[|overflown| - 1].index
    ensures Visited(base, empty, overflown[|overflown| - 1 := x], i + 1, closed[empty[i].index - base := true])
  {
    var d := empty[i].index - base;
    var closed1 := closed[d := true];
    var o1 := overflown[|overflown| - 1 := x];
    forall a | 0 <= a < |empty| && base <= empty[a].index < base + |closed1|
      ensures closed1[empty[a].index - base] <==> a < i + 1 && empty[a].value < 1.0
    {
      assert loc[empty[a].index - base] == a;
    }
    forall b | 0 <= b < |o1| && base <= o1[b].index < base + |closed1|
      ensures !closed1[o1[b].index - base]
    {
      assert o1[b].index == overflown[b].index;
      assert loc[overflown[b].index - base] == -b - 1;
    }
  }

  lemma {:induction false} VisitedMove(base: nat, empty: seq<Bucket>, overflown: seq<Bucket>, i: nat,
                                      cut: seq<real>, closed: seq<bool>, loc: seq<int>, x: Bucket)
    requires Placed(base, empty, overflown, cut, loc) && Visited(base, empty, overflown, i, closed)
    requires |closed| == |cut| && overflown != [] && i < |empty| && empty[i].value < 1.0
    requires x.index == overflown[|overflown| - 1].index
    ensures Visited(base, empty + [x], overflown[..|overflown| - 1], i + 1, closed[empty[i].index - base := true])
  {
    var d := empty[i].index - base;
    var closed1 := closed[d := true];
    var e1 := empty + [x];
    var o1 := overflown[..|overflown| - 1];
    forall a | 0 <= a < |e1| && base <= e1[a].index < base + |closed1|
      ensures closed1[e1[a].index - base] <==> a < i + 1 && e1[a].value < 1.0
    {
      if a < |empty| {
        assert loc[empty[a].index - base] == a;
      } else {
        assert loc[x.index - base] == -|overflown|;
      }
    }
    forall b | 0 <= b < |o1| && base <= o1[b].index < base + |closed1|
      ensures !closed1[o1[b].index - base]
    {
      assert o1[b] == overflown[b];
      assert loc[overflown[b].index - base] == -b - 1;
    }
  }

  lemma {:induction false} AliasedTransfer(table: seq<Alias>, base: nat, closed: seq<bool>, d: nat, srcIndex: nat)
    requires Aliased(table, base, closed)
    requires d < |closed| && !closed[d]
    requires base <= srcIndex < base + |closed| && srcIndex != base + d
    ensures Aliased(table[base + d := table[base + d].(ki := srcIndex)], base, closed[d := true])
  {
  }

  lemma {:induction false} ExcessTransfer(cut: seq<real>, closed: seq<bool>, d: nat, s: nat, rem: real)
    requires |closed| == |cut| && d < |cut| && s < |cut| && d != s
    requires !closed[d] && !closed[s]
    requires rem == cut[s] - (1.0 - cut[d])
    ensures Sum(Excess(cut[s := rem], closed[d := true])) == Sum(Excess(cut, closed))
  {
    var x0 := Excess(cut, closed);
    var x1 := x0[d := 0.0];
    assert Excess(cut[s := rem], closed[d := true]) == x1[s := rem - 1.0];
    SumUpdate(x0, d, 0.0);
    SumUpdate(x1, s, rem - 1.0);
  }

  lemma {:induction false} ReceivedTransfer(table: seq<Alias>, base: nat, cut: seq<real>, closed: seq<bool>,
                                            d: nat, s: nat, rem: real, p: nat)
    requires |closed| == |cut| && |table| == base + |cut| && d < |cut| && s < |cut| && d != s
    requires !closed[d] && !closed[s]
    requires rem == cut[s] - (1.0 - cut[d])
    ensures var table1 := table[base + d := table[base + d].(ki := base + s)];
      Sum(Received(table1, base, cut[s := rem], closed[d := true], p)) ==
        Sum(Received(table, base, cut, closed, p)) + (if p == s then 1.0 - cut[d] else 0.0)
  {
    var table1 := table[base + d := table[base + d].(ki := base + s)];
    var r0 := Received(table, base, cut, closed, p);
    assert r0[d] == 0.0;
    assert Received(table1, base, cut[s := rem], closed[d := true], p) == r0[d := if p == s then 1.0 - cut[d] else 0.0];
    SumUpdate(r0, d, if p == s then 1.0 - cut[d] else 0.0);
  }

  lemma {:induction false} ConservedTransfer(table: seq<Alias>, base: nat, cut0: seq<real>, cut: seq<real>, closed: seq<bool>,
                                             d: nat, s: nat, rem: real)
    requires Conserved(table, base, cut0, cut, closed)
    requires d < |cut| && s < |cut| && d != s && !closed[d] && !closed[s]
    requires rem == cut[s] - (1.0 - cut[d])
    ensures Conserved(table[base + d := table[base + d].(ki := base + s)], base, cut0, cut[s := rem], closed[d := true])
  {
    var table1 := table[base + d := table[base + d].(ki := base + s)];
    ExcessTransfer(cut, closed, d, s, rem);
    var cut1 := cut[s := rem];
    var closed1 := closed[d := true];
    forall p | 0 <= p < |cut|
      ensures MassKept(table1, base, cut0, cut1, closed1, p)
    {
      assert MassKept(table, base, cut0, cut, closed, p);
      ReceivedTransfer(table, base, cut, closed, d, s, rem, p);
    }
  }

  /**
   * One topping-up step keeps the invariant: src, the last overflown
   * bucket with 1 - dst.value taken off, becomes dst's alias and either
   * moves to the empty list (at most one left) or stays where it was.
   */
  lemma {:induction false} TransferKept(table0: seq<Alias>, cut0: seq<real>, i: nat,
                                        table: seq<Alias>, empty: seq<Bucket>, overflown: seq<Bucket>,
                                        cut: seq<real>, closed: seq<bool>, loc: seq<int>,
                                        table1: seq<Alias>, empty1: seq<Bucket>, overflown1: seq<Bucket>,
                                        cut1: seq<real>, closed1: seq<bool>, loc1: seq<int>, src: Bucket)
    requires BalanceInv(table0, table, cut0, empty, overflown, i, cut, closed, loc)
    requires overflown != [] && i < |empty| && empty[i].value < 1.0
    requires src == overflown[|overflown| - 1].(value := overflown[|overflown| - 1].value - (1.0 - empty[i].value))
    requires table1 == table[empty[i].index := table[empty[i].index].(ki := src.index)]
    requires cut1 == cut[src.index - |table0| := src.value]
    requires closed1 == closed[empty[i].index - |table0| := true]
    requires src.value <= 1.0 ==> empty1 == empty + [src] && overflown1 == overflown[..|overflown| - 1] && loc1 == loc[src.index - |table0| := |empty|]
    requires src.value > 1.0 ==> empty1 == empty && overflown1 == overflown[|overflown| - 1 := src] && loc1 == loc
    ensures BalanceInv(table0, table1, cut0, empty1, overflown1, i + 1, cut1, closed1, loc1)
  {
    var base := |table0|;
    var dst := empty[i];
    var d := dst.index - base;
    var s := src.index - base;
    assert loc[d] == i && loc[s] == -|overflown|;
    assert !closed[d] && !closed[s];
    AliasedTransfer(table, base, closed, d, src.index);
    ConservedTransfer(table, base, cut0, cut, closed, d, s, src.value);
    if src.value <= 1.0 {
      PlacedMove(base, empty, overflown, cut, loc, src);
      VisitedMove(base, empty, overflown, i, cut, closed, loc, src);
    } else {
      PlacedStay(base, empty, overflown, cut, loc, src);
      VisitedStay(base, empty, overflown, i, cut, closed, loc, src);
    }
  }

  /** Skipping an empty-list entry of at least one keeps the invariant. */
  lemma {:induction false} SkipKeeps(table0: seq<Alias>, table: seq<Alias>, cut0: seq<real>,
                                     empty: seq<Bucket>, overflown: seq<Bucket>, i: nat,
                                     cut: seq<real>, closed: seq<bool>, loc: seq<int>)
    requires BalanceInv(table0, table, cut0, empty, overflown, i, cut, closed, loc)
    requires i < |empty| && empty[i].value >= 1.0
    ensures BalanceInv(table0, table, cut0, empty, overflown, i + 1, cut, closed, loc)
  {
    var base := |table0|;
    forall a | 0 <= a < |empty| && base <= empty[a].index < base + |closed|
      ensures closed[empty[a].index - base] <==> a < i + 1 && empty[a].value < 1.0
    {
      assert closed[empty[a].index - base] <==> a < i && empty[a].value < 1.0;
    }
  }

  /**
   * Once the loop stops, the overflown list is empty when the scaled
   * weights total the number of buckets: an overflown bucket left over
   * with every empty-list entry visited would leave a positive total
   * excess, where there is none.
   */
  lemma {:induction false} OverflowEmpties(table0: seq<Alias>, table: seq<Alias>, cut0: seq<real>,
                                           empty: seq<Bucket>, overflown: seq<Bucket>, i: nat,
                                           cut: seq<real>, closed: seq<bool>, loc: seq<int>)
    requires BalanceInv(table0, table, cut0, empty, overflown, i, cut, closed, loc)
    requires overflown == [] || i == |empty|
    requires Sum(cut0) == |cut0| as real
    ensures overflown == []
  {
    var base := |table0|;
    if overflown != [] {
      var x := Excess(cut, closed);
      forall k | 0 <= k < |cut| ensures x[k] >= 0.0
      {
        assert Slot(base, empty, overflown, loc, k);
        if 0 <= loc[k] {
          assert empty[loc[k]].index == base + k;
        } else {
          assert overflown[-loc[k] - 1].index == base + k;
        }
      }
      var s := overflown[0].index - base;
      assert x[s] > 0.0;
      SumAtLeastTerm(x, s);
      assert false;
    }
  }

  /** With nothing overflown and no excess left, every bucket never topped up holds exactly one. */
  lemma {:induction false} OpenBucketsFull(table0: seq<Alias>, table: seq<Alias>, cut0: seq<real>,
                                           empty: seq<Bucket>, i: nat,
                                           cut: seq<real>, closed: seq<bool>, loc: seq<int>)
    requires BalanceInv(table0, table, cut0, empty, [], i, cut, closed, loc)
    requires Sum(cut0) == |cut0| as real
    ensures forall k :: 0 <= k < |cut| && !closed[k] ==> cut[k] == 1.0
  {
    var base := |table0|;
    var x := Excess(cut, closed);
    forall k | 0 <= k < |cut| ensures x[k] <= 0.0
    {
      assert Slot(base, empty, [], loc, k);
      assert empty[loc[k]].index == base + k;
    }
    forall k | 0 <= k < |cut| && !closed[k] ensures cut[k] == 1.0
    {
      SumAtMostTerm(x, k);
    }
  }

  // ---------------------------------------------------------------------
  // What the finished table guarantees.
  // ---------------------------------------------------------------------

  /**
   * How item p gets sampled from the entries appended at base: bucket j
   * is drawn with probability 1/N, kept with probability cutOff, and
   * otherwise replaced by its alias. Entry j of the result is N times the
   * chance that drawing bucket j yields item p.
   */
  function Picks(table: seq<Alias>, base: nat, p: nat): (r: seq<real>)
    requires base <= |table|
    ensures |r| == |table| - base
  {
    seq(|table| - base, j requires 0 <= j < |table| - base =>
      (if j == p then table[base + j].cutOff else 0.0) +
      (if table[base + j].ki == base + p then 1.0 - table[base + j].cutOff else 0.0))
  }

  /**
   * The entries from base on form an alias table for the scaled weights:
   * every cutOff is a probability, and item p is sampled with probability
   * cut0[p] / N.
   */
  ghost predicate AliasTableOk(table: seq<Alias>, base: nat, cut0: seq<real>)
  {
    |table| == base + |cut0| &&
    (forall j :: base <= j < |table| ==> 0.0 <= table[j].cutOff <= 1.0) &&
    (forall p :: 0 <= p < |cut0| ==> Sum(Picks(table, base, p)) == cut0[p])
  }

  /** Non-negative weights that total one, as the normalised radiances are. */
  predicate IsDistribution(weights: seq<real>)
  {
    AllNonneg(weights) && Sum(weights) == 1.0
  }

  lemma {:induction false} ScaledWeightsSumTo(weights: seq<real>, k: nat)
    requires k <= |weights|
    ensures SumTo(ScaledWeights(weights), k) == SumTo(weights, k) * (|weights| as real)
  {
    if k > 0 {
      ScaledWeightsSumTo(weights, k - 1);
      assert ScaledWeights(weights)[k - 1] == weights[k - 1] * (|weights| as real);
    }
  }

  /** Scaling by N turns a distribution into weights that are non-negative and total N. */
  lemma {:induction false} ScaledDistribution(weights: seq<real>)
    requires IsDistribution(weights)
    ensures AllNonneg(ScaledWeights(weights))
    ensures Sum(ScaledWeights(weights)) == |weights| as real
  {
    ScaledWeightsSumTo(weights, |weights|);
    forall k | 0 <= k < |weights| ensures ScaledWeights(weights)[k] >= 0.0
    {
      assert weights[k] >= 0.0;
      assert ScaledWeights(weights)[k] == weights[k] * (|weights| as real);
    }
  }

  lemma {:induction false} ExcessStartTo(cut0: seq<real>, k: nat)
    requires k <= |cut0|
    ensures SumTo(Excess(cut0, seq(|cut0|, j => false)), k) == SumTo(cut0, k) - (k as real)
  {
    if k > 0 {
      ExcessStartTo(cut0, k - 1);
    }
  }

  lemma {:induction false} ZerosSumTo(xs: seq<real>, k: nat)
    requires k <= |xs|
    requires forall j :: 0 <= j < |xs| ==> xs[j] == 0.0
    ensures SumTo(xs, k) == 0.0
  {
    if k > 0 {
      ZerosSumTo(xs, k - 1);
    }
  }

  /** Right after spreading and sorting, nothing is closed and nothing has been handed out. */
  lemma {:induction false} BalanceStarts(table0: seq<Alias>, weights: seq<real>, empty: seq<Bucket>, overflown: seq<Bucket>, loc: seq<int>)
    requires Placed(|table0|, empty, overflown, ScaledWeights(weights), loc)
    ensures BalanceInv(table0, table0 + InitialAliases(weights, |table0|), ScaledWeights(weights), empty, overflown, 0,
                       ScaledWeights(weights), seq(|weights|, j => false), loc)
  {
    var base := |table0|;
    var cut0 := ScaledWeights(weights);
    var table := table0 + InitialAliases(weights, base);
    var closed := seq(|weights|, j => false);
    ExcessStartTo(cut0, |cut0|);
    forall p | 0 <= p < |cut0| ensures MassKept(table, base, cut0, cut0, closed, p)
    {
      ZerosSumTo(Received(table, base, cut0, closed, p), |cut0|);
    }
    forall j | base <= j < |table| ensures base <= table[j].ki < |table| && (closed[j - base] <==> table[j].ki != j)
    {
      assert table[j] == InitialAliases(weights, base)[j - base];
    }
  }

  /** Drawing bucket p itself never counts twice: its Picks entry is what it holds. */
  lemma {:induction false} PicksAreReceived(table0: seq<Alias>, balanced: seq<Alias>, cut0: seq<real>,
                                            empty: seq<Bucket>, i: nat,
                                            cut: seq<real>, closed: seq<bool>, loc: seq<int>,
                                            table: seq<Alias>, p: nat)
    requires BalanceInv(table0, balanced, cut0, empty, [], i, cut, closed, loc)
    requires forall k :: 0 <= k < |cut| && !closed[k] ==> cut[k] == 1.0
    requires |table| == |balanced|
    requires forall j :: |table0| <= j < |table| ==> table[j] == balanced[j].(cutOff := cut[j - |table0|])
    requires p < |cut|
    ensures Sum(Picks(table, |table0|, p)) == cut0[p]
  {
    var base := |table0|;
    var r := Received(balanced, base, cut, closed, p);
    assert MassKept(balanced, base, cut0, cut, closed, p);
    assert r[p] == 0.0;
    assert Picks(table, base, p) == r[p := cut[p]];
    SumUpdate(r, p, cut[p]);
  }

  /** After balancing with nothing left over, every new entry gets its bucket's final value, which lies in [0, 1]. */
  lemma {:induction false} FinalEntries(table0: seq<Alias>, balanced: seq<Alias>, cut0: seq<real>,
                                        empty: seq<Bucket>, i: nat,
                                        cut: seq<real>, closed: seq<bool>, loc: seq<int>, table: seq<Alias>)
    requires BalanceInv(table0, balanced, cut0, empty, [], i, cut, closed, loc)
    requires forall k :: 0 <= k < |cut| && !closed[k] ==> cut[k] == 1.0
    requires AllNonneg(cut0)
    requires |table| == |balanced|
    requires forall j :: 0 <= j < |table| ==>
      table[j] == if |table0| <= j && 0 <= loc[j - |table0|] < |empty| then balanced[j].(cutOff := cut[j - |table0|]) else balanced[j]
    ensures forall j :: |table0| <= j < |table| ==>
      table[j] == balanced[j].(cutOff := cut[j - |table0|]) && 0.0 <= table[j].cutOff <= 1.0
  {
    var base := |table0|;
    forall j | base <= j < |table|
      ensures table[j] == balanced[j].(cutOff := cut[j - base]) && 0.0 <= table[j].cutOff <= 1.0
    {
      var k := j - base;
      assert Slot(base, empty, [], loc, k);
      assert empty[loc[k]].index == base + k;
    }
  }

  /** The finished table samples each item in proportion to its weight. */
  lemma {:induction false} FinishedTable(table0: seq<Alias>, balanced: seq<Alias>, cut0: seq<real>,
                                         empty: seq<Bucket>, i: nat,
                                         cut: seq<real>, closed: seq<bool>, loc: seq<int>, table: seq<Alias>)
    requires BalanceInv(table0, balanced, cut0, empty, [], i, cut, closed, loc)
    requires Sum(cut0) == |cut0| as real && AllNonneg(cut0)
    requires |table| == |balanced|
    requires forall j :: 0 <= j < |table| ==>
      table[j] == if |table0| <= j && 0 <= loc[j - |table0|] < |empty| then balanced[j].(cutOff := cut[j - |table0|]) else balanced[j]
    ensures AliasTableOk(table, |table0|, cut0)
  {
    OpenBucketsFull(table0, balanced, cut0, empty, i, cut, closed, loc);
    FinalEntries(table0, balanced, cut0, empty, i, cut, closed, loc, table);
    forall p | 0 <= p < |cut0| ensures Sum(Picks(table, |table0|, p)) == cut0[p]
    {
      PicksAreReceived(table0, balanced, cut0, empty, i, cut, closed, loc, table, p);
    }
  }

  /**
   * One balancing step on an empty-list entry dst below one: the last
   * overflown bucket src gives up 1 - dst.value and becomes dst's alias;
   * once src is at most one it moves from the overflown list to the end
   * of the empty list.
   */
  method TopUp(table0: seq<Alias>, ghost cut0: seq<real>, i: nat,
               balanced: seq<Alias>, filled: seq<Bucket>, left: seq<Bucket>,
               ghost cut: seq<real>, ghost closed: seq<bool>, ghost loc: seq<int>)
    returns (balanced1: seq<Alias>, filled1: seq<Bucket>, left1: seq<Bucket>,
             ghost cut1: seq<real>, ghost closed1: seq<bool>, ghost loc1: seq<int>)
    requires BalanceInv(table0, balanced, cut0, filled, left, i, cut, closed, loc)
    requires left != [] && i < |filled| && filled[i].value < 1.0
    ensures BalanceInv(table0, balanced1, cut0, filled1, left1, i + 1, cut1, closed1, loc1)
    ensures var src := left[|left| - 1];
            var rem := src.value - (1.0 - filled[i].value);
            && |balanced1| == |balanced|
            && balanced1[filled[i].index] == balanced[filled[i].index].(ki := src.index)
            && (forall j :: 0 <= j < |balanced| && j != filled[i].index ==> balanced1[j] == balanced[j])
            && (rem <= 1.0 ==> filled1 == filled + [src.(value := rem)] && left1 == left[..|left| - 1])
            && (rem > 1.0 ==> filled1 == filled && left1 == left[|left| - 1 := src.(value := rem)])
  {
    var base := |table0|;
    var dst := filled[i];
    var src := left[|left| - 1];
    src := src.(value := src.value - (1.0 - dst.value));
    balanced1 := balanced[dst.index := balanced[dst.index].(ki := src.index)];
    cut1 := cut[src.index - base := src.value];
    closed1 := closed[dst.index - base := true];
    if src.value <= 1.0 {
      loc1 := loc[src.index - base := |filled|];
      filled1 := filled + [src];
      left1 := left[..|left| - 1];
    } else {
      loc1 := loc;
      filled1 := filled;
      left1 := left[|left| - 1 := src];
    }
    TransferKept(table0, cut0, i, balanced, filled, left, cut, closed, loc,
                 balanced1, filled1, left1, cut1, closed1, loc1, src);
  }

  /**
   * The balancing loop: visits the empty list in order, skipping entries
   * of at least one and topping up the others, until nothing overflows or
   * every empty-list entry has been visited.
   */
  method Balance(table0: seq<Alias>, table: seq<Alias>, empty: seq<Bucket>, overflown: seq<Bucket>,
                 ghost cut0: seq<real>, ghost loc0: seq<int>)
    returns (balanced: seq<Alias>, filled: seq<Bucket>, left: seq<Bucket>, i: nat,
             ghost cut: seq<real>, ghost closed: seq<bool>, ghost loc: seq<int>)
    requires BalanceInv(table0, table, cut0, empty, overflown, 0, cut0, seq(|cut0|, j => false), loc0)
    ensures BalanceInv(table0, balanced, cut0, filled, left, i, cut, closed, loc)
    ensures left == [] || i == |filled|
  {
    balanced, filled, left, i := table, empty, overflown, 0;
    cut, closed, loc := cut0, seq(|cut0|, j => false), loc0;
    while left != [] && i < |filled|
      invariant BalanceInv(table0, balanced, cut0, filled, left, i, cut, closed, loc)
      decreases |cut0| - i
    {
      InvShape(table0, balanced, cut0, filled, left, i, cut, closed, loc);
      if filled[i].value < 1.0 {
        balanced, filled, left, cut, closed, loc := TopUp(table0, cut0, i, balanced, filled, left, cut, closed, loc);
      } else {
        SkipKeeps(table0, balanced, cut0, filled, left, i, cut, closed, loc);
      }
      i := i + 1;
    }
  }

  /** The plain facts the invariant carries about the table's shape. */
  lemma {:induction false} InvShape(table0: seq<Alias>, table: seq<Alias>, cut0: seq<real>,
                                    empty: seq<Bucket>, overflown: seq<Bucket>, i: nat,
                                    cut: seq<real>, closed: seq<bool>, loc: seq<int>)
    requires BalanceInv(table0, table, cut0, empty, overflown, i, cut, closed, loc)
    ensures |table| == |table0| + |cut0| && |cut| == |cut0| && |closed| == |cut0|
    ensures i <= |empty| <= |cut0|
    ensures forall j :: 0 <= j < |table0| ==> table[j] == table0[j]
    ensures forall j :: |table0| <= j < |table| ==> |table0| <= table[j].ki < |table|
  {
  }

  /** Everything from the sorted lists to the start of balancing. */
  lemma {:induction false} StartBalance(table0: seq<Alias>, weights: seq<real>, empty: seq<Bucket>, overflown: seq<Bucket>)
    returns (loc0: seq<int>)
    requires multiset(empty) == multiset(Deficient(InitialBuckets(ScaledWeights(weights), |table0|)))
    requires multiset(overflown) == multiset(Overflowing(InitialBuckets(ScaledWeights(weights), |table0|)))
    ensures BalanceInv(table0, table0 + InitialAliases(weights, |table0|), ScaledWeights(weights), empty, overflown, 0,
                       ScaledWeights(weights), seq(|weights|, j => false), loc0)
  {
    var base := |table0|;
    var cut0 := ScaledWeights(weights);
    var spread := InitialBuckets(cut0, base);
    SpreadPartitions(spread);
    forall a | 0 <= a < |empty| ensures empty[a].value <= 1.0
    {
      assert empty[a] in multiset(Deficient(spread));
    }
    forall b | 0 <= b < |overflown| ensures overflown[b].value > 1.0
    {
      assert overflown[b] in multiset(Overflowing(spread));
    }
    loc0 := Locate(base, cut0, empty, overflown);
    BalanceStarts(table0, weights, empty, overflown, loc0);
  }

  /**
   * The last loop, over the empty list: each bucket on it gets its final
   * value as cutOff; entries left on the overflown list keep theirs.
   */
  method FinishTable(table0: seq<Alias>, balanced: seq<Alias>, filled: seq<Bucket>,
                     ghost weights: seq<real>, ghost left: seq<Bucket>, ghost i: nat,
                     ghost cut: seq<real>, ghost closed: seq<bool>, ghost loc: seq<int>)
    returns (table: seq<Alias>)
    requires BalanceInv(table0, balanced, ScaledWeights(weights), filled, left, i, cut, closed, loc)
    requires left == [] || i == |filled|
    ensures |table| == |table0| + |weights|
    ensures table[..|table0|] == table0
    ensures forall j :: |table0| <= j < |table| ==> |table0| <= table[j].ki < |table|
    ensures IsDistribution(weights) ==> AliasTableOk(table, |table0|, ScaledWeights(weights))
  {
    ghost var base := |table0|;
    ghost var cut0 := ScaledWeights(weights);
    InvShape(table0, balanced, cut0, filled, left, i, cut, closed, loc);
    table := FinalCutoffs(balanced, filled, base, left, cut, loc);
    assert forall j :: 0 <= j < base ==> table[j] == table0[j];
    if IsDistribution(weights) {
      ScaledDistribution(weights);
      OverflowEmpties(table0, balanced, cut0, filled, left, i, cut, closed, loc);
      FinishedTable(table0, balanced, cut0, filled, i, cut, closed, loc, table);
    }
  }

  /** The last loop: every bucket on the empty list gets its final value as cutOff. */
  method FinalCutoffs(balanced: seq<Alias>, empty: seq<Bucket>, ghost base: nat, ghost overflown: seq<Bucket>,
                      ghost cut: seq<real>, ghost loc: seq<int>)
    returns (table: seq<Alias>)
    requires Placed(base, empty, overflown, cut, loc) && |balanced| == base + |cut|
    ensures |table| == |balanced|
    ensures forall j :: 0 <= j < |table| ==>
      table[j] == if base <= j && 0 <= loc[j - base] < |empty| then balanced[j].(cutOff := cut[j - base]) else balanced[j]
  {
    table := balanced;
    for a := 0 to |empty|
      invariant |table| == |balanced|
      invariant forall j :: 0 <= j < |table| ==>
        table[j] == if base <= j && 0 <= loc[j - base] < a then balanced[j].(cutOff := cut[j - base]) else balanced[j]
    {
      var dst := empty[a];
      forall k | 0 <= k < |loc| && loc[k] == a ensures base + k == dst.index
      {
        assert Slot(base, empty, overflown, loc, k);
      }
      table := table[dst.index := table[dst.index].(cutOff := dst.value)];
    }
  }

  /**
   * buildTriangleAliasTable / buildInstanceAliasTable: appends one alias
   * entry per weight to the table and balances them. Whatever the weights,
   * the table keeps its earlier entries and every new alias points into
   * the new entries; for a distribution, the new entries sample item p
   * with probability weights[p].
   */
  method BuildAliasTable(table0: seq<Alias>, weights: seq<real>) returns (table: seq<Alias>)
    ensures |table| == |table0| + |weights|
    ensures table[..|table0|] == table0
    ensures forall j :: |table0| <= j < |table| ==> |table0| <= table[j].ki < |table|
    ensures IsDistribution(weights) ==> AliasTableOk(table, |table0|, ScaledWeights(weights))
  {
    var spreadTable, deficient, overflowing := SpreadBuckets(table0, weights);
    var empty := SortByValue(deficient);
    var overflown := SortByValue(overflowing);
    ghost var loc0 := StartBalance(table0, weights, empty, overflown);
    var balanced, filled, left, i, cut, closed, loc := Balance(table0, spreadTable, empty, overflown, ScaledWeights(weights), loc0);
    table := FinishTable(table0, balanced, filled, weights, left, i, cut, closed, loc);
  }
}
