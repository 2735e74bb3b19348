// The central bank's statistical office: for every good type a fixed-length
// buffer of marginal-price snapshots, newest first; an age-weighted average
// per good type computed from it; and a weighted price index over the
// averages. Good types are numbered 0 .. goods - 1.
module Statistics {
  import opened Numbers

  /** NUMBER_OF_LOGGED_PERIODS: the buffer holds this many days of snapshots. */
  const LoggedPeriods: nat := 3

  /** A snapshot with a usable price pushes it in at the front and drops the oldest entry. */
  function Snapshot(row: seq<real>, price: Num): (r: seq<real>)
    requires |row| > 0
    ensures |r| == |row|
  {
    if price.Finite? then [price.value] + row[..|row| - 1] else row
  }

  /** Snapshots taken one after another, the last one in `prices` taken last. */
  function Snapshots(row: seq<real>, prices: seq<Num>): (r: seq<real>)
    requires |row| > 0
    ensures |r| == |row|
  {
    if prices == [] then row else Snapshot(Snapshots(row, prices[..|prices| - 1]), prices[|prices| - 1])
  }

  /** The last prices, newest first. */
  function NewestFirst(prices: seq<real>): (r: seq<real>)
    ensures |r| == |prices|
  {
    if prices == [] then [] else [prices[|prices| - 1]] + NewestFirst(prices[..|prices| - 1])
  }

  function Values(prices: seq<Num>): (r: seq<real>)
    requires forall i :: 0 <= i < |prices| ==> prices[i].Finite?
    ensures |r| == |prices|
    ensures forall i :: 0 <= i < |prices| ==> r[i] == prices[i].value
  {
    if prices == [] then [] else Values(prices[..|prices| - 1]) + [prices[|prices| - 1].value]
  }

  /**
   * Snapshots taken one after another leave in the buffer the newest usable
   * prices, newest first, followed by what it held before, cut to its length.
   */
  lemma {:induction false} SnapshotsKeepNewest(row: seq<real>, prices: seq<Num>)
    requires |row| > 0
    requires forall i :: 0 <= i < |prices| ==> prices[i].Finite?
    ensures Snapshots(row, prices) == (NewestFirst(Values(prices)) + row)[..|row|]
  {
    if prices != [] {
      var init := prices[..|prices| - 1];
      SnapshotsKeepNewest(row, init);
      assert Values(prices)[..|prices| - 1] == Values(init);
      var p := prices[|prices| - 1].value;
      var older := NewestFirst(Values(init)) + row;
      var prev := Snapshots(row, init);
      assert NewestFirst(Values(prices)) + row == [p] + older;
      assert Snapshots(row, prices) == [p] + prev[..|row| - 1];
      assert prev[..|row| - 1] == older[..|row| - 1];
      assert ([p] + older)[..|row|] == [p] + older[..|row| - 1];
    }
  }

  /** Once the buffer has seen at least as many usable prices as it holds, it holds only the newest of them. */
  lemma SnapshotsForget(row: seq<real>, prices: seq<Num>)
    requires 0 < |row| <= |prices|
    requires forall i :: 0 <= i < |prices| ==> prices[i].Finite?
    ensures Snapshots(row, prices) == NewestFirst(Values(prices))[..|row|]
  {
    SnapshotsKeepNewest(row, prices);
  }

  /** The buffer entry at age i weighs length - i: the newest entry weighs most. */
  function Weight(row: seq<real>, i: nat): real
    requires i < |row|
  {
    if row[i] != 0.0 then (|row| - i) as real else 0.0
  }

  function Term(row: seq<real>, i: nat): real
    requires i < |row|
  {
    row[i] * Weight(row, i)
  }

  /** The weighted sum and the total weight of the first n entries, entries of 0.0 left out. */
  function WeightedSum(row: seq<real>, n: nat): real
    requires n <= |row|
  {
    if n == 0 then 0.0 else WeightedSum(row, n - 1) + Term(row, n - 1)
  }

  function TotalWeight(row: seq<real>, n: nat): real
    requires n <= |row|
  {
    if n == 0 then 0.0 else TotalWeight(row, n - 1) + Weight(row, n - 1)
  }

  /** The age-weighted average of a buffer; 0 / 0, which is undefined, when every entry is 0.0. */
  function AgeWeightedAverage(row: seq<real>): Num
  {
    if TotalWeight(row, |row|) == 0.0 then NaN else Finite(WeightedSum(row, |row|) / TotalWeight(row, |row|))
  }

  /** The total weight is zero exactly when no entry is used. */
  lemma {:induction false} TotalWeightZero(row: seq<real>, n: nat)
    requires n <= |row|
    ensures TotalWeight(row, n) >= 0.0
    ensures TotalWeight(row, n) == 0.0 <==> forall i :: 0 <= i < n ==> row[i] == 0.0
  {
    if n > 0 {
      TotalWeightZero(row, n - 1);
    }
  }

  /** Entries between lo and hi give a weighted sum between lo and hi times the total weight. */
  lemma WeightedSumBounds(row: seq<real>, n: nat, lo: real, hi: real)
    requires n <= |row|
    requires forall i :: 0 <= i < n && row[i] != 0.0 ==> lo <= row[i] <= hi
    ensures lo * TotalWeight(row, n) <= WeightedSum(row, n) <= hi * TotalWeight(row, n)
  {
    WeightedSumAtLeast(row, n, lo);
    WeightedSumAtMost(row, n, hi);
  }

  lemma {:induction false} WeightedSumAtLeast(row: seq<real>, n: nat, lo: real)
    requires n <= |row|
    requires forall i :: 0 <= i < n && row[i] != 0.0 ==> lo <= row[i]
    ensures lo * TotalWeight(row, n) <= WeightedSum(row, n)
  {
    if n > 0 {
      WeightedSumAtLeast(row, n - 1, lo);
      AddEntryAtLeast(lo, TotalWeight(row, n - 1), WeightedSum(row, n - 1), row[n - 1], Weight(row, n - 1),
                      TotalWeight(row, n), WeightedSum(row, n));
    }
  }

  lemma {:induction false} WeightedSumAtMost(row: seq<real>, n: nat, hi: real)
    requires n <= |row|
    requires forall i :: 0 <= i < n && row[i] != 0.0 ==> row[i] <= hi
    ensures WeightedSum(row, n) <= hi * TotalWeight(row, n)
  {
    if n > 0 {
      WeightedSumAtMost(row, n - 1, hi);
      AddEntryAtMost(hi, TotalWeight(row, n - 1), WeightedSum(row, n - 1), row[n - 1], Weight(row, n - 1),
                     TotalWeight(row, n), WeightedSum(row, n));
    }
  }

  /** One more entry x of weight w keeps the weighted sum at least lo times the total weight. */
  lemma AddEntryAtLeast(lo: real, t: real, sum: real, x: real, w: real, t': real, sum': real)
    requires lo * t <= sum && w >= 0.0
    requires x != 0.0 ==> lo <= x
    requires x == 0.0 ==> w == 0.0
    requires t' == t + w && sum' == sum + x * w
    ensures lo * t' <= sum'
  {
    if x != 0.0 {
      MultiplyMonotone(lo, x, w);
    }
  }

  /** One more entry x of weight w keeps the weighted sum at most hi times the total weight. */
  lemma AddEntryAtMost(hi: real, t: real, sum: real, x: real, w: real, t': real, sum': real)
    requires sum <= hi * t && w >= 0.0
    requires x != 0.0 ==> x <= hi
    requires x == 0.0 ==> w == 0.0
    requires t' == t + w && sum' == sum + x * w
    ensures sum' <= hi * t'
  {
    if x != 0.0 {
      MultiplyMonotone(x, hi, w);
    }
  }

  lemma MultiplyMonotone(a: real, b: real, w: real)
    requires a <= b && w >= 0.0
    ensures a * w <= b * w
  {
  }

  /** The average lies between the smallest and the largest entry used; no entry used leaves it undefined. */
  lemma AverageBounds(row: seq<real>, lo: real, hi: real)
    requires forall i :: 0 <= i < |row| && row[i] != 0.0 ==> lo <= row[i] <= hi
    ensures AgeWeightedAverage(row).NaN? <==> forall i :: 0 <= i < |row| ==> row[i] == 0.0
    ensures AgeWeightedAverage(row).Finite? ==> lo <= AgeWeightedAverage(row).value <= hi
  {
    TotalWeightZero(row, |row|);
    WeightedSumBounds(row, |row|, lo, hi);
    var t := TotalWeight(row, |row|);
    var s := WeightedSum(row, |row|);
    if t != 0.0 {
      assert s / t * t == s;
      DivideBounds(s, t, lo, hi);
    }
  }

  lemma DivideBounds(s: real, t: real, lo: real, hi: real)
    requires t > 0.0 && lo * t <= s <= hi * t
    ensures lo <= s / t <= hi
  {
    assert s / t * t == s;
  }

  /** A buffer holding one price p (and perhaps unused zeros) averages p. */
  lemma AverageOfConstant(row: seq<real>, p: real)
    requires p != 0.0 && exists i :: 0 <= i < |row| && row[i] == p
    requires forall i :: 0 <= i < |row| ==> row[i] == p || row[i] == 0.0
    ensures AgeWeightedAverage(row) == Finite(p)
  {
    AverageBounds(row, p, p);
  }

  /** The price index over the first n good types: the sum of weight * average over goods with a defined average. */
  function PriceIndex(weights: seq<real>, averages: seq<Num>, n: nat): Num
    requires n <= |weights| && n <= |averages|
  {
    if n == 0 then NaN
    else
      var before := PriceIndex(weights, averages, n - 1);
      if averages[n - 1].NaN? then before
      else if before.NaN? then Finite(weights[n - 1] * averages[n - 1].value)
      else Finite(before.value + weights[n - 1] * averages[n - 1].value)
  }

  function Sum(s: seq<real>, n: nat): real
    requires n <= |s|
  {
    if n == 0 then 0.0 else Sum(s, n - 1) + s[n - 1]
  }

  /** The index is undefined exactly when no good type has a defined average. */
  lemma {:induction false} PriceIndexUndefined(weights: seq<real>, averages: seq<Num>, n: nat)
    requires n <= |weights| && n <= |averages|
    ensures PriceIndex(weights, averages, n).NaN? <==> forall g :: 0 <= g < n ==> averages[g].NaN?
  {
    if n > 0 {
      PriceIndexUndefined(weights, averages, n - 1);
    }
  }

  /** When every good type averages p, the index is p times the sum of the weights (so p for weights summing to 1). */
  lemma {:induction false} PriceIndexOfEqualPrices(weights: seq<real>, averages: seq<Num>, n: nat, p: real)
    requires 0 < n <= |weights| && n <= |averages|
    requires forall g :: 0 <= g < n ==> averages[g] == Finite(p)
    ensures PriceIndex(weights, averages, n) == Finite(Sum(weights, n) * p)
  {
    if n > 1 {
      PriceIndexOfEqualPrices(weights, averages, n - 1, p);
      assert Sum(weights, n) * p == Sum(weights, n - 1) * p + weights[n - 1] * p;
    }
  }

  class StatisticalOffice {
    const goods: nat
    const weights: seq<real>
    /** The length of every buffer: LoggedPeriods * snapshots per day. */
    const length: nat
    /** rows[g][i]: the i-th newest snapshot of good type g. */
    const rows: seq<array<real>>
    var averages: seq<Num>
    var priceIndex: Num

    ghost predicate Valid()
      reads this
    {
      && |rows| == goods && |weights| == goods && |averages| == goods && length > 0
      && (forall g :: 0 <= g < goods ==> rows[g].Length == length)
      && (forall g, h :: 0 <= g < h < goods ==> rows[g] != rows[h])
    }

    /** The snapshot buffer of good type g, newest first. */
    function Row(g: nat): (r: seq<real>)
      requires g < |rows|
      reads rows[g]
    {
      rows[g][..]
    }

    /**
     * Buffers of 3 * snapshotsPerDay zeros, every average undefined, price
     * index 0; the weights of the good types sum to 1.
     */
    constructor (goods: nat, weights: seq<real>, snapshotsPerDay: nat)
      requires |weights| == goods && Sum(weights, goods) == 1.0 && snapshotsPerDay > 0
      ensures Valid()
      ensures this.goods == goods && this.weights == weights && length == LoggedPeriods * snapshotsPerDay
      ensures forall g :: 0 <= g < goods ==> fresh(rows[g]) && Row(g) == seq(length, _ => 0.0)
      ensures averages == seq(goods, _ => NaN) && priceIndex == Finite(0.0)
    {
      var len := LoggedPeriods * snapshotsPerDay;
      var buffers: seq<array<real>> := [];
      while |buffers| < goods
        invariant |buffers| <= goods
        invariant forall g :: 0 <= g < |buffers| ==> fresh(buffers[g]) && buffers[g].Length == len
        invariant forall g :: 0 <= g < |buffers| ==> buffers[g][..] == seq(len, _ => 0.0)
        invariant forall g, h :: 0 <= g < h < |buffers| ==> buffers[g] != buffers[h]
      {
        var buffer := new real[len](_ => 0.0);
        buffers := buffers + [buffer];
      }
      this.goods := goods;
      this.weights := weights;
      length := len;
      rows := buffers;
      averages := seq(goods, _ => NaN);
      priceIndex := Finite(0.0);
    }

    /** Shift one buffer back by one place in place, then write the new price at the front. */
    method ShiftIn(g: nat, price: real)
      requires Valid() && g < goods
      modifies rows[g]
      ensures Row(g) == [price] + old(Row(g))[..length - 1]
    {
      var buffer := rows[g];
      ghost var before := buffer[..];
      var j := length - 1;
      while j > 0
        invariant 0 <= j < length
        invariant forall k :: j < k < length ==> buffer[k] == before[k - 1]
        invariant forall k :: 0 <= k <= j ==> buffer[k] == before[k]
      {
        buffer[j] := buffer[j - 1];
        j := j - 1;
      }
      buffer[0] := price;
      assert buffer[..] == [price] + before[..length - 1];
    }

    /** takeSnapshotOfMarginalPrices: each good type's price, if usable, enters its buffer. */
    method TakeSnapshotOfMarginalPrices(prices: seq<Num>)
      requires Valid() && |prices| == goods
      modifies rows
      ensures forall g :: 0 <= g < goods ==> Row(g) == Snapshot(old(Row(g)), prices[g])
    {
      var g := 0;
      while g < goods
        invariant 0 <= g <= goods
        invariant forall h :: 0 <= h < g ==> Row(h) == Snapshot(old(Row(h)), prices[h])
        invariant forall h :: g <= h < goods ==> Row(h) == old(Row(h))
      {
        if prices[g].Finite? {
          ShiftIn(g, prices[g].value);
        }
        g := g + 1;
      }
    }

    /** The age-weighted average of one buffer, accumulated entry by entry. */
    method AverageOf(g: nat) returns (average: Num)
      requires Valid() && g < goods
      ensures average == AgeWeightedAverage(Row(g))
    {
      var buffer := rows[g];
      var sum := 0.0;
      var totalWeight := 0.0;
      var i := 0;
      while i < length
        invariant 0 <= i <= length
        invariant sum == WeightedSum(buffer[..], i) && totalWeight == TotalWeight(buffer[..], i)
      {
        var price := buffer[i];
        if price != 0.0 {
          var weight := (length - i) as real;
          sum := sum + price * weight;
          totalWeight := totalWeight + weight;
        }
        i := i + 1;
      }
      average := if totalWeight == 0.0 then NaN else Finite(sum / totalWeight);
    }

    /** recalculateAveragePrices: every good type's average is recomputed from its buffer. */
    method RecalculateAveragePrices()
      requires Valid()
      modifies this
      ensures Valid() && priceIndex == old(priceIndex)
      ensures forall g :: 0 <= g < goods ==> averages[g] == AgeWeightedAverage(Row(g))
    {
      var g := 0;
      while g < goods
        invariant 0 <= g <= goods && Valid() && priceIndex == old(priceIndex)
        invariant forall h :: 0 <= h < g ==> averages[h] == AgeWeightedAverage(Row(h))
      {
        var average := AverageOf(g);
        averages := averages[g := average];
        g := g + 1;
      }
    }

    /** recalculatePriceIndex: the weighted sum of the defined averages, undefined when there is none. */
    method RecalculatePriceIndex()
      requires Valid()
      modifies this
      ensures Valid() && averages == old(averages)
      ensures priceIndex == PriceIndex(weights, averages, goods)
    {
      var index := NaN;
      var g := 0;
      while g < goods
        invariant 0 <= g <= goods && Valid() && averages == old(averages)
        invariant index == PriceIndex(weights, averages, g)
      {
        if averages[g].Finite? {
          var term := weights[g] * averages[g].value;
          if index.NaN? {
            index := Finite(term);
          } else {
            index := Finite(index.value + term);
          }
        }
        g := g + 1;
      }
      priceIndex := index;
    }
  }
}
