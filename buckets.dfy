/** The bucket accumulator the statistics page builds several times: a
    JavaScript `Map` from a key to `{ totalRate, count }`, filled in one pass
    (`if (!buckets.has(key)) buckets.set(key, …); b.totalRate += v; b.count += 1`).
    The specification functions say what the accumulator holds after a
    sequence of samples; `AddSample` is one step of the pass. */
module Buckets {
  import opened Common

  /** One value added to a bucket: the bucket key and the amount. */
  type Sample = (string, real)

  function KeysOf(ps: seq<Sample>): (ks: seq<string>)
    ensures |ks| == |ps|
    ensures forall i :: 0 <= i < |ps| ==> ks[i] == ps[i].0
  {
    seq(|ps|, i requires 0 <= i < |ps| => ps[i].0)
  }

  lemma KeysOfSnoc(ps: seq<Sample>, x: Sample)
    ensures KeysOf(ps + [x]) == KeysOf(ps) + [x.0]
  {
  }

  /** The keys of the samples, in the order the `Map` first sees them. */
  function DistinctKeys(ps: seq<Sample>): (ks: seq<string>)
    ensures Distinct(ks)
    ensures forall k :: k in ks <==> k in KeysOf(ps)
  {
    Dedup(KeysOf(ps))
  }

  lemma DistinctKeysSnoc(ps: seq<Sample>, x: Sample)
    ensures DistinctKeys(ps + [x])
         == if x.0 in DistinctKeys(ps) then DistinctKeys(ps) else DistinctKeys(ps) + [x.0]
  {
    var xs := KeysOf(ps + [x]);
    KeysOfSnoc(ps, x);
    assert xs[..|xs| - 1] == KeysOf(ps);
  }

  /** Sum of the amounts of the samples with key `k`. */
  function Total(ps: seq<Sample>, k: string): real {
    if ps == [] then 0.0
    else Total(ps[..|ps| - 1], k) + (if ps[|ps| - 1].0 == k then ps[|ps| - 1].1 else 0.0)
  }

  /** Number of samples with key `k`. */
  function Count(ps: seq<Sample>, k: string): nat {
    if ps == [] then 0
    else Count(ps[..|ps| - 1], k) + (if ps[|ps| - 1].0 == k then 1 else 0)
  }

  lemma {:induction false} CountPositive(ps: seq<Sample>, k: string)
    ensures Count(ps, k) > 0 <==> k in KeysOf(ps)
  {
    if ps != [] {
      var init := ps[..|ps| - 1];
      CountPositive(init, k);
      assert ps == init + [ps[|ps| - 1]];
      KeysOfSnoc(init, ps[|ps| - 1]);
    }
  }

  /** Every bucket the `Map` holds has at least one sample, and there is a
      bucket exactly when there is a sample. */
  lemma KeysHaveSamples(ps: seq<Sample>)
    ensures forall k :: k in DistinctKeys(ps) ==> Count(ps, k) > 0
    ensures DistinctKeys(ps) == [] <==> ps == []
  {
    forall k | k in DistinctKeys(ps) ensures Count(ps, k) > 0 {
      CountPositive(ps, k);
    }
    if ps != [] {
      assert KeysOf(ps)[0] in DistinctKeys(ps);
    }
  }

  /** The mean of the amounts in bucket `k`. */
  function Mean(ps: seq<Sample>, k: string): real
    requires Count(ps, k) > 0
  {
    Total(ps, k) / (Count(ps, k) as real)
  }

  /** If every amount of bucket `k` lies in [lo, hi], its total lies in
      [lo * count, hi * count]. */
  lemma {:induction false} TotalWithin(ps: seq<Sample>, k: string, lo: real, hi: real)
    requires forall i :: 0 <= i < |ps| && ps[i].0 == k ==> lo <= ps[i].1 <= hi
    ensures lo * (Count(ps, k) as real) <= Total(ps, k) <= hi * (Count(ps, k) as real)
  {
    if ps != [] {
      TotalWithin(ps[..|ps| - 1], k, lo, hi);
      TotalWithinStep(ps, k, lo, hi);
    }
  }

  lemma TotalWithinStep(ps: seq<Sample>, k: string, lo: real, hi: real)
    requires ps != []
    requires var init := ps[..|ps| - 1];
      lo * (Count(init, k) as real) <= Total(init, k) <= hi * (Count(init, k) as real)
    requires ps[|ps| - 1].0 == k ==> lo <= ps[|ps| - 1].1 <= hi
    ensures lo * (Count(ps, k) as real) <= Total(ps, k) <= hi * (Count(ps, k) as real)
  {
    var init, x := ps[..|ps| - 1], ps[|ps| - 1];
    var c := Count(init, k) as real;
    if x.0 == k {
      assert Count(ps, k) as real == c + 1.0 && Total(ps, k) == Total(init, k) + x.1;
      assert lo * (c + 1.0) == lo * c + lo && hi * (c + 1.0) == hi * c + hi;
    }
  }

  lemma MeanWithin(ps: seq<Sample>, k: string, lo: real, hi: real)
    requires Count(ps, k) > 0
    requires forall i :: 0 <= i < |ps| && ps[i].0 == k ==> lo <= ps[i].1 <= hi
    ensures lo <= Mean(ps, k) <= hi
  {
    TotalWithin(ps, k, lo, hi);
    DivWithin(Total(ps, k), Count(ps, k) as real, lo, hi);
  }

  /** Sum of the counts of the keys `ks`. */
  function SumCounts(ps: seq<Sample>, ks: seq<string>): nat {
    if ks == [] then 0 else SumCounts(ps, ks[..|ks| - 1]) + Count(ps, ks[|ks| - 1])
  }

  lemma {:induction false} SumCountsSnoc(ps: seq<Sample>, x: Sample, ks: seq<string>)
    requires Distinct(ks)
    ensures SumCounts(ps + [x], ks) == SumCounts(ps, ks) + (if x.0 in ks then 1 else 0)
  {
    if ks != [] {
      var init := ks[..|ks| - 1];
      SumCountsSnoc(ps, x, init);
      assert ks == init + [ks[|ks| - 1]];
      assert (ps + [x])[..|ps|] == ps;
    }
  }

  /** The counts of all buckets add up to the number of samples. */
  lemma {:induction false} CountsSumToSamples(ps: seq<Sample>)
    ensures SumCounts(ps, DistinctKeys(ps)) == |ps|
  {
    if ps != [] {
      var init, x := ps[..|ps| - 1], ps[|ps| - 1];
      assert ps == init + [x];
      CountsSumToSamples(init);
      DistinctKeysSnoc(init, x);
      var ks := DistinctKeys(init);
      SumCountsSnoc(init, x, ks);
      if x.0 !in ks {
        CountPositive(init, x.0);
        assert (ks + [x.0])[..|ks|] == ks;
      }
    }
  }

  /** Sum of all amounts. */
  function SumAmounts(ps: seq<Sample>): real {
    if ps == [] then 0.0 else SumAmounts(ps[..|ps| - 1]) + ps[|ps| - 1].1
  }

  /** Sum of the totals of the keys `ks`. */
  function SumTotals(ps: seq<Sample>, ks: seq<string>): real {
    if ks == [] then 0.0 else SumTotals(ps, ks[..|ks| - 1]) + Total(ps, ks[|ks| - 1])
  }

  lemma {:induction false} SumTotalsSnoc(ps: seq<Sample>, x: Sample, ks: seq<string>)
    requires Distinct(ks)
    ensures SumTotals(ps + [x], ks) == SumTotals(ps, ks) + (if x.0 in ks then x.1 else 0.0)
  {
    if ks != [] {
      var init := ks[..|ks| - 1];
      SumTotalsSnoc(ps, x, init);
      assert ks == init + [ks[|ks| - 1]];
      assert (ps + [x])[..|ps|] == ps;
    }
  }

  /** Nothing is lost or counted twice: the bucket totals add up to the sum
      of all amounts. */
  lemma {:induction false} TotalsSumToSamples(ps: seq<Sample>)
    ensures SumTotals(ps, DistinctKeys(ps)) == SumAmounts(ps)
  {
    if ps != [] {
      var init, x := ps[..|ps| - 1], ps[|ps| - 1];
      assert ps == init + [x];
      TotalsSumToSamples(init);
      TotalsSumStep(init, x);
    }
  }

  lemma TotalsSumStep(init: seq<Sample>, x: Sample)
    requires SumTotals(init, DistinctKeys(init)) == SumAmounts(init)
    ensures SumTotals(init + [x], DistinctKeys(init + [x])) == SumAmounts(init + [x])
  {
    assert (init + [x])[..|init|] == init;
    assert SumAmounts(init + [x]) == SumAmounts(init) + x.1;
    DistinctKeysSnoc(init, x);
    var ks := DistinctKeys(init);
    SumTotalsSnoc(init, x, ks);
    if x.0 !in ks {
      NewKeyAddsItsAmount(init, x, ks);
    }
  }

  lemma NewKeyAddsItsAmount(init: seq<Sample>, x: Sample, ks: seq<string>)
    requires ks == DistinctKeys(init) && x.0 !in ks
    ensures SumTotals(init + [x], ks + [x.0]) == SumTotals(init + [x], ks) + x.1
  {
    CountPositive(init, x.0);
    TotalOfAbsentKey(init, x.0);
    assert (init + [x])[..|init|] == init;
    assert (ks + [x.0])[..|ks|] == ks;
  }

  /** The `Map` as the page holds it: keys in insertion order, and per key
      the running total and count. */
  datatype Acc = Acc(order: seq<string>, totals: map<string, real>, counts: map<string, nat>)

  const EmptyAcc: Acc := Acc([], map[], map[])

  /** `acc` is the accumulator after the samples `ps`. */
  ghost predicate Tracks(ps: seq<Sample>, acc: Acc) {
    && acc.order == DistinctKeys(ps)
    && (forall k :: k in acc.totals <==> k in acc.order)
    && (forall k :: k in acc.counts <==> k in acc.order)
    && (forall k :: k in acc.totals ==> acc.totals[k] == Total(ps, k))
    && (forall k :: k in acc.counts ==> acc.counts[k] == Count(ps, k))
  }

  /** One step of the pass: create the bucket on first sight, then add the
      amount and count it. */
  function AddSample(acc: Acc, k: string, v: real): (r: Acc)
    ensures k in r.totals && k in r.counts
  {
    var isNew := k !in acc.totals || k !in acc.counts;
    var order := if isNew && k !in acc.order then acc.order + [k] else acc.order;
    var total := if isNew then 0.0 else acc.totals[k];
    var count := if isNew then 0 else acc.counts[k];
    Acc(order, acc.totals[k := total + v], acc.counts[k := count + 1])
  }

  lemma EmptyTracks()
    ensures Tracks([], EmptyAcc)
  {
  }

  lemma AddSampleTracks(ps: seq<Sample>, acc: Acc, k: string, v: real)
    requires Tracks(ps, acc)
    ensures Tracks(ps + [(k, v)], AddSample(acc, k, v))
  {
    AddSampleOrder(ps, acc, k, v);
    AddSampleTotals(ps, acc, k, v);
    AddSampleCounts(ps, acc, k, v);
  }

  lemma AddSampleOrder(ps: seq<Sample>, acc: Acc, k: string, v: real)
    requires Tracks(ps, acc)
    ensures var r := AddSample(acc, k, v);
      && r.order == DistinctKeys(ps + [(k, v)])
      && (forall j :: j in r.totals <==> j in r.order)
      && (forall j :: j in r.counts <==> j in r.order)
  {
    assert (ps + [(k, v)])[..|ps|] == ps;
    DistinctKeysSnoc(ps, (k, v));
  }

  lemma AddSampleTotals(ps: seq<Sample>, acc: Acc, k: string, v: real)
    requires Tracks(ps, acc)
    ensures var r := AddSample(acc, k, v);
      forall j :: j in r.totals ==> r.totals[j] == Total(ps + [(k, v)], j)
  {
    var r := AddSample(acc, k, v);
    if k !in acc.order {
      CountPositive(ps, k);
      TotalOfAbsentKey(ps, k);
    }
    forall j | j in r.totals ensures r.totals[j] == Total(ps + [(k, v)], j) {
      TotalSnoc(ps, k, v, j);
    }
  }

  lemma AddSampleCounts(ps: seq<Sample>, acc: Acc, k: string, v: real)
    requires Tracks(ps, acc)
    ensures var r := AddSample(acc, k, v);
      forall j :: j in r.counts ==> r.counts[j] == Count(ps + [(k, v)], j)
  {
    var r := AddSample(acc, k, v);
    if k !in acc.order {
      CountPositive(ps, k);
    }
    forall j | j in r.counts ensures r.counts[j] == Count(ps + [(k, v)], j) {
      CountSnoc(ps, k, v, j);
    }
  }

  lemma TotalSnoc(ps: seq<Sample>, k: string, v: real, j: string)
    ensures Total(ps + [(k, v)], j) == Total(ps, j) + (if j == k then v else 0.0)
  {
    assert (ps + [(k, v)])[..|ps|] == ps;
  }

  lemma CountSnoc(ps: seq<Sample>, k: string, v: real, j: string)
    ensures Count(ps + [(k, v)], j) == Count(ps, j) + (if j == k then 1 else 0)
  {
    assert (ps + [(k, v)])[..|ps|] == ps;
  }

  /** The running mean read from the accumulator is the bucket's mean. */
  lemma MeanOfTracked(ps: seq<Sample>, acc: Acc, k: string)
    requires Tracks(ps, acc) && k in acc.order
    ensures k in acc.totals && k in acc.counts && Count(ps, k) > 0
    ensures acc.totals[k] / (acc.counts[k] as real) == Mean(ps, k)
  {
    CountPositive(ps, k);
  }

  /** Every key of a reordering of the accumulator's keys reads its bucket's
      total and count. */
  lemma BucketsOfTracked(ps: seq<Sample>, acc: Acc, keys: seq<string>)
    requires Tracks(ps, acc) && multiset(keys) == multiset(acc.order)
    ensures forall k | k in keys ::
      k in acc.totals && k in acc.counts && Count(ps, k) > 0
      && acc.counts[k] == Count(ps, k) && acc.totals[k] == Total(ps, k)
  {
    forall k | k in keys
      ensures k in acc.totals && k in acc.counts && Count(ps, k) > 0
    {
      assert k in multiset(acc.order);
      CountPositive(ps, k);
    }
  }

  /** Every key of a reordering of the accumulator's keys reads its bucket's mean. */
  lemma MeansOfTracked(ps: seq<Sample>, acc: Acc, keys: seq<string>)
    requires Tracks(ps, acc) && multiset(keys) == multiset(acc.order)
    ensures forall k | k in keys ::
      k in acc.totals && k in acc.counts && Count(ps, k) > 0
      && acc.totals[k] / (acc.counts[k] as real) == Mean(ps, k)
  {
    forall k | k in keys
      ensures k in acc.totals && k in acc.counts && Count(ps, k) > 0
      ensures acc.totals[k] / (acc.counts[k] as real) == Mean(ps, k)
    {
      assert k in multiset(acc.order);
      MeanOfTracked(ps, acc, k);
    }
  }

  lemma {:induction false} TotalOfAbsentKey(ps: seq<Sample>, k: string)
    requires Count(ps, k) == 0
    ensures Total(ps, k) == 0.0
  {
    if ps != [] { TotalOfAbsentKey(ps[..|ps| - 1], k); }
  }
}
