/**
  The synthetic-data generator (`LdaData`): construction and `genData`.
  The uniform draws of the random stream are passed in as a sequence, and
  the Gaussian matrix already multiplied by the covariance square root as a
  function from (cluster, row, column) to its entry.
 */
module Sampler {
  import opened Matrices
  import opened SamplerSpec

  /** The break-early scan over the thresholds that picks one draw's
      cluster. */
  method Assign(betterprobs: array<real>, rand: real) returns (c: int)
    requires betterprobs.Length > 0
    ensures c == Select(betterprobs[..], rand)
  {
    ghost var t := betterprobs[..];
    c := 0;
    for j := 0 to betterprobs.Length
      invariant FirstAbove(t, rand, 0) >= j
      invariant c == if j == 0 then 0 else j - 1
    {
      if rand < betterprobs[j] {
        break;
      }
      c := j;
    }
  }

  /** Counts, for each cluster, how many of the `size` draws select it. */
  method CountDraws(betterprobs: array<real>, draws: seq<real>, size: int) returns (proportions: array<int>)
    requires betterprobs.Length > 0 && DrawCount(size) <= |draws|
    ensures fresh(proportions)
    ensures proportions.Length == betterprobs.Length
    ensures forall c | 0 <= c < proportions.Length :: proportions[c] == Histogram(betterprobs[..], draws, DrawCount(size))[c]
    ensures forall c | 0 <= c < proportions.Length :: proportions[c] >= 0
    ensures Sum(proportions[..]) == DrawCount(size)
  {
    ghost var t := betterprobs[..];
    proportions := new int[betterprobs.Length](_ => 0);
    var i := 0;
    while i < size
      invariant 0 <= i <= DrawCount(size)
      invariant forall c | 0 <= c < proportions.Length :: proportions[c] == Hits(t, draws, c, i)
    {
      var c := Assign(betterprobs, draws[i]);
      proportions[c] := proportions[c] + 1;
      i := i + 1;
    }
    assert proportions[..] == Histogram(t, draws, DrawCount(size));
    HistogramSumsToDraws(t, draws, DrawCount(size));
  }

  class LdaData {
    var sqrt: array2<real>          // a square root of the shared covariance matrix
    var means: array2<real>         // the mean of each feature in each cluster
    var dim: nat                    // the number of features
    var clusters: nat               // the number of clusters
    var probabilities: array<real>  // the mixture probability of each cluster

    ghost predicate Valid()
      reads this
    {
      clusters == probabilities.Length
    }

    /** Keeps the caller's means and probabilities (the same arrays, not
        copies), and takes its size from them; `covSqrt` stands for the square
        root computed from a copy of `cov`, so `cov` itself is not changed. */
    constructor (cov: array2<real>, mu: array2<real>, probs: array<real>, covSqrt: array2<real>)
      ensures Valid()
      ensures means == mu && probabilities == probs && sqrt == covSqrt
      ensures clusters == probs.Length && dim == cov.Length1
      ensures unchanged(cov)
    {
      means := mu;
      probabilities := probs;
      clusters := probs.Length;
      dim := cov.Length1;
      sqrt := covSqrt;
    }

    /** Threshold i is the running sum of the probabilities before cluster i. */
    method CumulativeThresholds() returns (betterprobs: array<real>)
      requires Valid() && clusters > 0
      ensures fresh(betterprobs)
      ensures betterprobs[..] == Thresholds(probabilities[..])
    {
      ghost var p := probabilities[..];
      ghost var t := Thresholds(p);
      betterprobs := new real[clusters](_ => 0.0);
      var runningsum := probabilities[0];
      for i := 1 to clusters
        invariant runningsum == PrefixSum(p, i)
        invariant forall k | 0 <= k < i :: betterprobs[k] == t[k]
      {
        betterprobs[i] := runningsum;
        runningsum := runningsum + probabilities[i];
      }
    }

    /** Adds the mean row of cluster `i` to every row of `cluster2`, in place. */
    method ShiftByMean(cluster2: array2<real>, i: nat)
      requires cluster2 != means
      requires cluster2.Length0 > 0 && cluster2.Length1 > 0 ==>
        i < means.Length0 && cluster2.Length1 <= means.Length1
      modifies cluster2
      ensures forall a, b | 0 <= a < cluster2.Length0 && 0 <= b < cluster2.Length1 ::
        cluster2[a, b] == old(cluster2[a, b]) + means[i, b]
    {
      for a := 0 to cluster2.Length0
        invariant forall a', b | 0 <= a' < a && 0 <= b < cluster2.Length1 ::
          cluster2[a', b] == old(cluster2[a', b]) + means[i, b]
        invariant forall a', b | a <= a' < cluster2.Length0 && 0 <= b < cluster2.Length1 ::
          cluster2[a', b] == old(cluster2[a', b])
      {
        for b := 0 to cluster2.Length1
          invariant forall a', b' | 0 <= a' < a && 0 <= b' < cluster2.Length1 ::
            cluster2[a', b'] == old(cluster2[a', b']) + means[i, b']
          invariant forall b' | 0 <= b' < b :: cluster2[a, b'] == old(cluster2[a, b']) + means[i, b']
          invariant forall a', b' | a <= a' < cluster2.Length0 && 0 <= b' < cluster2.Length1 && (a' > a || b' >= b) ::
            cluster2[a', b'] == old(cluster2[a', b'])
        {
          cluster2[a, b] := cluster2[a, b] + means[i, b];
        }
      }
    }

    /** One cluster's `rows` x `dim` matrix: the transformed Gaussian entries
        with the cluster's mean row added to every row. */
    method MakeCluster(i: nat, rows: nat, gaussTimesSqrt: (int, int, int) -> real) returns (cluster2: array2<real>)
      requires rows > 0 && dim > 0 ==> i < means.Length0 && dim <= means.Length1
      ensures fresh(cluster2)
      ensures cluster2.Length0 == rows && cluster2.Length1 == dim
      ensures forall a, b | 0 <= a < rows && 0 <= b < dim :: cluster2[a, b] == gaussTimesSqrt(i, a, b) + means[i, b]
    {
      cluster2 := new real[rows, dim]((a, b) => gaussTimesSqrt(i, a, b));
      ShiftByMean(cluster2, i);
    }

    /** One matrix per cluster, cluster `i` with `proportions[i]` rows. */
    method BuildClusters(proportions: array<int>, gaussTimesSqrt: (int, int, int) -> real)
      returns (rtn: array<array2?<real>>)
      requires proportions.Length == clusters
      requires forall k | 0 <= k < proportions.Length :: proportions[k] >= 0
      requires forall k | 0 <= k < proportions.Length && proportions[k] > 0 && dim > 0 ::
        k < means.Length0 && dim <= means.Length1
      ensures fresh(rtn) && rtn.Length == clusters
      ensures forall i | 0 <= i < clusters :: rtn[i] != null && fresh(rtn[i])
      ensures forall i, k | 0 <= i < k < clusters :: rtn[i] != rtn[k]
      ensures forall i | 0 <= i < clusters :: rtn[i].Length0 == proportions[i] && rtn[i].Length1 == dim
      ensures forall i, a, b | 0 <= i < clusters && 0 <= a < rtn[i].Length0 && 0 <= b < dim ::
        rtn[i][a, b] == gaussTimesSqrt(i, a, b) + means[i, b]
    {
      rtn := new array2?<real>[clusters](_ => null);
      for i := 0 to clusters
        modifies rtn
        invariant forall k | 0 <= k < i :: rtn[k] != null && fresh(rtn[k])
        invariant forall k, k' | 0 <= k < k' < i :: rtn[k] != rtn[k']
        invariant forall k | 0 <= k < i :: rtn[k].Length0 == proportions[k] && rtn[k].Length1 == dim
        invariant forall k, a, b | 0 <= k < i && 0 <= a < rtn[k].Length0 && 0 <= b < dim ::
          rtn[k][a, b] == gaussTimesSqrt(k, a, b) + means[k, b]
      {
        var cluster2 := MakeCluster(i, proportions[i], gaussTimesSqrt);
        rtn[i] := cluster2;
      }
    }

    /** Generates `size` samples: one matrix per cluster, with as many rows as
        draws selected that cluster and `dim` columns, whose entries are the
        transformed Gaussian entries shifted by the cluster's mean row. */
    method GenData(size: int, draws: seq<real>, gaussTimesSqrt: (int, int, int) -> real)
      returns (rtn: array<array2?<real>>)
      requires Valid() && clusters > 0
      requires DrawCount(size) <= |draws|
      requires forall k | 0 <= k < clusters && Proportions(probabilities[..], draws, size)[k] > 0 && dim > 0 ::
        k < means.Length0 && dim <= means.Length1
      ensures fresh(rtn) && rtn.Length == clusters
      ensures forall i | 0 <= i < clusters :: rtn[i] != null && fresh(rtn[i])
      ensures forall i, k | 0 <= i < k < clusters :: rtn[i] != rtn[k]
      ensures forall i | 0 <= i < clusters ::
        rtn[i].Length0 == Proportions(probabilities[..], draws, size)[i] && rtn[i].Length1 == dim
      ensures forall i, a, b | 0 <= i < clusters && 0 <= a < rtn[i].Length0 && 0 <= b < dim ::
        rtn[i][a, b] == gaussTimesSqrt(i, a, b) + means[i, b]
    {
      var betterprobs := CumulativeThresholds();
      var proportions := CountDraws(betterprobs, draws, size);
      ghost var sizes := Proportions(probabilities[..], draws, size);
      assert forall k | 0 <= k < clusters :: proportions[k] == sizes[k];
      rtn := BuildClusters(proportions, gaussTimesSqrt);
    }
  }
}
