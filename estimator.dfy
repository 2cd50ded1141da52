/**
  The LDA estimator (the `LDA` constructor): the loops that fill the priors,
  the means and the pooled covariance in place, each proved against the
  formulas of EstimatorSpec. The loops read the cluster matrices through
  their values, so the estimator cannot change them.
 */
module Estimator {
  import opened Doubles
  import opened Matrices
  import opened EstimatorSpec

  /** Row counts over their total, filled in place in two passes; also
      returns the running total of rows, counted as a double. */
  method EstimatePriors(data: seq<Matrix>) returns (probhat: array<Double>, total: real)
    ensures fresh(probhat)
    ensures probhat[..] == Priors(data)
    ensures total == TotalRows(data) as real
  {
    probhat := new Double[|data|];
    total := 0.0;
    for i := 0 to |data|
      invariant total == RowCount(data, i) as real
      invariant forall k | 0 <= k < i :: probhat[k] == Finite(|data[k]| as real)
    {
      total := total + |data[i]| as real;
      probhat[i] := Finite(|data[i]| as real);
    }
    for i := 0 to probhat.Length
      invariant forall k | 0 <= k < i :: probhat[k] == Prior(data, k)
      invariant forall k | i <= k < |data| :: probhat[k] == Finite(|data[k]| as real)
    {
      probhat[i] := Divide(probhat[i].value, total);
    }
  }

  /** Per-cluster, per-feature averages: a running column sum divided by the
      cluster's row count. */
  method EstimateMeans(data: seq<Matrix>, d: nat) returns (muhat: array2<Double>)
    requires Shaped(data, d)
    ensures fresh(muhat)
    ensures muhat.Length0 == |data| && muhat.Length1 == d
    ensures forall i, j | 0 <= i < |data| && 0 <= j < d :: muhat[i, j] == Mean(data, i, j)
  {
    muhat := new Double[|data|, d];
    for i := 0 to |data|
      invariant forall i', j | 0 <= i' < i && 0 <= j < d :: muhat[i', j] == Mean(data, i', j)
    {
      for j := 0 to d
        invariant forall i', j' | 0 <= i' < i && 0 <= j' < d :: muhat[i', j'] == Mean(data, i', j')
        invariant forall j' | 0 <= j' < j :: muhat[i, j'] == Mean(data, i, j')
      {
        var cursum := 0.0;
        for k := 0 to |data[i]|
          invariant cursum == ColumnSum(data[i], j, k)
        {
          cursum := cursum + data[i][k][j];
        }
        muhat[i, j] := Divide(cursum, |data[i]| as real);
      }
    }
  }

  /** The second, integer count of all samples. */
  method CountSamples(data: seq<Matrix>) returns (totalsize: int)
    ensures totalsize == TotalRows(data)
  {
    totalsize := 0;
    for i := 0 to |data|
      invariant totalsize == RowCount(data, i)
    {
      totalsize := totalsize + |data[i]|;
    }
  }

  /** The running sum of centred cross products of features `i` and `j` over
      every row of every cluster, centred on the stored means. */
  method CrossProductSum(data: seq<Matrix>, d: nat, muhat: array2<Double>, i: nat, j: nat)
    returns (cursum: real)
    requires Shaped(data, d) && i < d && j < d
    requires muhat.Length0 == |data| && muhat.Length1 == d
    requires forall k, c | 0 <= k < |data| && 0 <= c < d :: muhat[k, c] == Mean(data, k, c)
    ensures cursum == PooledCross(data, i, j, |data|)
  {
    cursum := 0.0;
    for k := 0 to |data|
      invariant cursum == PooledCross(data, i, j, k)
    {
      ghost var start := cursum;
      for l := 0 to |data[k]|
        invariant cursum == start + ClusterCross(data[k], i, j, l)
      {
        assert muhat[k, i] == Finite(MeanValue(data[k], i));
        assert muhat[k, j] == Finite(MeanValue(data[k], j));
        cursum := cursum + (data[k][l][i] - muhat[k, i].value) * (data[k][l][j] - muhat[k, j].value);
      }
    }
  }

  /** The pooled covariance: every entry is the pooled cross-product sum
      divided once by `totalsize - 1`. */
  method EstimateCovariance(data: seq<Matrix>, d: nat, muhat: array2<Double>, totalsize: int)
    returns (covhat: array2<Double>)
    requires Shaped(data, d)
    requires muhat.Length0 == |data| && muhat.Length1 == d
    requires forall k, c | 0 <= k < |data| && 0 <= c < d :: muhat[k, c] == Mean(data, k, c)
    requires totalsize == TotalRows(data)
    ensures fresh(covhat)
    ensures covhat.Length0 == d && covhat.Length1 == d
    ensures forall i, j | 0 <= i < d && 0 <= j < d :: covhat[i, j] == Covariance(data, i, j)
  {
    covhat := new Double[d, d];
    for i := 0 to d
      invariant forall i', j | 0 <= i' < i && 0 <= j < d :: covhat[i', j] == Covariance(data, i', j)
    {
      for j := 0 to d
        invariant forall i', j' | 0 <= i' < i && 0 <= j' < d :: covhat[i', j'] == Covariance(data, i', j')
        invariant forall j' | 0 <= j' < j :: covhat[i, j'] == Covariance(data, i, j')
      {
        var cursum := CrossProductSum(data, d, muhat, i, j);
        covhat[i, j] := Divide(cursum, (totalsize - 1) as real);
      }
    }
  }

  class Lda {
    var probhat: array<Double>  // estimated prior of each cluster
    var muhat: array2<Double>   // estimated mean of each feature in each cluster
    var covhat: array2<Double>  // estimated pooled covariance

    /** Estimates the priors, the means and the pooled covariance of the
        given cluster matrices, which are only read. */
    constructor (data: seq<array2<real>>)
      requires |data| >= 1
      requires forall k | 0 <= k < |data| :: data[k].Length1 == data[0].Length1
      ensures fresh(probhat) && fresh(muhat) && fresh(covhat)
      ensures probhat[..] == Priors(Snapshots(data))
      ensures Snapshot(muhat) == Means(Snapshots(data), data[0].Length1)
      ensures Snapshot(covhat) == Covariances(Snapshots(data), data[0].Length1)
      ensures Snapshots(data) == old(Snapshots(data))
    {
      var d := data[0].Length1;
      var clusters := Snapshots(data);
      SnapshotsEntries(data);
      assert Shaped(clusters, d);
      var p, total := EstimatePriors(clusters);
      var mu := EstimateMeans(clusters, d);
      var totalsize := CountSamples(clusters);
      assert totalsize as real == total;
      var cov := EstimateCovariance(clusters, d, mu, totalsize);
      probhat, muhat, covhat := p, mu, cov;
      new;
      SnapshotIs(muhat, Means(clusters, d));
      SnapshotIs(covhat, Covariances(clusters, d));
    }
  }
}
