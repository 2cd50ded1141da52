# LDA estimator and clustered-Gaussian sampler, modelled in Dafny

This project models the two computational parts of a small Java library for
Linear Discriminant Analysis:

* **the estimator** (`LDA` constructor): from one sample matrix per cluster it
  fills the cluster priors `probhat`, the per-cluster feature means `muhat`
  and the pooled covariance `covhat` (centred cross products of every row of
  every cluster, divided once by N - 1);
* **the sampler** (`LdaData`): its constructor stores the mixture
  probabilities, the means and the covariance square root; `genData(size)`
  builds cumulative thresholds from the probabilities, assigns each uniform
  draw to a cluster with a break-early scan, counts the hits per cluster, and
  builds one matrix per cluster whose rows get that cluster's mean row added
  in place.

Files:

| file | module | contents |
|---|---|---|
| `doubles.dfy` | `Doubles` | `Double`: a Java double as an exact real, or the NaN / infinity that division by zero gives |
| `matrices.dfy` | `Matrices` | `DenseMatrix64F` as `array2<real>`; `Snapshot` reads one as a sequence of rows |
| `estimator_spec.dfy` | `EstimatorSpec` | the estimator's formulas (`Priors`, `Means`, `Covariances`) and the lemmas about them |
| `estimator.dfy` | `Estimator` | the estimator's loops as methods, and class `Lda` whose constructor runs them |
| `sampler_spec.dfy` | `SamplerSpec` | thresholds, the draw-to-cluster rule (`Select`), the histogram, and the lemmas about them |
| `sampler.dfy` | `Sampler` | class `LdaData`: constructor, threshold loop, scan, counting loop, in-place mean shift, `GenData` |

Modelling decisions:

* Doubles are exact reals. The only non-finite values the estimator can make
  come from 0/0: the prior of every cluster when there are no samples, the
  mean of an empty cluster, and the whole covariance when there is a single
  sample. `Doubles.Divide` gives `NaN` there, as Java does, instead of the
  model refusing such inputs.
* The random stream is replaced by inputs: `draws` holds the values
  `nextDouble()` returns, and `gaussTimesSqrt(i, a, b)` is entry (a, b) of
  cluster i's matrix of Gaussian draws multiplied by the covariance square
  root.
* The estimator's loops read the cluster matrices through their values
  (`Snapshots(data)`), so the model shows by construction that nothing is
  written to them; the constructor also says so in its contract.
* The code does not reject empty clusters, a single sample or a negative
  `size`. The model gives NaN in the first two cases and empty clusters for a
  negative size (`DrawCount`). Priors sum to 1 exactly over the reals, with
  no tolerance needed.
* `means` is read only for clusters that receive at least one draw (and only
  when `dim > 0`), so the sampler's methods demand that `means` cover exactly
  those clusters and no others.

## Model

| member | source | states |
|---|---|---|
| `Estimator.EstimatePriors` | LDA.java:16-27 | `probhat` has one entry per cluster, entry i is `Prior`: cluster i's row count over the total row count; the returned `total` is N |
| `Estimator.EstimateMeans` | LDA.java:49-60 | `muhat` is C x d and entry (i, j) is `Mean`: the sum of column j over cluster i's rows divided by its row count |
| `Estimator.CountSamples` | LDA.java:65-69 | `totalsize` is N; together with `EstimatePriors` the two independent counts of N agree |
| `Estimator.CrossProductSum` | LDA.java:79-87 | the running `cursum` ends as the sum over all clusters k and rows l of (x[k][l][i] - mu[k][i]) * (x[k][l][j] - mu[k][j]) |
| `Estimator.EstimateCovariance` | LDA.java:64-92 | `covhat` is d x d and entry (i, j) is that pooled sum divided once by `totalsize - 1` |
| `Estimator.Lda.constructor` | LDA.java:11-94 | the three fields hold exactly `Priors`, `Means` and `Covariances` of the input clusters, and the input matrices are unchanged |
| `EstimatorSpec.PriorsSumToOne` | LDA.java:17-27 | with at least one sample every prior is finite and the priors sum to exactly 1 |
| `EstimatorSpec.PriorsPositive` | LDA.java:20-27 | when every cluster has a row, every prior is strictly positive and at most 1 |
| `EstimatorSpec.PriorsWithoutSamples` | LDA.java:25-27 | with no sample at all every prior is NaN |
| `EstimatorSpec.MeanCentresColumn` | LDA.java:52-60 | the mean of a non-empty cluster is finite and the deviations of the column from it sum to zero |
| `EstimatorSpec.MeanOfEmptyCluster` | LDA.java:55-58 | the mean of a cluster with no rows is NaN |
| `EstimatorSpec.CovarianceSymmetric` | LDA.java:71-91 | `covhat[i][j] == covhat[j][i]` for all i, j |
| `EstimatorSpec.CovarianceDiagonalNonNegative` | LDA.java:84-90 | with N >= 2 every diagonal entry is finite and non-negative, a sum of squares over a positive divisor |
| `EstimatorSpec.CovarianceOfSingleSample` | LDA.java:84-90 | with N = 1 every centred value is 0 and the divisor is 0, so every entry is NaN |
| `Sampler.LdaData.constructor` | LdaData.java:19-38 | keeps the caller's `mu` and `probs` arrays themselves, sets `clusters = probs.Length` and `dim = cov`'s column count, and leaves `cov` unchanged |
| `Sampler.LdaData.CumulativeThresholds` | LdaData.java:72-80 | `betterprobs[0] = 0` and `betterprobs[i] = probabilities[0] + ... + probabilities[i-1]` |
| `SamplerSpec.ThresholdsNonDecreasing` | LdaData.java:75-80 | non-negative probabilities give non-decreasing thresholds |
| `SamplerSpec.FirstAbove` | LdaData.java:88-90 | the scan breaks at the first index whose threshold is strictly above the draw, or runs off the end when there is none |
| `SamplerSpec.Select` | LdaData.java:86-91 | the selected cluster index is always in [0, clusters), for any draw |
| `Sampler.Assign` | LdaData.java:86-91 | the break-early scan returns exactly `Select` of the thresholds and the draw |
| `SamplerSpec.SelectIsLastThresholdAtOrBelow` | LdaData.java:86-91 | with non-decreasing thresholds and a draw >= 0, the chosen c has `betterprobs[c] <= rand` and every later threshold is above `rand`: c is the largest such index |
| `SamplerSpec.ResidualGoesToLast` | LdaData.java:88-91 | a draw at or above every threshold goes to the last cluster, which so takes any mass the probabilities leave over |
| `SamplerSpec.DrawFallsInItsInterval` | LdaData.java:73-91 | for non-negative probabilities and a draw >= 0, cluster c is chosen if and only if the draw lies in [p0 + ... + p(c-1), p0 + ... + pc), the last cluster having no upper end |
| `Sampler.CountDraws` | LdaData.java:83-93 | `proportions[c]` is the number of the `size` draws that select c; entries are non-negative and sum to exactly `size` (0 for size <= 0) |
| `SamplerSpec.HistogramSumsToDraws` | LdaData.java:83-93 | every draw lands in exactly one cluster: the counts sum to the number of draws |
| `SamplerSpec.ProportionsSumToSize` | LdaData.java:83-93 | the cluster sizes sum to exactly `size`, and `size = 0` gives all zeros |
| `Sampler.LdaData.ShiftByMean` | LdaData.java:111-116 | after the loop, entry (a, b) equals its value before plus `means[i][b]`, for every row a; `means` need only cover row i when the matrix has an entry |
| `Sampler.LdaData.MakeCluster` | LdaData.java:97-118 | cluster i's matrix is rows x `dim` and entry (a, b) is the transformed Gaussian entry plus `means[i][b]` |
| `Sampler.LdaData.BuildClusters` | LdaData.java:96-119 | one fresh, distinct matrix per cluster, matrix i with `proportions[i]` rows and `dim` columns and entries shifted by mean row i; `means` need only cover the clusters with a non-zero count |
| `Sampler.LdaData.GenData` | LdaData.java:64-123 | exactly `clusters` matrices; matrix i has `Proportions(...)[i]` rows (the draws that selected i) and `dim` columns, each entry shifted by the cluster's mean; `means` need only cover the clusters that some draw selected |

## Left out

- `deltahat` and `hypcoeff` (LDA.java:97-214): they rest on matrix inversion and `Math.log` of a library over doubles; the antisymmetry of the hyperplane coefficients is therefore not stated.
- The eigendecomposition and matrix square root in the `LdaData` constructor (LdaData.java:36-60), including the copy of `cov` it works on: library calls on floating-point eigenvalues. The square root is a constructor parameter `covSqrt`.
- `java.util.Random` (LdaData.java:25, 87, 103): the uniform draws are the `draws` parameter, and the algorithm that produces them is not modelled; the model does not need them to lie in [0, 1).
- The Gaussian fill and the product `CommonOps.mult(cluster1, sqrt, cluster2)` (LdaData.java:98-109): a library product over random values, taken as the parameter `gaussTimesSqrt`; the stored `sqrt` field is therefore not read by `GenData`.
- IEEE-754 rounding, and the sign of zero (0 / -1 is -0.0 in Java, 0 here): doubles are exact reals.
- Estimator.Lda.constructor: requires at least one cluster matrix. On an empty array LDA.java:49 reads `data[0]` and throws `ArrayIndexOutOfBoundsException`; the model has no exceptions and does not model that path.
- Estimator.Lda.constructor: requires all cluster matrices to have the same column count. With differing counts the source either throws on an out-of-range `set`/`get` or leaves some mean entries at 0, and that behaviour is not modelled.
- Sampler.LdaData.CumulativeThresholds: requires at least one cluster. On an empty probability array LdaData.java:75 reads `probabilities[0]` and throws `ArrayIndexOutOfBoundsException`; the model does not model that path.
- Sampler.LdaData.GenData: requires at least one cluster, for the same reason as `CumulativeThresholds`: the source throws at LdaData.java:75 on an empty probability array, and the model does not model that path.
- Sampler.LdaData.GenData: where the source's `means.get` would throw for a cluster that does receive draws, the model requires that case away and does not model the exception.
- The demonstration driver `mainmethod.java`: it only wires a fixture together and prints.
