/**
  A `DenseMatrix64F` is modelled as an `array2`; `Snapshot` reads it as a
  value (a sequence of rows) so that specifications can be stated over values.
 */
module Matrices {

  /** A matrix value: a sequence of rows. */
  type Matrix = seq<seq<real>>

  /** Every row of `m` has an entry in column `j`. */
  predicate HasColumn(m: Matrix, j: nat)
  {
    forall r | 0 <= r < |m| :: j < |m[r]|
  }

  /** The current contents of `a`, row by row. */
  function Snapshot<T>(a: array2<T>): (m: seq<seq<T>>)
    reads a
    ensures |m| == a.Length0
  {
    seq(a.Length0, r requires 0 <= r < a.Length0 reads a =>
      seq(a.Length1, c requires 0 <= c < a.Length1 reads a => a[r, c]))
  }

  /** The shape and the entries of a snapshot. */
  lemma SnapshotEntries<T>(a: array2<T>)
    ensures forall r | 0 <= r < a.Length0 :: |Snapshot(a)[r]| == a.Length1
    ensures forall r, c | 0 <= r < a.Length0 && 0 <= c < a.Length1 :: Snapshot(a)[r][c] == a[r, c]
  {
  }

  /** A snapshot equals any value of the same shape with the same entries. */
  lemma SnapshotIs<T>(a: array2<T>, m: seq<seq<T>>)
    requires |m| == a.Length0
    requires forall r | 0 <= r < |m| :: |m[r]| == a.Length1
    requires forall r, c | 0 <= r < a.Length0 && 0 <= c < a.Length1 :: m[r][c] == a[r, c]
    ensures Snapshot(a) == m
  {
    SnapshotEntries(a);
    forall r | 0 <= r < |m| ensures Snapshot(a)[r] == m[r] {
    }
  }

  /** The current contents of every matrix in `ms`. */
  function Snapshots(ms: seq<array2<real>>): (s: seq<Matrix>)
    reads set k | 0 <= k < |ms| :: ms[k]
    ensures |s| == |ms|
  {
    seq(|ms|, k requires 0 <= k < |ms| reads set k | 0 <= k < |ms| :: ms[k] => Snapshot(ms[k]))
  }

  /** The row counts, column counts and entries of a snapshot of `ms`. */
  lemma SnapshotsEntries(ms: seq<array2<real>>)
    ensures forall k | 0 <= k < |ms| :: |Snapshots(ms)[k]| == ms[k].Length0
    ensures forall k, r | 0 <= k < |ms| && 0 <= r < ms[k].Length0 :: |Snapshots(ms)[k][r]| == ms[k].Length1
    ensures forall k, r, c | 0 <= k < |ms| && 0 <= r < ms[k].Length0 && 0 <= c < ms[k].Length1 ::
      Snapshots(ms)[k][r][c] == ms[k][r, c]
  {
  }
}
