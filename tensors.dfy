/** Integer matrices standing for the batch tensors (rows are sequences of the
    batch, columns are positions), and the element-wise tensor operations the
    bookkeeping uses: `zeros_like`, masked assignment, `sum`, column slicing. */
module Tensors {

  type Matrix = seq<seq<int>>

  /** Two matrices have the same number of rows and matching row lengths. */
  predicate SameShape<A, B>(a: seq<seq<A>>, b: seq<seq<B>>)
  {
    |a| == |b| && forall i :: 0 <= i < |a| ==> |a[i]| == |b[i]|
  }

  /** Every row has `width` elements. */
  predicate Rectangular<A>(m: seq<seq<A>>, width: nat)
  {
    forall i :: 0 <= i < |m| ==> |m[i]| == width
  }

  /** `torch.zeros_like(x)`. */
  function ZerosLike<T>(x: seq<seq<T>>): (z: Matrix)
    ensures SameShape(z, x)
    ensures forall i, j :: 0 <= i < |z| && 0 <= j < |z[i]| ==> z[i][j] == 0
  {
    seq(|x|, i requires 0 <= i < |x| => seq(|x[i]|, _ => 0))
  }

  /** `m[sel(key)] = v`: overwrite with `v` the entries whose key is selected. */
  function Assign<T>(m: Matrix, key: seq<seq<T>>, sel: T -> bool, v: int): (r: Matrix)
    requires SameShape(m, key)
    ensures SameShape(r, m)
    ensures forall i, j :: 0 <= i < |r| && 0 <= j < |r[i]| ==>
      r[i][j] == if sel(key[i][j]) then v else m[i][j]
  {
    seq(|m|, i requires 0 <= i < |m| =>
      seq(|m[i]|, j requires 0 <= j < |m[i]| => if sel(key[i][j]) then v else m[i][j]))
  }

  /** `zip` of two matrices of the same shape, element by element. */
  function Zip(a: Matrix, b: Matrix): (z: seq<seq<(int, int)>>)
    requires SameShape(a, b)
    ensures SameShape(z, a)
    ensures forall i, j :: 0 <= i < |z| && 0 <= j < |z[i]| ==> z[i][j] == (a[i][j], b[i][j])
  {
    seq(|a|, i requires 0 <= i < |a| =>
      seq(|a[i]|, j requires 0 <= j < |a[i]| => (a[i][j], b[i][j])))
  }

  function RowSum(row: seq<int>): (t: int)
    ensures (forall j :: 0 <= j < |row| ==> 0 <= row[j]) ==> 0 <= t
  {
    if row == [] then 0 else RowSum(row[..|row| - 1]) + row[|row| - 1]
  }

  /** `torch.sum(m)`: a tensor without negative entries sums to a count. */
  function Sum(m: Matrix): (s: int)
    ensures (forall i, j :: 0 <= i < |m| && 0 <= j < |m[i]| ==> 0 <= m[i][j]) ==> 0 <= s
  {
    if m == [] then 0 else Sum(m[..|m| - 1]) + RowSum(m[|m| - 1])
  }

  function RowCount<T>(row: seq<T>, p: T -> bool): nat
  {
    if row == [] then 0
    else RowCount(row[..|row| - 1], p) + if p(row[|row| - 1]) then 1 else 0
  }

  /** The number of entries of `m` that satisfy `p`: the reference meaning of
      summing a 0/1 indicator tensor. */
  function Count<T>(m: seq<seq<T>>, p: T -> bool): nat
  {
    if m == [] then 0 else Count(m[..|m| - 1], p) + RowCount(m[|m| - 1], p)
  }

  /** `ind` is the 0/1 indicator of `p` over `key`. */
  predicate Indicates<T>(ind: Matrix, key: seq<seq<T>>, p: T -> bool)
  {
    SameShape(ind, key) &&
    forall i, j :: 0 <= i < |ind| && 0 <= j < |ind[i]| ==>
      ind[i][j] == if p(key[i][j]) then 1 else 0
  }

  lemma {:induction false} RowSumOfIndicator<T>(ind: seq<int>, key: seq<T>, p: T -> bool)
    requires |ind| == |key|
    requires forall j :: 0 <= j < |ind| ==> ind[j] == if p(key[j]) then 1 else 0
    ensures RowSum(ind) == RowCount(key, p)
  {
    if ind != [] {
      RowSumOfIndicator(ind[..|ind| - 1], key[..|key| - 1], p);
    }
  }

  /** Summing a 0/1 indicator tensor counts the entries it marks. */
  lemma {:induction false} SumOfIndicator<T>(ind: Matrix, key: seq<seq<T>>, p: T -> bool)
    requires Indicates(ind, key, p)
    ensures Sum(ind) == Count(key, p)
  {
    if ind != [] {
      var n := |ind| - 1;
      assert Indicates(ind[..n], key[..n], p);
      SumOfIndicator(ind[..n], key[..n], p);
      RowSumOfIndicator(ind[n], key[n], p);
    }
  }

  lemma {:induction false} RowCountAppend<T>(a: seq<T>, b: seq<T>, p: T -> bool)
    ensures RowCount(a + b, p) == RowCount(a, p) + RowCount(b, p)
    decreases |b|
  {
    if b != [] {
      var n := |b| - 1;
      assert (a + b)[..|a + b| - 1] == a + b[..n];
      assert (a + b)[|a + b| - 1] == b[n];
      RowCountAppend(a, b[..n], p);
    } else {
      assert a + b == a;
    }
  }

  /** `m[:, t]`: column `t` of the batch. */
  function Column(m: Matrix, t: nat): (c: seq<int>)
    requires forall i :: 0 <= i < |m| ==> t < |m[i]|
    ensures |c| == |m| && forall i :: 0 <= i < |m| ==> c[i] == m[i][t]
  {
    seq(|m|, i requires 0 <= i < |m| => m[i][t])
  }

  /** `torch.cat(cols, 0).transpose(0, 1)`: the list of per-step columns
      turned into a rows-by-steps matrix. */
  function Transpose(cols: seq<seq<int>>, rows: nat): (m: Matrix)
    requires forall t :: 0 <= t < |cols| ==> |cols[t]| == rows
    ensures |m| == rows && Rectangular(m, |cols|)
    ensures forall i, t :: 0 <= i < rows && 0 <= t < |cols| ==> m[i][t] == cols[t][i]
  {
    seq(rows, i requires 0 <= i < rows =>
      seq(|cols|, t requires 0 <= t < |cols| => cols[t][i]))
  }

  /** `batch[1][1:]` after the transpose: every row loses its first position. */
  function DropFirst(m: Matrix): (r: Matrix)
    requires forall i :: 0 <= i < |m| ==> |m[i]| >= 1
    ensures |r| == |m|
    ensures forall i :: 0 <= i < |m| ==> r[i] == m[i][1..]
  {
    seq(|m|, i requires 0 <= i < |m| => m[i][1..])
  }

  /** `m[:, :w]`: every row cut to its first `w` positions. */
  function TakeColumns(m: Matrix, w: nat): (r: Matrix)
    requires forall i :: 0 <= i < |m| ==> w <= |m[i]|
    ensures |r| == |m| && Rectangular(r, w)
    ensures forall i :: 0 <= i < |m| ==> r[i] == m[i][..w]
  {
    seq(|m|, i requires 0 <= i < |m| => m[i][..w])
  }
}
