/** Dense tensors as nested sequences that carry their shape, so that an
    empty dimension still records the sizes of the ones inside it. */
module Tensors {
  import opened IndexArith

  /** `m` holds `rows` rows of `cols` entries each. */
  predicate IsMatrix<T>(m: seq<seq<T>>, rows: nat, cols: nat) {
    |m| == rows && forall i :: 0 <= i < rows ==> |m[i]| == cols
  }

  /** `t` is a box of d0 × d1 × d2 entries; one image is (height, width, channels). */
  predicate IsCube<T>(t: seq<seq<seq<T>>>, d0: nat, d1: nat, d2: nat) {
    |t| == d0 && forall i :: 0 <= i < d0 ==> IsMatrix(t[i], d1, d2)
  }

  /** A rank-3 tensor of shape (d0, d1, d2); a patch sequence is
      (batch, patches, patch width). */
  datatype Tensor3<T> = Tensor3(d0: nat, d1: nat, d2: nat, data: seq<seq<seq<T>>>) {
    predicate Valid() {
      IsCube(data, d0, d1, d2)
    }
  }

  /** A rank-4 tensor of shape (d0, d1, d2, d3); an image batch is
      (batch, height, width, channels). */
  datatype Tensor4<T> = Tensor4(d0: nat, d1: nat, d2: nat, d3: nat, data: seq<seq<seq<seq<T>>>>) {
    predicate Valid() {
      |data| == d0 && forall i :: 0 <= i < d0 ==> IsCube(data[i], d1, d2, d3)
    }
  }

  /** Row-major flattening of one level of nesting: the rows one after another. */
  function Concat<X>(s: seq<seq<X>>): seq<X> {
    if |s| == 0 then [] else s[0] + Concat(s[1..])
  }

  lemma {:induction false} ConcatLength<X>(s: seq<seq<X>>, len: nat)
    requires forall i :: 0 <= i < |s| ==> |s[i]| == len
    ensures |Concat(s)| == |s| * len
  {
    if |s| > 0 {
      ConcatLength(s[1..], len);
      assert |s| * len == len + (|s| - 1) * len;
    }
  }

  /** Entry j of row i lands at position i * len + j of the flattening. */
  lemma {:induction false} ConcatAt<X>(s: seq<seq<X>>, len: nat, i: nat, j: nat)
    requires forall k :: 0 <= k < |s| ==> |s[k]| == len
    requires i < |s| && j < len
    ensures |Concat(s)| == |s| * len
    ensures Join(i, j, len) < |Concat(s)|
    ensures Concat(s)[Join(i, j, len)] == s[i][j]
  {
    ConcatLength(s, len);
    JoinBound(i, j, |s|, len);
    if i > 0 {
      ConcatLength(s[1..], len);
      ConcatAt(s[1..], len, i - 1, j);
      assert Join(i, j, len) == len + Join(i - 1, j, len);
    }
  }

  /** Flattening a sequence of matrices of equal shape gives one taller matrix. */
  lemma {:induction false} ConcatMatrices<X>(s: seq<seq<seq<X>>>, rows: nat, cols: nat)
    requires IsCube(s, |s|, rows, cols)
    ensures IsMatrix(Concat(s), |s| * rows, cols)
  {
    if |s| > 0 {
      ConcatMatrices(s[1..], rows, cols);
      assert |s| * rows == rows + (|s| - 1) * rows;
    }
  }
}
