/** PatchEncoder.py: a Keras layer that projects every patch vector with a
    shared Dense layer (kernel and bias) and adds a learned positional
    vector, looked up in an Embedding table by patch position. Float32 is
    modelled by exact reals; the weights are the values current during one
    forward pass. */
module PatchEncoding {
  import opened Results
  import opened Tensors

  /** Keras rejects an Embedding with fewer than one row or column when the
      layer is constructed; a Dense layer rejects an input whose last axis
      does not match its kernel; TensorFlow's add rejects shapes that do not
      broadcast. */
  datatype EncodeError = InvalidLayerSize | WidthMismatch | IncompatibleShapes

  /** `tf.range(start, limit, delta=1)`. */
  function Range(start: int, limit: int): (r: seq<int>)
    ensures |r| == if start < limit then limit - start else 0
    ensures forall i :: 0 <= i < |r| ==> r[i] == start + i
    decreases limit - start
  {
    if start >= limit then [] else [start] + Range(start + 1, limit)
  }

  function Dot(u: seq<real>, v: seq<real>): real
    requires |u| == |v|
  {
    if |u| == 0 then 0.0 else Dot(u[..|u| - 1], v[..|v| - 1]) + u[|u| - 1] * v[|v| - 1]
  }

  function VecAdd(u: seq<real>, v: seq<real>): (w: seq<real>)
    requires |u| == |v|
    ensures |w| == |u|
  {
    seq(|u|, i requires 0 <= i < |u| => u[i] + v[i])
  }

  /** Column j of a matrix given as rows. */
  function Column(m: seq<seq<real>>, j: nat): (col: seq<real>)
    requires forall k :: 0 <= k < |m| ==> j < |m[k]|
    ensures |col| == |m|
  {
    seq(|m|, k requires 0 <= k < |m| => m[k][j])
  }

  /** TensorFlow's broadcasting of one axis: the sizes broadcast exactly when
      they are equal or one of them is 1, and the common size is the one that
      each operand either has or is stretched to from 1. */
  function BroadcastDim(a: nat, b: nat): (r: Option<nat>)
    ensures r.Some? <==> a == b || a == 1 || b == 1
    ensures r.Some? ==> (a == r.value || a == 1) && (b == r.value || b == 1)
    ensures r.Some? && a == 1 && b == 1 ==> r.value == 1
  {
    if a == b then Some(a) else if a == 1 then Some(b) else if b == 1 then Some(a) else None
  }

  /** The index read from an operand of size n at position i of the
      broadcast axis (n broadcast against m): always inside the operand, and
      i itself when the operand is not stretched. */
  function BroadcastIndex(n: nat, m: nat, i: nat): (k: nat)
    requires BroadcastDim(n, m).Some? && i < BroadcastDim(n, m).value
    ensures k < n
    ensures n == BroadcastDim(n, m).value ==> k == i
  {
    if n == 1 then 0 else i
  }

  /** The layer: `num_patches`, the Dense kernel (patch_dim rows of
      projection_dim columns) and bias, and the Embedding table
      (num_patches rows of projection_dim columns) that `__init__` creates. */
  datatype PatchEncoder = PatchEncoder(numPatches: nat, projectionDim: nat,
                                       kernel: seq<seq<real>>, bias: seq<real>,
                                       table: seq<seq<real>>) {

    /** The weight shapes that `__init__` and the first call establish. */
    predicate Valid() {
      numPatches >= 1 && projectionDim >= 1 &&
      IsMatrix(kernel, |kernel|, projectionDim) &&
      |bias| == projectionDim &&
      IsMatrix(table, numPatches, projectionDim)
    }

    /** `self.projection(v)` on one patch vector: v · kernel + bias. */
    function Project(v: seq<real>): (r: seq<real>)
      requires Valid() && |v| == |kernel|
      ensures |r| == projectionDim
    {
      seq(projectionDim, j requires 0 <= j < projectionDim => Dot(v, Column(kernel, j)) + bias[j])
    }

    /** `positions = tf.range(start=0, limit=self.num_patches, delta=1)`:
        every position indexes a row of the table. */
    function Positions(): (r: seq<int>)
      ensures |r| == numPatches
      ensures forall i :: 0 <= i < |r| ==> r[i] == i && 0 <= r[i] < numPatches
    {
      Range(0, numPatches)
    }

    /** `self.position_embedding(ids)`: the table rows named by `ids`. */
    function Embed(ids: seq<int>): (rows: seq<seq<real>>)
      requires Valid()
      requires forall i :: 0 <= i < |ids| ==> 0 <= ids[i] < numPatches
      ensures IsMatrix(rows, |ids|, projectionDim)
    {
      seq(|ids|, i requires 0 <= i < |ids| => table[ids[i]])
    }

    /** `call(patches)`: `self.projection(patches) + self.position_embedding(positions)`,
        a (B, N, D) tensor plus an (numPatches, D) tensor broadcast over the batch. */
    function Call(patches: Tensor3<real>): (r: Result<Tensor3<real>, EncodeError>)
      requires Valid() && patches.Valid()
      ensures r.Success? <==> patches.d2 == |kernel| && BroadcastDim(patches.d1, numPatches).Some?
      ensures r.Success? ==> r.value.Valid()
      ensures r.Success? ==> r.value.d0 == patches.d0 && r.value.d2 == projectionDim
      ensures r.Success? ==> r.value.d1 == BroadcastDim(patches.d1, numPatches).value
    {
      if patches.d2 != |kernel| then Failure(WidthMismatch)
      else match BroadcastDim(patches.d1, numPatches)
        case None => Failure(IncompatibleShapes)
        case Some(n) =>
          var positional := Embed(Positions());
          Success(Tensor3(patches.d0, n, projectionDim,
            seq(patches.d0, b requires 0 <= b < patches.d0 =>
              seq(n, i requires 0 <= i < n =>
                VecAdd(Project(patches.data[b][BroadcastIndex(patches.d1, numPatches, i)]),
                       positional[BroadcastIndex(numPatches, patches.d1, i)])))))
    }
  }

  /** `__init__(num_patches, projection_dim)`: the Dense layer and the
      Embedding table are built with the given sizes, and the Embedding
      constructor fails when either size is below 1. The weights are the values the layers hold
      (the table has num_patches rows, kernel and bias projection_dim
      columns). */
  function Init(numPatches: int, projectionDim: int,
                kernel: seq<seq<real>>, bias: seq<real>, table: seq<seq<real>>)
    : (r: Result<PatchEncoder, EncodeError>)
    requires projectionDim >= 1 ==> IsMatrix(kernel, |kernel|, projectionDim) && |bias| == projectionDim
    requires numPatches >= 1 && projectionDim >= 1 ==> IsMatrix(table, numPatches, projectionDim)
    ensures r.Success? <==> numPatches >= 1 && projectionDim >= 1
    ensures r.Failure? ==> r.error == InvalidLayerSize
    ensures r.Success? ==> r.value.Valid()
    ensures r.Success? ==> r.value.numPatches == numPatches && r.value.projectionDim == projectionDim
    ensures r.Success? ==> r.value.kernel == kernel && r.value.bias == bias && r.value.table == table
  {
    if numPatches < 1 || projectionDim < 1 then Failure(InvalidLayerSize)
    else Success(PatchEncoder(numPatches, projectionDim, kernel, bias, table))
  }

  /** Position i of image b is the shared projection of patch [b][i] plus
      table row i, when the sequence length is num_patches. */
  lemma CallRow(e: PatchEncoder, patches: Tensor3<real>, b: nat, i: nat)
    requires e.Valid() && patches.Valid()
    requires patches.d1 == e.numPatches && patches.d2 == |e.kernel|
    requires b < patches.d0 && i < patches.d1
    ensures e.Call(patches).Success?
    ensures e.Call(patches).value.data[b][i] == VecAdd(e.Project(patches.data[b][i]), e.table[i])
  {
    assert BroadcastIndex(e.numPatches, patches.d1, i) == i;
    assert e.Embed(e.Positions())[i] == e.table[i];
  }

  /** Elementwise: out[b][i][j] == (W · patches[b][i])[j] + bias[j] + table[i][j]. */
  lemma CallAt(e: PatchEncoder, patches: Tensor3<real>, b: nat, i: nat, j: nat)
    requires e.Valid() && patches.Valid()
    requires patches.d1 == e.numPatches && patches.d2 == |e.kernel|
    requires b < patches.d0 && i < patches.d1 && j < e.projectionDim
    ensures e.Call(patches).Success?
    ensures e.Call(patches).value.data[b][i][j]
         == Dot(patches.data[b][i], Column(e.kernel, j)) + e.bias[j] + e.table[i][j]
  {
    CallRow(e, patches, b, i);
  }

  /** The positional addend at position i is table row i, whatever the batch
      element and whatever the patch content. */
  lemma PositionalTermInvariant(e: PatchEncoder, p1: Tensor3<real>, p2: Tensor3<real>,
                                b1: nat, b2: nat, i: nat, j: nat)
    requires e.Valid() && p1.Valid() && p2.Valid()
    requires p1.d1 == e.numPatches && p1.d2 == |e.kernel| && b1 < p1.d0
    requires p2.d1 == e.numPatches && p2.d2 == |e.kernel| && b2 < p2.d0
    requires i < e.numPatches && j < e.projectionDim
    ensures e.Call(p1).Success? && e.Call(p2).Success?
    ensures e.Call(p1).value.data[b1][i][j] - e.Project(p1.data[b1][i])[j]
         == e.Call(p2).value.data[b2][i][j] - e.Project(p2.data[b2][i])[j]
         == e.table[i][j]
  {
    CallRow(e, p1, b1, i);
    CallRow(e, p2, b2, i);
  }

  /** The projection is shared: equal patch vectors at the same position give
      equal outputs, in any batch element of any input. */
  lemma SharedProjection(e: PatchEncoder, p1: Tensor3<real>, p2: Tensor3<real>,
                         b1: nat, b2: nat, i: nat)
    requires e.Valid() && p1.Valid() && p2.Valid()
    requires p1.d1 == e.numPatches && p1.d2 == |e.kernel| && b1 < p1.d0
    requires p2.d1 == e.numPatches && p2.d2 == |e.kernel| && b2 < p2.d0
    requires i < e.numPatches && p1.data[b1][i] == p2.data[b2][i]
    ensures e.Call(p1).Success? && e.Call(p2).Success?
    ensures e.Call(p1).value.data[b1][i] == e.Call(p2).value.data[b2][i]
  {
    CallRow(e, p1, b1, i);
    CallRow(e, p2, b2, i);
  }

  /** A sequence of length 1 is broadcast against the table: every position
      gets the projection of the one patch plus its own table row. */
  lemma SinglePatchBroadcast(e: PatchEncoder, patches: Tensor3<real>, b: nat, i: nat)
    requires e.Valid() && patches.Valid()
    requires patches.d1 == 1 && patches.d2 == |e.kernel|
    requires b < patches.d0 && i < e.numPatches
    ensures e.Call(patches).Success? && e.Call(patches).value.d1 == e.numPatches
    ensures e.Call(patches).value.data[b][i] == VecAdd(e.Project(patches.data[b][0]), e.table[i])
  {
    assert BroadcastIndex(e.numPatches, patches.d1, i) == i;
    assert e.Embed(e.Positions())[i] == e.table[i];
  }

  /** The unit vector e_j of length n. */
  function Unit(n: nat, j: nat): (u: seq<real>)
    ensures |u| == n
  {
    seq(n, k requires 0 <= k < n => if k == j then 1.0 else 0.0)
  }

  /** The n × n identity matrix. */
  function Identity(n: nat): (m: seq<seq<real>>)
    ensures IsMatrix(m, n, n)
  {
    seq(n, k requires 0 <= k < n => Unit(n, k))
  }

  function Zeros(n: nat): (z: seq<real>)
    ensures |z| == n
  {
    seq(n, k requires 0 <= k < n => 0.0)
  }

  /** An encoder whose projection is the identity with zero bias and whose
      positional table is all zeros. */
  function IdentityEncoder(numPatches: nat, width: nat): (e: PatchEncoder)
    requires numPatches >= 1 && width >= 1
    ensures e.Valid() && e.numPatches == numPatches && e.projectionDim == width && |e.kernel| == width
  {
    PatchEncoder(numPatches, width, Identity(width), Zeros(width),
                 seq(numPatches, i requires 0 <= i < numPatches => Zeros(width)))
  }

  /** Dot product with e_j picks entry j. */
  lemma {:induction false} DotUnit(u: seq<real>, j: nat)
    ensures Dot(u, Unit(|u|, j)) == if j < |u| then u[j] else 0.0
  {
    var n := |u|;
    if n > 0 {
      assert Unit(n, j)[..n - 1] == Unit(n - 1, j);
      DotUnit(u[..n - 1], j);
    }
  }

  /** With identity projection, zero bias and zero table, the encoder returns
      its input unchanged. */
  lemma IdentityEncoderIsIdentity(patches: Tensor3<real>)
    requires patches.Valid() && patches.d1 >= 1 && patches.d2 >= 1
    ensures IdentityEncoder(patches.d1, patches.d2).Call(patches) == Success(patches)
  {
    var e := IdentityEncoder(patches.d1, patches.d2);
    var out := e.Call(patches).value;
    forall b, i | 0 <= b < patches.d0 && 0 <= i < patches.d1
      ensures out.data[b][i] == patches.data[b][i]
    {
      CallRow(e, patches, b, i);
      var v := patches.data[b][i];
      forall j | 0 <= j < patches.d2 ensures out.data[b][i][j] == v[j] {
        assert Column(e.kernel, j) == Unit(patches.d2, j);
        DotUnit(v, j);
      }
    }
    forall b | 0 <= b < patches.d0 ensures out.data[b] == patches.data[b] {
    }
    assert out.data == patches.data;
  }
}
