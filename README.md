# ViT patch-embedding front end, modelled in Dafny

This project models the one custom piece of the Projeto-ViT image
classifier: the front end that turns a batch of images into the token
sequence of a Vision Transformer. It has two Keras layers:

- `PatchExtractor` (PatchExtractor.py). It cuts every image of a
  `(B, H, W, C)` batch into non-overlapping `P × P` windows, using
  `tf.image.extract_patches` with size = stride = `P`, dilation 1 and `VALID`
  padding. It flattens each window row by row, then column, then channel,
  and reshapes the grid to `(B, (H div P) * (W div P), P * P * C)`.
- `PatchEncoder` (PatchEncoder.py). It projects every patch vector with a
  shared Dense layer (kernel and bias). It then adds row `i` of an
  Embedding table to position `i`, looked up through
  `tf.range(0, num_patches)`.

`ModelCreator.vit_classifier` composes the two (ModelCreator.py:36-41). The
callers pass `num_patches = (S // P) ** 2` (Interface.py:184, Main.py:16).

Both layers are pure computations, so the model uses datatypes, functions and
lemmas:

| file | module | contents |
|---|---|---|
| results.dfy | `Results` | the `Result` and `Option` types; a Keras exception becomes `Failure` |
| index_arith.dfy | `IndexArith` | `Join(a, b, m) = a * m + b` (a two-digit mixed-radix number) and its division and bound lemmas |
| tensors.dfy | `Tensors` | `Tensor3`/`Tensor4` with explicit dimensions; row-major `Concat` and its indexing lemmas |
| patch_extractor.dfy | `PatchExtraction` | the extractor, the index maps `Source`/`Target` between pixels and output slots, and its properties |
| patch_encoder.dfy | `PatchEncoding` | the encoder (Dense, `tf.range`, Embedding, broadcast add) and its properties |
| front_end.dfy | `FrontEnd` | the composition, the caller's `num_patches`, and concrete scenarios |

Tensors carry their dimensions explicitly. An empty batch or an empty grid
therefore keeps its shape, as a TensorFlow tensor does. Tensor values are
generic (`T`) in the extractor, which only moves values. In the encoder they
are exact `real`s.

### Edge behaviour

- `padding='VALID'` silently drops the last `H mod P` rows and `W mod P`
  columns; no error is raised. `PatchExtractor.Call` fails only when
  `tf.image.extract_patches` itself would, which is when `P < 1`.
  `BorderDropped` and `Scenario225Border` state the truncation.
- The add at PatchEncoder.py:66 broadcasts a `(B, N, D)` tensor against a
  `(num_patches, D)` tensor, so `N == 1` or `num_patches == 1` is accepted
  and the size-1 axis is stretched. `PatchEncoder.Call` fails with
  `IncompatibleShapes` exactly when the two lengths differ and neither is 1.
  `SinglePatchBroadcast` states the `N == 1` case.
- Building the encoder fails when `num_patches` or `projection_dim` is below
  1: the Embedding constructor at PatchEncoder.py:33-35 refuses a table
  without rows or columns. For square images smaller than the patch the
  callers' `num_patches` is 0, so the front end is never built
  (`SmallImageRejected`).

## Model

| member | source | states |
|---|---|---|
| PatchExtraction.GridSize | PatchExtractor.py:41-57 | the VALID output size along an axis, `extent div P`: never more cells than pixels, and at least one cell exactly when the axis is at least `P` long |
| PatchExtraction.GridTruncates | PatchExtractor.py:53-55 | the grid along an axis covers `(extent div P) * P` pixels, leaving fewer than `P` over; it covers the whole axis exactly when `P` divides the extent |
| PatchExtraction.WindowAt | PatchExtractor.py:41-57 | the window of grid cell `(gy, gx)` holds pixel `(gy*P + r, gx*P + col)`, channel `ch`, at depth `(r*P + col)*C + ch` (row, then column, then channel) |
| PatchExtraction.ExtractPatches | PatchExtractor.py:41-57 | `extract_patches` with VALID padding yields a well-formed `(B, H div P, W div P, P*P*C)` tensor |
| PatchExtraction.Reshape | PatchExtractor.py:62-71 | the reshape keeps `B`, merges the grid axes into `ny*nx` and keeps the depth |
| PatchExtraction.ReshapeAt | PatchExtractor.py:63-71 | grid cell `(gy, gx)` becomes sequence position `gy*nx + gx` |
| PatchExtraction.PatchExtractor.Call | PatchExtractor.py:13-74 | fails exactly when `P < 1`; otherwise gives a well-formed `(B, (H div P)*(W div P), P*P*C)` tensor |
| PatchExtraction.CallWindow | PatchExtractor.py:41-71 | patch `gy*nx + gx` of image `b` is the flattened window at grid cell `(gy, gx)` |
| PatchExtraction.CallPatchOrder | PatchExtractor.py:63-71 | patch `k` is the window at grid cell `(k div nx, k mod nx)`, so patches run row-major over the grid |
| PatchExtraction.CallAt | PatchExtractor.py:41-71 | output `[b][gy*nx + gx][(r*P + col)*C + ch]` equals input `[b][gy*P + r][gx*P + col][ch]` |
| PatchExtraction.SourceCovered | PatchExtractor.py:47-55 | every output slot is fed from a pixel inside the whole cells of the grid |
| PatchExtraction.SourceThenTarget | PatchExtractor.py:47-52 | every slot's source pixel is covered, and the pixel-to-slot map sends it back to that slot |
| PatchExtraction.TargetThenSource | PatchExtractor.py:47-52 | every covered pixel has a slot, and the slot-to-pixel map sends it back to that pixel |
| PatchExtraction.ExactlyOnce | PatchExtractor.py:47-52 | a covered pixel is the source of a slot if and only if that slot is the pixel's target: each covered pixel appears exactly once |
| PatchExtraction.DivisibleCoversAll | PatchExtractor.py:47-55 | when `P` divides `H` and `W`, every pixel is covered and its slot leads back to it; with `SourceThenTarget` the index maps are a bijection between all pixels and all slots |
| PatchExtraction.BorderDropped | PatchExtractor.py:53-55 | a pixel of the bottom or right remainder is the source of no slot, and fewer than `P` rows and columns are dropped |
| PatchExtraction.CallAtPixel | PatchExtractor.py:41-71 | every covered pixel's value sits at its target slot in the output |
| PatchExtraction.CallSource | PatchExtractor.py:41-71 | every output value is the input value at the slot's source pixel: no value is computed |
| PatchExtraction.BatchIndependent | PatchExtractor.py:37-71 | output row `b` depends only on input image `b`: equal images give equal patch sequences, in any batch and at any index |
| PatchEncoding.Range | PatchEncoder.py:51 | `tf.range(start, limit)` has `max(limit - start, 0)` elements, and element `i` is `start + i` |
| PatchEncoding.BroadcastDim | PatchEncoder.py:66 | two axis sizes broadcast exactly when they are equal or one is 1; each operand then has the common size or is stretched from 1 |
| PatchEncoding.BroadcastIndex | PatchEncoder.py:66 | the index read from an operand on the broadcast axis lies inside the operand, and is the position itself when the operand is not stretched |
| PatchEncoding.Init | PatchEncoder.py:17-35 | `__init__` fails exactly when `num_patches < 1` or `projection_dim < 1`; otherwise the encoder holds those sizes and weights and is well-formed |
| PatchEncoding.PatchEncoder.Positions | PatchEncoder.py:49-51 | the positions are exactly `0, 1, ..., num_patches - 1`, each a valid row of the table |
| PatchEncoding.PatchEncoder.Embed | PatchEncoder.py:33-35 | the lookup yields one `projection_dim`-wide row per index |
| PatchEncoding.PatchEncoder.Project | PatchEncoder.py:28 | the Dense layer maps a `patch_dim` vector to a `projection_dim` vector |
| PatchEncoding.PatchEncoder.Call | PatchEncoder.py:48-69 | fails exactly when the patch width differs from the kernel's input width or when `N` and `num_patches` do not broadcast; otherwise gives a well-formed `(B, broadcast(N, num_patches), projection_dim)` tensor whatever `patch_dim` is |
| PatchEncoding.CallRow | PatchEncoder.py:66 | with `N == num_patches`, position `i` of image `b` is `Project(patches[b][i]) + table[i]` |
| PatchEncoding.CallAt | PatchEncoder.py:66 | elementwise, `out[b][i][j] = (patches[b][i] · W[:, j]) + bias[j] + table[i][j]` |
| PatchEncoding.PositionalTermInvariant | PatchEncoder.py:61-66 | the positional addend at position `i` is `table[i]` for every batch element and every input content |
| PatchEncoding.SharedProjection | PatchEncoder.py:28-66 | equal patch vectors at the same position give equal outputs, in any batch element of any input |
| PatchEncoding.SinglePatchBroadcast | PatchEncoder.py:66 | a length-1 sequence is broadcast: each of the `num_patches` positions gets the one patch's projection plus its own table row |
| PatchEncoding.IdentityEncoderIsIdentity | PatchEncoder.py:66 | with identity projection, zero bias and zero table, the encoder returns any non-empty patch tensor unchanged |
| FrontEnd.EmbedPatches | ModelCreator.py:36-41 | `encoder(extractor(images))`: fails with the extractor's error when `P < 1`; otherwise succeeds exactly when `P*P*C` matches the kernel and the patch count broadcasts against `num_patches`; it keeps the batch size and yields `projection_dim`-wide vectors |
| FrontEnd.NumPatches | Interface.py:184 | the callers' `(S // P) ** 2` is the square of the extractor's grid size along one axis, and is positive exactly when `S >= P` |
| FrontEnd.CallerNumPatchesAgrees | Interface.py:184 | for square images, the caller's `(S // P) ** 2` equals the extractor's patch count |
| FrontEnd.EmbedPatchesShape | ModelCreator.py:38-41 | with the caller's `num_patches` and a matching kernel, the front end succeeds on any square batch and yields `(B, num_patches, projection_dim)` |
| FrontEnd.EmbedPatchesAt | ModelCreator.py:38-41 | token `gy*nx + gx` of image `b` is the projection of the window at grid cell `(gy, gx)` plus table row `gy*nx + gx` |
| FrontEnd.EmbedPatchesIdentity | ModelCreator.py:38-41 | for any images at least one patch wide and high, followed by the identity encoder for the extractor's patch count and width, the front end returns exactly the extracted patches |
| FrontEnd.SmallImageRejected | Interface.py:184 | for square images smaller than the patch, the callers' `num_patches` is 0 and building the encoder fails |
| FrontEnd.Scenario224 | Main.py:123-174 | a `1 × 224 × 224 × 3` batch with `P = 16` gives patches of shape `(1, 196, 768)`, and with `projection_dim = 512` tokens of shape `(1, 196, 512)` |
| FrontEnd.Scenario32 | PatchExtractor.py:62-71 | a 32 × 32 image with `P = 16` gives 4 patches of `256 * C` values |
| FrontEnd.Scenario225Grid | PatchExtractor.py:53-55 | a 225 × 225 image with `P = 16` is not rejected: the grid is 14 × 14, the caller's 196 patches |
| FrontEnd.Scenario225Border | PatchExtractor.py:53-55 | in that case no slot takes a pixel from row 224 or column 224 |
| FrontEnd.ScenarioLengthMismatch | PatchEncoder.py:66 | an encoder built for 196 positions rejects a sequence of 200 patches of the right width with `IncompatibleShapes` |

`Join(a, b, m)` in the contracts is `a * m + b`. So `Join(gy, gx, nx)` is
patch index `gy*nx + gx`, and `DepthIndex(P, C, r, col, ch)` is
`(r*P + col)*C + ch`.

## Left out

- Float32 arithmetic: the encoder works on exact reals. Rounding, weight
  initialisation and gradients are not modelled. The weights are the values
  current during one forward pass.
- Keras's lazy build of the Dense kernel: the kernel's input width is fixed
  when the layer is first called. The model takes a kernel of any height and
  reports `WidthMismatch` when a call's patch width differs from it.
- Symbolic tensors with unknown sizes (`layers.Input`, `tf.shape` at graph
  build time): the model works on concrete tensors.
- The transformer blocks and classification head (ModelCreator.py:44-98):
  attention, layer normalisation, GELU and dropout are float numerics of the
  framework. Only the extractor-to-encoder composition is modelled.
- The GUI and dialogs (Interface.py, VitParameters.py, DataParameters.py,
  NetworkLogName.py): they are widgets with no algorithmic content. Only the
  `num_patches` formula at Interface.py:184 is modelled.
- Training (TrainerThread.py, the commented-out `vit_compile_train`): it is
  thread concurrency and calls into Keras's `compile`/`fit`.
- Data loading and log-directory naming (DataLoader.py, Model.py): they
  depend on filesystem state and dialogs.
- Embedding lookups out of range: `tf.range(0, num_patches)` only produces
  valid indices (`Positions`), so that path cannot arise.
- Ranks other than 4 for the extractor's input and 3 for the encoder's:
  the layers are only ever called on these shapes.
- Keras's own layer constructors are not part of this model. `Init` follows
  the Embedding constructor's refusal of sizes below 1, and takes the initial weights
  as parameters instead of drawing them at random.
- FrontEnd.NumPatches: requires `P >= 1`. Interface.py:184 is reached with
  any integer `P`. With `P = 0` Python raises ZeroDivisionError there. With
  `P < 0` Python's floor division gives a positive count, which Dafny's
  Euclidean division would not reproduce. Neither case is modelled, because
  the extractor rejects `P < 1` anyway (`PatchExtractor.Call`,
  ModelCreator.py:38), so the front end is never built.
