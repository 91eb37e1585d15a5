/** The front end that ModelCreator.vit_classifier builds before the
    transformer blocks: input images, PatchExtractor(patch_size), then
    PatchEncoder(num_patches, projection_dim), with num_patches computed by
    the caller as (image_size // patch_size) ** 2. */
module FrontEnd {
  import opened Results
  import opened Tensors
  import opened IndexArith
  import opened PatchExtraction
  import opened PatchEncoding

  datatype FrontEndError = ExtractFailed(ExtractError) | EncodeFailed(EncodeError)

  /** `num_patches = (image_size // patch_size) ** 2`, as the callers pass it. */
  function NumPatches(imageSize: nat, patchSize: nat): (n: nat)
    requires patchSize >= 1
    ensures n == GridSize(imageSize, patchSize) * GridSize(imageSize, patchSize)
    ensures n >= 1 <==> imageSize >= patchSize
  {
    (imageSize / patchSize) * (imageSize / patchSize)
  }

  /** `encoder(extractor(images))`. */
  function EmbedPatches(extractor: PatchExtractor, encoder: PatchEncoder, images: Tensor4<real>)
    : (r: Result<Tensor3<real>, FrontEndError>)
    requires images.Valid() && encoder.Valid()
    ensures extractor.patchSize < 1 ==> r == Failure(ExtractFailed(InvalidPatchSize))
    ensures extractor.patchSize >= 1 ==>
              var n := GridSize(images.d1, extractor.patchSize) * GridSize(images.d2, extractor.patchSize);
              (r.Success? <==> extractor.patchSize * extractor.patchSize * images.d3 == |encoder.kernel| &&
                               BroadcastDim(n, encoder.numPatches).Some?)
    ensures r.Success? ==> r.value.Valid() && r.value.d0 == images.d0 && r.value.d2 == encoder.projectionDim
  {
    match extractor.Call(images)
    case Failure(err) => Failure(ExtractFailed(err))
    case Success(patches) =>
      match encoder.Call(patches)
      case Failure(err) => Failure(EncodeFailed(err))
      case Success(encoded) => Success(encoded)
  }

  /** For square S × S images the caller's num_patches is exactly the number
      of patches the extractor produces. */
  lemma CallerNumPatchesAgrees<T>(extractor: PatchExtractor, images: Tensor4<T>)
    requires images.Valid() && images.d1 == images.d2 && extractor.patchSize >= 1
    ensures extractor.Call(images).Success?
    ensures extractor.Call(images).value.d1 == NumPatches(images.d1, extractor.patchSize)
  {
  }

  /** With the caller's num_patches and a kernel built for P * P * C inputs,
      the front end succeeds on any batch of square images, keeps the batch
      size, and yields num_patches vectors of projection_dim values. */
  lemma EmbedPatchesShape(extractor: PatchExtractor, encoder: PatchEncoder, images: Tensor4<real>)
    requires images.Valid() && encoder.Valid()
    requires images.d1 == images.d2 && extractor.patchSize >= 1
    requires encoder.numPatches == NumPatches(images.d1, extractor.patchSize)
    requires |encoder.kernel| == extractor.patchSize * extractor.patchSize * images.d3
    ensures extractor.Call(images).Success?
    ensures encoder.Call(extractor.Call(images).value).Success?
    ensures EmbedPatches(extractor, encoder, images) == Success(encoder.Call(extractor.Call(images).value).value)
    ensures var out := EmbedPatches(extractor, encoder, images).value;
            out.Valid() && out.d0 == images.d0 && out.d1 == encoder.numPatches &&
            out.d2 == encoder.projectionDim
  {
  }

  /** The window at grid cell (gy, gx) of image b becomes position
      Join(gy, gx, nx): its shared projection plus table row Join(gy, gx, nx). */
  lemma EmbedPatchesAt(extractor: PatchExtractor, encoder: PatchEncoder, images: Tensor4<real>,
                       b: nat, gy: nat, gx: nat)
    requires images.Valid() && encoder.Valid()
    requires images.d1 == images.d2 && extractor.patchSize >= 1
    requires encoder.numPatches == NumPatches(images.d1, extractor.patchSize)
    requires |encoder.kernel| == extractor.patchSize * extractor.patchSize * images.d3
    requires b < images.d0
    requires gy < GridSize(images.d1, extractor.patchSize) && gx < GridSize(images.d2, extractor.patchSize)
    ensures EmbedPatches(extractor, encoder, images).Success?
    ensures var out := EmbedPatches(extractor, encoder, images).value;
            var p, nx := extractor.patchSize, GridSize(images.d2, extractor.patchSize);
            b < out.d0 && Join(gy, gx, nx) < out.d1 && Join(gy, gx, nx) < encoder.numPatches &&
            out.data[b][Join(gy, gx, nx)]
              == VecAdd(encoder.Project(Window(images.data[b], p, images.d1, images.d2, images.d3, gy, gx)),
                        encoder.table[Join(gy, gx, nx)])
  {
    EmbedPatchesShape(extractor, encoder, images);
    var nx := GridSize(images.d2, extractor.patchSize);
    CallWindow(extractor, images, b, gy, gx);
    CallRow(encoder, extractor.Call(images).value, b, Join(gy, gx, nx));
  }

  /** Followed by an identity projection and a zero table, the front end
      reproduces the extracted patches exactly. */
  lemma EmbedPatchesIdentity(extractor: PatchExtractor, images: Tensor4<real>)
    requires images.Valid() && extractor.patchSize >= 1
    requires images.d1 >= extractor.patchSize && images.d2 >= extractor.patchSize && images.d3 >= 1
    ensures extractor.Call(images).Success?
    ensures var p := extractor.patchSize;
            var n := GridSize(images.d1, p) * GridSize(images.d2, p);
            n >= 1 && p * p * images.d3 >= 1 &&
            EmbedPatches(extractor, IdentityEncoder(n, p * p * images.d3), images)
              == Success(extractor.Call(images).value)
  {
    var p := extractor.patchSize;
    MulPositive(GridSize(images.d1, p), GridSize(images.d2, p));
    MulPositive(p, p);
    MulPositive(p * p, images.d3);
    IdentityEncoderIsIdentity(extractor.Call(images).value);
  }

  /** With square images smaller than the patch, the caller's num_patches is
      0 and building the encoder fails, before any image is seen. */
  lemma SmallImageRejected(imageSize: nat, patchSize: nat, projectionDim: int,
                           kernel: seq<seq<real>>, bias: seq<real>, table: seq<seq<real>>)
    requires patchSize >= 1 && imageSize < patchSize
    requires projectionDim >= 1 ==> IsMatrix(kernel, |kernel|, projectionDim) && |bias| == projectionDim
    ensures NumPatches(imageSize, patchSize) == 0
    ensures Init(NumPatches(imageSize, patchSize), projectionDim, kernel, bias, table) == Failure(InvalidLayerSize)
  {
  }

  /** A 224 × 224 × 3 image with patch size 16 gives 196 patches of 768
      values; an encoder with projection_dim 512 turns them into (1, 196, 512). */
  lemma Scenario224(images: Tensor4<real>, encoder: PatchEncoder)
    requires images.Valid() && images.d0 == 1 && images.d1 == 224 && images.d2 == 224 && images.d3 == 3
    requires encoder.Valid() && encoder.numPatches == NumPatches(224, 16) && encoder.projectionDim == 512
    requires |encoder.kernel| == 768
    ensures NumPatches(224, 16) == 196
    ensures PatchExtractor(16).Call(images).Success?
    ensures var patches := PatchExtractor(16).Call(images).value;
            patches.d0 == 1 && patches.d1 == 196 && patches.d2 == 768
    ensures EmbedPatches(PatchExtractor(16), encoder, images).Success?
    ensures var out := EmbedPatches(PatchExtractor(16), encoder, images).value;
            out.d0 == 1 && out.d1 == 196 && out.d2 == 512
  {
    EmbedPatchesShape(PatchExtractor(16), encoder, images);
  }

  /** A 32 × 32 image with patch size 16 gives 4 patches of 16 * 16 * C values. */
  lemma Scenario32<T>(images: Tensor4<T>)
    requires images.Valid() && images.d1 == 32 && images.d2 == 32
    ensures PatchExtractor(16).Call(images).Success?
    ensures var patches := PatchExtractor(16).Call(images).value;
            patches.d1 == 4 && patches.d2 == 256 * images.d3
  {
  }

  /** A 225 × 225 image with patch size 16 is not rejected: VALID padding
      yields a 14 × 14 grid, matching the caller's num_patches of 196. */
  lemma Scenario225Grid<T>(images: Tensor4<T>)
    requires images.Valid() && images.d1 == 225 && images.d2 == 225
    ensures PatchExtractor(16).Call(images).Success?
    ensures PatchExtractor(16).Call(images).value.d1 == 196 == NumPatches(225, 16)
  {
    assert GridSize(225, 16) == 14;
  }

  /** On a 225 × 225 image with patch size 16 no slot takes a pixel from the
      last row or the last column: they are dropped. */
  lemma Scenario225Border<T>(images: Tensor4<T>, s: Slot)
    requires images.d1 == 225 && images.d2 == 225
    requires LayoutOf(images, 16).HasSlot(s)
    ensures LayoutOf(images, 16).Source(s).y < 224 && LayoutOf(images, 16).Source(s).x < 224
  {
    var l := LayoutOf(images, 16);
    assert l.ny == 14 && l.nx == 14 && l.p == 16;
    SourceCovered(l, s);
  }

  /** An encoder built for 196 positions rejects a sequence of 200 patches of
      the right width: the lengths do not broadcast. */
  lemma ScenarioLengthMismatch(encoder: PatchEncoder, patches: Tensor3<real>)
    requires encoder.Valid() && encoder.numPatches == 196
    requires patches.Valid() && patches.d1 == 200 && patches.d2 == |encoder.kernel|
    ensures encoder.Call(patches) == Failure(IncompatibleShapes)
  {
  }
}
