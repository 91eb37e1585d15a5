/** PatchExtractor.py: a Keras layer without weights that cuts every image
    of a batch into non-overlapping P × P windows and flattens each window
    into one vector. Its `call` is `tf.image.extract_patches` with
    size = stride = P, dilation 1 and VALID padding, followed by a
    `tf.reshape` that merges the two patch-grid axes. */
module PatchExtraction {
  import opened Results
  import opened Tensors
  import opened IndexArith

  /** `tf.image.extract_patches` rejects a window size or stride below 1. */
  datatype ExtractError = InvalidPatchSize

  /** Number of whole cells along an axis: with VALID padding and
      size = stride = p, TensorFlow's output size (extent - p + p) / p.
      Leftover rows or columns are dropped, not padded. */
  function GridSize(extent: nat, p: nat): (g: nat)
    requires p >= 1
    ensures g <= extent
    ensures g >= 1 <==> extent >= p
  {
    extent / p
  }

  /** The grid covers a prefix of the axis and leaves less than one cell
      over; it covers the whole axis exactly when p divides the extent. */
  lemma GridTruncates(extent: nat, p: nat)
    requires p >= 1
    ensures GridSize(extent, p) * p <= extent < GridSize(extent, p) * p + p
    ensures extent % p == 0 <==> GridSize(extent, p) * p == extent
  {
  }

  /** Position (r, col, ch) of a flattened p × p × c window: rows first, then
      columns, then channels, the depth layout of `tf.image.extract_patches`. */
  function DepthIndex(p: nat, c: nat, r: nat, col: nat, ch: nat): (d: nat)
    requires r < p && col < p && ch < c
    ensures d < p * p * c
  {
    JoinBound(r, col, p, p);
    JoinBound(Join(r, col, p), ch, p * p, c);
    Join(Join(r, col, p), ch, c)
  }

  /** The rows of the window at grid cell (gy, gx) of an h × w × c image,
      each row its p pixels one after another. */
  function WindowRows<T>(img: seq<seq<seq<T>>>, p: nat, h: nat, w: nat, c: nat, gy: nat, gx: nat)
    : (rows: seq<seq<T>>)
    requires IsCube(img, h, w, c) && p >= 1
    requires gy < GridSize(h, p) && gx < GridSize(w, p)
    ensures IsMatrix(rows, p, p * c)
  {
    CellInBounds(gy, p, h);
    CellInBounds(gx, p, w);
    var y0, x0 := Join(gy, 0, p), Join(gx, 0, p);
    var rows := seq(p, r requires 0 <= r < p => Concat(img[y0 + r][x0 .. x0 + p]));
    forall r | 0 <= r < p ensures |rows[r]| == p * c {
      ConcatLength(img[y0 + r][x0 .. x0 + p], c);
    }
    rows
  }

  /** The window at grid cell (gy, gx), flattened into one vector. */
  function Window<T>(img: seq<seq<seq<T>>>, p: nat, h: nat, w: nat, c: nat, gy: nat, gx: nat): (v: seq<T>)
    requires IsCube(img, h, w, c) && p >= 1
    requires gy < GridSize(h, p) && gx < GridSize(w, p)
    ensures |v| == p * p * c
  {
    var rows := WindowRows(img, p, h, w, c, gy, gx);
    ConcatLength(rows, p * c);
    MulAssoc(p, p, c);
    Concat(rows)
  }

  /** The (gy, gx) window holds pixel (gy * p + r, gx * p + col), channel ch,
      at depth (r * p + col) * c + ch. */
  lemma WindowAt<T>(img: seq<seq<seq<T>>>, p: nat, h: nat, w: nat, c: nat, gy: nat, gx: nat,
                    r: nat, col: nat, ch: nat)
    requires IsCube(img, h, w, c) && p >= 1
    requires gy < GridSize(h, p) && gx < GridSize(w, p)
    requires r < p && col < p && ch < c
    ensures Join(gy, r, p) < h && Join(gx, col, p) < w
    ensures Window(img, p, h, w, c, gy, gx)[DepthIndex(p, c, r, col, ch)] == img[Join(gy, r, p)][Join(gx, col, p)][ch]
  {
    CellInBounds(gy, p, h);
    CellInBounds(gx, p, w);
    var rows := WindowRows(img, p, h, w, c, gy, gx);
    var y0, x0 := Join(gy, 0, p), Join(gx, 0, p);
    var pixels := img[y0 + r][x0 .. x0 + p];
    assert rows[r] == Concat(pixels);
    ConcatAt(pixels, c, col, ch);
    JoinAssoc(r, col, ch, p, c);
    ConcatAt(rows, p * c, r, Join(col, ch, c));
    assert Join(gy, r, p) == y0 + r && Join(gx, col, p) == x0 + col;
  }

  /** One image's patch grid, of shape (h div p, w div p, p * p * c). */
  function Grid<T>(img: seq<seq<seq<T>>>, p: nat, h: nat, w: nat, c: nat): (g: seq<seq<seq<T>>>)
    requires IsCube(img, h, w, c) && p >= 1
    ensures IsCube(g, GridSize(h, p), GridSize(w, p), p * p * c)
  {
    seq(GridSize(h, p), gy requires 0 <= gy < GridSize(h, p) =>
      seq(GridSize(w, p), gx requires 0 <= gx < GridSize(w, p) => Window(img, p, h, w, c, gy, gx)))
  }

  /** `tf.image.extract_patches(images, sizes=[1,p,p,1], strides=[1,p,p,1],
      rates=[1,1,1,1], padding='VALID')`: shape (B, H div p, W div p, p * p * C). */
  function ExtractPatches<T>(x: Tensor4<T>, p: nat): (g: Tensor4<T>)
    requires x.Valid() && p >= 1
    ensures g.Valid()
    ensures g.d0 == x.d0 && g.d1 == GridSize(x.d1, p) && g.d2 == GridSize(x.d2, p) && g.d3 == p * p * x.d3
  {
    Tensor4(x.d0, GridSize(x.d1, p), GridSize(x.d2, p), p * p * x.d3,
            seq(x.d0, b requires 0 <= b < x.d0 => Grid(x.data[b], p, x.d1, x.d2, x.d3)))
  }

  /** `tf.reshape(g, [B, ny * nx, D])`: merges the two grid axes row-major. */
  function Reshape<T>(g: Tensor4<T>): (t: Tensor3<T>)
    requires g.Valid()
    ensures t.Valid() && t.d0 == g.d0 && t.d1 == g.d1 * g.d2 && t.d2 == g.d3
  {
    forall b | 0 <= b < g.d0 ensures IsMatrix(Concat(g.data[b]), g.d1 * g.d2, g.d3) {
      ConcatMatrices(g.data[b], g.d2, g.d3);
    }
    Tensor3(g.d0, g.d1 * g.d2, g.d3, seq(g.d0, b requires 0 <= b < g.d0 => Concat(g.data[b])))
  }

  /** Grid cell (gy, gx) becomes sequence position gy * nx + gx. */
  lemma ReshapeAt<T>(g: Tensor4<T>, b: nat, gy: nat, gx: nat)
    requires g.Valid() && b < g.d0 && gy < g.d1 && gx < g.d2
    ensures Join(gy, gx, g.d2) < Reshape(g).d1
    ensures Reshape(g).data[b][Join(gy, gx, g.d2)] == g.data[b][gy][gx]
  {
    ConcatAt(g.data[b], g.d2, gy, gx);
  }

  /** The layer; `__init__` only stores the patch size. */
  datatype PatchExtractor = PatchExtractor(patchSize: int) {

    /** `call(images)`: (B, H, W, C) to (B, (H div P) * (W div P), P * P * C). */
    function Call<T>(images: Tensor4<T>): (r: Result<Tensor3<T>, ExtractError>)
      requires images.Valid()
      ensures r.Success? <==> patchSize >= 1
      ensures r.Success? ==> r.value.Valid()
      ensures r.Success? ==> r.value.d0 == images.d0
      ensures r.Success? ==> r.value.d1 == GridSize(images.d1, patchSize) * GridSize(images.d2, patchSize)
      ensures r.Success? ==> r.value.d2 == patchSize * patchSize * images.d3
    {
      if patchSize < 1 then Failure(InvalidPatchSize)
      else Success(Reshape(ExtractPatches(images, patchSize)))
    }
  }

  /** The window at grid cell (gy, gx) of image b is patch gy * nx + gx. */
  lemma CallWindow<T>(e: PatchExtractor, x: Tensor4<T>, b: nat, gy: nat, gx: nat)
    requires x.Valid() && e.patchSize >= 1 && b < x.d0
    requires gy < GridSize(x.d1, e.patchSize) && gx < GridSize(x.d2, e.patchSize)
    ensures e.Call(x).Success?
    ensures var nx := GridSize(x.d2, e.patchSize);
            Join(gy, gx, nx) < e.Call(x).value.d1 &&
            e.Call(x).value.data[b][Join(gy, gx, nx)] == Window(x.data[b], e.patchSize, x.d1, x.d2, x.d3, gy, gx)
  {
    ReshapeAt(ExtractPatches(x, e.patchSize), b, gy, gx);
  }

  /** Patch k of image b is the window at grid cell (k div nx, k mod nx):
      the patch sequence runs row-major over the grid. */
  lemma CallPatchOrder<T>(e: PatchExtractor, x: Tensor4<T>, b: nat, k: nat)
    requires x.Valid() && e.patchSize >= 1
    requires b < x.d0 && k < GridSize(x.d1, e.patchSize) * GridSize(x.d2, e.patchSize)
    ensures e.Call(x).Success?
    ensures var nx := GridSize(x.d2, e.patchSize);
            nx > 0 && k / nx < GridSize(x.d1, e.patchSize) &&
            e.Call(x).value.data[b][k] == Window(x.data[b], e.patchSize, x.d1, x.d2, x.d3, k / nx, k % nx)
  {
    var nx := GridSize(x.d2, e.patchSize);
    DivBound(k, GridSize(x.d1, e.patchSize), nx);
    JoinSplit(k, nx);
    CallWindow(e, x, b, k / nx, k % nx);
  }

  /** Element (r, col, ch) of the window at grid cell (gy, gx) of image b is
      output element [b][gy * nx + gx][(r * P + col) * C + ch]. */
  lemma CallAt<T>(e: PatchExtractor, x: Tensor4<T>, b: nat, gy: nat, gx: nat, r: nat, col: nat, ch: nat)
    requires x.Valid() && e.patchSize >= 1 && b < x.d0
    requires gy < GridSize(x.d1, e.patchSize) && gx < GridSize(x.d2, e.patchSize)
    requires r < e.patchSize && col < e.patchSize && ch < x.d3
    ensures e.Call(x).Success?
    ensures var p, nx, out := e.patchSize, GridSize(x.d2, e.patchSize), e.Call(x).value;
            Join(gy, gx, nx) < out.d1 && Join(gy, r, p) < x.d1 && Join(gx, col, p) < x.d2 &&
            out.data[b][Join(gy, gx, nx)][DepthIndex(p, x.d3, r, col, ch)]
              == x.data[b][Join(gy, r, p)][Join(gx, col, p)][ch]
  {
    CallWindow(e, x, b, gy, gx);
    WindowAt(x.data[b], e.patchSize, x.d1, x.d2, x.d3, gy, gx, r, col, ch);
  }

  /** A pixel of an image: row, column, channel. */
  datatype Pixel = Pixel(y: nat, x: nat, ch: nat)

  /** A slot of the patch sequence: patch k, element d of its vector. */
  datatype Slot = Slot(k: nat, d: nat)

  /** The index arithmetic of one extraction: patch size p, a grid of
      ny × nx cells, c channels. */
  datatype Layout = Layout(p: nat, ny: nat, nx: nat, c: nat) {

    /** The pixel lies in a whole cell (it is not in a dropped border). */
    predicate Covers(px: Pixel) {
      px.y < ny * p && px.x < nx * p && px.ch < c
    }

    /** The slot exists in the output (ny * nx patches of p * p * c values). */
    predicate HasSlot(s: Slot) {
      s.k < ny * nx && s.d < p * p * c
    }

    /** The pixel that the extraction copies into slot s: the window of cell
        (k div nx, k mod nx), at the row, column and channel that depth d
        encodes. */
    function Source(s: Slot): Pixel
      requires HasSlot(s)
    {
      DivBound(s.k, ny, nx);
      DivBound(s.d, p * p, c);
      DivBound(s.d / c, p, p);
      var cell: nat := s.d / c;
      Pixel(Join(s.k / nx, cell / p, p), Join(s.k % nx, cell % p, p), s.d % c)
    }

    /** The slot into which the extraction copies pixel px. */
    function Target(px: Pixel): Slot
      requires Covers(px)
    {
      DivBound(px.y, ny, p);
      DivBound(px.x, nx, p);
      Slot(Join(px.y / p, px.x / p, nx), DepthIndex(p, c, px.y % p, px.x % p, px.ch))
    }
  }

  /** The layout of extracting patches of size p from images of shape (H, W, C). */
  function LayoutOf<T>(x: Tensor4<T>, p: nat): Layout
    requires p >= 1
  {
    Layout(p, GridSize(x.d1, p), GridSize(x.d2, p), x.d3)
  }

  /** Every slot is fed from a covered pixel, and Target undoes Source. */
  lemma SourceThenTarget(l: Layout, s: Slot)
    requires l.HasSlot(s)
    ensures l.Covers(l.Source(s))
    ensures l.Target(l.Source(s)) == s
  {
    var p := l.p;
    DivBound(s.k, l.ny, l.nx);
    DivBound(s.d, p * p, l.c);
    var cell := s.d / l.c;
    DivBound(cell, p, p);
    JoinBound(s.k / l.nx, cell / p, l.ny, p);
    JoinBound(s.k % l.nx, cell % p, l.nx, p);
    JoinSplit(s.k, l.nx);
    JoinSplit(cell, p);
    JoinSplit(s.d, l.c);
  }

  /** Every slot is fed from a pixel inside the whole cells of the grid. */
  lemma SourceCovered(l: Layout, s: Slot)
    requires l.HasSlot(s)
    ensures l.Covers(l.Source(s))
  {
    SourceThenTarget(l, s);
  }

  /** Every covered pixel has a slot, and Source undoes Target. */
  lemma TargetThenSource(l: Layout, px: Pixel)
    requires l.Covers(px)
    ensures l.HasSlot(l.Target(px))
    ensures l.Source(l.Target(px)) == px
  {
    var p := l.p;
    DivBound(px.y, l.ny, p);
    DivBound(px.x, l.nx, p);
    JoinBound(px.y / p, px.x / p, l.ny, l.nx);
    JoinSplit(px.y, p);
    JoinSplit(px.x, p);
  }

  /** Source and Target are mutually inverse: each covered pixel feeds
      exactly one slot, and no other slot takes it. */
  lemma ExactlyOnce(l: Layout, px: Pixel, s: Slot)
    requires l.Covers(px) && l.HasSlot(s)
    ensures l.HasSlot(l.Target(px))
    ensures l.Source(s) == px <==> s == l.Target(px)
  {
    SourceThenTarget(l, s);
    TargetThenSource(l, px);
  }

  /** When p divides H and W, the grid covers every pixel, and each pixel's
      slot leads back to it: with SourceThenTarget, the index maps are a
      bijection between all pixels and all slots. */
  lemma DivisibleCoversAll<T>(x: Tensor4<T>, p: nat, px: Pixel)
    requires p >= 1 && x.d1 % p == 0 && x.d2 % p == 0
    requires px.y < x.d1 && px.x < x.d2 && px.ch < x.d3
    ensures LayoutOf(x, p).Covers(px)
    ensures LayoutOf(x, p).HasSlot(LayoutOf(x, p).Target(px))
    ensures LayoutOf(x, p).Source(LayoutOf(x, p).Target(px)) == px
  {
    GridTruncates(x.d1, p);
    GridTruncates(x.d2, p);
    TargetThenSource(LayoutOf(x, p), px);
  }

  /** A pixel in the bottom or right border left over by VALID padding appears
      in no slot, and fewer than p rows and p columns are dropped. */
  lemma BorderDropped<T>(x: Tensor4<T>, p: nat, px: Pixel, s: Slot)
    requires p >= 1 && LayoutOf(x, p).HasSlot(s)
    requires px.y >= GridSize(x.d1, p) * p || px.x >= GridSize(x.d2, p) * p
    ensures LayoutOf(x, p).Source(s) != px
    ensures x.d1 - GridSize(x.d1, p) * p < p && x.d2 - GridSize(x.d2, p) * p < p
  {
    SourceThenTarget(LayoutOf(x, p), s);
    GridTruncates(x.d1, p);
    GridTruncates(x.d2, p);
  }

  /** A covered pixel splits into grid cell (y div p, x div p) and offset
      (y mod p, x mod p), which Target encodes. */
  lemma PixelDigits(l: Layout, px: Pixel)
    requires l.p >= 1 && l.Covers(px)
    ensures Join(px.y / l.p, px.y % l.p, l.p) == px.y && Join(px.x / l.p, px.x % l.p, l.p) == px.x
    ensures px.x / l.p < l.nx && px.y / l.p < l.ny &&
            l.Target(px) == Slot(Join(px.y / l.p, px.x / l.p, l.nx),
                                 DepthIndex(l.p, l.c, px.y % l.p, px.x % l.p, px.ch))
  {
    DivBound(px.y, l.ny, l.p);
    DivBound(px.x, l.nx, l.p);
    JoinSplit(px.y, l.p);
    JoinSplit(px.x, l.p);
  }

  /** Every covered pixel of image b is output element [b][k][d] for
      the slot (k, d) that Target assigns to it. */
  lemma CallAtPixel<T>(e: PatchExtractor, x: Tensor4<T>, b: nat, px: Pixel)
    requires x.Valid() && e.patchSize >= 1 && b < x.d0
    requires LayoutOf(x, e.patchSize).Covers(px)
    ensures e.Call(x).Success?
    ensures var s, out := LayoutOf(x, e.patchSize).Target(px), e.Call(x).value;
            px.y < x.d1 && px.x < x.d2 &&
            s.k < out.d1 && s.d < out.d2 &&
            out.data[b][s.k][s.d] == x.data[b][px.y][px.x][px.ch]
  {
    var l, p := LayoutOf(x, e.patchSize), e.patchSize;
    PixelDigits(l, px);
    var gy, gx, r, col := px.y / p, px.x / p, px.y % p, px.x % p;
    CallAt(e, x, b, gy, gx, r, col, px.ch);
  }

  /** Every output element is the input pixel at Source of its slot:
      the layer moves values and computes none. */
  lemma CallSource<T>(e: PatchExtractor, x: Tensor4<T>, b: nat, s: Slot)
    requires x.Valid() && e.patchSize >= 1 && b < x.d0
    requires LayoutOf(x, e.patchSize).HasSlot(s)
    ensures e.Call(x).Success?
    ensures var px, out := LayoutOf(x, e.patchSize).Source(s), e.Call(x).value;
            px.y < x.d1 && px.x < x.d2 && px.ch < x.d3 &&
            s.k < out.d1 && s.d < out.d2 &&
            out.data[b][s.k][s.d] == x.data[b][px.y][px.x][px.ch]
  {
    var l := LayoutOf(x, e.patchSize);
    SourceThenTarget(l, s);
    CallAtPixel(e, x, b, l.Source(s));
  }

  /** Images are processed independently: output row b depends only on
      input image b (and on the shared image shape). */
  lemma BatchIndependent<T>(e: PatchExtractor, x1: Tensor4<T>, x2: Tensor4<T>, b1: nat, b2: nat)
    requires x1.Valid() && x2.Valid() && e.patchSize >= 1
    requires x1.d1 == x2.d1 && x1.d2 == x2.d2 && x1.d3 == x2.d3
    requires b1 < x1.d0 && b2 < x2.d0 && x1.data[b1] == x2.data[b2]
    ensures e.Call(x1).Success? && e.Call(x2).Success?
    ensures e.Call(x1).value.data[b1] == e.Call(x2).value.data[b2]
  {
    var p := e.patchSize;
    assert ExtractPatches(x1, p).data[b1] == ExtractPatches(x2, p).data[b2];
  }
}
