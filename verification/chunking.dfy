/**
  The texture chunking of `loadSpectrogram` (spectrogram.js): a spectrogram
  of `nblocks` time blocks by `nfreqs` frequency bins, stored block after
  block, is cut along time into textures of at most `maxWidth` blocks
  (the renderer's maximum texture size). Each texture gets a quad whose
  horizontal extent is its share of the normalised time axis.
 */
module Chunking {
  import opened Results

  /** One texture of the plan: its position among its siblings, its
      normalised horizontal extent, its number of time blocks, and the
      sample offset its data is read from. */
  datatype Chunk = Chunk(index: nat, minX: real, maxX: real, blocks: nat, dataOffset: nat)

  /** `Math.ceil(nblocks / max_width)`: the number of textures. */
  function NumTextures(nblocks: nat, maxWidth: nat): nat
    requires maxWidth > 0
  {
    (nblocks + maxWidth - 1) / maxWidth
  }

  /** NumTextures is the fewest textures of maxWidth blocks that hold all
      blocks, and there are none exactly when there are no blocks. */
  lemma NumTexturesIsCeiling(nblocks: nat, maxWidth: nat)
    requires maxWidth > 0
    ensures nblocks <= NumTextures(nblocks, maxWidth) * maxWidth
    ensures NumTextures(nblocks, maxWidth) > 0 ==> (NumTextures(nblocks, maxWidth) - 1) * maxWidth < nblocks
    ensures NumTextures(nblocks, maxWidth) == 0 <==> nblocks == 0
  {
    var m := nblocks + maxWidth - 1;
    var n := m / maxWidth;
    assert m == n * maxWidth + m % maxWidth;
  }

  /** `max_x_coord`: the number of textures' worth of blocks, as a real,
      but never below one. */
  function MaxXCoord(nblocks: nat, maxWidth: nat): (r: real)
    requires maxWidth > 0
    ensures r >= 1.0
  {
    var q := nblocks as real / maxWidth as real;
    if q < 1.0 then 1.0 else q
  }

  /** MaxXCoord is at least one, covers nblocks / maxWidth, and is one of the two. */
  lemma MaxXCoordIsClampedRatio(nblocks: nat, maxWidth: nat)
    requires maxWidth > 0
    ensures MaxXCoord(nblocks, maxWidth) >= 1.0
    ensures MaxXCoord(nblocks, maxWidth) * maxWidth as real >= nblocks as real
    ensures MaxXCoord(nblocks, maxWidth) == 1.0 <==> nblocks <= maxWidth
    ensures nblocks >= maxWidth ==> MaxXCoord(nblocks, maxWidth) * maxWidth as real == nblocks as real
  {
    var m := maxWidth as real;
    var q := nblocks as real / m;
    assert q * m == nblocks as real;
    if q < 1.0 {
      assert q * m < 1.0 * m;
    } else {
      assert q * m >= 1.0 * m;
    }
  }

  /** The block count of texture i: maxWidth for every texture but the
      last, the remaining blocks for the last. */
  function BlocksAt(nblocks: nat, maxWidth: nat, i: nat): nat
    requires maxWidth > 0
    requires i < NumTextures(nblocks, maxWidth)
  {
    NumTexturesIsCeiling(nblocks, maxWidth);
    if i < NumTextures(nblocks, maxWidth) - 1 then maxWidth else nblocks - i * maxWidth
  }

  /** `k / max_x_coord`: the normalised x at which texture k starts. */
  function XAt(nblocks: nat, maxWidth: nat, k: nat): real
    requires maxWidth > 0
  {
    k as real / MaxXCoord(nblocks, maxWidth)
  }

  /** The chunk the loop body of `loadSpectrogram` sets up for texture i;
      the right edge of the last texture is pinned to 1. */
  function ChunkAt(nblocks: nat, nfreqs: nat, maxWidth: nat, i: nat): Chunk
    requires maxWidth > 0
    requires i < NumTextures(nblocks, maxWidth)
  {
    Chunk(i,
          XAt(nblocks, maxWidth, i),
          if i < NumTextures(nblocks, maxWidth) - 1 then XAt(nblocks, maxWidth, i + 1) else 1.0,
          BlocksAt(nblocks, maxWidth, i),
          i * maxWidth * nfreqs)
  }

  /** All textures of a spectrogram, in order. */
  function Plan(nblocks: nat, nfreqs: nat, maxWidth: nat): (plan: seq<Chunk>)
    requires maxWidth > 0
    ensures |plan| == NumTextures(nblocks, maxWidth)
  {
    var n := NumTextures(nblocks, maxWidth);
    seq(n, i requires 0 <= i < n => ChunkAt(nblocks, nfreqs, maxWidth, i))
  }

  /** The number of blocks in a sequence of chunks. */
  function SumBlocks(chunks: seq<Chunk>): nat {
    if |chunks| == 0 then 0 else SumBlocks(chunks[..|chunks| - 1]) + chunks[|chunks| - 1].blocks
  }

  lemma MulSucc(k: nat, m: nat)
    ensures k * m + m == (k + 1) * m
  {
  }

  lemma MulMonotone(a: nat, b: nat, k: nat)
    requires a <= b
    ensures a * k <= b * k
  {
  }

  lemma MulAddRight(a: nat, b: nat, k: nat)
    ensures (a + b) * k == a * k + b * k
  {
  }

  /** Cell (row, col) of a rows-by-width grid stored row after row lies
      inside the grid. */
  lemma CellInGrid(row: nat, rows: nat, col: nat, width: nat)
    requires row < rows && col < width
    ensures row * width + col < rows * width
  {
    MulMonotone(row + 1, rows, width);
    MulSucc(row, width);
  }

  /** Cell (b, f) of a texture starting at block `start` is cell
      (start + b, f) of the whole buffer, and lies inside both. */
  lemma TexelArithmetic(start: nat, b: nat, blocks: nat, nblocks: nat, f: nat, nfreqs: nat)
    requires b < blocks && start + blocks <= nblocks && f < nfreqs
    ensures b * nfreqs + f < blocks * nfreqs
    ensures start * nfreqs + (b * nfreqs + f) == (start + b) * nfreqs + f
    ensures (start + b) * nfreqs + f < nblocks * nfreqs
  {
    CellInGrid(b, blocks, f, nfreqs);
    CellInGrid(start + b, nblocks, f, nfreqs);
    MulAddRight(start, b, nfreqs);
  }

  /** Every texture holds between 1 and maxWidth blocks, all but the last
      hold exactly maxWidth, and the last one ends at block nblocks. */
  lemma BlocksAtBounds(nblocks: nat, maxWidth: nat, i: nat)
    requires maxWidth > 0
    requires i < NumTextures(nblocks, maxWidth)
    ensures 0 < BlocksAt(nblocks, maxWidth, i) <= maxWidth
    ensures i < NumTextures(nblocks, maxWidth) - 1 ==> BlocksAt(nblocks, maxWidth, i) == maxWidth
    ensures i < NumTextures(nblocks, maxWidth) - 1 ==> (i + 1) * maxWidth < nblocks
    ensures i * maxWidth + BlocksAt(nblocks, maxWidth, i) <= nblocks
    ensures i == NumTextures(nblocks, maxWidth) - 1 ==> i * maxWidth + BlocksAt(nblocks, maxWidth, i) == nblocks
  {
    var n := NumTextures(nblocks, maxWidth);
    NumTexturesIsCeiling(nblocks, maxWidth);
    if i < n - 1 {
      MulMonotone(i + 1, n - 1, maxWidth);
      MulSucc(i, maxWidth);
    }
    MulSucc(n - 1, maxWidth);
  }

  /** The textures before texture k hold maxWidth blocks each. */
  lemma {:induction false} PrefixBlocks(nblocks: nat, nfreqs: nat, maxWidth: nat, k: nat)
    requires maxWidth > 0
    requires k < NumTextures(nblocks, maxWidth)
    ensures SumBlocks(Plan(nblocks, nfreqs, maxWidth)[..k]) == k * maxWidth
  {
    if k > 0 {
      var plan := Plan(nblocks, nfreqs, maxWidth);
      PrefixBlocks(nblocks, nfreqs, maxWidth, k - 1);
      assert plan[..k][..k - 1] == plan[..k - 1];
      BlocksAtBounds(nblocks, maxWidth, k - 1);
      assert plan[k - 1].blocks == maxWidth;
      MulSucc(k - 1, maxWidth);
    }
  }

  /** The facts about one texture of the plan: its index, its block count,
      and a data region that starts after all earlier textures' samples and
      ends inside the buffer. */
  lemma ChunkIsPartOfPartition(nblocks: nat, nfreqs: nat, maxWidth: nat, i: nat)
    requires maxWidth > 0
    requires i < NumTextures(nblocks, maxWidth)
    ensures var plan := Plan(nblocks, nfreqs, maxWidth);
      && plan[i].index == i
      && 0 < plan[i].blocks <= maxWidth
      && (i < |plan| - 1 ==> plan[i].blocks == maxWidth)
      && plan[i].dataOffset == SumBlocks(plan[..i]) * nfreqs
      && plan[i].dataOffset + plan[i].blocks * nfreqs <= nblocks * nfreqs
  {
    var plan := Plan(nblocks, nfreqs, maxWidth);
    var c := plan[i];
    PrefixBlocks(nblocks, nfreqs, maxWidth, i);
    BlocksAtBounds(nblocks, maxWidth, i);
    assert c.blocks == BlocksAt(nblocks, maxWidth, i);
    MulAddRight(i * maxWidth, c.blocks, nfreqs);
    MulMonotone(i * maxWidth + c.blocks, nblocks, nfreqs);
  }

  /** The plan partitions the blocks: full textures then a non-empty
      remainder, block counts adding up to nblocks, and each texture's data
      starting right after the samples of all textures before it and
      ending inside the nblocks * nfreqs buffer. */
  lemma PlanPartitionsBlocks(nblocks: nat, nfreqs: nat, maxWidth: nat)
    requires maxWidth > 0
    ensures var plan := Plan(nblocks, nfreqs, maxWidth);
      && (forall i :: 0 <= i < |plan| ==> plan[i].index == i)
      && (forall i :: 0 <= i < |plan| - 1 ==> plan[i].blocks == maxWidth)
      && (|plan| > 0 ==> 0 < plan[|plan| - 1].blocks <= maxWidth)
      && SumBlocks(plan) == nblocks
      && (forall i :: 0 <= i < |plan| ==> plan[i].dataOffset == SumBlocks(plan[..i]) * nfreqs)
      && (forall i :: 0 <= i < |plan| ==> plan[i].dataOffset + plan[i].blocks * nfreqs <= nblocks * nfreqs)
  {
    var plan := Plan(nblocks, nfreqs, maxWidth);
    var n := |plan|;
    forall i | 0 <= i < n
      ensures plan[i].index == i
      ensures 0 < plan[i].blocks <= maxWidth
      ensures i < n - 1 ==> plan[i].blocks == maxWidth
      ensures plan[i].dataOffset == SumBlocks(plan[..i]) * nfreqs
      ensures plan[i].dataOffset + plan[i].blocks * nfreqs <= nblocks * nfreqs
    {
      ChunkIsPartOfPartition(nblocks, nfreqs, maxWidth, i);
    }
    NumTexturesIsCeiling(nblocks, maxWidth);
    if n > 0 {
      PrefixBlocks(nblocks, nfreqs, maxWidth, n - 1);
      BlocksAtBounds(nblocks, maxWidth, n - 1);
      assert plan[..n] == plan;
      assert plan[..n][..n - 1] == plan[..n - 1];
    }
  }

  /** k / (nblocks / maxWidth) is k * maxWidth / nblocks. */
  lemma DivByRatio(k: nat, nblocks: nat, maxWidth: nat)
    requires 0 < maxWidth && 0 < nblocks
    ensures k as real / (nblocks as real / maxWidth as real) == (k * maxWidth) as real / nblocks as real
  {
    var q := nblocks as real / maxWidth as real;
    assert q * maxWidth as real == nblocks as real;
    assert (k * maxWidth) as real == k as real * maxWidth as real;
  }

  /** The start of texture k, as a fraction of all blocks. */
  lemma XAtIsBlockFraction(nblocks: nat, maxWidth: nat, k: nat)
    requires 0 < maxWidth < nblocks
    ensures XAt(nblocks, maxWidth, k) == (k * maxWidth) as real / nblocks as real
  {
    MaxXCoordIsClampedRatio(nblocks, maxWidth);
    DivByRatio(k, nblocks, maxWidth);
  }

  /** With no more blocks than one texture holds there is at most one texture. */
  lemma SingleTexture(nblocks: nat, maxWidth: nat)
    requires 0 < maxWidth && nblocks <= maxWidth
    ensures NumTextures(nblocks, maxWidth) <= 1
  {
    var n := NumTextures(nblocks, maxWidth);
    NumTexturesIsCeiling(nblocks, maxWidth);
    if n >= 2 {
      MulMonotone(1, n - 1, maxWidth);
    }
  }

  /** Texture i starts at block i * maxWidth's share of the time axis. */
  lemma StartIsFraction(nblocks: nat, maxWidth: nat, i: nat)
    requires maxWidth > 0
    requires i < NumTextures(nblocks, maxWidth)
    ensures XAt(nblocks, maxWidth, i) == (i * maxWidth) as real / nblocks as real
  {
    NumTexturesIsCeiling(nblocks, maxWidth);
    if nblocks <= maxWidth {
      SingleTexture(nblocks, maxWidth);
      MaxXCoordIsClampedRatio(nblocks, maxWidth);
      assert i == 0;
    } else {
      XAtIsBlockFraction(nblocks, maxWidth, i);
    }
  }

  /** A texture other than the last ends at the next one's start, which is
      its own start plus maxWidth blocks' share of the time axis. */
  lemma EndIsFraction(nblocks: nat, maxWidth: nat, i: nat)
    requires maxWidth > 0
    requires i + 1 < NumTextures(nblocks, maxWidth)
    ensures XAt(nblocks, maxWidth, i + 1) == (i * maxWidth + maxWidth) as real / nblocks as real
  {
    if nblocks <= maxWidth {
      SingleTexture(nblocks, maxWidth);
    }
    XAtIsBlockFraction(nblocks, maxWidth, i + 1);
    MulSucc(i, maxWidth);
  }

  /** The last texture, pinned to end at 1, ends at the last block. */
  lemma LastEndsAtOne(nblocks: nat, maxWidth: nat, i: nat)
    requires maxWidth > 0
    requires i + 1 == NumTextures(nblocks, maxWidth)
    ensures (i * maxWidth + BlocksAt(nblocks, maxWidth, i)) as real / nblocks as real == 1.0
  {
    BlocksAtBounds(nblocks, maxWidth, i);
    NumTexturesIsCeiling(nblocks, maxWidth);
  }

  /** A texture's horizontal extent is exactly its block range divided by
      nblocks: each quad is as wide as the share of data it shows. */
  lemma ChunkXRange(nblocks: nat, nfreqs: nat, maxWidth: nat, i: nat)
    requires maxWidth > 0
    requires i < NumTextures(nblocks, maxWidth)
    ensures var c := Plan(nblocks, nfreqs, maxWidth)[i];
      && c.minX == (i * maxWidth) as real / nblocks as real
      && c.maxX == (i * maxWidth + c.blocks) as real / nblocks as real
  {
    var c := Plan(nblocks, nfreqs, maxWidth)[i];
    assert c == ChunkAt(nblocks, nfreqs, maxWidth, i);
    StartIsFraction(nblocks, maxWidth, i);
    if i + 1 < NumTextures(nblocks, maxWidth) {
      BlocksAtBounds(nblocks, maxWidth, i);
      EndIsFraction(nblocks, maxWidth, i);
    } else {
      LastEndsAtOne(nblocks, maxWidth, i);
    }
  }

  /** Fractions with a common positive denominator keep the order of their
      numerators. */
  lemma OrderedFractions(lo: nat, hi: nat, d: nat)
    requires lo < hi <= d
    ensures 0.0 <= lo as real / d as real < hi as real / d as real <= 1.0
  {
  }

  /** The horizontal extents tile [0, 1]: they start at 0, each ends where
      the next begins, the last ends at exactly 1, and none is empty. */
  lemma PlanXRangesTile(nblocks: nat, nfreqs: nat, maxWidth: nat)
    requires maxWidth > 0
    ensures var plan := Plan(nblocks, nfreqs, maxWidth);
      && (|plan| > 0 ==> plan[0].minX == 0.0 && plan[|plan| - 1].maxX == 1.0)
      && (forall i :: 0 <= i < |plan| - 1 ==> plan[i].maxX == plan[i + 1].minX)
      && (forall i :: 0 <= i < |plan| ==> 0.0 <= plan[i].minX < plan[i].maxX <= 1.0)
  {
    var plan := Plan(nblocks, nfreqs, maxWidth);
    var n := |plan|;
    forall i | 0 <= i < n
      ensures 0.0 <= plan[i].minX < plan[i].maxX <= 1.0
      ensures i < n - 1 ==> plan[i].maxX == plan[i + 1].minX
    {
      ChunkXRange(nblocks, nfreqs, maxWidth, i);
      BlocksAtBounds(nblocks, maxWidth, i);
      OrderedFractions(i * maxWidth, i * maxWidth + plan[i].blocks, nblocks);
      if i < n - 1 {
        ChunkXRange(nblocks, nfreqs, maxWidth, i + 1);
        MulSucc(i, maxWidth);
      }
    }
    if n > 0 {
      ChunkXRange(nblocks, nfreqs, maxWidth, 0);
    }
  }

  /** `spectrogram.subarray(begin)`: the samples from `begin` on, or none
      when `begin` is past the end. */
  function Subarray<T>(samples: seq<T>, begin: nat): (r: seq<T>)
    ensures |r| == if begin <= |samples| then |samples| - begin else 0
    ensures forall k :: 0 <= k < |r| ==> r[k] == samples[begin + k]
  {
    if begin <= |samples| then samples[begin..] else []
  }

  /** The texels `texImage2D` uploads for a chunk: a texture `nfreqs` wide
      and `blocks` high, read row by row from the subarray at the chunk's
      offset. The upload fails when a dimension exceeds the maximum texture
      size or the subarray is too short. */
  function TextureData<T>(samples: seq<T>, nfreqs: nat, maxWidth: nat, c: Chunk): (r: Option<seq<T>>)
    ensures r.Some? ==> |r.value| == c.blocks * nfreqs
    ensures r.None? <==>
      nfreqs > maxWidth || c.blocks > maxWidth || |Subarray(samples, c.dataOffset)| < c.blocks * nfreqs
    ensures r.Some? ==> forall k :: 0 <= k < |r.value| ==> r.value[k] == samples[c.dataOffset + k]
  {
    var data := Subarray(samples, c.dataOffset);
    if nfreqs > maxWidth || c.blocks > maxWidth || |data| < c.blocks * nfreqs then None
    else
      assert c.blocks * nfreqs > 0 ==> c.dataOffset <= |samples|;
      Some(data[..c.blocks * nfreqs])
  }

  /** The contents of all textures, a failed upload leaving its texture empty. */
  function Textures<T>(samples: seq<T>, nfreqs: nat, maxWidth: nat, plan: seq<Chunk>): (ts: seq<seq<T>>)
    ensures |ts| == |plan|
  {
    seq(|plan|, i requires 0 <= i < |plan| =>
          var upload := TextureData(samples, nfreqs, maxWidth, plan[i]);
          if upload.Some? then upload.value else [])
  }

  /** Sequences joined end to end. */
  function Concat<T>(ss: seq<seq<T>>): seq<T> {
    if |ss| == 0 then [] else Concat(ss[..|ss| - 1]) + ss[|ss| - 1]
  }

  /** Where a texture's data lies in the buffer: it starts after i full
      textures' samples and ends where the next texture's start, or at the
      end of the buffer for the last texture. */
  lemma ChunkRegion(nblocks: nat, nfreqs: nat, maxWidth: nat, i: nat)
    requires maxWidth > 0
    requires i < NumTextures(nblocks, maxWidth)
    ensures var c := Plan(nblocks, nfreqs, maxWidth)[i];
      && c.dataOffset == i * maxWidth * nfreqs
      && c.dataOffset + c.blocks * nfreqs == (i * maxWidth + c.blocks) * nfreqs
      && c.dataOffset + c.blocks * nfreqs <= nblocks * nfreqs
      && (i < NumTextures(nblocks, maxWidth) - 1 ==> c.dataOffset + c.blocks * nfreqs == (i + 1) * maxWidth * nfreqs)
      && (i == NumTextures(nblocks, maxWidth) - 1 ==> c.dataOffset + c.blocks * nfreqs == nblocks * nfreqs)
  {
    var c := Plan(nblocks, nfreqs, maxWidth)[i];
    BlocksAtBounds(nblocks, maxWidth, i);
    assert c.blocks == BlocksAt(nblocks, maxWidth, i);
    MulAddRight(i * maxWidth, c.blocks, nfreqs);
    MulMonotone(i * maxWidth + c.blocks, nblocks, nfreqs);
    MulSucc(i, maxWidth);
  }

  /** Each texture's upload succeeds for a full buffer whose frequency
      count fits a texture row, and uploads the texture's own region. */
  lemma PlanUploadsSucceed<T>(samples: seq<T>, nblocks: nat, nfreqs: nat, maxWidth: nat, i: nat)
    requires maxWidth > 0 && nfreqs <= maxWidth
    requires |samples| == nblocks * nfreqs
    requires i < NumTextures(nblocks, maxWidth)
    ensures var c := Plan(nblocks, nfreqs, maxWidth)[i];
      && c.dataOffset + c.blocks * nfreqs <= |samples|
      && TextureData(samples, nfreqs, maxWidth, c)
           == Some(samples[c.dataOffset..c.dataOffset + c.blocks * nfreqs])
  {
    var c := Plan(nblocks, nfreqs, maxWidth)[i];
    ChunkRegion(nblocks, nfreqs, maxWidth, i);
    BlocksAtBounds(nblocks, maxWidth, i);
    assert c.blocks == BlocksAt(nblocks, maxWidth, i);
    var data := Subarray(samples, c.dataOffset);
    assert data == samples[c.dataOffset..];
    assert data[..c.blocks * nfreqs] == samples[c.dataOffset..c.dataOffset + c.blocks * nfreqs];
  }

  /** Consecutive textures' data regions meet: each ends where the next
      one starts. */
  lemma ChunksAdjacent(nblocks: nat, nfreqs: nat, maxWidth: nat, i: nat)
    requires maxWidth > 0
    requires i + 1 < NumTextures(nblocks, maxWidth)
    ensures var plan := Plan(nblocks, nfreqs, maxWidth);
      plan[i].dataOffset + plan[i].blocks * nfreqs == plan[i + 1].dataOffset
  {
    ChunkRegion(nblocks, nfreqs, maxWidth, i);
    ChunkRegion(nblocks, nfreqs, maxWidth, i + 1);
  }

  /** The uploaded contents of texture i are its own region of the buffer. */
  lemma TextureIsRegion<T>(samples: seq<T>, nblocks: nat, nfreqs: nat, maxWidth: nat, i: nat)
    requires maxWidth > 0 && nfreqs <= maxWidth
    requires |samples| == nblocks * nfreqs
    requires i < NumTextures(nblocks, maxWidth)
    ensures var plan := Plan(nblocks, nfreqs, maxWidth);
      && plan[i].dataOffset + plan[i].blocks * nfreqs <= |samples|
      && Textures(samples, nfreqs, maxWidth, plan)[i]
           == samples[plan[i].dataOffset..plan[i].dataOffset + plan[i].blocks * nfreqs]
  {
    PlanUploadsSucceed(samples, nblocks, nfreqs, maxWidth, i);
  }

  /** Texture i holds exactly chunk i's region of the sample buffer, for
      every chunk of the plan. */
  predicate HoldsRegions<T(==)>(samples: seq<T>, nfreqs: nat, plan: seq<Chunk>, textures: seq<seq<T>>) {
    && |textures| == |plan|
    && forall i :: 0 <= i < |plan| ==>
         && plan[i].dataOffset + plan[i].blocks * nfreqs <= |samples|
         && textures[i] == samples[plan[i].dataOffset..plan[i].dataOffset + plan[i].blocks * nfreqs]
  }

  /** For a full buffer whose frequency count fits a texture row, every
      texture of the plan holds its own chunk's region. */
  lemma PlanHoldsRegions<T>(samples: seq<T>, nblocks: nat, nfreqs: nat, maxWidth: nat)
    requires maxWidth > 0 && nfreqs <= maxWidth
    requires |samples| == nblocks * nfreqs
    ensures var plan := Plan(nblocks, nfreqs, maxWidth);
      HoldsRegions(samples, nfreqs, plan, Textures(samples, nfreqs, maxWidth, plan))
  {
    var plan := Plan(nblocks, nfreqs, maxWidth);
    forall i | 0 <= i < |plan|
      ensures plan[i].dataOffset + plan[i].blocks * nfreqs <= |samples|
      ensures Textures(samples, nfreqs, maxWidth, plan)[i]
              == samples[plan[i].dataOffset..plan[i].dataOffset + plan[i].blocks * nfreqs]
    {
      TextureIsRegion(samples, nblocks, nfreqs, maxWidth, i);
    }
  }

  /** Piece i is the region of samples between boundaries i and i + 1. */
  ghost predicate IsRegion<T>(samples: seq<T>, pieces: seq<seq<T>>, bounds: seq<nat>, i: nat) {
    && i < |pieces| && i + 1 < |bounds|
    && bounds[i] <= bounds[i + 1] <= |samples|
    && pieces[i] == samples[bounds[i]..bounds[i + 1]]
  }

  /** Pieces that are consecutive regions of a sequence, the first starting
      at 0, join to the sequence up to the end of the last piece. */
  lemma {:induction false} ConcatOfRegions<T>(samples: seq<T>, pieces: seq<seq<T>>, bounds: seq<nat>, k: nat)
    requires |bounds| == |pieces| + 1 && bounds[0] == 0
    requires forall i :: 0 <= i < |pieces| ==> IsRegion(samples, pieces, bounds, i)
    requires k <= |pieces|
    ensures bounds[k] <= |samples|
    ensures Concat(pieces[..k]) == samples[..bounds[k]]
  {
    if k > 0 {
      ConcatOfRegions(samples, pieces, bounds, k - 1);
      assert IsRegion(samples, pieces, bounds, k - 1);
      var lo := bounds[k - 1];
      var hi := bounds[k];
      assert pieces[..k][..k - 1] == pieces[..k - 1];
      assert samples[..hi] == samples[..lo] + samples[lo..hi];
    }
  }

  /** The boundaries of a plan's data regions: each texture's offset, then
      the end of the buffer. */
  function RegionBounds(plan: seq<Chunk>, total: nat): (b: seq<nat>)
    ensures |b| == |plan| + 1
  {
    seq(|plan| + 1, i requires 0 <= i <= |plan| => if i < |plan| then plan[i].dataOffset else total)
  }

  /** Texture i's contents are the region between boundaries i and i + 1. */
  lemma TextureBetweenBounds<T>(samples: seq<T>, nblocks: nat, nfreqs: nat, maxWidth: nat, i: nat)
    requires maxWidth > 0 && nfreqs <= maxWidth
    requires |samples| == nblocks * nfreqs
    requires i < NumTextures(nblocks, maxWidth)
    ensures var plan := Plan(nblocks, nfreqs, maxWidth);
      var b := RegionBounds(plan, |samples|);
      && b[i] <= b[i + 1] <= |samples|
      && Textures(samples, nfreqs, maxWidth, plan)[i] == samples[b[i]..b[i + 1]]
  {
    TextureIsRegion(samples, nblocks, nfreqs, maxWidth, i);
    if i + 1 < NumTextures(nblocks, maxWidth) {
      ChunksAdjacent(nblocks, nfreqs, maxWidth, i);
    } else {
      ChunkRegion(nblocks, nfreqs, maxWidth, i);
    }
  }

  /** Coverage: joined in plan order, the uploaded textures are exactly the
      sample buffer, so every sample is in exactly one texture. */
  lemma PlanCoversSamples<T>(samples: seq<T>, nblocks: nat, nfreqs: nat, maxWidth: nat)
    requires maxWidth > 0 && nfreqs <= maxWidth
    requires |samples| == nblocks * nfreqs
    ensures Concat(Textures(samples, nfreqs, maxWidth, Plan(nblocks, nfreqs, maxWidth))) == samples
  {
    var plan := Plan(nblocks, nfreqs, maxWidth);
    var ts := Textures(samples, nfreqs, maxWidth, plan);
    var b := RegionBounds(plan, |samples|);
    var n := |plan|;
    forall i | 0 <= i < n
      ensures IsRegion(samples, ts, b, i)
    {
      TextureBetweenBounds(samples, nblocks, nfreqs, maxWidth, i);
    }
    if n > 0 {
      assert b[0] == plan[0].dataOffset == 0;
    }
    ConcatOfRegions(samples, ts, b, n);
    assert ts[..n] == ts;
  }

  /** Position j of s and position k of t both exist and hold the same
      element. */
  ghost predicate SameElement<T>(s: seq<T>, j: nat, t: seq<T>, k: nat) {
    j < |s| && k < |t| && s[j] == t[k]
  }

  /** Element k of a slice is element lo + k of the whole. */
  lemma SliceIndex<T>(s: seq<T>, lo: nat, hi: nat, k: nat)
    requires lo <= hi <= |s| && k < hi - lo
    ensures s[lo..hi][k] == s[lo + k]
  {
  }

  /** Cell (b, f) of the region holding blocks start .. start + blocks of
      a block-major buffer is cell (start + b, f) of the buffer. */
  lemma TexelInRegion<T>(samples: seq<T>, texture: seq<T>, start: nat, blocks: nat,
                         nblocks: nat, nfreqs: nat, b: nat, f: nat)
    requires b < blocks && start + blocks <= nblocks && f < nfreqs
    requires start * nfreqs + blocks * nfreqs <= |samples|
    requires texture == samples[start * nfreqs..start * nfreqs + blocks * nfreqs]
    ensures b * nfreqs + f < |texture|
    ensures (start + b) * nfreqs + f < |samples|
    ensures texture[b * nfreqs + f] == samples[(start + b) * nfreqs + f]
  {
    TexelArithmetic(start, b, blocks, nblocks, f, nfreqs);
    SliceIndex(samples, start * nfreqs, start * nfreqs + blocks * nfreqs, b * nfreqs + f);
  }

  /** Row b, column f of texture i is frequency bin f of global block
      i * maxWidth + b: the block-major buffer needs no transposition. */
  lemma TexelIsSample<T>(samples: seq<T>, nblocks: nat, nfreqs: nat, maxWidth: nat, i: nat, b: nat, f: nat)
    requires maxWidth > 0 && nfreqs <= maxWidth
    requires |samples| == nblocks * nfreqs
    requires i < NumTextures(nblocks, maxWidth)
    requires b < Plan(nblocks, nfreqs, maxWidth)[i].blocks
    requires f < nfreqs
    ensures SameElement(Textures(samples, nfreqs, maxWidth, Plan(nblocks, nfreqs, maxWidth))[i], b * nfreqs + f,
                        samples, (i * maxWidth + b) * nfreqs + f)
  {
    var plan := Plan(nblocks, nfreqs, maxWidth);
    TextureIsRegion(samples, nblocks, nfreqs, maxWidth, i);
    BlocksAtBounds(nblocks, maxWidth, i);
    assert plan[i].blocks == BlocksAt(nblocks, maxWidth, i);
    assert plan[i].dataOffset == i * maxWidth * nfreqs;
    TexelInRegion(samples, Textures(samples, nfreqs, maxWidth, plan)[i],
                  i * maxWidth, plan[i].blocks, nblocks, nfreqs, b, f);
  }

  /** A quad corner: clip-space position and texture coordinate. */
  datatype Vertex = Vertex(x: real, y: real, s: real, t: real)

  /** The triangle-strip quad of a chunk with its texture coordinates. */
  function Quad(c: Chunk): (q: seq<Vertex>)
    ensures |q| == 4
    ensures forall k :: 0 <= k < 4 ==> q[k].s == (q[k].y + 1.0) / 2.0
    ensures forall k :: 0 <= k < 4 ==> q[k].x == 2.0 * (c.minX + q[k].t * (c.maxX - c.minX)) - 1.0
  {
    [ Vertex(c.maxX * 2.0 - 1.0,  1.0, 1.0, 1.0),
      Vertex(c.maxX * 2.0 - 1.0, -1.0, 0.0, 1.0),
      Vertex(c.minX * 2.0 - 1.0,  1.0, 1.0, 0.0),
      Vertex(c.minX * 2.0 - 1.0, -1.0, 0.0, 0.0) ]
  }

  /** The quads of a plan lie in clip space [-1, 1] and fit edge to edge
      across the whole width. */
  lemma PlanQuadsTileClipSpace(nblocks: nat, nfreqs: nat, maxWidth: nat)
    requires maxWidth > 0
    ensures var plan := Plan(nblocks, nfreqs, maxWidth);
      && (forall i, k :: 0 <= i < |plan| && 0 <= k < 4 ==> -1.0 <= Quad(plan[i])[k].x <= 1.0)
      && (forall i :: 0 <= i < |plan| - 1 ==> Quad(plan[i])[0].x == Quad(plan[i + 1])[2].x)
      && (|plan| > 0 ==> Quad(plan[0])[2].x == -1.0 && Quad(plan[|plan| - 1])[0].x == 1.0)
  {
    PlanXRangesTile(nblocks, nfreqs, maxWidth);
  }
}
