/**
 Autoregressive transfer generation in overlapping chunks (`generate_transfer_sample`): a long video
 is generated chunk by chunk, each conditioned on the tail of the previous one, and stitched.
 */
module TransferChunks {
  import opened Wrappers
  import opened Blocks
  import opened Packing
  import opened TemporalPadding

  datatype Error = BadChunkSize | OverlapTooLong | NoFrames | MissingInput | ConditionTooLong

  datatype Chunking = Chunking(numChunks: nat, stride: nat)

  /** `_get_num_chunks`. */
  function GetNumChunks(totalFrames: nat, framesPerChunk: int, conditionalFrames: nat): Result<Chunking, Error> {
    if framesPerChunk <= 0 then Err(BadChunkSize)
    else if totalFrames <= framesPerChunk then Ok(Chunking(1, framesPerChunk))
    else if framesPerChunk - conditionalFrames <= 0 then Err(OverlapTooLong)
    else
      var stride := framesPerChunk - conditionalFrames;
      var remaining := totalFrames - framesPerChunk;
      Ok(Chunking(1 + remaining / stride + (if remaining % stride != 0 then 1 else 0), stride))
  }

  /** When the chunking fails: on a chunk without frames, and on an overlap that leaves no new ones. */
  lemma GetNumChunksErrors(totalFrames: nat, framesPerChunk: int, conditionalFrames: nat)
    ensures var r := GetNumChunks(totalFrames, framesPerChunk, conditionalFrames);
      && (r == Err(BadChunkSize) <==> framesPerChunk <= 0)
      && (r == Err(OverlapTooLong) <==> 0 < framesPerChunk < totalFrames && framesPerChunk <= conditionalFrames)
      && (r.Err? ==> r.error == BadChunkSize || r.error == OverlapTooLong)
  {
  }

  /** The chunks after the first are just enough for the remaining frames. */
  lemma ExtraChunks(remaining: nat, stride: nat, extra: nat)
    requires remaining > 0 && stride > 0 && extra == remaining / stride + (if remaining % stride != 0 then 1 else 0)
    ensures extra > 0 && (extra - 1) * stride < remaining <= extra * stride
  {
    var q := remaining / stride;
    assert remaining == q * stride + remaining % stride;
    assert (q + 1) * stride == q * stride + stride && (q - 1) * stride == q * stride - stride;
  }

  lemma NextStart(k: nat, stride: nat)
    requires k > 0
    ensures k * stride == (k - 1) * stride + stride
  {
  }

  /** Chunk `k` starts inside the video and adds new frames; all chunks but the last are full; the last reaches the end. */
  lemma ChunkLayout(total: nat, chunk: nat, cond: nat, k: nat)
    requires total > 0 && GetNumChunks(total, chunk, cond).Ok?
    requires k < GetNumChunks(total, chunk, cond).value.numChunks
    ensures var c := GetNumChunks(total, chunk, cond).value;
      && k * c.stride < total
      && (k > 0 ==> k * c.stride + cond < total && c.stride == chunk - cond)
      && (k + 1 < c.numChunks ==> k * c.stride + chunk < total)
      && (k + 1 == c.numChunks ==> k * c.stride + chunk >= total)
  {
    var c := GetNumChunks(total, chunk, cond).value;
    if total > chunk {
      var extra := c.numChunks - 1;
      ExtraChunks(total - chunk, c.stride, extra);
      if k < extra {
        MulLe(k, extra - 1, c.stride);
      }
      if k > 0 {
        MulLe(k - 1, extra - 1, c.stride);
        NextStart(k, c.stride);
      }
    }
  }

  /** The pieces kept of each chunk: the first one whole, the others without their conditioning frames. */
  function Pieces<X>(chunks: seq<seq<X>>, cond: nat): seq<seq<X>>
    requires forall k | 0 <= k < |chunks| :: |chunks[k]| >= cond || k == 0
  {
    seq(|chunks|, k requires 0 <= k < |chunks| => if k == 0 then chunks[0] else chunks[k][cond..])
  }

  ghost predicate Uniform<X>(chunks: seq<seq<X>>, chunk: nat) {
    forall k | 0 <= k < |chunks| :: |chunks[k]| == chunk
  }

  /** `stride` new frames per chunk, as soon as there is more than one chunk. */
  ghost predicate Strides<X>(chunks: seq<seq<X>>, chunk: nat, cond: nat, stride: nat) {
    Uniform(chunks, chunk) && (|chunks| > 1 ==> stride + cond == chunk)
  }

  lemma {:induction false} StitchedLength<X>(chunks: seq<seq<X>>, chunk: nat, cond: nat, stride: nat)
    requires chunks != [] && Strides(chunks, chunk, cond, stride)
    ensures |Flatten(Pieces(chunks, cond))| == (|chunks| - 1) * stride + chunk
    decreases |chunks|
  {
    var n := |chunks| - 1;
    if n == 0 {
      SinglePiece(chunks, cond);
    } else {
      StitchedLength(chunks[..n], chunk, cond, stride);
      SplitPieces(chunks, cond, n);
      NextStart(n, stride);
    }
  }

  lemma SinglePiece<X>(chunks: seq<seq<X>>, cond: nat)
    requires |chunks| == 1
    ensures Flatten(Pieces(chunks, cond)) == chunks[0]
  {
    assert Pieces(chunks, cond) == [chunks[0]];
    assert [chunks[0]][1..] == [];
  }

  lemma SplitPieces<X>(chunks: seq<seq<X>>, cond: nat, n: nat)
    requires 0 < n == |chunks| - 1
    requires forall k | 0 <= k < |chunks| :: |chunks[k]| >= cond || k == 0
    ensures Flatten(Pieces(chunks, cond)) == Flatten(Pieces(chunks[..n], cond)) + chunks[n][cond..]
  {
    assert Pieces(chunks, cond) == Pieces(chunks[..n], cond) + [chunks[n][cond..]];
    FlattenAppend(Pieces(chunks[..n], cond), [chunks[n][cond..]]);
    assert [chunks[n][cond..]][1..] == [];
  }

  /** Frame `j` of chunk `k` lands at global index `k * stride + j`. */
  lemma {:induction false} StitchedAt<X>(chunks: seq<seq<X>>, chunk: nat, cond: nat, stride: nat, k: nat, j: nat)
    requires Strides(chunks, chunk, cond, stride)
    requires k < |chunks| && j < chunk && (k == 0 || cond <= j)
    ensures k * stride + j < |Flatten(Pieces(chunks, cond))|
    ensures Flatten(Pieces(chunks, cond))[k * stride + j] == chunks[k][j]
    decreases |chunks|
  {
    var n := |chunks| - 1;
    if n == 0 {
      SinglePiece(chunks, cond);
    } else {
      SplitPieces(chunks, cond, n);
      if k < n {
        StitchedAt(chunks[..n], chunk, cond, stride, k, j);
      } else {
        StitchedLength(chunks[..n], chunk, cond, stride);
        NextStart(n, stride);
      }
    }
  }

  /** The chunk a global frame is taken from. */
  lemma FrameOwner(total: nat, chunk: nat, cond: nat, g: nat) returns (k: nat, j: nat)
    requires g < total && GetNumChunks(total, chunk, cond).Ok?
    ensures var c := GetNumChunks(total, chunk, cond).value;
      k < c.numChunks && j < chunk && g == k * c.stride + j && (k == 0 || cond <= j)
  {
    var c := GetNumChunks(total, chunk, cond).value;
    if g < chunk {
      k, j := 0, g;
    } else {
      k, j := OwnerBehind(g - cond, c.stride, c.numChunks - 1, total - chunk);
      j := j + cond;
    }
  }

  lemma OwnerBehind(frames: nat, stride: nat, extra: nat, remaining: nat) returns (k: nat, j: nat)
    requires stride > 0 && stride <= frames < remaining + stride
    requires extra == remaining / stride + (if remaining % stride != 0 then 1 else 0)
    ensures k <= extra && j < stride && frames == k * stride + j
  {
    k, j := frames / stride, frames % stride;
    ExtraChunks(remaining, stride, extra);
    assert (extra + 1) * stride == extra * stride + stride;
    assert frames == k * stride + j;
    Cancel(k, extra + 1, stride);
  }

  /** `ceil((chunk - 1) / t) * t + 1`: chunk lengths are one more than a multiple of the compression factor. */
  function ChunkFrames(totalFrames: nat, framesPerChunk: nat, t: nat): (c: nat)
    requires framesPerChunk > 0 && t > 0
    ensures c > 0
  {
    var frames := if totalFrames == 1 then 1 else framesPerChunk;
    (frames - 1 + t - 1) / t * t + 1
  }

  /** The length of a chunk: one frame for a single frame, else the least that is enough and one more than a multiple of `t`. */
  ghost predicate IsChunkLength(totalFrames: nat, framesPerChunk: nat, t: nat, c: nat)
    requires t > 0
  {
    if totalFrames == 1 then c == 1
    else Fits(framesPerChunk, t, c) && forall d: nat | Fits(framesPerChunk, t, d) :: c <= d
  }

  ghost predicate Fits(framesPerChunk: nat, t: nat, c: nat)
    requires t > 0
  {
    c > 0 && framesPerChunk <= c && (c - 1) % t == 0
  }

  /** The code computes that length. */
  lemma ChunkFramesIs(totalFrames: nat, framesPerChunk: nat, t: nat, c: nat)
    requires framesPerChunk > 0 && t > 0
    ensures IsChunkLength(totalFrames, framesPerChunk, t, c) <==> c == ChunkFrames(totalFrames, framesPerChunk, t)
  {
    var frames := if totalFrames == 1 then 1 else framesPerChunk;
    RoundedUp(frames - 1, t);
    if totalFrames == 1 {
      QuotientIs(t - 1, t, 0);
    } else {
      var least := ChunkFrames(totalFrames, framesPerChunk, t);
      assert Fits(framesPerChunk, t, least);
      forall d: nat | Fits(framesPerChunk, t, d) ensures least <= d {
        LeastMultiple(frames - 1, t, d - 1);
      }
    }
  }

  /** `ceil(n / t) * t` is a multiple of `t`, at least `n`. */
  lemma RoundedUp(n: nat, t: nat)
    requires t > 0
    ensures n <= (n + t - 1) / t * t && ((n + t - 1) / t * t) % t == 0
  {
    var q := (n + t - 1) / t;
    assert n + t - 1 == q * t + (n + t - 1) % t;
    Decomposition(q * t, t, q, 0);
  }

  lemma LeastMultiple(n: nat, t: nat, m: nat)
    requires t > 0 && n <= m && m % t == 0
    ensures (n + t - 1) / t * t <= m
  {
    var q := m / t;
    assert m == q * t;
    assert (q + 1) * t == q * t + t;
    QuotientIs(n + t - 1, t, (n + t - 1) / t);
    Cancel((n + t - 1) / t, q + 1, t);
    MulLe((n + t - 1) / t, q, t);
  }

  function Map<F, X>(f: F -> X, s: seq<F>): seq<X> {
    seq(|s|, i requires 0 <= i < |s| => f(s[i]))
  }

  /** Pads every hint to the same minimum length. */
  method PadAll<F>(hints: seq<seq<F>>, target: int) returns (r: Result<seq<seq<F>>, Error>)
    ensures r.Err? <==> exists h :: 0 <= h < |hints| && hints[h] == [] && target > 0
    ensures r.Err? ==> r.error == NoFrames
    ensures r.Ok? ==> |r.value| == |hints| && forall h | 0 <= h < |hints| :: r.value[h] == Padded(hints[h], target)
  {
    var padded: seq<seq<F>> := [];
    for h := 0 to |hints|
      invariant |padded| == h
      invariant forall i | 0 <= i < h :: !(hints[i] == [] && target > 0) && padded[i] == Padded(hints[i], target)
    {
      var p, _ := PadTemporalFrames(hints[h], target);
      if p.Err? {
        return Err(NoFrames);
      }
      padded := padded + [p.value];
    }
    return Ok(padded);
  }

  // ---------------------------------------------------------------------------------------------
  // What a run is
  // ---------------------------------------------------------------------------------------------

  /** What one chunk was generated from, and what the model produced. */
  datatype ChunkRun<X> = ChunkRun(controls: seq<seq<X>>, target: seq<X>, cond: nat, output: seq<X>)

  datatype TransferRun<X> = TransferRun(outputVideo: seq<X>, controlVideos: seq<seq<X>>, chunks: seq<ChunkRun<X>>)

  /**
   A generation: padded control sources, the normalised leading input frames, the chunking, and the
   diffusion model with its decoder as a function of seed offset, controls, target and conditioning count.
   */
  datatype Setting<!F, !X> = Setting(
    sources: seq<seq<F>>, lead: seq<X>, total: nat, chunk: nat, cond: nat,
    norm: F -> X, zero: X, generate: (nat, seq<seq<X>>, seq<X>, nat) -> seq<X>)
  {
    ghost predicate Valid() {
      && 0 < total && 0 < chunk && |lead| <= chunk && GetNumChunks(total, chunk, cond).Ok?
      && forall h | 0 <= h < |sources| :: total <= |sources[h]|
    }

    function Stride(): nat {
      if total <= chunk || chunk <= cond then chunk else chunk - cond
    }
  }

  /** The normalised control slice of a chunk: cut at `total`, then padded to the chunk length. */
  function ControlSlice<F, X>(source: seq<F>, norm: F -> X, start: nat, total: nat, chunk: nat): seq<X> {
    if start < total <= |source| && chunk > 0 then Map(norm, Padded(source[start..Min(start + chunk, total)], chunk)) else []
  }

  function ControlsAt<F, X>(s: Setting<F, X>, k: nat): seq<seq<X>> {
    seq(|s.sources|, h requires 0 <= h < |s.sources| => ControlSlice(s.sources[h], s.norm, k * s.Stride(), s.total, s.chunk))
  }

  /** A target tensor: zeros, or the conditioning frames followed by repetitions of the last of them. */
  function TargetOf<X>(frames: seq<X>, chunk: nat, zero: X): seq<X> {
    if frames == [] then seq(chunk, _ => zero)
    else frames + seq(if chunk < |frames| then 0 else chunk - |frames|, _ => frames[|frames| - 1])
  }

  function Tail<X>(video: seq<X>, n: nat): seq<X> {
    if n <= |video| then video[|video| - n..] else video
  }

  /** The frames chunk `k` is conditioned on: the leading input frames, later the tail of the previous output. */
  function Conditioning<F, X>(s: Setting<F, X>, chunks: seq<ChunkRun<X>>, k: nat): seq<X>
    requires k <= |chunks|
  {
    if k == 0 then s.lead else Tail(chunks[k - 1].output, s.cond)
  }

  /** Chunk `k` was generated by the model from its own control slices and its conditioning frames. */
  ghost predicate ChunkOk<F, X>(s: Setting<F, X>, chunks: seq<ChunkRun<X>>, k: nat)
    requires k < |chunks|
  {
    var c, frames := chunks[k], Conditioning(s, chunks, k);
    && c.controls == ControlsAt(s, k)
    && c.cond == |frames|
    && c.target == TargetOf(frames, s.chunk, s.zero)
    && c.output == s.generate(k, c.controls, c.target, c.cond)
  }

  ghost predicate IsRun<F, X>(s: Setting<F, X>, chunks: seq<ChunkRun<X>>) {
    && s.Valid()
    && |chunks| == GetNumChunks(s.total, s.chunk, s.cond).value.numChunks
    && AllOk(s, chunks)
  }

  ghost predicate AllOk<F, X>(s: Setting<F, X>, chunks: seq<ChunkRun<X>>) {
    forall k: nat | k < |chunks| :: ChunkOk(s, chunks, k)
  }

  /** The setting, and with it the model, determines every chunk. */
  lemma RunIsDetermined<F, X>(s: Setting<F, X>, a: seq<ChunkRun<X>>, b: seq<ChunkRun<X>>)
    requires IsRun(s, a) && IsRun(s, b)
    ensures a == b
  {
    SameUpTo(s, a, b, |a|);
    assert a[..|a|] == a && b[..|b|] == b;
  }

  lemma {:induction false} SameUpTo<F, X>(s: Setting<F, X>, a: seq<ChunkRun<X>>, b: seq<ChunkRun<X>>, n: nat)
    requires IsRun(s, a) && IsRun(s, b) && n <= |a|
    ensures a[..n] == b[..n]
  {
    if n > 0 {
      SameUpTo(s, a, b, n - 1);
      assert n > 1 ==> a[..n - 1][n - 2] == b[..n - 1][n - 2];
      assert ChunkOk(s, a, n - 1) && ChunkOk(s, b, n - 1);
      assert a[..n] == a[..n - 1] + [a[n - 1]] && b[..n] == b[..n - 1] + [b[n - 1]];
    }
  }

  /** Appending a chunk leaves the earlier ones as they are. */
  lemma AppendChunk<F, X>(s: Setting<F, X>, chunks: seq<ChunkRun<X>>, longer: seq<ChunkRun<X>>)
    requires AllOk(s, chunks) && |longer| == |chunks| + 1 && longer[..|chunks|] == chunks && ChunkOk(s, longer, |chunks|)
    ensures AllOk(s, longer)
  {
    forall k: nat | k < |longer| ensures ChunkOk(s, longer, k) {
      if k < |chunks| {
        assert ChunkOk(s, chunks, k);
        EarlierChunk(s, chunks, longer, k);
      } else {
        assert k == |chunks|;
      }
    }
  }

  lemma EarlierChunk<F, X>(s: Setting<F, X>, chunks: seq<ChunkRun<X>>, longer: seq<ChunkRun<X>>, k: nat)
    requires k < |chunks| <= |longer| && longer[..|chunks|] == chunks && ChunkOk(s, chunks, k)
    ensures ChunkOk(s, longer, k)
  {
    assert longer[..|chunks|][k] == longer[k];
    assert k > 0 ==> longer[..|chunks|][k - 1] == longer[k - 1];
  }

  // ---------------------------------------------------------------------------------------------
  // What a run achieves
  // ---------------------------------------------------------------------------------------------

  function Outputs<X>(chunks: seq<ChunkRun<X>>): seq<seq<X>> {
    seq(|chunks|, k requires 0 <= k < |chunks| => chunks[k].output)
  }

  /** Hint `h` of every chunk. */
  function Column<X>(chunks: seq<ChunkRun<X>>, h: nat): seq<seq<X>> {
    seq(|chunks|, k requires 0 <= k < |chunks| => if h < |chunks[k].controls| then chunks[k].controls[h] else [])
  }

  /** Every frame of the stitched output is the one its chunk generated for that position. */
  ghost predicate OutputStitched<X>(video: seq<X>, outputs: seq<seq<X>>, total: nat, chunk: nat, cond: nat, stride: nat) {
    |video| == total && forall k: nat, j: nat | Kept(outputs, total, chunk, cond, stride, k, j) ::
      video[k * stride + j] == outputs[k][j]
  }

  /** Frame `j` of chunk `k` survives the removal of the overlap and the cut at `total`. */
  ghost predicate Kept<X>(outputs: seq<seq<X>>, total: nat, chunk: nat, cond: nat, stride: nat, k: nat, j: nat) {
    k < |outputs| && |outputs[k]| == chunk && j < chunk && (k == 0 || cond <= j) && 0 <= k * stride + j < total
  }

  /**
   The run is lossless: `total` frames come out, every one the frame its chunk generated for that
   position; the stitched controls are the padded controls cut at `total`; and every chunk is
   conditioned on the frames the previous chunk generated for the same positions.
   */
  ghost predicate Lossless<F, X>(s: Setting<F, X>, run: TransferRun<X>) {
    && OutputStitched(run.outputVideo, Outputs(run.chunks), s.total, s.chunk, s.cond, s.Stride())
    && |run.controlVideos| == |s.sources|
    && (forall h | 0 <= h < |s.sources| :: ControlLossless(s, run.controlVideos[h], h))
    && forall k: nat, j: nat | 0 < k < |run.chunks| && j < s.cond :: SamePosition(s, run.chunks, k, j)
  }

  ghost predicate ControlLossless<F, X>(s: Setting<F, X>, video: seq<X>, h: nat)
    requires h < |s.sources|
  {
    s.total <= |s.sources[h]| && video == Map(s.norm, s.sources[h][..s.total])
  }

  /** Conditioning frame `j` of chunk `k` is what the previous chunk generated for the same global index. */
  ghost predicate SamePosition<F, X>(s: Setting<F, X>, chunks: seq<ChunkRun<X>>, k: nat, j: nat)
    requires 0 < k < |chunks|
  {
    && j < |chunks[k].target| && s.Stride() + j < |chunks[k - 1].output|
    && chunks[k].target[j] == chunks[k - 1].output[s.Stride() + j]
    && k * s.Stride() + j == (k - 1) * s.Stride() + (s.Stride() + j)
  }

  lemma StrideIs<F, X>(s: Setting<F, X>)
    requires s.Valid()
    ensures var c := GetNumChunks(s.total, s.chunk, s.cond).value;
      c.stride == s.Stride() && (c.numChunks > 1 ==> s.Stride() + s.cond == s.chunk)
  {
  }

  ghost predicate AllFull<X>(chunks: seq<ChunkRun<X>>, chunk: nat) {
    forall k | 0 <= k < |chunks| :: |chunks[k].output| == chunk
  }

  lemma StitchReaches<X>(outputs: seq<seq<X>>, total: nat, chunk: nat, cond: nat)
    requires total > 0 && GetNumChunks(total, chunk, cond).Ok?
    requires var c := GetNumChunks(total, chunk, cond).value; |outputs| == c.numChunks && Uniform(outputs, chunk)
    ensures Strides(outputs, chunk, cond, GetNumChunks(total, chunk, cond).value.stride)
    ensures |Flatten(Pieces(outputs, cond))| >= total
  {
    ChunkLayout(total, chunk, cond, |outputs| - 1);
    StitchedLength(outputs, chunk, cond, GetNumChunks(total, chunk, cond).value.stride);
  }

  lemma OutputsStitch<X>(outputs: seq<seq<X>>, total: nat, chunk: nat, cond: nat, stride: nat)
    requires Strides(outputs, chunk, cond, stride) && total <= |Flatten(Pieces(outputs, cond))|
    ensures OutputStitched(Flatten(Pieces(outputs, cond))[..total], outputs, total, chunk, cond, stride)
  {
    var video := Flatten(Pieces(outputs, cond))[..total];
    forall k: nat, j: nat | Kept(outputs, total, chunk, cond, stride, k, j) ensures video[k * stride + j] == outputs[k][j] {
      StitchedAt(outputs, chunk, cond, stride, k, j);
    }
  }

  /** A control slice agrees with its source at the frame's global position. */
  lemma SliceAt<F, X>(source: seq<F>, norm: F -> X, start: nat, total: nat, chunk: nat, j: nat)
    requires start + j < total <= |source| && j < chunk
    ensures |ControlSlice(source, norm, start, total, chunk)| == chunk
    ensures ControlSlice(source, norm, start, total, chunk)[j] == norm(source[start + j])
  {
    ZigzagPrefix(Min(start + chunk, total) - start, j);
  }

  lemma ColumnIs<F, X>(s: Setting<F, X>, chunks: seq<ChunkRun<X>>, h: nat, k: nat, start: nat)
    requires AllOk(s, chunks) && h < |s.sources| && k < |chunks| && start == k * s.Stride()
    ensures Column(chunks, h)[k] == ControlSlice(s.sources[h], s.norm, start, s.total, s.chunk)
  {
    assert ChunkOk(s, chunks, k);
    assert chunks[k].controls == ControlsAt(s, k);
  }

  /** Frame `j` of a control slice is the source's frame at the same global position. */
  lemma ColumnFrame<F, X>(s: Setting<F, X>, chunks: seq<ChunkRun<X>>, h: nat, k: nat, j: nat, start: nat)
    requires AllOk(s, chunks) && h < |s.sources| && k < |chunks| && j < s.chunk
    requires start == k * s.Stride() && start + j < s.total <= |s.sources[h]|
    ensures |Column(chunks, h)[k]| == s.chunk && Column(chunks, h)[k][j] == s.norm(s.sources[h][start + j])
  {
    ColumnIs(s, chunks, h, k, start);
    SliceAt(s.sources[h], s.norm, start, s.total, s.chunk, j);
  }

  lemma StartInside<F, X>(s: Setting<F, X>, k: nat) returns (start: nat)
    requires s.Valid() && k < GetNumChunks(s.total, s.chunk, s.cond).value.numChunks
    ensures start == k * s.Stride() && start < s.total
  {
    StrideIs(s);
    ChunkLayout(s.total, s.chunk, s.cond, k);
    start := k * s.Stride();
  }

  /** Control slices of one source stitch to the source. */
  lemma ControlsStitch<F, X>(s: Setting<F, X>, chunks: seq<ChunkRun<X>>, h: nat)
    requires IsRun(s, chunks) && h < |s.sources|
    ensures Uniform(Column(chunks, h), s.chunk) && (|chunks| == 1 || s.cond <= s.chunk)
    ensures s.total <= |Flatten(Pieces(Column(chunks, h), s.cond))|
    ensures ControlLossless(s, Flatten(Pieces(Column(chunks, h), s.cond))[..s.total], h)
  {
    StrideIs(s);
    var slices := Column(chunks, h);
    forall k | 0 <= k < |slices| ensures |slices[k]| == s.chunk {
      var start := StartInside(s, k);
      ColumnFrame(s, chunks, h, k, 0, start);
    }
    StitchReaches(slices, s.total, s.chunk, s.cond);
    var video := Flatten(Pieces(slices, s.cond))[..s.total];
    forall g: nat | g < s.total ensures video[g] == s.norm(s.sources[h][g]) {
      ControlFrame(s, chunks, h, g);
    }
  }

  lemma ControlFrame<F, X>(s: Setting<F, X>, chunks: seq<ChunkRun<X>>, h: nat, g: nat)
    requires IsRun(s, chunks) && h < |s.sources| && g < s.total
    requires Strides(Column(chunks, h), s.chunk, s.cond, s.Stride())
    ensures g < |Flatten(Pieces(Column(chunks, h), s.cond))|
    ensures Flatten(Pieces(Column(chunks, h), s.cond))[g] == s.norm(s.sources[h][g])
  {
    StrideIs(s);
    var k, j := FrameOwner(s.total, s.chunk, s.cond, g);
    FrameOfColumn(s, chunks, h, k, j, g);
    StitchedAt(Column(chunks, h), s.chunk, s.cond, s.Stride(), k, j);
  }

  lemma FrameOfColumn<F, X>(s: Setting<F, X>, chunks: seq<ChunkRun<X>>, h: nat, k: nat, j: nat, g: nat)
    requires IsRun(s, chunks) && h < |s.sources| && k < |chunks| && j < s.chunk && g == k * s.Stride() + j < s.total
    ensures |Column(chunks, h)[k]| == s.chunk && Column(chunks, h)[k][j] == s.norm(s.sources[h][g])
  {
    ColumnFrame(s, chunks, h, k, j, g - j);
  }

  /** A later chunk starts from the previous chunk's frames for the same positions. */
  lemma ConditionsChain<F, X>(s: Setting<F, X>, chunks: seq<ChunkRun<X>>, k: nat, j: nat)
    requires IsRun(s, chunks) && AllFull(chunks, s.chunk) && 0 < k < |chunks| && j < s.cond
    ensures SamePosition(s, chunks, k, j)
  {
    StrideIs(s);
    assert ChunkOk(s, chunks, k);
    NextStart(k, s.Stride());
  }

  // ---------------------------------------------------------------------------------------------
  // The loop
  // ---------------------------------------------------------------------------------------------

  /** The control slices of the chunk starting at `start`. */
  method ControlNorms<F, X>(sources: seq<seq<F>>, start: nat, total: nat, chunk: nat, norm: F -> X) returns (norms: seq<seq<X>>)
    requires start < total && chunk > 0 && forall h | 0 <= h < |sources| :: total <= |sources[h]|
    ensures norms == seq(|sources|, h requires 0 <= h < |sources| => ControlSlice(sources[h], norm, start, total, chunk))
  {
    norms := [];
    for h := 0 to |sources|
      invariant |norms| == h
      invariant forall i | 0 <= i < h :: norms[i] == ControlSlice(sources[i], norm, start, total, chunk)
    {
      var end := Min(start + chunk, total);
      var p, _ := PadTemporalFrames(sources[h][start..end], chunk);
      norms := norms + [Map(norm, p.value)];
    }
  }

  /** Writes the conditioning frames into a target of zeros and repeats the last one to the end. */
  method FillTarget<X>(frames: seq<X>, chunk: nat, zero: X) returns (target: seq<X>)
    requires |frames| <= chunk
    ensures target == TargetOf(frames, chunk, zero)
    ensures |target| == chunk && frames <= target
    ensures forall j | |frames| <= j < chunk :: target[j] == if frames == [] then zero else frames[|frames| - 1]
  {
    target := seq(chunk, _ => zero);
    var current := |frames|;
    if current > 0 {
      target := frames + target[current..];
      if current < chunk {
        var fill := target[current - 1];
        target := target[..current] + seq(chunk - current, _ => fill);
      }
    }
  }

  /** The leading input frames of the first chunk. */
  method FirstCondition<F, X>(input: Option<seq<F>>, firstCond: nat, chunk: nat, norm: F -> X) returns (r: Result<seq<X>, Error>)
    ensures r.Ok? <==> (firstCond > 0 ==> input.Some? && Min(firstCond, |input.value|) <= chunk)
    ensures r.Err? ==> r.error == if input.None? then MissingInput else ConditionTooLong
    ensures r.Ok? ==> r.value == if firstCond > 0 then Map(norm, input.value[..Min(firstCond, |input.value|)]) else []
  {
    if firstCond == 0 {
      return Ok([]);
    }
    if input.None? {
      return Err(MissingInput);
    }
    var current := Min(firstCond, |input.value|);
    if current > chunk {
      return Err(ConditionTooLong);
    }
    return Ok(Map(norm, input.value[..current]));
  }

  /** The setting of `generate_transfer_sample`: every hint and the input padded, the first hint's length in charge. */
  function SettingOf<F, X>(hints: seq<seq<F>>, input: Option<seq<F>>, chunk: nat, cond: nat, firstCond: nat,
                           norm: F -> X, zero: X, generate: (nat, seq<seq<X>>, seq<X>, nat) -> seq<X>): Setting<F, X>
    requires hints != []
  {
    var total := |hints[0]|;
    var target := Max(total, chunk);
    Setting(seq(|hints|, h requires 0 <= h < |hints| => PadOrEmpty(hints[h], target)),
            if firstCond > 0 && input.Some? then Map(norm, Leading(PadOrEmpty(input.value, target), firstCond)) else [],
            total, chunk, cond, norm, zero, generate)
  }

  function PadOrEmpty<F>(frames: seq<F>, target: int): seq<F> {
    if frames == [] then [] else Padded(frames, target)
  }

  function Leading<F>(frames: seq<F>, n: nat): seq<F> {
    frames[..Min(n, |frames|)]
  }

  /** How many leading input frames, padded ones included, condition the first chunk. */
  function LeadCount<F>(input: Option<seq<F>>, firstCond: nat, padded: nat): nat {
    if firstCond == 0 || input.None? then 0 else Min(firstCond, Max(|input.value|, padded))
  }

  /** Everything `generate_transfer_sample` needs of its inputs. */
  ghost predicate Accepts<F>(hints: seq<seq<F>>, input: Option<seq<F>>, chunk: nat, cond: nat, firstCond: nat)
    requires hints != []
  {
    var total := |hints[0]|;
    && (total <= chunk || cond < chunk)
    && (forall h | 0 <= h < |hints| :: hints[h] != [])
    && input != Some([]) && (firstCond > 0 ==> input.Some?)
    && LeadCount(input, firstCond, Max(total, chunk)) <= chunk
  }

  /** What a chunk was conditioned on: behind the conditioning frames the last of them, or zeros if there is none. */
  ghost predicate FilledUp<X>(c: ChunkRun<X>, chunk: nat, zero: X) {
    && |c.target| == chunk == |c.output| && c.cond <= chunk
    && forall j | c.cond <= j < chunk :: c.target[j] == if c.cond == 0 then zero else c.target[c.cond - 1]
  }

  /** The first chunk starts from the leading input frames, every later one from as many frames as the caller asked for. */
  ghost predicate Conditioned<F, X>(chunks: seq<ChunkRun<X>>, input: Option<seq<F>>, leadCount: nat, chunk: nat, cond: nat,
                                    norm: F -> X, zero: X)
  {
    && chunks != [] && chunks[0].cond == leadCount
    && (forall k | 0 <= k < |chunks| :: FilledUp(chunks[k], chunk, zero))
    && (forall k | 0 < k < |chunks| :: chunks[k].cond == cond)
    && (input.Some? ==> forall j | 0 <= j < leadCount && j < |input.value| && j < |chunks[0].target| ::
          chunks[0].target[j] == norm(input.value[j]))
  }

  /** The model and decoder return `chunk` frames whatever they are given. */
  ghost predicate Produces<X(!new)>(generate: (nat, seq<seq<X>>, seq<X>, nat) -> seq<X>, chunk: nat) {
    forall id: nat, controls: seq<seq<X>>, target: seq<X>, cond: nat :: |generate(id, controls, target, cond)| == chunk
  }

  lemma ProducesAt<X(!new)>(generate: (nat, seq<seq<X>>, seq<X>, nat) -> seq<X>, chunk: nat,
                            id: nat, controls: seq<seq<X>>, target: seq<X>, cond: nat)
    requires Produces(generate, chunk)
    ensures |generate(id, controls, target, cond)| == chunk
  {
  }

  /** The piece kept of a chunk's output. */
  function Piece<X>(output: seq<X>, id: nat, cond: nat): seq<X>
    requires id == 0 || cond <= |output|
  {
    if id == 0 then output else output[cond..]
  }

  lemma ExtendPieces<X>(chunks: seq<ChunkRun<X>>, c: ChunkRun<X>, chunk: nat, cond: nat)
    requires AllFull(chunks, chunk) && |c.output| == chunk && (chunks == [] || cond <= chunk)
    ensures AllFull(chunks + [c], chunk)
    ensures Pieces(Outputs(chunks + [c]), cond) == Pieces(Outputs(chunks), cond) + [Piece(c.output, |chunks|, cond)]
  {
    assert Outputs(chunks + [c]) == Outputs(chunks) + [c.output];
  }

  /** One pass of the loop, given what the model returned. */
  lemma ChunkIsOk<F, X>(s: Setting<F, X>, chunks: seq<ChunkRun<X>>, c: ChunkRun<X>)
    requires var frames := Conditioning(s, chunks, |chunks|);
      && c.controls == ControlsAt(s, |chunks|) && c.cond == |frames|
      && c.target == TargetOf(frames, s.chunk, s.zero) && c.output == s.generate(|chunks|, c.controls, c.target, c.cond)
    ensures ChunkOk(s, chunks + [c], |chunks|)
  {
    assert Conditioning(s, chunks + [c], |chunks|) == Conditioning(s, chunks, |chunks|);
  }

  lemma ConditioningFits<F, X>(s: Setting<F, X>, chunks: seq<ChunkRun<X>>)
    requires s.Valid() && AllFull(chunks, s.chunk)
    requires |chunks| < GetNumChunks(s.total, s.chunk, s.cond).value.numChunks
    ensures var n := |Conditioning(s, chunks, |chunks|)|;
      n <= s.chunk && (chunks != [] ==> n == s.cond)
    ensures |chunks| * s.Stride() < s.total
  {
    StrideIs(s);
    ChunkLayout(s.total, s.chunk, s.cond, |chunks|);
  }

  /** The chunk loop: chunk by chunk from the model, each piece kept without its conditioning frames. */
  method RunChunks<F, X(!new)>(s: Setting<F, X>) returns (chunks: seq<ChunkRun<X>>, outputChunks: seq<seq<X>>)
    requires s.Valid() && Produces(s.generate, s.chunk)
    ensures IsRun(s, chunks) && AllFull(chunks, s.chunk) && (|chunks| == 1 || s.cond <= s.chunk)
    ensures outputChunks == Pieces(Outputs(chunks), s.cond)
  {
    chunks, outputChunks := [], [];
    var chunking := GetNumChunks(s.total, s.chunk, s.cond).value;
    StrideIs(s);
    for id := 0 to chunking.numChunks
      invariant |chunks| == id && AllFull(chunks, s.chunk) && AllOk(s, chunks)
      invariant id <= 1 || s.cond <= s.chunk
      invariant outputChunks == Pieces(Outputs(chunks), s.cond)
    {
      ConditioningFits(s, chunks);
      var controls := ControlNorms(s.sources, id * s.Stride(), s.total, s.chunk, s.norm);
      var frames := Conditioning(s, chunks, id);
      var target := FillTarget(frames, s.chunk, s.zero);
      var output := s.generate(id, controls, target, |frames|);
      ProducesAt(s.generate, s.chunk, id, controls, target, |frames|);
      var c := ChunkRun(controls, target, |frames|, output);
      ChunkIsOk(s, chunks, c);
      AppendChunk(s, chunks, chunks + [c]);
      ExtendPieces(chunks, c, s.chunk, s.cond);
      outputChunks := outputChunks + [Piece(output, id, |frames|)];
      chunks := chunks + [c];
    }
  }

  method StitchControls<F, X>(s: Setting<F, X>, chunks: seq<ChunkRun<X>>) returns (controlVideos: seq<seq<X>>)
    requires IsRun(s, chunks)
    ensures |controlVideos| == |s.sources|
    ensures forall h | 0 <= h < |s.sources| :: ControlLossless(s, controlVideos[h], h)
  {
    controlVideos := [];
    for h := 0 to |s.sources|
      invariant |controlVideos| == h
      invariant forall i | 0 <= i < h :: ControlLossless(s, controlVideos[i], i)
    {
      ControlsStitch(s, chunks, h);
      controlVideos := controlVideos + [Flatten(Pieces(Column(chunks, h), s.cond))[..s.total]];
    }
  }

  lemma TargetAt<X>(frames: seq<X>, chunk: nat, zero: X)
    requires |frames| <= chunk
    ensures |TargetOf(frames, chunk, zero)| == chunk && frames <= TargetOf(frames, chunk, zero)
    ensures forall j | |frames| <= j < chunk ::
      TargetOf(frames, chunk, zero)[j] == if frames == [] then zero else frames[|frames| - 1]
  {
  }

  lemma ChunkIsFilledUp<F, X>(s: Setting<F, X>, chunks: seq<ChunkRun<X>>, k: nat)
    requires IsRun(s, chunks) && AllFull(chunks, s.chunk) && k < |chunks|
    ensures FilledUp(chunks[k], s.chunk, s.zero)
    ensures chunks[k].cond == if k == 0 then |s.lead| else s.cond
    ensures k == 0 ==> s.lead <= chunks[0].target
  {
    assert ChunkOk(s, chunks, k);
    StrideIs(s);
    TargetAt(Conditioning(s, chunks, k), s.chunk, s.zero);
  }

  lemma LeadIs<F, X>(input: Option<seq<F>>, firstCond: nat, padded: nat, norm: F -> X)
    requires input.Some? && input.value != [] && firstCond > 0
    ensures var lead := Map(norm, Leading(PadOrEmpty(input.value, padded), firstCond));
      && |lead| == LeadCount(input, firstCond, padded)
      && forall j | 0 <= j < |lead| && j < |input.value| :: lead[j] == norm(input.value[j])
  {
    forall j: nat | j < |input.value| ensures Zigzag(|input.value|, j) == j {
      ZigzagPrefix(|input.value|, j);
    }
  }

  lemma RunIsConditioned<F, X>(s: Setting<F, X>, chunks: seq<ChunkRun<X>>, input: Option<seq<F>>, firstCond: nat)
    requires IsRun(s, chunks) && AllFull(chunks, s.chunk)
    requires input != Some([]) && (firstCond > 0 ==> input.Some?)
    requires s.lead == if firstCond > 0 && input.Some?
                       then Map(s.norm, Leading(PadOrEmpty(input.value, Max(s.total, s.chunk)), firstCond)) else []
    ensures |s.lead| == LeadCount(input, firstCond, Max(s.total, s.chunk))
    ensures Conditioned(chunks, input, |s.lead|, s.chunk, s.cond, s.norm, s.zero)
  {
    if firstCond > 0 {
      LeadIs(input, firstCond, Max(s.total, s.chunk), s.norm);
    }
    forall k | 0 <= k < |chunks|
      ensures FilledUp(chunks[k], s.chunk, s.zero) && chunks[k].cond == if k == 0 then |s.lead| else s.cond
    {
      ChunkIsFilledUp(s, chunks, k);
    }
    ChunkIsFilledUp(s, chunks, 0);
  }

  /**
   `generate_transfer_sample`, for chunks of `chunk` frames. It succeeds exactly on acceptable inputs; then every chunk
   is what the model returns for its control slices and its conditioning frames, and the run is lossless.
   */
  method GenerateTransferSample<F, X(!new)>(
    hints: seq<seq<F>>, input: Option<seq<F>>, framesPerChunk: nat, conditionalFrames: nat, firstCond: nat,
    compression: nat, norm: F -> X, zero: X, generate: (nat, seq<seq<X>>, seq<X>, nat) -> seq<X>, ghost chunk: nat)
    returns (r: Result<TransferRun<X>, Error>)
    requires hints != [] && framesPerChunk > 0 && compression > 0
    requires IsChunkLength(|hints[0]|, framesPerChunk, compression, chunk) && Produces(generate, chunk)
    ensures r.Ok? <==> Accepts(hints, input, chunk, conditionalFrames, firstCond)
    ensures r.Ok? ==>
      var s := SettingOf(hints, input, chunk, conditionalFrames, firstCond, norm, zero, generate);
      && s.total == |hints[0]| && s.chunk == chunk && s.cond == conditionalFrames
      && IsRun(s, r.value.chunks) && Lossless(s, r.value)
      && Conditioned(r.value.chunks, input, LeadCount(input, firstCond, Max(s.total, chunk)), chunk, conditionalFrames, norm, zero)
    ensures r.Err? ==> match r.error
            case OverlapTooLong => |hints[0]| > chunk && conditionalFrames >= chunk
            case NoFrames => (exists h :: 0 <= h < |hints| && hints[h] == []) || input == Some([])
            case MissingInput => firstCond > 0 && input.None?
            case ConditionTooLong => LeadCount(input, firstCond, Max(|hints[0]|, chunk)) > chunk
            case BadChunkSize => false
  {
    ghost var setting := SettingOf(hints, input, chunk, conditionalFrames, firstCond, norm, zero, generate);
    var total := |hints[0]|;
    var chunkFrames := ChunkFrames(total, framesPerChunk, compression);
    ChunkFramesIs(total, framesPerChunk, compression, chunk);
    var chunking := GetNumChunks(total, chunkFrames, conditionalFrames);
    if chunking.Err? {
      return Err(chunking.error);
    }
    var padded := PadAll(hints, Max(total, chunkFrames));
    if padded.Err? {
      return Err(padded.error);
    }
    var paddedInput: Option<seq<F>> := None;
    if input.Some? {
      var p, _ := PadTemporalFrames(input.value, Max(total, chunkFrames));
      if p.Err? {
        return Err(NoFrames);
      }
      paddedInput := Some(p.value);
    }
    var lead := FirstCondition(paddedInput, firstCond, chunkFrames, norm);
    if lead.Err? {
      return Err(lead.error);
    }
    var s := Setting(padded.value, lead.value, total, chunkFrames, conditionalFrames, norm, zero, generate);
    assert s.sources == setting.sources && s.lead == setting.lead;
    var chunks, outputChunks := RunChunks(s);
    var controlVideos := StitchControls(s, chunks);
    RunIsLossless(s, chunks, controlVideos);
    RunIsConditioned(s, chunks, input, firstCond);
    return Ok(TransferRun(Flatten(outputChunks)[..total], controlVideos, chunks));
  }

  lemma RunIsLossless<F, X>(s: Setting<F, X>, chunks: seq<ChunkRun<X>>, controlVideos: seq<seq<X>>)
    requires IsRun(s, chunks) && AllFull(chunks, s.chunk) && (|chunks| == 1 || s.cond <= s.chunk)
    requires |controlVideos| == |s.sources| && forall h | 0 <= h < |s.sources| :: ControlLossless(s, controlVideos[h], h)
    ensures s.total <= |Flatten(Pieces(Outputs(chunks), s.cond))|
    ensures Lossless(s, TransferRun(Flatten(Pieces(Outputs(chunks), s.cond))[..s.total], controlVideos, chunks))
  {
    StrideIs(s);
    StitchReaches(Outputs(chunks), s.total, s.chunk, s.cond);
    OutputsStitch(Outputs(chunks), s.total, s.chunk, s.cond, s.Stride());
    forall k: nat, j: nat | 0 < k < |chunks| && j < s.cond ensures SamePosition(s, chunks, k, j) {
      ConditionsChain(s, chunks, k, j);
    }
  }
}
