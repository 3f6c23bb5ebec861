/**
 Convolution of a colour plane by a block that only accepts small images: the plane is cut into
 tiles that overlap by the padding, each tile is convolved as an image of its own, and the
 core of each result is copied into the output plane.

 The block is an arbitrary function of the zero-padded window, so the result covers every
 kernel, bias, rounding and saturation.
 */
module ConvolutionTiling {
  import opened IntegerArithmetic
  import opened RasterImages
  import opened Results

  type Kernel = seq<seq<int>> -> int

  /** What the testbench is told for one tile. */
  datatype Job = Job(top: int, left: int, height: int, width: int, outHeight: int, outWidth: int)

  /** The window of side 2 * pad + 1 around (y, x), row by row. */
  function Window(plane: seq<int>, h: int, w: int, y: int, x: int, pad: nat): seq<seq<int>>
    requires |plane| == Times(h, w)
  {
    var k := 2 * pad + 1;
    seq(k, i => seq(k, j => Pixel(plane, h, w, y - pad + i, x - pad + j)))
  }

  /** The convolution block on one image: its output at (y, x). */
  function Convolved(plane: seq<int>, h: int, w: int, y: int, x: int, pad: nat, kernel: Kernel): int
    requires |plane| == Times(h, w)
  {
    kernel(Window(plane, h, w, y, x, pad))
  }

  /** out is the convolution of a whole plane. */
  ghost predicate IsConvolution(out: seq<int>, plane: seq<int>, h: int, w: int, pad: nat, kernel: Kernel)
    requires |plane| == Times(h, w)
  {
    && |out| == Times(h, w)
    && forall y, x {:trigger Idx(y, x, w)} :: 0 <= y < h && 0 <= x < w ==>
         0 <= Idx(y, x, w) < |out| && out[Idx(y, x, w)] == Convolved(plane, h, w, y, x, pad, kernel)
  }

  /** The block itself, which holds images up to maxHeight by maxWidth: it visits the pixels in raster order. */
  method ConvolveBlock(tile: seq<int>, h: nat, w: nat, pad: nat, kernel: Kernel, maxHeight: int, maxWidth: int) returns (values: seq<int>)
    requires |tile| == Times(h, w) && h <= maxHeight && w <= maxWidth
    ensures IsConvolution(values, tile, h, w, pad, kernel)
  {
    values := [];
    for y := 0 to h
      invariant |values| == Times(y, w)
      invariant forall b, a {:trigger Idx(b, a, w)} :: 0 <= b < y && 0 <= a < w ==>
        0 <= Idx(b, a, w) < |values| && values[Idx(b, a, w)] == Convolved(tile, h, w, b, a, pad, kernel)
    {
      for x := 0 to w
        invariant |values| == Idx(y, x, w)
        invariant forall b, a {:trigger Idx(b, a, w)} :: (0 <= b < y && 0 <= a < w) || (b == y && 0 <= a < x) ==>
          0 <= Idx(b, a, w) < |values| && values[Idx(b, a, w)] == Convolved(tile, h, w, b, a, pad, kernel)
      {
        TimesNonNegative(y, w);
        values := values + [Convolved(tile, h, w, y, x, pad, kernel)];
      }
    }
  }

  /** The tile around a core: the core and a halo of pad pixels where the plane has them. */
  ghost predicate Halo(h: int, coreTop: int, coreBottom: int, top: int, bottom: int, pad: int)
  {
    && 0 <= coreTop <= coreBottom <= h
    && top == Max(0, coreTop - pad) && bottom == Min(h, coreBottom + pad)
  }

  /** A tap at most pad away from a core pixel reads the same from the tile and from the plane. */
  lemma TapReadsAlike(plane: seq<int>, h: int, w: int, pad: nat,
                      coreTop: int, coreBottom: int, top: int, bottom: int,
                      coreLeft: int, coreRight: int, left: int, right: int, y: int, x: int)
    requires 0 <= w && |plane| == Times(h, w)
    requires Halo(h, coreTop, coreBottom, top, bottom, pad) && Halo(w, coreLeft, coreRight, left, right, pad)
    requires coreTop - pad <= y < coreBottom + pad && coreLeft - pad <= x < coreRight + pad
    ensures |TileRows(plane, h, w, top, bottom, left, right)| == Times(bottom - top, right - left)
    ensures Pixel(TileRows(plane, h, w, top, bottom, left, right), bottom - top, right - left, y - top, x - left)
         == Pixel(plane, h, w, y, x)
  {
    TileAt(plane, h, w, top, bottom, left, right);
    if top <= y < bottom && left <= x < right {
      assert 0 <= Idx(y - top, x - left, right - left);
    }
  }

  /**
   Inside the core, convolving the tile as an image of its own gives what convolving the whole
   plane gives: every tap that reaches outside the tile also reaches outside the plane.
   */
  lemma TileConvolvesAlike(plane: seq<int>, h: int, w: int, pad: nat, kernel: Kernel,
                           coreTop: int, coreBottom: int, top: int, bottom: int,
                           coreLeft: int, coreRight: int, left: int, right: int, y: int, x: int)
    requires 0 <= w && |plane| == Times(h, w)
    requires Halo(h, coreTop, coreBottom, top, bottom, pad) && Halo(w, coreLeft, coreRight, left, right, pad)
    requires coreTop <= y < coreBottom && coreLeft <= x < coreRight
    ensures |TileRows(plane, h, w, top, bottom, left, right)| == Times(bottom - top, right - left)
    ensures Convolved(TileRows(plane, h, w, top, bottom, left, right), bottom - top, right - left, y - top, x - left, pad, kernel)
         == Convolved(plane, h, w, y, x, pad, kernel)
  {
    var k := 2 * pad + 1;
    TapReadsAlike(plane, h, w, pad, coreTop, coreBottom, top, bottom, coreLeft, coreRight, left, right, y, x);
    var tile := TileRows(plane, h, w, top, bottom, left, right);
    var inTile := Window(tile, bottom - top, right - left, y - top, x - left, pad);
    var inPlane := Window(plane, h, w, y, x, pad);
    forall i | 0 <= i < k ensures inTile[i] == inPlane[i] {
      forall j | 0 <= j < k ensures inTile[i][j] == inPlane[i][j] {
        TapReadsAlike(plane, h, w, pad, coreTop, coreBottom, top, bottom, coreLeft, coreRight, left, right, y - pad + i, x - pad + j);
      }
    }
    assert inTile == inPlane;
  }

  /** Output and write counts of the plane as it is filled. */
  ghost predicate Progress(out: seq<int>, counts: seq<nat>, plane: seq<int>, h: int, w: int, pad: nat, kernel: Kernel,
                           done: (int, int) -> bool)
    requires |plane| == Times(h, w)
  {
    && |out| == |counts| == Times(h, w)
    && forall y, x {:trigger Idx(y, x, w)} :: 0 <= y < h && 0 <= x < w ==>
         && 0 <= Idx(y, x, w) < Times(h, w)
         && counts[Idx(y, x, w)] == (if done(y, x) then 1 else 0)
         && (done(y, x) ==> out[Idx(y, x, w)] == Convolved(plane, h, w, y, x, pad, kernel))
  }

  /** Pixels of the first rows, and of the first columns of the current band of rows. */
  function Before(top: int, bottom: int, left: int): (int, int) -> bool
  {
    (y, x) => y < top || (y < bottom && x < left)
  }

  /** Pixels done while a tile's core is being copied, row y up to column x. */
  function Copied(top: int, bottom: int, left: int, right: int, row: int, col: int): (int, int) -> bool
  {
    (y, x) => y < top || (y < bottom && x < left) || (y < bottom && x < right && (y < row || (y == row && x < col)))
  }

  lemma SameProgress(out: seq<int>, counts: seq<nat>, plane: seq<int>, h: int, w: int, pad: nat, kernel: Kernel,
                     done: (int, int) -> bool, done': (int, int) -> bool)
    requires |plane| == Times(h, w) && Progress(out, counts, plane, h, w, pad, kernel, done)
    requires forall y, x :: 0 <= y < h && 0 <= x < w ==> done(y, x) == done'(y, x)
    ensures Progress(out, counts, plane, h, w, pad, kernel, done')
  {
  }

  /** Writing one more pixel. */
  lemma OneMorePixel(out: seq<int>, counts: seq<nat>, plane: seq<int>, h: int, w: int, pad: nat, kernel: Kernel,
                     done: (int, int) -> bool, done': (int, int) -> bool, y: int, x: int)
    requires |plane| == Times(h, w) && Progress(out, counts, plane, h, w, pad, kernel, done)
    requires 0 <= y < h && 0 <= x < w && !done(y, x)
    requires forall b, a :: 0 <= b < h && 0 <= a < w ==> done'(b, a) == (done(b, a) || (b == y && a == x))
    ensures 0 <= Idx(y, x, w) < |out|
    ensures var i := Idx(y, x, w);
      Progress(out[i := Convolved(plane, h, w, y, x, pad, kernel)], counts[i := counts[i] + 1], plane, h, w, pad, kernel, done')
  {
    var i := Idx(y, x, w);
    forall b, a | 0 <= b < h && 0 <= a < w ensures Idx(b, a, w) == i <==> b == y && a == x {
      if Idx(b, a, w) == i { IdxInjective(b, a, y, x, w); }
    }
  }

  /** Copies the core of one tile's result into the output plane. */
  method CopyCore(output: array<int>, values: seq<int>, plane: seq<int>, h: nat, w: nat, pad: nat, kernel: Kernel, ghost counts0: seq<nat>,
                  coreTop: int, coreBottom: int, top: int, bottom: int, coreLeft: int, coreRight: int, left: int, right: int)
    returns (ghost counts: seq<nat>)
    requires |plane| == Times(h, w) && output.Length == Times(h, w)
    requires Halo(h, coreTop, coreBottom, top, bottom, pad) && Halo(w, coreLeft, coreRight, left, right, pad)
    requires |TileRows(plane, h, w, top, bottom, left, right)| == Times(bottom - top, right - left)
    requires IsConvolution(values, TileRows(plane, h, w, top, bottom, left, right), bottom - top, right - left, pad, kernel)
    requires Progress(output[..], counts0, plane, h, w, pad, kernel, Before(coreTop, coreBottom, coreLeft))
    modifies output
    ensures Progress(output[..], counts, plane, h, w, pad, kernel, Before(coreTop, coreBottom, coreRight))
  {
    counts := counts0;
    SameProgress(output[..], counts, plane, h, w, pad, kernel, Before(coreTop, coreBottom, coreLeft),
                 Copied(coreTop, coreBottom, coreLeft, coreRight, coreTop, coreLeft));
    var y := coreTop;
    while y < coreBottom
      invariant coreTop <= y <= coreBottom
      invariant Progress(output[..], counts, plane, h, w, pad, kernel, Copied(coreTop, coreBottom, coreLeft, coreRight, y, coreLeft))
    {
      var x := coreLeft;
      while x < coreRight
        invariant coreLeft <= x <= coreRight
        invariant Progress(output[..], counts, plane, h, w, pad, kernel, Copied(coreTop, coreBottom, coreLeft, coreRight, y, x))
      {
        TileConvolvesAlike(plane, h, w, pad, kernel, coreTop, coreBottom, top, bottom, coreLeft, coreRight, left, right, y, x);
        OneMorePixel(output[..], counts, plane, h, w, pad, kernel,
                     Copied(coreTop, coreBottom, coreLeft, coreRight, y, x), Copied(coreTop, coreBottom, coreLeft, coreRight, y, x + 1), y, x);
        var i := Idx(y, x, w);
        ghost var out0 := output[..];
        var tileIndex := Idx(y - top, x - left, right - left);
        output[i] := values[tileIndex];
        counts := counts[i := counts[i] + 1];
        assert output[..] == out0[i := Convolved(plane, h, w, y, x, pad, kernel)];
        x := x + 1;
      }
      SameProgress(output[..], counts, plane, h, w, pad, kernel,
                   Copied(coreTop, coreBottom, coreLeft, coreRight, y, coreRight), Copied(coreTop, coreBottom, coreLeft, coreRight, y + 1, coreLeft));
      y := y + 1;
    }
    SameProgress(output[..], counts, plane, h, w, pad, kernel,
                 Copied(coreTop, coreBottom, coreLeft, coreRight, coreBottom, coreLeft), Before(coreTop, coreBottom, coreRight));
  }

  /** Rows or columns produced from n of them, as the driver computes it. */
  function OutputSize(n: int, pad: int, kernelSize: int, stride: int): int
    requires 0 < stride
  {
    (n + 2 * pad - kernelSize) / stride + 1
  }

  /** A job the block can run: the tile fits it and its output is as large as its input. */
  predicate FitsBlock(job: Job, maxHeight: int, maxWidth: int)
  {
    && 1 <= job.height <= maxHeight && 1 <= job.width <= maxWidth
    && job.outHeight == job.height && job.outWidth == job.width
  }

  predicate InPlane(job: Job, h: int, w: int)
  {
    0 <= job.top && job.top + job.height <= h && 0 <= job.left && job.left + job.width <= w
  }

  /** The job for a core: the core with its halo. */
  function JobOf(core: Block, h: int, w: int, pad: nat): Job
  {
    var top, bottom := Max(0, core.top - pad), Min(h, core.bottom + pad);
    var left, right := Max(0, core.left - pad), Min(w, core.right + pad);
    Job(top, left, bottom - top, right - left, bottom - top, right - left)
  }

  /** One job for each of the cores, in order; fewer only if the last one did not work. */
  ghost predicate JobsFor(jobs: seq<Job>, cores: seq<Block>, h: int, w: int, pad: nat)
  {
    |jobs| <= |cores| && forall k :: 0 <= k < |jobs| ==> jobs[k] == JobOf(cores[k], h, w, pad)
  }

  /** With an odd kernel, padded by half of it and moved one pixel at a time, nothing is lost. */
  lemma SameSize(n: int, pad: int)
    ensures OutputSize(n, pad, 2 * pad + 1, 1) == n
  {
  }

  /** The tile has the size the block is told. */
  lemma TileSize(plane: seq<int>, h: int, w: int, top: int, bottom: int, left: int, right: int)
    requires 0 <= w && |plane| == Times(h, w) && 0 <= top <= bottom <= h && 0 <= left <= right <= w
    ensures |TileRows(plane, h, w, top, bottom, left, right)| == Times(bottom - top, right - left)
  {
    TileAt(plane, h, w, top, bottom, left, right);
  }

  /** One tile: cut it out, run the block, check the number of outputs, copy the core back. */
  method RunTile(output: array<int>, plane: seq<int>, h: nat, w: nat, pad: nat, kernel: Kernel, works: Job -> bool, ghost counts0: seq<nat>,
                 coreTop: int, coreBottom: int, top: int, bottom: int, coreLeft: int, coreRight: int, maxHeight: int, maxWidth: int)
    returns (ok: bool, job: Job, ghost counts: seq<nat>)
    requires coreBottom == Min(coreTop + (maxHeight - 2 * pad), h) && coreRight == Min(coreLeft + (maxWidth - 2 * pad), w)
    requires |plane| == Times(h, w) && output.Length == Times(h, w)
    requires Halo(h, coreTop, coreBottom, top, bottom, pad)
    requires 0 <= coreLeft < coreRight <= w && coreTop < coreBottom
    requires Progress(output[..], counts0, plane, h, w, pad, kernel, Before(coreTop, coreBottom, coreLeft))
    modifies output
    ensures FitsBlock(job, maxHeight, maxWidth) && InPlane(job, h, w)
    ensures job == JobOf(Block(coreTop, coreBottom, coreLeft, coreRight), h, w, pad)
    ensures ok == works(job) && (!ok ==> output[..] == old(output[..]) && counts == counts0)
    ensures ok ==> Progress(output[..], counts, plane, h, w, pad, kernel, Before(coreTop, coreBottom, coreRight))
  {
    counts := counts0;
    var left, right := Max(0, coreLeft - pad), Min(w, coreRight + pad);
    var height, width := bottom - top, right - left;
    TileSize(plane, h, w, top, bottom, left, right);
    SameSize(height, pad);
    SameSize(width, pad);
    var tile := TileRows(plane, h, w, top, bottom, left, right);
    job := Job(top, left, height, width, OutputSize(height, pad, 2 * pad + 1, 1), OutputSize(width, pad, 2 * pad + 1, 1));
    ok := works(job);
    if ok {
      var values := ConvolveBlock(tile, height, width, pad, kernel, maxHeight, maxWidth);
      counts := CopyCore(output, values, plane, h, w, pad, kernel, counts, coreTop, coreBottom, top, bottom, coreLeft, coreRight, left, right);
    }
  }

  /**
   One colour plane. A run of the block that produces no output fails the whole channel; otherwise
   the result is the convolution of the whole plane and every output pixel was written once.
   */
  method RunChannel(w: nat, h: nat, plane: seq<int>, maxWidth: int, maxHeight: int, pad: nat, kernel: Kernel, works: Job -> bool)
    returns (r: Result<seq<int>>, outWidth: int, outHeight: int, jobs: seq<Job>, ghost counts: seq<nat>)
    requires |plane| == Times(h, w)
    ensures outWidth == w && outHeight == h
    ensures maxHeight <= 2 * pad || maxWidth <= 2 * pad ==> r.Failure? && jobs == []
    ensures 2 * pad < maxHeight && 2 * pad < maxWidth ==>
      var cores := Blocks(h, w, maxHeight - 2 * pad, maxWidth - 2 * pad, 0);
      && JobsFor(jobs, cores, h, w, pad) && (r.Success? <==> forall core :: core in cores ==> works(JobOf(core, h, w, pad)))
      && (if r.Success? then |jobs| == |cores|
          else jobs != [] && !works(jobs[|jobs| - 1]) && forall k :: 0 <= k < |jobs| - 1 ==> works(jobs[k]))
    ensures forall j :: j in jobs ==> FitsBlock(j, maxHeight, maxWidth) && InPlane(j, h, w)
    ensures r.Success? ==> IsConvolution(r.value, plane, h, w, pad, kernel)
    ensures r.Success? ==> |counts| == Times(h, w) && forall i :: 0 <= i < |counts| ==> counts[i] == 1
  {
    hide Blocks, BlockRow, JobOf, FitsBlock, InPlane, Progress, AllRan, JobsFor, IsConvolution;
    SameSize(h, pad);
    SameSize(w, pad);
    hide OutputSize;
    outHeight, outWidth := OutputSize(h, pad, 2 * pad + 1, 1), OutputSize(w, pad, 2 * pad + 1, 1);
    jobs, counts := [], [];
    TimesNonNegative(h, w);
    var output := new int[Times(outHeight, outWidth)](_ => 0);
    var coreHeight, coreWidth := maxHeight - 2 * pad, maxWidth - 2 * pad;
    if coreHeight <= 0 || coreWidth <= 0 { return Failure, outWidth, outHeight, jobs, counts; }

    counts := seq(output.Length, _ => 0);
    NothingDone(output[..], counts, plane, h, w, pad, kernel);
    ghost var cores, done := Blocks(h, w, coreHeight, coreWidth, 0), [];
    NoneRan(h, w, pad, works);
    var coreTop := 0;
    while coreTop < h
      invariant 0 <= coreTop && done + Blocks(h, w, coreHeight, coreWidth, coreTop) == cores && AllRan(jobs, done, h, w, pad, works)
      invariant Progress(output[..], counts, plane, h, w, pad, kernel, Before(Min(coreTop, h), Min(coreTop, h), 0))
      invariant forall j :: j in jobs ==> FitsBlock(j, maxHeight, maxWidth) && InPlane(j, h, w)
    {
      var coreBottom := Min(coreTop + coreHeight, h);
      var top, bottom := Max(0, coreTop - pad), Min(h, coreBottom + pad);
      SameProgress(output[..], counts, plane, h, w, pad, kernel, Before(coreTop, coreTop, 0), Before(coreTop, coreBottom, 0));
      BlocksOpen(h, w, coreHeight, coreWidth, coreTop);
      var coreLeft := 0;
      while coreLeft < w
        invariant 0 <= coreLeft && AllRan(jobs, done, h, w, pad, works)
        invariant cores ==
          done + (BlockRow(h, w, coreHeight, coreWidth, coreTop, coreLeft) + Blocks(h, w, coreHeight, coreWidth, coreTop + coreHeight))
        invariant Progress(output[..], counts, plane, h, w, pad, kernel, Before(coreTop, coreBottom, Min(coreLeft, w)))
        invariant forall j :: j in jobs ==> FitsBlock(j, maxHeight, maxWidth) && InPlane(j, h, w)
      {
        var coreRight := Min(coreLeft + coreWidth, w);
        var ok, job;
        ok, job, counts := RunTile(output, plane, h, w, pad, kernel, works, counts, coreTop, coreBottom, top, bottom, coreLeft, coreRight,
                                    maxHeight, maxWidth);
        ghost var core := Block(coreTop, coreBottom, coreLeft, coreRight);
        NextBlock(done, h, w, coreHeight, coreWidth, coreTop, coreLeft);
        OneMoreJob(jobs, job, done, core, cores, h, w, pad, works);
        jobs, done := jobs + [job], done + [core];
        if !ok {
          return Failure, outWidth, outHeight, jobs, counts;
        }
        coreLeft := coreLeft + coreWidth;
      }
      SameProgress(output[..], counts, plane, h, w, pad, kernel, Before(coreTop, coreBottom, w), Before(coreBottom, coreBottom, 0));
      RowEnds(h, w, coreHeight, coreWidth, coreTop, coreLeft);
      coreTop := coreTop + coreHeight;
    }
    BlocksEnd(h, w, coreHeight, coreWidth, coreTop);
    AllDone(output[..], counts, plane, h, w, pad, kernel);
    AllJobsRan(jobs, done, cores, h, w, pad, works);
    r := Success(output[..]);
  }

  /** The cores so far were run, and all of their jobs worked. */
  ghost predicate AllRan(jobs: seq<Job>, cores: seq<Block>, h: int, w: int, pad: nat, works: Job -> bool)
  {
    |jobs| == |cores| && JobsFor(jobs, cores, h, w, pad) && forall k :: 0 <= k < |jobs| ==> works(jobs[k])
  }

  lemma NoneRan(h: int, w: int, pad: nat, works: Job -> bool)
    ensures AllRan([], [], h, w, pad, works)
  {
  }

  lemma OneMoreJob(jobs: seq<Job>, job: Job, done: seq<Block>, core: Block, cores: seq<Block>, h: int, w: int, pad: nat, works: Job -> bool)
    requires AllRan(jobs, done, h, w, pad, works) && done + [core] <= cores && job == JobOf(core, h, w, pad)
    ensures works(job) ==> AllRan(jobs + [job], done + [core], h, w, pad, works)
    ensures JobsFor(jobs + [job], cores, h, w, pad) && forall k :: 0 <= k < |jobs| ==> works((jobs + [job])[k])
    ensures !works(job) ==> core in cores && !works(JobOf(core, h, w, pad))
  {
    hide JobOf;
    assert core == (done + [core])[|done|] == cores[|done|];
    forall k | 0 <= k < |jobs| + 1 ensures (jobs + [job])[k] == JobOf(cores[k], h, w, pad) {
      assert cores[k] == (done + [core])[k];
    }
  }

  lemma AllJobsRan(jobs: seq<Job>, done: seq<Block>, cores: seq<Block>, h: int, w: int, pad: nat, works: Job -> bool)
    requires AllRan(jobs, done, h, w, pad, works) && done + [] == cores
    ensures |jobs| == |cores| && JobsFor(jobs, cores, h, w, pad)
    ensures forall core :: core in cores ==> works(JobOf(core, h, w, pad))
  {
    forall core | core in cores ensures works(JobOf(core, h, w, pad)) {
      var k :| 0 <= k < |cores| && cores[k] == core;
      assert works(jobs[k]);
    }
  }

  lemma NothingDone(out: seq<int>, counts: seq<nat>, plane: seq<int>, h: int, w: int, pad: nat, kernel: Kernel)
    requires |plane| == |out| == |counts| == Times(h, w)
    requires forall i :: 0 <= i < |counts| ==> counts[i] == 0
    ensures Progress(out, counts, plane, h, w, pad, kernel, Before(0, 0, 0))
  {
    forall y, x | 0 <= y < h && 0 <= x < w ensures 0 <= Idx(y, x, w) < Times(h, w) {
      IdxBounds(y, x, h, w);
    }
  }

  lemma AllDone(out: seq<int>, counts: seq<nat>, plane: seq<int>, h: nat, w: nat, pad: nat, kernel: Kernel)
    requires |plane| == Times(h, w)
    requires Progress(out, counts, plane, h, w, pad, kernel, Before(h, h, 0))
    ensures IsConvolution(out, plane, h, w, pad, kernel)
    ensures |counts| == Times(h, w) && forall i :: 0 <= i < |counts| ==> counts[i] == 1
  {
    forall i | 0 <= i < |counts| ensures counts[i] == 1 {
      var y, x := IdxOnto(i, h, w);
    }
  }
}
