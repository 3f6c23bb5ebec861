/**
 Pooling of an interleaved image by a block that only accepts small images. Tiles are aligned to
 the stride, so that every window of a tile is a window of the whole image, and each tile's
 rows of results are copied into place.

 The block is an arbitrary function of a window of one channel, so the result covers
 maximum, minimum, sum and average pooling with any rounding.
 */
module PoolingTiling {
  import opened IntegerArithmetic
  import opened RasterImages
  import opened Results

  type Pool = seq<seq<int>> -> int

  /** What the testbench is told for one tile. */
  datatype Job = Job(top: int, left: int, height: int, width: int, outHeight: int, outWidth: int)

  /** Shape of the operation: window side, distance between windows, values per pixel. */
  datatype Shape = Shape(pool: int, stride: int, channels: int)
  {
    predicate Valid() { 1 <= pool && 1 <= stride && 1 <= channels }
  }

  /** Windows that fit along n pixels. */
  function OutCount(n: int, s: Shape): int
    requires s.Valid()
  {
    (n - s.pool) / s.stride + 1
  }

  /** Where channel c of the pixel in row y, column x lies. */
  function Spot(y: int, x: int, c: int, w: int, channels: int): int
  {
    Idx(y, Idx(x, c, channels), Times(w, channels))
  }

  /** Interleaved values of an image. */
  ghost predicate IsImage(values: seq<int>, h: int, w: int, s: Shape)
  {
    |values| == Times(h, Times(w, s.channels))
  }

  lemma SpotBounds(y: int, x: int, c: int, h: int, w: int, channels: int)
    requires 0 <= y < h && 0 <= x < w && 0 <= c < channels
    ensures 0 <= Idx(x, c, channels) < Times(w, channels)
    ensures 0 <= Spot(y, x, c, w, channels) < Times(h, Times(w, channels))
  {
    IdxBounds(x, c, w, channels);
    IdxBounds(y, Idx(x, c, channels), h, Times(w, channels));
  }

  function Value(values: seq<int>, h: int, w: int, s: Shape, y: int, x: int, c: int): int
    requires IsImage(values, h, w, s) && 0 <= c < s.channels
  {
    if 0 <= y < h && 0 <= x < w then
      SpotBounds(y, x, c, h, w, s.channels);
      values[Spot(y, x, c, w, s.channels)]
    else 0
  }

  /** The window of output (oy, ox) in one channel, row by row. */
  function Window(values: seq<int>, h: int, w: int, s: Shape, oy: int, ox: int, c: int): seq<seq<int>>
    requires s.Valid() && IsImage(values, h, w, s) && 0 <= c < s.channels
  {
    seq(s.pool, i => seq(s.pool, j => Value(values, h, w, s, Times(oy, s.stride) + i, Times(ox, s.stride) + j, c)))
  }

  function Pooled(values: seq<int>, h: int, w: int, s: Shape, pool: Pool, oy: int, ox: int, c: int): int
    requires s.Valid() && IsImage(values, h, w, s) && 0 <= c < s.channels
  {
    pool(Window(values, h, w, s, oy, ox, c))
  }

  /** out, oh by ow, is the pooling of the whole image. */
  ghost predicate IsPooling(out: seq<int>, oh: int, ow: int, values: seq<int>, h: int, w: int, s: Shape, pool: Pool)
    requires s.Valid() && IsImage(values, h, w, s)
  {
    && IsImage(out, oh, ow, s)
    && forall y, x, c {:trigger Spot(y, x, c, ow, s.channels)} :: 0 <= y < oh && 0 <= x < ow && 0 <= c < s.channels ==>
         && 0 <= Spot(y, x, c, ow, s.channels) < |out|
         && out[Spot(y, x, c, ow, s.channels)] == Pooled(values, h, w, s, pool, y, x, c)
  }

  /** The count of outputs is exact: window k fits if and only if it is one of them. */
  lemma WindowFits(n: int, s: Shape, k: int)
    requires s.Valid() && 0 <= k
    ensures k < OutCount(n, s) <==> Times(k, s.stride) + s.pool <= n
  {
    AtMostQuotient(n - s.pool, s.stride, k);
  }

  /** Side of the tile whose pooling has outs outputs. */
  function TileSide(outs: int, s: Shape): int { Times(outs - 1, s.stride) + s.pool }

  /** A tile of outs outputs starting at output first stays in the image and in the block. */
  lemma TileStaysInside(n: int, limit: int, s: Shape, first: int, outs: int)
    requires s.Valid() && 0 <= first && 1 <= outs
    requires first + outs <= OutCount(n, s) && outs <= OutCount(limit, s)
    ensures 0 <= Times(first, s.stride) && Times(first, s.stride) + TileSide(outs, s) <= n
    ensures s.pool <= TileSide(outs, s) <= limit
    ensures OutCount(TileSide(outs, s), s) == outs
  {
    TimesNonNegative(first, s.stride);
    TimesNonNegative(outs - 1, s.stride);
    TimesAdd(first, outs - 1, s.stride);
    WindowFits(n, s, first + outs - 1);
    WindowFits(limit, s, outs - 1);
    WindowFits(TileSide(outs, s), s, outs - 1);
    WindowFits(TileSide(outs, s), s, outs);
  }

  /** The tile, as slices of whole rows. */
  ghost predicate IsTile(tile: seq<int>, values: seq<int>, h: int, w: int, s: Shape, top: int, bottom: int, left: int, right: int)
    requires s.Valid() && IsImage(values, h, w, s)
    requires 0 <= top <= bottom <= h && 0 <= left <= right <= w
  {
    && IsImage(tile, bottom - top, right - left, s)
    && forall y, x, c {:trigger Spot(y, x, c, right - left, s.channels)} ::
         0 <= y < bottom - top && 0 <= x < right - left && 0 <= c < s.channels ==>
         && 0 <= Spot(y, x, c, right - left, s.channels) < |tile|
         && tile[Spot(y, x, c, right - left, s.channels)] == Value(values, h, w, s, top + y, left + x, c)
  }

  /** Cutting rows of channel values cuts rows of pixels. */
  lemma RowsAreTile(values: seq<int>, h: int, w: int, s: Shape, top: int, bottom: int, left: int, right: int)
    requires s.Valid() && IsImage(values, h, w, s)
    requires 0 <= top <= bottom <= h && 0 <= left <= right <= w
    ensures 0 <= Times(left, s.channels) <= Times(right, s.channels) <= Times(w, s.channels)
    ensures IsTile(TileRows(values, h, Times(w, s.channels), top, bottom, Times(left, s.channels), Times(right, s.channels)),
                   values, h, w, s, top, bottom, left, right)
  {
    var n := s.channels;
    TimesNonNegative(left, n);
    TimesMonotonic(left, right, n);
    TimesMonotonic(right, w, n);
    TimesAdd(left, right - left, n);
    var tile := TileRows(values, h, Times(w, n), top, bottom, Times(left, n), Times(right, n));
    TileAt(values, h, Times(w, n), top, bottom, Times(left, n), Times(right, n));
    forall y, x, c {:trigger Spot(y, x, c, right - left, n)} | 0 <= y < bottom - top && 0 <= x < right - left && 0 <= c < n
      ensures 0 <= Spot(y, x, c, right - left, n) < |tile|
      ensures tile[Spot(y, x, c, right - left, n)] == Value(values, h, w, s, top + y, left + x, c)
    {
      SpotBounds(y, x, c, bottom - top, right - left, n);
      TimesAdd(left, x, n);
      assert Idx(left + x, c, n) == Times(left, n) + Idx(x, c, n);
    }
  }

  /** The start of row slice y as the driver computes it. */
  lemma SliceStart(y: int, x: int, w: int, channels: int)
    ensures Times(Idx(y, x, w), channels) == Idx(y, Times(x, channels), Times(w, channels))
  {
    TimesAdd(Times(y, w), x, channels);
    TimesAssociates(y, w, channels);
  }

  /** The first row of the rows still to come is the slice the driver takes. */
  lemma RowSlice(values: seq<int>, h: nat, w: nat, s: Shape, y: int, bottom: int, left: int, right: int)
    requires s.Valid() && IsImage(values, h, w, s)
    requires 0 <= y < bottom <= h && 0 <= left <= right <= w
    requires 0 <= Times(left, s.channels) <= Times(right, s.channels) <= Times(w, s.channels)
    ensures var n, start := s.channels, Times(Idx(y, left, w), s.channels);
      && 0 <= start <= start + Times(right - left, n) <= |values|
      && TileRows(values, h, Times(w, n), y, bottom, Times(left, n), Times(right, n))
         == values[start..start + Times(right - left, n)] + TileRows(values, h, Times(w, n), y + 1, bottom, Times(left, n), Times(right, n))
  {
    var n := s.channels;
    SliceStart(y, left, w, n);
    TimesAdd(left, right - left, n);
    RowInside(y, h, Times(w, n), Times(left, n), Times(right, n));
  }

  /** Reads the tile's rows out of the image. */
  method CutTile(values: seq<int>, h: nat, w: nat, s: Shape, top: int, bottom: int, left: int, right: int) returns (tile: seq<int>)
    requires s.Valid() && IsImage(values, h, w, s)
    requires 0 <= top <= bottom <= h && 0 <= left <= right <= w
    ensures IsTile(tile, values, h, w, s, top, bottom, left, right)
  {
    var n := s.channels;
    RowsAreTile(values, h, w, s, top, bottom, left, right);
    ghost var full := TileRows(values, h, Times(w, n), top, bottom, Times(left, n), Times(right, n));
    assert TileRows(values, h, Times(w, n), bottom, bottom, Times(left, n), Times(right, n)) == [];
    hide TileRows, IsTile, IsImage, Times, Idx;
    tile := [];
    ghost var rest := full;
    var y := top;
    while y < bottom
      invariant top <= y <= bottom && tile + rest == full
      invariant rest == TileRows(values, h, Times(w, n), y, bottom, Times(left, n), Times(right, n))
    {
      var rowStart := Times(Idx(y, left, w), n);
      var rowEnd := rowStart + Times(right - left, n);
      RowSlice(values, h, w, s, y, bottom, left, right);
      y := y + 1;
      rest := TileRows(values, h, Times(w, n), y, bottom, Times(left, n), Times(right, n));
      OneMoreSlice(tile, values[rowStart..rowEnd], rest);
      tile := tile + values[rowStart..rowEnd];
    }
  }

  lemma OneMoreSlice(tile: seq<int>, slice: seq<int>, rest: seq<int>)
    ensures tile + (slice + rest) == tile + slice + rest
  {
  }

  /** A tile together with the outputs it serves: rows firstRow.., columns firstColumn... */
  ghost predicate ServesOutputs(tile: seq<int>, values: seq<int>, h: int, w: int, s: Shape,
                                firstRow: int, rows: int, firstColumn: int, columns: int)
    requires s.Valid() && IsImage(values, h, w, s)
  {
    var top, left := Times(firstRow, s.stride), Times(firstColumn, s.stride);
    var bottom, right := top + TileSide(rows, s), left + TileSide(columns, s);
    && 0 <= top <= bottom <= h && 0 <= left <= right <= w
    && IsTile(tile, values, h, w, s, top, bottom, left, right)
  }

  /** Tap i of output k of the tile. */
  lemma TapInside(k: int, outs: int, i: int, first: int, s: Shape)
    requires s.Valid() && 0 <= k < outs && 0 <= i < s.pool
    ensures 0 <= Times(k, s.stride) + i < TileSide(outs, s)
    ensures Times(first, s.stride) + (Times(k, s.stride) + i) == Times(first + k, s.stride) + i
  {
    TimesAdd(first, k, s.stride);
    TimesNonNegative(k, s.stride);
    TimesMonotonic(k, outs - 1, s.stride);
  }

  /**
   Pooling the tile as an image of its own gives the outputs of the whole image from
   (firstRow, firstColumn) on.
   */
  lemma TilePoolsAlike(tile: seq<int>, values: seq<int>, h: int, w: int, s: Shape, pool: Pool,
                       firstRow: int, rows: int, firstColumn: int, columns: int, y: int, x: int, c: int)
    requires s.Valid() && IsImage(values, h, w, s)
    requires ServesOutputs(tile, values, h, w, s, firstRow, rows, firstColumn, columns)
    requires 0 <= y < rows && 0 <= x < columns && 0 <= c < s.channels
    ensures IsImage(tile, TileSide(rows, s), TileSide(columns, s), s)
    ensures Pooled(tile, TileSide(rows, s), TileSide(columns, s), s, pool, y, x, c)
         == Pooled(values, h, w, s, pool, firstRow + y, firstColumn + x, c)
  {
    var inTile := Window(tile, TileSide(rows, s), TileSide(columns, s), s, y, x, c);
    var inImage := Window(values, h, w, s, firstRow + y, firstColumn + x, c);
    forall i | 0 <= i < s.pool ensures inTile[i] == inImage[i] {
      forall j | 0 <= j < s.pool ensures inTile[i][j] == inImage[i][j] {
        TapInside(y, rows, i, firstRow, s);
        TapInside(x, columns, j, firstColumn, s);
        TapReadsAlike(tile, values, h, w, s, firstRow, rows, firstColumn, columns, Times(y, s.stride) + i, Times(x, s.stride) + j, c);
      }
    }
    assert inTile == inImage;
  }

  lemma TapReadsAlike(tile: seq<int>, values: seq<int>, h: int, w: int, s: Shape,
                      firstRow: int, rows: int, firstColumn: int, columns: int, y: int, x: int, c: int)
    requires s.Valid() && IsImage(values, h, w, s)
    requires ServesOutputs(tile, values, h, w, s, firstRow, rows, firstColumn, columns)
    requires 0 <= y < TileSide(rows, s) && 0 <= x < TileSide(columns, s) && 0 <= c < s.channels
    ensures IsImage(tile, TileSide(rows, s), TileSide(columns, s), s)
    ensures Value(tile, TileSide(rows, s), TileSide(columns, s), s, y, x, c)
         == Value(values, h, w, s, Times(firstRow, s.stride) + y, Times(firstColumn, s.stride) + x, c)
  {
    var top, left := Times(firstRow, s.stride), Times(firstColumn, s.stride);
    assert top + TileSide(rows, s) - top == TileSide(rows, s);
    assert left + TileSide(columns, s) - left == TileSide(columns, s);
    SpotBounds(y, x, c, TileSide(rows, s), TileSide(columns, s), s.channels);
  }

  /** The block itself, which holds images up to maxHeight by maxWidth: it visits rows, columns and channels in order. */
  method PoolBlock(tile: seq<int>, h: nat, w: nat, oh: nat, ow: nat, s: Shape, pool: Pool, maxHeight: int, maxWidth: int)
    returns (values: seq<int>)
    requires s.Valid() && IsImage(tile, h, w, s) && h <= maxHeight && w <= maxWidth
    ensures IsPooling(values, oh, ow, tile, h, w, s, pool)
  {
    values := [];
    for y := 0 to oh
      invariant |values| == Times(y, Times(ow, s.channels))
      invariant PooledBefore(values, ow, tile, h, w, s, pool, y, 0, 0)
    {
      for x := 0 to ow
        invariant |values| == Idx(y, Times(x, s.channels), Times(ow, s.channels))
        invariant PooledBefore(values, ow, tile, h, w, s, pool, y, x, 0)
      {
        for c := 0 to s.channels
          invariant |values| == Spot(y, x, c, ow, s.channels)
          invariant PooledBefore(values, ow, tile, h, w, s, pool, y, x, c)
        {
          SpotNonNegative(y, x, c, ow, s.channels);
          values := values + [Pooled(tile, h, w, s, pool, y, x, c)];
        }
      }
    }
  }

  lemma SpotNonNegative(y: int, x: int, c: int, w: int, channels: int)
    requires 0 <= y && 0 <= x && 0 <= c && 0 <= w && 0 <= channels
    ensures 0 <= Spot(y, x, c, w, channels)
  {
    TimesNonNegative(x, channels);
    TimesNonNegative(w, channels);
    TimesNonNegative(y, Times(w, channels));
  }

  /** Everything ahead of (y, x, c) is in place. */
  ghost predicate PooledBefore(out: seq<int>, ow: int, values: seq<int>, h: int, w: int, s: Shape, pool: Pool, y: int, x: int, c: int)
    requires s.Valid() && IsImage(values, h, w, s)
  {
    forall y', x', c' {:trigger Spot(y', x', c', ow, s.channels)} ::
      && 0 <= y' && 0 <= x' < ow && 0 <= c' < s.channels
      && (y' < y || (y' == y && (x' < x || (x' == x && c' < c)))) ==>
        && 0 <= Spot(y', x', c', ow, s.channels) < |out|
        && out[Spot(y', x', c', ow, s.channels)] == Pooled(values, h, w, s, pool, y', x', c')
  }

  /** Results and write counts as the output is filled; done says which pixels are finished. */
  ghost predicate Progress(out: seq<int>, counts: seq<nat>, oh: int, ow: int, values: seq<int>, h: int, w: int, s: Shape, pool: Pool,
                           done: (int, int) -> bool)
    requires s.Valid() && IsImage(values, h, w, s)
  {
    && IsImage(out, oh, ow, s) && IsImage(counts, oh, ow, s)
    && forall y, x, c {:trigger Spot(y, x, c, ow, s.channels)} :: 0 <= y < oh && 0 <= x < ow && 0 <= c < s.channels ==>
         && 0 <= Spot(y, x, c, ow, s.channels) < |out|
         && counts[Spot(y, x, c, ow, s.channels)] == (if done(y, x) then 1 else 0)
         && (done(y, x) ==> out[Spot(y, x, c, ow, s.channels)] == Pooled(values, h, w, s, pool, y, x, c))
  }

  lemma SameProgress(out: seq<int>, counts: seq<nat>, oh: int, ow: int, values: seq<int>, h: int, w: int, s: Shape, pool: Pool,
                     done: (int, int) -> bool, done': (int, int) -> bool)
    requires s.Valid() && IsImage(values, h, w, s) && Progress(out, counts, oh, ow, values, h, w, s, pool, done)
    requires forall y, x :: 0 <= y < oh && 0 <= x < ow ==> done(y, x) == done'(y, x)
    ensures Progress(out, counts, oh, ow, values, h, w, s, pool, done')
  {
  }

  /** Finished rows above a band, finished columns of the band, and finished rows of the current tile. */
  function Done(top: int, bottom: int, left: int, right: int, row: int): (int, int) -> bool
  {
    (y, x) => y < top || (y < bottom && x < left) || (y < row && x < right)
  }

  /** A slice holds exactly the values of its own row and columns. */
  lemma SpotInSlice(y: int, x: int, c: int, oh: int, ow: int, channels: int, row: int, left: int, right: int)
    requires 0 <= y < oh && 0 <= x < ow && 0 <= c < channels
    requires 0 <= row < oh && 0 <= left <= right <= ow
    ensures var start := Idx(row, Times(left, channels), Times(ow, channels));
      && (start <= Spot(y, x, c, ow, channels) < start + Times(right - left, channels) <==> y == row && left <= x < right)
      && (y == row && left <= x < right ==> Spot(y, x, c, ow, channels) == start + Idx(x - left, c, channels))
      && (y == row && left <= x < right ==> 0 <= Idx(x - left, c, channels) < Times(right - left, channels))
  {
    var n := channels;
    var width := Times(ow, n);
    SpotBounds(y, x, c, oh, ow, n);
    TimesNonNegative(left, n);
    TimesAdd(left, right - left, n);
    TimesMonotonic(right, ow, n);
    if y < row {
      TimesMonotonic(y + 1, row, width);
    } else if y > row {
      TimesMonotonic(row + 1, y, width);
    } else if x < left {
      TimesMonotonic(x + 1, left, n);
    } else if x >= right {
      TimesMonotonic(right, x, n);
    } else {
      TimesAdd(left, x - left, n);
      IdxBounds(x - left, c, right - left, n);
    }
  }

  /** Assigning one slice finishes the pixels of its row and columns, and touches no other. */
  lemma SlicePlaced(out: seq<int>, counts: seq<nat>, slice: seq<int>, oh: int, ow: int,
                    values: seq<int>, h: int, w: int, s: Shape, pool: Pool,
                    done: (int, int) -> bool, done': (int, int) -> bool, row: int, left: int, right: int)
    requires s.Valid() && IsImage(values, h, w, s) && Progress(out, counts, oh, ow, values, h, w, s, pool, done)
    requires 0 <= row < oh && 0 <= left <= right <= ow
    requires |slice| == Times(right - left, s.channels)
    requires forall x, c {:trigger Idx(x, c, s.channels)} :: 0 <= x < right - left && 0 <= c < s.channels ==>
      0 <= Idx(x, c, s.channels) < |slice| && slice[Idx(x, c, s.channels)] == Pooled(values, h, w, s, pool, row, left + x, c)
    requires forall x :: left <= x < right ==> !done(row, x)
    requires forall y, x :: 0 <= y < oh && 0 <= x < ow ==> done'(y, x) == (done(y, x) || (y == row && left <= x < right))
    ensures var start := Idx(row, Times(left, s.channels), Times(ow, s.channels));
      && 0 <= start && start + |slice| <= |out|
      && Progress(Overwritten(out, start, slice), Incremented(counts, start, |slice|), oh, ow, values, h, w, s, pool, done')
  {
    var n := s.channels;
    var start := Idx(row, Times(left, n), Times(ow, n));
    TimesNonNegative(left, n);
    TimesAdd(left, right - left, n);
    TimesMonotonic(right, ow, n);
    RowInside(row, oh, Times(ow, n), Times(left, n), Times(left, n) + |slice|) by { TimesNonNegative(right - left, n); }
    var out', counts' := Overwritten(out, start, slice), Incremented(counts, start, |slice|);
    forall y, x, c {:trigger Spot(y, x, c, ow, n)} | 0 <= y < oh && 0 <= x < ow && 0 <= c < n
      ensures 0 <= Spot(y, x, c, ow, n) < |out'|
      ensures counts'[Spot(y, x, c, ow, n)] == (if done'(y, x) then 1 else 0)
      ensures done'(y, x) ==> out'[Spot(y, x, c, ow, n)] == Pooled(values, h, w, s, pool, y, x, c)
    {
      SpotInSlice(y, x, c, oh, ow, n, row, left, right);
      var p := Spot(y, x, c, ow, n);
      if y == row && left <= x < right {
        assert out'[p] == slice[Idx(x - left, c, n)];
      } else {
        assert out'[p] == out[p] && counts'[p] == counts[p];
      }
    }
  }

  /** out[start:start + len(slice)] = slice */
  function Overwritten(out: seq<int>, start: int, slice: seq<int>): (r: seq<int>)
    requires 0 <= start && start + |slice| <= |out|
    ensures |r| == |out|
    ensures forall i :: 0 <= i < |out| ==> r[i] == if start <= i < start + |slice| then slice[i - start] else out[i]
  {
    out[..start] + slice + out[start + |slice|..]
  }

  ghost function Incremented(counts: seq<nat>, start: int, n: int): (r: seq<nat>)
    requires 0 <= start && 0 <= n && start + n <= |counts|
    ensures |r| == |counts|
    ensures forall i :: 0 <= i < |counts| ==> r[i] == if start <= i < start + n then counts[i] + 1 else counts[i]
  {
    seq(|counts|, i requires 0 <= i < |counts| => if start <= i < start + n then counts[i] + 1 else counts[i])
  }

  /** Row y of a tile's results, read as a slice, is that row of the whole pooling. */
  lemma SliceOfTile(tileOut: seq<int>, tile: seq<int>, values: seq<int>, h: int, w: int, s: Shape, pool: Pool,
                    firstRow: int, rows: int, firstColumn: int, columns: int, y: int)
    requires s.Valid() && IsImage(values, h, w, s)
    requires ServesOutputs(tile, values, h, w, s, firstRow, rows, firstColumn, columns)
    requires IsImage(tile, TileSide(rows, s), TileSide(columns, s), s)
    requires IsPooling(tileOut, rows, columns, tile, TileSide(rows, s), TileSide(columns, s), s, pool)
    requires 0 <= y < rows && 0 <= columns
    ensures var start := Times(Times(y, columns), s.channels);
      && 0 <= start && 0 <= Times(columns, s.channels) && start + Times(columns, s.channels) <= |tileOut|
      && var slice := tileOut[start..start + Times(columns, s.channels)];
      forall x, c {:trigger Idx(x, c, s.channels)} :: 0 <= x < columns && 0 <= c < s.channels ==>
        0 <= Idx(x, c, s.channels) < |slice| && slice[Idx(x, c, s.channels)] == Pooled(values, h, w, s, pool, firstRow + y, firstColumn + x, c)
  {
    var n := s.channels;
    TimesAssociates(y, columns, n);
    TimesNonNegative(columns, n);
    RowInside(y, rows, Times(columns, n), 0, Times(columns, n));
    var start := Times(Times(y, columns), n);
    var slice := tileOut[start..start + Times(columns, n)];
    forall x, c {:trigger Idx(x, c, n)} | 0 <= x < columns && 0 <= c < n
      ensures 0 <= Idx(x, c, n) < |slice| && slice[Idx(x, c, n)] == Pooled(values, h, w, s, pool, firstRow + y, firstColumn + x, c)
    {
      IdxBounds(x, c, columns, n);
      assert slice[Idx(x, c, n)] == tileOut[Spot(y, x, c, columns, n)];
      TilePoolsAlike(tile, values, h, w, s, pool, firstRow, rows, firstColumn, columns, y, x, c);
    }
  }

  /** Copies one tile's results into the output, a row slice at a time. */
  method PlaceTile(out0: seq<int>, ghost counts0: seq<nat>, tileOut: seq<int>, tile: seq<int>, oh: nat, ow: nat,
                   values: seq<int>, h: nat, w: nat, s: Shape, pool: Pool,
                   firstRow: nat, rows: nat, firstColumn: nat, columns: nat)
    returns (out: seq<int>, ghost counts: seq<nat>)
    requires s.Valid() && IsImage(values, h, w, s)
    requires firstRow + rows <= oh && firstColumn + columns <= ow
    requires ServesOutputs(tile, values, h, w, s, firstRow, rows, firstColumn, columns)
    requires IsImage(tile, TileSide(rows, s), TileSide(columns, s), s)
    requires IsPooling(tileOut, rows, columns, tile, TileSide(rows, s), TileSide(columns, s), s, pool)
    requires Progress(out0, counts0, oh, ow, values, h, w, s, pool, Done(firstRow, firstRow + rows, firstColumn, 0, 0))
    ensures Progress(out, counts, oh, ow, values, h, w, s, pool, Done(firstRow, firstRow + rows, firstColumn + columns, 0, 0))
  {
    out, counts := out0, counts0;
    var bottom, right := firstRow + rows, firstColumn + columns;
    SameProgress(out, counts, oh, ow, values, h, w, s, pool,
                 Done(firstRow, bottom, firstColumn, 0, 0), Done(firstRow, bottom, firstColumn, right, firstRow));
    var y := 0;
    while y < rows
      invariant 0 <= y <= rows
      invariant Progress(out, counts, oh, ow, values, h, w, s, pool, Done(firstRow, bottom, firstColumn, right, firstRow + y))
    {
      var sourceStart := Times(Times(y, columns), s.channels);
      var destinationStart := Times(Idx(firstRow + y, firstColumn, ow), s.channels);
      var count := Times(columns, s.channels);
      SliceOfTile(tileOut, tile, values, h, w, s, pool, firstRow, rows, firstColumn, columns, y);
      SliceStart(firstRow + y, firstColumn, ow, s.channels);
      var slice := tileOut[sourceStart..sourceStart + count];
      SlicePlaced(out, counts, slice, oh, ow, values, h, w, s, pool,
                  Done(firstRow, bottom, firstColumn, right, firstRow + y), Done(firstRow, bottom, firstColumn, right, firstRow + y + 1),
                  firstRow + y, firstColumn, right);
      out := Overwritten(out, destinationStart, slice);
      counts := Incremented(counts, destinationStart, count);
      y := y + 1;
    }
    SameProgress(out, counts, oh, ow, values, h, w, s, pool, Done(firstRow, bottom, firstColumn, right, bottom), Done(firstRow, bottom, right, 0, 0));
  }

  /** A tile the block can hold, inside the image, told the number of outputs it will give. */
  ghost predicate GoodJob(job: Job, s: Shape, h: int, w: int, maxHeight: int, maxWidth: int)
    requires s.Valid()
  {
    && s.pool <= job.height <= maxHeight && s.pool <= job.width <= maxWidth
    && 0 <= job.top && job.top + job.height <= h && 0 <= job.left && job.left + job.width <= w
    && job.outHeight == OutCount(job.height, s) >= 1 && job.outWidth == OutCount(job.width, s) >= 1
  }

  /** The job for a block of outputs: the tile whose pooling has them. */
  function JobOf(b: Block, s: Shape): Job
  {
    Job(Times(b.top, s.stride), Times(b.left, s.stride), TileSide(b.bottom - b.top, s), TileSide(b.right - b.left, s),
        b.bottom - b.top, b.right - b.left)
  }

  /** One job for each of the blocks, in order; fewer only if the last one did not work. */
  ghost predicate JobsFor(jobs: seq<Job>, blocks: seq<Block>, s: Shape)
  {
    |jobs| <= |blocks| && forall k :: 0 <= k < |jobs| ==> jobs[k] == JobOf(blocks[k], s)
  }

  /** One tile: cut it, run the block, put its results in place. */
  method PoolTile(out0: seq<int>, ghost counts0: seq<nat>, oh: nat, ow: nat, values: seq<int>, h: nat, w: nat, s: Shape, pool: Pool,
                  maxHeight: int, maxWidth: int, works: Job -> bool, firstRow: nat, rows: nat, firstColumn: nat, columns: nat)
    returns (ok: bool, job: Job, out: seq<int>, ghost counts: seq<nat>)
    requires s.Valid() && IsImage(values, h, w, s)
    requires oh == OutCount(h, s) && ow == OutCount(w, s)
    requires 1 <= rows <= OutCount(maxHeight, s) && firstRow + rows <= oh
    requires 1 <= columns <= OutCount(maxWidth, s) && firstColumn + columns <= ow
    requires Progress(out0, counts0, oh, ow, values, h, w, s, pool, Done(firstRow, firstRow + rows, firstColumn, 0, 0))
    ensures GoodJob(job, s, h, w, maxHeight, maxWidth)
    ensures job == JobOf(Block(firstRow, firstRow + rows, firstColumn, firstColumn + columns), s)
    ensures ok == works(job) && (!ok ==> out == out0 && counts == counts0)
    ensures ok ==> Progress(out, counts, oh, ow, values, h, w, s, pool, Done(firstRow, firstRow + rows, firstColumn + columns, 0, 0))
  {
    out, counts := out0, counts0;
    TileStaysInside(h, maxHeight, s, firstRow, rows);
    TileStaysInside(w, maxWidth, s, firstColumn, columns);
    var top, left := Times(firstRow, s.stride), Times(firstColumn, s.stride);
    var height, width := TileSide(rows, s), TileSide(columns, s);
    var tile := CutTile(values, h, w, s, top, top + height, left, left + width);
    assert top + height - top == height && left + width - left == width;
    job := Job(top, left, height, width, rows, columns);
    ok := works(job);
    if ok {
      var tileOut := PoolBlock(tile, height, width, rows, columns, s, pool, maxHeight, maxWidth);
      out, counts := PlaceTile(out, counts, tileOut, tile, oh, ow, values, h, w, s, pool, firstRow, rows, firstColumn, columns);
    }
  }

  /** How a run is refused before any tile is made: no window fits, or the column step is zero. */
  predicate Refused(h: int, w: int, s: Shape, maxHeight: int, maxWidth: int)
    requires s.Valid()
  {
    || OutCount(h, s) <= 0 || OutCount(w, s) <= 0
    || OutCount(maxHeight, s) == 0 || (OutCount(maxHeight, s) > 0 && OutCount(maxWidth, s) == 0)
  }

  /**
   The driver. When a window fits the block, the result is the pooling of the whole image with
   every value written once; when the window is larger than the block by more than a stride,
   the step of the range is negative, no tile is made and the result is all zeros.
   */
  method PoolImage(values: seq<int>, h: nat, w: nat, s: Shape, pool: Pool, maxHeight: int, maxWidth: int, works: Job -> bool)
    returns (r: Result<seq<int>>, jobs: seq<Job>, ghost counts: seq<nat>)
    requires s.Valid() && IsImage(values, h, w, s)
    ensures Refused(h, w, s, maxHeight, maxWidth) ==> r.Failure? && jobs == []
    ensures !Refused(h, w, s, maxHeight, maxWidth) && s.pool <= maxHeight && s.pool <= maxWidth ==>
      var blocks := Blocks(OutCount(h, s), OutCount(w, s), OutCount(maxHeight, s), OutCount(maxWidth, s), 0);
      && JobsFor(jobs, blocks, s) && (r.Success? <==> forall b :: b in blocks ==> works(JobOf(b, s)))
      && (if r.Success? then |jobs| == |blocks|
          else jobs != [] && !works(jobs[|jobs| - 1]) && forall k :: 0 <= k < |jobs| - 1 ==> works(jobs[k]))
    ensures !Refused(h, w, s, maxHeight, maxWidth) && !(s.pool <= maxHeight && s.pool <= maxWidth) ==> r.Success?
    ensures forall j :: j in jobs ==> GoodJob(j, s, h, w, maxHeight, maxWidth)
    ensures r.Success? && s.pool <= maxHeight && s.pool <= maxWidth ==>
      && IsPooling(r.value, OutCount(h, s), OutCount(w, s), values, h, w, s, pool)
      && |counts| == |r.value| && forall i :: 0 <= i < |counts| ==> counts[i] == 1
    ensures !(s.pool <= maxHeight && s.pool <= maxWidth) ==> jobs == []
    ensures r.Success? && !(s.pool <= maxHeight && s.pool <= maxWidth) ==>
      IsImage(r.value, OutCount(h, s), OutCount(w, s), s) && forall i :: 0 <= i < |r.value| ==> r.value[i] == 0
  {
    hide Blocks, BlockRow, JobOf, GoodJob, Progress, IsPooling, AllRan, JobsFor;
    jobs, counts := [], [];
    var oh, ow := OutCount(h, s), OutCount(w, s);
    if oh <= 0 || ow <= 0 { return Failure, jobs, counts; }
    var maxRows, maxColumns := OutCount(maxHeight, s), OutCount(maxWidth, s);
    RoomForWindow(maxHeight, s);
    RoomForWindow(maxWidth, s);
    if maxRows == 0 || (maxRows > 0 && maxColumns == 0) { return Failure, jobs, counts; }
    TimesNonNegative(ow, s.channels);
    TimesNonNegative(oh, Times(ow, s.channels));
    var out := seq(Times(oh, Times(ow, s.channels)), _ => 0);
    counts := seq(|out|, _ => 0);
    if maxRows < 0 || maxColumns < 0 { return Success(out), jobs, counts; }

    NothingDone(out, counts, oh, ow, values, h, w, s, pool);
    NoneRan(s, works);
    ghost var blocks, done := Blocks(oh, ow, maxRows, maxColumns, 0), [];
    var firstRow := 0;
    while firstRow < oh
      invariant 0 <= firstRow && done + Blocks(oh, ow, maxRows, maxColumns, firstRow) == blocks && AllRan(jobs, done, s, works)
      invariant Progress(out, counts, oh, ow, values, h, w, s, pool, Done(Min(firstRow, oh), Min(firstRow, oh), 0, 0, 0))
      invariant forall j :: j in jobs ==> GoodJob(j, s, h, w, maxHeight, maxWidth)
    {
      var rows := Min(maxRows, oh - firstRow);
      SameProgress(out, counts, oh, ow, values, h, w, s, pool, Done(firstRow, firstRow, 0, 0, 0), Done(firstRow, firstRow + rows, 0, 0, 0));
      BlocksOpen(oh, ow, maxRows, maxColumns, firstRow);
      var firstColumn := 0;
      while firstColumn < ow
        invariant 0 <= firstColumn && AllRan(jobs, done, s, works)
        invariant blocks ==
          done + (BlockRow(oh, ow, maxRows, maxColumns, firstRow, firstColumn) + Blocks(oh, ow, maxRows, maxColumns, firstRow + maxRows))
        invariant Progress(out, counts, oh, ow, values, h, w, s, pool, Done(firstRow, firstRow + rows, Min(firstColumn, ow), 0, 0))
        invariant forall j :: j in jobs ==> GoodJob(j, s, h, w, maxHeight, maxWidth)
      {
        var columns := Min(maxColumns, ow - firstColumn);
        var ok, job;
        ok, job, out, counts := PoolTile(out, counts, oh, ow, values, h, w, s, pool, maxHeight, maxWidth, works,
                                         firstRow, rows, firstColumn, columns);
        ghost var b := Block(firstRow, firstRow + rows, firstColumn, firstColumn + columns);
        NextBlock(done, oh, ow, maxRows, maxColumns, firstRow, firstColumn);
        OneMoreJob(jobs, job, done, b, blocks, s, works);
        jobs, done := jobs + [job], done + [b];
        if !ok {
          return Failure, jobs, counts;
        }
        firstColumn := firstColumn + maxColumns;
      }
      SameProgress(out, counts, oh, ow, values, h, w, s, pool,
                   Done(firstRow, firstRow + rows, ow, 0, 0), Done(firstRow + rows, firstRow + rows, 0, 0, 0));
      RowEnds(oh, ow, maxRows, maxColumns, firstRow, firstColumn);
      firstRow := firstRow + maxRows;
    }
    BlocksEnd(oh, ow, maxRows, maxColumns, firstRow);
    AllDone(out, counts, oh, ow, values, h, w, s, pool);
    AllJobsRan(jobs, done, blocks, s, works);
    r := Success(out);
  }

  /** The blocks so far were run, and all of their jobs worked. */
  ghost predicate AllRan(jobs: seq<Job>, blocks: seq<Block>, s: Shape, works: Job -> bool)
  {
    |jobs| == |blocks| && JobsFor(jobs, blocks, s) && forall k :: 0 <= k < |jobs| ==> works(jobs[k])
  }

  lemma NoneRan(s: Shape, works: Job -> bool)
    ensures AllRan([], [], s, works)
  {
  }

  lemma OneMoreJob(jobs: seq<Job>, job: Job, done: seq<Block>, b: Block, blocks: seq<Block>, s: Shape, works: Job -> bool)
    requires AllRan(jobs, done, s, works) && done + [b] <= blocks && job == JobOf(b, s)
    ensures works(job) ==> AllRan(jobs + [job], done + [b], s, works)
    ensures JobsFor(jobs + [job], blocks, s) && forall k :: 0 <= k < |jobs| ==> works((jobs + [job])[k])
    ensures !works(job) ==> b in blocks && !works(JobOf(b, s))
  {
    hide JobOf;
    assert b == (done + [b])[|done|] == blocks[|done|];
    forall k | 0 <= k < |jobs| + 1 ensures (jobs + [job])[k] == JobOf(blocks[k], s) {
      assert blocks[k] == (done + [b])[k];
    }
  }

  lemma AllJobsRan(jobs: seq<Job>, done: seq<Block>, blocks: seq<Block>, s: Shape, works: Job -> bool)
    requires AllRan(jobs, done, s, works) && done + [] == blocks
    ensures |jobs| == |blocks| && JobsFor(jobs, blocks, s)
    ensures forall b :: b in blocks ==> works(JobOf(b, s))
  {
    forall b | b in blocks ensures works(JobOf(b, s)) {
      var k :| 0 <= k < |blocks| && blocks[k] == b;
      assert works(jobs[k]);
    }
  }

  /**
   A run without tiles. A window of 4 by 4 fits the image once; the block accepts 2 by 2 only. The run succeeds, and its zero
   is not the pooling of the image unless that happens to be zero.
   */
  method NoTileRuns(values: seq<int>, pool: Pool, works: Job -> bool) returns (r: Result<seq<int>>, jobs: seq<Job>)
    requires |values| == 16
    ensures r == Success([0]) && jobs == []
    ensures var s := Shape(4, 1, 1);
      IsImage(values, 4, 4, s) && (Pooled(values, 4, 4, s, pool, 0, 0, 0) != 0 ==> !IsPooling([0], 1, 1, values, 4, 4, s, pool))
  {
    hide IsPooling, Pooled, Times, Spot, GoodJob, OutCount;
    var s := Shape(4, 1, 1);
    OneByOne();
    CountsByOne(4, s);
    CountsByOne(2, s);
    ghost var counts;
    r, jobs, counts := PoolImage(values, 4, 4, s, pool, 2, 2, works);
    assert r.value == [0];
    if IsPooling([0], 1, 1, values, 4, 4, s, pool) {
      FirstOfPooling([0], 1, 1, values, 4, 4, s, pool);
    }
  }

  lemma CountsByOne(n: int, s: Shape)
    requires s.Valid() && s.stride == 1
    ensures OutCount(n, s) == n - s.pool + 1
  {
    TimesIsProduct(n - s.pool, 1);
    QuotientIs(n - s.pool, 1, n - s.pool);
  }

  lemma OneByOne()
    ensures Times(4, 1) == 4 && Times(4, 4) == 16 && Times(1, 1) == 1
    ensures Spot(0, 0, 0, 1, 1) == 0
  {
    TimesIsProduct(4, 4);
    TimesIsProduct(4, 1);
    TimesIsProduct(1, 1);
  }

  /** What stands first in a pooling. */
  lemma FirstOfPooling(out: seq<int>, oh: int, ow: int, values: seq<int>, h: int, w: int, s: Shape, pool: Pool)
    requires s.Valid() && IsImage(values, h, w, s) && 0 < oh && 0 < ow && IsPooling(out, oh, ow, values, h, w, s, pool)
    ensures 0 <= Spot(0, 0, 0, ow, s.channels) < |out|
    ensures out[Spot(0, 0, 0, ow, s.channels)] == Pooled(values, h, w, s, pool, 0, 0, 0)
  {
    hide Spot, Pooled, IsImage;
  }

  /** One window fits if and only if the side is at least the window's. */
  lemma RoomForWindow(n: int, s: Shape)
    requires s.Valid()
    ensures 1 <= OutCount(n, s) <==> s.pool <= n
  {
    WindowFits(n, s, 0);
  }

  lemma NothingDone(out: seq<int>, counts: seq<nat>, oh: nat, ow: nat, values: seq<int>, h: int, w: int, s: Shape, pool: Pool)
    requires s.Valid() && IsImage(values, h, w, s) && IsImage(out, oh, ow, s) && IsImage(counts, oh, ow, s)
    requires forall i :: 0 <= i < |counts| ==> counts[i] == 0
    ensures Progress(out, counts, oh, ow, values, h, w, s, pool, Done(0, 0, 0, 0, 0))
  {
    forall y, x, c {:trigger Spot(y, x, c, ow, s.channels)} | 0 <= y < oh && 0 <= x < ow && 0 <= c < s.channels
      ensures 0 <= Spot(y, x, c, ow, s.channels) < |out|
    {
      SpotBounds(y, x, c, oh, ow, s.channels);
    }
  }

  lemma AllDone(out: seq<int>, counts: seq<nat>, oh: nat, ow: nat, values: seq<int>, h: int, w: int, s: Shape, pool: Pool)
    requires s.Valid() && IsImage(values, h, w, s)
    requires Progress(out, counts, oh, ow, values, h, w, s, pool, Done(oh, oh, 0, 0, 0))
    ensures IsPooling(out, oh, ow, values, h, w, s, pool)
    ensures |counts| == |out| && forall i :: 0 <= i < |counts| ==> counts[i] == 1
  {
    TimesNonNegative(ow, s.channels);
    forall i | 0 <= i < |counts| ensures counts[i] == 1 {
      var y, z := IdxOnto(i, oh, Times(ow, s.channels));
      var x, c := IdxOnto(z, ow, s.channels);
      assert Spot(y, x, c, ow, s.channels) == i;
    }
  }
}
