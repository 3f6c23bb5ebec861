/** Row-major images as flat sequences, and rectangular tiles cut out of them. */
module RasterImages {
  import opened IntegerArithmetic

  /** Flat position of column x in row y of an image w wide. */
  function Idx(y: int, x: int, w: int): int { Times(y, w) + x }

  lemma IdxBounds(y: int, x: int, h: int, w: int)
    requires 0 <= y < h && 0 <= x < w
    ensures 0 <= Idx(y, x, w) < Times(h, w)
  {
    RowMajor(y, x, h, w);
  }

  /** Zero-padded pixel access. */
  function Pixel(plane: seq<int>, h: int, w: int, y: int, x: int): int
    requires |plane| == Times(h, w)
  {
    if 0 <= y < h && 0 <= x < w then
      IdxBounds(y, x, h, w);
      plane[Idx(y, x, w)]
    else 0
  }

  lemma IdxInjective(y: int, x: int, y': int, x': int, w: int)
    requires 0 <= x < w && 0 <= x' < w && Idx(y, x, w) == Idx(y', x', w)
    ensures y == y' && x == x'
  {
    if y < y' {
      RowsDoNotOverlap(y, x, y', x', w);
    } else if y' < y {
      RowsDoNotOverlap(y', x', y, x, w);
    }
  }

  /** Every flat position is some row and column. */
  lemma IdxOnto(i: int, h: nat, w: nat) returns (y: int, x: int)
    requires 0 <= i < Times(h, w)
    ensures 0 <= y < h && 0 <= x < w && Idx(y, x, w) == i
  {
    y := 0;
    while Times(y + 1, w) <= i
      invariant 0 <= y < h && Times(y, w) <= i
      decreases h - y
    {
      if y + 1 == h { assert false; }
      y := y + 1;
    }
    x := i - Times(y, w);
  }

  /** Rows top..bottom-1, columns left..right-1 of an image, row after row. */
  function TileRows(plane: seq<int>, h: int, w: int, top: int, bottom: int, left: int, right: int): seq<int>
    requires 0 <= w && |plane| == Times(h, w) && 0 <= top <= bottom <= h && 0 <= left <= right <= w
    decreases bottom - top
  {
    if top == bottom then []
    else
      RowInside(top, h, w, left, right);
      plane[Idx(top, left, w)..Idx(top, right, w)] + TileRows(plane, h, w, top + 1, bottom, left, right)
  }

  lemma RowInside(y: int, h: int, w: int, left: int, right: int)
    requires 0 <= y < h && 0 <= left <= right <= w
    ensures 0 <= Idx(y, left, w) <= Idx(y, right, w) <= Times(h, w)
  {
    TimesNonNegative(y, w);
    TimesStep(y, w);
    TimesMonotonic(y + 1, h, w);
  }

  /** The tile is an image of its own whose pixel (y, x) is the plane's pixel (top + y, left + x). */
  lemma {:induction false} TileAt(plane: seq<int>, h: int, w: int, top: int, bottom: int, left: int, right: int)
    requires 0 <= w && |plane| == Times(h, w) && 0 <= top <= bottom <= h && 0 <= left <= right <= w
    ensures |TileRows(plane, h, w, top, bottom, left, right)| == Times(bottom - top, right - left)
    ensures forall y, x {:trigger Idx(y, x, right - left)} :: 0 <= y < bottom - top && 0 <= x < right - left ==>
      && 0 <= Idx(y, x, right - left) < Times(bottom - top, right - left)
      && 0 <= Idx(top + y, left + x, w) < Times(h, w)
      && TileRows(plane, h, w, top, bottom, left, right)[Idx(y, x, right - left)] == plane[Idx(top + y, left + x, w)]
    decreases bottom - top
  {
    if top < bottom {
      var tw := right - left;
      RowInside(top, h, w, left, right);
      var row := plane[Idx(top, left, w)..Idx(top, right, w)];
      var rest := TileRows(plane, h, w, top + 1, bottom, left, right);
      TileAt(plane, h, w, top + 1, bottom, left, right);
      forall y, x | 0 <= y < bottom - top && 0 <= x < tw
        ensures 0 <= Idx(y, x, tw) < Times(bottom - top, tw)
        ensures 0 <= Idx(top + y, left + x, w) < Times(h, w)
        ensures (row + rest)[Idx(y, x, tw)] == plane[Idx(top + y, left + x, w)]
      {
        IdxBounds(y, x, bottom - top, tw);
        IdxBounds(top + y, left + x, h, w);
        if y > 0 {
          assert Idx(y, x, tw) == tw + Idx(y - 1, x, tw);
          assert rest[Idx(y - 1, x, tw)] == plane[Idx(top + 1 + (y - 1), left + x, w)];
        }
      }
    }
  }

  // ---- Cutting a plane into blocks ----

  /** Rows top to bottom - 1, columns left to right - 1. */
  datatype Block = Block(top: int, bottom: int, left: int, right: int)

  function BlockAt(h: int, w: int, ch: int, cw: int, top: int, left: int): Block { Block(top, Min(top + ch, h), left, Min(left + cw, w)) }

  /** The blocks, ch by cw or what is left, of one band of rows, from column left on. */
  function BlockRow(h: int, w: int, ch: int, cw: int, top: int, left: int): seq<Block>
    requires 0 < cw
    decreases w - left
  {
    if w <= left then [] else [BlockAt(h, w, ch, cw, top, left)] + BlockRow(h, w, ch, cw, top, left + cw)
  }

  /** The blocks of all bands, from row top on. */
  function Blocks(h: int, w: int, ch: int, cw: int, top: int): seq<Block>
    requires 0 < ch && 0 < cw
    decreases h - top
  {
    if h <= top then [] else BlockRow(h, w, ch, cw, top, 0) + Blocks(h, w, ch, cw, top + ch)
  }

  /** How many steps of c there are from left to n. */
  function Across(n: int, c: int, left: int): nat
    requires 0 < c
    decreases n - left
  {
    if n <= left then 0 else 1 + Across(n, c, left + c)
  }

  lemma {:induction false} AcrossIs(n: int, c: int, left: int, a: nat)
    requires 0 < c
    ensures a < Across(n, c, left) <==> left + Times(a, c) < n
    decreases a
  {
    TimesNonNegative(a, c);
    if a > 0 && left < n { AcrossIs(n, c, left + c, a - 1); }
  }

  lemma {:induction false} RowLength(h: int, w: int, ch: int, cw: int, top: int, left: int)
    requires 0 < cw
    ensures |BlockRow(h, w, ch, cw, top, left)| == Across(w, cw, left)
    decreases w - left
  {
    if left < w { RowLength(h, w, ch, cw, top, left + cw); }
  }

  lemma {:induction false} RowAt(h: int, w: int, ch: int, cw: int, top: int, left: int, k: nat)
    requires 0 < cw && left + Times(k, cw) < w
    ensures k < |BlockRow(h, w, ch, cw, top, left)|
    ensures BlockRow(h, w, ch, cw, top, left)[k] == BlockAt(h, w, ch, cw, top, left + Times(k, cw))
    decreases k
  {
    TimesNonNegative(k, cw);
    if k > 0 { RowAt(h, w, ch, cw, top, left + cw, k - 1); }
  }

  /** The blocks begin at every multiple of the height and of the width, row by row; */
  lemma {:induction false} BlocksAt(h: int, w: int, ch: int, cw: int, top: int, a: nat, b: nat)
    requires 0 < ch && 0 < cw && top + Times(a, ch) < h && Times(b, cw) < w
    ensures 0 <= Idx(a, b, Across(w, cw, 0)) < |Blocks(h, w, ch, cw, top)|
    ensures Blocks(h, w, ch, cw, top)[Idx(a, b, Across(w, cw, 0))] == BlockAt(h, w, ch, cw, top + Times(a, ch), Times(b, cw))
    decreases a
  {
    RowAt(h, w, ch, cw, top, 0, b);
    RowLength(h, w, ch, cw, top, 0);
    TimesNonNegative(a, ch);
    if a > 0 { BlocksAt(h, w, ch, cw, top + ch, a - 1, b); }
  }

  /** and there are no others. */
  lemma {:induction false} BlocksLength(h: int, w: int, ch: int, cw: int, top: int)
    requires 0 < ch && 0 < cw
    ensures |Blocks(h, w, ch, cw, top)| == Times(Across(h, ch, top), Across(w, cw, 0))
    decreases h - top
  {
    if top < h {
      RowLength(h, w, ch, cw, top, 0);
      BlocksLength(h, w, ch, cw, top + ch);
    }
  }

  /** A number below n lies in exactly one step of c. */
  lemma StepOf(n: int, c: int, y: int) returns (a: nat)
    requires 0 < c && 0 <= y < n
    ensures Times(a, c) <= y < Times(a, c) + c && a < Across(n, c, 0)
    ensures forall k: nat :: Times(k, c) <= y < Times(k, c) + c ==> k == a
  {
    QuotientBounds(y, c);
    a := y / c;
    AcrossIs(n, c, 0, a);
    forall k: nat | Times(k, c) <= y < Times(k, c) + c ensures k == a {
      if k < a { TimesMonotonic(k + 1, a, c); TimesStep(k, c); }
      if a < k { TimesMonotonic(a + 1, k, c); TimesStep(a, c); }
    }
  }

  predicate InBlock(x: Block, row: int, column: int) { x.top <= row < x.bottom && x.left <= column < x.right }

  /** Every pixel of the plane lies in exactly one of the blocks. */
  lemma PixelInOneBlock(h: int, w: int, ch: int, cw: int, row: int, column: int) returns (i: nat)
    requires 0 < ch && 0 < cw && 0 <= row < h && 0 <= column < w
    ensures i < |Blocks(h, w, ch, cw, 0)| && InBlock(Blocks(h, w, ch, cw, 0)[i], row, column)
    ensures forall k: nat :: k < |Blocks(h, w, ch, cw, 0)| && InBlock(Blocks(h, w, ch, cw, 0)[k], row, column) ==> k == i
  {
    hide Blocks;
    var a := StepOf(h, ch, row);
    var b := StepOf(w, cw, column);
    BlocksAt(h, w, ch, cw, 0, a, b);
    i := Idx(a, b, Across(w, cw, 0));
    BlocksLength(h, w, ch, cw, 0);
    forall k: nat | k < |Blocks(h, w, ch, cw, 0)| && InBlock(Blocks(h, w, ch, cw, 0)[k], row, column) ensures k == i {
      var c, d := IdxOnto(k, Across(h, ch, 0), Across(w, cw, 0));
      AcrossIs(h, ch, 0, c);
      AcrossIs(w, cw, 0, d);
      BlocksAt(h, w, ch, cw, 0, c, d);
    }
  }

  lemma BlocksOpen(h: int, w: int, ch: int, cw: int, top: int)
    requires 0 < ch && 0 < cw && top < h
    ensures Blocks(h, w, ch, cw, top) == BlockRow(h, w, ch, cw, top, 0) + Blocks(h, w, ch, cw, top + ch)
  {
  }

  lemma RowEnds(h: int, w: int, ch: int, cw: int, top: int, left: int)
    requires 0 < ch && 0 < cw && w <= left
    ensures BlockRow(h, w, ch, cw, top, left) + Blocks(h, w, ch, cw, top + ch) == Blocks(h, w, ch, cw, top + ch)
  {
  }

  lemma BlocksEnd(h: int, w: int, ch: int, cw: int, top: int)
    requires 0 < ch && 0 < cw && h <= top
    ensures Blocks(h, w, ch, cw, top) == []
  {
  }

  /** One block further in a row. */
  lemma NextBlock(done: seq<Block>, h: int, w: int, ch: int, cw: int, top: int, left: int)
    requires 0 < ch && 0 < cw && left < w
    ensures var rest, x := Blocks(h, w, ch, cw, top + ch), BlockAt(h, w, ch, cw, top, left);
      && done + (BlockRow(h, w, ch, cw, top, left) + rest) == (done + [x]) + (BlockRow(h, w, ch, cw, top, left + cw) + rest)
      && done + [x] <= done + (BlockRow(h, w, ch, cw, top, left) + rest)
  {
    var x, row := BlockAt(h, w, ch, cw, top, left), BlockRow(h, w, ch, cw, top, left + cw);
    assert BlockRow(h, w, ch, cw, top, left) == [x] + row;
    hide BlockRow, Blocks;
    OneFurther(done, x, row, Blocks(h, w, ch, cw, top + ch));
  }

  lemma OneFurther<T>(done: seq<T>, next: T, rest: seq<T>, tail: seq<T>)
    ensures done + (([next] + rest) + tail) == (done + [next]) + (rest + tail)
    ensures done + [next] <= done + (([next] + rest) + tail)
  {
  }
}
