/**
 The image workload: the direct edge formula against the general fixed-point convolution the block
 computes, and the byte-swapped, shifted RAM image the host prepares and compares against.
 */
module EdgeImage {
  import opened IntegerArithmetic
  import opened RasterImages

  // ---- Fixed-point convolution ----

  /** A 3 by 3 kernel in signed Q24.8, row after row. */
  const EdgeKernel: seq<int> := [0, -256, 0, -256, 1024, -256, 0, -256, 0]

  const Fraction := 256

  const MaxWord := 0x7FFF_FFFF

  const MinWord := -0x8000_0000

  predicate IsPixel(p: int) { 0 <= p <= 255 }

  /** A pixel as the host stores it: shifted left by the eight fraction bits. */
  function PixelWord(p: int): int { p * 256 }

  function Saturate(x: int): int { if x > MaxWord then MaxWord else if x < MinWord then MinWord else x }

  /** Multiply and accumulate over the window, tap by tap from tap t on. */
  function Accumulated(window: seq<int>, kernel: seq<int>, t: nat, acc: int): int
    requires |window| == |kernel| && t <= |kernel|
    decreases |kernel| - t
  {
    if t == |kernel| then acc else Accumulated(window, kernel, t + 1, acc + window[t] * kernel[t])
  }

  /** The block's output word: the sum shifted right by the fraction bits, plus bias, saturated. */
  function BlockOutput(window: seq<int>, kernel: seq<int>, bias: int): int
    requires |window| == |kernel|
  {
    Saturate(Accumulated(window, kernel, 0, 0) / Fraction + bias)
  }

  /** The nine words of the unpadded window whose top left pixel is (y, x), tap by tap. */
  function WindowWords(pixels: seq<int>, h: int, w: int, y: int, x: int): seq<int>
    requires |pixels| == Times(h, w)
  {
    seq(9, t requires 0 <= t => PixelWord(Pixel(pixels, h, w, y + t / 3, x + t % 3)))
  }

  /** The values of the direct formula, in the order it computes them. */
  datatype Steps = Steps(center: int, neighbors: int, difference: int, expected: int)

  predicate InWord(x: int) { MinWord <= x <= MaxWord }

  function ExpectedEdge(pixels: seq<int>, h: int, w: int, y: int, x: int): Steps
    requires |pixels| == Times(h, w)
  {
    var center := Pixel(pixels, h, w, y + 1, x + 1);
    var neighbors := Pixel(pixels, h, w, y, x + 1) + Pixel(pixels, h, w, y + 1, x)
                   + Pixel(pixels, h, w, y + 1, x + 2) + Pixel(pixels, h, w, y + 2, x + 1);
    Steps(center, neighbors, 4 * center - neighbors, (4 * center - neighbors) * 256)
  }

  lemma PixelsArePixels(pixels: seq<int>, h: int, w: int, y: int, x: int)
    requires |pixels| == Times(h, w) && forall i :: 0 <= i < |pixels| ==> IsPixel(pixels[i])
    ensures IsPixel(Pixel(pixels, h, w, y, x))
  {
    if 0 <= y < h && 0 <= x < w { IdxBounds(y, x, h, w); }
  }

  /** The kernel's nine taps, from the first to the last. */
  lemma EdgeTaps(window: seq<int>)
    requires |window| == 9
    ensures Accumulated(window, EdgeKernel, 0, 0) == 1024 * window[4] - 256 * (window[1] + window[3] + window[5] + window[7])
  {
    var acc := -256 * window[1];
    assert Accumulated(window, EdgeKernel, 0, 0) == Accumulated(window, EdgeKernel, 2, acc);
    assert Accumulated(window, EdgeKernel, 2, acc) == Accumulated(window, EdgeKernel, 4, acc - 256 * window[3]);
    acc := acc - 256 * window[3] + 1024 * window[4];
    assert Accumulated(window, EdgeKernel, 4, acc - 1024 * window[4]) == Accumulated(window, EdgeKernel, 5, acc);
    assert Accumulated(window, EdgeKernel, 5, acc) == Accumulated(window, EdgeKernel, 7, acc - 256 * window[5]);
    acc := acc - 256 * window[5] - 256 * window[7];
    assert Accumulated(window, EdgeKernel, 7, acc + 256 * window[7]) == Accumulated(window, EdgeKernel, 9, acc);
  }

  /**
   For every image and every output position the direct formula gives what the block computes,
   with no bit of a 32-bit word lost at any step and no saturation.
   */
  lemma EdgeFormula(pixels: seq<int>, h: int, w: int, y: int, x: int)
    requires |pixels| == Times(h, w) && forall i :: 0 <= i < |pixels| ==> IsPixel(pixels[i])
    ensures var e := ExpectedEdge(pixels, h, w, y, x);
      && e.expected == BlockOutput(WindowWords(pixels, h, w, y, x), EdgeKernel, 0)
      && InWord(e.neighbors) && InWord(4 * e.center) && InWord(e.difference) && InWord(e.expected)
  {
    hide Accumulated, Pixel, Times;
    var window := WindowWords(pixels, h, w, y, x);
    EdgeTaps(window);
    PixelsArePixels(pixels, h, w, y + 1, x + 1);
    PixelsArePixels(pixels, h, w, y, x + 1);
    PixelsArePixels(pixels, h, w, y + 1, x);
    PixelsArePixels(pixels, h, w, y + 1, x + 2);
    PixelsArePixels(pixels, h, w, y + 2, x + 1);
    assert Accumulated(window, EdgeKernel, 0, 0) == ExpectedEdge(pixels, h, w, y, x).expected * 256;
  }

  /** At an output position the formula reads the image and nothing else. */
  lemma WindowInside(h: int, w: int, y: int, x: int, t: int)
    requires 0 <= y < h - 2 && 0 <= x < w - 2 && 0 <= t < 9
    ensures 0 <= Idx(y + t / 3, x + t % 3, w) < Times(h, w)
  {
    IdxBounds(y + t / 3, x + t % 3, h, w);
  }

  /** No expected output looks like an output that was never written: the two differ as 32-bit words. */
  lemma ExpectedIsNotSentinel(pixels: seq<int>, h: int, w: int, y: int, x: int)
    requires |pixels| == Times(h, w)
    ensures ExpectedEdge(pixels, h, w, y, x).expected % 0x1_0000_0000 != 0x5A5A
  {
    var d, e := ExpectedEdge(pixels, h, w, y, x).difference, ExpectedEdge(pixels, h, w, y, x).expected;
    assert e == d * 256;
  }

  // ---- Byte order ----

  function ByteSwap(v: bv32): bv32
  {
    ((v & 0x0000_00FF) << 24) | ((v & 0x0000_FF00) << 8) | ((v & 0x00FF_0000) >> 8) | ((v & 0xFF00_0000) >> 24)
  }

  /** Byte lane k of a word, lane 0 the least significant. */
  function Lane(v: bv32, k: nat): bv32
    requires k < 4
  {
    match k
    case 0 => v & 0xFF
    case 1 => (v >> 8) & 0xFF
    case 2 => (v >> 16) & 0xFF
    case _ => v >> 24
  }

  /** The byte lanes are reversed. */
  lemma ByteSwapReverses(v: bv32)
    ensures Lane(ByteSwap(v), 0) == Lane(v, 3) && Lane(ByteSwap(v), 1) == Lane(v, 2)
    ensures Lane(ByteSwap(v), 2) == Lane(v, 1) && Lane(ByteSwap(v), 3) == Lane(v, 0)
  {
  }

  /** Swapping twice is the word. */
  lemma ByteSwapTwice(v: bv32)
    ensures ByteSwap(ByteSwap(v)) == v
  {
  }

  lemma ByteSwapInjective(u: bv32, v: bv32)
    requires ByteSwap(u) == ByteSwap(v)
    ensures u == v
  {
    ByteSwapTwice(u);
    ByteSwapTwice(v);
  }

  // ---- The RAM image ----

  /** Swap each word and move it one place down, in place; word 0 is dropped and the last word is zero. */
  method SwapAndShift(data: array<bv32>)
    requires data.Length > 0
    modifies data
    ensures forall i :: 1 <= i < data.Length ==> data[i - 1] == ByteSwap(old(data[i]))
    ensures data[data.Length - 1] == 0
  {
    var word := 1;
    while word < data.Length
      invariant 1 <= word <= data.Length
      invariant forall i :: 1 <= i < word ==> data[i - 1] == ByteSwap(old(data[i]))
      invariant forall i :: word <= i < data.Length ==> data[i] == old(data[i])
    {
      data[word - 1] := ByteSwap(data[word]);
      word := word + 1;
    }
    data[data.Length - 1] := 0;
  }

  /** Where the parts of a RAM image start. */
  datatype Layout = Layout(weights: nat, bias: nat, outputs: nat, words: nat)
  {
    /** The parts follow one another without touching. */
    predicate Holds(inputs: nat, results: nat)
    {
      inputs <= weights && weights + 9 <= bias && bias < outputs && outputs + results <= words
    }
  }

  const Sentinel: bv32 := 0x5A5A

  const KernelWords: seq<bv32> := [0, 0xFFFF_FF00, 0, 0xFFFF_FF00, 0x400, 0xFFFF_FF00, 0, 0xFFFF_FF00, 0]

  /** The image as the accelerator is meant to see it, before swapping and shifting. */
  function Logical(inputs: seq<bv32>, results: nat, l: Layout, i: nat): bv32
  {
    if i < |inputs| then inputs[i] << 8
    else if l.weights <= i < l.weights + 9 then KernelWords[i - l.weights]
    else if l.outputs <= i < l.outputs + results then Sentinel
    else 0
  }

  /** Builds the image the host sends: pixels, kernel, bias, sentinels, then swap and shift. */
  method BuildImage(inputs: seq<bv32>, results: nat, l: Layout) returns (data: array<bv32>)
    requires l.Holds(|inputs|, results)
    ensures fresh(data) && data.Length == l.words
    ensures forall i :: 1 <= i < l.words ==> ByteSwap(data[i - 1]) == Logical(inputs, results, l, i)
    ensures data[l.words - 1] == 0
  {
    data := new bv32[l.words](_ => 0);
    var i := 0;
    while i < |inputs|
      invariant 0 <= i <= |inputs|
      invariant forall k :: 0 <= k < data.Length ==> data[k] == if k < i then inputs[k] << 8 else 0
    {
      data[i] := inputs[i] << 8;
      i := i + 1;
    }
    FillWeights(data, l.weights);
    data[l.bias] := 0;
    i := 0;
    while i < results
      invariant 0 <= i <= results
      invariant forall k :: 0 <= k < l.outputs || l.outputs + i <= k < data.Length ==> data[k] == Logical(inputs, 0, l, k)
      invariant forall k :: l.outputs <= k < l.outputs + i ==> data[k] == Sentinel
    {
      data[l.outputs + i] := Sentinel;
      i := i + 1;
    }
    ghost var logical := data[..];
    SwapAndShift(data);
    forall k | 1 <= k < l.words ensures ByteSwap(data[k - 1]) == Logical(inputs, results, l, k) {
      ByteSwapTwice(logical[k]);
    }
  }

  method FillWeights(data: array<bv32>, base: nat)
    requires base + 9 <= data.Length
    modifies data
    ensures forall k :: 0 <= k < data.Length ==>
      data[k] == if base <= k < base + 9 then KernelWords[k - base] else old(data[k])
  {
    var i := 0;
    while i < 9
      invariant 0 <= i <= 9
      invariant forall k :: 0 <= k < data.Length ==>
        data[k] == if base <= k < base + i then KernelWords[k - base] else old(data[k])
    {
      data[base + i] := KernelWords[i];
      i := i + 1;
    }
  }

  /** The tally of the host's comparison of the output words. */
  datatype Tally = Tally(untouched: nat, expected: nat, wrong: nat)

  /**
   The host's classification. It accepts exactly the runs in which every output is the swapped
   expected word; an output is never counted twice.
   */
  method CheckOutputs(outputs: seq<bv32>, expected: seq<bv32>) returns (t: Tally, pass: bool)
    requires |outputs| == |expected|
    ensures t.untouched + t.expected + t.wrong == |outputs|
    ensures pass <==> forall i :: 0 <= i < |outputs| ==> outputs[i] == ByteSwap(expected[i]) && expected[i] != Sentinel
  {
    t := Tally(0, 0, 0);
    var i := 0;
    while i < |outputs|
      invariant 0 <= i <= |outputs|
      invariant t.untouched + t.expected + t.wrong == i
      invariant t.expected == i <==> forall k :: 0 <= k < i ==> outputs[k] == ByteSwap(expected[k]) && expected[k] != Sentinel
    {
      if outputs[i] == ByteSwap(Sentinel) {
        t := t.(untouched := t.untouched + 1);
      } else if outputs[i] == ByteSwap(expected[i]) {
        t := t.(expected := t.expected + 1);
      } else {
        t := t.(wrong := t.wrong + 1);
      }
      if outputs[i] == ByteSwap(Sentinel) && outputs[i] == ByteSwap(expected[i]) { ByteSwapInjective(Sentinel, expected[i]); }
      i := i + 1;
    }
    pass := t.expected == |outputs| && t.untouched == 0 && t.wrong == 0;
  }
}
