/**
 How the mSGDMA driver cuts a copy, or a scatterlist, into hardware descriptors of bounded
 length, and how many it reserves beforehand.
 */
module DescriptorSplit {
  import opened IntegerArithmetic
  import opened Results

  /** A contiguous range of bus addresses. */
  datatype Piece = Piece(addr: int, len: nat)

  /** The fields of a hardware descriptor the split decides. */
  datatype HwDesc = HwDesc(read: Piece, write: Piece, irqOnCompletion: bool)

  datatype Direction = MemToDev | DevToMem

  /** DIV_ROUND_UP, in an integer wide enough not to wrap. */
  function Descriptors(len: nat, max: nat): nat
    requires 0 < max
  {
    (len + max - 1) / max
  }

  /** A range cut into pieces of max bytes, the last one possibly shorter. */
  function Split(p: Piece, max: nat): seq<Piece>
    requires 0 < max
    decreases p.len
  {
    if p.len == 0 then []
    else [Piece(p.addr, Min(p.len, max))] + Split(Piece(p.addr + Min(p.len, max), p.len - Min(p.len, max)), max)
  }

  function SplitAll(ps: seq<Piece>, max: nat): seq<Piece>
    requires 0 < max
  {
    if ps == [] then [] else Split(ps[0], max) + SplitAll(ps[1..], max)
  }

  function Reserved(ps: seq<Piece>, max: nat): nat
    requires 0 < max
  {
    if ps == [] then 0 else Descriptors(ps[0].len, max) + Reserved(ps[1..], max)
  }

  function Reads(ds: seq<HwDesc>): seq<Piece> { seq(|ds|, i requires 0 <= i < |ds| => ds[i].read) }

  function Writes(ds: seq<HwDesc>): seq<Piece> { seq(|ds|, i requires 0 <= i < |ds| => ds[i].write) }

  /** Exactly the last descriptor interrupts on completion. */
  ghost predicate LastInterrupts(ds: seq<HwDesc>)
  {
    forall i :: 0 <= i < |ds| ==> (ds[i].irqOnCompletion <==> i == |ds| - 1)
  }

  lemma OneMore(len: nat, max: nat)
    requires 0 < max && 0 < len
    ensures Descriptors(len, max) == 1 + Descriptors(len - Min(len, max), max)
  {
    if len <= max {
      DivStep(len - 1, max);
      DivStep(-1, max);
    } else {
      DivStep(len - 1, max);
    }
  }

  lemma DivStep(x: int, max: nat)
    requires 0 < max && -1 <= x
    ensures (x + max) / max == x / max + 1
    ensures 0 <= x < max ==> x / max == 0
  {
    QuotientBounds(x, max);
    TimesStep(x / max, max);
    QuotientIs(x + max, max, x / max + 1);
    if 0 <= x < max {
      QuotientIs(x, max, 0);
    }
  }

  /** q is piece i of count: it starts i * max bytes in, and is max bytes long unless it is the last. */
  ghost predicate IsPiece(q: Piece, p: Piece, i: nat, count: int, max: nat)
  {
    && q.addr == p.addr + Times(i, max)
    && 1 <= q.len <= max && Times(i, max) + q.len <= p.len
    && (if i < count - 1 then q.len == max else Times(i, max) + q.len == p.len)
  }

  /**
   The pieces tile the range: each begins where the one before ends, none is empty, only the last may
   be short, together they are as long as the range, and there are as many as reserved.
   */
  lemma {:induction false} SplitTiles(p: Piece, max: nat)
    requires 0 < max
    ensures |Split(p, max)| == Descriptors(p.len, max)
    ensures forall i :: 0 <= i < |Split(p, max)| ==> IsPiece(Split(p, max)[i], p, i, |Split(p, max)|, max)
    decreases p.len
  {
    if p.len == 0 {
      DivStep(-1, max);
    } else {
      OneMore(p.len, max);
      var first := Min(p.len, max);
      var rest := Piece(p.addr + first, p.len - first);
      SplitTiles(rest, max);
      var whole, tail := Split(p, max), Split(rest, max);
      assert whole == [Piece(p.addr, first)] + tail;
      assert tail == [] <==> rest.len == 0;
      forall i | 0 <= i < |whole| ensures IsPiece(whole[i], p, i, |whole|, max) {
        if i > 0 {
          assert IsPiece(tail[i - 1], rest, i - 1, |tail|, max);
          assert Times(i, max) == Times(i - 1, max) + max;
        }
      }
    }
  }

  /** A memory-to-memory copy. A reservation that does not fit fails before anything is taken. */
  method PrepMemcpy(dst: int, src: int, len: nat, max: nat, freeCnt: nat) returns (r: Result<seq<HwDesc>>, reserved: nat)
    requires 0 < max
    ensures reserved == Descriptors(len, max)
    ensures r.Success? <==> reserved <= freeCnt
    ensures r.Success? ==> LastInterrupts(r.value)
    ensures r.Success? && 0 < len ==>
      Reads(r.value) == Split(Piece(src, len), max) && Writes(r.value) == Split(Piece(dst, len), max)
    ensures r.Success? && len == 0 ==> reserved == 0 && r.value == [HwDesc(Piece(src, 0), Piece(dst, 0), true)]
    ensures r.Success? ==> (|r.value| == reserved <==> 0 < len)
  {
    reserved := (len + max - 1) / max;
    SplitTiles(Piece(src, len), max);
    if reserved > freeCnt {
      return Failure, reserved;
    }
    var left, s, d, ds, looping := len, src, dst, [], true;
    while looping
      invariant 0 <= left <= len
      invariant looping ==> 0 < left || len == 0
      invariant !looping ==> left == 0 && ds != []
      invariant 0 < len ==> Memory(ds, MemToDev) + Split(Piece(s, left), max) == Split(Piece(src, len), max)
      invariant 0 < len ==> Memory(ds, DevToMem) + Split(Piece(d, left), max) == Split(Piece(dst, len), max)
      invariant len == 0 ==> ds == (if looping then [] else [HwDesc(Piece(src, 0), Piece(dst, 0), false)]) && (looping ==> s == src && d == dst)
      invariant forall i :: 0 <= i < |ds| ==> !ds[i].irqOnCompletion
      decreases looping, left
    {
      var copy := Min(left, max);
      ghost var ds0 := ds;
      ds := ds + [HwDesc(Piece(s, copy), Piece(d, copy), false)];
      if 0 < len {
        MemoryGrows(ds0, ds, Piece(s, copy), MemToDev, s, left, max);
        MemoryGrows(ds0, ds, Piece(d, copy), DevToMem, d, left, max);
      }
      left := left - copy;
      s := s + copy;
      d := d + copy;
      looping := left != 0;
    }
    assert 0 < len ==> |Reads(ds)| == |Split(Piece(src, len), max)|;
    DivStep(-1, max);
    r := Success(InterruptAtEnd(ds));
  }

  /** The last descriptor of a chain raises the completion interrupt. */
  function InterruptAtEnd(ds: seq<HwDesc>): (r: seq<HwDesc>)
    requires ds != [] && forall i :: 0 <= i < |ds| ==> !ds[i].irqOnCompletion
    ensures |r| == |ds| && LastInterrupts(r) && Reads(r) == Reads(ds) && Writes(r) == Writes(ds)
    ensures forall i :: 0 <= i < |r| ==> r[i].read == ds[i].read && r[i].write == ds[i].write
  {
    ds[|ds| - 1 := ds[|ds| - 1].(irqOnCompletion := true)]
  }

  /** The scatterlist entries the device side of which is a fixed register. */
  function Memory(ds: seq<HwDesc>, dir: Direction): seq<Piece> { if dir.MemToDev? then Reads(ds) else Writes(ds) }

  function MemorySide(d: HwDesc, dir: Direction): Piece { if dir.MemToDev? then d.read else d.write }

  function DeviceSide(d: HwDesc, dir: Direction): Piece { if dir.MemToDev? then d.write else d.read }

  /** Every descriptor moves its memory side to or from the device's register, as many bytes. */
  ghost predicate AtDevice(ds: seq<HwDesc>, dir: Direction, device: int)
  {
    forall i :: 0 <= i < |ds| ==> DeviceSide(ds[i], dir) == Piece(device, MemorySide(ds[i], dir).len)
  }

  /** How many entries of a list of n the loop visits when it was told there are sgLen. */
  function Visited(n: nat, sgLen: nat): nat { Min(n, sgLen + 1) }

  lemma {:induction false} SplitAllAppend(a: seq<Piece>, b: seq<Piece>, max: nat)
    requires 0 < max
    ensures SplitAll(a + b, max) == SplitAll(a, max) + SplitAll(b, max)
  {
    if a == [] {
      assert a + b == b;
    } else {
      assert (a + b)[1..] == a[1..] + b;
      SplitAllAppend(a[1..], b, max);
    }
  }

  lemma {:induction false} SplitAllCount(ps: seq<Piece>, max: nat)
    requires 0 < max
    ensures |SplitAll(ps, max)| == Reserved(ps, max)
  {
    if ps != [] {
      SplitTiles(ps[0], max);
      SplitAllCount(ps[1..], max);
    }
  }

  /** Entries with bytes in them need descriptors. */
  lemma EntryNeedsOne(p: Piece, max: nat)
    requires 0 < max && 0 < p.len
    ensures 0 < |Split(p, max)|
  {
  }

  method CountDescriptors(list: seq<Piece>, sgLen: nat, max: nat) returns (n: nat)
    requires 0 < max && sgLen <= |list|
    ensures n == Reserved(list[..sgLen], max)
  {
    n := 0;
    for i := 0 to sgLen
      invariant n == |SplitAll(list[..i], max)|
    {
      assert list[..i + 1] == list[..i] + [list[i]];
      SplitAllAppend(list[..i], [list[i]], max);
      assert [list[i]][1..] == [];
      SplitTiles(list[i], max);
      n := n + (list[i].len + max - 1) / max;
    }
    SplitAllCount(list[..sgLen], max);
  }

  /**
   A transfer between a device register and the entries of a scatterlist. The loop covers every
   entry it visits once and in order, with the register on the other side; it takes as many descriptors as were reserved exactly when
   the list ends after sgLen entries.
   */
  method PrepSlaveSg(list: seq<Piece>, sgLen: nat, dir: Direction, device: int, max: nat, freeCnt: nat)
    returns (r: Result<seq<HwDesc>>, reserved: nat)
    requires 0 < max && 0 < sgLen <= |list|
    requires forall i :: 0 <= i < |list| ==> 0 < list[i].len
    ensures reserved == Reserved(list[..sgLen], max)
    ensures r.Success? <==> reserved <= freeCnt
    ensures r.Success? ==>
      && LastInterrupts(r.value)
      && Memory(r.value, dir) == SplitAll(list[..Visited(|list|, sgLen)], max)
      && AtDevice(r.value, dir, device)
      && (|r.value| == reserved <==> |list| == sgLen)
  {
    reserved := CountDescriptors(list, sgLen, max);
    if reserved > freeCnt {
      return Failure, reserved;
    }
    var ds := FillDescriptors(list, sgLen, dir, device, max);
    TakenVersusReserved(list, sgLen, max);
    assert |Memory(ds, dir)| == |ds|;
    r := Success(InterruptAtEnd(ds));
  }

  /** The pieces of the first n entries, grown at the end as the loop does. */
  function Entries(list: seq<Piece>, n: nat, max: nat): seq<Piece>
    requires 0 < max && n <= |list|
  {
    if n == 0 then [] else Entries(list, n - 1, max) + Split(list[n - 1], max)
  }

  lemma {:induction false} EntriesAre(list: seq<Piece>, n: nat, max: nat)
    requires 0 < max && n <= |list|
    ensures Entries(list, n, max) == SplitAll(list[..n], max)
  {
    if n > 0 {
      EntriesAre(list, n - 1, max);
      EntryDone(list, n - 1, max);
    }
  }

  /** ds and what is left of entry e make up the entries up to e. */
  ghost predicate Covered(ds: seq<HwDesc>, list: seq<Piece>, e: nat, avail: int, dir: Direction, max: nat)
    requires 0 < max
  {
    && e < |list| && 0 <= avail <= list[e].len
    && Memory(ds, dir) + Split(Piece(list[e].addr + list[e].len - avail, avail), max) == Entries(list, e + 1, max)
  }

  lemma NextEntry(ds: seq<HwDesc>, list: seq<Piece>, e: nat, dir: Direction, max: nat)
    requires 0 < max && Covered(ds, list, e, 0, dir, max) && e + 1 < |list|
    ensures Covered(ds, list, e + 1, list[e + 1].len, dir, max)
  {
  }

  lemma FirstEntry(list: seq<Piece>, dir: Direction, max: nat)
    requires 0 < max && list != []
    ensures Covered([], list, 0, list[0].len, dir, max)
  {
  }

  lemma LastEntry(ds: seq<HwDesc>, list: seq<Piece>, e: nat, dir: Direction, max: nat)
    requires 0 < max && Covered(ds, list, e, 0, dir, max)
    ensures Memory(ds, dir) == SplitAll(list[..e + 1], max)
  {
    EntriesAre(list, e + 1, max);
  }

  /** The loop over the scatterlist, before the last descriptor is marked. */
  method FillDescriptors(list: seq<Piece>, sgLen: nat, dir: Direction, device: int, max: nat) returns (ds: seq<HwDesc>)
    requires 0 < max && 0 < sgLen <= |list|
    requires forall i :: 0 <= i < |list| ==> 0 < list[i].len
    ensures ds != [] && Memory(ds, dir) == SplitAll(list[..Visited(|list|, sgLen)], max)
    ensures AtDevice(ds, dir, device)
    ensures forall i :: 0 <= i < |ds| ==> !ds[i].irqOnCompletion
  {
    hide Split, SplitAll, Entries, Memory;
    var e, n, avail, looping := 0, sgLen, list[0].len, true;
    ds := [];
    FirstEntry(list, dir, max);
    while looping
      invariant 0 <= e < Visited(|list|, sgLen) && 0 <= n == sgLen - e
      invariant if looping then 0 < avail else avail == 0 && e + 1 == Visited(|list|, sgLen) && ds != []
      invariant Covered(ds, list, e, avail, dir, max) && AtDevice(ds, dir, device)
      invariant forall i :: 0 <= i < |ds| ==> !ds[i].irqOnCompletion
      decreases looping, |list| - e, avail
    {
      var len := Min(avail, max);
      ds := AddDescriptor(ds, list, e, avail, dir, device, max);
      avail := avail - len;
      if avail == 0 {
        if n == 0 || e + 1 == |list| {
          looping := false;
        } else {
          NextEntry(ds, list, e, dir, max);
          e := e + 1;
          n := n - 1;
          avail := list[e].len;
        }
      }
    }
    LastEntry(ds, list, e, dir, max);
  }

  /** One descriptor: up to max bytes of entry e on the memory side, the device's register on the other. */
  method AddDescriptor(ds: seq<HwDesc>, list: seq<Piece>, e: nat, avail: nat, dir: Direction, device: int, max: nat)
    returns (r: seq<HwDesc>)
    requires 0 < max && 0 < avail && Covered(ds, list, e, avail, dir, max) && AtDevice(ds, dir, device)
    requires forall i :: 0 <= i < |ds| ==> !ds[i].irqOnCompletion
    ensures |r| == |ds| + 1 && forall i :: 0 <= i < |r| ==> !r[i].irqOnCompletion
    ensures Covered(r, list, e, avail - Min(avail, max), dir, max) && AtDevice(r, dir, device)
  {
    var addr, len := list[e].addr + list[e].len - avail, Min(avail, max);
    var here, there := Piece(addr, len), Piece(device, len);
    r := ds + [if dir.MemToDev? then HwDesc(here, there, false) else HwDesc(there, here, false)];
    MemoryGrows(ds, r, here, dir, addr, avail, max);
  }

  /** Taking one piece off the range still to be covered. */
  lemma MemoryGrows(ds0: seq<HwDesc>, ds: seq<HwDesc>, here: Piece, dir: Direction, addr: int, avail: nat, max: nat)
    requires 0 < max && 0 < avail && here == Piece(addr, Min(avail, max))
    requires |ds| == |ds0| + 1 && ds[..|ds0|] == ds0
    requires (if dir.MemToDev? then ds[|ds0|].read else ds[|ds0|].write) == here
    ensures Memory(ds, dir) + Split(Piece(addr + here.len, avail - here.len), max)
         == Memory(ds0, dir) + Split(Piece(addr, avail), max)
  {
    assert Memory(ds, dir) == Memory(ds0, dir) + [here];
  }

  lemma EntryDone(list: seq<Piece>, e: nat, max: nat)
    requires 0 < max && e < |list|
    ensures SplitAll(list[..e], max) + Split(list[e], max) == SplitAll(list[..e + 1], max)
  {
    assert list[..e + 1] == list[..e] + [list[e]];
    SplitAllAppend(list[..e], [list[e]], max);
    assert [list[e]][1..] == [];
  }

  lemma TakenVersusReserved(list: seq<Piece>, sgLen: nat, max: nat)
    requires 0 < max && 0 < sgLen <= |list|
    requires forall i :: 0 <= i < |list| ==> 0 < list[i].len
    ensures |SplitAll(list[..Visited(|list|, sgLen)], max)| == Reserved(list[..sgLen], max) <==> |list| == sgLen
  {
    SplitAllCount(list[..sgLen], max);
    if sgLen < |list| {
      EntryDone(list, sgLen, max);
      EntryNeedsOne(list[sgLen], max);
    }
  }
}
