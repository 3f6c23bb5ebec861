/**
 Moving a RAM image to the accelerator and back from user space. Both directions are cut into
 descriptors no longer than the DMA accepts: out, one start-of-frame marker and then the padded chunks; back,
 one read command and one descriptor for each chunk.

 The DMA engines and the RAM are part of the state. How each wait for a descriptor ends, and how much of
 a descriptor had moved when it did not end well, is an arbitrary function of the descriptor's number.
 */
module UioTransfer {
  import opened IntegerArithmetic
  import opened DataInterface

  datatype Descriptor = Descriptor(address: int, length: int, channel: int)

  /** How the wait for an outgoing descriptor ends; moved counts the words that had reached the RAM. */
  datatype SendOutcome = Sent | SendTimedOut(moved: nat) | SendStopped(moved: nat)

  /** Something of the descriptor reached the RAM. */
  predicate Arrived(outcome: SendOutcome) { outcome == Sent || 0 < outcome.moved }

  /** How a read chunk ends. */
  datatype ReadOutcome = Complete | NotArmed | NotStarted | Incomplete(moved: nat)

  // ---- Bytes and words ----

  /** Byte k, zero past the end. */
  function ByteAt(bytes: seq<int>, k: nat): int { if k < |bytes| then bytes[k] else 0 }

  /** The bytes as words, the last one padded with zeros. */
  function WordsOf(bytes: seq<int>): (r: seq<Word>)
    ensures |r| == (|bytes| + 3) / 4
  {
    seq((|bytes| + 3) / 4, i requires 0 <= i =>
      Word(ByteAt(bytes, 4 * i), ByteAt(bytes, 4 * i + 1), ByteAt(bytes, 4 * i + 2), ByteAt(bytes, 4 * i + 3)))
  }

  /** Whole words in front: the words of the parts are the words of the whole. */
  lemma WordsOfParts(a: seq<int>, b: seq<int>)
    requires |a| % 4 == 0
    ensures WordsOf(a + b) == WordsOf(a) + WordsOf(b)
  {
    forall k | 0 <= k < |a| + 4 * |WordsOf(b)| ensures ByteAt(a + b, k) == if k < |a| then ByteAt(a, k) else ByteAt(b, k - |a|) {
    }
    assert |WordsOf(a + b)| == |WordsOf(a)| + |WordsOf(b)|;
    forall i | 0 <= i < |WordsOf(a + b)| ensures WordsOf(a + b)[i] == (WordsOf(a) + WordsOf(b))[i] {
      if |a| / 4 <= i {
        var j := i - |a| / 4;
        assert 4 * i - |a| == 4 * j;
      }
    }
  }

  /** The length a chunk is sent with. */
  function Padded(n: nat): (r: nat)
    ensures n <= r < n + 4 && r % 4 == 0
  {
    (n + 3) / 4 * 4
  }

  /** Padding in the buffer is the padding of the last word. */
  lemma PaddingIsZeros(buffer: seq<int>, bytes: seq<int>)
    requires |buffer| == Padded(|bytes|) && buffer[..|bytes|] == bytes
    requires forall k :: |bytes| <= k < |buffer| ==> buffer[k] == 0
    ensures WordsOf(buffer) == WordsOf(bytes)
  {
    assert |WordsOf(buffer)| == |WordsOf(bytes)|;
    forall k | 0 <= k < |buffer| ensures ByteAt(buffer, k) == ByteAt(bytes, k) {
      if k < |bytes| { assert buffer[k] == buffer[..|bytes|][k]; }
    }
  }

  predicate Whole(n: int) { n % 4 == 0 }

  /** Bytes of the chunk at offset. */
  function ChunkLength(total: nat, offset: nat, maxWords: nat): (r: nat)
    requires offset < total && Whole(offset) && 1 <= maxWords
    ensures 0 < r <= 4 * maxWords && offset + r <= total
    ensures (Whole(offset + r) && r % 4 == 0) || offset + r == total
    ensures Padded(r) <= 4 * maxWords
  {
    Min(total - offset, 4 * maxWords)
  }

  // ---- Descriptors ----

  /** Descriptors that follow one another from one address to another, each short enough and of whole words. */
  ghost predicate Covers(descs: seq<Descriptor>, first: int, past: int, maxBytes: int)
    decreases |descs|
  {
    if descs == [] then first == past
    else
      && descs[0].address == first && 0 < descs[0].length <= maxBytes && descs[0].length % 4 == 0
      && Covers(descs[1..], first + descs[0].length, past, maxBytes)
  }

  /** Their destinations stay inside and are disjoint, the earlier below the later. */
  lemma {:induction false} CoversDisjointly(descs: seq<Descriptor>, first: int, past: int, maxBytes: int)
    requires Covers(descs, first, past, maxBytes)
    ensures first <= past
    ensures forall i :: 0 <= i < |descs| ==> first <= descs[i].address && descs[i].address + descs[i].length <= past
    ensures forall i, j :: 0 <= i < j < |descs| ==> descs[i].address + descs[i].length <= descs[j].address
    decreases |descs|
  {
    if descs != [] {
      var rest := descs[1..];
      CoversDisjointly(rest, first + descs[0].length, past, maxBytes);
      forall i | 0 <= i < |descs| ensures first <= descs[i].address && descs[i].address + descs[i].length <= past {
        if i > 0 { assert descs[i] == rest[i - 1]; }
      }
      forall i, j | 0 <= i < j < |descs| ensures descs[i].address + descs[i].length <= descs[j].address {
        assert descs[j] == rest[j - 1];
        if i > 0 { assert descs[i] == rest[i - 1]; }
      }
    }
  }

  /** The payload descriptors for bytes offset to total - 1: as many as the DMA accepts at a time, the last padded. */
  function Sendings(total: int, offset: int, maxWords: nat, address: int): seq<Descriptor>
    requires 1 <= maxWords
    decreases total - offset
  {
    if total <= offset then []
    else
      var n := Min(total - offset, 4 * maxWords);
      [Descriptor(address, Padded(n), 0)] + Sendings(total, offset + n, maxWords, address)
  }

  /** The descriptors for words first to words - 1 on the way back, each to its place. */
  function Fetches(words: int, first: int, maxWords: nat, address: int): seq<Descriptor>
    requires 1 <= maxWords
    decreases words - first
  {
    if words <= first then []
    else [Descriptor(address + 4 * first, 4 * Min(words - first, maxWords), 0)] + Fetches(words, first + maxWords, maxWords, address)
  }

  /** They follow one another and end with the last word. */
  lemma {:induction false} FetchesCover(words: int, first: int, maxWords: nat, address: int)
    requires 1 <= maxWords && first <= words
    ensures Covers(Fetches(words, first, maxWords, address), address + 4 * first, address + 4 * words, 4 * maxWords)
    decreases words - first
  {
    if first < words {
      var n := Min(words - first, maxWords);
      var rest := Fetches(words, first + maxWords, maxWords, address);
      assert Fetches(words, first, maxWords, address)[1..] == rest;
      if first + maxWords <= words {
        FetchesCover(words, first + maxWords, maxWords, address);
      }
    }
  }

  /** The words of a descriptor that reach the RAM. */
  function WordsSent(outcome: SendOutcome, n: nat): nat { if outcome == Sent then n else Min(outcome.moved, n) }

  /** Sending stopped at the first descriptor that was not sent: the ones before it were full, of it only a part had moved. */
  ghost predicate Interrupted(descs: seq<Descriptor>, stored: seq<Word>, outcomes: nat -> SendOutcome, maxWords: nat)
  {
    && descs != [] && outcomes(|descs|) != Sent && AllSent(outcomes, |descs|) && 0 <= descs[|descs| - 1].length
    && |stored| == Times(|descs| - 1, maxWords) + WordsSent(outcomes(|descs|), descs[|descs| - 1].length / 4)
  }

  /** The descriptors numbered 1 to n - 1 were all sent; number 0 is the marker. */
  ghost predicate AllSent(outcomes: nat -> SendOutcome, n: nat)
  {
    forall k :: 1 <= k < n ==> outcomes(k) == Sent
  }

  /** The chunks numbered 0 to n - 1 all came back. */
  ghost predicate AllComplete(outcomes: nat -> ReadOutcome, n: nat)
  {
    forall k :: 0 <= k < n ==> outcomes(k) == Complete
  }

  /** The last of n chunks is the first one that did not come back. */
  ghost predicate FailedFirst(outcomes: nat -> ReadOutcome, n: nat)
  {
    0 < n && AllComplete(outcomes, n - 1) && outcomes(n - 1) != Complete
  }

  // ---- The read command ----

  /** Length in the upper half-word, start in the lower. */
  function ReadCommand(start: nat, count: nat): nat { count * 0x1_0000 + start }

  /** The register fields the RAM interface takes from it: bits 14 to 0 and 30 to 16. */
  function CommandStart(command: nat): nat { command % 0x8000 }

  function CommandLength(command: nat): nat { command / 0x1_0000 % 0x8000 }

  lemma CommandFields(start: nat, count: nat)
    requires start < 0x8000 && count < 0x8000
    ensures CommandStart(ReadCommand(start, count)) == start && CommandLength(ReadCommand(start, count)) == count
    ensures ReadCommand(start, count) < 0x1_0000_0000
  {
  }

  /** The host's buffers, the two DMA engines' logs and the RAM. */
  class Link {
    var ram: seq<Word>
    var wrPtr: nat
    const tx: array<int>
    const rx: array<Word>
    const txPhys: int
    const rxPhys: int
    const maxWords: nat
    var outgoing: seq<Descriptor>
    var incoming: seq<Descriptor>

    ghost predicate Valid()
      reads this
    {
      && wrPtr < |ram| <= 0x8000
      && 1 <= maxWords < 0x8000 && 4 * maxWords <= tx.Length && tx.Length == 4 * rx.Length
    }

    function Sink(): Store
      reads this
    {
      Store(ram, wrPtr)
    }

    constructor (contents: seq<Word>, bufferWords: nat, maxWords: nat, txPhys: int, rxPhys: int)
      requires 0 < |contents| <= 0x8000 && 1 <= maxWords <= bufferWords && maxWords < 0x8000
      ensures Valid() && fresh(tx) && fresh(rx) && ram == contents && rx.Length == bufferWords
      ensures this.maxWords == maxWords && this.txPhys == txPhys && this.rxPhys == rxPhys && outgoing == incoming == []
    {
      ram, wrPtr, outgoing, incoming := contents, 0, [], [];
      tx, rx := new int[4 * bufferWords](_ => 0), new Word[bufferWords](_ => ZeroWord);
      this.maxWords, this.txPhys, this.rxPhys := maxWords, txPhys, rxPhys;
    }

    /**
     One descriptor of the outgoing engine. It streams the front of the transmit buffer, as
     markers when its channel is 1; sent is what reached the RAM.
     */
    method PushOutgoing(length: nat, channel: int, outcome: SendOutcome) returns (ok: bool, ghost sent: nat)
      requires Valid() && length <= tx.Length && length % 4 == 0
      modifies this`ram, this`wrPtr, this`outgoing
      ensures Valid() && |ram| == old(|ram|)
      ensures outgoing == old(outgoing) + [Descriptor(txPhys, length, channel)]
      ensures ok <==> outcome == Sent
      ensures sent == WordsSent(outcome, length / 4)
      ensures channel == 0 ==> Sink() == AllStored(old(Sink()), Plain(WordsOf(tx[..length])[..sent]))
      ensures channel == 1 && 0 < length ==> Sink() == Store(old(ram), if Arrived(outcome) then 0 else old(wrPtr))
      ensures channel != 0 && channel != 1 ==> Sink() == old(Sink())
    {
      outgoing := outgoing + [Descriptor(txPhys, length, channel)];
      var words := WordsOf(tx[..length]);
      var n := if outcome == Sent then length / 4 else Min(outcome.moved, length / 4);
      ok, sent := outcome == Sent, n;
      if channel == 0 || channel == 1 {
        MarkersRewind(Store(ram, wrPtr), words[..n]);
        var store := AllStored(Store(ram, wrPtr), if channel == 0 then Plain(words[..n]) else Markers(words[..n]));
        ram, wrPtr := store.ram, store.ptr;
      }
    }

    /**
     The start-of-frame marker. Only a timeout counts as a failure; a marker whose descriptor stopped passes, and
     whether it reached the RAM decides where the words after it go.
     */
    method SendMarker(outcome: SendOutcome) returns (ok: bool)
      requires Valid()
      modifies this`ram, this`wrPtr, this`outgoing
      ensures Valid() && outgoing == old(outgoing) + [Descriptor(txPhys, 4, 1)]
      ensures ok <==> !outcome.SendTimedOut?
      ensures Sink() == Store(old(ram), if Arrived(outcome) then 0 else old(wrPtr))
    {
      var done;
      ghost var sent;
      done, sent := PushOutgoing(4, 1, outcome);
      ok := !outcome.SendTimedOut?;
    }

    /** Copies a chunk to the front of the transmit buffer and pads it. */
    method Stage(chunk: seq<int>)
      requires Valid() && Padded(|chunk|) <= tx.Length
      modifies tx
      ensures WordsOf(tx[..Padded(|chunk|)]) == WordsOf(chunk)
    {
      var n, padded := |chunk|, Padded(|chunk|);
      forall k | 0 <= k < n { tx[k] := chunk[k]; }
      forall k | n <= k < padded { tx[k] := 0; }
      PaddingIsZeros(tx[..padded], chunk);
    }

    /** Descriptors that carry payload: from the buffer, on channel 0, positive whole words, not too long. */
    ghost predicate ArePayload(descs: seq<Descriptor>)
    {
      forall k :: 0 <= k < |descs| ==>
        && descs[k].address == txPhys && descs[k].channel == 0
        && 0 < descs[k].length <= 4 * maxWords && descs[k].length % 4 == 0
    }

    /** The words stored since s, and the payload descriptors that took. */
    ghost predicate Progress(s: Store, stored: seq<Word>, before: seq<Descriptor>, descs: seq<Descriptor>)
      reads this
    {
      && Valid() && |ram| == |s.ram| && s.Valid()
      && Sink() == AllStored(s, Plain(stored))
      && outgoing == before + descs && ArePayload(descs)
    }

    /** One payload descriptor: stage the chunk and send it. */
    method SendPiece(ghost s: Store, src: seq<int>, offset: nat, length: nat, outcome: SendOutcome,
                     ghost stored: seq<Word>, ghost before: seq<Descriptor>, ghost descs: seq<Descriptor>)
      returns (ok: bool, ghost stored': seq<Word>, ghost descs': seq<Descriptor>)
      requires Progress(s, stored, before, descs)
      requires Whole(offset) && offset + length <= |src| && 0 < length && Padded(length) <= 4 * maxWords
      requires Whole(length) || offset + length == |src|
      requires stored == WordsOf(src[..offset])
      modifies this`ram, this`wrPtr, this`outgoing, tx
      ensures ok <==> outcome == Sent
      ensures Progress(s, stored', before, descs') && descs' == descs + [Descriptor(txPhys, Padded(length), 0)]
      ensures stored' <= WordsOf(src) && (ok ==> stored' == WordsOf(src[..offset + length]))
      ensures |stored'| == |stored| + WordsSent(outcome, Padded(length) / 4)
    {
      var chunk := src[offset..offset + length];
      Stage(chunk);
      ghost var moved;
      ok, moved := PushOutgoing(Padded(length), 0, outcome);
      OneMoreChunk(src, offset, length, moved, s);
      stored' := stored + WordsOf(chunk)[..moved];
      descs' := descs + [Descriptor(txPhys, Padded(length), 0)];
      assert outgoing == before + descs';
      assert ok ==> WordsOf(chunk)[..moved] == WordsOf(chunk);
    }

    /** The chunk at offset, as long as the DMA accepts; next is where it ends. */
    method SendChunk(ghost s: Store, src: seq<int>, offset: nat, total: nat, outcome: SendOutcome,
                     ghost stored: seq<Word>, ghost before: seq<Descriptor>, ghost descs: seq<Descriptor>)
      returns (ok: bool, next: nat, ghost stored': seq<Word>, ghost descs': seq<Descriptor>)
      requires Progress(s, stored, before, descs)
      requires offset < total <= |src| && (Whole(offset) || offset == total) && (Whole(total) || total == |src|)
      requires stored == WordsOf(src[..offset])
      modifies this`ram, this`wrPtr, this`outgoing, tx
      ensures ok <==> outcome == Sent
      ensures Progress(s, stored', before, descs') && next == offset + Min(total - offset, 4 * maxWords)
      ensures descs' == descs + [Descriptor(txPhys, Padded(next - offset), 0)]
      ensures offset < next <= total && (Whole(next) || next == total)
      ensures stored' <= WordsOf(src) && (ok ==> stored' == WordsOf(src[..next]))
      ensures |stored'| == |stored| + WordsSent(outcome, Padded(next - offset) / 4)
    {
      hide WordsOf, AllStored, Plain, Padded, ArePayload;
      var length := ChunkLength(total, offset, maxWords);
      next := offset + length;
      ok, stored', descs' := SendPiece(s, src, offset, length, outcome, stored, before, descs);
    }

    /** The chunks of one image, after its marker. */
    method SendChunks(ghost s: Store, src: seq<int>, total: nat, outcomes: nat -> SendOutcome)
      returns (ok: bool, ghost descs: seq<Descriptor>, ghost stored: seq<Word>)
      requires Valid() && s.Valid() && |s.ram| == |ram| && Sink() == s
      requires 0 < total <= |src| && (Whole(total) || total == |src|)
      modifies this`ram, this`wrPtr, this`outgoing, tx
      ensures Progress(s, stored, old(outgoing), descs) && descs <= Sendings(total, 0, maxWords, txPhys)
      ensures if ok then stored == WordsOf(src[..total]) else stored <= WordsOf(src)
      ensures ok <==> AllSent(outcomes, |Sendings(total, 0, maxWords, txPhys)| + 1)
      ensures ok ==> descs == Sendings(total, 0, maxWords, txPhys)
      ensures !ok ==> Interrupted(descs, stored, outcomes, maxWords)
    {
      hide Progress, WordsOf, Sendings, WordsSent, Padded;
      ghost var all := Sendings(total, 0, maxWords, txPhys);
      var offset, pushed := 0, 1;
      descs, stored := [], [];
      NothingYet(s, src, old(outgoing));
      while offset < total
        invariant 0 <= offset <= total && (Whole(offset) || offset == total)
        invariant Progress(s, stored, old(outgoing), descs) && pushed == |descs| + 1
        invariant descs + Sendings(total, offset, maxWords, txPhys) == all
        invariant offset < total ==> |stored| == Times(|descs|, maxWords)
        invariant stored == WordsOf(src[..offset])
        invariant AllSent(outcomes, pushed)
      {
        var next;
        ghost var descs0 := descs;
        ok, next, stored, descs := SendChunk(s, src, offset, total, outcomes(pushed), stored, old(outgoing), descs);
        NextSending(descs0, total, offset, maxWords, txPhys);
        pushed := pushed + 1;
        if !ok {
          assert outcomes(pushed - 1) != Sent;
          return;
        }
        TimesStep(|descs0|, maxWords);
        offset := next;
      }
      NoSending(total, offset, maxWords, txPhys);
      ok := true;
    }

    lemma NothingYet(s: Store, src: seq<int>, before: seq<Descriptor>)
      requires Valid() && s.Valid() && |s.ram| == |ram| && Sink() == s && outgoing == before
      ensures Progress(s, [], before, []) && WordsOf(src[..0]) == []
    {
      NothingSent(s);
    }

    /** The marker's wait does not time out, and every descriptor the bytes need is sent. */
    ghost predicate Goes(src: seq<int>, outcomes: nat -> SendOutcome)
      requires 1 <= maxWords
    {
      !outcomes(0).SendTimedOut? && AllSent(outcomes, |Sendings(Min(|src|, tx.Length), 0, maxWords, txPhys)| + 1)
    }

    /**
     Sends up to a buffer's worth of bytes. On success the RAM is as if all the bytes, zero-padded to
     a word, had come in one descriptor from where the marker left the pointer; otherwise it holds a prefix of those
     words. A success leaves RAM and pointer as they are promised if and only if the marker arrived or the pointer stood at 0.
     */
    method DmaWrite(src: seq<int>, outcomes: nat -> SendOutcome) returns (r: int, ghost stored: seq<Word>)
      requires Valid()
      modifies this`ram, this`wrPtr, this`outgoing, tx
      ensures Valid() && |ram| == old(|ram|)
      ensures src == [] ==> r == 0 && Sink() == old(Sink()) && outgoing == old(outgoing)
      ensures r == -1 || r == Min(|src|, tx.Length)
      ensures src != [] && r >= 0 ==>
        && Sink() == AllStored(Store(old(ram), if Arrived(outcomes(0)) then 0 else old(wrPtr)), Plain(WordsOf(src[..r])))
        && (Sink() == AllStored(Store(old(ram), 0), Plain(WordsOf(src[..r]))) <==> Arrived(outcomes(0)) || old(wrPtr) == 0)
      ensures r == -1 ==>
        && stored <= WordsOf(src)
        && ram == AllStored(Store(old(ram), if Arrived(outcomes(0)) then 0 else old(wrPtr)), Plain(stored)).ram
      ensures r == -1 <==> src != [] && !Goes(src, outcomes)
      ensures old(outgoing) <= outgoing
      ensures src != [] ==> |outgoing| > |old(outgoing)| && outgoing[|old(outgoing)|] == Descriptor(txPhys, 4, 1)
      ensures src != [] ==>
        var descs := outgoing[|old(outgoing)| + 1..];
        && ArePayload(descs) && descs <= Sendings(Min(|src|, tx.Length), 0, maxWords, txPhys)
        && (if r >= 0 then descs == Sendings(Min(|src|, tx.Length), 0, maxWords, txPhys)
            else if outcomes(0).SendTimedOut? then descs == [] && stored == []
            else Interrupted(descs, stored, outcomes, maxWords))
    {
      stored := [];
      hide Sendings, Interrupted, WordsOf;
      if src == [] { return 0, []; }
      var ok := SendMarker(outcomes(0));
      ghost var marked, s := outgoing, Sink();
      if !ok {
        NothingSent(s);
        return -1, [];
      }
      var total := Min(|src|, tx.Length);
      ghost var descs;
      ok, descs, stored := SendChunks(s, src, total, outcomes);
      assert outgoing[|marked|..] == descs;
      StartDecides(old(ram), s.ptr, 0, WordsOf(src[..total]));
      r := if ok then total else -1;
    }

    /**
     One chunk of the readback: command the RAM, arm the descriptor, start, wait. The words
     that arrive go where the descriptor says.
     */
    method ReadChunk(startWord: nat, wordCount: nat, outcome: ReadOutcome) returns (ok: bool)
      requires Valid() && 1 <= wordCount <= maxWords
      requires startWord + wordCount <= |ram| && startWord + wordCount <= rx.Length
      modifies this`incoming, rx
      ensures Valid() && ok == (outcome == Complete)
      ensures incoming == old(incoming) + [Descriptor(rxPhys + 4 * startWord, 4 * wordCount, 0)]
      ensures ok ==> rx[startWord..startWord + wordCount] == ram[startWord..startWord + wordCount]
      ensures forall k :: 0 <= k < rx.Length && !(startWord <= k < startWord + wordCount) ==> rx[k] == old(rx[k])
    {
      hide ReadCommand, CommandStart, CommandLength, Stretch;
      var command := ReadCommand(startWord, wordCount);
      var destination := rxPhys + 4 * startWord;
      incoming := incoming + [Descriptor(destination, 4 * wordCount, 0)];
      ok := outcome == Complete;
      if outcome.NotArmed? || outcome.NotStarted? { return; }
      CommandFields(startWord, wordCount);
      var packet := Stretch(ram, CommandStart(command), CommandLength(command));
      StretchWithoutWrap(ram, startWord, wordCount);
      var n := if outcome == Complete then wordCount else Min(outcome.moved, wordCount);
      Deliver((destination - rxPhys) / 4, packet[..n]);
    }

    /** The incoming engine stores the words it got from a place in the receive buffer on. */
    method Deliver(first: nat, words: seq<Word>)
      requires first + |words| <= rx.Length
      modifies rx
      ensures rx[first..first + |words|] == words
      ensures forall k :: 0 <= k < rx.Length && !(first <= k < first + |words|) ==> rx[k] == old(rx[k])
    {
      forall k | first <= k < first + |words| { rx[k] := words[k - first]; }
    }

    /** Every chunk of the readback comes back complete. */
    ghost predicate Returns(words: nat, outcomes: nat -> ReadOutcome)
      requires 1 <= maxWords
    {
      AllComplete(outcomes, |Fetches(words, 0, maxWords, rxPhys)|)
    }

    /**
     The readback loop: on success the receive buffer is the RAM, word for word. A chunk that fails ends it,
     with the whole chunks before it in the buffer.
     */
    method ReadAll(words: nat, outcomes: nat -> ReadOutcome) returns (ok: bool)
      requires Valid() && words <= |ram| && words <= rx.Length
      modifies this`incoming, rx
      ensures Valid() && old(incoming) <= incoming
      ensures ok <==> Returns(words, outcomes)
      ensures ok ==> rx[..words] == ram[..words]
      ensures forall k :: words <= k < rx.Length ==> rx[k] == old(rx[k])
      ensures var descs := incoming[|old(incoming)|..];
        && descs <= Fetches(words, 0, maxWords, rxPhys)
        && (ok ==> descs == Fetches(words, 0, maxWords, rxPhys) && Covers(descs, rxPhys, rxPhys + 4 * words, 4 * maxWords))
        && (!ok ==> FailedFirst(outcomes, |descs|) && ReadUpTo(Times(|descs| - 1, maxWords)))
    {
      hide Fetches, Covers;
      ghost var descs, all := [], Fetches(words, 0, maxWords, rxPhys);
      var startWord, chunk: nat := 0, 0;
      ok := true;
      while startWord < words
        invariant Valid() && ok && incoming == old(incoming) + descs && |descs| == chunk
        invariant startWord == Times(chunk, maxWords)
        invariant descs + Fetches(words, startWord, maxWords, rxPhys) == all
        invariant ReadUpTo(Min(startWord, words))
        invariant forall k :: words <= k < rx.Length ==> rx[k] == old(rx[k])
        invariant AllComplete(outcomes, chunk)
      {
        var wordCount := Min(words - startWord, maxWords);
        ghost var rx0, d := rx[..], Descriptor(rxPhys + 4 * startWord, 4 * wordCount, 0);
        ok := ReadChunk(startWord, wordCount, outcomes(chunk));
        NextFetch(descs, words, startWord, maxWords, rxPhys);
        assert incoming == old(incoming) + (descs + [d]);
        if !ok {
          OneMoreRead(rx0, rx[..], ram, startWord, startWord);
          return;
        }
        OneMoreRead(rx0, rx[..], ram, startWord, startWord + wordCount);
        TimesStep(chunk, maxWords);
        descs, chunk := descs + [d], chunk + 1;
        startWord := startWord + maxWords;
      }
      NoFetch(words, startWord, maxWords, rxPhys);
      FetchesCover(words, 0, maxWords, rxPhys);
    }

    /** The receive buffer is the RAM up to word n. */
    ghost predicate ReadUpTo(n: int)
      reads this, rx
    {
      0 <= n <= rx.Length && n <= |ram| && rx[..n] == ram[..n]
    }

    /** The accelerator stores its results through the RAM's other port. */
    method Accelerate(base: nat, results: seq<Word>)
      requires Valid() && base + |results| <= |ram|
      modifies this`ram
      ensures Valid() && ram == old(ram[..base]) + results + old(ram[base + |results|..])
    {
      ram := ram[..base] + results + ram[base + |results|..];
    }

    /** Sends the image from word 0 on; the RAM behind it stays. */
    method WriteImage(image: seq<int>, outcomes: nat -> SendOutcome) returns (ok: bool)
      requires Valid() && |image| % 4 == 0 && image != [] && |image| <= tx.Length && |image| <= 4 * |ram|
      modifies this`ram, this`wrPtr, this`outgoing, tx
      ensures Valid() && |ram| == old(|ram|) && (ok <==> Goes(image, outcomes))
      ensures ok ==> ram == AllStored(Store(old(ram), if Arrived(outcomes(0)) then 0 else old(wrPtr)), Plain(WordsOf(image))).ram
      ensures ok && (Arrived(outcomes(0)) || old(wrPtr) == 0) ==> ram == WordsOf(image) + old(ram[|image| / 4..])
    {
      var written;
      ghost var stored;
      written, stored := DmaWrite(image, outcomes);
      assert image[..|image|] == image;
      StoredFromReset(old(ram), WordsOf(image));
      ok := written == |image|;
    }

    /**
     The whole session: an image that fits the RAM and the buffers goes out, the accelerator
     writes its results, and what comes back is the RAM with the results in place. That is the image, if the marker arrived
     or the write pointer stood at 0.
     */
    method RunImage(image: seq<int>, base: nat, results: seq<Word>, sendings: nat -> SendOutcome, readings: nat -> ReadOutcome)
      returns (ok: bool)
      requires Valid() && |image| % 4 == 0 && image != []
      requires |image| <= tx.Length && |image| <= 4 * |ram| && base + |results| <= |image| / 4
      modifies this, tx, rx
      ensures Valid() && |ram| == old(|ram|)
      ensures ok <==> Goes(image, sendings) && Returns(|image| / 4, readings)
      ensures var start := if Arrived(sendings(0)) then 0 else old(wrPtr);
        var sent := AllStored(Store(old(ram), start), Plain(WordsOf(image))).ram;
        ok ==> rx[..|image| / 4] == sent[..base] + results + sent[base + |results|..|image| / 4]
      ensures ok && (Arrived(sendings(0)) || old(wrPtr) == 0) ==>
        && rx[..|image| / 4] == WordsOf(image)[..base] + results + WordsOf(image)[base + |results|..]
        && ram[|image| / 4..] == old(ram[|image| / 4..])
    {
      var words := |image| / 4;
      ok := WriteImage(image, sendings);
      if !ok { return; }
      ghost var sent := ram;
      Accelerate(base, results);
      SpliceFront(sent, ram, base, results, words);
      ok := ReadAll(words, readings);
    }
  }

  /**
   Two images of one word go out through the same link. The second one's marker stops before it reaches the RAM: the
   write reports success, and the image lies behind the first one.
   */
  method StoppedMarkerMisplaces() returns (r: int, ram: seq<Word>)
    ensures r == 4 && ram == [Word(1, 2, 3, 4), Word(5, 6, 7, 8)]
  {
    var link := new Link([ZeroWord, ZeroWord], 1, 1, 0, 0);
    ghost var stored;
    r, stored := link.DmaWrite([1, 2, 3, 4], _ => Sent);
    OneWordStored(Store([ZeroWord, ZeroWord], 0), [1, 2, 3, 4]);
    r, stored := link.DmaWrite([5, 6, 7, 8], k => if k == 0 then SendStopped(0) else Sent);
    OneWordStored(Store([Word(1, 2, 3, 4), ZeroWord], 1), [5, 6, 7, 8]);
    ram := link.ram;
  }

  lemma OneWordStored(s: Store, bytes: seq<int>)
    requires s.Valid() && |bytes| == 4
    ensures bytes[..4] == bytes
    ensures AllStored(s, Plain(WordsOf(bytes))) == Stored(s, SinkBeat(false, Word(bytes[0], bytes[1], bytes[2], bytes[3])))
  {
    var b := SinkBeat(false, Word(bytes[0], bytes[1], bytes[2], bytes[3]));
    assert Plain(WordsOf(bytes)) == [b];
    assert AllStored(s, [b]) == AllStored(Stored(s, b), []);
  }

  /** Results spliced into a RAM are spliced into its front. */
  lemma SpliceFront(sent: seq<Word>, ram: seq<Word>, base: nat, results: seq<Word>, words: nat)
    requires base + |results| <= words <= |sent| && ram == sent[..base] + results + sent[base + |results|..]
    ensures |ram| == |sent| && ram[words..] == sent[words..]
    ensures ram[..words] == sent[..base] + results + sent[base + |results|..words]
  {
  }

  /** A stretch that has been read extends what has been read before. */
  lemma OneMoreRead(before: seq<Word>, after: seq<Word>, ram: seq<Word>, a: nat, b: nat)
    requires a <= b <= |after| == |before| && b <= |ram| && before[..a] == ram[..a] && after[a..b] == ram[a..b]
    requires forall k :: 0 <= k < a ==> after[k] == before[k]
    ensures after[..b] == ram[..b]
  {
    forall k | 0 <= k < b ensures after[k] == ram[k] {
      if k < a {
        assert before[..a][k] == ram[..a][k];
      } else {
        assert after[a..b][k - a] == ram[a..b][k - a];
      }
    }
  }

  /** Where the pointer stands when words arrive shows in where it ends up. */
  lemma StartDecides(ram: seq<Word>, p: nat, q: nat, words: seq<Word>)
    requires p < |ram| && q < |ram|
    ensures AllStored(Store(ram, p), Plain(words)) == AllStored(Store(ram, q), Plain(words)) <==> p == q
  {
    hide AllStored, Plain, Cell, Untouched;
    StoredWhere(Store(ram, p), words);
    StoredWhere(Store(ram, q), words);
    if Slot(p + |words|, |ram|) == Slot(q + |words|, |ram|) {
      SlotShift(p + |words|, q + |words|, -|words|, |ram|);
    }
  }

  lemma StretchWithoutWrap(ram: seq<Word>, start: nat, count: nat)
    requires 0 < |ram| && start + count <= |ram|
    ensures Stretch(ram, start, count) == ram[start..start + count]
  {
    forall i | 0 <= i < count ensures Stretch(ram, start, count)[i] == ram[start + i] {
      assert Slot(start + i, |ram|) == start + i;
    }
  }

  lemma NextSending(done: seq<Descriptor>, total: int, offset: int, maxWords: nat, address: int)
    requires 1 <= maxWords && offset < total
    ensures var n := Min(total - offset, 4 * maxWords);
      var d := Descriptor(address, Padded(n), 0);
      && done + Sendings(total, offset, maxWords, address) == (done + [d]) + Sendings(total, offset + n, maxWords, address)
      && done + [d] <= done + Sendings(total, offset, maxWords, address)
      && (offset + n < total ==> WordsSent(Sent, Padded(n) / 4) == maxWords)
  {
    var n := Min(total - offset, 4 * maxWords);
    OneFurther(done, Descriptor(address, Padded(n), 0), Sendings(total, offset + n, maxWords, address));
  }

  lemma NoSending(total: int, offset: int, maxWords: nat, address: int)
    requires 1 <= maxWords && total <= offset
    ensures Sendings(total, offset, maxWords, address) == []
  {
  }

  lemma NextFetch(done: seq<Descriptor>, words: int, first: int, maxWords: nat, address: int)
    requires 1 <= maxWords && first < words
    ensures var d := Descriptor(address + 4 * first, 4 * Min(words - first, maxWords), 0);
      && done + Fetches(words, first, maxWords, address) == (done + [d]) + Fetches(words, first + maxWords, maxWords, address)
      && done + [d] <= done + Fetches(words, first, maxWords, address)
  {
    var d := Descriptor(address + 4 * first, 4 * Min(words - first, maxWords), 0);
    OneFurther(done, d, Fetches(words, first + maxWords, maxWords, address));
  }

  lemma NoFetch(words: int, first: int, maxWords: nat, address: int)
    requires 1 <= maxWords && words <= first
    ensures Fetches(words, first, maxWords, address) == []
  {
  }

  lemma OneFurther<T>(done: seq<T>, next: T, rest: seq<T>)
    ensures done + ([next] + rest) == (done + [next]) + rest && done + [next] <= done + ([next] + rest)
  {
  }

  lemma NothingSent(s: Store)
    requires s.Valid()
    ensures AllStored(s, Plain([])) == s
  {
    assert Plain([]) == [];
  }

  /** The words of a chunk follow those before it. */
  lemma ChunkWords(src: seq<int>, offset: nat, length: nat)
    requires offset % 4 == 0 && offset + length <= |src| && (length % 4 == 0 || offset + length == |src|)
    ensures WordsOf(src[..offset]) + WordsOf(src[offset..offset + length]) <= WordsOf(src)
    ensures WordsOf(src[..offset + length]) == WordsOf(src[..offset]) + WordsOf(src[offset..offset + length])
  {
    hide WordsOf;
    assert src == src[..offset] + src[offset..];
    assert src[..offset + length] == src[..offset] + src[offset..offset + length];
    WordsOfParts(src[..offset], src[offset..]);
    WordsOfParts(src[..offset], src[offset..offset + length]);
    if length % 4 == 0 {
      assert src[offset..] == src[offset..offset + length] + src[offset + length..];
      WordsOfParts(src[offset..offset + length], src[offset + length..]);
    } else {
      assert src[offset..] == src[offset..offset + length];
    }
  }

  /** A chunk, or the part of it that moved, continues the words already stored. */
  lemma OneMoreChunk(src: seq<int>, offset: nat, length: nat, n: nat, s: Store)
    requires s.Valid() && offset % 4 == 0 && offset + length <= |src|
    requires length % 4 == 0 || offset + length == |src|
    requires n <= |WordsOf(src[offset..offset + length])|
    ensures var done := WordsOf(src[..offset]);
      var moved := WordsOf(src[offset..offset + length])[..n];
      && |done| + n <= |WordsOf(src)|
      && WordsOf(src)[..|done| + n] == done + moved
      && AllStored(AllStored(s, Plain(done)), Plain(moved)) == AllStored(s, Plain(done + moved))
    ensures WordsOf(src[..offset + length]) == WordsOf(src[..offset]) + WordsOf(src[offset..offset + length])
  {
    hide WordsOf, AllStored;
    var done, chunk := WordsOf(src[..offset]), WordsOf(src[offset..offset + length]);
    ChunkWords(src, offset, length);
    var moved := chunk[..n];
    assert WordsOf(src)[..|done| + n] == done + moved;
    assert Plain(done + moved) == Plain(done) + Plain(moved);
    StoredInTurn(s, Plain(done), Plain(moved));
  }
}
