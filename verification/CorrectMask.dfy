/**
 The word of correct bits a read or write test returns, assembled from one error word per rank
 and virtual group.
 */
module CorrectMask {
  import opened IntegerArithmetic

  const WIDTH := 32

  /** A machine word, least significant bit first. */
  type Word = s: seq<bool> | |s| == WIDTH witness seq(32, _ => false)

  const Zero: Word := seq(WIDTH, _ => false)

  function Mask(n: nat): Word { seq(WIDTH, b => b < n) }

  function Or(x: Word, y: Word): Word { seq(WIDTH, b requires 0 <= b < WIDTH => x[b] || y[b]) }

  function And(x: Word, y: Word): Word { seq(WIDTH, b requires 0 <= b < WIDTH => x[b] && y[b]) }

  function Not(x: Word): Word { seq(WIDTH, b requires 0 <= b < WIDTH => !x[b]) }

  function ShiftLeft(x: Word, n: nat): Word
  {
    seq(WIDTH, b requires 0 <= b < WIDTH => b >= n && x[b - n])
  }

  /** Error word of (rank, virtual group); a set bit is a failing bit. */
  type Errors = (nat, nat) -> Word

  /** The word put together from virtual groups g and above of one rank, w bits each. */
  ghost function Assembled(err: Errors, r: nat, g: nat, groups: nat, w: nat): Word
    requires g <= groups
    decreases groups - g
  {
    if g == groups then Zero
    else Or(ShiftLeft(Assembled(err, r, g + 1, groups, w), w), And(Mask(w), Not(err(r, g))))
  }

  /** Bit j of group h lands at bit (h - g) * w + j. */
  lemma {:induction false} AssembledBit(err: Errors, r: nat, g: nat, groups: nat, w: nat, h: nat, j: nat)
    requires g <= h < groups && j < w && Times(h - g, w) + j < WIDTH
    ensures 0 <= Times(h - g, w)
    ensures Assembled(err, r, g, groups, w)[Times(h - g, w) + j] == !err(r, h)[j]
    decreases groups - g
  {
    hide Or, ShiftLeft, And, Not, Mask;
    TimesNonNegative(h - g, w);
    if h > g {
      TimesNonNegative(h - g - 1, w);
      TimesStep(h - g - 1, w);
      AssembledBit(err, r, g + 1, groups, w, h, j);
    }
    LowestGroup(Assembled(err, r, g + 1, groups, w), err(r, g), Times(h - g, w) + j, w);
  }

  /** Bits of a word that is shifted up by w and gets a new group at its low end. */
  lemma LowestGroup(x: Word, e: Word, b: nat, w: nat)
    requires b < WIDTH
    ensures Or(ShiftLeft(x, w), And(Mask(w), Not(e)))[b] == if b < w then !e[b] else x[b - w]
  {
  }

  /** Bit j of group h is correct in every rank that is not skipped. */
  ghost predicate BitCorrect(err: Errors, skip: nat -> bool, rankBgn: nat, rankEnd: nat, h: nat, j: nat)
  {
    j < WIDTH && forall r :: rankBgn <= r < rankEnd && !skip(r) ==> !err(r, h)[j]
  }

  /** Bit b survives the conjunction over the ranks from rankBgn to rankEnd - 1. */
  ghost predicate Survives(err: Errors, skip: nat -> bool, rankBgn: nat, rankEnd: nat, groups: nat, w: nat, b: nat)
    requires b < WIDTH
  {
    forall k :: rankBgn <= k < rankEnd && !skip(k) ==> Assembled(err, k, 0, groups, w)[b]
  }

  /** Where pin j of group h is in the word. */
  function Position(h: nat, j: nat, w: nat): int { Times(h, w) + j }

  /** The bit of group h, pin j survives iff that pin is correct in every rank that is not skipped. */
  lemma SurvivesMeansCorrect(err: Errors, skip: nat -> bool, rankBgn: nat, rankEnd: nat, groups: nat, w: nat, h: nat, j: nat)
    requires h < groups && j < w && Times(groups, w) <= WIDTH
    ensures 0 <= Position(h, j, w) < Times(groups, w)
    ensures Survives(err, skip, rankBgn, rankEnd, groups, w, Position(h, j, w))
       <==> BitCorrect(err, skip, rankBgn, rankEnd, h, j)
  {
    RowMajor(h, j, groups, w);
    RowMajor(0, j, groups, w);
    forall k | rankBgn <= k < rankEnd && !skip(k)
      ensures Assembled(err, k, 0, groups, w)[Position(h, j, w)] == !err(k, h)[j]
    {
      AssembledBit(err, k, 0, groups, w, h, j);
    }
  }

  /** The correct bits of one rank: the groups are visited from the last to the first. */
  method RankBits(err: Errors, r: nat, groups: nat, w: nat) returns (tmp: Word)
    ensures tmp == Assembled(err, r, 0, groups, w)
  {
    tmp := Zero;
    var vg: nat := groups;
    while vg != 0
      invariant 0 <= vg <= groups && tmp == Assembled(err, r, vg, groups, w)
      decreases vg
    {
      vg := vg - 1;
      tmp := ShiftLeft(tmp, w);
      tmp := Or(tmp, And(Mask(w), Not(err(r, vg))));
    }
  }

  /** The conjunction over the ranks, starting from the mask of the group's dq bits. */
  method RankConjunction(err: Errors, skip: nat -> bool, rankBgn: nat, rankEnd: nat, groups: nat, w: nat)
    returns (chk: Word, dq: nat)
    requires Times(groups, w) <= WIDTH
    ensures dq == Times(groups, w)
    ensures forall b :: 0 <= b < WIDTH ==>
      (chk[b] <==> b < dq && Survives(err, skip, rankBgn, rankEnd, groups, w, b))
  {
    TimesNonNegative(groups, w);
    dq := Times(groups, w);
    chk := Mask(dq);
    var r := rankBgn;
    while r < rankEnd
      invariant if rankBgn <= rankEnd then rankBgn <= r <= rankEnd else r == rankBgn
      invariant forall b :: 0 <= b < WIDTH ==>
        (chk[b] <==> b < dq && Survives(err, skip, rankBgn, r, groups, w, b))
      decreases rankEnd - r
    {
      if !skip(r) {
        var tmp := RankBits(err, r, groups, w);
        chk := And(chk, tmp);
      }
      r := r + 1;
    }
    forall b | 0 <= b < WIDTH
      ensures Survives(err, skip, rankBgn, r, groups, w, b) == Survives(err, skip, rankBgn, rankEnd, groups, w, b)
    {
    }
  }

  /** One read or write test over ranks rankBgn..rankEnd-1 of a group of dq = groups * w bits. */
  method CalibrateTest(err: Errors, skip: nat -> bool, rankBgn: nat, rankEnd: nat, groups: nat, w: nat, allCorrect: bool)
    returns (pass: bool, chk: Word)
    requires 0 < groups && 0 < w && Times(groups, w) <= WIDTH
    ensures forall h: nat, j: nat | h < groups && j < w ::
      0 <= Position(h, j, w) < WIDTH && (chk[Position(h, j, w)] <==> BitCorrect(err, skip, rankBgn, rankEnd, h, j))
    ensures forall b | Times(groups, w) <= b < WIDTH :: 0 <= b && !chk[b]
    ensures pass <==> if allCorrect then forall b :: 0 <= b < Times(groups, w) ==> chk[b]
                      else exists b :: 0 <= b < Times(groups, w) && chk[b]
  {
    var dq;
    chk, dq := RankConjunction(err, skip, rankBgn, rankEnd, groups, w);
    forall h: nat, j: nat | h < groups && j < w
      ensures 0 <= Position(h, j, w) < WIDTH
      ensures chk[Position(h, j, w)] <==> BitCorrect(err, skip, rankBgn, rankEnd, h, j)
    {
      SurvivesMeansCorrect(err, skip, rankBgn, rankEnd, groups, w, h, j);
    }
    pass := if allCorrect then chk == Mask(dq) else chk != Zero;
    CompareWords(chk, dq);
  }

  lemma CompareWords(x: Word, n: nat)
    requires n <= WIDTH && forall b :: n <= b < WIDTH ==> !x[b]
    ensures x == Mask(n) <==> forall b :: 0 <= b < n ==> x[b]
    ensures x != Zero <==> exists b :: 0 <= b < n && x[b]
  {
    if x != Zero {
      var b :| 0 <= b < WIDTH && x[b] != Zero[b];
    }
  }
}
