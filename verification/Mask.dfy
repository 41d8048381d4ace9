/**
 * The coverage mask (util.c:158-203): a set of positions packed in 32-bit
 * words, position `p` being bit `p % 32` of word `p / 32`.
 */
module Mask {
  import opened WordBits

  ghost predicate Has(mask: seq<bv32>, p: nat)
    requires p < 32 * |mask|
  {
    Bit(mask[p / 32], p % 32)
  }

  /** The set a mask stands for. */
  ghost function Positions(mask: seq<bv32>): set<nat> {
    set p: nat | p < 32 * |mask| && Has(mask, p)
  }

  predicate Within(p: nat, lo: nat, hi: nat) {
    lo <= p < hi
  }

  ghost function Range(lo: nat, hi: nat): set<nat> {
    set p: nat | p < hi && Within(p, lo, hi)
  }

  // ------------------------------------------------------------ one word

  /** The bits of `r` are word `i` of `[lo, hi)`. */
  ghost predicate Piece(r: bv32, i: nat, lo: nat, hi: nat) {
    forall j :: 0 <= j < 32 ==> (Bit(r, j) <==> lo <= 32 * i + j < hi)
  }

  ghost predicate Grown(v: bv32, w: bv32, i: nat, lo: nat, hi: nat) {
    forall j :: 0 <= j < 32 ==> (Bit(w, j) <==> Bit(v, j) || lo <= 32 * i + j < hi)
  }

  ghost predicate Full(w: bv32, i: nat, lo: nat, hi: nat) {
    forall j :: 0 <= j < 32 && lo <= 32 * i + j < hi ==> Bit(w, j)
  }

  lemma SetWord(v: bv32, r: bv32, i: nat, lo: nat, hi: nat)
    requires Piece(r, i, lo, hi)
    ensures Grown(v, v | r, i, lo, hi)
  {
    forall j | 0 <= j < 32
      ensures Bit(v | r, j) <==> Bit(v, j) || lo <= 32 * i + j < hi
    {
      OrBit(v, r, j);
    }
  }

  lemma CheckWord(w: bv32, r: bv32, i: nat, lo: nat, hi: nat)
    requires Piece(r, i, lo, hi)
    ensures (w & r) ^ r == 0 <==> Full(w, i, lo, hi)
  {
    MissesNone(w, r);
  }

  lemma SameWord(v: bv32, i: nat, lo: nat, hi: nat)
    requires hi <= 32 * i || 32 * i + 32 <= lo
    ensures Grown(v, v, i, lo, hi) && Full(v, i, lo, hi)
  {
  }

  /** The first, possibly partial, word. */
  method FirstPiece(sb: nat, bl: nat, ghost i: nat, ghost lo: nat, ghost hi: nat) returns (r: bv32)
    requires 1 <= bl && sb + bl <= 32
    requires 32 * i + sb == lo && 32 * i + sb + bl == (if hi <= 32 * i + 32 then hi else 32 * i + 32)
    ensures Piece(r, i, lo, hi)
  {
    r := Run(sb, bl);
    forall j | 0 <= j < 32
      ensures Bit(r, j) <==> lo <= 32 * i + j < hi
    {
      RunBit(sb, bl, j);
    }
  }

  /** The last word, when it is partial. */
  method LastPiece(n: nat, ghost i: nat, ghost lo: nat, ghost hi: nat) returns (r: bv32)
    requires 1 <= n <= 32
    requires lo <= 32 * i && 32 * i + n == hi
    ensures Piece(r, i, lo, hi)
  {
    r := Shr(ONES, 32 - n);
    forall j | 0 <= j < 32
      ensures Bit(r, j) <==> lo <= 32 * i + j < hi
    {
      LowBit(n, j);
    }
  }

  /** A word in the middle. */
  lemma WholePiece(i: nat, lo: nat, hi: nat)
    requires lo <= 32 * i && 32 * i + 32 <= hi
    ensures Piece(0xffffffff, i, lo, hi)
  {
    forall j | 0 <= j < 32
      ensures Bit(0xffffffff, j)
    {
      OnesBit(j);
    }
  }

  // ----------------------------------------------------------- all words

  lemma GrownAll(before: seq<bv32>, after: seq<bv32>, lo: nat, hi: nat)
    requires |before| == |after| && hi <= 32 * |before|
    requires forall i :: 0 <= i < |before| ==> Grown(before[i], after[i], i, lo, hi)
    ensures Positions(after) == Positions(before) + Range(lo, hi)
  {
    forall p: nat | p < 32 * |before|
      ensures Has(after, p) <==> Has(before, p) || Within(p, lo, hi)
    {
      assert Grown(before[p / 32], after[p / 32], p / 32, lo, hi);
    }
  }

  lemma FullAll(mask: seq<bv32>, lo: nat, hi: nat)
    requires hi <= 32 * |mask|
    requires forall i :: 0 <= i < |mask| ==> Full(mask[i], i, lo, hi)
    ensures Range(lo, hi) <= Positions(mask)
  {
    forall p | p in Range(lo, hi)
      ensures Has(mask, p)
    {
      assert Full(mask[p / 32], p / 32, lo, hi);
    }
  }

  lemma NotFull(mask: seq<bv32>, i: nat, lo: nat, hi: nat)
    requires hi <= 32 * |mask| && i < |mask|
    requires !Full(mask[i], i, lo, hi)
    ensures !(Range(lo, hi) <= Positions(mask))
  {
    var j :| 0 <= j < 32 && lo <= 32 * i + j < hi && !Bit(mask[i], j);
    var p := 32 * i + j;
    assert p / 32 == i && p % 32 == j;
    assert p in Range(lo, hi) && !Has(mask, p);
  }

  // ----------------------------------------------------------- operations

  method SetPiece(mask: array<bv32>, i: nat, r: bv32, ghost lo: nat, ghost hi: nat)
    requires i < mask.Length && Piece(r, i, lo, hi)
    modifies mask
    ensures Grown(old(mask[i]), mask[i], i, lo, hi)
    ensures forall k :: 0 <= k < mask.Length && k != i ==> mask[k] == old(mask[k])
  {
    SetWord(mask[i], r, i, lo, hi);
    mask[i] := mask[i] | r;
  }

  method SetWhole(mask: array<bv32>, i: nat, ghost lo: nat, ghost hi: nat)
    requires i < mask.Length && lo <= 32 * i && 32 * i + 32 <= hi
    modifies mask
    ensures Grown(old(mask[i]), mask[i], i, lo, hi)
    ensures forall k :: 0 <= k < mask.Length && k != i ==> mask[k] == old(mask[k])
  {
    WholePiece(i, lo, hi);
    OnesAt(mask[i]);
    SetWord(mask[i], 0xffffffff, i, lo, hi);
    mask[i] := 0xffffffff;
  }

  /** The words in the middle: `n` of them behind word `so`. */
  method SetWholes(mask: array<bv32>, so: nat, n: nat, ghost lo: nat, ghost hi: nat) returns (idx: nat)
    requires so + n < mask.Length && lo <= 32 * so + 32 && (n > 0 ==> 32 * (so + n) + 32 <= hi)
    modifies mask
    ensures idx == so + n
    ensures forall i :: so < i <= idx && i < mask.Length ==> Grown(old(mask[i]), mask[i], i, lo, hi)
    ensures forall i :: 0 <= i < mask.Length && !(so < i <= idx) ==> mask[i] == old(mask[i])
  {
    idx := so;
    while idx < so + n
      invariant so <= idx <= so + n
      invariant forall i :: so < i <= idx && i < mask.Length ==> Grown(old(mask[i]), mask[i], i, lo, hi)
      invariant forall i :: 0 <= i < mask.Length && !(so < i <= idx) ==> mask[i] == old(mask[i])
    {
      SetWhole(mask, idx + 1, lo, hi);
      idx := idx + 1;
    }
  }

  /** `maskset` (util.c:158-174): adds exactly `[offset, offset + len)`. */
  method MaskSet(mask: array<bv32>, offset: nat, len: nat)
    requires 0 < len && offset + len <= 32 * mask.Length
    modifies mask
    ensures Positions(mask[..]) == old(Positions(mask[..])) + Range(offset, offset + len)
  {
    ghost var was := mask[..];
    ghost var hi := offset + len;
    var so, sb := offset / 32, offset % 32;
    var bl := if len > 32 - sb then 32 - sb else len;
    var r := FirstPiece(sb, bl, so, offset, hi);
    SetPiece(mask, so, r, offset, hi);
    var rest := len - bl;
    var idx := SetWholes(mask, so, rest / 32, offset, hi);
    rest := rest - 32 * (idx - so);
    if rest != 0 {
      r := LastPiece(rest, idx + 1, offset, hi);
      SetPiece(mask, idx + 1, r, offset, hi);
      idx := idx + 1;
    }
    SetAll(was, mask[..], so, idx, offset, hi);
  }

  lemma SetAll(before: seq<bv32>, after: seq<bv32>, so: nat, idx: nat, lo: nat, hi: nat)
    requires |before| == |after| && hi <= 32 * |before|
    requires 32 * so <= lo && so <= idx < |before| && hi <= 32 * idx + 32
    requires forall i :: so <= i <= idx ==> Grown(before[i], after[i], i, lo, hi)
    requires forall i :: 0 <= i < so || idx < i < |before| ==> after[i] == before[i]
    ensures Positions(after) == Positions(before) + Range(lo, hi)
  {
    forall i | 0 <= i < |before|
      ensures Grown(before[i], after[i], i, lo, hi)
    {
      if i < so || idx < i { SameWord(before[i], i, lo, hi); }
    }
    GrownAll(before, after, lo, hi);
  }

  method CheckPiece(mask: array<bv32>, i: nat, r: bv32, ghost lo: nat, ghost hi: nat) returns (ok: bool)
    requires i < mask.Length && hi <= 32 * mask.Length && Piece(r, i, lo, hi)
    ensures ok ==> Full(mask[..][i], i, lo, hi)
    ensures !ok ==> !(Range(lo, hi) <= Positions(mask[..]))
  {
    CheckWord(mask[i], r, i, lo, hi);
    ok := (mask[i] & r) ^ r == 0;
    if !ok { NotFull(mask[..], i, lo, hi); }
  }

  method CheckWhole(mask: array<bv32>, i: nat, ghost lo: nat, ghost hi: nat) returns (ok: bool)
    requires i < mask.Length && hi <= 32 * mask.Length && lo <= 32 * i && 32 * i + 32 <= hi
    ensures ok ==> Full(mask[..][i], i, lo, hi)
    ensures !ok ==> !(Range(lo, hi) <= Positions(mask[..]))
  {
    WholePiece(i, lo, hi);
    NotOnesAt(mask[i]);
    CheckWord(mask[i], 0xffffffff, i, lo, hi);
    ok := mask[i] ^ 0xffffffff == 0;
    if !ok { NotFull(mask[..], i, lo, hi); }
  }

  /** `maskchk` (util.c:176-199): whether `[offset, offset + len)` is all there. */
  method MaskChk(mask: array<bv32>, offset: nat, len: nat) returns (all: bool)
    requires 0 < len && offset + len <= 32 * mask.Length
    ensures all <==> Range(offset, offset + len) <= Positions(mask[..])
  {
    ghost var m := mask[..];
    ghost var hi := offset + len;
    var so, sb := offset / 32, offset % 32;
    var bl := if len > 32 - sb then 32 - sb else len;
    var r := FirstPiece(sb, bl, so, offset, hi);
    var ok := CheckPiece(mask, so, r, offset, hi);
    if !ok { return false; }
    var rest := len - bl;
    var idx := so;
    while idx < so + rest / 32
      invariant so <= idx <= so + rest / 32
      invariant forall i :: so <= i <= idx ==> Full(m[i], i, offset, hi)
    {
      ok := CheckWhole(mask, idx + 1, offset, hi);
      if !ok { return false; }
      idx := idx + 1;
    }
    rest := rest - 32 * (idx - so);
    if rest != 0 {
      r := LastPiece(rest, idx + 1, offset, hi);
      ok := CheckPiece(mask, idx + 1, r, offset, hi);
      if !ok { return false; }
      idx := idx + 1;
    }
    CheckAll(m, so, idx, offset, hi);
    return true;
  }

  lemma CheckAll(mask: seq<bv32>, so: nat, idx: nat, lo: nat, hi: nat)
    requires hi <= 32 * |mask|
    requires 32 * so <= lo && so <= idx < |mask| && hi <= 32 * idx + 32
    requires forall i :: so <= i <= idx ==> Full(mask[i], i, lo, hi)
    ensures Range(lo, hi) <= Positions(mask)
  {
    forall i | 0 <= i < |mask|
      ensures Full(mask[i], i, lo, hi)
    {
      if i < so || idx < i { SameWord(mask[i], i, lo, hi); }
    }
    FullAll(mask, lo, hi);
  }

  /** `maskclr` (util.c:201-203) of a whole mask: the empty set. */
  method MaskClr(mask: array<bv32>)
    modifies mask
    ensures Positions(mask[..]) == {}
  {
    for i := 0 to mask.Length
      invariant forall k :: 0 <= k < i ==> mask[k] == 0
    {
      mask[i] := 0;
    }
    ZeroPositions(mask[..]);
  }

  lemma ZeroPositions(mask: seq<bv32>)
    requires forall i :: 0 <= i < |mask| ==> mask[i] == 0
    ensures Positions(mask) == {}
  {
    forall p: nat | p < 32 * |mask|
      ensures !Has(mask, p)
    {
      ZeroBit(p % 32);
    }
  }
}
