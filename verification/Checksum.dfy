/**
 * The Internet checksum (util.c:89-103) as computed on a little-endian host,
 * against the one's-complement sum of RFC 1071, and its use by tcp.c.
 */
module Checksum {
  import opened Words

  type Bytes = seq<Byte>

  // ------------------------------------------------------ plain word sums

  /** The 16-bit word at two consecutive bytes of a little-endian memory. */
  function Pair(lo: Byte, hi: Byte): Half {
    var h: int := hi;
    lo + 256 * h
  }

  /** The sum of the 16-bit words in host order; an odd last byte counts as a low byte. */
  function Sum(s: Bytes): nat {
    if |s| == 0 then 0
    else if |s| == 1 then s[0]
    else Pair(s[0], s[1]) + Sum(s[2..])
  }

  /** The one's-complement value of a plain sum: 0 only for 0, otherwise 1 to 65535. */
  function Residue(sum: nat): Half {
    if sum == 0 then 0 else (sum - 1) % 65535 + 1
  }

  /** `cksum16` of a message: the complement of its one's-complement sum. */
  function CksumOf(s: Bytes, init: nat): Half {
    65535 - Residue(init + Sum(s))
  }

  lemma {:induction false} SumBound(s: Bytes)
    ensures 2 * Sum(s) <= 65535 * (|s| + 1)
  {
    if |s| >= 2 { SumBound(s[2..]); }
  }

  lemma {:induction false} SumAppend(s: Bytes, t: Bytes)
    requires |s| % 2 == 0
    ensures Sum(s + t) == Sum(s) + Sum(t)
  {
    if |s| == 0 {
      assert s + t == t;
    } else {
      assert (s + t)[2..] == s[2..] + t;
      SumAppend(s[2..], t);
    }
  }

  // ------------------------------------------------------------- folding

  function Fold(sum: nat): nat {
    sum % TWO16 + sum / TWO16
  }

  lemma ResidueUnique(sum: nat, y: Half, k: nat)
    requires sum == y + 65535 * k
    requires y == 0 ==> sum == 0
    ensures Residue(sum) == y
  {
  }

  /** Two folds reduce any 32-bit accumulator to its one's-complement value. */
  lemma TwoFolds(sum: Word)
    ensures Fold(Fold(sum)) == Residue(sum)
  {
    var h := sum / TWO16;
    var once := Fold(sum);
    assert sum == once + 65535 * h;
    assert once <= 2 * 65535;
    var c := once / TWO16;
    assert c <= 1 && once == Fold(once) + 65535 * c;
    ResidueUnique(sum, Fold(once), h + c);
  }

  /** A total as the 32-bit accumulator keeps it. */
  function Wrap32(n: nat): Word {
    n % TWO32
  }

  lemma WrapsOnce(sum: Word, n: Half, rest: nat)
    ensures Wrap32(sum + (n + rest)) == Wrap32(Add32(sum, n) + rest)
  {
  }

  lemma NoWrap(n: nat)
    ensures n < TWO32 ==> Wrap32(n) == n
  {
  }

  method Finish(total: Word) returns (r: Half)
    ensures r == 65535 - Residue(total)
  {
    TwoFolds(total);
    var sum := total % TWO16 + total / TWO16;
    sum := sum % TWO16 + sum / TWO16;
    r := 65535 - sum;
  }

  /**
   * `cksum16`: the 32-bit accumulator wraps as in C; whatever it holds, the
   * result is the complement of its one's-complement value.
   */
  method Cksum16(data: Bytes, init: Word) returns (r: Half)
    requires |data| < TWO16
    ensures r == 65535 - Residue(Wrap32(init + Sum(data)))
    ensures init + Sum(data) < TWO32 ==> r == CksumOf(data, init)
  {
    var sum: Word := init;
    var i := 0;
    assert data[0..] == data;
    while |data| - i > 1
      invariant 0 <= i <= |data|
      invariant Wrap32(init + Sum(data)) == Wrap32(sum + Sum(data[i..]))
    {
      assert data[i..][2..] == data[i + 2..];
      WrapsOnce(sum, Pair(data[i], data[i + 1]), Sum(data[i + 2..]));
      sum := Add32(sum, Pair(data[i], data[i + 1]));
      i := i + 2;
    }
    if i < |data| {
      WrapsOnce(sum, data[i], 0);
      sum := Add32(sum, data[i]);
    }
    NoWrap(sum);
    NoWrap(init + Sum(data));
    r := Finish(sum);
  }

  /** With an initial value below 2^31 no 16-bit size overflows the accumulator. */
  lemma NoOverflow(data: Bytes, init: nat)
    requires |data| < TWO16 && init <= 0x8000_0000
    ensures init + Sum(data) < TWO32
  {
    SumBound(data);
  }

  // -------------------------------------- RFC 1071: end-around-carry sums

  /** One's-complement addition with its carry added back at once. */
  function OnesAdd(x: Half, y: Half): Half {
    if x + y > 65535 then x + y - 65535 else x + y
  }

  function OnesSum(s: Bytes): Half {
    if |s| == 0 then 0
    else if |s| == 1 then s[0]
    else OnesAdd(Pair(s[0], s[1]), OnesSum(s[2..]))
  }

  lemma ResidueAdd(x: Half, sum: nat)
    ensures Residue(x + sum) == OnesAdd(x, Residue(sum))
  {
    if sum != 0 {
      var k := (sum - 1) / 65535;
      assert sum == Residue(sum) + 65535 * k;
      ResidueUnique(x + sum, OnesAdd(x, Residue(sum)),
                    if x + Residue(sum) > 65535 then k + 1 else k);
    }
  }

  /** Deferring every carry to the end gives the sum with carries added at each step. */
  lemma {:induction false} DeferredCarries(s: Bytes)
    ensures Residue(Sum(s)) == OnesSum(s)
  {
    if |s| == 1 {
      ResidueUnique(s[0], s[0], 0);
    } else if |s| > 1 {
      DeferredCarries(s[2..]);
      ResidueAdd(Pair(s[0], s[1]), Sum(s[2..]));
    }
  }

  // ------------------------------------------------------ fill and verify

  /** `s` with the 16-bit field at `p` set to `v`, in host order. */
  function Put16(s: Bytes, p: nat, v: Half): Bytes
    requires p + 2 <= |s|
  {
    s[p := v % 256][p + 1 := v / 256]
  }

  predicate Clear16(s: Bytes, p: nat)
    requires p + 2 <= |s|
  {
    s[p] == 0 && s[p + 1] == 0
  }

  lemma {:induction false} SumPut(s: Bytes, p: nat, v: Half)
    requires p + 2 <= |s| && p % 2 == 0
    ensures Sum(Put16(s, p, v)) == Sum(s) - Pair(s[p], s[p + 1]) + v
  {
    if p == 0 {
      assert Put16(s, p, v)[2..] == s[2..];
    } else {
      assert Put16(s, p, v)[2..] == Put16(s[2..], p - 2, v);
      SumPut(s[2..], p - 2, v);
    }
  }

  lemma SumFill(s: Bytes, p: nat, v: Half)
    requires p + 2 <= |s| && p % 2 == 0 && Clear16(s, p)
    ensures Sum(Put16(s, p, v)) == Sum(s) + v
  {
    SumPut(s, p, v);
  }

  lemma CheckIff(sum: nat)
    ensures 65535 - Residue(sum) == 0 <==> sum > 0 && sum % 65535 == 0
  {
  }

  lemma SameRemainder(x: int, y: int, k: int)
    requires x == y + 65535 * k
    ensures x % 65535 == 0 <==> y % 65535 == 0
  {
  }

  /**
   * A message with a non-zero word sum whose field `p` holds `v` checks to 0
   * exactly when `v` is, modulo 65535, the checksum of the message with the
   * field cleared.
   */
  lemma VerifyIff(s: Bytes, p: nat, v: Half, init: nat)
    requires p + 2 <= |s| && p % 2 == 0 && Clear16(s, p)
    requires init + Sum(s) > 0
    ensures CksumOf(Put16(s, p, v), init) == 0 <==> (v - CksumOf(s, init)) % 65535 == 0
  {
    SumFill(s, p, v);
    AddsToZero(init + Sum(s), v, CksumOf(s, init), CksumOf(Put16(s, p, v), init));
  }

  lemma AddsToZero(n: nat, v: Half, c: Half, r: Half)
    requires n > 0 && c == 65535 - Residue(n) && r == 65535 - Residue(n + v)
    ensures r == 0 <==> (v - c) % 65535 == 0
  {
    var k := (n - 1) / 65535;
    assert n == Residue(n) + 65535 * k;
    CheckIff(n + v);
    SameRemainder(n + v, v - c, k + 1);
  }

  /** Filling the cleared field with the checksum makes the message check to 0. */
  lemma FillVerifies(s: Bytes, p: nat, init: nat)
    requires p + 2 <= |s| && p % 2 == 0 && Clear16(s, p)
    ensures CksumOf(Put16(s, p, CksumOf(s, init)), init) == 0
  {
    if init + Sum(s) > 0 {
      VerifyIff(s, p, CksumOf(s, init), init);
    } else {
      SumFill(s, p, 65535);
    }
  }

  /**
   * A message that checks to 0 and has one word changed checks to 0 exactly
   * when the change is a multiple of 65535 and not all of the message is 0.
   */
  lemma ChangeIff(s: Bytes, p: nat, v: Half, init: nat)
    requires p + 2 <= |s| && p % 2 == 0 && CksumOf(s, init) == 0
    ensures CksumOf(Put16(s, p, v), init) == 0
            <==> (v - Pair(s[p], s[p + 1])) % 65535 == 0 && init + Sum(Put16(s, p, v)) > 0
  {
    SumPut(s, p, v);
    CheckIff(init + Sum(s));
    CheckIff(init + Sum(Put16(s, p, v)));
    var k := (init + Sum(s)) / 65535;
    SameRemainder(init + Sum(Put16(s, p, v)), v - Pair(s[p], s[p + 1]), k);
  }

  lemma ByteChangeSeen(sum: nat, a: Byte, b: Byte)
    requires a != b && 65535 - Residue(sum + a) == 0
    ensures 65535 - Residue(sum + b) != 0
  {
    CheckIff(sum + a);
    CheckIff(sum + b);
    SameRemainder(sum + b, b - a, (sum + a) / 65535);
  }

  /** The last byte of an odd message that checks to 0 cannot be changed unseen. */
  lemma OddChangeSeen(s: Bytes, b: Byte, init: nat)
    requires |s| % 2 == 1 && CksumOf(s, init) == 0 && b != s[|s| - 1]
    ensures CksumOf(s[|s| - 1 := b], init) != 0
  {
    var n := |s| - 1;
    assert s == s[..n] + [s[n]] && s[n := b] == s[..n] + [b];
    SumAppend(s[..n], [s[n]]);
    SumAppend(s[..n], [b]);
    ByteChangeSeen(init + Sum(s[..n]), s[n], b);
  }

  // ------------------------------------------------------------ byte order

  /** `byteswap16`. */
  function Swap16(v: Half): Half {
    v % 256 * 256 + v / 256
  }

  /** The same loop on a big-endian host; the odd byte is still added as it is. */
  function SumBig(s: Bytes): nat {
    if |s| == 0 then 0
    else if |s| == 1 then s[0]
    else Pair(s[1], s[0]) + SumBig(s[2..])
  }

  /** The last byte of an odd message, 0 for an even one. */
  function OddByte(s: Bytes): Byte {
    if |s| % 2 == 1 then s[|s| - 1] else 0
  }

  /** How many multiples of 65535 the swap of every word takes off `256 * Sum(s)`. */
  function Carried(s: Bytes): nat {
    if |s| <= 1 then 0 else s[1] + Carried(s[2..])
  }

  lemma {:induction false} SumSwapped(s: Bytes)
    ensures 256 * Sum(s) == SumBig(s) + 255 * OddByte(s) + 65535 * Carried(s)
    ensures SumBig(s) == 0 <==> Sum(s) == 0
  {
    if |s| > 1 {
      assert OddByte(s) == OddByte(s[2..]);
      SumSwapped(s[2..]);
    }
  }

  lemma SwapResidue(sum: nat, big: nat, k: nat)
    requires 256 * sum == big + 65535 * k
    requires sum == 0 <==> big == 0
    ensures Residue(big) == Swap16(Residue(sum))
  {
    if sum != 0 {
      var r := Residue(sum);
      var m := (sum - 1) / 65535;
      assert sum == r + 65535 * m;
      assert 256 * r == Swap16(r) + 65535 * (r / 256);
      var d := 256 * m + r / 256 - k;
      assert big == Swap16(r) + 65535 * d;
      assert Swap16(r) >= 1;
      assert d >= 0;
      ResidueUnique(big, Swap16(r), d);
    }
  }

  /**
   * Section 2(B) of RFC 1071: hosts of either byte order leave the same two
   * bytes in the field exactly when the length is even or the odd byte is 0.
   */
  lemma HostOrderIff(s: Bytes)
    ensures 65535 - Residue(SumBig(s)) == Swap16(CksumOf(s, 0))
            <==> |s| % 2 == 0 || s[|s| - 1] == 0
  {
    SumSwapped(s);
    var b: int := OddByte(s);
    SwapResidue(Sum(s), SumBig(s) + 255 * b, Carried(s));
    SwapComplement(Residue(Sum(s)));
    if b != 0 {
      OffByOddByte(SumBig(s), b);
    }
  }

  lemma SwapComplement(r: Half)
    ensures Swap16(65535 - r) == 65535 - Swap16(r)
  {
  }

  lemma OffByOddByte(big: nat, b: Byte)
    requires b != 0 && big > 0
    ensures Residue(big) != Residue(big + 255 * b)
  {
  }

  // ------------------------------------------------------------------ TCP

  const TCP_HEADER: nat := 20
  const TCP_SUM: nat := 16
  const TCP_ACK: nat := 8
  const PROTOCOL_TCP: Byte := 6

  /** The pseudo header sum of tcp.c:211-218, which counts the low half of `self` twice. */
  function Pseudo(self: Word, peer: Word, len: Half): nat {
    self / TWO16 + self % TWO16 + peer / TWO16 + self % TWO16 + Swap16(PROTOCOL_TCP) + Swap16(len)
  }

  /** The pseudo header of section 3.1 of RFC 793: both halves of both addresses. */
  function Pseudo793(self: Word, peer: Word, len: Half): nat {
    self / TWO16 + self % TWO16 + peer / TWO16 + peer % TWO16 + Swap16(PROTOCOL_TCP) + Swap16(len)
  }

  function TcpCksum(self: Word, peer: Word, segment: Bytes): Half
    requires |segment| < TWO16
  {
    CksumOf(segment, Pseudo(self, peer, |segment|))
  }

  /** `tcp_checksum` (tcp.c:209-220). */
  method TcpChecksum(self: Word, peer: Word, segment: Bytes) returns (r: Half)
    requires |segment| < TWO16
    ensures r == TcpCksum(self, peer, segment)
  {
    var pseudo: Word := 0;
    pseudo := pseudo + self / TWO16;
    pseudo := pseudo + self % TWO16;
    pseudo := pseudo + peer / TWO16;
    pseudo := pseudo + self % TWO16;
    pseudo := pseudo + Swap16(PROTOCOL_TCP);
    pseudo := pseudo + Swap16(|segment|);
    NoOverflow(segment, pseudo);
    r := Cksum16(segment, pseudo);
  }

  /** The segment as `tcp_tx` and the timer complete it: cleared field, then its checksum. */
  function Completed(self: Word, peer: Word, segment: Bytes): Bytes
    requires TCP_HEADER <= |segment| < TWO16
  {
    var cleared := Put16(segment, TCP_SUM, 0);
    Put16(cleared, TCP_SUM, TcpCksum(self, peer, cleared))
  }

  /**
   * The timer's rewrite (tcp.c:954-957, 973-976): a new acknowledgment number,
   * then the checksum again.
   */
  function Readdressed(self: Word, peer: Word, segment: Bytes, ack: seq<Byte>): Bytes
    requires TCP_HEADER <= |segment| < TWO16 && |ack| == 4
  {
    Completed(self, peer, segment[..TCP_ACK] + ack + segment[TCP_ACK + 4..])
  }

  /** What one end completes, the other end checks to 0: every segment, every address pair. */
  lemma TcpFillVerifies(self: Word, peer: Word, segment: Bytes)
    requires TCP_HEADER <= |segment| < TWO16
    ensures TcpCksum(self, peer, Completed(self, peer, segment)) == 0
  {
    FillVerifies(Put16(segment, TCP_SUM, 0), TCP_SUM, Pseudo(self, peer, |segment|));
  }

  /** The same after any number of rewrites, and the rest of the segment is untouched. */
  lemma {:induction false} RewritesVerify(self: Word, peer: Word, segment: Bytes, acks: seq<seq<Byte>>)
    requires TCP_HEADER <= |segment| < TWO16
    requires TcpCksum(self, peer, segment) == 0
    requires forall i :: 0 <= i < |acks| ==> |acks[i]| == 4
    ensures |Rewritten(self, peer, segment, acks)| == |segment|
    ensures TcpCksum(self, peer, Rewritten(self, peer, segment, acks)) == 0
    ensures forall i :: 0 <= i < |segment| && !(8 <= i < 12) && !(16 <= i < 18) ==>
              Rewritten(self, peer, segment, acks)[i] == segment[i]
    decreases |acks|
  {
    if acks != [] {
      TcpFillVerifies(self, peer, segment[..TCP_ACK] + acks[0] + segment[TCP_ACK + 4..]);
      RewritesVerify(self, peer, Readdressed(self, peer, segment, acks[0]), acks[1..]);
    }
  }

  function Rewritten(self: Word, peer: Word, segment: Bytes, acks: seq<seq<Byte>>): Bytes
    requires TCP_HEADER <= |segment| < TWO16
    requires forall i :: 0 <= i < |acks| ==> |acks[i]| == 4
    decreases |acks|
  {
    if acks == [] then segment
    else Rewritten(self, peer, Readdressed(self, peer, segment, acks[0]), acks[1..])
  }

  /**
   * The code's checksum is the one of RFC 793 exactly when the low halves of
   * the two addresses are the same number modulo 65535.
   */
  lemma Rfc793Iff(self: Word, peer: Word, segment: Bytes)
    requires |segment| < TWO16
    ensures TcpCksum(self, peer, segment) == CksumOf(segment, Pseudo793(self, peer, |segment|))
            <==> (self % TWO16 - peer % TWO16) % 65535 == 0
  {
    var x := Pseudo(self, peer, |segment|) + Sum(segment);
    var y := Pseudo793(self, peer, |segment|) + Sum(segment);
    assert x - y == self % TWO16 - peer % TWO16;
    SameResidueIff(x, y);
  }

  lemma SameResidueIff(x: nat, y: nat)
    requires x > 0 && y > 0
    ensures Residue(x) == Residue(y) <==> (x - y) % 65535 == 0
  {
  }
}
