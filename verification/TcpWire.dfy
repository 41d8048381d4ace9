/**
 * TCP segments in memory: the header built by `tcp_tx` (tcp.c:738-783), the
 * timer's rewrite of it (tcp.c:953-957), and what `tcp_rx` and the arrival
 * handler read back (tcp.c:813-832, 280-284, 643-648).
 */
module TcpWire {
  import opened Words
  import opened Checksum
  import opened IpPacket
  import opened IpFragments
  import opened TcpModel

  function Net32(v: Word): Bytes {
    Net16(v / TWO16) + Net16(v % TWO16)
  }

  function GetNet32(s: Bytes, p: nat): Word
    requires p + 4 <= |s|
  {
    var hi: int := Get16(s, p);
    var lo: int := Get16(s, p + 2);
    hi * TWO16 + lo
  }

  /** Ports are kept in network order and loaded as they are. */
  function GetRaw16(s: Bytes, p: nat): Half
    requires p + 2 <= |s|
  {
    Pair(s[p], s[p + 1])
  }

  function BitIf(b: bool, v: Byte): int {
    if b then v else 0
  }

  function FlagBits(f: Flags): Byte {
    BitIf(f.fin, 1) + BitIf(f.syn, 2) + BitIf(f.rst, 4) + BitIf(f.psh, 8) + BitIf(f.ack, 16) + BitIf(f.urg, 32)
  }

  function FlagsOf(b: Byte): Flags {
    Flags(b % 2 == 1, b / 2 % 2 == 1, b / 4 % 2 == 1, b / 8 % 2 == 1, b / 16 % 2 == 1, b / 32 % 2 == 1)
  }

  /** Header and text before the checksum. */
  function Unchecked(sport: Half, dport: Half, seg: Segment): Bytes {
    Raw16(sport) + Raw16(dport) + Net32(seg.seqno) + Net32(seg.ackno)
    + [0x50, FlagBits(seg.flags)] + Net16(seg.win) + [0, 0, 0, 0] + seg.text
  }

  predicate Sendable(seg: Segment) {
    TCP_HEADER + |seg.text| < TWO16
  }

  function Encode(self: Word, peer: Word, sport: Half, dport: Half, seg: Segment): Bytes
    requires Sendable(seg)
  {
    Completed(self, peer, Unchecked(sport, dport, seg))
  }

  datatype Arrived =
    | Discard
    | Malformed      // data offset beyond the segment: its text length wraps
    | Got(sport: Half, dport: Half, seg: Segment)

  /** `tcp_rx` at the host with address `unicast`, and the fields the arrival handler reads. */
  function Decode(unicast: Word, src: Word, dst: Word, segment: Bytes): Arrived
    requires |segment| < TWO16
  {
    if dst != unicast then Discard
    else if |segment| < TCP_HEADER then Discard
    else if TcpCksum(src, dst, segment) != 0 then Discard
    else
      var hlen := segment[12] / 16 * 4;
      if |segment| < hlen then Malformed
      else Got(GetRaw16(segment, 0), GetRaw16(segment, 2),
               Segment(GetNet32(segment, 4), GetNet32(segment, 8), FlagsOf(segment[13]), Get16(segment, 14),
                       segment[hlen..]))
  }

  // ----------------------------------------------------------- round trips

  lemma Binary(x: nat, y: nat)
    requires x < 2
    ensures (x + 2 * y) % 2 == x && (x + 2 * y) / 2 == y
  {
  }

  /** Dividing by two again and again. */
  lemma Halved(b: Byte)
    ensures b / 4 == b / 2 / 2 && b / 8 == b / 4 / 2 && b / 16 == b / 8 / 2 && b / 32 == b / 16 / 2
  {
  }

  lemma BitIs(n: nat, v: Byte)
    ensures BitIf(n % 2 == 1, v) == v * (n % 2)
  {
  }

  lemma FlagsRoundTrip(f: Flags)
    ensures FlagsOf(FlagBits(f)) == f
  {
    var b := FlagBits(f);
    var x5: nat := BitIf(f.urg, 1);
    var x4 := BitIf(f.ack, 1) + 2 * x5;
    var x3 := BitIf(f.psh, 1) + 2 * x4;
    var x2 := BitIf(f.rst, 1) + 2 * x3;
    var x1 := BitIf(f.syn, 1) + 2 * x2;
    assert b == BitIf(f.fin, 1) + 2 * x1;
    Binary(BitIf(f.fin, 1), x1);
    Binary(BitIf(f.syn, 1), x2);
    Binary(BitIf(f.rst, 1), x3);
    Binary(BitIf(f.psh, 1), x4);
    Binary(BitIf(f.ack, 1), x5);
    Halved(b);
  }

  lemma Net32RoundTrip(v: Word)
    ensures GetNet32(Net32(v), 0) == v
  {
    Halves(v);
  }

  lemma GetNet32Of(s: Bytes, p: nat, v: Word)
    requires p + 4 <= |s| && s[p..p + 4] == Net32(v)
    ensures GetNet32(s, p) == v
  {
    var t := s[p..p + 4];
    assert t[0] == s[p] && t[1] == s[p + 1] && t[2] == s[p + 2] && t[3] == s[p + 3];
    Net32RoundTrip(v);
  }

  lemma GetRaw16Of(s: Bytes, p: nat, v: Half)
    requires p + 2 <= |s| && s[p..p + 2] == Raw16(v)
    ensures GetRaw16(s, p) == v
  {
    var t := s[p..p + 2];
    assert t[0] == s[p] && t[1] == s[p + 1];
  }

  /** `s` carries this segment everywhere but in its checksum field. */
  ghost predicate Carries(s: Bytes, sport: Half, dport: Half, seg: Segment) {
    && |s| == TCP_HEADER + |seg.text|
    && s[0..2] == Raw16(sport) && s[2..4] == Raw16(dport)
    && s[4..8] == Net32(seg.seqno) && s[8..12] == Net32(seg.ackno)
    && s[12] == 0x50 && s[13] == FlagBits(seg.flags) && s[14..16] == Net16(seg.win)
    && s[20..] == seg.text
  }

  lemma UncheckedCarries(sport: Half, dport: Half, seg: Segment)
    ensures Carries(Unchecked(sport, dport, seg), sport, dport, seg)
  {
  }

  lemma CompletedCarries(self: Word, peer: Word, s: Bytes, sport: Half, dport: Half, seg: Segment)
    requires Sendable(seg) && Carries(s, sport, dport, seg)
    ensures Carries(Completed(self, peer, s), sport, dport, seg)
  {
    var c := Completed(self, peer, s);
    assert forall i :: 0 <= i < |s| && i != 16 && i != 17 ==> c[i] == s[i];
    assert c[0..2] == s[0..2] && c[2..4] == s[2..4] && c[4..8] == s[4..8] && c[8..12] == s[8..12];
    assert c[14..16] == s[14..16] && c[20..] == s[20..];
  }

  /** A segment that carries `seg` and checks to 0 is read as `seg`. */
  lemma DecodesTo(src: Word, dst: Word, s: Bytes, sport: Half, dport: Half, seg: Segment)
    requires Sendable(seg) && Carries(s, sport, dport, seg) && TcpCksum(src, dst, s) == 0
    ensures Decode(dst, src, dst, s) == Got(sport, dport, seg)
  {
    GetRaw16Of(s, 0, sport);
    GetRaw16Of(s, 2, dport);
    GetNet32Of(s, 4, seg.seqno);
    GetNet32Of(s, 8, seg.ackno);
    FlagsRoundTrip(seg.flags);
    Get16Of(s, 14, seg.win);
  }

  /** What `tcp_tx` sends is what arrives, for every segment and every address pair. */
  lemma SegmentRoundTrip(self: Word, peer: Word, sport: Half, dport: Half, seg: Segment)
    requires Sendable(seg)
    ensures Decode(peer, self, peer, Encode(self, peer, sport, dport, seg)) == Got(sport, dport, seg)
  {
    var u := Unchecked(sport, dport, seg);
    UncheckedCarries(sport, dport, seg);
    CompletedCarries(self, peer, u, sport, dport, seg);
    TcpFillVerifies(self, peer, u);
    DecodesTo(self, peer, Encode(self, peer, sport, dport, seg), sport, dport, seg);
  }

  /** A retransmission arrives as the same segment with the new acknowledgment number. */
  lemma RewriteRoundTrip(self: Word, peer: Word, s: Bytes, sport: Half, dport: Half, seg: Segment, ackno: Word)
    requires Sendable(seg) && Carries(s, sport, dport, seg)
    ensures var r := Readdressed(self, peer, s, Net32(ackno));
            && |r| < TWO16
            && Carries(r, sport, dport, seg.(ackno := ackno))
            && Decode(peer, self, peer, r) == Got(sport, dport, seg.(ackno := ackno))
  {
    var seg' := seg.(ackno := ackno);
    var t := s[..TCP_ACK] + Net32(ackno) + s[TCP_ACK + 4..];
    assert t[0..2] == s[0..2] && t[2..4] == s[2..4] && t[4..8] == s[4..8] && t[14..16] == s[14..16];
    assert t[8..12] == Net32(ackno) && t[20..] == s[20..];
    CompletedCarries(self, peer, t, sport, dport, seg');
    TcpFillVerifies(self, peer, t);
    DecodesTo(self, peer, Completed(self, peer, t), sport, dport, seg');
  }

  /** The datagram `ip_tx` makes of a segment. */
  function Carrier(self: Word, peer: Word, sport: Half, dport: Half, seg: Segment, id: Half): Datagram
    requires Sendable(seg)
  {
    Datagram(id, 0, PROTOCOL_TCP, self, peer, Encode(self, peer, sport, dport, seg))
  }

  lemma CarrierShape(self: Word, peer: Word, sport: Half, dport: Half, seg: Segment, id: Half)
    requires Sendable(seg)
    ensures var d := Carrier(self, peer, sport, dport, seg, id);
            && |d.payload| == TCP_HEADER + |seg.text| && d.offset == 0 && d.dst == peer
            && Decode(peer, d.src, d.dst, d.payload) == Got(sport, dport, seg)
  {
    UncheckedCarries(sport, dport, seg);
    SegmentRoundTrip(self, peer, sport, dport, seg);
  }

  /**
   * From `tcp_tx` to the peer's arrival handler: a segment no larger than
   * `tcp_api_send` makes them goes out as one datagram without fragment
   * fields, passes every check on the way up, and arrives as it was sent.
   */
  lemma SegmentDelivered(self: Word, peer: Word, sport: Half, dport: Half, seg: Segment,
                         id: Half, mtu: nat, pad: Bytes, broadcast: Word)
    requires HEADERS_MAX < mtu <= PACKET_MAX && |seg.text| <= mtu - HEADERS_MAX
    ensures var d := Carrier(self, peer, sport, dport, seg, id);
            && SentWhole(d, mtu) && Accepted(d, pad, peer, broadcast) && d.offset == 0
            && Decode(peer, d.src, d.dst, d.payload) == Got(sport, dport, seg)
  {
    CarrierShape(self, peer, sport, dport, seg, id);
    var d := Carrier(self, peer, sport, dport, seg, id);
    Unfragmented(d, mtu);
    AddresseeAccepts(d, pad, broadcast);
  }

  // ------------------------------------------------------ exactly what is taken

  /** The words of the segment, of its length and protocol, and of the addresses as tcp.c counts them, add up. */
  predicate AddsUp(src: Word, dst: Word, segment: Bytes) {
    (src / TWO16 + 2 * (src % TWO16) + dst / TWO16 + 0x600 + |segment| % 256 * 256 + |segment| / 256 + Sum(segment))
    % 65535 == 0
  }

  lemma AddsUpIff(src: Word, dst: Word, segment: Bytes)
    requires |segment| < TWO16
    ensures TcpCksum(src, dst, segment) == 0 <==> AddsUp(src, dst, segment)
  {
    CheckIff(Pseudo(src, dst, |segment|) + Sum(segment));
  }

  /** Whatever bytes come: exactly the segments for this host that add up are taken, a bad data offset apart. */
  lemma DecodeIff(unicast: Word, src: Word, dst: Word, segment: Bytes)
    requires |segment| < TWO16
    ensures var a := Decode(unicast, src, dst, segment);
            if dst == unicast && |segment| >= 20 && AddsUp(src, dst, segment)
            then if |segment| < 4 * (segment[12] / 16) then a == Malformed else a.Got?
            else a == Discard
  {
    AddsUpIff(src, dst, segment);
  }

  lemma Doubled(n: nat)
    ensures n == n % 2 + 2 * (n / 2)
  {
  }

  lemma Low64(low: nat, high: nat)
    requires low < 64
    ensures (low + 64 * high) % 64 == low
  {
  }

  lemma LowSix(b: Byte)
    ensures b % 64 == b % 2 + 2 * (b / 2 % 2) + 4 * (b / 4 % 2) + 8 * (b / 8 % 2) + 16 * (b / 16 % 2) + 32 * (b / 32 % 2)
  {
    Halved(b);
    var b1, b2, b3, b4, b5 := b / 2, b / 4, b / 8, b / 16, b / 32;
    Doubled(b);
    Doubled(b1);
    Doubled(b2);
    Doubled(b3);
    Doubled(b4);
    Doubled(b5);
    Low64(b % 2 + 2 * (b1 % 2) + 4 * (b2 % 2) + 8 * (b3 % 2) + 16 * (b4 % 2) + 32 * (b5 % 2), b5 / 2);
  }

  /** The six flags are the six low bits. */
  lemma BitsOf(b: Byte)
    ensures FlagBits(FlagsOf(b)) == b % 64
  {
    LowSix(b);
    BitIs(b, 1);
    BitIs(b / 2, 2);
    BitIs(b / 4, 4);
    BitIs(b / 8, 8);
    BitIs(b / 16, 16);
    BitIs(b / 32, 32);
  }

  /** The number in four bytes, the high one first. */
  function Number32(s: Bytes, p: nat): nat
    requires p + 4 <= |s|
  {
    0x1_0000 * Number16(s, p) + Number16(s, p + 2)
  }

  /** The fields stand in the bytes; the ports in memory order. */
  predicate Stands(s: Bytes, a: Arrived) {
    && a.Got? && |s| >= 20 && 4 * (s[12] / 16) <= |s|
    && a.sport == Number16([s[1], s[0]], 0) && a.dport == Number16([s[3], s[2]], 0)
    && a.seg.seqno == Number32(s, 4) && a.seg.ackno == Number32(s, 8)
    && a.seg.flags == FlagsOf(s[13]) && a.seg.win == Number16(s, 14)
    && a.seg.text == s[4 * (s[12] / 16)..]
  }

  /** What is taken is what the bytes say. */
  lemma GotReads(unicast: Word, src: Word, dst: Word, s: Bytes)
    requires |s| < TWO16 && Decode(unicast, src, dst, s).Got?
    ensures Stands(s, Decode(unicast, src, dst, s))
  {
    FieldsRead(s, 14);
  }

  /** A segment that adds up is discarded if one word anywhere in it is changed by anything but a multiple of 65535. */
  lemma CorruptedIsDiscarded(unicast: Word, src: Word, dst: Word, s: Bytes, p: nat, v: Half)
    requires |s| < TWO16 && AddsUp(src, dst, s) && p % 2 == 0 && p + 2 <= |s|
    requires (v - Pair(s[p], s[p + 1])) % 65535 != 0
    ensures Decode(unicast, src, dst, Put16(s, p, v)) == Discard
  {
    AddsUpIff(src, dst, s);
    ChangeIff(s, p, v, Pseudo(src, dst, |s|));
  }

  /** Nor can the last byte of an odd one be changed. */
  lemma OddCorruptedIsDiscarded(unicast: Word, src: Word, dst: Word, s: Bytes, b: Byte)
    requires |s| < TWO16 && AddsUp(src, dst, s) && |s| % 2 == 1 && b != s[|s| - 1]
    ensures Decode(unicast, src, dst, s[|s| - 1 := b]) == Discard
  {
    AddsUpIff(src, dst, s);
    OddChangeSeen(s, b, Pseudo(src, dst, |s|));
  }
}
