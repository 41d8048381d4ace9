/**
 * IPv4 packets: the header built by `ip_tx_core` (ip.c:411-442) and the
 * validation and unpacking done by `ip_rx` (ip.c:307-373).
 */
module IpPacket {
  import opened Words
  import opened Checksum

  const IP_HEADER: nat := 20
  const IP_SUM: nat := 10
  const PACKET_MAX: nat := 4096
  const BROADCAST: Word := 0xffff_ffff

  /** What a packet carries; `offset` is the 16-bit field with its flags. */
  datatype Datagram = Datagram(id: Half, offset: Half, protocol: Byte, src: Word, dst: Word, payload: Bytes)

  // ------------------------------------------------------ fields in memory

  /** `hton16` followed by a store on a little-endian host: the high byte first. */
  function Net16(v: Half): Bytes {
    [v / 256, v % 256]
  }

  /** A store as it is: the low byte first. */
  function Raw16(v: Half): Bytes {
    [v % 256, v / 256]
  }

  /** Addresses are kept in memory order and stored as they are. */
  function Raw32(v: Word): Bytes {
    Raw16(v % TWO16) + Raw16(v / TWO16)
  }

  /** A load followed by `ntoh16`. */
  function Get16(s: Bytes, p: nat): Half
    requires p + 2 <= |s|
  {
    Pair(s[p + 1], s[p])
  }

  function Get32(s: Bytes, p: nat): Word
    requires p + 4 <= |s|
  {
    var lo: int := Pair(s[p], s[p + 1]);
    var hi: int := Pair(s[p + 2], s[p + 3]);
    lo + TWO16 * hi
  }

  // -------------------------------------------------------------- sending

  /** The header with its checksum field cleared. */
  function Header(d: Datagram): Bytes
    requires IP_HEADER + |d.payload| < TWO16
  {
    [0x45, 0] + Net16(IP_HEADER + |d.payload|) + Net16(d.id) + Net16(d.offset)
    + [0xff, d.protocol, 0, 0] + Raw32(d.src) + Raw32(d.dst)
  }

  function Packet(d: Datagram): Bytes
    requires IP_HEADER + |d.payload| < TWO16
  {
    var h := Header(d);
    Put16(h, IP_SUM, CksumOf(h, 0)) + d.payload
  }

  // ------------------------------------------------------------ receiving

  datatype Verdict =
    | Drop
    | Wraps          // total length below the header length: `plen` wraps
    | Take(d: Datagram)

  predicate Addressed(dst: Word, unicast: Word, broadcast: Word) {
    dst == unicast || dst == broadcast || dst == BROADCAST
  }

  /** `ip_rx` up to the reassembly step. */
  function Receive(dgram: Bytes, unicast: Word, broadcast: Word): Verdict {
    if |dgram| < IP_HEADER then Drop
    else if dgram[0] / 16 != 4 then Drop
    else
      var hlen := dgram[0] % 16 * 4;
      var total := Get16(dgram, 2);
      if |dgram| < hlen || |dgram| < total then Drop
      else if CksumOf(dgram[..hlen], 0) != 0 then Drop
      else if dgram[8] == 0 then Drop
      else if !Addressed(Get32(dgram, 16), unicast, broadcast) then Drop
      else if total < hlen then Wraps
      else Take(Datagram(Get16(dgram, 4), Get16(dgram, 6), dgram[9],
                         Get32(dgram, 12), Get32(dgram, 16), dgram[hlen..total]))
  }

  // ----------------------------------------------------------- round trip

  lemma Net16RoundTrip(v: Half)
    ensures Get16(Net16(v), 0) == v
  {
  }

  lemma Raw16RoundTrip(v: Half)
    ensures Pair(Raw16(v)[0], Raw16(v)[1]) == v
  {
  }

  lemma Halves(v: Word)
    ensures v == v % TWO16 + TWO16 * (v / TWO16)
  {
  }

  lemma Raw32RoundTrip(v: Word)
    ensures Get32(Raw32(v), 0) == v
  {
    Raw16RoundTrip(v % TWO16);
    Raw16RoundTrip(v / TWO16);
    Halves(v);
  }

  /** `h` has the fields of `d`, whatever its checksum field holds. */
  predicate Describes(h: Bytes, d: Datagram)
    requires IP_HEADER + |d.payload| < TWO16
  {
    && |h| == IP_HEADER
    && h[0] == 0x45 && h[8] == 0xff && h[9] == d.protocol
    && h[2..4] == Net16(IP_HEADER + |d.payload|)
    && h[4..6] == Net16(d.id) && h[6..8] == Net16(d.offset)
    && h[12..16] == Raw32(d.src) && h[16..20] == Raw32(d.dst)
  }

  lemma HeaderDescribes(d: Datagram)
    requires IP_HEADER + |d.payload| < TWO16
    ensures Describes(Header(d), d) && Clear16(Header(d), IP_SUM)
  {
    var len, id, offset := Net16(IP_HEADER + |d.payload|), Net16(d.id), Net16(d.offset);
    var src, dst := Raw32(d.src), Raw32(d.dst);
    assert Header(d) == [0x45, 0, len[0], len[1], id[0], id[1], offset[0], offset[1], 0xff, d.protocol, 0, 0,
                         src[0], src[1], src[2], src[3], dst[0], dst[1], dst[2], dst[3]];
  }

  lemma FilledDescribes(h: Bytes, d: Datagram, v: Half)
    requires IP_HEADER + |d.payload| < TWO16 && Describes(h, d)
    ensures Describes(Put16(h, IP_SUM, v), d)
  {
    var f := Put16(h, IP_SUM, v);
    assert f[2..4] == h[2..4] && f[4..6] == h[4..6] && f[6..8] == h[6..8];
    assert f[12..16] == h[12..16] && f[16..20] == h[16..20];
  }

  /** The filled header describes the datagram and checks to 0. */
  lemma FilledHeader(d: Datagram)
    requires IP_HEADER + |d.payload| < TWO16
    ensures |Header(d)| == IP_HEADER
    ensures var f := Put16(Header(d), IP_SUM, CksumOf(Header(d), 0));
            Describes(f, d) && CksumOf(f, 0) == 0
  {
    HeaderDescribes(d);
    FilledDescribes(Header(d), d, CksumOf(Header(d), 0));
    FillVerifies(Header(d), IP_SUM, 0);
  }

  lemma Get16Of(s: Bytes, p: nat, v: Half)
    requires p + 2 <= |s| && s[p..p + 2] == Net16(v)
    ensures Get16(s, p) == v
  {
    assert s[p..p + 2][0] == s[p] && s[p..p + 2][1] == s[p + 1];
    Net16RoundTrip(v);
  }

  lemma Get32Of(s: Bytes, p: nat, v: Word)
    requires p + 4 <= |s| && s[p..p + 4] == Raw32(v)
    ensures Get32(s, p) == v
  {
    var t := s[p..p + 4];
    assert t[0] == s[p] && t[1] == s[p + 1] && t[2] == s[p + 2] && t[3] == s[p + 3];
    Raw32RoundTrip(v);
  }

  /**
   * Every packet built by the sender passes every check of the receiver and
   * unpacks to what was sent, whatever the link layer pads it with, unless it
   * is addressed to another host.
   */
  lemma PacketRoundTrip(d: Datagram, pad: Bytes, unicast: Word, broadcast: Word)
    requires IP_HEADER + |d.payload| < TWO16
    ensures Receive(Packet(d) + pad, unicast, broadcast)
            == if Addressed(d.dst, unicast, broadcast) then Take(d) else Drop
  {
    FilledHeader(d);
    var f := Put16(Header(d), IP_SUM, CksumOf(Header(d), 0));
    var p := Packet(d) + pad;
    assert p == f + (d.payload + pad);
    assert p[..IP_HEADER] == f;
    assert p[2..4] == f[2..4] && p[4..6] == f[4..6] && p[6..8] == f[6..8];
    assert p[12..16] == f[12..16] && p[16..20] == f[16..20];
    Get16Of(p, 2, IP_HEADER + |d.payload|);
    Get16Of(p, 4, d.id);
    Get16Of(p, 6, d.offset);
    Get32Of(p, 12, d.src);
    Get32Of(p, 16, d.dst);
    assert p[IP_HEADER..IP_HEADER + |d.payload|] == d.payload;
  }

  /** The host with address `unicast` takes the packet for `d`, padded, as `d`. */
  predicate Accepted(d: Datagram, pad: Bytes, unicast: Word, broadcast: Word) {
    IP_HEADER + |d.payload| < TWO16 && Receive(Packet(d) + pad, unicast, broadcast) == Take(d)
  }

  lemma AddresseeAccepts(d: Datagram, pad: Bytes, broadcast: Word)
    requires IP_HEADER + |d.payload| < TWO16
    ensures Accepted(d, pad, d.dst, broadcast)
  {
    PacketRoundTrip(d, pad, d.dst, broadcast);
  }

  // ------------------------------------------------------ exactly what is taken

  function HeaderLength(dgram: Bytes): nat
    requires |dgram| > 0
  {
    4 * (dgram[0] % 16)
  }

  function TotalLength(dgram: Bytes): nat
    requires |dgram| >= IP_HEADER
  {
    Number16(dgram, 2)
  }

  /** The number in two bytes, the high one first. */
  function Number16(s: Bytes, p: nat): nat
    requires p + 2 <= |s|
  {
    var hi: int := s[p];
    256 * hi + s[p + 1]
  }

  /** The address in four bytes, in memory order. */
  function Address(s: Bytes, p: nat): nat
    requires p + 4 <= |s|
  {
    var a, b, c, d: int := s[p], s[p + 1], s[p + 2], s[p + 3];
    a + 256 * b + 0x1_0000 * c + 0x100_0000 * d
  }

  /** A packet of version 4 for us, all there, with a header whose words add up and a TTL left. */
  predicate WellFormed(dgram: Bytes, unicast: Word, broadcast: Word) {
    && |dgram| >= IP_HEADER && dgram[0] / 16 == 4
    && HeaderLength(dgram) <= |dgram| && TotalLength(dgram) <= |dgram|
    && OnesSum(dgram[..HeaderLength(dgram)]) == 65535
    && dgram[8] > 0 && Address(dgram, 16) in {unicast, broadcast, 0xffff_ffff}
  }

  lemma AddsUpIff(h: Bytes)
    ensures CksumOf(h, 0) == 0 <==> OnesSum(h) == 65535
  {
    DeferredCarries(h);
  }

  /** Whatever bytes come: exactly the well-formed packets are taken, those that end inside their header apart. */
  lemma ReceiveIff(dgram: Bytes, unicast: Word, broadcast: Word)
    ensures var v := Receive(dgram, unicast, broadcast);
            if WellFormed(dgram, unicast, broadcast)
            then if TotalLength(dgram) < HeaderLength(dgram) then v == Wraps else v.Take?
            else v == Drop
  {
    if |dgram| >= IP_HEADER {
      if HeaderLength(dgram) <= |dgram| { AddsUpIff(dgram[..HeaderLength(dgram)]); }
    }
  }

  lemma FieldsRead(s: Bytes, p: nat)
    requires p + 2 <= |s|
    ensures Get16(s, p) == Number16(s, p)
    ensures p + 4 <= |s| ==> Get32(s, p) == Address(s, p)
  {
  }

  /** `d` is what the bytes say: its fields stand in the header and its payload behind it. */
  predicate Stands(dgram: Bytes, d: Datagram)
    requires |dgram| >= IP_HEADER
  {
    && d.id == Number16(dgram, 4) && d.offset == Number16(dgram, 6) && d.protocol == dgram[9]
    && d.src == Address(dgram, 12) && d.dst == Address(dgram, 16)
    && HeaderLength(dgram) <= TotalLength(dgram) <= |dgram|
    && d.payload == dgram[HeaderLength(dgram)..TotalLength(dgram)]
  }

  /** What is taken is what the bytes say. */
  lemma TakenReads(dgram: Bytes, unicast: Word, broadcast: Word)
    requires Receive(dgram, unicast, broadcast).Take?
    ensures |dgram| >= IP_HEADER && Stands(dgram, Receive(dgram, unicast, broadcast).d)
  {
    FieldsRead(dgram, 2);
    FieldsRead(dgram, 4);
    FieldsRead(dgram, 6);
    FieldsRead(dgram, 12);
    FieldsRead(dgram, 16);
  }

  /**
   * A packet built by the sender is dropped if one word of its header is
   * changed on the way by anything but a multiple of 65535. The first byte, which
   * says how long the header is, has to stay.
   */
  lemma CorruptedIsDropped(d: Datagram, pad: Bytes, p: nat, v: Half, unicast: Word, broadcast: Word)
    requires IP_HEADER + |d.payload| < TWO16 && p % 2 == 0 && p + 2 <= IP_HEADER && (p == 0 ==> v % 256 == 0x45)
    requires |Packet(d)| >= IP_HEADER && (v - Pair(Packet(d)[p], Packet(d)[p + 1])) % 65535 != 0
    ensures Receive(Put16(Packet(d) + pad, p, v), unicast, broadcast) == Drop
  {
    FilledHeader(d);
    var f := Put16(Header(d), IP_SUM, CksumOf(Header(d), 0));
    ChangeIff(f, p, v, 0);
    PutFront(f, d.payload, pad, p, v);
    BadSumDropped(Put16(Packet(d) + pad, p, v), unicast, broadcast);
  }

  lemma PutFront(f: Bytes, payload: Bytes, pad: Bytes, p: nat, v: Half)
    requires |f| == IP_HEADER && p + 2 <= IP_HEADER
    ensures Put16(f + payload + pad, p, v)[..IP_HEADER] == Put16(f, p, v)
  {
  }

  lemma BadSumDropped(q: Bytes, unicast: Word, broadcast: Word)
    requires |q| >= IP_HEADER && q[0] == 0x45 && CksumOf(q[..IP_HEADER], 0) != 0
    ensures Receive(q, unicast, broadcast) == Drop
  {
  }
}
