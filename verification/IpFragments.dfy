/** Fragmentation by `ip_tx` (ip.c:477-485). */
module IpFragments {
  import opened Checksum
  import opened IpPacket

  /** The most payload one packet carries. */
  function Unit(mtu: nat): nat
    requires mtu > IP_HEADER
  {
    mtu - IP_HEADER
  }

  function SliceSize(len: nat, unit: nat, done: nat): nat
    requires done < len
  {
    if len - done <= unit then len - done else unit
  }

  /** The fragment that starts after `done` bytes of the payload of `whole`. */
  function FragmentAt(whole: Datagram, unit: nat, done: nat): Datagram
    requires done < |whole.payload|
  {
    var slen := SliceSize(|whole.payload|, unit, done);
    var flag := if done + slen < |whole.payload| then 0x2000 else 0;
    whole.(offset := flag + done / 8 % 0x2000, payload := whole.payload[done..done + slen])
  }

  function FragmentsFrom(whole: Datagram, unit: nat, done: nat): seq<Datagram>
    requires unit > 0
    decreases |whole.payload| - done
  {
    if done >= |whole.payload| then []
    else [FragmentAt(whole, unit, done)]
         + FragmentsFrom(whole, unit, done + SliceSize(|whole.payload|, unit, done))
  }

  function Fragments(whole: Datagram, unit: nat): seq<Datagram>
    requires unit > 0
  {
    FragmentsFrom(whole, unit, 0)
  }

  /** The loop of `ip_tx`; `whole.offset` is not used. */
  method IpTx(whole: Datagram, mtu: nat) returns (packets: seq<Bytes>)
    requires IP_HEADER < mtu <= PACKET_MAX
    ensures var fs := Fragments(whole, Unit(mtu));
            |packets| == |fs|
            && forall i :: 0 <= i < |fs| ==> IP_HEADER + |fs[i].payload| <= mtu && packets[i] == Packet(fs[i])
  {
    var len := |whole.payload|;
    ghost var fs := Fragments(whole, Unit(mtu));
    packets := [];
    var done := 0;
    while done < len
      invariant 0 <= done <= len
      invariant |packets| <= |fs| && fs[|packets|..] == FragmentsFrom(whole, Unit(mtu), done)
      invariant forall i :: 0 <= i < |packets| ==>
                  IP_HEADER + |fs[i].payload| <= mtu && packets[i] == Packet(fs[i])
    {
      var slen := if len - done <= mtu - IP_HEADER then len - done else mtu - IP_HEADER;
      var flag := if done + slen < len then 0x2000 else 0x0000;
      var offset := flag + done / 8 % 0x2000;
      var f := whole.(offset := offset, payload := whole.payload[done..done + slen]);
      assert f == FragmentAt(whole, Unit(mtu), done);
      assert fs[|packets|..][0] == f && fs[|packets|..][1..] == fs[|packets| + 1..];
      packets := packets + [Packet(f)];
      done := done + slen;
    }
  }

  // ------------------------------------------------ fragments by their number

  /** Where fragment `k` begins. */
  function Begin(k: nat, unit: nat): nat {
    if k == 0 then 0 else Begin(k - 1, unit) + unit
  }

  lemma {:induction false} BeginGrows(j: nat, k: nat, unit: nat)
    requires j <= k
    ensures Begin(j, unit) <= Begin(k, unit)
    ensures j < k ==> Begin(j, unit) + unit <= Begin(k, unit)
  {
    if j < k { BeginGrows(j, k - 1, unit); }
  }

  lemma {:induction false} BeginAligned(k: nat, unit: nat)
    requires unit % 8 == 0
    ensures Begin(k, unit) % 8 == 0
  {
    if k > 0 { BeginAligned(k - 1, unit); }
  }

  lemma {:induction false} BeginAtLeast(k: nat, unit: nat)
    requires unit > 0
    ensures k <= Begin(k, unit)
  {
    if k > 0 { BeginAtLeast(k - 1, unit); }
  }

  /** Fragment `k` of `whole` exists. */
  predicate IsIndex(len: nat, unit: nat, k: nat) {
    Begin(k, unit) < len
  }

  function EndOf(len: nat, unit: nat, k: nat): nat
    requires IsIndex(len, unit, k)
  {
    Begin(k, unit) + SliceSize(len, unit, Begin(k, unit))
  }

  /** Every byte of the payload lies in some fragment. */
  lemma Locate(len: nat, unit: nat, p: nat) returns (k: nat)
    requires unit > 0 && p < len
    ensures IsIndex(len, unit, k) && Begin(k, unit) <= p < EndOf(len, unit, k)
  {
    k := 0;
    while Begin(k, unit) + unit <= p
      invariant Begin(k, unit) <= p
      decreases p - Begin(k, unit)
    {
      k := k + 1;
    }
  }

  /** ... and in one only. */
  lemma OnlyOne(len: nat, unit: nat, p: nat, j: nat, k: nat)
    requires IsIndex(len, unit, j) && Begin(j, unit) <= p < EndOf(len, unit, j)
    requires IsIndex(len, unit, k) && Begin(k, unit) <= p < EndOf(len, unit, k)
    ensures j == k
  {
    if j < k { BeginGrows(j, k, unit); }
    if k < j { BeginGrows(k, j, unit); }
  }

  lemma {:induction false} FragmentsFromIndex(whole: Datagram, unit: nat, k: nat, i: nat)
    requires unit > 0
    requires i < |FragmentsFrom(whole, unit, Begin(k, unit))|
    ensures IsIndex(|whole.payload|, unit, k + i)
    ensures FragmentsFrom(whole, unit, Begin(k, unit))[i] == FragmentAt(whole, unit, Begin(k + i, unit))
    decreases i
  {
    var len, done := |whole.payload|, Begin(k, unit);
    if i > 0 {
      if len - done > unit {
        assert done + SliceSize(len, unit, done) == Begin(k + 1, unit);
        FragmentsFromIndex(whole, unit, k + 1, i - 1);
      }
    }
  }

  lemma {:induction false} FragmentsCount(whole: Datagram, unit: nat, k: nat, i: nat)
    requires unit > 0 && IsIndex(|whole.payload|, unit, k + i)
    ensures i < |FragmentsFrom(whole, unit, Begin(k, unit))|
    decreases i
  {
    BeginGrows(k, k + i, unit);
    if i > 0 {
      BeginGrows(k + 1, k + i, unit);
      FragmentsCount(whole, unit, k + 1, i - 1);
    }
  }

  /** The fragments of `ip_tx` are exactly those that begin at `0, unit, 2 * unit, ...`. */
  lemma FragmentsByIndex(whole: Datagram, unit: nat, k: nat)
    requires unit > 0
    ensures k < |Fragments(whole, unit)| <==> IsIndex(|whole.payload|, unit, k)
    ensures k < |Fragments(whole, unit)| ==>
              Fragments(whole, unit)[k] == FragmentAt(whole, unit, Begin(k, unit))
  {
    if k < |Fragments(whole, unit)| { FragmentsFromIndex(whole, unit, 0, k); }
    if IsIndex(|whole.payload|, unit, k) { FragmentsCount(whole, unit, 0, k); }
  }

  /** A payload goes out as one packet without fragment fields exactly when it fits. */
  lemma OneDatagramIff(whole: Datagram, unit: nat)
    requires unit > 0
    ensures Fragments(whole, unit) == [whole.(offset := 0)] <==> 0 < |whole.payload| <= unit
  {
    var len := |whole.payload|;
    if 0 < len <= unit {
      assert FragmentAt(whole, unit, 0) == whole.(offset := 0);
      assert FragmentsFrom(whole, unit, len) == [];
    } else if len > unit {
      assert Fragments(whole, unit)[0].payload == whole.payload[0..unit];
    }
  }

  /** `ip_tx` sends `d` in one packet, as it is. */
  predicate SentWhole(d: Datagram, mtu: nat) {
    mtu > IP_HEADER && Fragments(d, Unit(mtu)) == [d]
  }

  lemma Unfragmented(d: Datagram, mtu: nat)
    requires 0 < |d.payload| && IP_HEADER + |d.payload| <= mtu && d.offset == 0
    ensures SentWhole(d, mtu)
  {
    OneDatagramIff(d, Unit(mtu));
  }
}
