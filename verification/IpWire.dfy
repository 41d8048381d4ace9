/**
 * From the bytes `ip_tx` sends to the payload the receiver hands up: packets of
 * one datagram, padded by the link, in any order and with duplicates, among
 * whatever else arrives.
 */
module IpWire {
  import opened Words
  import opened Checksum
  import opened IpPacket
  import opened IpFragments
  import opened IpReassembly
  import opened IpRoundTrip
  import opened IpSlots
  import opened Wrappers

  /** Bytes from the link, and the clock readings while they are processed. */
  datatype Frame = Frame(bytes: Bytes, now: int, later: int)

  /** What a verdict adds to the arrivals. */
  function Admitted(v: Verdict, f: Frame): seq<Arrival> {
    match v
    case Take(d) => [Arrival(d, f.now, f.later)]
    case _ => []
  }

  /** What the receiver at `self` gets past its checks. */
  function Arrivals(frames: seq<Frame>, self: Word, broadcast: Word): seq<Arrival>
    decreases |frames|
  {
    if frames == [] then []
    else
      var f := Last(frames);
      Arrivals(Init(frames), self, broadcast)
      + Admitted(Receive(f.bytes, self, broadcast), f)
  }

  /** `f` is packet `tag` of those `IpTx` sends for `whole`, padded, or no packet of it at all. */
  ghost predicate Labelled(f: Frame, tag: Option<nat>, whole: Datagram, mtu: nat, self: Word, broadcast: Word)
    requires IP_HEADER < mtu <= PACKET_MAX
  {
    match tag
    case Some(k) =>
      var fs := Fragments(whole, Unit(mtu));
      k < |fs| && IP_HEADER + |fs[k].payload| < TWO16 && exists pad :: f.bytes == Packet(fs[k]) + pad
    case None =>
      var v := Receive(f.bytes, self, broadcast);
      v.Take? ==> !SameHeader(v.d, whole) && Sound(v.d)
  }

  ghost predicate AllLabelled(frames: seq<Frame>, labels: seq<Option<nat>>, whole: Datagram, mtu: nat,
                              self: Word, broadcast: Word)
    requires IP_HEADER < mtu <= PACKET_MAX
  {
    && |labels| == |frames|
    && forall i :: 0 <= i < |frames| ==> Labelled(frames[i], labels[i], whole, mtu, self, broadcast)
  }

  function Numbers(labels: seq<Option<nat>>): seq<nat>
    decreases |labels|
  {
    if labels == [] then []
    else Numbers(Init(labels)) + match Last(labels) case Some(k) => [k] case None => []
  }

  lemma PacketTaken(f: Frame, k: nat, whole: Datagram, mtu: nat, broadcast: Word)
    requires IP_HEADER < mtu <= PACKET_MAX && Cut(|whole.payload|, Unit(mtu))
    requires Labelled(f, Some(k), whole, mtu, whole.dst, broadcast)
    ensures IsIndex(|whole.payload|, Unit(mtu), k)
    ensures Receive(f.bytes, whole.dst, broadcast) == Take(FragmentAt(whole, Unit(mtu), Begin(k, Unit(mtu))))
  {
    var d := Fragments(whole, Unit(mtu))[k];
    FragmentsByIndex(whole, Unit(mtu), k);
    var pad :| f.bytes == Packet(d) + pad;
    AddresseeAccepts(d, pad, broadcast);
  }

  /** Our packets arrive as our fragments, in the order of the labels. */
  lemma {:induction false} OursArrive(frames: seq<Frame>, labels: seq<Option<nat>>, whole: Datagram, mtu: nat,
                                      broadcast: Word, key: Key)
    requires IP_HEADER < mtu <= PACKET_MAX && Names(whole, key) && Cut(|whole.payload|, Unit(mtu))
    requires AllLabelled(frames, labels, whole, mtu, whole.dst, broadcast)
    ensures var run := Arrivals(frames, whole.dst, broadcast);
            && AllSound(run)
            && Fragmentary(Mine(run, key), whole, Unit(mtu), Numbers(labels))
    decreases |frames|
  {
    if frames != [] {
      OursArrive(Init(frames), Init(labels), whole, mtu, broadcast, key);
      var f := Last(frames);
      assert Labelled(f, Last(labels), whole, mtu, whole.dst, broadcast);
      if Last(labels).Some? {
        PacketTaken(f, Last(labels).value, whole, mtu, broadcast);
        Decoded(whole, Unit(mtu), Last(labels).value);
      }
      OneMore(Arrivals(Init(frames), whole.dst, broadcast), f, Receive(f.bytes, whole.dst, broadcast), Last(labels),
              whole, Unit(mtu), key, Numbers(Init(labels)));
    }
  }

  /** One arrival more, which is fragment `k` of `whole` or none of it. */
  lemma MineGrows(before: seq<Arrival>, a: Arrival, tag: Option<nat>, whole: Datagram, unit: nat, key: Key,
                  order: seq<nat>)
    requires Names(whole, key) && AllSound(before) && Sound(a.d) && unit > 0
    requires Fragmentary(Mine(before, key), whole, unit, order)
    requires match tag
             case Some(k) => IsIndex(|whole.payload|, unit, k) && a.d == FragmentAt(whole, unit, Begin(k, unit))
             case None => !SameHeader(a.d, whole)
    ensures AllSound(before + [a])
    ensures Fragmentary(Mine(before + [a], key), whole, unit,
                        order + match tag case Some(k) => [k] case None => [])
  {
    var run := before + [a];
    assert Init(run) == before && Last(run) == a;
    if tag.Some? {
      assert Mine(run, key) == Mine(before, key) + [a];
    } else {
      assert Mine(run, key) == Mine(before, key) && order + [] == order;
    }
  }

  lemma OneMore(before: seq<Arrival>, f: Frame, v: Verdict, tag: Option<nat>, whole: Datagram, unit: nat, key: Key,
                order: seq<nat>)
    requires Names(whole, key) && AllSound(before) && unit > 0 && Fragmentary(Mine(before, key), whole, unit, order)
    requires match tag
             case Some(k) =>
               IsIndex(|whole.payload|, unit, k) && v == Take(FragmentAt(whole, unit, Begin(k, unit))) && Sound(v.d)
             case None => v.Take? ==> !SameHeader(v.d, whole) && Sound(v.d)
    ensures AllSound(before + Admitted(v, f))
    ensures Fragmentary(Mine(before + Admitted(v, f), key), whole, unit,
                        order + match tag case Some(k) => [k] case None => [])
  {
    if v.Take? {
      MineGrows(before, Arrival(v.d, f.now, f.later), tag, whole, unit, key, order);
    } else {
      assert before + [] == before && order + [] == order;
    }
  }

  /**
   * Bytes to payload: from an empty table, among frames of at most eight
   * datagrams within thirty seconds, each packet of `whole` that arrives delivers
   * its exact payload if it completes the packets received since the last
   * delivery, and nothing otherwise.
   */
  lemma BytesToPayload(frames: seq<Frame>, labels: seq<Option<nat>>, whole: Datagram, mtu: nat, broadcast: Word,
                       start: int)
    requires IP_HEADER < mtu <= PACKET_MAX && Cut(|whole.payload|, Unit(mtu))
    requires AllLabelled(frames, labels, whole, mtu, whole.dst, broadcast)
    requires frames != [] && Last(labels).Some?
    requires var run := Arrivals(frames, whole.dst, broadcast);
             Brief(run, start) && |KeysIn(run)| <= CONTEXTS_MAX
    ensures var run := Arrivals(frames, whole.dst, broadcast);
            var order := Numbers(labels);
            && run != [] && order != [] && AllSound(run) && LastStep(EMPTY, run).Some?
            && LastStep(EMPTY, run).value.out
               == if Got(|whole.payload|, Unit(mtu), Init(order)) + {Last(order)} == All(|whole.payload|, Unit(mtu))
                  then Some(whole.payload) else None
  {
    var run := Arrivals(frames, whole.dst, broadcast);
    var key := Key(whole.src, whole.dst, whole.id, whole.protocol);
    OursArrive(frames, labels, whole, mtu, broadcast, key);
    assert Labelled(Last(frames), Last(labels), whole, mtu, whole.dst, broadcast);
    PacketTaken(Last(frames), Last(labels).value, whole, mtu, broadcast);
    Decoded(whole, Unit(mtu), Last(labels).value);
    BriefRoundTrip(run, start, whole, key, Unit(mtu), Numbers(labels));
  }
}
