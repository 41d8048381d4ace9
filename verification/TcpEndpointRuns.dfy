/** Guarantees of one endpoint over every run, whatever segments the network hands it. */
module TcpEndpointRuns {
  import opened Words
  import opened TcpModel
  import opened TcpHost
  import opened TcpLocal

  predicate EndpointStep(h: Host, e: Event, h': Host) {
    && Enabled(h, e)
    && (e.Arrival? ==> SaneSyn(h.cb, e.seg))
    && h' == Apply(h, e).h
    && StreamOk(h'.st)
  }

  predicate EndpointStepAt(hs: seq<Host>, es: seq<Event>, i: nat)
    requires i < |es| && |hs| == |es| + 1
  {
    EndpointStep(hs[i], es[i], hs[i + 1])
  }

  predicate IsEndpointRun(hs: seq<Host>, es: seq<Event>) {
    && |hs| == |es| + 1
    && Initial(hs[0])
    && forall i :: 0 <= i < |es| ==> EndpointStepAt(hs, es, i)
  }

  lemma InitialLocal(h: Host)
    requires Initial(h)
    ensures Local(h)
  {
  }

  lemma StepLocal(h: Host, e: Event, h': Host)
    requires Local(h) && EndpointStep(h, e, h')
    ensures Local(h')
  {
    StepKeepsLocal(h, e);
  }

  lemma AtLocal(hs: seq<Host>, es: seq<Event>, i: nat)
    requires IsEndpointRun(hs, es) && i < |es| && Local(hs[i])
    ensures Local(hs[i + 1])
  {
    assert EndpointStepAt(hs, es, i);
    StepLocal(hs[i], es[i], hs[i + 1]);
  }

  lemma {:induction false} EndpointLocal(hs: seq<Host>, es: seq<Event>, i: nat)
    requires IsEndpointRun(hs, es) && i < |hs|
    ensures Local(hs[i])
    decreases i
  {
    if i == 0 {
      InitialLocal(hs[0]);
    } else {
      EndpointLocal(hs, es, i - 1);
      AtLocal(hs, es, i - 1);
    }
  }

  lemma BegunStep(hs: seq<Host>, es: seq<Event>, i: nat)
    requires IsEndpointRun(hs, es) && i < |es| && hs[i].begun
    ensures hs[i + 1].begun && (hs[i].cb.state == Closed ==> hs[i + 1].cb.state == Closed)
  {
    assert EndpointStepAt(hs, es, i);
  }

  lemma {:induction false} BegunStays(hs: seq<Host>, es: seq<Event>, i: nat, j: nat)
    requires IsEndpointRun(hs, es) && i <= j < |hs| && hs[i].begun
    ensures hs[j].begun
    decreases j
  {
    if i < j {
      BegunStays(hs, es, i, j - 1);
      BegunStep(hs, es, j - 1);
    }
  }

  /** A connection that has been closed stays closed. */
  lemma StaysClosed(hs: seq<Host>, es: seq<Event>, i: nat, j: nat)
    requires IsEndpointRun(hs, es) && i < j < |hs| && hs[i].begun && hs[j - 1].cb.state == Closed
    ensures hs[j].cb.state == Closed
  {
    BegunStays(hs, es, i, j - 1);
    BegunStep(hs, es, j - 1);
  }

  // ---------------------------------------------------------- send buffer

  lemma TrueRoom(c: Tcb)
    requires c.sndUna <= c.sndNxt <= c.sndUna + SND_BUF_SIZE
    ensures Room(c) == SND_BUF_SIZE - (c.sndNxt - c.sndUna)
  {
  }

  /** Unacknowledged sequence space never exceeds the send buffer, so the 16-bit
      room computed by `tcp_api_send` is the true one. */
  lemma SendBufferBound(hs: seq<Host>, es: seq<Event>, i: nat)
    requires IsEndpointRun(hs, es) && i < |hs| && hs[i].cb.state != Closed && hs[i].cb.state != Listen
    ensures var c := hs[i].cb;
            && c.sndUna <= c.sndNxt
            && c.sndNxt - c.sndUna <= SND_BUF_SIZE + (if FinSent(c.state) then 1 else 0)
            && (CanSend(c) ==> Room(c) == SND_BUF_SIZE - (c.sndNxt - c.sndUna))
  {
    EndpointLocal(hs, es, i);
    var c := hs[i].cb;
    assert Numbers(hs[i].st.isn, hs[i].st.fin, c);
    if CanSend(c) { TrueRoom(c); }
  }

  /** The clause of `SendBufferBound` that a SYN can break: tcp.c believes the acknowledgement
      field of a SYN without ACK, so `snd.una <= snd.nxt` survives it exactly if the field is no larger. */
  lemma SynFieldIff(c: Tcb, seg: Segment, now: Time, isn: Word)
    requires c.state == SynSent && c.sndUna == c.iss && c.sndNxt == c.iss + 1
    requires seg.flags.syn && !seg.flags.ack && !seg.flags.rst
    ensures !Overruns(c, seg, now, isn)
    ensures var d := Arrive(c, seg, now, isn).cb;
            d.sndUna <= d.sndNxt <==> seg.ackno <= c.sndNxt
  {
  }

  /** The text of a stretch of the queue. */
  function TextOf(q: seq<Entry>): seq<Byte> {
    if q == [] then [] else q[0].seg.text + TextOf(q[1..])
  }

  predicate DataEntry(e: Entry, mtu: nat) {
    e.seg.flags == PSH_ACK && 0 < |e.seg.text| <= mtu - HEADERS_MAX
  }

  /** The new tail of the queue: data segments that spell out `bytes`. */
  predicate Appends(q: seq<Entry>, q': seq<Entry>, bytes: seq<Byte>, mtu: nat) {
    && q <= q'
    && TextOf(q'[|q|..]) == bytes
    && forall j :: |q| <= j < |q'| ==> DataEntry(q'[j], mtu)
  }

  lemma AppendsMore(q: seq<Entry>, e: Entry, q': seq<Entry>, bytes: seq<Byte>, mtu: nat)
    requires DataEntry(e, mtu) && Appends(q + [e], q', bytes, mtu)
    ensures Appends(q, q', e.seg.text + bytes, mtu)
  {
    assert q'[|q|] == e;
    assert q'[|q|..][1..] == q'[|q + [e]|..];
  }

  lemma NoChunk(cb: Tcb, len: nat, mtu: nat)
    requires mtu > HEADERS_MAX
    ensures ChunkSize(cb, len, mtu) <= len && ChunkSize(cb, len, mtu) <= mtu - HEADERS_MAX
    ensures ChunkSize(cb, len, mtu) == 0 <==> len == 0 || Room(cb) == 0
  {
  }

  lemma ChunkAppends(cb: Tcb, text: Text, now: Time, q': seq<Entry>, bytes: seq<Byte>, mtu: nat)
    requires 0 < |text| <= mtu - HEADERS_MAX && Appends(SendChunk(cb, text, now).cb.txq, q', bytes, mtu)
    ensures Appends(cb.txq, q', text + bytes, mtu)
  {
    EnqueueEffect(cb, cb.sndNxt, cb.rcvNxt, PSH_ACK, now, text);
    AppendsMore(cb.txq, SendChunk(cb, text, now).cb.txq[|cb.txq|], q', bytes, mtu);
  }

  lemma SendFromNext(cb: Tcb, data: seq<Byte>, snt: nat, out: seq<Segment>, mtu: nat, now: Time)
    requires mtu > HEADERS_MAX && snt <= |data|
    ensures var n := ChunkSize(cb, |data| - snt, mtu);
            && snt + n <= |data|
            && (n == 0 ==> SendFrom(cb, data, snt, out, mtu, now) == Sending(cb, snt, out))
            && (n > 0 ==> var r := SendChunk(cb, data[snt..snt + n], now);
                          SendFrom(cb, data, snt, out, mtu, now) == SendFrom(r.cb, data, snt + n, out + r.out, mtu, now))
  {
  }

  /** `s` is what comes of sending `data` from `snt` on, starting at `cb`. */
  ghost predicate Splits(cb: Tcb, s: Sending, data: seq<Byte>, snt: nat, mtu: nat) {
    && snt <= s.snt <= |data|
    && Appends(cb.txq, s.cb.txq, data[snt..s.snt], mtu)
    && (s.snt < |data| ==> Room(s.cb) == 0)
  }

  lemma SplitsNone(cb: Tcb, out: seq<Segment>, data: seq<Byte>, snt: nat, mtu: nat)
    requires mtu > HEADERS_MAX && snt <= |data| && ChunkSize(cb, |data| - snt, mtu) == 0
    ensures Splits(cb, Sending(cb, snt, out), data, snt, mtu)
  {
    NoChunk(cb, |data| - snt, mtu);
  }

  lemma SplitsMore(cb: Tcb, s: Sending, data: seq<Byte>, snt: nat, n: nat, mtu: nat, now: Time)
    requires mtu > HEADERS_MAX && snt + n <= |data| && 0 < n == ChunkSize(cb, |data| - snt, mtu)
    requires Splits(SendChunk(cb, data[snt..snt + n], now).cb, s, data, snt + n, mtu)
    ensures Splits(cb, s, data, snt, mtu)
  {
    var text := data[snt..snt + n];
    ChunkAppends(cb, text, now, s.cb.txq, data[snt + n..s.snt], mtu);
    assert text + data[snt + n..s.snt] == data[snt..s.snt];
  }

  /** `tcp_api_send` cuts its buffer into data segments whose concatenation is what it reports
      as sent, each small enough for one datagram, and stops early only on a full send buffer. */
  lemma {:induction false} SendSplits(cb: Tcb, data: seq<Byte>, snt: nat, out: seq<Segment>, mtu: nat, now: Time)
    requires mtu > HEADERS_MAX && snt <= |data|
    ensures Splits(cb, SendFrom(cb, data, snt, out, mtu, now), data, snt, mtu)
    decreases |data| - snt
  {
    var n := ChunkSize(cb, |data| - snt, mtu);
    SendFromNext(cb, data, snt, out, mtu, now);
    if n == 0 {
      SplitsNone(cb, out, data, snt, mtu);
    } else {
      var r := SendChunk(cb, data[snt..snt + n], now);
      SendSplits(r.cb, data, snt + n, out + r.out, mtu, now);
      SplitsMore(cb, SendFrom(cb, data, snt, out, mtu, now), data, snt, n, mtu, now);
    }
  }

  /** The block as one critical section of a call of `tcp_api_send` finds it, the MTU and the clock. */
  datatype Section = Section(cb: Tcb, mtu: nat, now: Time)

  /** What section `k` of the call does, after those before it have sent `snt` bytes. */
  function SectionSends(data: seq<Byte>, s: Section, snt: nat): Sending
    requires s.mtu > HEADERS_MAX && snt <= |data|
  {
    SendFrom(s.cb, data, snt, [], s.mtu, s.now)
  }

  ghost predicate AllRoomy(ss: seq<Section>) {
    forall k :: 0 <= k < |ss| ==> ss[k].mtu > HEADERS_MAX
  }

  /** How many bytes the sections of a call have sent; anything may happen between them. */
  ghost function SentBy(data: seq<Byte>, ss: seq<Section>): (n: nat)
    requires AllRoomy(ss)
    ensures n <= |data|
    decreases |ss|
  {
    if ss == [] then 0
    else
      var init, s := ss[..|ss| - 1], ss[|ss| - 1];
      SendSplits(s.cb, data, SentBy(data, init), [], s.mtu, s.now);
      SectionSends(data, s, SentBy(data, init)).snt
  }

  /** The texts the sections have queued, one section after the other. */
  ghost function QueuedBy(data: seq<Byte>, ss: seq<Section>): seq<Byte>
    requires AllRoomy(ss)
    decreases |ss|
  {
    if ss == [] then []
    else
      var init, s := ss[..|ss| - 1], ss[|ss| - 1];
      SendSplits(s.cb, data, SentBy(data, init), [], s.mtu, s.now);
      QueuedBy(data, init) + TextOf(SectionSends(data, s, SentBy(data, init)).cb.txq[|s.cb.txq|..])
  }

  lemma SectionSplits(data: seq<Byte>, s: Section, snt: nat)
    requires s.mtu > HEADERS_MAX && snt <= |data|
    ensures var r := SectionSends(data, s, snt);
            && snt <= r.snt <= |data| && |s.cb.txq| <= |r.cb.txq|
            && data[..snt] + TextOf(r.cb.txq[|s.cb.txq|..]) == data[..r.snt]
            && (r.snt < |data| ==> Room(r.cb) == 0)
    ensures data[..|data|] == data
  {
    SendSplits(s.cb, data, snt, [], s.mtu, s.now);
    var n := SectionSends(data, s, snt).snt;
    assert data[..snt] + data[snt..n] == data[..n];
  }

  /**
   * Over all the critical sections of one call, with whatever happens during its
   * waits, the texts it queues are what it counts as sent, so all of `data` when
   * it returns the length; and it waits only on a full send buffer.
   */
  lemma {:induction false} CallSplits(data: seq<Byte>, ss: seq<Section>)
    requires AllRoomy(ss)
    ensures QueuedBy(data, ss) == data[..SentBy(data, ss)]
    ensures SentBy(data, ss) == |data| ==> QueuedBy(data, ss) == data
    ensures ss != [] && SentBy(data, ss) < |data| ==>
              Room(SectionSends(data, ss[|ss| - 1], SentBy(data, ss[..|ss| - 1])).cb) == 0
    decreases |ss|
  {
    if ss != [] {
      var init, s := ss[..|ss| - 1], ss[|ss| - 1];
      CallSplits(data, init);
      SectionSplits(data, s, SentBy(data, init));
    }
  }

  // ------------------------------------------------------------- shutdown

  lemma ShutdownArrival(s: Stream, c: Tcb, seg: Segment, now: Time, isn: Word)
    requires Live(s, c) && FinSent(c.state) && !Overruns(c, seg, now, isn)
    ensures var d := Arrive(c, seg, now, isn).cb;
            d.state == Closed || (FinSent(d.state) && d.sndNxt == c.sndNxt)
  {
    ChecksEffect(c, seg, now);
    var p := CheckSynchronized(c, seg, now);
    if p.Go? { ReceiveEffect(p.cb, seg, now); }
  }

  /** Once a FIN is queued, `snd.nxt` is frozen and the block stays in the four
      closing states until it is CLOSED. */
  lemma ShutdownFrozen(h: Host, e: Event)
    requires Local(h) && FinSent(h.cb.state) && Enabled(h, e)
    ensures var d := Apply(h, e).h.cb;
            d.state == Closed || (FinSent(d.state) && d.sndNxt == h.cb.sndNxt)
  {
    if e.Arrival? { ShutdownArrival(h.st, h.cb, e.seg, e.now, e.isn); }
  }

  /** LAST_ACK is never reached; in FIN_WAIT2 and TIME_WAIT every byte before our FIN is
      acknowledged; and until it is acknowledged the FIN is the last entry of the queue. */
  lemma ShutdownStates(hs: seq<Host>, es: seq<Event>, i: nat)
    requires IsEndpointRun(hs, es) && i < |hs|
    ensures var c := hs[i].cb;
            && c.state != LastAck
            && (c.state == FinWait2 || c.state == TimeWait ==> c.sndUna >= c.sndNxt - 1)
            && (FinSent(c.state) && c.sndUna < c.sndNxt ==>
                  c.txq != [] && c.txq[|c.txq| - 1].seg.flags.fin && c.txq[|c.txq| - 1].seg.seqno == c.sndNxt - 1)
    ensures i + 1 < |hs| && FinSent(hs[i].cb.state) && hs[i + 1].cb.state != Closed ==>
              FinSent(hs[i + 1].cb.state) && hs[i + 1].cb.sndNxt == hs[i].cb.sndNxt
  {
    EndpointLocal(hs, es, i);
    if FinSent(hs[i].cb.state) {
      if hs[i].cb.sndUna < hs[i].cb.sndNxt { FinQueued(hs[i].st, hs[i].cb); }
      if i + 1 < |hs| {
        assert EndpointStepAt(hs, es, i);
        ShutdownFrozen(hs[i], es[i]);
      }
    }
  }

  lemma FinQueued(s: Stream, c: Tcb)
    requires Live(s, c) && s.fin && c.sndUna < c.sndNxt
    ensures c.txq != [] && c.txq[|c.txq| - 1].seg.flags.fin && c.txq[|c.txq| - 1].seg.seqno == c.sndNxt - 1
  {
    var b := Base(c.txq);
    assert b != [];
    assert IsUnit(s, Units(s) - |b| + (|b| - 1), b[|b| - 1].seg);
    assert b[|b| - 1] == c.txq[|c.txq| - 1];
  }

  /** FIN_WAIT1 is left for FIN_WAIT2 exactly by an acknowledgement of everything
      before the FIN, even one below `snd.una`; one that covers the FIN itself does not do it. */
  lemma FinWait2Iff(c: Tcb, seg: Segment, now: Time, isn: Word)
    requires c.state == FinWait1 && 0 < c.sndUna <= c.sndNxt && c.wl2 <= c.sndUna
    requires Acceptable(c, seg) && seg.flags.ack && !seg.flags.rst && !seg.flags.syn && !seg.flags.fin
    requires !Overruns(c, seg, now, isn)
    ensures Arrive(c, seg, now, isn).cb.state == FinWait2 <==> seg.ackno == c.sndNxt - 1
    ensures seg.ackno == c.sndNxt ==> Arrive(c, seg, now, isn).cb.state == FinWait1
  {
    var p := CheckSynchronized(c, seg, now);
    assert p == ProcessAck(c, seg, now);
    if p.Go? {
      AckEffect(c, seg, now);
      ReceiveEffect(p.cb, seg, now);
    }
  }

  // ------------------------------------------------- unsent is last

  lemma UnsentTail(q: seq<Entry>)
    requires UnsentLast(q)
    ensures HaveUnsent(q) <==> exists e :: e in q && e.stamp == 0
  {
    if HaveUnsent(q) { assert q[|q| - 1] in q; }
    if e :| e in q && e.stamp == 0 {
      var j :| 0 <= j < |q| && q[j] == e;
      assert j < |q| - 1 ==> q[|q| - 1].stamp == 0;
    }
  }

  /** Testing the tail alone, as `tcp_tx` does, tells whether any segment is unsent. */
  lemma TailDecides(hs: seq<Host>, es: seq<Event>, i: nat)
    requires IsEndpointRun(hs, es) && i < |hs|
    ensures var q := hs[i].cb.txq;
            && UnsentLast(q)
            && (HaveUnsent(q) <==> exists e :: e in q && e.stamp == 0)
  {
    EndpointLocal(hs, es, i);
    UnsentTail(hs[i].cb.txq);
  }

  // ------------------------------------------------- sending window

  function DataIn(q: seq<Entry>): nat {
    if q == [] then 0 else |q[0].seg.text| + DataIn(q[1..])
  }

  lemma DataInNext(e: Entry, k: seq<Entry>, j: nat)
    requires j < |k|
    ensures ([e] + k)[j + 1] == k[j] && DataIn(([e] + k)[..j + 1]) == |e.seg.text| + DataIn(k[..j])
  {
    assert ([e] + k)[..j + 1] == [e] + k[..j];
  }

  /** Entry `j` of `k` carries `g`, sent just now behind less than a window of kept data. */
  predicate SentAt(k: seq<Entry>, j: nat, wnd: Half, now: Time, sum: nat, g: Segment) {
    j < |k| && k[j].seg == g && k[j].stamp == now && sum + DataIn(k[..j]) < wnd
  }

  /** A pass sends only entries with less than a window of retained data in front of
      them, so it runs past the window by less than one segment. */
  lemma {:induction false} WalkWithinWindow(
      q: seq<Entry>, una: Word, wnd: Half, rcvNxt: Word, now: Time, sum: nat, g: Segment)
    requires g in TimerWalk(q, una, wnd, rcvNxt, now, sum).out
    ensures exists j :: SentAt(TimerWalk(q, una, wnd, rcvNxt, now, sum).kept, j, wnd, now, sum, g)
    decreases |q|
  {
    var e, q' := q[0], q[1..];
    var k := TimerWalk(q, una, wnd, rcvNxt, now, sum).kept;
    if e.seg.seqno >= una {
      var sum' := sum + |e.seg.text|;
      var rest := TimerWalk(q', una, wnd, rcvNxt, now, sum');
      if g in rest.out {
        WalkWithinWindow(q', una, wnd, rcvNxt, now, sum', g);
        var j: nat :| SentAt(rest.kept, j, wnd, now, sum', g);
        DataInNext(k[0], rest.kept, j);
        assert SentAt(k, j + 1, wnd, now, sum, g);
      } else {
        assert k[..0] == [] && SentAt(k, 0, wnd, now, sum, g);
      }
    } else {
      WalkWithinWindow(q', una, wnd, rcvNxt, now, sum, g);
    }
  }
}
