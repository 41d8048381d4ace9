/**
 * What the other events must do to an endpoint: segments before it is
 * synchronized (tcp.c:287-416), transmission (tcp.c:722-811), the calls of the
 * user, and over all events when a connection opens and when it ends.
 */
module TcpCalls {
  import opened Words
  import opened TcpModel
  import opened TcpHost
  import opened TcpLocal
  import opened TcpEndpointRuns
  import opened TcpArrivals

  // --------------------------------------------------------- transmission

  predicate AllSent(q: seq<Entry>) {
    forall i :: 0 <= i < |q| ==> q[i].stamp != 0
  }

  /** `tcp_tx` has queued `g`, and sent and counted it if `sent`. */
  predicate Queued(c: Tcb, r: Result, g: Segment, sent: bool, now: Time) {
    && r.cb == c.(txq := r.cb.txq, snt := r.cb.snt)
    && r.cb.txq == c.txq + [Entry(g, if sent then now else 0)]
    && r.cb.snt == (if sent then (c.snt + |g.text|) % TWO16 else c.snt)
    && r.out == if sent then [g] else []
  }

  /** A SYN goes out when nothing in front of it waits; anything else also needs room in the window. */
  predicate GoesOut(c: Tcb, g: Segment) {
    AllSent(c.txq) && (g.flags.syn || c.snt + |g.text| <= c.sndWnd)
  }

  lemma TransmitIff(c: Tcb, seqno: Word, ackno: Word, flags: Flags, now: Time, text: Text)
    requires UnsentLast(c.txq)
    ensures var g := Segment(seqno, ackno, flags, c.rcvWnd, text);
            Queued(c, Enqueue(c, seqno, ackno, flags, now, text), g, GoesOut(c, g), now)
  {
    UnsentTail(c.txq);
    if AllSent(c.txq) {
      assert forall e :: e in c.txq ==> e.stamp != 0;
    } else {
      var i :| 0 <= i < |c.txq| && c.txq[i].stamp == 0;
      assert c.txq[i] in c.txq;
    }
  }

  /** One segment of `tcp_api_send`. */
  predicate SendRule(c: Tcb, text: Text, now: Time, r: Result) {
    var g := Segment(c.sndNxt, c.rcvNxt, PSH_ACK, c.rcvWnd, text);
    var sent := AllSent(c.txq) && c.snt + |text| <= c.sndWnd;
    && r.out == (if sent then [g] else [])
    && r.cb.txq == c.txq + [Entry(g, if sent then now else 0)]
    && r.cb == c.(txq := r.cb.txq, snt := if sent then (c.snt + |text|) % TWO16 else c.snt,
                  sndNxt := (c.sndNxt + |text|) % TWO32, timeout := now + 20)
  }

  lemma SendEffect(c: Tcb, text: Text, now: Time)
    requires UnsentLast(c.txq)
    ensures SendRule(c, text, now, SendChunk(c, text, now))
  {
    TransmitIff(c, c.sndNxt, c.rcvNxt, PSH_ACK, now, text);
  }

  /** What there is to send, what fits a datagram, what the send buffer has left: the least of the three. */
  function SegmentSize(c: Tcb, len: nat, mtu: nat): int {
    var a := if len < mtu - 80 then len else mtu - 80;
    var room := 10240 - (c.sndNxt - c.sndUna);
    if room < a then room else a
  }

  lemma SizeRule(h: Host, len: nat, mtu: nat)
    requires Local(h) && CanSend(h.cb) && mtu > HEADERS_MAX
    ensures ChunkSize(h.cb, len, mtu) == SegmentSize(h.cb, len, mtu)
  {
    assert Numbers(h.st.isn, h.st.fin, h.cb);
    TrueRoom(h.cb);
  }

  /**
   * In every run, `tcp_api_send` takes as much as it can of its buffer, and the
   * segment goes out at once exactly when nothing is unsent and it fits the window.
   */
  lemma SendTransmits(hs: seq<Host>, es: seq<Event>, i: nat)
    requires IsEndpointRun(hs, es) && i < |es| && es[i].Send?
    ensures var n := SegmentSize(hs[i].cb, |es[i].data|, es[i].mtu);
            && 0 < n <= |es[i].data| && n < TWO16 && Enabled(hs[i], es[i])
            && SendRule(hs[i].cb, es[i].data[..n], es[i].now, Result(hs[i + 1].cb, Apply(hs[i], es[i]).out))
  {
    EndpointLocal(hs, es, i);
    assert EndpointStepAt(hs, es, i);
    SendIs(hs[i], es[i].data, es[i].mtu, es[i].now);
  }

  lemma SendIs(h: Host, data: seq<Byte>, mtu: nat, now: Time)
    requires Local(h) && Enabled(h, Send(data, mtu, now))
    ensures var m, n := Apply(h, Send(data, mtu, now)), SegmentSize(h.cb, |data|, mtu);
            0 < n <= |data| && n < TWO16 && SendRule(h.cb, data[..n], now, Result(m.h.cb, m.out))
  {
    SizeRule(h, |data|, mtu);
    NoChunk(h.cb, |data|, mtu);
    SendEffect(h.cb, data[..ChunkSize(h.cb, |data|, mtu)], now);
  }

  /** One call of `tcp_api_send` up to its wait or its end, as events that send one segment each. */
  ghost function AfterSends(h: Host, data: seq<Byte>, snt: nat, mtu: nat, now: Time): Move
    requires mtu > HEADERS_MAX && snt <= |data|
    decreases |data| - snt
  {
    var n := ChunkSize(h.cb, |data| - snt, mtu);
    NoChunk(h.cb, |data| - snt, mtu);
    if n == 0 then Move(h, [])
    else
      var m := SendText(h, data[snt..snt + n], now);
      var rest := AfterSends(m.h, data, snt + n, mtu, now);
      Move(rest.h, m.out + rest.out)
  }

  /** Each of them is an event of the model. */
  lemma SendIsEvent(h: Host, data: seq<Byte>, snt: nat, mtu: nat, now: Time)
    requires mtu > HEADERS_MAX && snt <= |data| && CanSend(h.cb)
    ensures var e, n := Send(data[snt..], mtu, now), ChunkSize(h.cb, |data| - snt, mtu);
            snt + n <= |data| && (Enabled(h, e) <==> n > 0) && (n > 0 ==> Apply(h, e) == SendText(h, data[snt..snt + n], now))
  {
    var n := ChunkSize(h.cb, |data| - snt, mtu);
    NoChunk(h.cb, |data| - snt, mtu);
    assert data[snt..][..n] == data[snt..snt + n];
  }

  lemma AfterSendsNext(h: Host, data: seq<Byte>, snt: nat, mtu: nat, now: Time)
    requires mtu > HEADERS_MAX && snt <= |data|
    ensures var n := ChunkSize(h.cb, |data| - snt, mtu);
            && snt + n <= |data|
            && AfterSends(h, data, snt, mtu, now)
               == if n == 0 then Move(h, [])
                  else var m := SendText(h, data[snt..snt + n], now);
                       var rest := AfterSends(m.h, data, snt + n, mtu, now);
                       Move(rest.h, m.out + rest.out)
  {
    NoChunk(h.cb, |data| - snt, mtu);
  }

  /** `s` is what the sends come to that have come to `m`, behind `out`. */
  predicate SameSends(m: Move, s: Sending, out: seq<Segment>) {
    m.h.cb == s.cb && s.out == out + m.out
  }

  lemma SameSendsMore(m: Move, s: Sending, out: seq<Segment>, sent: seq<Segment>)
    requires SameSends(m, s, out + sent)
    ensures SameSends(Move(m.h, sent + m.out), s, out)
  {
    assert (out + sent) + m.out == out + (sent + m.out);
  }

  lemma SameSendsNone(h: Host, snt: nat, out: seq<Segment>)
    ensures SameSends(Move(h, []), Sending(h.cb, snt, out), out)
  {
    assert out + [] == out;
  }

  ghost predicate CallAgrees(h: Host, data: seq<Byte>, snt: nat, out: seq<Segment>, mtu: nat, now: Time)
    requires mtu > HEADERS_MAX && snt <= |data|
  {
    SameSends(AfterSends(h, data, snt, mtu, now), SendFrom(h.cb, data, snt, out, mtu, now), out)
  }

  lemma CallStops(h: Host, data: seq<Byte>, snt: nat, out: seq<Segment>, mtu: nat, now: Time)
    requires mtu > HEADERS_MAX && snt <= |data| && ChunkSize(h.cb, |data| - snt, mtu) == 0
    ensures CallAgrees(h, data, snt, out, mtu, now)
  {
    SendFromNext(h.cb, data, snt, out, mtu, now);
    AfterSendsNext(h, data, snt, mtu, now);
    SameSendsNone(h, snt, out);
  }

  lemma CallGoesOn(h: Host, data: seq<Byte>, snt: nat, n: nat, out: seq<Segment>, mtu: nat, now: Time)
    requires mtu > HEADERS_MAX && snt + n <= |data| && 0 < n == ChunkSize(h.cb, |data| - snt, mtu)
    requires var m := SendText(h, data[snt..snt + n], now); CallAgrees(m.h, data, snt + n, out + m.out, mtu, now)
    ensures CallAgrees(h, data, snt, out, mtu, now)
  {
    SendFromNext(h.cb, data, snt, out, mtu, now);
    AfterSendsNext(h, data, snt, mtu, now);
    var m := SendText(h, data[snt..snt + n], now);
    SameSendsMore(AfterSends(m.h, data, snt + n, mtu, now), SendFrom(h.cb, data, snt, out, mtu, now), out, m.out);
  }

  /** The loop of `tcp_api_send` is such a sequence of events: the same block and the same segments out. */
  lemma {:induction false} CallIsSends(h: Host, data: seq<Byte>, snt: nat, out: seq<Segment>, mtu: nat, now: Time)
    requires mtu > HEADERS_MAX && snt <= |data|
    ensures CallAgrees(h, data, snt, out, mtu, now)
    decreases |data| - snt
  {
    var n := ChunkSize(h.cb, |data| - snt, mtu);
    NoChunk(h.cb, |data| - snt, mtu);
    if n == 0 {
      CallStops(h, data, snt, out, mtu, now);
    } else {
      var m := SendText(h, data[snt..snt + n], now);
      CallIsSends(m.h, data, snt + n, out + m.out, mtu, now);
      CallGoesOn(h, data, snt, n, out, mtu, now);
    }
  }

  // ------------------------------------------------ before synchronization

  /** CLOSED answers everything but an RST with an RST, and stays as it is. */
  lemma ClosedArrival(c: Tcb, seg: Segment, now: Time, isn: Word)
    requires c.state == Closed
    ensures !Overruns(c, seg, now, isn)
    ensures Arrive(c, seg, now, isn) ==
            Result(c, if seg.flags.rst then []
                      else if seg.flags.ack then [Segment(seg.ackno, 0, RST, c.rcvWnd, [])]
                      else [Segment(0, (seg.seqno + |seg.text|) % TWO32, RST_ACK, c.rcvWnd, [])])
  {
  }

  /** LISTEN opens exactly for a SYN without ACK and RST; a FIN in it is taken at once. */
  predicate OpensListen(seg: Segment) {
    seg.flags.syn && !seg.flags.ack && !seg.flags.rst
  }

  lemma ListenArrival(h: Host, seg: Segment, now: Time, isn: Word)
    requires Local(h) && h.cb.state == Listen && !Overruns(h.cb, seg, now, isn)
    ensures var c, r := h.cb, Arrive(h.cb, seg, now, isn);
            var n: Word := (seg.seqno + 1) % TWO32;
            var g := Segment(isn, n, SYN_ACK, 65535, []);
            if OpensListen(seg) then
              && r.cb == c.(state := if seg.flags.fin then CloseWait else SynRcvd, iss := isn, sndUna := isn,
                            sndNxt := (isn + 1) % TWO32, irs := seg.seqno, rcvNxt := n, rcvWnd := 65535,
                            txq := [Entry(g, now)], timeout := now + 20)
              && r.out == [g] + if seg.flags.fin then [AckSegment((isn + 1) % TWO32, n, 65535)] else []
            else
              && Wiped(c, r.cb)
              && r.out == if seg.flags.ack && !seg.flags.rst then [Segment(seg.ackno, 0, RST, c.rcvWnd, [])] else []
  {
  }

  /** The acknowledgement field covers our SYN and no more. */
  predicate AcksSyn(c: Tcb, seg: Segment) {
    c.iss < seg.ackno <= c.sndNxt
  }

  predicate SynSentRule(c: Tcb, seg: Segment, now: Time, r: Result) {
    var n: Word := (seg.seqno + 1) % TWO32;
    if seg.flags.ack && !AcksSyn(c, seg) then r == Result(c, [Segment(seg.ackno, 0, RST, c.rcvWnd, [])])
    else if seg.flags.rst then
      if seg.flags.ack then Wiped(c, r.cb) && r.out == []
      else r == Result(c, [])
    else if !seg.flags.syn then r == Result(c, [])
    else if AcksSyn(c, seg) then
      // text is never at `rcv.nxt`, and is looked at only if there is some
      var more := seg.text != [] || seg.flags.urg;
      var ack := AckSegment(c.sndNxt, n, c.rcvWnd);
      && r.cb == c.(state := if more && seg.flags.fin then CloseWait else Established, sndUna := seg.ackno,
                    irs := seg.seqno, rcvNxt := n, timeout := now + 20)
      && r.out == [ack] + (if more && seg.flags.psh then [ack] else []) + if more && seg.flags.fin then [ack] else []
    else
      var b := c.(state := SynRcvd, irs := seg.seqno, rcvNxt := n);
      var g := Segment(c.iss, n, SYN_ACK, c.rcvWnd, []);
      Queued(b, r, g, AllSent(c.txq), now)
  }

  lemma CrossIs(c: Tcb, seg: Segment, now: Time, isn: Word)
    requires c.state == SynSent && UnsentLast(c.txq) && c.sndUna == c.iss && c.iss <= c.sndNxt
    requires seg.flags.syn && !seg.flags.rst && !seg.flags.ack && seg.ackno <= c.iss
    ensures !Overruns(c, seg, now, isn) && SynSentRule(c, seg, now, Arrive(c, seg, now, isn))
  {
    var b := c.(state := SynRcvd, irs := seg.seqno, rcvNxt := Add32(seg.seqno, 1));
    TransmitIff(b, c.iss, b.rcvNxt, SYN_ACK, now, []);
  }

  lemma SynSentIs(c: Tcb, seg: Segment, now: Time, isn: Word)
    requires c.state == SynSent && c.sndUna == c.iss && c.iss <= c.sndNxt && SaneSyn(c, seg)
    requires !(seg.flags.syn && !seg.flags.rst && !seg.flags.ack && seg.ackno <= c.iss)
    ensures !Overruns(c, seg, now, isn) && SynSentRule(c, seg, now, Arrive(c, seg, now, isn))
  {
  }

  lemma SynSentArrival(h: Host, seg: Segment, now: Time, isn: Word)
    requires Local(h) && h.cb.state == SynSent && SaneSyn(h.cb, seg)
    ensures !Overruns(h.cb, seg, now, isn) && SynSentRule(h.cb, seg, now, Arrive(h.cb, seg, now, isn))
  {
    var c := h.cb;
    if seg.flags.syn && !seg.flags.rst && !seg.flags.ack && seg.ackno <= c.iss {
      CrossIs(c, seg, now, isn);
    } else {
      SynSentIs(c, seg, now, isn);
    }
  }

  // -------------------------------------------------------- calls of the user

  /** `tcp_api_connect` sends a SYN and waits for its acknowledgement. */
  lemma ConnectRule(h: Host, isn: Word, now: Time)
    requires Local(h) && h.cb.used && h.cb.state == Closed
    ensures var g := Segment(isn, 0, SYN, 65535, []);
            Connect(h.cb, isn, now) ==
            Result(h.cb.(state := SynSent, iss := isn, sndUna := isn, sndNxt := (isn + 1) % TWO32, rcvWnd := 65535,
                         txq := [Entry(g, now)], timeout := now + 20), [g])
  {
  }

  /** `tcp_close` by state: nothing, a reset of the block, or a FIN behind all that is queued. */
  predicate CloseRule(c: Tcb, now: Time, r: Result) {
    if c.state in {Listen, SynSent} then Wiped(c.(used := false), r.cb) && r.out == []
    else if c.state in {SynRcvd, Established, CloseWait} then
      var g := Segment(c.sndNxt, c.rcvNxt, FIN_ACK, c.rcvWnd, []);
      var sent := AllSent(c.txq) && c.snt <= c.sndWnd;
      && r.out == (if sent then [g] else [])
      && r.cb.txq == c.txq + [Entry(g, if sent then now else 0)]
      && r.cb == c.(used := false, sndNxt := (c.sndNxt + 1) % TWO32, txq := r.cb.txq,
                    state := if c.state == CloseWait then Closing else FinWait1)
    else r == Result(c.(used := false), [])
  }

  lemma CloseIs(c: Tcb, now: Time)
    requires c.used && UnsentLast(c.txq)
    ensures CloseRule(c, now, Close(c, now))
  {
    var b := c.(used := false);
    if CanClose(c.state) { TransmitIff(b, c.sndNxt, c.rcvNxt, FIN_ACK, now, []); }
  }

  /** In every run, what a close does. */
  lemma CloseActs(hs: seq<Host>, es: seq<Event>, i: nat)
    requires IsEndpointRun(hs, es) && i < |es| && es[i].Shut?
    ensures Enabled(hs[i], es[i]) && CloseRule(hs[i].cb, es[i].now, Result(hs[i + 1].cb, Apply(hs[i], es[i]).out))
  {
    EndpointLocal(hs, es, i);
    assert EndpointStepAt(hs, es, i);
    LocalUnsent(hs[i]);
    CloseIs(hs[i].cb, es[i].now);
  }

  lemma LocalUnsent(h: Host)
    requires Local(h)
    ensures UnsentLast(h.cb.txq)
  {
  }

  /** `tcp_api_recv` hands out as many of the oldest bytes as were asked for, or all there are. */
  predicate RecvRule(h: Host, size: nat, m: Move) {
    var c, d := h.cb, m.h.cb;
    var n := if size < |c.buf| then size else |c.buf|;
    && m.h.taken == h.taken + c.buf[..n] && d.buf == c.buf[n..]
    && d.rcvWnd == c.rcvWnd + n && d == c.(buf := d.buf, rcvWnd := d.rcvWnd) && m.out == []
  }

  lemma RecvActs(hs: seq<Host>, es: seq<Event>, i: nat)
    requires IsEndpointRun(hs, es) && i < |es| && es[i].Recv?
    ensures Enabled(hs[i], es[i]) && RecvRule(hs[i], es[i].size, Apply(hs[i], es[i]))
  {
    assert EndpointStepAt(hs, es, i);
  }

  // ------------------------------------------------------- opening and ending

  /** The event that ends a connection, by the state it finds. */
  predicate Ends(c: Tcb, e: Event) {
    match e
    case Arrival(seg, _, _) =>
      if c.state == Listen then !OpensListen(seg)
      else if c.state == SynSent then seg.flags.ack && seg.flags.rst && AcksSyn(c, seg)
      else Resets(c, seg)
    case Tick(now) => c.timeout < now && (c.sndUna < c.sndNxt || c.state == TimeWait)
    case Shut(_) => c.state in {Listen, SynSent}
    case _ => false
  }

  /**
   * In every run: an endpoint becomes CLOSED, with everything forgotten, exactly
   * by a reset it must heed, by its deadline, or by a close before it is
   * synchronized; and a closed one opens only by `tcp_api_connect`.
   */
  lemma EndsIff(hs: seq<Host>, es: seq<Event>, i: nat)
    requires IsEndpointRun(hs, es) && i < |es|
    ensures var c, d := hs[i].cb, hs[i + 1].cb;
            && (d.state == Closed <==> if c.state == Closed then !es[i].Open? else Ends(c, es[i]))
            && (c.state != Closed && d.state == Closed ==> Wiped(c.(used := d.used), d))
  {
    EndpointLocal(hs, es, i);
    assert EndpointStepAt(hs, es, i);
    StepEnds(hs[i], es[i]);
  }

  lemma StepEnds(h: Host, e: Event)
    requires Local(h) && Enabled(h, e) && (e.Arrival? ==> SaneSyn(h.cb, e.seg))
    ensures var d := Apply(h, e).h.cb;
            && (h.cb.state != Closed ==> (d.state == Closed <==> Ends(h.cb, e)))
            && (h.cb.state == Closed ==> (d.state == Closed <==> !e.Open?))
            && (h.cb.state != Closed && d.state == Closed ==> Wiped(h.cb.(used := d.used), d))
  {
    var c := h.cb;
    match e
    case Arrival(seg, now, isn) =>
      if c.state == Closed { ClosedArrival(c, seg, now, isn); }
      else if c.state == Listen { ListenArrival(h, seg, now, isn); }
      else if c.state == SynSent { SynSentArrival(h, seg, now, isn); }
      else { ResetIff(h, seg, now, isn); }
    case Shut(now) =>
      LocalUnsent(h);
      CloseIs(c, now);
    case _ =>
  }

  /** The event that makes a connection ESTABLISHED. */
  predicate Establishes(c: Tcb, e: Event) {
    e.Arrival? && var seg := e.seg;
    if c.state == SynSent then
      seg.flags.syn && !seg.flags.rst && AcksSyn(c, seg) && !(seg.flags.fin && (seg.text != [] || seg.flags.urg))
    else c.state == SynRcvd && Acks(c, seg) && !seg.flags.fin
  }

  lemma SyncedEstablishes(h: Host, seg: Segment, now: Time, isn: Word)
    requires Ready(h, seg, now, isn) && h.cb.state != Established
    ensures Arrive(h.cb, seg, now, isn).cb.state == Established <==> h.cb.state == SynRcvd && Acks(h.cb, seg) && !seg.flags.fin
  {
    ResetIff(h, seg, now, isn);
    if !Resets(h.cb, seg) { ArrivalMoves(h, seg, now, isn); }
  }

  lemma ArrivalEstablishes(h: Host, seg: Segment, now: Time, isn: Word)
    requires Local(h) && !Overruns(h.cb, seg, now, isn) && SaneSyn(h.cb, seg) && h.cb.state != Established
    ensures Arrive(h.cb, seg, now, isn).cb.state == Established <==> Establishes(h.cb, Arrival(seg, now, isn))
  {
    if h.cb.state == Closed {
      ClosedArrival(h.cb, seg, now, isn);
    } else if h.cb.state == Listen {
      ListenArrival(h, seg, now, isn);
    } else if h.cb.state == SynSent {
      SynSentArrival(h, seg, now, isn);
    } else {
      SyncedEstablishes(h, seg, now, isn);
    }
  }

  /** A connection becomes ESTABLISHED exactly when its SYN is acknowledged by an acceptable segment without a FIN to take. */
  lemma EstablishesIff(hs: seq<Host>, es: seq<Event>, i: nat)
    requires IsEndpointRun(hs, es) && i < |es| && hs[i].cb.state != Established
    ensures hs[i + 1].cb.state == Established <==> Establishes(hs[i].cb, es[i])
  {
    EndpointLocal(hs, es, i);
    assert EndpointStepAt(hs, es, i);
    StepEstablishes(hs[i], es[i]);
  }

  lemma StepEstablishes(h: Host, e: Event)
    requires Local(h) && Enabled(h, e) && (e.Arrival? ==> SaneSyn(h.cb, e.seg)) && h.cb.state != Established
    ensures Apply(h, e).h.cb.state == Established <==> Establishes(h.cb, e)
  {
    match e
    case Arrival(seg, now, isn) => ArrivalEstablishes(h, seg, now, isn);
    case Shut(now) =>
      LocalUnsent(h);
      CloseIs(h.cb, now);
    case _ =>
  }
}
