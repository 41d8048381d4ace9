/**
 * Receive accounting over whole runs of one endpoint: `rcv.nxt` counts what
 * was consumed, and the right edge of the receive window never moves left,
 * as long as every FIN that is let through is in order.
 */
module TcpAccounting {
  import opened Words
  import opened TcpModel
  import opened TcpHost
  import opened TcpLocal
  import opened TcpEndpointRuns
  import opened TcpWindows

  /** Any FIN the event lets through is at `rcv.nxt` and without text. */
  predicate OrderlyFin(h: Host, e: Event) {
    e.Arrival? && e.seg.flags.fin ==>
      var p := Checks(h.cb, e.seg, e.now, e.isn);
      p.Go? ==> FinInOrder(p.cb, e.seg)
  }

  predicate Counted(h: Host) {
    && (Synced(h.cb.state) ==> Accounted(h.cb, |h.taken|))
    && (h.cb.state == SynSent || h.cb.state == Listen ==> h.taken == [])
  }

  /** A block that has just taken a SYN. */
  predicate JustOpened(c: Tcb, seg: Segment) {
    && (c.state == SynRcvd || c.state == Established)
    && c.irs == seg.seqno && c.rcvNxt == Add32(seg.seqno, 1) && c.rcvWnd == WINDOW_SIZE
  }

  lemma OpenedAccounted(c: Tcb, seg: Segment)
    requires JustOpened(c, seg)
    ensures Accounted(c, 0)
  {
    Plus32(seg.seqno, seg.seqno, 1);
  }

  /** The first SYN opens the block or leaves it closed. */
  lemma ListenOpens(c: Tcb, seg: Segment, now: Time, isn: Word)
    requires c.state == Listen
    ensures var p := CheckListen(c, seg, now, isn);
            if p.Go? then JustOpened(p.cb, seg) else p.cb.state == Closed
  {
  }

  lemma SynSentOpens(c: Tcb, seg: Segment, now: Time)
    requires c.state == SynSent && Numbers(c.iss, false, c) && SaneSyn(c, seg)
    ensures var p := CheckSynSent(c, seg, now);
            JustOpened(p.cb, seg) || (p.Stop? && (p.cb == c || p.cb.state == Closed))
  {
    SynSentEffect(c, seg, now);
  }

  lemma OpeningCounted(h: Host, e: Event)
    requires Local(h) && Counted(h) && e.Arrival? && Enabled(h, e) && OrderlyFin(h, e)
    requires h.cb.state == Listen || h.cb.state == SynSent
    requires SaneSyn(h.cb, e.seg)
    ensures Counted(Apply(h, e).h)
  {
    var p := Checks(h.cb, e.seg, e.now, e.isn);
    if h.cb.state == Listen {
      ListenOpens(h.cb, e.seg, e.now, e.isn);
    } else {
      SynSentOpens(h.cb, e.seg, e.now);
    }
    if JustOpened(p.cb, e.seg) { OpenedAccounted(p.cb, e.seg); }
    if p.Go? {
      GoAccounted(p.cb, e.seg, e.now, 0);
      ReceiveEffect(p.cb, e.seg, e.now);
    }
  }

  lemma ArrivalCounted(h: Host, e: Event)
    requires Local(h) && Counted(h) && e.Arrival? && Enabled(h, e) && OrderlyFin(h, e) && SaneSyn(h.cb, e.seg)
    ensures Counted(Apply(h, e).h)
  {
    if h.cb.state == Listen || h.cb.state == SynSent {
      OpeningCounted(h, e);
    } else if h.cb.state != Closed {
      ArrivalAccounted(h.cb, e.seg, e.now, e.isn, |h.taken|);
      SyncedStays(h, e);
    }
  }

  /** The block after a synchronized arrival is closed or still synchronized, with the same `irs`. */
  lemma SyncedStays(h: Host, e: Event)
    requires Local(h) && Synced(h.cb.state) && e.Arrival? && Enabled(h, e)
    ensures var d := Apply(h, e).h.cb;
            d.state == Closed || (Synced(d.state) && d.irs == h.cb.irs && (GotFin(h.cb.state) ==> GotFin(d.state)))
  {
    ChecksEffect(h.cb, e.seg, e.now);
    var p := CheckSynchronized(h.cb, e.seg, e.now);
    if p.Go? { ReceiveEffect(p.cb, e.seg, e.now); }
  }

  /** `d` differs from `c` in nothing the receive count depends on. */
  predicate SameReceive(c: Tcb, d: Tcb) {
    && d.irs == c.irs && d.rcvNxt == c.rcvNxt && d.rcvWnd == c.rcvWnd
    && (GotFin(c.state) <==> GotFin(d.state)) && (Synced(d.state) <==> Synced(c.state))
  }

  /** `n` has taken as much as `h` and is closed or receives as `h` does. */
  predicate Undisturbed(h: Host, n: Host) {
    n.taken == h.taken && (n.cb.state == Closed || SameReceive(h.cb, n.cb))
    && (n.cb.state == SynSent || n.cb.state == Listen ==> n.cb.state == h.cb.state)
  }

  lemma TickUndisturbed(h: Host, now: Time)
    ensures Undisturbed(h, h.(cb := Timer(h.cb, now).cb))
  {
  }

  lemma SendUndisturbed(h: Host, text: Text, now: Time, st: Stream)
    requires CanSend(h.cb)
    ensures Undisturbed(h, h.(cb := SendChunk(h.cb, text, now).cb, st := st))
  {
  }

  lemma ShutUndisturbed(h: Host, now: Time, st: Stream)
    requires h.cb.used
    ensures Undisturbed(h, h.(cb := Close(h.cb, now).cb, st := st))
  {
  }

  lemma LocalCallKeeps(h: Host, e: Event)
    requires Enabled(h, e) && !e.Arrival? && !e.Recv? && !e.Open?
    ensures Undisturbed(h, Apply(h, e).h)
  {
    match e
    case Accepted =>
    case Tick(now) => TickUndisturbed(h, now);
    case Send(data, mtu, now) =>
      SendUndisturbed(h, data[..ChunkSize(h.cb, |data|, mtu)], now, Apply(h, e).h.st);
    case Shut(now) => ShutUndisturbed(h, now, Apply(h, e).h.st);
  }

  lemma UndisturbedCounted(h: Host, n: Host)
    requires Counted(h) && Undisturbed(h, n)
    ensures Counted(n)
  {
  }

  lemma RecvCounted(h: Host, size: nat)
    requires Local(h) && Counted(h) && Enabled(h, Recv(size))
    ensures Counted(Apply(h, Recv(size)).h)
  {
    var n := if size < |h.cb.buf| then size else |h.cb.buf|;
    TakeAccounted(h.cb, n, h.taken);
  }

  lemma OpenCounted(h: Host, isn: Word, now: Time)
    requires Local(h) && Enabled(h, Open(isn, now))
    ensures Counted(Apply(h, Open(isn, now)).h)
  {
  }

  lemma StepCounted(h: Host, e: Event)
    requires Local(h) && Counted(h) && Enabled(h, e) && OrderlyFin(h, e)
    requires e.Arrival? ==> SaneSyn(h.cb, e.seg)
    ensures Counted(Apply(h, e).h)
  {
    if e.Arrival? {
      ArrivalCounted(h, e);
    } else if e.Recv? {
      RecvCounted(h, e.size);
    } else if e.Open? {
      OpenCounted(h, e.isn, e.now);
    } else {
      LocalCallKeeps(h, e);
      UndisturbedCounted(h, Apply(h, e).h);
    }
  }

  predicate Orderly(hs: seq<Host>, es: seq<Event>)
    requires |hs| == |es| + 1
  {
    forall i :: 0 <= i < |es| ==> OrderlyFin(hs[i], es[i])
  }

  lemma InitialCounted(h: Host)
    requires Initial(h)
    ensures Counted(h)
  {
  }

  lemma AtCounted(hs: seq<Host>, es: seq<Event>, i: nat)
    requires IsEndpointRun(hs, es) && Orderly(hs, es) && i < |es| && Counted(hs[i])
    ensures Counted(hs[i + 1])
  {
    EndpointLocal(hs, es, i);
    assert EndpointStepAt(hs, es, i);
    StepCounted(hs[i], es[i]);
  }

  /** In every state of every orderly run `rcv.nxt` is the count of consumed sequence numbers. */
  lemma {:induction false} RunCounted(hs: seq<Host>, es: seq<Event>, i: nat)
    requires IsEndpointRun(hs, es) && Orderly(hs, es) && i < |hs|
    ensures Counted(hs[i])
    decreases i
  {
    if i == 0 {
      InitialCounted(hs[0]);
    } else {
      RunCounted(hs, es, i - 1);
      AtCounted(hs, es, i - 1);
    }
  }

  // ------------------------------------------------------------- right edge

  /** Where the receive window ends, as a number that does not wrap. */
  function Edge(h: Host): int {
    h.cb.irs + 1 + WINDOW_SIZE + |h.taken| + if GotFin(h.cb.state) then 1 else 0
  }

  /** `n` is closed, or still synchronized with its edge no further left. */
  predicate EdgeKept(h: Host, n: Host) {
    n.cb.state == Closed || (Synced(n.cb.state) && Edge(h) <= Edge(n) && h.taken <= n.taken)
  }

  lemma EdgeStep(h: Host, e: Event)
    requires Local(h) && Enabled(h, e) && Synced(h.cb.state)
    ensures EdgeKept(h, Apply(h, e).h)
  {
    if e.Arrival? {
      SyncedStays(h, e);
    } else if !e.Recv? && !e.Open? {
      LocalCallKeeps(h, e);
    }
  }

  lemma RunEdgeStep(hs: seq<Host>, es: seq<Event>, i: nat)
    requires IsEndpointRun(hs, es) && i < |es| && Synced(hs[i].cb.state)
    ensures EdgeKept(hs[i], hs[i + 1])
  {
    EndpointLocal(hs, es, i);
    assert EndpointStepAt(hs, es, i);
    EdgeStep(hs[i], es[i]);
  }

  lemma EdgeChain(h: Host, m: Host, n: Host)
    requires Synced(m.cb.state) && EdgeKept(h, m) && EdgeKept(m, n)
    ensures EdgeKept(h, n)
  {
  }

  lemma {:induction false} EdgeGrows(hs: seq<Host>, es: seq<Event>, i: nat, j: nat)
    requires IsEndpointRun(hs, es) && i <= j < |hs| && Synced(hs[i].cb.state)
    ensures EdgeKept(hs[i], hs[j])
    decreases j
  {
    if i < j {
      EdgeGrows(hs, es, i, j - 1);
      if hs[j - 1].cb.state == Closed {
        EndpointLocal(hs, es, i);
        StaysClosed(hs, es, i, j);
      } else {
        RunEdgeStep(hs, es, j - 1);
        EdgeChain(hs[i], hs[j - 1], hs[j]);
      }
    }
  }

  /**
   * While a connection lives, `rcv.nxt + rcv.wnd` is the edge modulo 2^32 and
   * the edge never moves left.
   */
  lemma RightEdgeNeverLeft(hs: seq<Host>, es: seq<Event>, i: nat, j: nat)
    requires IsEndpointRun(hs, es) && Orderly(hs, es) && i <= j < |hs|
    requires Synced(hs[i].cb.state) && hs[j].cb.state != Closed
    ensures Edge(hs[i]) <= Edge(hs[j])
    ensures (hs[i].cb.rcvNxt + hs[i].cb.rcvWnd - Edge(hs[i])) % TWO32 == 0
    ensures (hs[j].cb.rcvNxt + hs[j].cb.rcvWnd - Edge(hs[j])) % TWO32 == 0
  {
    EdgeGrows(hs, es, i, j);
    RunCounted(hs, es, i);
    RunCounted(hs, es, j);
    EdgeIsSum(hs[i]);
    EdgeIsSum(hs[j]);
  }

  lemma EdgeIsSum(h: Host)
    requires Accounted(h.cb, |h.taken|)
    ensures (h.cb.rcvNxt + h.cb.rcvWnd - Edge(h)) % TWO32 == 0
  {
    var n := Consumed(h.cb, |h.taken|);
    assert n + h.cb.rcvWnd == Edge(h);
    assert h.cb.rcvNxt - n == -(n / TWO32) * TWO32;
  }
}
