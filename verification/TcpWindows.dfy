/** The send window learned from the peer and the receive window offered to it. */
module TcpWindows {
  import opened Words
  import opened TcpModel
  import opened TcpHost
  import opened TcpLocal
  import opened TcpEndpointRuns

  // ------------------------------------------------------------ send window

  /** (`seq`, `ack`) pairs in lexicographic order. */
  predicate PairLess(g: Segment, k: Segment) {
    g.seqno < k.seqno || (g.seqno == k.seqno && g.ackno < k.ackno)
  }

  /** `log[j]` is the latest of the segments that carry the largest pair. */
  predicate LatestMaximal(log: seq<Segment>, j: nat) {
    && j < |log|
    && (forall i :: 0 <= i < |log| ==> !PairLess(log[j], log[i]))
    && (forall i :: j < i < |log| ==> PairLess(log[i], log[j]))
  }

  /** The window fields are those of the segment `log` selects, and no
      acknowledgement in `log` is above `snd.una`. */
  ghost predicate WindowInv(h: Host) {
    && (!h.begun || h.cb.state == SynSent ==> h.acks == [])
    && (h.cb.state != Closed && h.cb.state != Listen ==> WindowLog(h))
  }

  ghost predicate WindowLog(h: Host) {
    && (forall i :: 0 <= i < |h.acks| ==> h.acks[i].ackno <= h.cb.sndUna)
    && if h.acks == [] then h.cb.wl1 == 0 && h.cb.wl2 == 0
       else exists j :: WindowFrom(h, j)
  }

  ghost predicate WindowFrom(h: Host, j: nat) {
    LatestMaximal(h.acks, j)
    && h.cb.wl1 == h.acks[j].seqno && h.cb.wl2 == h.acks[j].ackno && h.cb.sndWnd == h.acks[j].win
  }

  lemma LatestGrows(log: seq<Segment>, j: nat, g: Segment)
    requires LatestMaximal(log, j)
    ensures PairLess(g, log[j]) ==> LatestMaximal(log + [g], j)
    ensures !PairLess(g, log[j]) ==> LatestMaximal(log + [g], |log|)
  {
  }

  /** The window test as the code makes it, on a block whose `wl2` is at most `snd.una`:
      it turns on the sequence number alone. */
  lemma WindowTestIff(cb: Tcb, seg: Segment)
    requires cb.wl2 <= cb.sndUna <= seg.ackno
    ensures var d := UpdateWindow(cb, seg);
            && (cb.wl1 <= seg.seqno ==> d.wl1 == seg.seqno && d.wl2 == seg.ackno && d.sndWnd == seg.win)
            && (cb.wl1 > seg.seqno ==> d == cb)
  {
  }

  /** The window fields and `snd.una` after a segment was put to the window test, or was not. */
  predicate WindowMove(c: Tcb, d: Tcb, seg: Segment, tested: bool) {
    && (if tested && c.wl1 <= seg.seqno
        then d.wl1 == seg.seqno && d.wl2 == seg.ackno && d.sndWnd == seg.win
        else d.wl1 == c.wl1 && d.wl2 == c.wl2 && d.sndWnd == c.sndWnd)
    && d.sndUna == if tested then seg.ackno else c.sndUna
  }

  lemma AckWindow(c: Tcb, seg: Segment, now: Time)
    requires c.wl2 <= c.sndUna
    ensures WindowMove(c, ProcessAck(c, seg, now).cb, seg, c.sndUna <= seg.ackno <= c.sndNxt)
  {
  }

  lemma ChecksWindow(c: Tcb, seg: Segment, now: Time)
    requires c.wl2 <= c.sndUna <= c.sndNxt && Synced(c.state) && c.state != LastAck
    ensures var d := CheckSynchronized(c, seg, now).cb;
            d == CloseCb(c) || WindowMove(c, d, seg, TestsWindow(c, seg))
  {
    AckWindow(c, seg, now);
    AckWindow(c.(state := Established), seg, now);
  }

  lemma ArrivalWindow(c: Tcb, seg: Segment, now: Time, isn: Word)
    requires c.wl2 <= c.sndUna <= c.sndNxt && Synced(c.state) && c.state != LastAck
    requires !Overruns(c, seg, now, isn)
    ensures var d := Arrive(c, seg, now, isn).cb;
            d.state == Closed || WindowMove(c, d, seg, TestsWindow(c, seg))
  {
    ChecksWindow(c, seg, now);
    var p := CheckSynchronized(c, seg, now);
    if p.Go? { ReceiveEffect(p.cb, seg, now); }
  }

  lemma WindowStep(h: Host, h': Host, seg: Segment, tested: bool)
    requires WindowLog(h) && WindowMove(h.cb, h'.cb, seg, tested)
    requires h'.acks == if tested then h.acks + [seg] else h.acks
    requires tested ==> h.cb.wl2 <= h.cb.sndUna <= seg.ackno
    ensures WindowLog(h')
  {
    if tested && h.acks == [] {
      assert WindowFrom(h', 0);
    } else if h.acks != [] {
      var j: nat :| WindowFrom(h, j);
      if tested {
        LatestGrows(h.acks, j, seg);
        assert WindowFrom(h', if PairLess(seg, h.acks[j]) then j else |h.acks|);
      } else {
        assert WindowFrom(h', j);
      }
    }
  }

  /** A block that opens by a SYN has not learned a window yet. */
  lemma OpeningWindow(h: Host, seg: Segment, now: Time, isn: Word)
    requires Local(h) && WindowInv(h) && !Overruns(h.cb, seg, now, isn) && SaneSyn(h.cb, seg)
    requires h.cb.state == Listen || h.cb.state == SynSent
    ensures WindowInv(ApplyArrival(h, seg, now, isn).h)
  {
    var p := Checks(h.cb, seg, now, isn);
    if h.cb.state == SynSent { SynSentEffect(h.cb, seg, now); }
    if p.Go? { ReceiveEffect(p.cb, seg, now); }
  }

  lemma ArrivalKeepsWindow(h: Host, seg: Segment, now: Time, isn: Word)
    requires Local(h) && WindowInv(h) && !Overruns(h.cb, seg, now, isn) && SaneSyn(h.cb, seg)
    ensures WindowInv(ApplyArrival(h, seg, now, isn).h)
  {
    if Synced(h.cb.state) {
      ArrivalWindow(h.cb, seg, now, isn);
      var h' := ApplyArrival(h, seg, now, isn).h;
      if h'.cb.state != Closed { WindowStep(h, h', seg, TestsWindow(h.cb, seg)); }
      SyncedArrivalKeeps(h.st, h.cb, seg, now, isn);
    } else if h.cb.state != Closed {
      OpeningWindow(h, seg, now, isn);
    }
  }

  predicate Running(state: State) {
    state != Closed && state != Listen
  }

  /** The step leaves the log alone, and the window fields of a block it does not close. */
  predicate SameWindow(h: Host, n: Host) {
    && n.acks == h.acks && n.begun == h.begun && (n.cb.state == SynSent ==> h.cb.state == SynSent)
    && (Running(n.cb.state) ==>
          && Running(h.cb.state) && n.cb.sndUna == h.cb.sndUna
          && n.cb.wl1 == h.cb.wl1 && n.cb.wl2 == h.cb.wl2 && n.cb.sndWnd == h.cb.sndWnd)
  }

  lemma SameWindowKeeps(h: Host, n: Host)
    requires WindowInv(h) && SameWindow(h, n)
    ensures WindowInv(n)
  {
    if Running(n.cb.state) && h.acks != [] {
      var j: nat :| WindowFrom(h, j);
      assert WindowFrom(n, j);
    }
  }

  lemma CallSameWindow(h: Host, e: Event)
    requires Enabled(h, e) && !e.Arrival? && !e.Open?
    ensures SameWindow(h, Apply(h, e).h)
  {
  }

  /** Calls and timer passes leave the window fields alone. */
  lemma CallKeepsWindow(h: Host, e: Event)
    requires Local(h) && WindowInv(h) && Enabled(h, e) && !e.Arrival?
    ensures WindowInv(Apply(h, e).h)
  {
    if !e.Open? {
      CallSameWindow(h, e);
      SameWindowKeeps(h, Apply(h, e).h);
    }
  }

  lemma InitialWindow(h: Host)
    requires Initial(h)
    ensures WindowInv(h)
  {
  }

  lemma AtWindow(hs: seq<Host>, es: seq<Event>, i: nat)
    requires IsEndpointRun(hs, es) && i < |es| && WindowInv(hs[i])
    ensures WindowInv(hs[i + 1])
  {
    EndpointLocal(hs, es, i);
    assert EndpointStepAt(hs, es, i);
    var e := es[i];
    if e.Arrival? { ArrivalKeepsWindow(hs[i], e.seg, e.now, e.isn); }
    else { CallKeepsWindow(hs[i], e); }
  }

  lemma {:induction false} EndpointWindow(hs: seq<Host>, es: seq<Event>, i: nat)
    requires IsEndpointRun(hs, es) && i < |hs|
    ensures WindowInv(hs[i])
    decreases i
  {
    if i == 0 {
      InitialWindow(hs[0]);
    } else {
      EndpointWindow(hs, es, i - 1);
      AtWindow(hs, es, i - 1);
    }
  }

  /** In every reachable state that has learned a window, `snd.wnd` is the window of the latest
      accepted segment with the largest (`seq`, `ack`) pair, and `wl2 <= snd.una`. */
  lemma WindowIsLatestMaximal(hs: seq<Host>, es: seq<Event>, i: nat) returns (j: nat)
    requires IsEndpointRun(hs, es) && i < |hs| && hs[i].cb.state != Closed && hs[i].acks != []
    ensures LatestMaximal(hs[i].acks, j)
    ensures var c, g := hs[i].cb, hs[i].acks[j];
            c.sndWnd == g.win && c.wl1 == g.seqno && c.wl2 == g.ackno && c.wl2 <= c.sndUna
  {
    EndpointWindow(hs, es, i);
    EndpointLocal(hs, es, i);
    j :| WindowFrom(hs[i], j);
  }

  /** The pair (`wl1`, `wl2`) of `c` is at most that of `d`, in lexicographic order. */
  predicate PairAtMost(c: Tcb, d: Tcb) {
    c.wl1 < d.wl1 || (c.wl1 == d.wl1 && c.wl2 <= d.wl2)
  }

  predicate PairKept(c: Tcb, d: Tcb) {
    d.state == Closed || PairAtMost(c, d)
  }

  lemma ArrivalKeepsPair(h: Host, seg: Segment, now: Time, isn: Word)
    requires Local(h) && h.begun && h.cb.state != Closed && !Overruns(h.cb, seg, now, isn) && SaneSyn(h.cb, seg)
    ensures PairKept(h.cb, ApplyArrival(h, seg, now, isn).h.cb)
  {
    if h.cb.state == SynSent {
      SynSentEffect(h.cb, seg, now);
      var p := CheckSynSent(h.cb, seg, now);
      if p.Go? { ReceiveEffect(p.cb, seg, now); }
    } else {
      ArrivalWindow(h.cb, seg, now, isn);
    }
  }

  lemma CallKeepsPair(h: Host, e: Event)
    requires h.begun && Enabled(h, e) && !e.Arrival?
    ensures PairKept(h.cb, Apply(h, e).h.cb)
  {
  }

  lemma RunKeepsPair(hs: seq<Host>, es: seq<Event>, i: nat)
    requires IsEndpointRun(hs, es) && i < |es| && hs[i].begun && hs[i].cb.state != Closed
    ensures PairKept(hs[i].cb, hs[i + 1].cb)
  {
    EndpointLocal(hs, es, i);
    assert EndpointStepAt(hs, es, i);
    var e := es[i];
    if e.Arrival? { ArrivalKeepsPair(hs[i], e.seg, e.now, e.isn); }
    else { CallKeepsPair(hs[i], e); }
  }

  lemma PairChain(c: Tcb, m: Tcb, d: Tcb)
    requires m.state != Closed && PairKept(c, m) && PairKept(m, d)
    ensures PairKept(c, d)
  {
  }

  /** The pair (`wl1`, `wl2`) never decreases while the connection lives, whatever happens to it. */
  lemma {:induction false} WindowPairGrows(hs: seq<Host>, es: seq<Event>, i: nat, j: nat)
    requires IsEndpointRun(hs, es) && i <= j < |hs| && hs[i].begun && hs[i].cb.state != Closed
    ensures hs[j].cb.state == Closed || PairAtMost(hs[i].cb, hs[j].cb)
    decreases j
  {
    if i < j {
      WindowPairGrows(hs, es, i, j - 1);
      if hs[j - 1].cb.state == Closed {
        StaysClosed(hs, es, i, j);
      } else {
        BegunStays(hs, es, i, j - 1);
        RunKeepsPair(hs, es, j - 1);
        PairChain(hs[i].cb, hs[j - 1].cb, hs[j].cb);
      }
    }
  }

  // --------------------------------------------------------- receive window

  /** The count of sequence numbers consumed: the peer's SYN, the bytes taken, the bytes
      buffered, and one for its FIN. */
  function Consumed(c: Tcb, taken: nat): int {
    c.irs + 1 + taken + (WINDOW_SIZE - c.rcvWnd) + if GotFin(c.state) then 1 else 0
  }

  predicate Accounted(c: Tcb, taken: nat) {
    c.rcvNxt == Consumed(c, taken) % TWO32
  }

  /** A FIN that does not disturb the count: at `rcv.nxt`, without text. */
  predicate FinInOrder(c: Tcb, seg: Segment) {
    !CopiesText(c, seg) && if GotFin(c.state) then Add32(seg.seqno, 1) == c.rcvNxt else seg.seqno == c.rcvNxt
  }

  lemma Plus32(x: int, w: Word, n: Word)
    requires w == x % TWO32
    ensures Add32(w, n) == (x + n) % TWO32
  {
  }

  lemma TextAccounted(c: Tcb, seg: Segment, taken: nat)
    requires CopiesText(c, seg) ==> |seg.text| <= c.rcvWnd
    requires Accounted(c, taken)
    ensures Accounted(ProcessText(c, seg).cb, taken)
  {
    Plus32(Consumed(c, taken), c.rcvNxt, |seg.text|);
  }

  lemma FinAccounted(c: Tcb, seg: Segment, now: Time, taken: nat)
    requires Synced(c.state) && c.state != LastAck && Accounted(c, taken) && seg.flags.fin
    ensures Accounted(ProcessFin(c, seg, now).cb, taken) <==>
              if GotFin(c.state) then Add32(seg.seqno, 1) == c.rcvNxt else seg.seqno == c.rcvNxt
  {
    Plus32(Consumed(c, taken), c.rcvNxt, 1);
  }

  lemma GoAccounted(c: Tcb, seg: Segment, now: Time, taken: nat)
    requires Synced(c.state) && c.state != LastAck && Accounted(c, taken)
    requires CopiesText(c, seg) ==> |seg.text| <= c.rcvWnd
    ensures Accounted(ProcessFin(ProcessText(c, seg).cb, seg, now).cb, taken) <==>
              (seg.flags.fin ==> FinInOrder(c, seg))
  {
    TextAccounted(c, seg, taken);
    if seg.flags.fin { FinAccounted(ProcessText(c, seg).cb, seg, now, taken); }
  }

  lemma AckAccounted(c: Tcb, d: Tcb, seg: Segment, taken: nat)
    requires AckMove(c, d, seg)
    ensures Accounted(c, taken) <==> Accounted(d, taken)
    ensures Synced(c.state) && c.state != LastAck ==> Synced(d.state) && d.state != LastAck
  {
    assert Consumed(c, taken) == Consumed(d, taken);
  }

  /** An arrival keeps `rcv.nxt` equal to the count of consumed sequence numbers
      exactly if any FIN it lets through is in order. */
  lemma ArrivalAccounted(c: Tcb, seg: Segment, now: Time, isn: Word, taken: nat)
    requires Synced(c.state) && Numbers(c.iss, FinSent(c.state), c) && !Overruns(c, seg, now, isn)
    requires Accounted(c, taken)
    ensures var p := CheckSynchronized(c, seg, now); var d := Arrive(c, seg, now, isn).cb;
            d.state != Closed ==>
              (Accounted(d, taken) <==> (p.Go? && seg.flags.fin ==> FinInOrder(p.cb, seg)))
  {
    ChecksEffect(c, seg, now);
    var p := CheckSynchronized(c, seg, now);
    if p.cb.state != Closed { AckAccounted(c, p.cb, seg, taken); }
    if p.Go? { GoAccounted(p.cb, seg, now, taken); }
  }

  /** `tcp_api_recv` moves bytes from the buffer to the user without changing the count. */
  lemma TakeAccounted(c: Tcb, n: nat, taken: seq<Byte>)
    requires n <= |c.buf| && c.rcvWnd + n <= WINDOW_SIZE
    ensures Accounted(c, |taken|) <==> Accounted(Take(c, n), |taken + c.buf[..n]|)
    ensures (taken + c.buf[..n]) + Take(c, n).buf == taken + c.buf
    ensures Take(c, n).rcvNxt + Take(c, n).rcvWnd == c.rcvNxt + c.rcvWnd + n
  {
  }

  /** The right edge of the receive window moves left exactly when a segment both fills
      the buffer by more than one byte and carries a FIN. */
  lemma RightEdgeIff(c: Tcb, seg: Segment, now: Time)
    requires CopiesText(c, seg) ==> |seg.text| <= c.rcvWnd
    requires c.rcvNxt <= seg.seqno && seg.seqno + TWO16 < TWO32
    ensures var d := ProcessFin(ProcessText(c, seg).cb, seg, now).cb;
            c.rcvNxt + c.rcvWnd <= d.rcvNxt + d.rcvWnd <==> !(seg.flags.fin && CopiesText(c, seg) && |seg.text| > 1)
  {
  }
}
