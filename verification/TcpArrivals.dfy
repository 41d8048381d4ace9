/**
 * What a segment must do to an endpoint (tcp.c:279-715): every field of the
 * block afterwards and every reply, in terms of the block before and of the
 * segment alone, where the code gets there through four stages of checks.
 */
module TcpArrivals {
  import opened Words
  import opened TcpModel
  import opened TcpHost
  import opened TcpLocal
  import opened TcpEndpointRuns

  // ------------------------------------------------------ what is asked

  /** The receive window as numbers. A window of 0 still takes an empty segment at `rcv.nxt`. */
  predicate InWindow(c: Tcb, seg: Segment) {
    if c.rcvWnd == 0 then seg.text == [] && seg.seqno == c.rcvNxt
    else c.rcvNxt <= seg.seqno < (c.rcvNxt + c.rcvWnd) % TWO32
  }

  predicate Resets(c: Tcb, seg: Segment) {
    InWindow(c, seg) && (seg.flags.rst || seg.flags.syn)
  }

  /** The acknowledgement is ahead of everything sent; SYN_RCVD and TIME_WAIT go on all the same. */
  predicate TooFar(c: Tcb, seg: Segment) {
    seg.flags.ack && seg.ackno > c.sndNxt && c.state != SynRcvd && c.state != TimeWait
  }

  /** The segment is looked at to its end. */
  predicate Heeded(c: Tcb, seg: Segment) {
    InWindow(c, seg) && !seg.flags.rst && !seg.flags.syn && !TooFar(c, seg)
  }

  predicate Acks(c: Tcb, seg: Segment) {
    Heeded(c, seg) && seg.flags.ack && c.state != TimeWait && c.sndUna <= seg.ackno <= c.sndNxt
  }

  /** The state takes text by the time the text is looked at. */
  predicate Listens(c: Tcb, seg: Segment) {
    c.state in {Established, FinWait1, FinWait2} || (c.state == SynRcvd && Acks(c, seg))
  }

  predicate BringsText(c: Tcb, seg: Segment) {
    Heeded(c, seg) && Listens(c, seg) && seg.text != [] && seg.seqno == c.rcvNxt
  }

  predicate BringsFin(c: Tcb, seg: Segment) {
    Heeded(c, seg) && seg.flags.fin
  }

  /** The acknowledgement of all that was sent but the last unit, which tcp.c takes for that of the FIN. */
  predicate AcksFin(c: Tcb, seg: Segment) {
    Heeded(c, seg) && seg.flags.ack && seg.ackno + 1 == c.sndNxt
  }

  /** `d` is `c` with all of its connection forgotten, but for the count of transmitted bytes and the deadline. */
  predicate Wiped(c: Tcb, d: Tcb) {
    d == FRESH.(used := c.used, snt := c.snt, timeout := c.timeout)
  }

  // ------------------------------------------------- synchronized states

  lemma InWindowIff(c: Tcb, seg: Segment)
    ensures Acceptable(c, seg) <==> InWindow(c, seg)
  {
  }

  /** A host whose connection is synchronized, and a segment that does not overrun its buffer. */
  predicate Ready(h: Host, seg: Segment, now: Time, isn: Word) {
    Local(h) && Synced(h.cb.state) && !Overruns(h.cb, seg, now, isn)
  }

  /** The block is reset exactly by an RST or a SYN in the window. */
  lemma ResetIff(h: Host, seg: Segment, now: Time, isn: Word)
    requires Ready(h, seg, now, isn)
    ensures Arrive(h.cb, seg, now, isn).cb.state == Closed <==> Resets(h.cb, seg)
    ensures Resets(h.cb, seg) ==> Wiped(h.cb, Arrive(h.cb, seg, now, isn).cb)
  {
    InWindowIff(h.cb, seg);
    ChecksEffect(h.cb, seg, now);
    var p := CheckSynchronized(h.cb, seg, now);
    if p.Go? { ReceiveEffect(p.cb, seg, now); }
  }

  /** The send side after an arrival that does not reset. */
  predicate SendSide(c: Tcb, d: Tcb, seg: Segment) {
    && d.sndUna == (if Acks(c, seg) then seg.ackno else c.sndUna)
    && (if Acks(c, seg) && (c.wl1 < seg.seqno || (c.wl1 == seg.seqno && c.wl2 <= seg.ackno))
        then d.sndWnd == seg.win && d.wl1 == seg.seqno && d.wl2 == seg.ackno
        else d.sndWnd == c.sndWnd && d.wl1 == c.wl1 && d.wl2 == c.wl2)
    && d.sndNxt == c.sndNxt && d.iss == c.iss && d.txq == c.txq && d.snt == c.snt && d.used == c.used
  }

  /** The receive side. */
  predicate ReceiveSide(c: Tcb, d: Tcb, seg: Segment) {
    && d.buf == (if BringsText(c, seg) then c.buf + seg.text else c.buf)
    && d.rcvWnd == (if BringsText(c, seg) then c.rcvWnd - |seg.text| else c.rcvWnd)
    && d.rcvNxt == (if BringsFin(c, seg) then (seg.seqno + 1) % TWO32
                    else if BringsText(c, seg) then (seg.seqno + |seg.text|) % TWO32
                    else c.rcvNxt)
    && d.irs == c.irs
  }

  /** The state once the acknowledgement has been looked at. */
  function Acknowledged(c: Tcb, seg: Segment): State {
    if c.state == SynRcvd && Acks(c, seg) then Established
    else if c.state == FinWait1 && AcksFin(c, seg) then FinWait2
    else if c.state == Closing && AcksFin(c, seg) then TimeWait
    else c.state
  }

  /** The edges of the diagram in section 3.2 of RFC 793 that a FIN takes, and SYN_RCVD to CLOSE_WAIT. */
  predicate FinEdge(s: State, t: State) {
    || (s in {SynRcvd, Established} && t == CloseWait)
    || (s == FinWait1 && t == Closing)
    || (s == FinWait2 && t == TimeWait)
    || (s in {Closing, TimeWait, CloseWait} && t == s)
  }

  predicate StateMoves(c: Tcb, d: Tcb, seg: Segment) {
    var s := Acknowledged(c, seg);
    if BringsFin(c, seg) then FinEdge(s, d.state) else d.state == s
  }

  /** The deadline moves when data is acknowledged, and when a FIN starts or restarts TIME_WAIT. */
  predicate Deadline(c: Tcb, d: Tcb, seg: Segment, now: Time) {
    d.timeout ==
      if BringsFin(c, seg) && d.state == TimeWait then now + 20
      else if Acks(c, seg) && c.sndUna < seg.ackno then now + 20
      else c.timeout
  }

  predicate Moves(c: Tcb, d: Tcb, seg: Segment, now: Time) {
    SendSide(c, d, seg) && ReceiveSide(c, d, seg) && StateMoves(c, d, seg) && Deadline(c, d, seg, now)
  }

  /** The block when a heeded segment comes to its text. */
  predicate AckStage(c: Tcb, b: Tcb, seg: Segment, now: Time) {
    && SendSide(c, b, seg) && b.state == Acknowledged(c, seg)
    && b.timeout == (if Acks(c, seg) && c.sndUna < seg.ackno then now + 20 else c.timeout)
    && b.buf == c.buf && b.rcvWnd == c.rcvWnd && b.rcvNxt == c.rcvNxt && b.irs == c.irs
  }

  /** The scalar fields of a synchronized block that the rules lean on. */
  predicate Regular(c: Tcb) {
    Synced(c.state) && c.state != LastAck && c.sndUna <= c.sndNxt && c.sndNxt > 0
  }

  lemma LocalRegular(h: Host)
    requires Local(h) && Synced(h.cb.state)
    ensures Regular(h.cb)
  {
  }

  lemma ProcessAckStage(c: Tcb, b: Tcb, seg: Segment, now: Time)
    requires Regular(c) && Acks(c, seg)
    requires b == c || (c.state == SynRcvd && b == c.(state := Established))
    requires c.state == SynRcvd ==> b.state == Established
    ensures var p := ProcessAck(b, seg, now); p.Go? && p.out == [] && AckStage(c, p.cb, seg, now)
  {
  }

  lemma StalestAck(c: Tcb, seg: Segment, now: Time)
    requires Regular(c) && Heeded(c, seg) && seg.flags.ack && seg.ackno < c.sndUna
    requires c.state != SynRcvd && c.state != TimeWait
    ensures var p := ProcessAck(c, seg, now); p.Go? && p.out == [] && AckStage(c, p.cb, seg, now)
  {
  }

  /** What the checks answer to a segment they let through. */
  function Scolds(c: Tcb, seg: Segment): seq<Segment> {
    if c.state == SynRcvd && seg.flags.ack && !Acks(c, seg) then [Segment(seg.ackno, c.rcvNxt, RST, c.rcvWnd, [])] else []
  }

  lemma GoStage(c: Tcb, seg: Segment, now: Time)
    requires Regular(c) && Heeded(c, seg)
    ensures var p := CheckSynchronized(c, seg, now);
            p.Go? && AckStage(c, p.cb, seg, now) && p.out == Scolds(c, seg)
  {
    InWindowIff(c, seg);
    if Acks(c, seg) {
      ProcessAckStage(c, if c.state == SynRcvd then c.(state := Established) else c, seg, now);
    } else if seg.flags.ack && c.state != SynRcvd && c.state != TimeWait {
      StalestAck(c, seg, now);
    }
  }

  lemma StopStage(c: Tcb, seg: Segment, now: Time)
    requires Regular(c) && !Heeded(c, seg)
    ensures var p := CheckSynchronized(c, seg, now);
            && p.Stop?
            && p.cb == (if Resets(c, seg) then CloseCb(c) else c)
            && p.out == if seg.flags.rst then []
                        else if Resets(c, seg) then [Segment(0, c.rcvNxt, RST, c.rcvWnd, [])]
                        else [Segment(c.sndNxt, c.rcvNxt, ACK, c.rcvWnd, [])]
  {
    InWindowIff(c, seg);
  }

  /** What its text and its FIN make of it. */
  predicate RestStage(c: Tcb, b: Tcb, d: Tcb, seg: Segment, now: Time) {
    && ReceiveSide(c, d, seg)
    && (if BringsFin(c, seg) then FinEdge(b.state, d.state) else d.state == b.state)
    && d.timeout == (if BringsFin(c, seg) && b.state in {FinWait2, TimeWait} then now + 20 else b.timeout)
    && d == b.(state := d.state, timeout := d.timeout, rcvNxt := d.rcvNxt, rcvWnd := d.rcvWnd, buf := d.buf)
  }

  lemma TextStage(c: Tcb, b: Tcb, seg: Segment)
    requires Regular(c) && Heeded(c, seg) && b.state == Acknowledged(c, seg) && b.rcvNxt == c.rcvNxt
    ensures TakesText(b.state) <==> Listens(c, seg)
    ensures CopiesText(b, seg) <==> BringsText(c, seg)
  {
  }

  lemma RestIs(c: Tcb, b: Tcb, seg: Segment, now: Time)
    requires Regular(c) && Heeded(c, seg) && AckStage(c, b, seg, now)
    requires CopiesText(b, seg) ==> |seg.text| <= b.rcvWnd
    ensures RestStage(c, b, ProcessFin(ProcessText(b, seg).cb, seg, now).cb, seg, now)
  {
    TextStage(c, b, seg);
  }

  lemma StagesMove(c: Tcb, b: Tcb, d: Tcb, seg: Segment, now: Time)
    requires AckStage(c, b, seg, now) && RestStage(c, b, d, seg, now)
    ensures Moves(c, d, seg, now)
  {
  }

  lemma Unmoved(c: Tcb, seg: Segment, now: Time)
    requires !Heeded(c, seg)
    ensures Moves(c, c, seg, now)
  {
  }

  /** Every field of the block after an arrival in a synchronized state that does not reset it. */
  lemma ArrivalMoves(h: Host, seg: Segment, now: Time, isn: Word)
    requires Ready(h, seg, now, isn) && !Resets(h.cb, seg)
    ensures Moves(h.cb, Arrive(h.cb, seg, now, isn).cb, seg, now)
  {
    var c := h.cb;
    LocalRegular(h);
    var p := CheckSynchronized(c, seg, now);
    if Heeded(c, seg) {
      GoStage(c, seg, now);
      RestIs(c, p.cb, seg, now);
      StagesMove(c, p.cb, ProcessFin(ProcessText(p.cb, seg).cb, seg, now).cb, seg, now);
    } else {
      StopStage(c, seg, now);
      Unmoved(c, seg, now);
    }
  }

  // -------------------------------------------------------------- replies

  function AckSegment(nxt: Word, ackno: Word, win: Half): Segment {
    Segment(nxt, ackno, ACK, win, [])
  }

  /** Text that is taken is acknowledged, and text that is pushed is answered anyway. */
  function TextReply(c: Tcb, seg: Segment): seq<Segment>
    requires BringsText(c, seg) ==> |seg.text| <= c.rcvWnd
  {
    if BringsText(c, seg)
    then [AckSegment(c.sndNxt, (seg.seqno + |seg.text|) % TWO32, c.rcvWnd - |seg.text|)]
    else if Listens(c, seg) && seg.flags.psh then [AckSegment(c.sndNxt, c.rcvNxt, c.rcvWnd)]
    else []
  }

  function FinReply(c: Tcb, seg: Segment): seq<Segment>
    requires BringsText(c, seg) ==> |seg.text| <= c.rcvWnd
  {
    if seg.flags.fin
    then [AckSegment(c.sndNxt, (seg.seqno + 1) % TWO32, if BringsText(c, seg) then c.rcvWnd - |seg.text| else c.rcvWnd)]
    else []
  }

  /** The replies in a synchronized state, in order. */
  function Replies(c: Tcb, seg: Segment): seq<Segment>
    requires BringsText(c, seg) ==> |seg.text| <= c.rcvWnd
  {
    if Heeded(c, seg) then Scolds(c, seg) + TextReply(c, seg) + FinReply(c, seg)
    else if seg.flags.rst then []
    else if Resets(c, seg) then [Segment(0, c.rcvNxt, RST, c.rcvWnd, [])]
    else [AckSegment(c.sndNxt, c.rcvNxt, c.rcvWnd)]
  }

  lemma TextReplies(c: Tcb, b: Tcb, seg: Segment)
    requires CopiesText(b, seg) ==> |seg.text| <= b.rcvWnd
    requires CopiesText(b, seg) <==> BringsText(c, seg)
    requires TakesText(b.state) <==> Listens(c, seg)
    requires b.rcvNxt == c.rcvNxt && b.rcvWnd == c.rcvWnd && b.sndNxt == c.sndNxt
    ensures BringsText(c, seg) ==> |seg.text| <= c.rcvWnd
    ensures ProcessText(b, seg).out == TextReply(c, seg)
  {
  }

  lemma FinReplies(c: Tcb, b: Tcb, seg: Segment, now: Time)
    requires CopiesText(b, seg) ==> |seg.text| <= b.rcvWnd
    requires CopiesText(b, seg) <==> BringsText(c, seg)
    requires b.rcvWnd == c.rcvWnd && b.sndNxt == c.sndNxt
    ensures BringsText(c, seg) ==> |seg.text| <= c.rcvWnd
    ensures ProcessFin(ProcessText(b, seg).cb, seg, now).out == FinReply(c, seg)
  {
  }

  /** What is sent in answer to an arrival in a synchronized state. */
  lemma ArrivalReplies(h: Host, seg: Segment, now: Time, isn: Word)
    requires Ready(h, seg, now, isn)
    ensures BringsText(h.cb, seg) ==> |seg.text| <= h.cb.rcvWnd
    ensures Arrive(h.cb, seg, now, isn).out == Replies(h.cb, seg)
  {
    var c := h.cb;
    LocalRegular(h);
    var p := CheckSynchronized(c, seg, now);
    if Heeded(c, seg) {
      GoStage(c, seg, now);
      TextStage(c, p.cb, seg);
      TextReplies(c, p.cb, seg);
      FinReplies(c, p.cb, seg, now);
    } else {
      StopStage(c, seg, now);
    }
  }

  /** Whenever `rcv.nxt` moves, the last segment sent acknowledges exactly up to it and offers what is left. */
  lemma MovesAreAcknowledged(h: Host, seg: Segment, now: Time, isn: Word)
    requires Ready(h, seg, now, isn)
    ensures var c, r := h.cb, Arrive(h.cb, seg, now, isn);
            r.cb.state != Closed && r.cb.rcvNxt != c.rcvNxt ==>
              r.out != [] && r.out[|r.out| - 1] == AckSegment(c.sndNxt, r.cb.rcvNxt, r.cb.rcvWnd)
  {
    ResetIff(h, seg, now, isn);
    ArrivalReplies(h, seg, now, isn);
    if !Resets(h.cb, seg) { ArrivalMoves(h, seg, now, isn); }
  }

  /** In every run, what an arrival in a synchronized state does. */
  lemma ArrivalActs(hs: seq<Host>, es: seq<Event>, i: nat)
    requires IsEndpointRun(hs, es) && i < |es| && es[i].Arrival? && Synced(hs[i].cb.state)
    ensures var c, d, seg := hs[i].cb, hs[i + 1].cb, es[i].seg;
            && (d.state == Closed <==> Resets(c, seg))
            && (if d.state == Closed then Wiped(c, d) else Moves(c, d, seg, es[i].now))
    ensures Enabled(hs[i], es[i]) && (BringsText(hs[i].cb, es[i].seg) ==> |es[i].seg.text| <= hs[i].cb.rcvWnd)
    ensures Apply(hs[i], es[i]).out == Replies(hs[i].cb, es[i].seg)
  {
    EndpointLocal(hs, es, i);
    assert EndpointStepAt(hs, es, i);
    var h, seg, now, isn := hs[i], es[i].seg, es[i].now, es[i].isn;
    ResetIff(h, seg, now, isn);
    ArrivalReplies(h, seg, now, isn);
    if !Resets(h.cb, seg) { ArrivalMoves(h, seg, now, isn); }
  }
}
