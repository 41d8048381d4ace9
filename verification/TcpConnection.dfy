/**
 Two endpoints joined by a network that may lose, duplicate and reorder
 segments: a segment given to `ip_tx` joins the set of segments in flight and
 may from then on be delivered any number of times, at any time, or never.
 */
module TcpConnection {
  import opened Words
  import opened TcpModel
  import opened TcpHost
  import opened TcpLocal

  datatype World = World(a: Host, b: Host, ab: set<Segment>, ba: set<Segment>)

  predicate InitialWorld(w: World) {
    Initial(w.a) && Initial(w.b) && w.ab == {} && w.ba == {}
  }

  function Flip(w: World): World {
    World(w.b, w.a, w.ba, w.ab)
  }

  function ToSet(out: seq<Segment>): set<Segment> {
    set g | g in out
  }

  /** Endpoint `a` takes a step: it can be handed any segment in flight to it. */
  predicate StepA(w: World, e: Event, w': World) {
    && Enabled(w.a, e)
    && (e.Arrival? ==> e.seg in w.ba)
    && var m := Apply(w.a, e);
       StreamOk(m.h.st) && w' == World(m.h, w.b, w.ab + ToSet(m.out), w.ba)
  }

  predicate Step(w: World, e: Event, w': World) {
    StepA(w, e, w') || StepA(Flip(w), e, Flip(w'))
  }

  /** `ws` lists the states of a run driven by `es`. */
  predicate IsRun(ws: seq<World>, es: seq<Event>) {
    && |ws| == |es| + 1
    && InitialWorld(ws[0])
    && forall i :: 0 <= i < |es| ==> StepAt(ws, es, i)
  }

  predicate StepAt(ws: seq<World>, es: seq<Event>, i: nat)
    requires i < |es| && |ws| == |es| + 1
  {
    Step(ws[i], es[i], ws[i + 1])
  }

  // ------------------------------------------------------------- invariant

  ghost predicate IsChunk(s: Stream, k: nat, g: Segment) {
    k < |s.chunks| && g.seqno == Off(s, k) && g.text == s.chunks[k]
  }

  /** The segment is part of the stream, or carries only an acknowledgement. */
  ghost predicate WellSent(s: Stream, g: Segment) {
    if g.flags.syn then g.seqno == s.isn && g.text == [] && !g.flags.fin
    else if g.flags.fin then s.fin && g.text == [] && g.seqno == Off(s, |s.chunks|)
    else if g.text != [] then exists k :: IsChunk(s, k, g)
    else s.isn + 1 <= g.seqno <= Total(s)
  }

  /** A boundary between two segments of the stream. */
  ghost predicate IsCut(s: Stream, n: int) {
    (exists k :: CutAt(s, k, n)) || (s.fin && n == Total(s))
  }

  ghost predicate CutAt(s: Stream, k: nat, n: int) {
    k <= |s.chunks| && n == Off(s, k)
  }

  /** `n` acknowledges a stretch of the stream of `y` that ends at a boundary below `edge`. */
  ghost predicate AcksUpTo(y: Host, edge: nat, n: Word) {
    n == 0 || (y.begun && n <= edge && IsCut(y.st, n))
  }

  /** A segment in flight from `x` to `y`. */
  ghost predicate InFlight(x: Host, y: Host, g: Segment) {
    g.flags.rst || (x.begun && WellSent(x.st, g) && AcksUpTo(y, x.edge, g.ackno))
  }

  ghost predicate FlightInv(x: Host, y: Host, xy: set<Segment>) {
    forall g :: g in xy ==> InFlight(x, y, g)
  }

  /** A synchronized block holds a whole number of chunks of the stream `s`, then perhaps its FIN. */
  ghost predicate Holds(s: Stream, c: Tcb, got: nat, taken: seq<Byte>) {
    && got <= |s.chunks|
    && taken + c.buf == Flat(s.chunks[..got])
    && if GotFin(c.state) then s.fin && c.rcvNxt == Total(s) else c.rcvNxt == Off(s, got)
  }

  /** What `x` has received of the stream of `y`. */
  ghost predicate ReceiveInv(y: Host, x: Host) {
    && x.got <= |y.st.chunks|
    && x.taken <= Flat(y.st.chunks[..x.got])
    && (x.edge == 0 ==> x.got == 0 && x.taken == [] && !Synced(x.cb.state))
    && (x.edge != 0 ==> y.begun && IsCut(y.st, x.edge))
    && (Synced(x.cb.state) ==> x.edge == x.cb.rcvNxt && Holds(y.st, x.cb, x.got, x.taken))
  }

  ghost predicate UnaInv(x: Host, y: Host) {
    x.cb.state != Closed && x.cb.state != Listen ==>
      x.cb.sndUna == x.st.isn || (x.cb.sndUna <= y.edge && IsCut(x.st, x.cb.sndUna))
  }

  /** The part of the invariant that speaks of what `x` holds and has sent. */
  ghost predicate SideInv(x: Host, y: Host, xy: set<Segment>) {
    Local(x) && FlightInv(x, y, xy) && ReceiveInv(y, x) && UnaInv(x, y)
  }

  ghost predicate Inv(w: World) {
    SideInv(w.a, w.b, w.ab) && SideInv(w.b, w.a, w.ba)
  }

  // ------------------------------------------------ the endpoint that waits

  ghost predicate Grows(x: Host, x': Host) {
    && (x.begun ==> x'.begun && Extends(x.st, x'.st))
    && (!x.begun ==> x.st.chunks == [] && !x.st.fin)
    && x.edge <= x'.edge
  }

  lemma CutKept(s: Stream, t: Stream, n: int)
    requires Extends(s, t) && IsCut(s, n)
    ensures IsCut(t, n)
  {
    if k: nat :| CutAt(s, k, n) {
      OffKept(s, t, k);
      assert CutAt(t, k, n);
    }
  }

  lemma FlightGrows(y: Host, x: Host, x': Host, yx: set<Segment>)
    requires Grows(x, x') && FlightInv(y, x, yx)
    ensures FlightInv(y, x', yx)
  {
    forall g | g in yx && !g.flags.rst && g.ackno != 0
      ensures IsCut(x'.st, g.ackno)
    {
      CutKept(x.st, x'.st, g.ackno);
    }
  }

  lemma ReceiveGrows(x: Host, x': Host, y: Host)
    requires Grows(x, x') && ReceiveInv(x, y)
    ensures ReceiveInv(x', y)
  {
    if x.begun {
      OffKept(x.st, x'.st, y.got);
      if y.edge != 0 { CutKept(x.st, x'.st, y.edge); }
    } else {
      assert x'.st.chunks[..0] == x.st.chunks[..0];
    }
  }

  lemma OtherSide(x: Host, x': Host, y: Host, yx: set<Segment>)
    requires Grows(x, x') && SideInv(y, x, yx)
    ensures SideInv(y, x', yx)
  {
    FlightGrows(y, x, x', yx);
    ReceiveGrows(x, x', y);
  }

  // ------------------------------------------------- the endpoint that acts

  lemma CutBound(s: Stream, n: int)
    requires StreamOk(s) && IsCut(s, n)
    ensures s.isn < n <= Total(s)
  {
    if k: nat :| CutAt(s, k, n) { OffMonotone(s, k, |s.chunks|); }
  }

  lemma HoldsCut(s: Stream, c: Tcb, got: nat, taken: seq<Byte>)
    requires StreamOk(s) && Holds(s, c, got, taken)
    ensures IsCut(s, c.rcvNxt) && s.isn < c.rcvNxt <= Total(s)
  {
    if !GotFin(c.state) { assert CutAt(s, got, c.rcvNxt); }
    CutBound(s, c.rcvNxt);
  }

  /** In-order text is the next chunk: nothing else starts there. */
  lemma NextChunk(s: Stream, got: nat, seg: Segment)
    requires StreamOk(s) && WellSent(s, seg) && !seg.flags.syn && seg.text != []
    requires got <= |s.chunks| && seg.seqno == Off(s, got)
    ensures got < |s.chunks| && seg.text == s.chunks[got]
  {
    var k: nat :| IsChunk(s, k, seg);
    if k < got { OffMonotone(s, k, got); }
    if got < k { OffMonotone(s, got, k); }
  }

  lemma CopyChunk(s: Stream, c: Tcb, d: Tcb, got: nat, taken: seq<Byte>)
    requires StreamOk(s) && Holds(s, c, got, taken) && !GotFin(c.state) && got < |s.chunks|
    requires d.state == c.state && d.buf == c.buf + s.chunks[got]
    requires d.rcvNxt == Add32(c.rcvNxt, |s.chunks[got]|)
    ensures Holds(s, d, got + 1, taken) && c.rcvNxt <= d.rcvNxt
  {
    FlatNext(s.chunks, got);
    OffMonotone(s, got + 1, |s.chunks|);
    assert taken + d.buf == (taken + c.buf) + s.chunks[got];
  }

  lemma TextStep(s: Stream, c: Tcb, got: nat, taken: seq<Byte>, seg: Segment)
    requires StreamOk(s) && Holds(s, c, got, taken) && WellSent(s, seg) && !seg.flags.syn
    requires CopiesText(c, seg) ==> |seg.text| <= c.rcvWnd
    ensures var t := ProcessText(c, seg).cb; var got' := if CopiesText(c, seg) then got + 1 else got;
            Holds(s, t, got', taken) && c.rcvNxt <= t.rcvNxt
  {
    if CopiesText(c, seg) {
      NextChunk(s, got, seg);
      CopyChunk(s, c, ProcessText(c, seg).cb, got, taken);
    }
  }

  lemma FinStep(s: Stream, c: Tcb, got: nat, taken: seq<Byte>, seg: Segment, now: Time)
    requires StreamOk(s) && Synced(c.state) && c.state != LastAck
    requires Holds(s, c, got, taken) && WellSent(s, seg) && !seg.flags.syn
    ensures var f := ProcessFin(c, seg, now).cb;
            Holds(s, f, got, taken) && c.rcvNxt <= f.rcvNxt
  {
    HoldsCut(s, c, got, taken);
  }

  /** A reply acknowledges `ackno` and takes no sequence space. */
  predicate IsReply(g: Segment, seqno: Word, ackno: Word) {
    g.flags.rst || (g.flags == ACK && g.text == [] && g.seqno == seqno && g.ackno == ackno)
  }

  predicate AllReplies(out: seq<Segment>, seqno: Word, ackno: Word) {
    forall g :: g in out ==> IsReply(g, seqno, ackno)
  }

  lemma CheckReplies(c: Tcb, seg: Segment, now: Time)
    ensures AllReplies(CheckSynchronized(c, seg, now).out, c.sndNxt, c.rcvNxt)
  {
  }

  lemma ReceiveReplies(c: Tcb, seg: Segment, now: Time)
    requires CopiesText(c, seg) ==> |seg.text| <= c.rcvWnd
    ensures var t := ProcessText(c, seg); var f := ProcessFin(t.cb, seg, now);
            && AllReplies(t.out, c.sndNxt, t.cb.rcvNxt)
            && AllReplies(f.out, c.sndNxt, f.cb.rcvNxt)
            && f.cb.sndNxt == c.sndNxt
  {
  }

  lemma RepliesInFlight(x: Host, y: Host, out: seq<Segment>, ackno: Word)
    requires x.begun && StreamOk(x.st) && AllReplies(out, x.cb.sndNxt, ackno) && x.cb.sndNxt == Total(x.st)
    requires AcksUpTo(y, x.edge, ackno)
    ensures FlightInv(x, y, ToSet(out))
  {
    CutBound(x.st, Total(x.st)) by { assert CutAt(x.st, |x.st.chunks|, Off(x.st, |x.st.chunks|)); }
  }

  /** The obligations of the acting endpoint after one step. */
  ghost predicate Acted(x: Host, x': Host, y: Host, out: seq<Segment>) {
    && Grows(x, x')
    && FlightInv(x', y, ToSet(out))
    && ReceiveInv(y, x')
    && UnaInv(x', y)
  }

  /** Segments of `x` stay well-formed when `x` grows. */
  lemma FlightKept(x: Host, x': Host, y: Host, xy: set<Segment>)
    requires Grows(x, x') && FlightInv(x, y, xy) && StreamOk(x'.st)
    ensures FlightInv(x', y, xy)
  {
    forall g | g in xy && !g.flags.rst
      ensures WellSent(x'.st, g)
    {
      WellSentKept(x.st, x'.st, g);
    }
  }

  lemma WellSentKept(s: Stream, t: Stream, g: Segment)
    requires Extends(s, t) && WellSent(s, g) && StreamOk(t)
    ensures WellSent(t, g)
  {
    OffKept(s, t, |s.chunks|);
    OffMonotone(t, |s.chunks|, |t.chunks|);
    if k: nat :| IsChunk(s, k, g) {
      OffKept(s, t, k);
      assert IsChunk(t, k, g);
    }
  }

  /** The receiving half of an arrival that gets past the checks. */
  lemma GoReceives(y: Host, c: Tcb, got: nat, taken: seq<Byte>, seg: Segment, now: Time)
    requires StreamOk(y.st) && y.begun && Synced(c.state) && c.state != LastAck
    requires Holds(y.st, c, got, taken) && WellSent(y.st, seg) && !seg.flags.syn
    requires CopiesText(c, seg) ==> |seg.text| <= c.rcvWnd
    ensures var t := ProcessText(c, seg).cb; var f := ProcessFin(t, seg, now).cb;
            var got' := if CopiesText(c, seg) then got + 1 else got;
            && Holds(y.st, f, got', taken)
            && c.rcvNxt <= t.rcvNxt <= f.rcvNxt
            && AcksUpTo(y, f.rcvNxt, t.rcvNxt) && AcksUpTo(y, f.rcvNxt, f.rcvNxt)
  {
    var t := ProcessText(c, seg).cb;
    var got' := if CopiesText(c, seg) then got + 1 else got;
    TextStep(y.st, c, got, taken, seg);
    FinStep(y.st, t, got', taken, seg, now);
    HoldsCut(y.st, t, got', taken);
    HoldsCut(y.st, ProcessFin(t, seg, now).cb, got', taken);
  }

  lemma UnaMoves(x: Host, x': Host, y: Host, ackno: Word)
    requires UnaInv(x, y) && Synced(x.cb.state) && x'.st == x.st && x.st.isn <= x.cb.sndUna <= x'.cb.sndUna
    requires x'.cb.sndUna == x.cb.sndUna || (x'.cb.sndUna == ackno && AcksUpTo(x, y.edge, ackno))
    ensures UnaInv(x', y)
  {
  }

  /** `x'` is `x` after an arrival that resets the block or stops at the checks. */
  ghost predicate Stopped(x: Host, x': Host, seg: Segment) {
    && x' == x.(cb := x'.cb, acks := x'.acks, edge := if Synced(x'.cb.state) then x'.cb.rcvNxt else x.edge)
    && (x'.cb == CloseCb(x.cb) || (AckMove(x.cb, x'.cb, seg) && (x'.cb.sndUna == x.cb.sndUna || !seg.flags.rst)))
  }

  lemma StopMoves(x: Host, seg: Segment, now: Time, isn: Word)
    requires Local(x) && Synced(x.cb.state) && CheckSynchronized(x.cb, seg, now).Stop?
    ensures var m := ApplyArrival(x, seg, now, isn);
            Stopped(x, m.h, seg) && m.out == CheckSynchronized(x.cb, seg, now).out
  {
    ChecksEffect(x.cb, seg, now);
  }

  lemma StopSide(x: Host, x': Host, y: Host, seg: Segment)
    requires Local(x) && Synced(x.cb.state) && ReceiveInv(y, x) && UnaInv(x, y) && InFlight(y, x, seg)
    requires Stopped(x, x', seg)
    ensures Grows(x, x') && ReceiveInv(y, x') && UnaInv(x', y)
  {
    if x'.cb != CloseCb(x.cb) { UnaMoves(x, x', y, seg.ackno); }
  }

  /** An arrival that resets the block or stops at the checks. */
  lemma StopActed(x: Host, y: Host, seg: Segment, now: Time, isn: Word)
    requires Local(x) && Local(y) && Synced(x.cb.state) && ReceiveInv(y, x) && UnaInv(x, y)
    requires InFlight(y, x, seg) && CheckSynchronized(x.cb, seg, now).Stop?
    ensures var m := ApplyArrival(x, seg, now, isn); Acted(x, m.h, y, m.out)
  {
    var m := ApplyArrival(x, seg, now, isn);
    StopMoves(x, seg, now, isn);
    StopSide(x, m.h, y, seg);
    CheckReplies(x.cb, seg, now);
    HoldsCut(y.st, x.cb, x.got, x.taken);
    RepliesInFlight(x, y, m.out, x.cb.rcvNxt);
  }

  /** What holds of the endpoint once text and FIN have been processed. */
  lemma GoSide(x': Host, y: Host, c: Tcb, got: nat, seg: Segment, now: Time)
    requires StreamOk(y.st) && y.begun && Synced(c.state) && c.state != LastAck
    requires Holds(y.st, c, got, x'.taken) && WellSent(y.st, seg) && !seg.flags.syn
    requires CopiesText(c, seg) ==> |seg.text| <= c.rcvWnd
    requires x'.begun && StreamOk(x'.st) && c.sndNxt == Total(x'.st)
    requires x'.cb == ProcessFin(ProcessText(c, seg).cb, seg, now).cb && x'.edge == x'.cb.rcvNxt
    requires x'.got == if CopiesText(c, seg) then got + 1 else got
    ensures ReceiveInv(y, x') && c.rcvNxt <= x'.edge
    ensures var t := ProcessText(c, seg);
            FlightInv(x', y, ToSet(t.out)) && FlightInv(x', y, ToSet(ProcessFin(t.cb, seg, now).out))
  {
    GoReceives(y, c, got, x'.taken, seg, now);
    ReceiveReplies(c, seg, now);
    ReceiveEffect(c, seg, now);
    var t := ProcessText(c, seg);
    RepliesInFlight(x', y, t.out, t.cb.rcvNxt);
    RepliesInFlight(x', y, ProcessFin(t.cb, seg, now).out, x'.cb.rcvNxt);
    HoldsCut(y.st, x'.cb, x'.got, x'.taken);
    assert x'.taken <= x'.taken + x'.cb.buf;
  }

  lemma FlightUnion(x: Host, y: Host, p: seq<Segment>, q: seq<Segment>, r: seq<Segment>)
    requires FlightInv(x, y, ToSet(p)) && FlightInv(x, y, ToSet(q)) && FlightInv(x, y, ToSet(r))
    ensures FlightInv(x, y, ToSet(p + q + r))
  {
    assert ToSet(p + q + r) == ToSet(p) + ToSet(q) + ToSet(r);
  }

  /** The block between the checks and the text. */
  lemma GoMid(x: Host, y: Host, seg: Segment, now: Time)
    requires Local(x) && Synced(x.cb.state) && ReceiveInv(y, x)
    requires InFlight(y, x, seg) && CheckSynchronized(x.cb, seg, now).Go?
    ensures var c := CheckSynchronized(x.cb, seg, now).cb;
            && AckMove(x.cb, c, seg) && Synced(c.state) && c.state != LastAck
            && Holds(y.st, c, x.got, x.taken) && y.begun && WellSent(y.st, seg)
            && !seg.flags.syn && !seg.flags.rst && AcksUpTo(x, y.edge, seg.ackno)
  {
    ChecksEffect(x.cb, seg, now);
  }

  /** What an arrival that gets past the checks makes of the endpoint. */
  ghost predicate Gone(x: Host, x': Host, c: Tcb, seg: Segment, now: Time)
    requires CopiesText(c, seg) ==> |seg.text| <= c.rcvWnd
  {
    && x' == x.(cb := x'.cb, got := x'.got, edge := x'.cb.rcvNxt, acks := x'.acks)
    && x'.cb == ProcessFin(ProcessText(c, seg).cb, seg, now).cb && Synced(x'.cb.state)
    && x'.got == (if CopiesText(c, seg) then x.got + 1 else x.got)
    && x'.cb.sndUna == c.sndUna
  }

  lemma GoMoves(x: Host, seg: Segment, now: Time, isn: Word)
    requires Local(x) && Synced(x.cb.state) && CheckSynchronized(x.cb, seg, now).Go?
    requires !Overruns(x.cb, seg, now, isn)
    ensures var p := CheckSynchronized(x.cb, seg, now);
            var m := ApplyArrival(x, seg, now, isn);
            && Gone(x, m.h, p.cb, seg, now)
            && var t := ProcessText(p.cb, seg); m.out == p.out + t.out + ProcessFin(t.cb, seg, now).out
  {
    ChecksEffect(x.cb, seg, now);
    ReceiveEffect(CheckSynchronized(x.cb, seg, now).cb, seg, now);
  }

  lemma GoActed(x: Host, y: Host, seg: Segment, now: Time, isn: Word)
    requires Local(x) && Local(y) && Synced(x.cb.state) && ReceiveInv(y, x) && UnaInv(x, y)
    requires InFlight(y, x, seg) && CheckSynchronized(x.cb, seg, now).Go? && !Overruns(x.cb, seg, now, isn)
    ensures var m := ApplyArrival(x, seg, now, isn); Acted(x, m.h, y, m.out)
  {
    var p := CheckSynchronized(x.cb, seg, now);
    var m := ApplyArrival(x, seg, now, isn);
    GoMid(x, y, seg, now);
    GoMoves(x, seg, now, isn);
    GoSide(m.h, y, p.cb, x.got, seg, now);
    UnaMoves(x, m.h, y, seg.ackno);
    CheckReplies(x.cb, seg, now);
    HoldsCut(y.st, x.cb, x.got, x.taken);
    RepliesInFlight(m.h, y, p.out, x.cb.rcvNxt);
    var t := ProcessText(p.cb, seg);
    FlightUnion(m.h, y, p.out, t.out, ProcessFin(t.cb, seg, now).out);
  }

  /** The first SYN that a segment from `y` can be puts `rcv.nxt` at its first chunk. */
  lemma SynHolds(y: Host, c: Tcb, seg: Segment)
    requires StreamOk(y.st) && WellSent(y.st, seg) && seg.flags.syn
    requires c.buf == [] && c.rcvNxt == Add32(seg.seqno, 1) && !GotFin(c.state)
    ensures Holds(y.st, c, 0, [])
  {
    OffMonotone(y.st, 0, |y.st.chunks|);
  }

  /** A host that has just been synchronized by a SYN of `y`. */
  lemma SynSide(x': Host, y: Host, seg: Segment)
    requires StreamOk(y.st) && y.begun && WellSent(y.st, seg) && seg.flags.syn
    requires x'.cb.buf == [] && x'.cb.rcvNxt == Add32(seg.seqno, 1) && !GotFin(x'.cb.state)
    requires x'.got == 0 && x'.taken == [] && x'.edge == x'.cb.rcvNxt
    ensures ReceiveInv(y, x') && AcksUpTo(y, x'.edge, x'.cb.rcvNxt)
  {
    SynHolds(y, x'.cb, seg);
    HoldsCut(y.st, x'.cb, 0, []);
  }

  /** The acknowledgement field of any segment in flight is one the SYN_SENT state can believe. */
  lemma SynSentAck(x: Host, y: Host, seg: Segment)
    requires Local(x) && x.cb.state == SynSent && ReceiveInv(x, y) && InFlight(y, x, seg)
    requires !seg.flags.rst && seg.ackno != 0
    ensures seg.ackno <= x.cb.sndNxt && AcksUpTo(x, y.edge, seg.ackno)
  {
    CutBound(x.st, seg.ackno);
  }

  /** A segment sent in answer to a bare SYN or SYN,ACK. */
  predicate AnswersSyn(c: Tcb, g: Segment) {
    || IsReply(g, c.sndNxt, c.rcvNxt)
    || (g.flags == SYN_ACK && g.text == [] && g.seqno == c.iss && g.ackno == c.rcvNxt)
  }

  /** `x'` is `x` after a SYN has taken it out of SYN_SENT. */
  predicate OpensBySyn(x: Host, x': Host, seg: Segment) {
    var d := x'.cb;
    && x' == x.(cb := d, edge := d.rcvNxt)
    && d.buf == [] && d.sndNxt == x.cb.sndNxt && d.iss == x.cb.iss && d.rcvNxt == Add32(seg.seqno, 1)
    && (d.state == Established || d.state == SynRcvd)
    && (d.sndUna == x.st.isn || d.sndUna == seg.ackno > 0) && seg.flags.syn && !seg.flags.rst
  }

  lemma SynSentOut(c: Tcb, seg: Segment, now: Time, isn: Word)
    requires c.state == SynSent && seg.text == [] && !seg.flags.fin
    ensures var r := Arrive(c, seg, now, isn);
            && r.cb == CheckSynSent(c, seg, now).cb
            && forall g :: g in r.out ==> AnswersSyn(r.cb, g)
  {
  }

  lemma SynSentMoves(x: Host, seg: Segment, now: Time, isn: Word)
    requires Local(x) && x.cb.state == SynSent && SaneSyn(x.cb, seg)
    requires seg.text == [] && !seg.flags.fin && Synced(CheckSynSent(x.cb, seg, now).cb.state)
    ensures OpensBySyn(x, ApplyArrival(x, seg, now, isn).h, seg)
  {
    SynSentEffect(x.cb, seg, now);
    SynSentOut(x.cb, seg, now, isn);
  }

  lemma SynFlight(x': Host, y: Host, out: seq<Segment>)
    requires x'.begun && StreamOk(x'.st) && x'.cb.sndNxt == Total(x'.st) && x'.cb.iss == x'.st.isn
    requires AcksUpTo(y, x'.edge, x'.cb.rcvNxt)
    requires forall g :: g in out ==> AnswersSyn(x'.cb, g)
    ensures FlightInv(x', y, ToSet(out))
  {
    CutBound(x'.st, Total(x'.st)) by { assert CutAt(x'.st, |x'.st.chunks|, Off(x'.st, |x'.st.chunks|)); }
  }

  lemma SynActed(x: Host, x': Host, y: Host, seg: Segment, out: seq<Segment>)
    requires Local(x) && Local(y) && x.cb.state == SynSent && ReceiveInv(y, x) && ReceiveInv(x, y)
    requires InFlight(y, x, seg) && OpensBySyn(x, x', seg)
    requires forall g :: g in out ==> AnswersSyn(x'.cb, g)
    ensures Acted(x, x', y, out)
  {
    SynSide(x', y, seg);
    SynFlight(x', y, out);
    if seg.ackno != 0 { SynSentAck(x, y, seg); }
  }

  lemma SynSentOpens(x: Host, y: Host, seg: Segment, now: Time, isn: Word)
    requires Local(x) && Local(y) && x.cb.state == SynSent && ReceiveInv(y, x) && ReceiveInv(x, y)
    requires InFlight(y, x, seg) && !seg.flags.rst && seg.flags.syn && SaneSyn(x.cb, seg)
    requires Synced(CheckSynSent(x.cb, seg, now).cb.state)
    ensures var m := ApplyArrival(x, seg, now, isn); Acted(x, m.h, y, m.out)
  {
    var m := ApplyArrival(x, seg, now, isn);
    SynSentMoves(x, seg, now, isn);
    SynSentOut(x.cb, seg, now, isn);
    SynActed(x, m.h, y, seg, m.out);
  }

  /** `x'` is `x` after a SYN has taken it out of LISTEN. */
  predicate OpensListener(x: Host, x': Host, seg: Segment) {
    var d := x'.cb;
    && x' == x.(cb := d, begun := true, st := x'.st, edge := d.rcvNxt)
    && x'.st.chunks == [] && !x'.st.fin
    && d.buf == [] && d.iss == x'.st.isn == d.sndUna && d.sndNxt == x'.st.isn + 1
    && d.rcvNxt == Add32(seg.seqno, 1) && d.state == SynRcvd && seg.flags.syn && !seg.flags.rst
  }

  lemma ListenMoves(x: Host, seg: Segment, now: Time, isn: Word)
    requires Local(x) && x.cb.state == Listen && seg.text == [] && !seg.flags.fin
    requires CheckListen(x.cb, seg, now, isn).Go? && StreamOk(ApplyArrival(x, seg, now, isn).h.st)
    ensures var m := ApplyArrival(x, seg, now, isn);
            OpensListener(x, m.h, seg) && forall g :: g in m.out ==> AnswersSyn(m.h.cb, g)
  {
    assert ApplyArrival(x, seg, now, isn).h.st == Stream(isn, [], false);
  }

  lemma ListenerActed(x: Host, x': Host, y: Host, seg: Segment, out: seq<Segment>)
    requires Local(x) && Local(y) && x.cb.state == Listen && ReceiveInv(y, x)
    requires InFlight(y, x, seg) && OpensListener(x, x', seg) && StreamOk(x'.st)
    requires forall g :: g in out ==> AnswersSyn(x'.cb, g)
    ensures Acted(x, x', y, out)
  {
    SynSide(x', y, seg);
    SynFlight(x', y, out);
  }

  lemma ListenActed(x: Host, y: Host, seg: Segment, now: Time, isn: Word)
    requires Local(x) && Local(y) && x.cb.state == Listen && ReceiveInv(y, x) && InFlight(y, x, seg)
    requires StreamOk(ApplyArrival(x, seg, now, isn).h.st)
    ensures var m := ApplyArrival(x, seg, now, isn); Acted(x, m.h, y, m.out)
  {
    var m := ApplyArrival(x, seg, now, isn);
    if CheckListen(x.cb, seg, now, isn).Go? {
      ListenMoves(x, seg, now, isn);
      ListenerActed(x, m.h, y, seg, m.out);
    }
  }

  lemma SynSentQuiet(x: Host, y: Host, seg: Segment, now: Time, isn: Word)
    requires Local(x) && x.cb.state == SynSent && ReceiveInv(y, x) && SaneSyn(x.cb, seg)
    requires !Synced(CheckSynSent(x.cb, seg, now).cb.state)
    ensures var m := ApplyArrival(x, seg, now, isn); Acted(x, m.h, y, m.out)
  {
    SynSentEffect(x.cb, seg, now);
  }

  lemma SynSentActed(x: Host, y: Host, seg: Segment, now: Time, isn: Word)
    requires Local(x) && Local(y) && x.cb.state == SynSent && ReceiveInv(y, x) && ReceiveInv(x, y)
    requires InFlight(y, x, seg)
    ensures SaneSyn(x.cb, seg)
    ensures var m := ApplyArrival(x, seg, now, isn); Acted(x, m.h, y, m.out)
  {
    if !seg.flags.rst && seg.ackno != 0 { SynSentAck(x, y, seg); }
    SynSentEffect(x.cb, seg, now);
    if Synced(CheckSynSent(x.cb, seg, now).cb.state) {
      SynSentOpens(x, y, seg, now, isn);
    } else {
      SynSentQuiet(x, y, seg, now, isn);
    }
  }

  // -------------------------------------------------------- timer and calls

  lemma UnitWellSent(s: Stream, i: nat, g: Segment, ackno: Word)
    requires StreamOk(s) && i < Units(s) && IsUnit(s, i, g)
    ensures WellSent(s, g.(ackno := ackno)) && !g.flags.rst
  {
    if 1 <= i <= |s.chunks| { assert IsChunk(s, i - 1, g.(ackno := ackno)); }
  }

  lemma QueueWellSent(s: Stream, q: seq<Entry>, e: Entry, ackno: Word)
    requires StreamOk(s) && QueueInv(s, q) && e in q
    ensures WellSent(s, e.seg.(ackno := ackno)) && !e.seg.flags.rst
  {
    var b := Base(q);
    var j :| 0 <= j < |q| && q[j] == e;
    if TwoSyns(q) && j == 0 {
      UnitWellSent(s, 0, e.seg, ackno);
    } else {
      var i := if TwoSyns(q) then j - 1 else j;
      assert b[i] == e;
      UnitWellSent(s, Units(s) - |b| + i, e.seg, ackno);
    }
  }

  /** The timer sends queued segments, with the acknowledgement field rewritten. */
  lemma {:induction false} WalkSends(q: seq<Entry>, una: Word, wnd: Half, rcvNxt: Word, now: Time, sum: nat)
    ensures forall g :: g in TimerWalk(q, una, wnd, rcvNxt, now, sum).out ==>
              exists e :: e in q && g == e.seg.(ackno := rcvNxt)
    decreases |q|
  {
    if q != [] {
      var sum' := if q[0].seg.seqno >= una then sum + |q[0].seg.text| else sum;
      WalkSends(q[1..], una, wnd, rcvNxt, now, sum');
      forall g | g in TimerWalk(q, una, wnd, rcvNxt, now, sum).out
        ensures exists e :: e in q && g == e.seg.(ackno := rcvNxt)
      {
        if g in TimerWalk(q[1..], una, wnd, rcvNxt, now, sum').out {
          var e :| e in q[1..] && g == e.seg.(ackno := rcvNxt);
          assert e in q;
        } else {
          assert q[0] in q;
        }
      }
    }
  }

  /** `rcv.nxt` of a live block may always be announced. */
  lemma EdgeAcks(x: Host, y: Host)
    requires Local(x) && StreamOk(y.st) && ReceiveInv(y, x) && x.cb.state != Closed && x.cb.state != Listen
    ensures AcksUpTo(y, x.edge, x.cb.rcvNxt)
  {
    if Synced(x.cb.state) { HoldsCut(y.st, x.cb, x.got, x.taken); }
  }

  lemma TickActed(x: Host, y: Host, now: Time)
    requires Local(x) && StreamOk(y.st) && ReceiveInv(y, x) && UnaInv(x, y)
    ensures var m := Apply(x, Tick(now)); Acted(x, m.h, y, m.out)
  {
    var c := x.cb;
    if c.state != Closed && c.state != Listen && !TimedOut(c, now) {
      var p := TimerWalk(c.txq, c.sndUna, c.sndWnd, c.rcvNxt, now, 0);
      WalkSends(c.txq, c.sndUna, c.sndWnd, c.rcvNxt, now, 0);
      EdgeAcks(x, y);
      forall g | g in p.out
        ensures InFlight(x, y, g)
      {
        var e :| e in c.txq && g == e.seg.(ackno := c.rcvNxt);
        QueueWellSent(x.st, c.txq, e, c.rcvNxt);
      }
    }
  }

  /** A call that queues one more unit. */
  lemma QueuedActed(x: Host, x': Host, y: Host, e: Entry, out: seq<Segment>)
    requires Local(x) && StreamOk(y.st) && ReceiveInv(y, x) && UnaInv(x, y) && Synced(x.cb.state)
    requires x' == x.(cb := x'.cb, st := x'.st) && Extends(x.st, x'.st) && StreamOk(x'.st)
    requires x'.cb == x.cb.(used := x'.cb.used, state := x'.cb.state, sndNxt := x'.cb.sndNxt,
                            timeout := x'.cb.timeout, txq := x'.cb.txq, snt := x'.cb.snt)
    requires Synced(x'.cb.state) && GotFin(x'.cb.state) == GotFin(x.cb.state)
    requires Units(x.st) < Units(x'.st) && IsUnit(x'.st, Units(x.st), e.seg) && e.seg.ackno == x.cb.rcvNxt
    requires forall g :: g in out ==> g == e.seg
    ensures Acted(x, x', y, out)
  {
    EdgeAcks(x, y);
    UnitWellSent(x'.st, Units(x.st), e.seg, x.cb.rcvNxt);
    if x.cb.sndUna != x.st.isn { CutKept(x.st, x'.st, x.cb.sndUna); }
  }

  lemma SendActed(x: Host, y: Host, data: seq<Byte>, mtu: nat, now: Time)
    requires Local(x) && StreamOk(y.st) && ReceiveInv(y, x) && UnaInv(x, y)
    requires Enabled(x, Send(data, mtu, now)) && StreamOk(Apply(x, Send(data, mtu, now)).h.st)
    ensures var m := Apply(x, Send(data, mtu, now)); Acted(x, m.h, y, m.out)
  {
    var m := Apply(x, Send(data, mtu, now));
    var text: Text := data[..ChunkSize(x.cb, |data|, mtu)];
    EnqueueEffect(x.cb, x.cb.sndNxt, x.cb.rcvNxt, PSH_ACK, now, text);
    var e := m.h.cb.txq[|x.cb.txq|];
    SentUnit(x.st, text, e.seg);
    QueuedActed(x, m.h, y, e, m.out);
  }

  lemma FinActed(x: Host, y: Host, now: Time)
    requires Local(x) && StreamOk(y.st) && ReceiveInv(y, x) && UnaInv(x, y) && x.cb.used && CanClose(x.cb.state)
    ensures var m := Apply(x, Shut(now)); Acted(x, m.h, y, m.out)
  {
    var m := Apply(x, Shut(now));
    EnqueueEffect(x.cb.(used := false), x.cb.sndNxt, x.cb.rcvNxt, FIN_ACK, now, []);
    var e := m.h.cb.txq[|x.cb.txq|];
    FinUnit(x.st, e.seg);
    QueuedActed(x, m.h, y, e, m.out);
  }

  lemma ShutActed(x: Host, y: Host, now: Time)
    requires Local(x) && StreamOk(y.st) && ReceiveInv(y, x) && UnaInv(x, y) && x.cb.used
    ensures var m := Apply(x, Shut(now)); Acted(x, m.h, y, m.out)
  {
    if CanClose(x.cb.state) { FinActed(x, y, now); }
  }

  lemma OpenActed(x: Host, y: Host, isn: Word, now: Time)
    requires Local(x) && ReceiveInv(y, x) && Enabled(x, Open(isn, now))
    ensures var m := Apply(x, Open(isn, now)); Acted(x, m.h, y, m.out)
  {
  }

  lemma TakeHolds(s: Stream, c: Tcb, got: nat, taken: seq<Byte>, n: nat)
    requires Holds(s, c, got, taken) && n <= |c.buf| && c.rcvWnd + n <= WINDOW_SIZE
    ensures Holds(s, Take(c, n), got, taken + c.buf[..n])
    ensures taken + c.buf[..n] <= Flat(s.chunks[..got])
  {
    assert (taken + c.buf[..n]) + c.buf[n..] == taken + c.buf;
  }

  lemma RecvActed(x: Host, y: Host, size: nat)
    requires Local(x) && ReceiveInv(y, x) && UnaInv(x, y) && Enabled(x, Recv(size))
    ensures var m := Apply(x, Recv(size)); Acted(x, m.h, y, m.out)
  {
    TakeHolds(y.st, x.cb, x.got, x.taken, if size < |x.cb.buf| then size else |x.cb.buf|);
  }

  // -------------------------------------------------------------- every run

  lemma ClosedActed(x: Host, y: Host, seg: Segment, now: Time, isn: Word)
    requires Local(x) && x.cb.state == Closed && ReceiveInv(y, x)
    ensures var m := ApplyArrival(x, seg, now, isn); Acted(x, m.h, y, m.out)
  {
    var m := ApplyArrival(x, seg, now, isn);
    assert m.h == x && forall g :: g in m.out ==> g.flags.rst;
  }

  lemma SyncedActed(x: Host, y: Host, seg: Segment, now: Time, isn: Word)
    requires Local(x) && Local(y) && Synced(x.cb.state) && ReceiveInv(y, x) && UnaInv(x, y)
    requires InFlight(y, x, seg) && !Overruns(x.cb, seg, now, isn)
    ensures var m := ApplyArrival(x, seg, now, isn); Acted(x, m.h, y, m.out)
  {
    if CheckSynchronized(x.cb, seg, now).Go? { GoActed(x, y, seg, now, isn); }
    else { StopActed(x, y, seg, now, isn); }
  }

  lemma ArrivalActed(x: Host, y: Host, seg: Segment, now: Time, isn: Word)
    requires Local(x) && Local(y) && ReceiveInv(y, x) && ReceiveInv(x, y) && UnaInv(x, y)
    requires InFlight(y, x, seg) && !Overruns(x.cb, seg, now, isn)
    requires StreamOk(ApplyArrival(x, seg, now, isn).h.st)
    ensures SaneSyn(x.cb, seg)
    ensures var m := ApplyArrival(x, seg, now, isn); Acted(x, m.h, y, m.out)
  {
    if Synced(x.cb.state) { SyncedActed(x, y, seg, now, isn); }
    else if x.cb.state == Closed { ClosedActed(x, y, seg, now, isn); }
    else if x.cb.state == Listen { ListenActed(x, y, seg, now, isn); }
    else { SynSentActed(x, y, seg, now, isn); }
  }

  lemma EventActed(x: Host, y: Host, e: Event)
    requires Local(x) && Local(y) && ReceiveInv(y, x) && ReceiveInv(x, y) && UnaInv(x, y)
    requires Enabled(x, e) && StreamOk(Apply(x, e).h.st)
    requires e.Arrival? ==> InFlight(y, x, e.seg)
    ensures e.Arrival? ==> SaneSyn(x.cb, e.seg)
    ensures Acted(x, Apply(x, e).h, y, Apply(x, e).out)
  {
    match e
    case Open(isn, now) => OpenActed(x, y, isn, now);
    case Accepted =>
    case Arrival(seg, now, isn) => ArrivalActed(x, y, seg, now, isn);
    case Tick(now) => TickActed(x, y, now);
    case Send(data, mtu, now) => SendActed(x, y, data, mtu, now);
    case Recv(size) => RecvActed(x, y, size);
    case Shut(now) => ShutActed(x, y, now);
  }

  lemma StepAKeepsInv(w: World, e: Event, w': World)
    requires Inv(w) && StepA(w, e, w')
    ensures Inv(w')
  {
    var m := Apply(w.a, e);
    EventActed(w.a, w.b, e);
    StepKeepsLocal(w.a, e);
    FlightKept(w.a, m.h, w.b, w.ab);
    OtherSide(w.a, m.h, w.b, w.ba);
  }

  lemma StepKeepsInv(w: World, e: Event, w': World)
    requires Inv(w) && Step(w, e, w')
    ensures Inv(w')
  {
    if StepA(w, e, w') { StepAKeepsInv(w, e, w'); }
    else { StepAKeepsInv(Flip(w), e, Flip(w')); }
  }

  lemma InitialInv(w: World)
    requires InitialWorld(w)
    ensures Inv(w)
  {
  }

  /** Every state of every run satisfies the invariant. */
  lemma {:induction false} RunInv(ws: seq<World>, es: seq<Event>, i: nat)
    requires IsRun(ws, es) && i < |ws|
    ensures Inv(ws[i])
    decreases i
  {
    if i == 0 {
      InitialInv(ws[0]);
    } else {
      RunInv(ws, es, i - 1);
      assert StepAt(ws, es, i - 1);
      StepKeepsInv(ws[i - 1], es[i - 1], ws[i]);
    }
  }
}
