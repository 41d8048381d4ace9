/**
 A run in which the stack overruns its own receive buffer: a reader that never
 reads, a window of 215 bytes left, and a segment of 1420 bytes that the timer
 sends because nothing is in front of it in the queue.
 */
module TcpOverrun {
  import opened Words
  import opened TcpModel
  import opened TcpHost
  import opened TcpLocal
  import opened TcpConnection
  import opened TcpFinOvertakes

  const MTU: nat := 1500
  const SIZE: nat := 1420

  function Block(): (t: Text)
    ensures |t| == SIZE
  {
    seq(SIZE, i => 7)
  }

  /** The `k`-th segment of text and its acknowledgement. */
  function Data(k: nat): Segment
    requires k <= 46
  {
    Segment(501 + SIZE * k, 101, PSH_ACK, 65535, Block())
  }

  function Ack(k: nat): Segment
    requires k < 46
  {
    Segment(101, 501 + SIZE * (k + 1), ACK, 65535 - SIZE * (k + 1), [])
  }

  /** The reader after `k` segments, none of which it has read. */
  predicate Reader(c: Tcb, k: nat)
    requires k <= 46
  {
    && c.state == Established && c.sndUna == c.sndNxt == 101
    && c.rcvNxt == 501 + SIZE * k && c.rcvWnd == 65535 - SIZE * k
  }

  /** The writer after `k` segments, all of them acknowledged. */
  predicate Writer(c: Tcb, k: nat)
    requires k <= 46
  {
    && c.state == Established && c.used && c.txq == [] && c.snt == 0
    && c.sndUna == c.sndNxt == 501 + SIZE * k && c.sndWnd == 65535 - SIZE * k
    && c.rcvNxt == c.wl1 == 101 && c.rcvWnd == 65535 && c.wl2 <= c.sndUna
  }

  ghost predicate Round(w: World, k: nat)
    requires k <= 46
  {
    Reachable(w) && Reader(w.a.cb, k) && Writer(w.b.cb, k)
  }

  // ------------------------------------------------------------ the writer

  lemma StreamGrows(h: Host)
    requires Local(h) && h.cb.state == Established && h.cb.sndNxt <= 501 + SIZE * 46
    ensures StreamOk(Sent(h.st, Block()))
  {
    SentUnit(h.st, Block(), Segment(h.cb.sndNxt, 0, PSH_ACK, 0, Block()));
  }

  lemma WholeBlock(c: Tcb, k: nat)
    requires k <= 46 && Writer(c, k)
    ensures CanSend(c) && ChunkSize(c, SIZE, MTU) == SIZE
  {
  }

  /** What the writer's block becomes by queueing segment `k` with this stamp. */
  function Queued(c: Tcb, k: nat, stamp: nat, snt: Half): Tcb
    requires k <= 46
  {
    c.(txq := [Entry(Data(k), stamp)], snt := snt, timeout := 21, sndNxt := 501 + SIZE * (k + 1))
  }

  lemma QueuesBlock(c: Tcb, k: nat)
    requires k <= 46 && Writer(c, k)
    ensures SendChunk(c, Block(), 1)
            == if k < 46 then Result(Queued(c, k, 1, SIZE), [Data(k)]) else Result(Queued(c, k, 0, 0), [])
  {
  }

  /** The writer queues a segment and sends it, unless the window is too small. */
  lemma WriterSends(h: Host, k: nat)
    requires k <= 46 && Local(h) && Writer(h.cb, k)
    ensures Enabled(h, Send(Block(), MTU, 1))
    ensures var m := Apply(h, Send(Block(), MTU, 1));
            && StreamOk(m.h.st)
            && Result(m.h.cb, m.out)
               == if k < 46 then Result(Queued(h.cb, k, 1, SIZE), [Data(k)]) else Result(Queued(h.cb, k, 0, 0), [])
  {
    StreamGrows(h);
    WholeBlock(h.cb, k);
    QueuesBlock(h.cb, k);
    assert Block()[..SIZE] == Block();
  }

  function Acknowledged(c: Tcb, k: nat): Tcb
    requires k < 46
  {
    c.(sndUna := 501 + SIZE * (k + 1), sndWnd := 65535 - SIZE * (k + 1), wl2 := 501 + SIZE * (k + 1), timeout := 21)
  }

  lemma AckChecks(c: Tcb, k: nat)
    requires k < 46 && Writer(c, k)
    ensures CheckSynchronized(Queued(c, k, 1, SIZE), Ack(k), 1) == Go(Acknowledged(Queued(c, k, 1, SIZE), k), [])
  {
  }

  lemma WriterLearns(h: Host, c: Tcb, k: nat)
    requires k < 46 && Writer(c, k) && h.cb == Queued(c, k, 1, SIZE)
    ensures Enabled(h, Arrival(Ack(k), 1, 0))
    ensures var m := Apply(h, Arrival(Ack(k), 1, 0));
            m.out == [] && m.h.st == h.st && m.h.cb == Acknowledged(h.cb, k)
  {
    AckChecks(c, k);
  }

  lemma WalkOne(e: Entry, una: Word, wnd: Half, rcvNxt: Word)
    ensures var p := TimerWalk([e], una, wnd, rcvNxt, 1, 0);
            && (e.seg.seqno < una ==> p == Pass([], [], |e.seg.text|))
            && (e.seg.seqno >= una && 0 < wnd && e.stamp == 0 ==>
                  var g := e.seg.(ackno := rcvNxt); p == Pass([Entry(g, 1)], [g], 0))
  {
    assert [e][1..] == [];
    assert TimerWalk([], una, wnd, rcvNxt, 1, |e.seg.text|) == Pass([], [], 0);
    assert TimerWalk([], una, wnd, rcvNxt, 1, 0) == Pass([], [], 0);
  }

  lemma WriterFrees(h: Host, c: Tcb, k: nat)
    requires k < 46 && Writer(c, k) && h.cb == Acknowledged(Queued(c, k, 1, SIZE), k)
    ensures var m := Apply(h, Tick(1));
            m.out == [] && m.h.st == h.st && Writer(m.h.cb, k + 1)
  {
    WalkOne(Entry(Data(k), 1), h.cb.sndUna, h.cb.sndWnd, h.cb.rcvNxt);
  }

  /** With 215 bytes of window the timer sends all 1420. */
  lemma TimerSends(h: Host, c: Tcb)
    requires Writer(c, 46) && h.cb == Queued(c, 46, 0, 0)
    ensures var m := Apply(h, Tick(1)); m.out == [Data(46)] && m.h.st == h.st
  {
    WalkOne(Entry(Data(46), 0), h.cb.sndUna, h.cb.sndWnd, h.cb.rcvNxt);
  }

  // ------------------------------------------------------------ the reader

  function Heard(c: Tcb, d: Tcb): Tcb {
    c.(sndWnd := d.sndWnd, wl1 := d.wl1, wl2 := d.wl2)
  }

  lemma DataChecks(c: Tcb, k: nat)
    requires k <= 46 && Reader(c, k)
    ensures var p := CheckSynchronized(c, Data(k), 1); p == Go(Heard(c, p.cb), [])
  {
  }

  lemma DataTaken(c: Tcb, k: nat)
    requires k < 46 && Reader(c, k)
    ensures ProcessText(c, Data(k)).out == [Ack(k)] && Reader(ProcessText(c, Data(k)).cb, k + 1)
  {
  }

  /** The reader takes the segment and acknowledges it. */
  lemma ReaderTakes(h: Host, k: nat)
    requires k < 46 && Reader(h.cb, k)
    ensures Enabled(h, Arrival(Data(k), 1, 0))
    ensures var m := Apply(h, Arrival(Data(k), 1, 0));
            Reader(m.h.cb, k + 1) && m.out == [Ack(k)] && m.h.st == h.st
  {
    DataChecks(h.cb, k);
    var c := CheckSynchronized(h.cb, Data(k), 1).cb;
    DataTaken(c, k);
    assert Arrive(h.cb, Data(k), 1, 0).out == [] + [Ack(k)] + [];
  }

  lemma LastOverruns(c: Tcb)
    requires Reader(c, 46)
    ensures Overruns(c, Data(46), 1, 0)
  {
    DataChecks(c, 46);
  }

  // --------------------------------------------------------------- the run

  lemma StepB(w: World, e: Event, m: Move) returns (w': World)
    requires Reachable(w) && Enabled(w.b, e) && (e.Arrival? ==> e.seg in w.ab)
    requires m == Apply(w.b, e) && StreamOk(m.h.st)
    ensures Reachable(w') && w' == World(w.a, m.h, w.ab, w.ba + ToSet(m.out))
  {
    w' := World(w.a, m.h, w.ab, w.ba + ToSet(m.out));
    TakenB(w, e, w', m.out);
    ReachableNext(w, e, w');
  }

  lemma StepOfA(w: World, e: Event, m: Move) returns (w': World)
    requires Reachable(w) && Enabled(w.a, e) && (e.Arrival? ==> e.seg in w.ba)
    requires m == Apply(w.a, e) && StreamOk(m.h.st)
    ensures Reachable(w') && w' == World(m.h, w.b, w.ab + ToSet(m.out), w.ba)
  {
    w' := World(m.h, w.b, w.ab + ToSet(m.out), w.ba);
    Taken(w, e, w', m.out);
    ReachableNext(w, e, w');
  }

  lemma ReachableLocal(w: World)
    requires Reachable(w)
    ensures Local(w.a) && Local(w.b)
  {
    var ws, es :| RunTo(ws, es, w);
    RunInv(ws, es, |es|);
  }

  lemma OneRound(w: World, k: nat) returns (w': World)
    requires k < 46 && Round(w, k)
    ensures Round(w', k + 1)
  {
    ReachableLocal(w);
    WriterSends(w.b, k);
    var w1 := StepB(w, Send(Block(), MTU, 1), Apply(w.b, Send(Block(), MTU, 1)));
    ReaderTakes(w1.a, k);
    assert Data(k) in [Data(k)];
    var w2 := StepOfA(w1, Arrival(Data(k), 1, 0), Apply(w1.a, Arrival(Data(k), 1, 0)));
    assert Ack(k) in [Ack(k)];
    WriterLearns(w2.b, w.b.cb, k);
    var w3 := StepB(w2, Arrival(Ack(k), 1, 0), Apply(w2.b, Arrival(Ack(k), 1, 0)));
    WriterFrees(w3.b, w.b.cb, k);
    w' := StepB(w3, Tick(1), Apply(w3.b, Tick(1)));
  }

  /** The connection accepted, and the queue of the accepting end empty. */
  lemma FirstRound() returns (w: World)
    ensures Round(w, 0)
  {
    W4Reachable();
    StepsToFinWait();
    ReachableNext(W4, Event.Accepted, W5);
    WalkOne(Entry(S2, 1), 501, 65535, 101);
    StreamsOk();
    w := StepB(W5, Tick(1), Apply(W5.b, Tick(1)));
  }

  lemma {:induction false} Rounds(k: nat) returns (w: World)
    requires k <= 46
    ensures Round(w, k)
  {
    if k == 0 {
      w := FirstRound();
    } else {
      w := Rounds(k - 1);
      w := OneRound(w, k - 1);
    }
  }

  /**
   * A reachable state of two endpoints of this stack, with the usual MTU of 1500,
   * in which a segment in flight would be copied past the end of `window`.
   */
  lemma OverrunReachable() returns (w: World, seg: Segment)
    ensures Reachable(w) && seg in w.ba && Overruns(w.a.cb, seg, 1, 0)
  {
    var w0 := Rounds(46);
    ReachableLocal(w0);
    WriterSends(w0.b, 46);
    var w1 := StepB(w0, Send(Block(), MTU, 1), Apply(w0.b, Send(Block(), MTU, 1)));
    TimerSends(w1.b, w0.b.cb);
    w := StepB(w1, Tick(1), Apply(w1.b, Tick(1)));
    seg := Data(46);
    assert seg in [Data(46)];
    LastOverruns(w.a.cb);
  }

  /** A segment that gets past the checks of another state than those that take text is not copied past the end. */
  lemma OnlyTakers(h: Host, seg: Segment, now: Time, isn: Word)
    requires Local(h) && !TakesText(h.cb.state)
    ensures !Overruns(h.cb, seg, now, isn)
  {
    var c := h.cb;
    if Synced(c.state) {
      ChecksEffect(c, seg, now);
    } else if c.state == SynSent {
      assert Add32(seg.seqno, 1) != seg.seqno;
    }
  }

  /**
   * Whatever has happened to an endpoint, the copy runs past the end exactly when
   * its state takes text and acceptable text at `rcv.nxt` that gets past the other
   * checks is longer than the window. Without wrap-around of the right edge, text
   * at `rcv.nxt` is acceptable unless the window is 0.
   */
  lemma OverrunsIff(h: Host, seg: Segment, now: Time, isn: Word)
    requires Local(h)
    ensures var c := h.cb;
            Overruns(c, seg, now, isn) <==>
              && TakesText(c.state) && Acceptable(c, seg) && seg.seqno == c.rcvNxt && |seg.text| > c.rcvWnd
              && !seg.flags.rst && !seg.flags.syn && (seg.flags.ack ==> seg.ackno <= c.sndNxt)
    ensures var c := h.cb;
            seg.seqno == c.rcvNxt && seg.text != [] && c.rcvNxt + c.rcvWnd < TWO32 ==>
              (Acceptable(c, seg) <==> c.rcvWnd > 0)
  {
    var c := h.cb;
    if !TakesText(c.state) {
      OnlyTakers(h, seg, now, isn);
    } else if Acceptable(c, seg) && !seg.flags.rst && !seg.flags.syn && seg.flags.ack {
      AckGoes(c, seg, now);
    }
  }

  lemma AckGoes(c: Tcb, seg: Segment, now: Time)
    requires TakesText(c.state) && c.sndUna <= c.sndNxt
    ensures var p := ProcessAck(c, seg, now);
            && (p.Go? <==> seg.ackno <= c.sndNxt)
            && TakesText(p.cb.state) && p.cb.rcvNxt == c.rcvNxt && p.cb.rcvWnd == c.rcvWnd
  {
  }
}
