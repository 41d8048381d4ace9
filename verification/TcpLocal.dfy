/** What every critical section keeps at one endpoint, whatever segments arrive. */
module TcpLocal {
  import opened Words
  import opened TcpModel
  import opened TcpHost

  predicate Idle(c: Tcb) {
    && c.txq == [] && c.buf == []
    && c.sndNxt == 0 && c.sndUna == 0 && c.rcvNxt == 0
    && c.wl1 == 0 && c.wl2 == 0 && c.sndWnd == 0
  }

  /** The scalar fields of a block past CLOSED and LISTEN, with initial sequence
      number `isn` and, if `fin`, a FIN queued. */
  predicate Numbers(isn: Word, fin: bool, c: Tcb) {
    && c.iss == isn
    && c.state != LastAck
    && isn <= c.sndUna <= c.sndNxt
    && c.sndNxt - c.sndUna <= SND_BUF_SIZE + (if fin then 1 else 0)
    && (fin <==> FinSent(c.state))
    && (c.state == SynSent ==> |c.txq| <= 1 && c.rcvNxt == 0 && c.rcvWnd == WINDOW_SIZE && c.sndUna == isn)
    && (c.state == SynRcvd ==> c.rcvWnd == WINDOW_SIZE)
    && (c.state == FinWait2 || c.state == TimeWait ==> c.sndUna >= c.sndNxt - 1)
    && c.wl2 <= c.sndUna
    && |c.buf| == WINDOW_SIZE - c.rcvWnd
  }

  predicate Opening(s: State) {
    s == SynSent || s == SynRcvd
  }

  /** Every unit that has left the queue starts below `una`. */
  predicate Covers(s: Stream, q: seq<Entry>, una: int) {
    var n := |Base(q)|;
    n < Units(s) ==> Start(s, Units(s) - n - 1) < una
  }

  predicate Live(s: Stream, c: Tcb) {
    && Numbers(s.isn, s.fin, c)
    && Covers(s, c.txq, c.sndUna)
    && c.sndNxt == Total(s)
    && (Opening(c.state) ==> s.chunks == [])
    && QueueInv(s, c.txq) && UnsentLast(c.txq)
  }

  predicate Local(h: Host) {
    && StreamOk(h.st)
    && (!h.begun ==> h.st.chunks == [] && !h.st.fin && h.edge == 0 && h.got == 0 && h.taken == [])
    && (h.cb.state == SynSent ==> h.edge == 0)
    && match h.cb.state
       case Closed => Idle(h.cb)
       case Listen => Idle(h.cb) && !h.begun
       case _ => h.begun && Live(h.st, h.cb)
  }

  lemma UnitKept(s: Stream, t: Stream, i: nat, g: Segment)
    requires Extends(s, t) && i < Units(s)
    ensures i < Units(t) && Start(s, i) == Start(t, i)
    ensures IsUnit(s, i, g) <==> IsUnit(t, i, g)
  {
    if 0 < i { OffKept(s, t, i - 1); }
  }

  lemma LastUnitsGrow(s: Stream, t: Stream, b: seq<Entry>, e: Entry)
    requires LastUnits(s, b) && Extends(s, t) && Units(t) == Units(s) + 1
    requires IsUnit(t, Units(s), e.seg)
    ensures LastUnits(t, b + [e])
  {
    var u, c := Units(s) - |b|, b + [e];
    forall j | 0 <= j < |c|
      ensures IsUnit(t, Units(t) - |c| + j, c[j].seg)
    {
      if j < |b| {
        assert c[j] == b[j] && IsUnit(s, u + j, b[j].seg);
        UnitKept(s, t, u + j, b[j].seg);
      }
    }
  }

  /** Queueing the next unit of a longer stream. */
  lemma QueueGrows(s: Stream, t: Stream, q: seq<Entry>, e: Entry)
    requires QueueInv(s, q) && Extends(s, t) && Units(t) == Units(s) + 1
    requires IsUnit(t, Units(s), e.seg)
    ensures QueueInv(t, q + [e])
    ensures forall una :: Covers(s, q, una) ==> Covers(t, q + [e], una)
  {
    LastUnitsGrow(s, t, Base(q), e);
    assert !e.seg.flags.syn;
    assert Base(q + [e]) == Base(q) + [e];
    if TwoSyns(q) { UnitKept(s, t, 0, q[0].seg); }
    if |Base(q)| < Units(s) { UnitKept(s, t, Units(s) - |Base(q)| - 1, e.seg); }
  }

  lemma StartIncreases(s: Stream, i: nat, j: nat)
    requires StreamOk(s) && i < j <= Units(s)
    ensures Start(s, i) < Start(s, j)
  {
    if 0 < i && j <= |s.chunks| + 1 { OffMonotone(s, i - 1, j - 1); }
    else if j <= |s.chunks| + 1 { OffMonotone(s, 0, j - 1); }
    else if 0 < i { OffMonotone(s, i - 1, |s.chunks|); }
    else { OffMonotone(s, 0, |s.chunks|); }
  }

  // ------------------------------------------------------------ timer walk

  predicate Sorted(q: seq<Entry>) {
    forall i, j :: 0 <= i < j < |q| ==> q[i].seg.seqno <= q[j].seg.seqno
  }

  /** The same segments, apart from rewritten acknowledgement fields. */
  predicate SameSegments(k: seq<Entry>, q: seq<Entry>) {
    |k| == |q| && forall j :: 0 <= j < |k| ==> k[j].seg == q[j].seg.(ackno := k[j].seg.ackno)
  }

  predicate TailOf(k: seq<Entry>, q: seq<Entry>) {
    |k| <= |q| && SameSegments(k, q[|q| - |k|..])
  }

  lemma {:induction false} WalkKeepsAll(q: seq<Entry>, una: Word, wnd: Half, rcvNxt: Word, now: Time, sum: nat)
    requires forall j :: 0 <= j < |q| ==> q[j].seg.seqno >= una
    ensures SameSegments(TimerWalk(q, una, wnd, rcvNxt, now, sum).kept, q)
    decreases |q|
  {
    if q != [] {
      WalkKeepsAll(q[1..], una, wnd, rcvNxt, now, sum + |q[0].seg.text|);
    }
  }

  lemma {:induction false} WalkKeepsTail(q: seq<Entry>, una: Word, wnd: Half, rcvNxt: Word, now: Time, sum: nat)
    requires Sorted(q)
    ensures var k := TimerWalk(q, una, wnd, rcvNxt, now, sum).kept;
            && TailOf(k, q)
            && (forall j :: 0 <= j < |q| - |k| ==> q[j].seg.seqno < una)
            && (forall j :: |q| - |k| <= j < |q| ==> q[j].seg.seqno >= una)
    decreases |q|
  {
    if q != [] {
      if q[0].seg.seqno >= una {
        WalkKeepsAll(q, una, wnd, rcvNxt, now, sum);
        assert q[0..] == q;
      } else {
        var k := TimerWalk(q[1..], una, wnd, rcvNxt, now, sum).kept;
        WalkKeepsTail(q[1..], una, wnd, rcvNxt, now, sum);
        assert q[1..][|q| - 1 - |k|..] == q[|q| - |k|..];
        assert forall j :: 0 < j < |q| ==> q[j] == q[1..][j - 1];
      }
    }
  }

  /** Once the window is used up the walk sends nothing and stamps nothing. */
  lemma {:induction false} WalkBeyondWindow(q: seq<Entry>, una: Word, wnd: Half, rcvNxt: Word, now: Time, sum: nat)
    requires sum >= wnd
    ensures var p := TimerWalk(q, una, wnd, rcvNxt, now, sum);
            p.out == [] && forall j :: 0 <= j < |p.kept| ==> p.kept[j] in q
    decreases |q|
  {
    if q != [] {
      WalkBeyondWindow(q[1..], una, wnd, rcvNxt, now, if q[0].seg.seqno >= una then sum + |q[0].seg.text| else sum);
    }
  }

  lemma {:induction false} WalkShrinks(q: seq<Entry>, una: Word, wnd: Half, rcvNxt: Word, now: Time, sum: nat)
    ensures |TimerWalk(q, una, wnd, rcvNxt, now, sum).kept| <= |q|
    decreases |q|
  {
    if q != [] {
      WalkShrinks(q[1..], una, wnd, rcvNxt, now, if q[0].seg.seqno >= una then sum + |q[0].seg.text| else sum);
    }
  }

  lemma {:induction false} WalkUnsentLast(q: seq<Entry>, una: Word, wnd: Half, rcvNxt: Word, now: Time, sum: nat)
    requires UnsentLast(q)
    ensures UnsentLast(TimerWalk(q, una, wnd, rcvNxt, now, sum).kept)
    decreases |q|
  {
    if q != [] {
      var e, q' := q[0], q[1..];
      if e.seg.seqno >= una {
        var sum' := sum + |e.seg.text|;
        WalkUnsentLast(q', una, wnd, rcvNxt, now, sum');
        if sum >= wnd { WalkBeyondWindow(q', una, wnd, rcvNxt, now, sum'); }
      } else {
        WalkUnsentLast(q', una, wnd, rcvNxt, now, sum);
      }
    }
  }

  lemma BaseSorted(s: Stream, b: seq<Entry>)
    requires StreamOk(s) && LastUnits(s, b)
    ensures Sorted(b)
  {
    var u := Units(s) - |b|;
    forall i, j | 0 <= i < j < |b|
      ensures b[i].seg.seqno <= b[j].seg.seqno
    {
      assert IsUnit(s, u + i, b[i].seg) && IsUnit(s, u + j, b[j].seg);
      StartIncreases(s, u + i, u + j);
    }
  }

  lemma UnitAtLeast(s: Stream, i: nat, g: Segment)
    requires StreamOk(s) && i < Units(s) && IsUnit(s, i, g)
    ensures s.isn <= g.seqno
  {
    if i > 0 { StartIncreases(s, 0, i); }
  }

  lemma SortedCons(e: Entry, b: seq<Entry>)
    requires Sorted(b) && forall j :: 0 <= j < |b| ==> e.seg.seqno <= b[j].seg.seqno
    ensures Sorted([e] + b)
  {
  }

  lemma QueueSorted(s: Stream, q: seq<Entry>)
    requires StreamOk(s) && QueueInv(s, q)
    ensures Sorted(q)
  {
    var b := Base(q);
    BaseSorted(s, b);
    if TwoSyns(q) {
      forall j | 0 <= j < |b|
        ensures q[0].seg.seqno <= b[j].seg.seqno
      {
        assert IsUnit(s, Units(s) - |b| + j, b[j].seg);
        UnitAtLeast(s, Units(s) - |b| + j, b[j].seg);
      }
      SortedCons(q[0], b);
      assert [q[0]] + b == q;
    }
  }

  lemma LastUnitsTail(s: Stream, b: seq<Entry>, k: seq<Entry>)
    requires LastUnits(s, b) && TailOf(k, b)
    ensures LastUnits(s, k)
  {
    var t := b[|b| - |k|..];
    forall j | 0 <= j < |k|
      ensures IsUnit(s, Units(s) - |k| + j, k[j].seg)
    {
      assert t[j] == b[|b| - |k| + j];
      assert IsUnit(s, Units(s) - |b| + (|b| - |k| + j), t[j].seg);
    }
  }

  lemma EntryIsUnit(s: Stream, q: seq<Entry>, i: nat) returns (u: nat)
    requires QueueInv(s, q) && i < |q|
    ensures u < Units(s) && IsUnit(s, u, q[i].seg)
  {
    var b := Base(q);
    if TwoSyns(q) && i == 0 {
      u := 0;
    } else {
      var j := if TwoSyns(q) then i - 1 else i;
      assert b[j] == q[i];
      u := Units(s) - |b| + j;
      assert IsUnit(s, u, b[j].seg);
    }
  }

  /** Dropping a non-empty front of the queue leaves no second SYN. */
  lemma QueueCut(s: Stream, q: seq<Entry>, k: seq<Entry>)
    requires QueueInv(s, q) && TailOf(k, q) && |k| < |q|
    requires TwoSyns(q) ==> |k| < |q| - 1
    ensures QueueInv(s, k)
  {
    var b := Base(q);
    assert b[|b| - |k|..] == q[|q| - |k|..];
    LastUnitsTail(s, b, k);
    assert |k| >= 2 ==> IsUnit(s, Units(s) - |k| + 1, k[1].seg);
  }

  lemma QueueRestamped(s: Stream, q: seq<Entry>, k: seq<Entry>)
    requires QueueInv(s, q) && SameSegments(k, q)
    ensures QueueInv(s, k)
  {
    var b, c := Base(q), Base(k);
    assert b[0..] == b;
    LastUnitsTail(s, b, c);
  }

  /** The timer removes exactly the units below `snd.una`: what is left is again the last units. */
  lemma WalkQueueInv(s: Stream, q: seq<Entry>, una: Word, wnd: Half, rcvNxt: Word, now: Time)
    requires StreamOk(s) && QueueInv(s, q) && Covers(s, q, una)
    ensures var k := TimerWalk(q, una, wnd, rcvNxt, now, 0).kept;
            QueueInv(s, k) && Covers(s, k, una)
  {
    QueueSorted(s, q);
    WalkKeepsTail(q, una, wnd, rcvNxt, now, 0);
    var k := TimerWalk(q, una, wnd, rcvNxt, now, 0).kept;
    if |k| == |q| {
      assert q[0..] == q;
      QueueRestamped(s, q, k);
    } else {
      assert TwoSyns(q) ==> q[0].seg.seqno == q[1].seg.seqno by {
        if TwoSyns(q) { assert IsUnit(s, 0, Base(q)[0].seg); }
      }
      QueueCut(s, q, k);
      CutCovers(s, q, k, una);
    }
  }

  lemma CutCovers(s: Stream, q: seq<Entry>, k: seq<Entry>, una: int)
    requires QueueInv(s, q) && QueueInv(s, k) && !TwoSyns(k) && |k| < |q| && (TwoSyns(q) ==> |k| < |q| - 1)
    requires q[|q| - |k| - 1].seg.seqno < una
    ensures Covers(s, k, una)
  {
    var b := Base(q);
    assert b[|b| - |k| - 1] == q[|q| - |k| - 1];
    assert IsUnit(s, Units(s) - |b| + (|b| - |k| - 1), b[|b| - |k| - 1].seg);
  }

  // --------------------------------------------------------- critical sections

  lemma FreshQueue(s: Stream, e: Entry)
    requires s.chunks == [] && !s.fin && IsUnit(s, 0, e.seg)
    ensures QueueInv(s, [e])
  {
  }

  /** What queueing a segment changes. */
  lemma EnqueueEffect(c: Tcb, seqno: Word, ackno: Word, flags: Flags, now: Time, text: Text)
    ensures var d := Enqueue(c, seqno, ackno, flags, now, text).cb;
            && |d.txq| == |c.txq| + 1
            && d == c.(txq := c.txq + [d.txq[|c.txq|]], snt := d.snt)
            && d.txq[|c.txq|].seg == Segment(seqno, ackno, flags, c.rcvWnd, text)
            && (UnsentLast(c.txq) ==> UnsentLast(d.txq))
  {
  }

  lemma OpenKeeps(h: Host, isn: Word, now: Time)
    requires Local(h) && Enabled(h, Open(isn, now))
    requires StreamOk(Apply(h, Open(isn, now)).h.st)
    ensures Local(Apply(h, Open(isn, now)).h)
  {
    var h' := Apply(h, Open(isn, now)).h;
    FreshQueue(h'.st, h'.cb.txq[0]);
  }

  lemma TickKeeps(h: Host, now: Time)
    requires Local(h)
    ensures Local(Apply(h, Tick(now)).h)
  {
    if h.cb.state != Closed && h.cb.state != Listen && !TimedOut(h.cb, now) { TickLive(h.st, h.cb, now); }
  }

  lemma TickLive(s: Stream, c: Tcb, now: Time)
    requires StreamOk(s) && Live(s, c) && c.state != Closed && !TimedOut(c, now)
    ensures Live(s, Timer(c, now).cb)
  {
    WalkQueueInv(s, c.txq, c.sndUna, c.sndWnd, c.rcvNxt, now);
    WalkUnsentLast(c.txq, c.sndUna, c.sndWnd, c.rcvNxt, now, 0);
    WalkShrinks(c.txq, c.sndUna, c.sndWnd, c.rcvNxt, now, 0);
  }

  function Sent(s: Stream, text: Text): Stream {
    s.(chunks := s.chunks + [text])
  }

  lemma SentUnit(s: Stream, text: Text, g: Segment)
    requires !s.fin && g.seqno == Total(s) && g.flags == PSH_ACK && g.text == text
    ensures Extends(s, Sent(s, text)) && Units(Sent(s, text)) == Units(s) + 1
    ensures Total(Sent(s, text)) == Total(s) + |text|
    ensures IsUnit(Sent(s, text), Units(s), g)
  {
    var t := Sent(s, text);
    assert t.chunks[..|s.chunks|] == s.chunks == s.chunks[..|s.chunks|];
    assert t.chunks[..|t.chunks|] == t.chunks;
    FlatNext(t.chunks, |s.chunks|);
  }

  lemma FinUnit(s: Stream, g: Segment)
    requires !s.fin && g.seqno == Total(s) && g.flags == FIN_ACK && g.text == []
    ensures Extends(s, s.(fin := true)) && Units(s.(fin := true)) == Units(s) + 1
    ensures Total(s.(fin := true)) == Total(s) + 1
    ensures IsUnit(s.(fin := true), Units(s), g)
  {
  }

  lemma SendNumbers(c: Tcb, d: Tcb, n: nat)
    requires Numbers(c.iss, false, c) && (c.state == Established || c.state == CloseWait)
    requires n <= SND_BUF_SIZE - (c.sndNxt - c.sndUna)
    requires d == c.(txq := d.txq, snt := d.snt, timeout := d.timeout, sndNxt := d.sndNxt)
    requires d.sndNxt == c.sndNxt + n
    ensures Numbers(c.iss, false, d)
  {
  }

  lemma SendKeeps(s: Stream, c: Tcb, text: Text, now: Time)
    requires StreamOk(s) && StreamOk(Sent(s, text)) && Live(s, c)
    requires c.state == Established || c.state == CloseWait
    requires |text| <= SND_BUF_SIZE - (c.sndNxt - c.sndUna)
    ensures Live(Sent(s, text), SendChunk(c, text, now).cb)
  {
    var d := SendChunk(c, text, now).cb;
    EnqueueEffect(c, c.sndNxt, c.rcvNxt, PSH_ACK, now, text);
    SentUnit(s, text, d.txq[|c.txq|].seg);
    QueueGrows(s, Sent(s, text), c.txq, d.txq[|c.txq|]);
    SendNumbers(c, d, |text|);
  }

  lemma ShutKeeps(s: Stream, c: Tcb, now: Time)
    requires StreamOk(s) && Live(s, c) && CanClose(c.state) && c.used
    ensures Live(s.(fin := true), Close(c, now).cb)
  {
    var d := Close(c, now).cb;
    EnqueueEffect(c.(used := false), c.sndNxt, c.rcvNxt, FIN_ACK, now, []);
    FinUnit(s, d.txq[|c.txq|].seg);
    QueueGrows(s, s.(fin := true), c.txq, d.txq[|c.txq|]);
  }

  /** tcp.c reads the acknowledgement field of a SYN without looking at the ACK
      bit: the field must not lie beyond what was sent. */
  predicate SaneSyn(cb: Tcb, seg: Segment) {
    cb.state == SynSent && seg.flags.syn && !seg.flags.ack && !seg.flags.rst ==> seg.ackno <= cb.sndNxt
  }

  /** The block was reset, or it is alive and synchronized. */
  predicate ClosedOrLive(s: Stream, c: Tcb) {
    if c.state == Closed then Idle(c) else Synced(c.state) && Live(s, c)
  }

  /** `d` comes from `c` by a step that reset it, or left what was sent alone. */
  predicate Kept(c: Tcb, d: Tcb) {
    if d.state == Closed then Idle(d)
    else
      && Synced(d.state)
      && Numbers(c.iss, FinSent(c.state), d)
      && d.sndNxt == c.sndNxt && d.txq == c.txq && c.sndUna <= d.sndUna
      && (Opening(d.state) ==> Opening(c.state))
  }

  /** What the checks before the text may change in a block they do not reset. */
  predicate AckMove(c: Tcb, d: Tcb, seg: Segment) {
    && d == c.(state := d.state, sndUna := d.sndUna, timeout := d.timeout,
               sndWnd := d.sndWnd, wl1 := d.wl1, wl2 := d.wl2)
    && c.sndUna <= d.sndUna <= c.sndNxt
    && (d.sndUna == c.sndUna || d.sndUna == seg.ackno)
    && d.wl2 <= d.sndUna
    && (|| d.state == c.state
        || (c.state == SynRcvd && d.state == Established)
        || (c.state == FinWait1 && d.state == FinWait2 && d.sndUna >= d.sndNxt - 1)
        || (c.state == Closing && d.state == TimeWait && d.sndUna >= d.sndNxt - 1))
  }

  lemma AckEffect(c: Tcb, seg: Segment, now: Time)
    requires c.sndUna <= c.sndNxt && c.wl2 <= c.sndUna
    ensures AckMove(c, ProcessAck(c, seg, now).cb, seg)
  {
  }

  lemma AckFieldEffect(c: Tcb, seg: Segment, now: Time)
    requires c.sndUna <= c.sndNxt && c.wl2 <= c.sndUna && c.state != LastAck
    ensures AckMove(c, CheckAck(c, seg, now).cb, seg)
  {
    if c.state == SynRcvd {
      AckEffect(c.(state := Established), seg, now);
    } else {
      AckEffect(c, seg, now);
    }
  }

  lemma ChecksEffect(c: Tcb, seg: Segment, now: Time)
    requires c.sndUna <= c.sndNxt && c.wl2 <= c.sndUna && c.state != LastAck
    ensures var p := CheckSynchronized(c, seg, now);
            AckMove(c, p.cb, seg) || (p.Stop? && p.cb == CloseCb(c))
  {
    AckFieldEffect(c, seg, now);
  }

  /** What the text and the FIN bit may change. */
  predicate ReceiveMove(c: Tcb, d: Tcb, seg: Segment) {
    && d == c.(state := d.state, timeout := d.timeout, rcvNxt := d.rcvNxt, rcvWnd := d.rcvWnd, buf := d.buf)
    && d.state == (if seg.flags.fin then StateAfterFin(c.state) else c.state)
    && |d.buf| + d.rcvWnd == |c.buf| + c.rcvWnd
    && (!TakesText(c.state) ==> d.rcvWnd == c.rcvWnd)
  }

  lemma ReceiveEffect(c: Tcb, seg: Segment, now: Time)
    requires CopiesText(c, seg) ==> |seg.text| <= c.rcvWnd
    ensures ReceiveMove(c, ProcessFin(ProcessText(c, seg).cb, seg, now).cb, seg)
  {
  }

  lemma AckMoveKeeps(c: Tcb, d: Tcb, seg: Segment)
    requires Synced(c.state) && Numbers(c.iss, FinSent(c.state), c) && AckMove(c, d, seg)
    ensures d.state != Closed && Kept(c, d)
  {
  }

  lemma ReceiveMoveKeeps(c: Tcb, d: Tcb, seg: Segment)
    requires Synced(c.state) && Numbers(c.iss, FinSent(c.state), c) && ReceiveMove(c, d, seg)
    ensures d.state != Closed && Kept(c, d)
  {
  }

  lemma ListenKeeps(c: Tcb, seg: Segment, now: Time, isn: Word)
    requires c.state == Listen && Idle(c) && (CheckListen(c, seg, now, isn).Go? ==> isn + 2 < TWO32)
    ensures var p := CheckListen(c, seg, now, isn);
            ClosedOrLive(Stream(isn, [], false), p.cb) && (p.Go? <==> p.cb.state != Closed)
  {
    var p := CheckListen(c, seg, now, isn);
    if p.Go? {
      var s := Stream(isn, [], false);
      FreshQueue(s, p.cb.txq[0]);
    }
  }

  lemma SecondSyn(s: Stream, q: seq<Entry>, e: Entry)
    requires s.chunks == [] && !s.fin && QueueInv(s, q) && |q| <= 1 && IsUnit(s, 0, e.seg)
    ensures QueueInv(s, q + [e])
  {
    var q' := q + [e];
    assert Base(q') == [e];
    if q != [] { assert IsUnit(s, 0, Base(q)[0].seg); }
  }

  /** What a segment may change in SYN_SENT. */
  lemma SynSentEffect(c: Tcb, seg: Segment, now: Time)
    requires c.state == SynSent && Numbers(c.iss, false, c) && SaneSyn(c, seg)
    ensures var p := CheckSynSent(c, seg, now); var d := p.cb;
            || (p.Stop? && (d == c || d == CloseCb(c)))
            || (&& seg.flags.syn && d.rcvNxt == Add32(seg.seqno, 1) && d.irs == seg.seqno
                && d == c.(state := d.state, sndUna := d.sndUna, timeout := d.timeout,
                           rcvNxt := d.rcvNxt, irs := d.irs, txq := d.txq, snt := d.snt)
                && d.sndUna == (if c.sndUna < seg.ackno then seg.ackno else c.sndUna)
                && if c.sndUna < seg.ackno then d.state == Established && d.txq == c.txq
                   else p.Stop? && d.state == SynRcvd)
  {
  }

  lemma SynSentKeeps(s: Stream, c: Tcb, seg: Segment, now: Time)
    requires StreamOk(s) && c.state == SynSent && Live(s, c) && SaneSyn(c, seg)
    ensures var p := CheckSynSent(c, seg, now);
            && (p.cb == c || ClosedOrLive(s, p.cb))
            && (p.Go? ==> Synced(p.cb.state))
  {
    SynSentEffect(c, seg, now);
    var p := CheckSynSent(c, seg, now);
    if p.cb.state == SynRcvd {
      var b := c.(state := SynRcvd, rcvNxt := p.cb.rcvNxt, irs := p.cb.irs);
      assert p.cb == Enqueue(b, b.iss, b.rcvNxt, SYN_ACK, now, []).cb;
      EnqueueEffect(b, b.iss, b.rcvNxt, SYN_ACK, now, []);
      SecondSyn(s, c.txq, p.cb.txq[|c.txq|]);
    }
  }

  lemma KeptLive(s: Stream, c: Tcb, d: Tcb)
    requires Live(s, c) && Kept(c, d)
    ensures ClosedOrLive(s, d)
  {
  }

  lemma SyncedArrivalKeeps(s: Stream, c: Tcb, seg: Segment, now: Time, isn: Word)
    requires StreamOk(s) && Synced(c.state) && Live(s, c) && !Overruns(c, seg, now, isn)
    ensures ClosedOrLive(s, Arrive(c, seg, now, isn).cb)
  {
    ChecksEffect(c, seg, now);
    var p := CheckSynchronized(c, seg, now);
    if p.cb != CloseCb(c) {
      AckMoveKeeps(c, p.cb, seg);
      KeptLive(s, c, p.cb);
      if p.Go? { GoKeeps(s, p.cb, seg, now); }
    }
  }

  lemma GoKeeps(s: Stream, c: Tcb, seg: Segment, now: Time)
    requires Synced(c.state) && Live(s, c)
    requires CopiesText(c, seg) ==> |seg.text| <= c.rcvWnd
    ensures ClosedOrLive(s, ProcessFin(ProcessText(c, seg).cb, seg, now).cb)
  {
    var d := ProcessFin(ProcessText(c, seg).cb, seg, now).cb;
    ReceiveEffect(c, seg, now);
    ReceiveMoveKeeps(c, d, seg);
    KeptLive(s, c, d);
  }

  lemma ArrivalKeeps(h: Host, seg: Segment, now: Time, isn: Word)
    requires Local(h) && !Overruns(h.cb, seg, now, isn) && SaneSyn(h.cb, seg)
    requires StreamOk(ApplyArrival(h, seg, now, isn).h.st)
    ensures Local(ApplyArrival(h, seg, now, isn).h)
  {
    var c, s := h.cb, h.st;
    var p := Checks(c, seg, now, isn);
    if c.state == Listen {
      if p.Go? { ReceiveEffect(p.cb, seg, now); }
      ListenKeeps(c, seg, now, isn);
      if p.Go? { GoKeeps(Stream(isn, [], false), p.cb, seg, now); }
    } else if c.state == SynSent {
      SynSentKeeps(s, c, seg, now);
      if p.Go? { GoKeeps(s, p.cb, seg, now); }
    } else if c.state != Closed {
      SyncedArrivalKeeps(s, c, seg, now, isn);
    }
  }

  lemma ChunkFits(c: Tcb, len: nat, mtu: nat)
    requires c.sndUna <= c.sndNxt && c.sndNxt - c.sndUna <= SND_BUF_SIZE && mtu > HEADERS_MAX
    ensures ChunkSize(c, len, mtu) <= len
    ensures ChunkSize(c, len, mtu) <= Room(c) == SND_BUF_SIZE - (c.sndNxt - c.sndUna)
  {
  }

  lemma SendCallKeeps(h: Host, data: seq<Byte>, mtu: nat, now: Time)
    requires Local(h) && Enabled(h, Send(data, mtu, now)) && StreamOk(Apply(h, Send(data, mtu, now)).h.st)
    ensures Local(Apply(h, Send(data, mtu, now)).h)
  {
    ChunkFits(h.cb, |data|, mtu);
    SendKeeps(h.st, h.cb, data[..ChunkSize(h.cb, |data|, mtu)], now);
  }

  lemma ShutCallKeeps(h: Host, now: Time)
    requires Local(h) && h.cb.used
    ensures Local(Apply(h, Shut(now)).h)
  {
    if CanClose(h.cb.state) { ShutKeeps(h.st, h.cb, now); }
  }

  /** Every critical section keeps the invariant, whatever segment arrives, as long as the stream
      stays below 2^32 and a SYN does not carry an acknowledgement field beyond `snd.nxt`. */
  lemma StepKeepsLocal(h: Host, e: Event)
    requires Local(h) && Enabled(h, e) && StreamOk(Apply(h, e).h.st)
    requires e.Arrival? ==> SaneSyn(h.cb, e.seg)
    ensures Local(Apply(h, e).h)
  {
    match e
    case Open(isn, now) => OpenKeeps(h, isn, now);
    case Accepted =>
    case Arrival(seg, now, isn) => ArrivalKeeps(h, seg, now, isn);
    case Tick(now) => TickKeeps(h, now);
    case Send(data, mtu, now) => SendCallKeeps(h, data, mtu, now);
    case Recv(size) =>
    case Shut(now) => ShutCallKeeps(h, now);
  }
}
