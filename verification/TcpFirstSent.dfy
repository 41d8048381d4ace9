/**
 * The order of first transmissions over every run of one endpoint: segments
 * leave for the first time in the order in which they were queued, whether
 * `tcp_tx` sends them at once or the timer sends them later.
 */
module TcpFirstSent {
  import opened Words
  import opened TcpModel
  import opened TcpHost
  import opened TcpLocal
  import opened TcpEndpointRuns

  // ------------------------------------------------------ first transmissions

  /** The segment takes sequence space, so that it is queued. */
  predicate Carrying(g: Segment) {
    !g.flags.rst && (g.flags.syn || g.flags.fin || g.text != [])
  }

  ghost predicate Seen(log: seq<Segment>, n: int) {
    exists k :: 0 <= k < |log| && log[k].seqno == n
  }

  /** `log` followed by the segments of `out` that are sent for the first time. */
  ghost function Firsts(log: seq<Segment>, out: seq<Segment>): seq<Segment>
    decreases |out|
  {
    if out == [] then log
    else Firsts(if Carrying(out[0]) && !Seen(log, out[0].seqno) then log + [out[0]] else log, out[1..])
  }

  /** First transmissions up to state `i` of a run, oldest first. */
  ghost function FirstSent(hs: seq<Host>, es: seq<Event>, i: nat): seq<Segment>
    requires IsEndpointRun(hs, es) && i < |hs|
    decreases i
  {
    if i == 0 then []
    else
      assert EndpointStepAt(hs, es, i - 1);
      Firsts(FirstSent(hs, es, i - 1), Apply(hs[i - 1], es[i - 1]).out)
  }

  lemma {:induction false} NothingNew(log: seq<Segment>, out: seq<Segment>)
    requires forall g :: g in out ==> !Carrying(g) || Seen(log, g.seqno)
    ensures Firsts(log, out) == log
    decreases |out|
  {
    if out != [] {
      assert out[0] in out;
      NothingNew(log, out[1..]);
    }
  }

  lemma {:induction false} FirstsAppend(log: seq<Segment>, p: seq<Segment>, q: seq<Segment>)
    ensures Firsts(log, p + q) == Firsts(Firsts(log, p), q)
    decreases |p|
  {
    if p == [] {
      assert p + q == q;
    } else {
      assert (p + q)[1..] == p[1..] + q;
      FirstsAppend(if Carrying(p[0]) && !Seen(log, p[0].seqno) then log + [p[0]] else log, p[1..], q);
    }
  }

  // ------------------------------------------------------------ log and queue

  predicate Increasing(log: seq<Segment>) {
    forall i, j :: 0 <= i < j < |log| ==> log[i].seqno < log[j].seqno
  }

  predicate AllBelow(log: seq<Segment>, n: int) {
    forall k :: 0 <= k < |log| ==> log[k].seqno < n
  }

  /** Stamped entries have been sent; unsent ones wait in order behind all that has been. */
  ghost predicate QueueLog(q: seq<Entry>, log: seq<Segment>) {
    && (forall i :: 0 <= i < |q| && q[i].stamp != 0 ==> Seen(log, q[i].seg.seqno))
    && (forall i :: 0 <= i < |q| && q[i].stamp == 0 ==> AllBelow(log, q[i].seg.seqno) && Carrying(q[i].seg))
    && (forall i, j :: 0 <= i < j < |q| && q[i].stamp == 0 ==> q[j].stamp == 0 && q[i].seg.seqno < q[j].seg.seqno)
  }

  lemma SeenGrows(log: seq<Segment>, g: Segment, n: int)
    ensures Seen(log + [g], n) <==> Seen(log, n) || g.seqno == n
  {
    if Seen(log, n) {
      var k :| 0 <= k < |log| && log[k].seqno == n;
      assert (log + [g])[k].seqno == n;
    }
    assert (log + [g])[|log|] == g;
  }

  lemma BelowNotSeen(log: seq<Segment>, n: int)
    requires AllBelow(log, n)
    ensures !Seen(log, n)
  {
  }

  lemma QueueLogRest(q: seq<Entry>, log: seq<Segment>)
    requires QueueLog(q, log) && q != []
    ensures QueueLog(q[1..], log)
  {
  }

  /** Sending the first unsent entry. */
  lemma QueueLogSend(q: seq<Entry>, log: seq<Segment>, g: Segment)
    requires QueueLog(q, log) && q != [] && q[0].stamp == 0 && g == q[0].seg.(ackno := g.ackno)
    requires Increasing(log)
    ensures Firsts(log, [g]) == log + [g] && Increasing(log + [g])
    ensures QueueLog(q[1..], log + [g])
  {
    BelowNotSeen(log, q[0].seg.seqno);
    assert [g][1..] == [];
    assert Firsts(log + [g], []) == log + [g];
    forall i | 0 <= i < |q[1..]|
      ensures q[1..][i].stamp == 0 && AllBelow(log + [g], q[1..][i].seg.seqno)
    {
      assert q[1..][i] == q[i + 1];
    }
  }

  lemma QueueLogCons(e: Entry, q: seq<Entry>, log: seq<Segment>)
    requires QueueLog(q, log) && e.stamp != 0 && Seen(log, e.seg.seqno)
    ensures QueueLog([e] + q, log)
  {
  }

  // ------------------------------------------------------------------- timer

  /** What a pass leaves behind agrees with what it sent. */
  ghost predicate PassLogged(p: Pass, log: seq<Segment>, log': seq<Segment>) {
    Firsts(log, p.out) == log' && Increasing(log') && QueueLog(p.kept, log')
  }

  /** `g` is a queued segment, apart from its acknowledgement field. */
  ghost predicate FromQueue(q: seq<Entry>, g: Segment) {
    exists i :: 0 <= i < |q| && g == q[i].seg.(ackno := g.ackno)
  }

  ghost predicate LogGrows(log: seq<Segment>, log': seq<Segment>, q: seq<Entry>) {
    && log <= log'
    && forall k :: |log| <= k < |log'| ==> FromQueue(q, log'[k])
  }

  lemma SeenKept(log: seq<Segment>, log': seq<Segment>, n: int)
    requires log <= log' && Seen(log, n)
    ensures Seen(log', n)
  {
    var k :| 0 <= k < |log| && log[k].seqno == n;
    assert log'[k].seqno == n;
  }

  lemma FromRest(q: seq<Entry>, g: Segment)
    requires q != [] && FromQueue(q[1..], g)
    ensures FromQueue(q, g)
  {
    var i :| 0 <= i < |q[1..]| && g == q[1..][i].seg.(ackno := g.ackno);
    assert q[i + 1] == q[1..][i];
  }

  lemma GrowsRest(log: seq<Segment>, log': seq<Segment>, q: seq<Entry>)
    requires q != [] && LogGrows(log, log', q[1..])
    ensures LogGrows(log, log', q)
  {
    forall k | |log| <= k < |log'|
      ensures FromQueue(q, log'[k])
    {
      FromRest(q, log'[k]);
    }
  }

  lemma GrowsFirst(log: seq<Segment>, g: Segment, log': seq<Segment>, q: seq<Entry>)
    requires q != [] && g == q[0].seg.(ackno := g.ackno) && LogGrows(log + [g], log', q[1..])
    ensures LogGrows(log, log', q)
  {
    GrowsRest(log + [g], log', q);
    assert log'[|log|] == g && FromQueue(q, g);
    assert log <= log + [g] <= log';
  }

  /** An entry the window has no room for stays unsent, and so does everything behind it. */
  lemma WalkHolds(q: seq<Entry>, una: Word, wnd: Half, rcvNxt: Word, now: Time, sum: nat, log: seq<Segment>)
    requires QueueLog(q, log) && Increasing(log) && sum >= wnd
    ensures PassLogged(TimerWalk(q, una, wnd, rcvNxt, now, sum), log, log)
    decreases |q|
  {
    WalkBeyondWindow(q, una, wnd, rcvNxt, now, sum);
    WalkFiltersExactly(q, una, wnd, rcvNxt, now, sum, log);
  }

  lemma {:induction false} WalkFiltersExactly(q: seq<Entry>, una: Word, wnd: Half, rcvNxt: Word, now: Time, sum: nat,
                                              log: seq<Segment>)
    requires QueueLog(q, log) && sum >= wnd
    ensures QueueLog(TimerWalk(q, una, wnd, rcvNxt, now, sum).kept, log)
    ensures forall i :: 0 <= i < |TimerWalk(q, una, wnd, rcvNxt, now, sum).kept| ==>
              TimerWalk(q, una, wnd, rcvNxt, now, sum).kept[i] in q
    decreases |q|
  {
    if q != [] {
      QueueLogRest(q, log);
      var sum' := if q[0].seg.seqno >= una then sum + |q[0].seg.text| else sum;
      WalkFiltersExactly(q[1..], una, wnd, rcvNxt, now, sum', log);
    }
  }

  lemma {:induction false} WalkLogged(q: seq<Entry>, una: Word, wnd: Half, rcvNxt: Word, now: Time, sum: nat,
                                      log: seq<Segment>) returns (log': seq<Segment>)
    requires QueueLog(q, log) && Increasing(log)
    ensures PassLogged(TimerWalk(q, una, wnd, rcvNxt, now, sum), log, log') && LogGrows(log, log', q)
    decreases |q|
  {
    if q == [] {
      log' := log;
    } else if q[0].seg.seqno < una {
      QueueLogRest(q, log);
      log' := WalkLogged(q[1..], una, wnd, rcvNxt, now, sum, log);
      GrowsRest(log, log', q);
    } else if sum >= wnd {
      WalkHolds(q, una, wnd, rcvNxt, now, sum, log);
      log' := log;
    } else {
      log' := WalkTakes(q, una, wnd, rcvNxt, now, sum, log);
    }
  }

  /** The first entry is kept and inside the window. */
  lemma WalkTakes(q: seq<Entry>, una: Word, wnd: Half, rcvNxt: Word, now: Time, sum: nat, log: seq<Segment>)
    returns (log': seq<Segment>)
    requires q != [] && q[0].seg.seqno >= una && sum < wnd && QueueLog(q, log) && Increasing(log)
    ensures PassLogged(TimerWalk(q, una, wnd, rcvNxt, now, sum), log, log') && LogGrows(log, log', q)
    decreases |q|, 0
  {
    var sum' := sum + |q[0].seg.text|;
    var p, r := TimerWalk(q, una, wnd, rcvNxt, now, sum), TimerWalk(q[1..], una, wnd, rcvNxt, now, sum');
    var g := q[0].seg.(ackno := rcvNxt);
    QueueLogRest(q, log);
    if q[0].stamp == 0 {
      QueueLogSend(q, log, g);
      log' := WalkLogged(q[1..], una, wnd, rcvNxt, now, sum', log + [g]);
      FirstsAppend(log, [g], r.out);
      GrowsFirst(log, g, log', q);
      SeenGrows(log, g, g.seqno);
      SeenKept(log + [g], log', g.seqno);
    } else {
      log' := WalkLogged(q[1..], una, wnd, rcvNxt, now, sum', log);
      GrowsRest(log, log', q);
      SeenKept(log, log', g.seqno);
      if p.out != r.out {
        NothingNew(log, [g]);
        FirstsAppend(log, [g], r.out);
      }
    }
    QueueLogCons(p.kept[0], r.kept, log');
    assert p.kept == [p.kept[0]] + r.kept;
  }

  // -------------------------------------------------------------- every event

  ghost predicate UnitOf(s: Stream, g: Segment) {
    exists u: nat :: u < Units(s) && IsUnit(s, u, g)
  }

  ghost predicate AllUnits(s: Stream, log: seq<Segment>) {
    forall k :: 0 <= k < |log| ==> UnitOf(s, log[k])
  }

  predicate Past(state: State) {
    state != Closed && state != Listen
  }

  /** The log of a host: units of its stream in order, the SYN first, in step with the queue. */
  ghost predicate Logged(h: Host, log: seq<Segment>) {
    && (if h.begun then Seen(log, h.st.isn) else log == [])
    && Increasing(log) && AllUnits(h.st, log)
    && (Past(h.cb.state) ==> QueueLog(h.cb.txq, log))
  }

  /** A step that sends nothing queued and leaves the queue alone, or closes the block. */
  ghost predicate Quiet(h: Host, m: Move) {
    && m.h.begun == h.begun && m.h.st == h.st
    && (Past(m.h.cb.state) ==> Past(h.cb.state) && m.h.cb.txq == h.cb.txq)
    && forall g :: g in m.out ==> !Carrying(g)
  }

  lemma QuietLogged(h: Host, m: Move, log: seq<Segment>)
    requires Logged(h, log) && Quiet(h, m)
    ensures Logged(m.h, Firsts(log, m.out))
  {
    NothingNew(log, m.out);
  }

  lemma ChecksQuiet(c: Tcb, seg: Segment, now: Time)
    ensures forall g :: g in CheckSynchronized(c, seg, now).out ==> !Carrying(g)
  {
  }

  lemma ReceiveQuiet(c: Tcb, seg: Segment, now: Time)
    requires CopiesText(c, seg) ==> |seg.text| <= c.rcvWnd
    ensures forall g :: g in ProcessText(c, seg).out ==> !Carrying(g)
    ensures forall g :: g in ProcessFin(ProcessText(c, seg).cb, seg, now).out ==> !Carrying(g)
  {
  }

  lemma SyncedQuiet(h: Host, seg: Segment, now: Time, isn: Word)
    requires Local(h) && Synced(h.cb.state) && !Overruns(h.cb, seg, now, isn)
    ensures Quiet(h, ApplyArrival(h, seg, now, isn))
  {
    ChecksQuiet(h.cb, seg, now);
    ChecksEffect(h.cb, seg, now);
    var p := CheckSynchronized(h.cb, seg, now);
    if p.Go? {
      ReceiveQuiet(p.cb, seg, now);
      ReceiveEffect(p.cb, seg, now);
    }
  }

  lemma ClosedQuiet(h: Host, seg: Segment, now: Time, isn: Word)
    requires h.cb.state == Closed
    ensures Quiet(h, ApplyArrival(h, seg, now, isn))
  {
  }

  /** The SYN,ACK of a passive open, then perhaps replies. */
  lemma ListenLogged(h: Host, seg: Segment, now: Time, isn: Word)
    requires Local(h) && h.cb.state == Listen && StreamOk(ApplyArrival(h, seg, now, isn).h.st)
    ensures var m := ApplyArrival(h, seg, now, isn);
            Logged(m.h, Firsts([], m.out))
  {
    var m := ApplyArrival(h, seg, now, isn);
    var p := CheckListen(h.cb, seg, now, isn);
    if p.Go? {
      ReceiveQuiet(p.cb, seg, now);
      ReceiveEffect(p.cb, seg, now);
      var g := p.cb.txq[0].seg;
      assert p.out == [g] && p.cb.txq == [Entry(g, now)];
      var rest := ProcessText(p.cb, seg).out + ProcessFin(ProcessText(p.cb, seg).cb, seg, now).out;
      assert m.out == [g] + rest;
      OpenedLogged(m, g, rest, now);
    } else {
      NothingNew([], m.out);
    }
  }

  /** A block whose queue is its SYN, just sent. */
  lemma OpenedLogged(m: Move, g: Segment, rest: seq<Segment>, now: Time)
    requires m.h.begun && m.h.st.chunks == [] && !m.h.st.fin && m.h.cb.txq == [Entry(g, now)]
    requires g.flags.syn && IsUnit(m.h.st, 0, g) && m.out == [g] + rest
    requires forall x :: x in rest ==> !Carrying(x)
    ensures Logged(m.h, Firsts([], m.out))
  {
    FirstsAppend([], [g], rest);
    assert [g][1..] == [] && [] + [g] == [g];
    assert Firsts([g], []) == [g];
    NothingNew([g], rest);
    assert [g][0].seqno == m.h.st.isn;
    assert UnitOf(m.h.st, g);
  }

  lemma OpenLogged(h: Host, isn: Word, now: Time)
    requires Local(h) && Enabled(h, Open(isn, now))
    ensures var m := Apply(h, Open(isn, now)); Logged(m.h, Firsts([], m.out))
  {
    var m := Apply(h, Open(isn, now));
    OpenedLogged(m, m.out[0], [], now);
  }

  /** A segment in SYN_SENT: a second SYN is no first transmission. */
  lemma SynSentLogged(h: Host, seg: Segment, now: Time, isn: Word, log: seq<Segment>)
    requires Local(h) && Logged(h, log) && h.cb.state == SynSent && SaneSyn(h.cb, seg)
    requires !Overruns(h.cb, seg, now, isn)
    ensures var m := ApplyArrival(h, seg, now, isn); Logged(m.h, Firsts(log, m.out))
  {
    var m := ApplyArrival(h, seg, now, isn);
    var p := CheckSynSent(h.cb, seg, now);
    SynSentEffect(h.cb, seg, now);
    if p.Go? {
      ReceiveQuiet(p.cb, seg, now);
      ReceiveEffect(p.cb, seg, now);
      QuietLogged(h, m, log);
    } else if p.cb.state == SynRcvd {
      CrossLogged(h, m, seg, now, log);
    } else {
      QuietLogged(h, m, log);
    }
  }

  /** A simultaneous open queues and sends the SYN again. */
  lemma CrossOut(c: Tcb, seg: Segment, now: Time)
    requires c.state == SynSent && !HaveUnsent(c.txq)
    requires var p := CheckSynSent(c, seg, now); p.Stop? && p.cb.state == SynRcvd
    ensures var p := CheckSynSent(c, seg, now);
            && |p.out| == 1 && p.out[0].seqno == c.iss
            && p.cb.txq == c.txq + [Entry(p.out[0], now)]
  {
  }

  /** An entry whose segment has been sent is stamped. */
  lemma SentIsStamped(q: seq<Entry>, log: seq<Segment>, i: nat)
    requires QueueLog(q, log) && i < |q| && Seen(log, q[i].seg.seqno)
    ensures q[i].stamp != 0
  {
    if AllBelow(log, q[i].seg.seqno) { BelowNotSeen(log, q[i].seg.seqno); }
  }

  lemma SynWasSent(h: Host, log: seq<Segment>)
    requires Local(h) && Logged(h, log) && h.cb.state == SynSent
    ensures !HaveUnsent(h.cb.txq)
  {
    var q := h.cb.txq;
    if q != [] {
      assert Base(q) == q && IsUnit(h.st, 0, q[0].seg);
      SentIsStamped(q, log, 0);
    }
  }

  lemma QueueLogAppend(q: seq<Entry>, e: Entry, log: seq<Segment>)
    requires QueueLog(q, log) && !HaveUnsent(q) && e.stamp != 0 && Seen(log, e.seg.seqno)
    ensures QueueLog(q + [e], log)
  {
  }

  lemma CrossLogged(h: Host, m: Move, seg: Segment, now: Time, log: seq<Segment>)
    requires Local(h) && Logged(h, log) && h.cb.state == SynSent
    requires var p := CheckSynSent(h.cb, seg, now);
             p.Stop? && p.cb.state == SynRcvd && m.out == p.out && m.h.cb == p.cb
    requires m.h.begun && m.h.st == h.st
    ensures Logged(m.h, Firsts(log, m.out))
  {
    SynWasSent(h, log);
    CrossOut(h.cb, seg, now);
    QueueLogAppend(h.cb.txq, Entry(m.out[0], now), log);
    NothingNew(log, m.out);
  }

  lemma ArrivalLogged(h: Host, seg: Segment, now: Time, isn: Word, log: seq<Segment>)
    requires Local(h) && Logged(h, log) && !Overruns(h.cb, seg, now, isn) && SaneSyn(h.cb, seg)
    requires StreamOk(ApplyArrival(h, seg, now, isn).h.st)
    ensures var m := ApplyArrival(h, seg, now, isn); Logged(m.h, Firsts(log, m.out))
  {
    if Synced(h.cb.state) {
      SyncedQuiet(h, seg, now, isn);
      QuietLogged(h, ApplyArrival(h, seg, now, isn), log);
    } else if h.cb.state == Closed {
      ClosedQuiet(h, seg, now, isn);
      QuietLogged(h, ApplyArrival(h, seg, now, isn), log);
    } else if h.cb.state == Listen {
      ListenLogged(h, seg, now, isn);
    } else {
      SynSentLogged(h, seg, now, isn, log);
    }
  }

  lemma TickLogged(h: Host, now: Time, log: seq<Segment>)
    requires Local(h) && Logged(h, log)
    ensures var m := Apply(h, Tick(now)); Logged(m.h, Firsts(log, m.out))
  {
    var c, m := h.cb, Apply(h, Tick(now));
    if c.state == Closed || c.state == Listen || TimedOut(c, now) {
      QuietLogged(h, m, log);
    } else {
      var log' := WalkLogged(c.txq, c.sndUna, c.sndWnd, c.rcvNxt, now, 0, log);
      forall k | 0 <= k < |log'|
        ensures UnitOf(h.st, log'[k])
      {
        if k >= |log| { QueuedIsUnit(h.st, c.txq, log'[k]); } else { assert log'[k] == log[k]; }
      }
      SeenKept(log, log', h.st.isn);
    }
  }

  lemma AckIgnored(s: Stream, u: nat, g: Segment, ackno: Word)
    requires u < Units(s) && IsUnit(s, u, g)
    ensures UnitOf(s, g.(ackno := ackno))
  {
    assert IsUnit(s, u, g.(ackno := ackno));
  }

  lemma QueuedIsUnit(s: Stream, q: seq<Entry>, g: Segment)
    requires QueueInv(s, q) && FromQueue(q, g)
    ensures UnitOf(s, g)
  {
    var i :| 0 <= i < |q| && g == q[i].seg.(ackno := g.ackno);
    var u := EntryIsUnit(s, q, i);
    AckIgnored(s, u, q[i].seg, g.ackno);
  }

  lemma EnqueueOut(c: Tcb, seqno: Word, ackno: Word, flags: Flags, now: Time, text: Text)
    ensures var r := Enqueue(c, seqno, ackno, flags, now, text);
            && |r.cb.txq| == |c.txq| + 1
            && var e := r.cb.txq[|c.txq|];
            r.out == (if e.stamp == 0 then [] else [e.seg]) && (e.stamp != 0 ==> !HaveUnsent(c.txq))
  {
  }

  lemma UnitBelow(s: Stream, g: Segment)
    requires StreamOk(s) && UnitOf(s, g)
    ensures g.seqno < Total(s)
  {
    var u: nat :| u < Units(s) && IsUnit(s, u, g);
    StartIncreases(s, u, Units(s));
  }

  lemma UnitOfKept(s: Stream, t: Stream, g: Segment)
    requires Extends(s, t) && UnitOf(s, g)
    ensures UnitOf(t, g)
  {
    var u: nat :| u < Units(s) && IsUnit(s, u, g);
    UnitKept(s, t, u, g);
  }

  /** Queueing the next unit, sent at once or held back. */
  lemma QueueLogNext(s: Stream, q: seq<Entry>, e: Entry, log: seq<Segment>)
    requires StreamOk(s) && QueueInv(s, q) && QueueLog(q, log) && AllUnits(s, log) && Increasing(log)
    requires e.seg.seqno == Total(s) && Carrying(e.seg) && (e.stamp != 0 ==> !HaveUnsent(q))
    ensures var log' := Firsts(log, if e.stamp == 0 then [] else [e.seg]);
            && log' == (if e.stamp == 0 then log else log + [e.seg])
            && Increasing(log') && QueueLog(q + [e], log')
  {
    forall k | 0 <= k < |log|
      ensures log[k].seqno < e.seg.seqno
    {
      UnitBelow(s, log[k]);
    }
    forall i | 0 <= i < |q|
      ensures q[i].seg.seqno < e.seg.seqno
    {
      assert FromQueue(q, q[i].seg);
      QueuedIsUnit(s, q, q[i].seg);
      UnitBelow(s, q[i].seg);
    }
    if e.stamp != 0 {
      BelowNotSeen(log, e.seg.seqno);
      assert [e.seg][1..] == [] && Firsts(log + [e.seg], []) == log + [e.seg];
      SentAppend(q, e, log);
    }
  }

  lemma SentAppend(q: seq<Entry>, e: Entry, log: seq<Segment>)
    requires QueueLog(q, log) && !HaveUnsent(q) && e.stamp != 0
    ensures QueueLog(q + [e], log + [e.seg])
  {
    forall i | 0 <= i < |q + [e]|
      ensures (q + [e])[i].stamp != 0 && Seen(log + [e.seg], (q + [e])[i].seg.seqno)
    {
      SeenGrows(log, e.seg, (q + [e])[i].seg.seqno);
    }
  }

  lemma QueuedLogged(h: Host, m: Move, e: Entry, log: seq<Segment>)
    requires Local(h) && Logged(h, log) && Past(h.cb.state) && StreamOk(m.h.st)
    requires m.h.begun && Extends(h.st, m.h.st) && m.h.cb.txq == h.cb.txq + [e]
    requires Units(h.st) < Units(m.h.st) && IsUnit(m.h.st, Units(h.st), e.seg) && e.seg.seqno == Total(h.st)
    requires Carrying(e.seg) && m.out == (if e.stamp == 0 then [] else [e.seg])
    requires e.stamp != 0 ==> !HaveUnsent(h.cb.txq)
    ensures Logged(m.h, Firsts(log, m.out))
  {
    QueueLogNext(h.st, h.cb.txq, e, log);
    var log' := Firsts(log, m.out);
    forall k | 0 <= k < |log'|
      ensures UnitOf(m.h.st, log'[k])
    {
      if k < |log| { UnitOfKept(h.st, m.h.st, log[k]); } else { assert log'[k] == e.seg; }
    }
    SeenKept(log, log', h.st.isn);
  }

  lemma SendLogged(h: Host, data: seq<Byte>, mtu: nat, now: Time, log: seq<Segment>)
    requires Local(h) && Logged(h, log) && Enabled(h, Send(data, mtu, now))
    requires StreamOk(Apply(h, Send(data, mtu, now)).h.st)
    ensures var m := Apply(h, Send(data, mtu, now)); Logged(m.h, Firsts(log, m.out))
  {
    var m := Apply(h, Send(data, mtu, now));
    var text: Text := data[..ChunkSize(h.cb, |data|, mtu)];
    EnqueueEffect(h.cb, h.cb.sndNxt, h.cb.rcvNxt, PSH_ACK, now, text);
    EnqueueOut(h.cb, h.cb.sndNxt, h.cb.rcvNxt, PSH_ACK, now, text);
    var e := m.h.cb.txq[|h.cb.txq|];
    SentUnit(h.st, text, e.seg);
    QueuedLogged(h, m, e, log);
  }

  lemma FinLogged(h: Host, now: Time, log: seq<Segment>)
    requires Local(h) && Logged(h, log) && h.cb.used && CanClose(h.cb.state)
    ensures var m := Apply(h, Shut(now)); Logged(m.h, Firsts(log, m.out))
  {
    var m := Apply(h, Shut(now));
    var c := h.cb.(used := false);
    EnqueueEffect(c, c.sndNxt, c.rcvNxt, FIN_ACK, now, []);
    EnqueueOut(c, c.sndNxt, c.rcvNxt, FIN_ACK, now, []);
    var e := m.h.cb.txq[|c.txq|];
    FinUnit(h.st, e.seg);
    QueuedLogged(h, m, e, log);
  }

  lemma ShutLogged(h: Host, now: Time, log: seq<Segment>)
    requires Local(h) && Logged(h, log) && h.cb.used
    ensures var m := Apply(h, Shut(now)); Logged(m.h, Firsts(log, m.out))
  {
    if CanClose(h.cb.state) {
      FinLogged(h, now, log);
    } else {
      QuietLogged(h, Apply(h, Shut(now)), log);
    }
  }

  lemma StepLogged(h: Host, e: Event, log: seq<Segment>)
    requires Local(h) && Logged(h, log) && Enabled(h, e) && StreamOk(Apply(h, e).h.st)
    requires e.Arrival? ==> SaneSyn(h.cb, e.seg)
    ensures Logged(Apply(h, e).h, Firsts(log, Apply(h, e).out))
  {
    match e
    case Open(isn, now) => OpenLogged(h, isn, now);
    case Accepted => QuietLogged(h, Apply(h, e), log);
    case Arrival(seg, now, isn) => ArrivalLogged(h, seg, now, isn, log);
    case Tick(now) => TickLogged(h, now, log);
    case Send(data, mtu, now) => SendLogged(h, data, mtu, now, log);
    case Recv(size) => QuietLogged(h, Apply(h, e), log);
    case Shut(now) => ShutLogged(h, now, log);
  }

  // ---------------------------------------------------------------- every run

  ghost predicate LoggedAt(hs: seq<Host>, es: seq<Event>, i: nat)
    requires IsEndpointRun(hs, es) && i < |hs|
  {
    Logged(hs[i], FirstSent(hs, es, i))
  }

  lemma AtLogged(hs: seq<Host>, es: seq<Event>, i: nat)
    requires IsEndpointRun(hs, es) && i < |es| && LoggedAt(hs, es, i)
    ensures LoggedAt(hs, es, i + 1)
  {
    EndpointLocal(hs, es, i);
    assert EndpointStepAt(hs, es, i);
    StepLogged(hs[i], es[i], FirstSent(hs, es, i));
  }

  lemma InitialLogged(hs: seq<Host>, es: seq<Event>)
    requires IsEndpointRun(hs, es)
    ensures LoggedAt(hs, es, 0)
  {
  }

  lemma {:induction false} RunLogged(hs: seq<Host>, es: seq<Event>, i: nat)
    requires IsEndpointRun(hs, es) && i < |hs|
    ensures LoggedAt(hs, es, i)
    decreases i
  {
    if i == 0 {
      InitialLogged(hs, es);
    } else {
      RunLogged(hs, es, i - 1);
      AtLogged(hs, es, i - 1);
    }
  }

  /** A unit waits in the queue: unsent, and behind everything sent so far. */
  ghost predicate Waiting(q: seq<Entry>, log: seq<Segment>, n: int) {
    exists i :: 0 <= i < |q| && q[i].stamp == 0 && q[i].seg.seqno == n && AllBelow(log, n)
  }

  lemma QueuedFate(q: seq<Entry>, log: seq<Segment>, i: nat)
    requires QueueLog(q, log) && i < |q|
    ensures Seen(log, q[i].seg.seqno) || Waiting(q, log, q[i].seg.seqno)
  {
  }

  lemma BaseAt(s: Stream, q: seq<Entry>, u: nat) returns (i: nat)
    requires LastUnits(s, Base(q)) && Units(s) - |Base(q)| <= u < Units(s)
    ensures i < |q| && q[i].seg.seqno == Start(s, u)
  {
    var b := Base(q);
    var j := u - (Units(s) - |b|);
    assert IsUnit(s, Units(s) - |b| + j, b[j].seg);
    i := if TwoSyns(q) then j + 1 else j;
    assert q[i] == b[j];
  }

  lemma UnitFate(h: Host, log: seq<Segment>, u: nat)
    requires Local(h) && Logged(h, log) && Past(h.cb.state) && u < Units(h.st)
    ensures var n := Start(h.st, u); Seen(log, n) || n < h.cb.sndUna || Waiting(h.cb.txq, log, n)
  {
    var q := h.cb.txq;
    var gone := Units(h.st) - |Base(q)|;
    if gone <= u {
      var i := BaseAt(h.st, q, u);
      QueuedFate(q, log, i);
    } else if u < gone - 1 {
      StartIncreases(h.st, u, gone - 1);
    }
  }

  /**
   * In every run first transmissions follow the order of the stream: SYN, text
   * as it was cut, FIN. A unit that has not been transmitted waits in the queue
   * behind all that has, unless the peer acknowledged it unsent.
   */
  lemma FirstSentInOrder(hs: seq<Host>, es: seq<Event>, i: nat)
    requires IsEndpointRun(hs, es) && i < |hs|
    ensures var log := FirstSent(hs, es, i);
            && Increasing(log) && AllUnits(hs[i].st, log)
            && (Past(hs[i].cb.state) ==>
                  forall u: nat :: u < Units(hs[i].st) ==>
                    var n := Start(hs[i].st, u);
                    Seen(log, n) || n < hs[i].cb.sndUna || Waiting(hs[i].cb.txq, log, n))
  {
    RunLogged(hs, es, i);
    EndpointLocal(hs, es, i);
    if Past(hs[i].cb.state) {
      forall u: nat | u < Units(hs[i].st)
        ensures var n := Start(hs[i].st, u);
                Seen(FirstSent(hs, es, i), n) || n < hs[i].cb.sndUna || Waiting(hs[i].cb.txq, FirstSent(hs, es, i), n)
      {
        UnitFate(hs[i], FirstSent(hs, es, i), u);
      }
    }
  }
}
