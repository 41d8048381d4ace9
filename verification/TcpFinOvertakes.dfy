/**
 A run in which a FIN overtakes text: the receiver takes the FIN, acknowledges
 everything, and the sender frees text that never arrived. `FinCompletesIff`
 says exactly when this happens.
 */
module TcpFinOvertakes {
  import opened TcpModel
  import opened TcpHost
  import opened TcpConnection
  import opened TcpTheorems

  const TEXT: Text := [7]
  const S1 := Segment(100, 0, SYN, 65535, [])
  const S2 := Segment(500, 101, SYN_ACK, 65535, [])
  const S3 := Segment(101, 501, ACK, 65535, [])
  const S4 := Segment(501, 101, PSH_ACK, 65535, TEXT)
  const S5 := Segment(502, 101, FIN_ACK, 65535, [])
  const S6 := Segment(101, 503, ACK, 65535, [])

  const A0 := NewHost(FRESH.(used := true))
  const A1 := Host(Tcb(true, SynSent, 101, 100, 0, 0, 0, 100, 0, 65535, 0, [Entry(S1, 1)], 0, [], 21),
                   true, Stream(100, [], false), 0, 0, [], [])
  const A2 := Host(Tcb(true, Established, 101, 101, 0, 0, 0, 100, 501, 65535, 500, [Entry(S1, 1)], 0, [], 21),
                   true, Stream(100, [], false), 0, 501, [], [])
  const A3 := Host(Tcb(true, CloseWait, 101, 101, 502, 101, 65535, 100, 503, 65535, 500, [Entry(S1, 1)], 0, [], 21),
                   true, Stream(100, [], false), 0, 503, [], [S5])

  const B0 := NewHost(FRESH.(state := Listen))
  const B1 := Host(Tcb(false, SynRcvd, 501, 500, 0, 0, 0, 500, 101, 65535, 100, [Entry(S2, 1)], 0, [], 21),
                   true, Stream(500, [], false), 0, 101, [], [])
  const B2 := Host(Tcb(false, Established, 501, 501, 101, 501, 65535, 500, 101, 65535, 100, [Entry(S2, 1)], 0, [], 21),
                   true, Stream(500, [], false), 0, 101, [], [S3])
  const B3 := B2.(cb := B2.cb.(used := true))
  const B4 := Host(Tcb(true, Established, 502, 501, 101, 501, 65535, 500, 101, 65535, 100,
                       [Entry(S2, 1), Entry(S4, 1)], 1, [], 21),
                   true, Stream(500, [TEXT], false), 0, 101, [], [S3])
  const B5 := Host(Tcb(false, FinWait1, 503, 501, 101, 501, 65535, 500, 101, 65535, 100,
                       [Entry(S2, 1), Entry(S4, 1), Entry(S5, 1)], 1, [], 21),
                   true, Stream(500, [TEXT], true), 0, 101, [], [S3])
  const B6 := Host(Tcb(false, FinWait1, 503, 503, 101, 503, 65535, 500, 101, 65535, 100,
                       [Entry(S2, 1), Entry(S4, 1), Entry(S5, 1)], 1, [], 21),
                   true, Stream(500, [TEXT], true), 0, 101, [], [S3, S6])
  const B7 := B6.(cb := B6.cb.(txq := [], snt := 0))

  const W0 := World(A0, B0, {}, {})
  const W1 := World(A1, B0, {S1}, {})
  const W2 := World(A1, B1, {S1}, {S2})
  const W3 := World(A2, B1, {S1, S3}, {S2})
  const W4 := World(A2, B2, {S1, S3}, {S2})
  const W5 := World(A2, B3, {S1, S3}, {S2})
  const W6 := World(A2, B4, {S1, S3}, {S2, S4})
  const W7 := World(A2, B5, {S1, S3}, {S2, S4, S5})
  const W8 := World(A3, B5, {S1, S3, S6}, {S2, S4, S5})
  const W9 := World(A3, B6, {S1, S3, S6}, {S2, S4, S5})
  const W10 := World(A3, B7, {S1, S3, S6}, {S2, S4, S5})

  lemma Handshake()
    ensures Enabled(A0, Open(100, 1)) && Apply(A0, Open(100, 1)) == Move(A1, [S1])
    ensures Enabled(B0, Arrival(S1, 1, 500)) && Apply(B0, Arrival(S1, 1, 500)) == Move(B1, [S2])
  {
  }

  lemma Synchronize()
    ensures Enabled(A1, Arrival(S2, 1, 0)) && Apply(A1, Arrival(S2, 1, 0)) == Move(A2, [S3])
    ensures Enabled(B1, Arrival(S3, 1, 0)) && Apply(B1, Arrival(S3, 1, 0)) == Move(B2, [])
  {
  }

  lemma SendAndClose()
    ensures Enabled(B3, Send([7], 1500, 1)) && Apply(B3, Send([7], 1500, 1)) == Move(B4, [S4])
    ensures Enabled(B4, Shut(1)) && Apply(B4, Shut(1)) == Move(B5, [S5])
  {
    assert [7][..1] == TEXT;
  }

  lemma FinFirst()
    ensures Enabled(A2, Arrival(S5, 1, 0)) && Apply(A2, Arrival(S5, 1, 0)) == Move(A3, [S6])
  {
  }

  lemma AllAcknowledged()
    ensures Enabled(B5, Arrival(S6, 1, 0)) && Apply(B5, Arrival(S6, 1, 0)) == Move(B6, [])
    ensures Apply(B6, Tick(1)) == Move(B7, [])
  {
    var q := B6.cb.txq;
    assert q[1..] == [Entry(S4, 1), Entry(S5, 1)] && q[1..][1..] == [Entry(S5, 1)];
    assert q[1..][1..][1..] == [] && TimerWalk([], 503, 65535, 101, 1, 0) == Pass([], [], 0);
    var w2 := TimerWalk(q[1..][1..], 503, 65535, 101, 1, 0);
    assert w2 == Pass([], [], 0);
    var w1 := TimerWalk(q[1..], 503, 65535, 101, 1, 0);
    assert w1 == Pass([], [], 1);
  }

  lemma StreamsOk()
    ensures StreamOk(Stream(100, [], false)) && StreamOk(Stream(500, [], false))
    ensures StreamOk(Stream(500, [TEXT], false)) && StreamOk(Stream(500, [TEXT], true))
    ensures Flat([TEXT]) == [7]
  {
    assert [TEXT][..1] == [TEXT] && [TEXT][..0] == [];
  }

  lemma Taken(w: World, e: Event, w': World, out: seq<Segment>)
    requires Enabled(w.a, e) && (e.Arrival? ==> e.seg in w.ba) && Apply(w.a, e) == Move(w'.a, out)
    requires StreamOk(w'.a.st) && w'.b == w.b && w'.ab == w.ab + ToSet(out) && w'.ba == w.ba
    ensures Step(w, e, w')
  {
  }

  lemma TakenB(w: World, e: Event, w': World, out: seq<Segment>)
    requires Enabled(w.b, e) && (e.Arrival? ==> e.seg in w.ab) && Apply(w.b, e) == Move(w'.b, out)
    requires StreamOk(w'.b.st) && w'.a == w.a && w'.ba == w.ba + ToSet(out) && w'.ab == w.ab
    ensures Step(w, e, w')
  {
    Taken(Flip(w), e, Flip(w'), out);
  }

  lemma OneSegment(g: Segment)
    ensures ToSet([g]) == {g} && ToSet([]) == {}
  {
  }

  lemma StepsToSynRcvd()
    ensures Step(W0, Open(100, 1), W1) && Step(W1, Arrival(S1, 1, 500), W2)
  {
    StreamsOk();
    Handshake();
    OneSegment(S1);
    OneSegment(S2);
    Taken(W0, Open(100, 1), W1, [S1]);
    TakenB(W1, Arrival(S1, 1, 500), W2, [S2]);
  }

  lemma StepsToEstablished()
    ensures Step(W2, Arrival(S2, 1, 0), W3) && Step(W3, Arrival(S3, 1, 0), W4)
  {
    StreamsOk();
    Synchronize();
    OneSegment(S3);
    Taken(W2, Arrival(S2, 1, 0), W3, [S3]);
    TakenB(W3, Arrival(S3, 1, 0), W4, []);
  }

  lemma StepsToFinWait()
    ensures Step(W4, Event.Accepted, W5) && Step(W5, Send([7], 1500, 1), W6) && Step(W6, Shut(1), W7)
  {
    StreamsOk();
    SendAndClose();
    OneSegment(S4);
    OneSegment(S5);
    TakenB(W4, Event.Accepted, W5, []);
    TakenB(W5, Send([7], 1500, 1), W6, [S4]);
    TakenB(W6, Shut(1), W7, [S5]);
  }

  lemma StepsToLoss()
    ensures Step(W7, Arrival(S5, 1, 0), W8) && Step(W8, Arrival(S6, 1, 0), W9) && Step(W9, Tick(1), W10)
  {
    StreamsOk();
    FinFirst();
    AllAcknowledged();
    OneSegment(S6);
    Taken(W7, Arrival(S5, 1, 0), W8, [S6]);
    TakenB(W8, Arrival(S6, 1, 0), W9, []);
    TakenB(W9, Tick(1), W10, []);
  }

  ghost predicate RunTo(ws: seq<World>, es: seq<Event>, w: World) {
    IsRun(ws, es) && ws[|es|] == w
  }

  /** `w` ends some run. */
  ghost predicate Reachable(w: World) {
    exists ws, es :: RunTo(ws, es, w)
  }

  lemma LongerRun(ws: seq<World>, es: seq<Event>, e: Event, w': World)
    requires IsRun(ws, es) && Step(ws[|es|], e, w')
    ensures IsRun(ws + [w'], es + [e])
  {
    var ws', es' := ws + [w'], es + [e];
    forall i | 0 <= i < |es'|
      ensures StepAt(ws', es', i)
    {
      if i < |es| { assert StepAt(ws, es, i); }
    }
  }

  lemma ReachableNext(w: World, e: Event, w': World)
    requires Reachable(w) && Step(w, e, w')
    ensures Reachable(w')
  {
    var ws, es :| RunTo(ws, es, w);
    LongerRun(ws, es, e, w');
    assert RunTo(ws + [w'], es + [e], w');
  }

  lemma W0Reachable()
    ensures Reachable(W0)
  {
    assert RunTo([W0], [], W0);
  }

  lemma W2Reachable()
    ensures Reachable(W2)
  {
    W0Reachable();
    StepsToSynRcvd();
    ReachableNext(W0, Open(100, 1), W1);
    ReachableNext(W1, Arrival(S1, 1, 500), W2);
  }

  lemma W4Reachable()
    ensures Reachable(W4)
  {
    W2Reachable();
    StepsToEstablished();
    ReachableNext(W2, Arrival(S2, 1, 0), W3);
    ReachableNext(W3, Arrival(S3, 1, 0), W4);
  }

  lemma W7Reachable()
    ensures Reachable(W7)
  {
    W4Reachable();
    StepsToFinWait();
    ReachableNext(W4, Event.Accepted, W5);
    ReachableNext(W5, Send([7], 1500, 1), W6);
    ReachableNext(W6, Shut(1), W7);
  }

  /** Every byte acknowledged, the queue empty, the FIN taken, and the text lost. */
  lemma FinOvertakesText() returns (w: World)
    ensures Reachable(w)
    ensures GotFin(w.a.cb.state) && w.b.cb.sndUna == w.b.cb.sndNxt && w.b.cb.txq == []
    ensures Received(w.a) == [] && SentBytes(w.b) == [7]
  {
    W7Reachable();
    StepsToLoss();
    ReachableNext(W7, Arrival(S5, 1, 0), W8);
    ReachableNext(W8, Arrival(S6, 1, 0), W9);
    ReachableNext(W9, Tick(1), W10);
    StreamsOk();
    w := W10;
  }
}
