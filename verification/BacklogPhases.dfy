/**
 * The machine of `Backlog` follows the control blocks of `TcpModel`: whatever
 * happens to an endpoint, its phase moves as one or two events of that machine
 * move it.
 */
module BacklogPhases {
  import opened Words
  import opened Wrappers
  import opened TcpModel
  import opened TcpHost
  import opened TcpLocal
  import opened TcpEndpointRuns
  import opened TcpArrivals
  import opened TcpCalls
  import B = Backlog

  function PhaseOf(s: State): B.Phase {
    match s
    case Closed => B.Phase.Closed
    case Listen => B.Phase.Listen
    case SynSent => B.Phase.SynSent
    case SynRcvd => B.Phase.SynRcvd
    case Established => B.Phase.Open
    case CloseWait => B.Phase.Open
    case _ => B.Phase.Closing
  }

  /** A table with one block, which nobody listens for. */
  function Lone(used: bool, s: State): B.State {
    B.State([B.Cb(used, PhaseOf(s), None, [], 0, [], [])], {})
  }

  /** The table after these events; None if one of them could not happen. */
  function Follow(b: B.State, xs: seq<B.Event>): Option<B.State>
    decreases |xs|
  {
    if xs == [] then Some(b)
    else if B.Enabled(b, xs[0]) then Follow(B.Apply(b, xs[0]), xs[1..])
    else None
  }

  ghost predicate Reaches(used: bool, s: State, xs: seq<B.Event>, t: State) {
    var r := Follow(Lone(used, s), xs);
    r.Some? && |r.value.cbs| == 1 && r.value.cbs[0].phase == PhaseOf(t)
  }

  lemma OneEvent(used: bool, s: State, x: B.Event, t: State)
    requires var b := Lone(used, s);
             B.Enabled(b, x) && |B.Apply(b, x).cbs| == 1 && B.Apply(b, x).cbs[0].phase == PhaseOf(t)
    ensures Reaches(used, s, [x], t)
  {
    assert [x][1..] == [];
    assert Follow(B.Apply(Lone(used, s), x), []) == Some(B.Apply(Lone(used, s), x));
  }

  /** A listener that takes a SYN with a FIN. */
  lemma ListenSlips(used: bool)
    ensures Reaches(used, Listen, [B.Direct(0), B.Slip(0)], CloseWait)
  {
    var xs := [B.Direct(0), B.Slip(0)];
    var b := Lone(used, Listen);
    var b1 := B.Apply(b, xs[0]);
    assert xs[1..] == [B.Slip(0)] && xs[1..][1..] == [];
    assert Follow(B.Apply(b1, B.Slip(0)), []) == Some(B.Apply(b1, B.Slip(0)));
  }

  /** What an arrival that does not reset makes of the phase of a synchronized block. */
  lemma SyncedPhase(h: Host, seg: Segment, now: Time, isn: Word)
    requires Ready(h, seg, now, isn) && !Resets(h.cb, seg)
    ensures var s, t := h.cb.state, Arrive(h.cb, seg, now, isn).cb.state;
            PhaseOf(s) == PhaseOf(t) || (s == SynRcvd && t in {Established, CloseWait})
  {
    ArrivalMoves(h, seg, now, isn);
    MovesPhase(h.cb, Arrive(h.cb, seg, now, isn).cb, seg);
  }

  lemma MovesPhase(c: Tcb, d: Tcb, seg: Segment)
    requires Synced(c.state) && StateMoves(c, d, seg)
    ensures PhaseOf(c.state) == PhaseOf(d.state) || (c.state == SynRcvd && d.state in {Established, CloseWait})
  {
    AckPhase(c, seg);
    var s := Acknowledged(c, seg);
    if BringsFin(c, seg) { FinPhase(s, d.state); }
  }

  lemma AckPhase(c: Tcb, seg: Segment)
    requires Synced(c.state)
    ensures var s := Acknowledged(c, seg);
            Synced(s) && (PhaseOf(s) == PhaseOf(c.state) || (c.state == SynRcvd && s == Established))
  {
  }

  lemma FinPhase(s: State, t: State)
    requires FinEdge(s, t)
    ensures PhaseOf(s) == PhaseOf(t) || (s == SynRcvd && t == CloseWait)
  {
  }

  lemma SyncedEvent(used: bool, s: State, t: State) returns (xs: seq<B.Event>)
    requires Synced(s)
    requires t == Closed || PhaseOf(s) == PhaseOf(t) || (s == SynRcvd && t in {Established, CloseWait})
    ensures Reaches(used, s, xs, t)
  {
    if PhaseOf(s) == PhaseOf(t) {
      xs := [];
    } else {
      xs := [if t == Closed then B.End(0) else if t == Established then B.Establish(0) else B.Slip(0)];
      OneEvent(used, s, xs[0], t);
    }
  }

  lemma SyncedFollows(h: Host, seg: Segment, now: Time, isn: Word) returns (xs: seq<B.Event>)
    requires Ready(h, seg, now, isn)
    ensures Reaches(h.cb.used, h.cb.state, xs, Arrive(h.cb, seg, now, isn).cb.state)
  {
    ResetIff(h, seg, now, isn);
    if !Resets(h.cb, seg) { SyncedPhase(h, seg, now, isn); }
    xs := SyncedEvent(h.cb.used, h.cb.state, Arrive(h.cb, seg, now, isn).cb.state);
  }

  lemma ListenFollows(h: Host, seg: Segment, now: Time, isn: Word) returns (xs: seq<B.Event>)
    requires Local(h) && h.cb.state == Listen && !Overruns(h.cb, seg, now, isn)
    ensures Reaches(h.cb.used, Listen, xs, Arrive(h.cb, seg, now, isn).cb.state)
  {
    ListenArrival(h, seg, now, isn);
    if !OpensListen(seg) {
      xs := [B.Rejected(0)];
      OneEvent(h.cb.used, Listen, xs[0], Closed);
    } else if seg.flags.fin {
      xs := [B.Direct(0), B.Slip(0)];
      ListenSlips(h.cb.used);
    } else {
      xs := [B.Direct(0)];
      OneEvent(h.cb.used, Listen, xs[0], SynRcvd);
    }
  }

  lemma SynSentFollows(h: Host, seg: Segment, now: Time, isn: Word) returns (xs: seq<B.Event>)
    requires Local(h) && h.cb.state == SynSent && SaneSyn(h.cb, seg)
    ensures !Overruns(h.cb, seg, now, isn) && Reaches(h.cb.used, SynSent, xs, Arrive(h.cb, seg, now, isn).cb.state)
  {
    SynSentArrival(h, seg, now, isn);
    var t := Arrive(h.cb, seg, now, isn).cb.state;
    if t == SynSent {
      xs := [];
    } else {
      xs := [if t == Closed then B.End(0) else if t == SynRcvd then B.Cross(0) else B.Answered(0)];
      OneEvent(h.cb.used, SynSent, xs[0], t);
    }
  }

  lemma ArrivalFollows(h: Host, seg: Segment, now: Time, isn: Word) returns (xs: seq<B.Event>)
    requires Local(h) && !Overruns(h.cb, seg, now, isn) && SaneSyn(h.cb, seg)
    ensures Reaches(h.cb.used, h.cb.state, xs, Arrive(h.cb, seg, now, isn).cb.state)
  {
    if h.cb.state == Closed {
      ClosedArrival(h.cb, seg, now, isn);
      xs := [];
    } else if h.cb.state == Listen {
      xs := ListenFollows(h, seg, now, isn);
    } else if h.cb.state == SynSent {
      xs := SynSentFollows(h, seg, now, isn);
    } else {
      xs := SyncedFollows(h, seg, now, isn);
    }
  }

  lemma CloseFollows(h: Host, now: Time) returns (xs: seq<B.Event>)
    requires Local(h) && h.cb.used
    ensures Reaches(true, h.cb.state, xs, Close(h.cb, now).cb.state)
  {
    ClosePhase(h, now);
    xs := [B.CloseSock(0)];
    B.ShutActs(Lone(true, h.cb.state), 0);
    OneEvent(true, h.cb.state, xs[0], Close(h.cb, now).cb.state);
  }

  lemma ClosePhase(h: Host, now: Time)
    requires Local(h) && h.cb.used
    ensures B.CloseMoves(PhaseOf(h.cb.state), PhaseOf(Close(h.cb, now).cb.state))
  {
    LocalUnsent(h);
    CloseIs(h.cb, now);
  }

  /** In every run each event of an endpoint is at most two events of the machine. */
  lemma PhaseFollows(hs: seq<Host>, es: seq<Event>, i: nat) returns (xs: seq<B.Event>)
    requires IsEndpointRun(hs, es) && i < |es|
    ensures Reaches(hs[i].cb.used, hs[i].cb.state, xs, hs[i + 1].cb.state)
  {
    EndpointLocal(hs, es, i);
    assert EndpointStepAt(hs, es, i);
    xs := StepFollows(hs[i], es[i]);
  }

  lemma StepFollows(h: Host, e: Event) returns (xs: seq<B.Event>)
    requires Local(h) && Enabled(h, e) && (e.Arrival? ==> SaneSyn(h.cb, e.seg))
    ensures Reaches(h.cb.used, h.cb.state, xs, Apply(h, e).h.cb.state)
  {
    match e
    case Arrival(seg, now, isn) => xs := ArrivalFollows(h, seg, now, isn);
    case Shut(now) => xs := CloseFollows(h, now);
    case Open(isn, now) =>
      xs := [B.ConnectSock(0)];
      OneEvent(h.cb.used, h.cb.state, xs[0], SynSent);
    case Tick(now) =>
      if Apply(h, e).h.cb.state == h.cb.state {
        xs := [];
      } else {
        xs := [B.End(0)];
        OneEvent(h.cb.used, h.cb.state, xs[0], Closed);
      }
    case _ => xs := [];
  }
}
