/**
 * Listening sockets and their backlogs (tcp.c:526-531, 855-880, 1037-1122,
 * 1257-1303) as a state machine over the table of control blocks, of which
 * only what decides who is in which backlog is kept.
 */
module Backlog {
  import opened Wrappers

  /** `Open` stands for ESTABLISHED and CLOSE_WAIT, `Closing` for the states after our FIN. */
  datatype Phase = Closed | Listen | SynSent | SynRcvd | Open | Closing

  /** A connection: the control block and how many it has had before. */
  datatype Conn = Conn(cb: nat, gen: nat)

  /** What left a backlog: accepted, or thrown away with its listener. */
  datatype Popped = Popped(conn: Conn, accepted: bool)

  /**
   * `gen`, `est` and `outs` are history: connections this block has had,
   * connections pushed on its backlog, and those that left it.
   */
  datatype Cb = Cb(used: bool, phase: Phase, parent: Option<nat>, backlog: seq<nat>,
                   gen: nat, est: seq<Conn>, outs: seq<Popped>)

  datatype State = State(cbs: seq<Cb>, ended: set<Conn>)

  predicate Connecting(p: Phase) {
    p != Closed && p != Listen
  }

  predicate Free(c: Cb) {
    !c.used && c.phase == Closed
  }

  datatype Event =
    | OpenSock(c: nat)      // tcp_api_open takes a free block
    | ListenSock(c: nat)    // tcp_api_listen
    | ConnectSock(c: nat)   // tcp_api_connect sends its SYN
    | Syn(c: nat, l: nat)   // a SYN for listener l takes a free block
    | Refused(c: nat)       // anything else for a listener leaves the block closed
    | Direct(c: nat)        // a SYN from a listener's own stale peer is answered by the listener itself
    | Rejected(c: nat)      // anything else from there closes the listener
    | Cross(c: nat)         // SYN_SENT meets a SYN
    | Answered(c: nat)      // SYN_SENT is acknowledged
    | Slip(c: nat)          // a FIN without ACK takes SYN_RCVD to CLOSE_WAIT
    | Establish(c: nat)     // SYN_RCVD is acknowledged
    | End(c: nat)           // reset, time-out or final ACK: tcp_close_cb
    | CloseSock(c: nat)     // tcp_api_close
    | Accept(l: nat)        // tcp_api_accept takes the head of the backlog

  predicate Enabled(s: State, e: Event) {
    match e
    case OpenSock(c) => c < |s.cbs| && Free(s.cbs[c])
    case ListenSock(c) => c < |s.cbs| && s.cbs[c].used && s.cbs[c].phase == Closed
    case ConnectSock(c) => c < |s.cbs| && s.cbs[c].used && s.cbs[c].phase == Closed
    case Syn(c, l) => c < |s.cbs| && l < |s.cbs| && Free(s.cbs[c]) && s.cbs[l].phase == Listen
    case Refused(c) => c < |s.cbs| && Free(s.cbs[c])
    case Direct(c) => c < |s.cbs| && s.cbs[c].phase == Listen
    case Rejected(c) => c < |s.cbs| && s.cbs[c].phase == Listen
    case Cross(c) => c < |s.cbs| && s.cbs[c].phase == SynSent
    case Answered(c) => c < |s.cbs| && s.cbs[c].phase == SynSent
    case Slip(c) => c < |s.cbs| && s.cbs[c].phase == SynRcvd
    case Establish(c) =>
      c < |s.cbs| && s.cbs[c].phase == SynRcvd && (s.cbs[c].parent.Some? ==> s.cbs[c].parent.value < |s.cbs|)
    case End(c) => c < |s.cbs| && Connecting(s.cbs[c].phase)
    case CloseSock(c) => c < |s.cbs|
    case Accept(l) =>
      l < |s.cbs| && s.cbs[l].used && s.cbs[l].phase == Listen
      && s.cbs[l].backlog != [] && s.cbs[l].backlog[0] < |s.cbs|
  }

  function Set(s: State, c: nat, cb: Cb): State
    requires c < |s.cbs|
  {
    s.(cbs := s.cbs[c := cb])
  }

  /** `queue_push` on the parent (tcp.c:527-529). */
  function Pushed(s: State, l: nat, c: nat): State
    requires l < |s.cbs| && c < |s.cbs|
  {
    var p := s.cbs[l];
    Set(s, l, p.(backlog := p.backlog + [c], est := p.est + [Conn(c, s.cbs[c].gen)]))
  }

  /** The connection whose push put the head of the backlog there. */
  function HeadConn(p: Cb): Conn
    requires |p.outs| < |p.est|
  {
    p.est[|p.outs|]
  }

  /** `queue_pop` of a backlog that is not empty. */
  function WithoutHead(p: Cb, accepted: bool): Cb
    requires p.backlog != []
  {
    p.(backlog := p.backlog[1..],
       outs := p.outs + if |p.outs| < |p.est| then [Popped(HeadConn(p), accepted)] else [])
  }

  function Ended(s: State, c: nat): State
    requires c < |s.cbs|
  {
    Set(s, c, s.cbs[c].(phase := Closed)).(ended := s.ended + {Conn(c, s.cbs[c].gen)})
  }

  /** Blocks in use. */
  function InUse(cbs: seq<Cb>): nat {
    if cbs == [] then 0 else InUse(cbs[..|cbs| - 1]) + if cbs[|cbs| - 1].used then 1 else 0
  }

  lemma {:induction false} InUseSet(cbs: seq<Cb>, c: nat, cb: Cb)
    requires c < |cbs|
    ensures InUse(cbs[c := cb])
            == InUse(cbs) + (if cb.used then 1 else 0) - (if cbs[c].used then 1 else 0)
    decreases |cbs|
  {
    var n := |cbs| - 1;
    if c == n {
      assert cbs[c := cb][..n] == cbs[..n];
    } else {
      assert cbs[c := cb][..n] == cbs[..n][c := cb];
      InUseSet(cbs[..n], c, cb);
    }
  }

  /**
   * `tcp_close` (tcp.c:1055-1122). Closing a listener closes every block in its
   * backlog; a block there that has come into use again may be a listener itself.
   */
  function Shut(s: State, c: nat): (r: State)
    requires c < |s.cbs|
    ensures |r.cbs| == |s.cbs| && (r == s || InUse(r.cbs) < InUse(s.cbs))
    decreases InUse(s.cbs), 0
  {
    if !s.cbs[c].used then s
    else
      var cb := s.cbs[c].(used := false);
      InUseSet(s.cbs, c, cb);
      var o := Set(s, c, cb);
      match cb.phase
      case Listen =>
        var d := Drain(o, c);
        InUseSet(d.cbs, c, d.cbs[c].(phase := Closed));
        Set(d, c, d.cbs[c].(phase := Closed))
      case SynSent =>
        InUseSet(o.cbs, c, cb.(phase := Closed));
        Ended(o, c)
      case SynRcvd =>
        InUseSet(o.cbs, c, cb.(phase := Closing));
        Set(o, c, cb.(phase := Closing))
      case Open =>
        InUseSet(o.cbs, c, cb.(phase := Closing));
        Set(o, c, cb.(phase := Closing))
      case _ => o
  }

  /** The loop over the backlog (tcp.c:1075-1077). */
  function Drain(s: State, l: nat): (r: State)
    requires l < |s.cbs|
    ensures |r.cbs| == |s.cbs| && InUse(r.cbs) <= InUse(s.cbs)
    decreases InUse(s.cbs), |s.cbs[l].backlog|
  {
    var p := s.cbs[l];
    if p.backlog == [] then s
    else
      InUseSet(s.cbs, l, WithoutHead(p, false));
      var o := Set(s, l, WithoutHead(p, false));
      Drain(if p.backlog[0] < |s.cbs| then Shut(o, p.backlog[0]) else o, l)
  }

  /** Events that touch one block and no backlog. */
  predicate Simple(e: Event) {
    e.OpenSock? || e.ListenSock? || e.ConnectSock? || e.Syn? || e.Refused? || e.Direct? || e.Rejected?
    || e.Cross? || e.Answered? || e.Slip?
  }

  function Moved(cb: Cb, e: Event): Cb {
    match e
    case OpenSock(_) => cb.(used := true)
    case ListenSock(_) => cb.(phase := Listen)
    case ConnectSock(_) => cb.(phase := SynSent, gen := cb.gen + 1)
    case Syn(_, l) => cb.(phase := SynRcvd, parent := Some(l), gen := cb.gen + 1)
    case Refused(_) => cb.(parent := None)
    case Direct(_) => cb.(phase := SynRcvd, gen := cb.gen + 1)
    case Rejected(_) => cb.(phase := Closed, parent := None)
    case Cross(_) => cb.(phase := SynRcvd)
    case Answered(_) => cb.(phase := Open)
    case Slip(_) => cb.(phase := Open)
    case _ => cb
  }

  function Apply(s: State, e: Event): State
    requires Enabled(s, e)
  {
    if Simple(e) then Set(s, e.c, Moved(s.cbs[e.c], e)) else
    match e
    case Establish(c) =>
      var o := Set(s, c, s.cbs[c].(phase := Open));
      if s.cbs[c].parent.Some? then Pushed(o, s.cbs[c].parent.value, c) else o
    case End(c) => Ended(s, c)
    case CloseSock(c) => Shut(s, c)
    case Accept(l) =>
      var p := s.cbs[l];
      var o := Set(s, l, WithoutHead(p, true));
      Set(o, p.backlog[0], o.cbs[p.backlog[0]].(used := true))
  }

  function Start(n: nat): State {
    State(seq(n, i => Cb(false, Closed, None, [], 0, [], [])), {})
  }

  // -------------------------------------------------------------- invariant

  /** What left and what is still queued is, in order, what was established. */
  ghost predicate InOrder(p: Cb) {
    && |p.outs| + |p.backlog| == |p.est|
    && (forall i :: 0 <= i < |p.outs| ==> p.outs[i].conn == p.est[i])
    && forall i :: 0 <= i < |p.backlog| ==> p.backlog[i] == p.est[|p.outs| + i].cb
  }

  ghost predicate Alive(s: State, x: Conn) {
    x.cb < |s.cbs| && s.cbs[x.cb].gen == x.gen && s.cbs[x.cb].phase in {Open, Closing}
  }

  /** `x` has been pushed: it is over or open, never back before the push. */
  ghost predicate Past(s: State, x: Conn) {
    && x.cb < |s.cbs| && x.gen <= s.cbs[x.cb].gen
    && (x.gen == s.cbs[x.cb].gen ==> s.cbs[x.cb].phase != SynSent && s.cbs[x.cb].phase != SynRcvd)
    && (Alive(s, x) <==> x !in s.ended)
  }

  ghost predicate AllPast(s: State) {
    forall l, i :: 0 <= l < |s.cbs| && 0 <= i < |s.cbs[l].est| ==> Past(s, s.cbs[l].est[i])
  }

  /** A connection is pushed once, on one backlog. */
  ghost predicate Unique(s: State) {
    forall l, i, m, j ::
      (&& 0 <= l < |s.cbs| && 0 <= i < |s.cbs[l].est|
       && 0 <= m < |s.cbs| && 0 <= j < |s.cbs[m].est|
       && s.cbs[l].est[i] == s.cbs[m].est[j]) ==> l == m && i == j
  }

  /** Blocks that never had this connection do not count it as over. */
  ghost predicate EndedPast(s: State) {
    forall x :: x in s.ended ==> x.cb < |s.cbs| && x.gen <= s.cbs[x.cb].gen
                                 && (x.gen == s.cbs[x.cb].gen ==> s.cbs[x.cb].phase in {Closed, Listen})
  }

  ghost predicate Inv(s: State) {
    && (forall l :: 0 <= l < |s.cbs| ==> InOrder(s.cbs[l]))
    && AllPast(s) && Unique(s) && EndedPast(s)
  }

  // ------------------------------------------------------------ every step

  /** A block moves on without its queue or its logs changing. */
  predicate MovesOn(a: Cb, b: Cb) {
    && b.backlog == a.backlog && b.est == a.est && b.outs == a.outs
    && if b.gen == a.gen then
         || b.phase == a.phase
         || (a.phase in {SynSent, SynRcvd} && b.phase in {SynRcvd, Open, Closing})
         || (a.phase == Open && b.phase == Closing)
         || (a.phase in {Closed, Listen} && b.phase in {Closed, Listen})
       else b.gen == a.gen + 1 && a.phase in {Closed, Listen} && b.phase in {SynSent, SynRcvd}
  }

  /** The logs of pushes are the same and whatever they name is still past. */
  ghost predicate SameLogs(s: State, n: State) {
    && |n.cbs| == |s.cbs|
    && forall l :: 0 <= l < |s.cbs| ==> n.cbs[l].est == s.cbs[l].est
  }

  lemma UniqueKept(s: State, n: State)
    requires Unique(s) && SameLogs(s, n)
    ensures Unique(n)
  {
  }

  lemma MovesOnPast(s: State, c: nat, cb: Cb, x: Conn)
    requires Past(s, x) && EndedPast(s) && c < |s.cbs| && MovesOn(s.cbs[c], cb)
    ensures Past(Set(s, c, cb), x)
  {
  }

  lemma MovesOnEnded(s: State, c: nat, cb: Cb)
    requires EndedPast(s) && c < |s.cbs| && MovesOn(s.cbs[c], cb)
    ensures EndedPast(Set(s, c, cb))
  {
  }

  lemma MovesOnAllPast(s: State, c: nat, cb: Cb)
    requires AllPast(s) && EndedPast(s) && c < |s.cbs| && MovesOn(s.cbs[c], cb)
    ensures AllPast(Set(s, c, cb))
  {
    var n := Set(s, c, cb);
    assert SameLogs(s, n);
    forall l, i | 0 <= l < |n.cbs| && 0 <= i < |n.cbs[l].est|
      ensures Past(n, n.cbs[l].est[i])
    {
      assert Past(s, s.cbs[l].est[i]);
      MovesOnPast(s, c, cb, s.cbs[l].est[i]);
    }
  }

  lemma MovesOnKeeps(s: State, c: nat, cb: Cb)
    requires Inv(s) && c < |s.cbs| && MovesOn(s.cbs[c], cb)
    ensures Inv(Set(s, c, cb))
  {
    UniqueKept(s, Set(s, c, cb));
    MovesOnEnded(s, c, cb);
    MovesOnAllPast(s, c, cb);
    assert InOrder(s.cbs[c]);
  }

  lemma EndedPastOne(s: State, c: nat, x: Conn)
    requires Past(s, x) && c < |s.cbs| && Connecting(s.cbs[c].phase)
    ensures Past(Ended(s, c), x)
  {
  }

  lemma EndedPastKept(s: State, c: nat)
    requires EndedPast(s) && c < |s.cbs|
    ensures EndedPast(Ended(s, c))
  {
  }

  lemma EndedAllPast(s: State, c: nat)
    requires AllPast(s) && c < |s.cbs| && Connecting(s.cbs[c].phase)
    ensures AllPast(Ended(s, c))
  {
    var n := Ended(s, c);
    assert SameLogs(s, n);
    forall l, i | 0 <= l < |n.cbs| && 0 <= i < |n.cbs[l].est|
      ensures Past(n, n.cbs[l].est[i])
    {
      assert Past(s, s.cbs[l].est[i]);
      EndedPastOne(s, c, s.cbs[l].est[i]);
    }
  }

  lemma EndedKeeps(s: State, c: nat)
    requires Inv(s) && c < |s.cbs| && Connecting(s.cbs[c].phase)
    ensures Inv(Ended(s, c))
  {
    UniqueKept(s, Ended(s, c));
    EndedPastKept(s, c);
    EndedAllPast(s, c);
    assert InOrder(s.cbs[c]);
  }

  /** A block's queue and logs change, nothing else. */
  predicate Requeued(a: Cb, b: Cb) {
    b == a.(backlog := b.backlog, est := b.est, outs := b.outs)
  }

  lemma RequeuedKeeps(s: State, l: nat, cb: Cb)
    requires Inv(s) && l < |s.cbs| && Requeued(s.cbs[l], cb)
    requires cb.est == s.cbs[l].est && InOrder(cb)
    ensures Inv(Set(s, l, cb))
  {
    var n := Set(s, l, cb);
    assert forall m :: 0 <= m < |s.cbs| ==> n.cbs[m].est == s.cbs[m].est;
    forall m, i | 0 <= m < |n.cbs| && 0 <= i < |n.cbs[m].est|
      ensures Past(n, n.cbs[m].est[i])
    {
      assert Past(s, s.cbs[m].est[i]);
    }
  }

  /** A connection that leaves SYN_RCVD has not been pushed before. */
  lemma NotYetPushed(s: State, c: nat, l: nat, i: nat)
    requires Inv(s) && c < |s.cbs| && s.cbs[c].phase == SynRcvd
    requires l < |s.cbs| && i < |s.cbs[l].est|
    ensures s.cbs[l].est[i] != Conn(c, s.cbs[c].gen)
  {
    assert Past(s, s.cbs[l].est[i]);
  }

  ghost predicate NeverPushed(s: State, x: Conn) {
    forall m, i :: 0 <= m < |s.cbs| && 0 <= i < |s.cbs[m].est| ==> s.cbs[m].est[i] != x
  }

  lemma PushedLogs(s: State, l: nat, c: nat, m: nat)
    requires l < |s.cbs| && c < |s.cbs| && m < |s.cbs|
    ensures var n := Pushed(s, l, c);
            && |n.cbs| == |s.cbs| && n.ended == s.ended
            && n.cbs[m].gen == s.cbs[m].gen && n.cbs[m].phase == s.cbs[m].phase
            && n.cbs[m].est == s.cbs[m].est + if m == l then [Conn(c, s.cbs[c].gen)] else []
  {
  }

  lemma PushedUnique(s: State, l: nat, c: nat)
    requires Unique(s) && l < |s.cbs| && c < |s.cbs| && NeverPushed(s, Conn(c, s.cbs[c].gen))
    ensures Unique(Pushed(s, l, c))
  {
    forall m | 0 <= m < |s.cbs|
      ensures Pushed(s, l, c).cbs[m].est == s.cbs[m].est + if m == l then [Conn(c, s.cbs[c].gen)] else []
    {
      PushedLogs(s, l, c, m);
    }
  }

  lemma PushedPast(s: State, l: nat, c: nat)
    requires AllPast(s) && EndedPast(s) && l < |s.cbs| && c < |s.cbs|
    requires s.cbs[c].phase == Open
    ensures AllPast(Pushed(s, l, c)) && EndedPast(Pushed(s, l, c))
  {
    var n := Pushed(s, l, c);
    forall m | 0 <= m < |s.cbs|
      ensures n.cbs[m].gen == s.cbs[m].gen && n.cbs[m].phase == s.cbs[m].phase
      ensures n.cbs[m].est == s.cbs[m].est + if m == l then [Conn(c, s.cbs[c].gen)] else []
    {
      PushedLogs(s, l, c, m);
    }
    assert forall x :: Past(n, x) <==> Past(s, x);
    assert Past(s, Conn(c, s.cbs[c].gen));
  }

  lemma PushedKeeps(s: State, l: nat, c: nat)
    requires Inv(s) && l < |s.cbs| && c < |s.cbs|
    requires s.cbs[c].phase == Open && NeverPushed(s, Conn(c, s.cbs[c].gen))
    ensures Inv(Pushed(s, l, c))
  {
    PushedUnique(s, l, c);
    PushedPast(s, l, c);
    assert InOrder(s.cbs[l]);
  }

  lemma EstablishKeeps(s: State, c: nat)
    requires Inv(s) && Enabled(s, Establish(c))
    ensures Inv(Apply(s, Establish(c)))
  {
    var o := Set(s, c, s.cbs[c].(phase := Open));
    MovesOnKeeps(s, c, s.cbs[c].(phase := Open));
    if s.cbs[c].parent.Some? {
      forall m, i | 0 <= m < |o.cbs| && 0 <= i < |o.cbs[m].est|
        ensures o.cbs[m].est[i] != Conn(c, o.cbs[c].gen)
      {
        NotYetPushed(s, c, m, i);
      }
      PushedKeeps(o, s.cbs[c].parent.value, c);
    }
  }

  /** Throwing away the head of a backlog. */
  lemma HeadDropped(s: State, l: nat)
    requires Inv(s) && l < |s.cbs| && s.cbs[l].backlog != []
    ensures Inv(Set(s, l, WithoutHead(s.cbs[l], false))) && s.cbs[l].backlog[0] < |s.cbs|
  {
    var p := s.cbs[l];
    assert InOrder(p) && Past(s, p.est[|p.outs|]);
    HeadInOrder(p, false);
    RequeuedKeeps(s, l, WithoutHead(p, false));
  }

  lemma HeadInOrder(p: Cb, accepted: bool)
    requires InOrder(p) && p.backlog != []
    ensures InOrder(WithoutHead(p, accepted))
  {
  }

  lemma UnusedKeeps(s: State, c: nat)
    requires Inv(s) && c < |s.cbs|
    ensures Inv(Set(s, c, s.cbs[c].(used := false)))
  {
    MovesOnKeeps(s, c, s.cbs[c].(used := false));
  }

  lemma ClosingKeeps(s: State, c: nat)
    requires Inv(s) && c < |s.cbs| && s.cbs[c].phase in {SynRcvd, Open}
    ensures Inv(Set(s, c, s.cbs[c].(phase := Closing)))
  {
    MovesOnKeeps(s, c, s.cbs[c].(phase := Closing));
  }

  /** A block that is not in use is left alone by the closing of others. */
  lemma {:induction false} ShutLeaves(s: State, c: nat, l: nat)
    requires c < |s.cbs| && l < |s.cbs| && !s.cbs[l].used
    ensures Shut(s, c).cbs[l] == s.cbs[l]
    decreases InUse(s.cbs), 0
  {
    if s.cbs[c].used && s.cbs[c].phase == Listen {
      var cb := s.cbs[c].(used := false);
      InUseSet(s.cbs, c, cb);
      DrainLeaves(Set(s, c, cb), c, l);
    }
  }

  lemma {:induction false} DrainLeaves(s: State, c: nat, l: nat)
    requires c < |s.cbs| && l < |s.cbs| && !s.cbs[l].used && c != l
    ensures Drain(s, c).cbs[l] == s.cbs[l]
    decreases InUse(s.cbs), |s.cbs[c].backlog|
  {
    var p := s.cbs[c];
    if p.backlog != [] {
      InUseSet(s.cbs, c, WithoutHead(p, false));
      var o := Set(s, c, WithoutHead(p, false));
      if p.backlog[0] < |s.cbs| {
        ShutLeaves(o, p.backlog[0], l);
        DrainLeaves(Shut(o, p.backlog[0]), c, l);
      } else {
        DrainLeaves(o, c, l);
      }
    }
  }

  /** The listener being closed stays as it is but for its queue. */
  lemma {:induction false} DrainKeepsPhase(s: State, l: nat)
    requires l < |s.cbs| && !s.cbs[l].used
    ensures Drain(s, l).cbs[l].phase == s.cbs[l].phase
    decreases InUse(s.cbs), |s.cbs[l].backlog|
  {
    var p := s.cbs[l];
    if p.backlog != [] {
      InUseSet(s.cbs, l, WithoutHead(p, false));
      var o := Set(s, l, WithoutHead(p, false));
      if p.backlog[0] < |s.cbs| {
        ShutLeaves(o, p.backlog[0], l);
        DrainKeepsPhase(Shut(o, p.backlog[0]), l);
      } else {
        DrainKeepsPhase(o, l);
      }
    }
  }

  lemma {:induction false} ShutKeeps(s: State, c: nat)
    requires Inv(s) && c < |s.cbs|
    ensures Inv(Shut(s, c))
    decreases InUse(s.cbs), 0
  {
    if s.cbs[c].used {
      var cb := s.cbs[c].(used := false);
      var o := Set(s, c, cb);
      InUseSet(s.cbs, c, cb);
      UnusedKeeps(s, c);
      if cb.phase == Listen {
        DrainKeeps(o, c);
        DrainKeepsPhase(o, c);
        ListenEnds(Drain(o, c), c);
      } else if cb.phase == SynSent {
        EndedKeeps(o, c);
      } else if cb.phase == SynRcvd || cb.phase == Open {
        ClosingKeeps(o, c);
      }
    }
  }

  lemma {:induction false} DrainKeeps(s: State, l: nat)
    requires Inv(s) && l < |s.cbs|
    ensures Inv(Drain(s, l))
    decreases InUse(s.cbs), |s.cbs[l].backlog|
  {
    var p := s.cbs[l];
    if p.backlog != [] {
      HeadDropped(s, l);
      InUseSet(s.cbs, l, WithoutHead(p, false));
      var o := Set(s, l, WithoutHead(p, false));
      ShutKeeps(o, p.backlog[0]);
      DrainKeeps(Shut(o, p.backlog[0]), l);
    }
  }

  lemma ListenEndsPast(s: State, c: nat, x: Conn)
    requires Past(s, x) && c < |s.cbs| && s.cbs[c].phase == Listen
    ensures Past(Set(s, c, s.cbs[c].(phase := Closed)), x)
  {
  }

  lemma ListenEndsAllPast(s: State, c: nat)
    requires AllPast(s) && c < |s.cbs| && s.cbs[c].phase == Listen
    ensures AllPast(Set(s, c, s.cbs[c].(phase := Closed)))
  {
    var n := Set(s, c, s.cbs[c].(phase := Closed));
    assert SameLogs(s, n);
    forall l, i | 0 <= l < |n.cbs| && 0 <= i < |n.cbs[l].est|
      ensures Past(n, n.cbs[l].est[i])
    {
      assert Past(s, s.cbs[l].est[i]);
      ListenEndsPast(s, c, s.cbs[l].est[i]);
    }
  }

  lemma ListenEndsEnded(s: State, c: nat)
    requires EndedPast(s) && c < |s.cbs| && s.cbs[c].phase == Listen
    ensures EndedPast(Set(s, c, s.cbs[c].(phase := Closed)))
  {
  }

  lemma ListenEnds(s: State, c: nat)
    requires Inv(s) && c < |s.cbs| && s.cbs[c].phase == Listen
    ensures Inv(Set(s, c, s.cbs[c].(phase := Closed)))
  {
    UniqueKept(s, Set(s, c, s.cbs[c].(phase := Closed)));
    ListenEndsEnded(s, c);
    ListenEndsAllPast(s, c);
    assert InOrder(s.cbs[c]);
  }

  lemma AcceptKeeps(s: State, l: nat)
    requires Inv(s) && Enabled(s, Accept(l))
    ensures Inv(Apply(s, Accept(l)))
  {
    var p := s.cbs[l];
    assert InOrder(p);
    var q := WithoutHead(p, true);
    HeadInOrder(p, true);
    RequeuedKeeps(s, l, q);
    var o := Set(s, l, q);
    MovesOnKeeps(o, p.backlog[0], o.cbs[p.backlog[0]].(used := true));
  }

  lemma SimpleMovesOn(s: State, e: Event)
    requires Enabled(s, e) && Simple(e)
    ensures e.c < |s.cbs| && MovesOn(s.cbs[e.c], Moved(s.cbs[e.c], e))
  {
  }

  lemma StepKeeps(s: State, e: Event)
    requires Inv(s) && Enabled(s, e)
    ensures Inv(Apply(s, e))
  {
    if Simple(e) {
      SimpleMovesOn(s, e);
      MovesOnKeeps(s, e.c, Moved(s.cbs[e.c], e));
    } else {
      match e
      case Establish(c) => EstablishKeeps(s, c);
      case End(c) => EndedKeeps(s, c);
      case CloseSock(c) => ShutKeeps(s, c);
      case Accept(l) => AcceptKeeps(s, l);
    }
  }

  // --------------------------------------------------- what a step must do

  lemma {:induction false} ShutUsesNothing(s: State, c: nat, j: nat)
    requires c < |s.cbs| && j < |s.cbs| && Shut(s, c).cbs[j].used
    ensures s.cbs[j].used && j != c
    decreases InUse(s.cbs), 0
  {
    if s.cbs[c].used && s.cbs[c].phase == Listen {
      var cb := s.cbs[c].(used := false);
      InUseSet(s.cbs, c, cb);
      DrainUsesNothing(Set(s, c, cb), c, j);
    }
  }

  lemma {:induction false} DrainUsesNothing(s: State, l: nat, j: nat)
    requires l < |s.cbs| && j < |s.cbs| && !s.cbs[l].used && Drain(s, l).cbs[j].used
    ensures s.cbs[j].used && j !in s.cbs[l].backlog
    decreases InUse(s.cbs), |s.cbs[l].backlog|
  {
    var p := s.cbs[l];
    if p.backlog != [] {
      InUseSet(s.cbs, l, WithoutHead(p, false));
      var o := Set(s, l, WithoutHead(p, false));
      assert p.backlog == [p.backlog[0]] + p.backlog[1..];
      if p.backlog[0] < |s.cbs| {
        ShutLeaves(o, p.backlog[0], l);
        DrainUsesNothing(Shut(o, p.backlog[0]), l, j);
        ShutUsesNothing(o, p.backlog[0], j);
      } else {
        DrainUsesNothing(o, l, j);
      }
    }
  }

  lemma {:induction false} DrainEmpties(s: State, l: nat)
    requires l < |s.cbs| && !s.cbs[l].used
    ensures Drain(s, l).cbs[l].backlog == [] && !Drain(s, l).cbs[l].used
    decreases InUse(s.cbs), |s.cbs[l].backlog|
  {
    var p := s.cbs[l];
    if p.backlog != [] {
      InUseSet(s.cbs, l, WithoutHead(p, false));
      var o := Set(s, l, WithoutHead(p, false));
      if p.backlog[0] < |s.cbs| {
        ShutLeaves(o, p.backlog[0], l);
        DrainEmpties(Shut(o, p.backlog[0]), l);
      } else {
        DrainEmpties(o, l);
      }
    }
  }

  /** The phase `tcp_close` leaves a block in. */
  predicate CloseMoves(a: Phase, b: Phase) {
    || (a in {Listen, SynSent, Closed} && b == Closed)
    || (a in {SynRcvd, Open, Closing} && b == Closing)
  }

  /**
   * `tcp_close` of a block in use gives it up and moves it on, brings no block into
   * use, and for a listener empties the backlog and gives up all that was in it.
   */
  lemma ShutActs(s: State, c: nat)
    requires c < |s.cbs| && s.cbs[c].used
    ensures var n := Shut(s, c);
            && !n.cbs[c].used && CloseMoves(s.cbs[c].phase, n.cbs[c].phase)
            && (forall j :: 0 <= j < |s.cbs| && n.cbs[j].used ==> s.cbs[j].used)
            && (s.cbs[c].phase == Listen ==>
                  && n.cbs[c].backlog == []
                  && forall j :: 0 <= j < |s.cbs| && j in s.cbs[c].backlog ==> !n.cbs[j].used)
            && (s.cbs[c].phase == SynSent ==> n.ended == s.ended + {Conn(c, s.cbs[c].gen)})
  {
    var n := Shut(s, c);
    forall j | 0 <= j < |s.cbs| && n.cbs[j].used
      ensures s.cbs[j].used
    {
      ShutUsesNothing(s, c, j);
    }
    if s.cbs[c].phase == Listen {
      var o := Set(s, c, s.cbs[c].(used := false));
      DrainEmpties(o, c);
      DrainKeepsPhase(o, c);
      forall j | 0 <= j < |s.cbs| && j in s.cbs[c].backlog
        ensures !n.cbs[j].used
      {
        if n.cbs[j].used { DrainUsesNothing(o, c, j); }
      }
    }
  }

  /** Two states that differ in backlogs, logs and use alone. */
  predicate SamePhases(s: State, n: State) {
    |n.cbs| == |s.cbs| && forall j :: 0 <= j < |s.cbs| ==>
      n.cbs[j].phase == s.cbs[j].phase && n.cbs[j].parent == s.cbs[j].parent && n.cbs[j].gen == s.cbs[j].gen
  }

  /** `tcp_api_accept` takes the oldest block off the backlog, brings it into use and does nothing else. */
  lemma AcceptActs(s: State, l: nat)
    requires Enabled(s, Accept(l))
    ensures var n, c := Apply(s, Accept(l)), s.cbs[l].backlog[0];
            && SamePhases(s, n) && n.ended == s.ended
            && (forall j :: 0 <= j < |s.cbs| ==> (n.cbs[j].used <==> j == c || s.cbs[j].used))
            && (forall j :: 0 <= j < |s.cbs| ==>
                  n.cbs[j].backlog == if j == l then s.cbs[l].backlog[1..] else s.cbs[j].backlog)
  {
  }

  /** The step to ESTABLISHED puts the block at the end of its parent's backlog, if it has one. */
  lemma EstablishActs(s: State, c: nat)
    requires Enabled(s, Establish(c))
    ensures var n, parent := Apply(s, Establish(c)), s.cbs[c].parent;
            && |n.cbs| == |s.cbs| && n.cbs[c].phase == Open && n.ended == s.ended
            && (forall j :: 0 <= j < |s.cbs| ==>
                  && n.cbs[j].used == s.cbs[j].used && (j != c ==> n.cbs[j].phase == s.cbs[j].phase)
                  && n.cbs[j].backlog == if parent == Some(j) then s.cbs[j].backlog + [c] else s.cbs[j].backlog)
  {
  }

  // ------------------------------------------------------------------- runs

  predicate StepAt(ss: seq<State>, es: seq<Event>, i: nat)
    requires i < |es| && |ss| == |es| + 1
  {
    Enabled(ss[i], es[i]) && ss[i + 1] == Apply(ss[i], es[i])
  }

  predicate IsRun(ss: seq<State>, es: seq<Event>, n: nat) {
    && |ss| == |es| + 1 && ss[0] == Start(n)
    && forall i :: 0 <= i < |es| ==> StepAt(ss, es, i)
  }

  lemma {:induction false} RunInv(ss: seq<State>, es: seq<Event>, n: nat, i: nat)
    requires IsRun(ss, es, n) && i < |ss|
    ensures Inv(ss[i])
    decreases i
  {
    if i > 0 {
      RunInv(ss, es, n, i - 1);
      assert StepAt(ss, es, i - 1);
      StepKeeps(ss[i - 1], es[i - 1]);
    }
  }

  /**
   * At every point of every run, what has left a backlog followed by what is
   * in it is what was established for that listener, in that order; and no
   * connection is pushed, hence accepted, twice.
   */
  lemma AcceptOrder(ss: seq<State>, es: seq<Event>, n: nat, i: nat, l: nat)
    requires IsRun(ss, es, n) && i < |ss| && l < |ss[i].cbs|
    ensures var p := ss[i].cbs[l];
            && |p.outs| + |p.backlog| == |p.est|
            && (forall k :: 0 <= k < |p.outs| ==> p.outs[k].conn == p.est[k])
            && (forall k :: 0 <= k < |p.backlog| ==> p.backlog[k] == p.est[|p.outs| + k].cb)
            && (forall j, k :: 0 <= j < k < |p.outs| ==> p.outs[j].conn != p.outs[k].conn)
  {
    RunInv(ss, es, n, i);
    var p := ss[i].cbs[l];
    assert InOrder(p);
  }

  /**
   * What `tcp_api_accept` returns is the connection that was established,
   * still open, exactly when that connection has not been closed since.
   */
  lemma AcceptsOpenIff(ss: seq<State>, es: seq<Event>, n: nat, i: nat, l: nat)
    requires IsRun(ss, es, n) && i < |es| && es[i] == Accept(l)
    ensures l < |ss[i].cbs| && ss[i].cbs[l].backlog != []
    ensures |ss[i].cbs[l].outs| < |ss[i].cbs[l].est|
    ensures var p := ss[i].cbs[l];
            var x := HeadConn(p);
            && x.cb == p.backlog[0] < |ss[i].cbs| == |ss[i + 1].cbs| && ss[i + 1].cbs[l].outs == p.outs + [Popped(x, true)]
            && (Alive(ss[i], x) <==> x !in ss[i].ended)
  {
    RunInv(ss, es, n, i);
    assert StepAt(ss, es, i);
    var p := ss[i].cbs[l];
    assert InOrder(p);
    assert Past(ss[i], p.est[|p.outs|]);
  }

  // ------------------------------------- a connection closed while it is queued

  ghost predicate RunTo(ss: seq<State>, es: seq<Event>, n: nat, s: State) {
    IsRun(ss, es, n) && ss[|es|] == s
  }

  ghost predicate Reachable(s: State, n: nat) {
    exists ss, es :: RunTo(ss, es, n, s)
  }

  lemma ReachNext(s: State, n: nat, e: Event)
    requires Reachable(s, n) && Enabled(s, e)
    ensures Reachable(Apply(s, e), n)
  {
    var ss, es :| RunTo(ss, es, n, s);
    var ss', es' := ss + [Apply(s, e)], es + [e];
    forall i | 0 <= i < |es'|
      ensures StepAt(ss', es', i)
    {
      if i < |es| { assert StepAt(ss, es, i); }
    }
    assert RunTo(ss', es', n, Apply(s, e));
  }

  /** Block 0 listens with this queue and these logs; block 1 is its child. */
  function Pair(phase: Phase, gen: nat, used: bool, queue: seq<nat>, est: seq<Conn>, outs: seq<Popped>,
                ended: set<Conn>): State
  {
    State([Cb(true, Listen, None, queue, 0, est, outs),
           Cb(used, phase, Some(0), [], gen, [], [])], ended)
  }

  lemma FirstChild()
    ensures Reachable(Pair(SynRcvd, 1, false, [], [], [], {}), 2)
  {
    var s := Start(2);
    assert RunTo([s], [], 2, s);
    ReachNext(s, 2, OpenSock(0));
    var s1 := Apply(s, OpenSock(0));
    ReachNext(s1, 2, ListenSock(0));
    var s2 := Apply(s1, ListenSock(0));
    ReachNext(s2, 2, Syn(1, 0));
    assert Apply(s2, Syn(1, 0)) == Pair(SynRcvd, 1, false, [], [], [], {});
  }

  lemma PairEstablish(gen: nat, queue: seq<nat>, est: seq<Conn>, ended: set<Conn>)
    ensures var s := Pair(SynRcvd, gen, false, queue, est, [], ended);
            Enabled(s, Establish(1))
            && Apply(s, Establish(1)) == Pair(Open, gen, false, queue + [1], est + [Conn(1, gen)], [], ended)
  {
  }

  lemma PairReborn(gen: nat, queue: seq<nat>, est: seq<Conn>)
    ensures var s := Pair(Open, gen, false, queue, est, [], {});
            Enabled(s, End(1))
            && var t := Apply(s, End(1));
            Enabled(t, Syn(1, 0))
            && Apply(t, Syn(1, 0)) == Pair(SynRcvd, gen + 1, false, queue, est, [], {Conn(1, gen)})
  {
  }

  /**
   * A child is reset while it waits in the backlog, its block is taken by the
   * next child, and the listener accepts that one block twice.
   */
  lemma AcceptedTwice()
    ensures exists s ::
              && Reachable(s, 2) && Enabled(s, Accept(0)) && Enabled(Apply(s, Accept(0)), Accept(0))
              && s.cbs[0].backlog == [1, 1] && s.cbs[0].est == [Conn(1, 1), Conn(1, 2)]
              && Conn(1, 1) in s.ended
  {
    FirstChild();
    PairEstablish(1, [], [], {});
    ReachNext(Pair(SynRcvd, 1, false, [], [], [], {}), 2, Establish(1));
    var s := Pair(Open, 1, false, [1], [Conn(1, 1)], [], {});
    assert [] + [1] == [1] && [] + [Conn(1, 1)] == [Conn(1, 1)];
    PairReborn(1, [1], [Conn(1, 1)]);
    ReachNext(s, 2, End(1));
    ReachNext(Apply(s, End(1)), 2, Syn(1, 0));
    PairEstablish(2, [1], [Conn(1, 1)], {Conn(1, 1)});
    var t := Pair(SynRcvd, 2, false, [1], [Conn(1, 1)], [], {Conn(1, 1)});
    ReachNext(t, 2, Establish(1));
    assert [1] + [1] == [1, 1] && [Conn(1, 1)] + [Conn(1, 2)] == [Conn(1, 1), Conn(1, 2)];
    TakesBoth(Apply(t, Establish(1)));
  }

  lemma TakesBoth(s: State)
    requires s == Pair(Open, 2, false, [1, 1], [Conn(1, 1), Conn(1, 2)], [], {Conn(1, 1)})
    ensures Enabled(s, Accept(0)) && Enabled(Apply(s, Accept(0)), Accept(0))
  {
  }
}
