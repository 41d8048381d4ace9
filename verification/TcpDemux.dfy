/** Demultiplexing in `tcp_rx` (tcp.c:835-880): which control block a segment goes to. */
module TcpDemux {
  import opened Words
  import opened Wrappers
  import opened TcpModel

  /** The fields of a control block that decide; ports are in network order. */
  datatype Sock = Sock(used: bool, state: State, iface: Option<nat>, port: Half, peerAddr: Word, peerPort: Half,
                       parent: Option<nat>)

  /** Where a segment comes from and goes to. */
  datatype Quad = Quad(iface: nat, src: Word, sport: Half, dport: Half)

  predicate Free(s: Sock) {
    !s.used && s.state == Closed
  }

  predicate ForPort(s: Sock, q: Quad) {
    !Free(s) && (s.iface.None? || s.iface == Some(q.iface)) && s.port == q.dport
  }

  /** The block is the connection of the segment. */
  predicate Connects(s: Sock, q: Quad) {
    ForPort(s, q) && s.peerAddr == q.src && s.peerPort == q.sport
  }

  predicate Listens(s: Sock, q: Quad) {
    ForPort(s, q) && !(s.peerAddr == q.src && s.peerPort == q.sport) && s.state == Listen
  }

  /** A connection; a free block, for a child of a listener or for none; or no block left. */
  datatype Route = Connection(i: nat) | Spare(i: nat, listener: Option<nat>) | Exhausted

  ghost predicate FirstWith(t: seq<Sock>, p: Sock -> bool, i: nat) {
    i < |t| && p(t[i]) && forall j :: 0 <= j < i ==> !p(t[j])
  }

  ghost predicate NoneWith(t: seq<Sock>, p: Sock -> bool) {
    forall j :: 0 <= j < |t| ==> !p(t[j])
  }

  /** A connection wins over any listener, wherever they stand in the table. */
  ghost predicate Routes(t: seq<Sock>, q: Quad, r: Route) {
    match r
    case Connection(i) => FirstWith(t, s => Connects(s, q), i)
    case Spare(i, l) =>
      && NoneWith(t, s => Connects(s, q)) && FirstWith(t, s => Free(s), i)
      && if l.Some? then FirstWith(t, s => Listens(s, q), l.value) else NoneWith(t, s => Listens(s, q))
    case Exhausted => NoneWith(t, s => Connects(s, q)) && NoneWith(t, s => Free(s))
  }

  /** The loop of `tcp_rx`. */
  method Demux(cbs: array<Sock>, q: Quad) returns (r: Route)
    ensures Routes(cbs[..], q, r)
  {
    var free: Option<nat>, listener: Option<nat>, i := None, None, 0;
    while i < cbs.Length
      invariant 0 <= i <= cbs.Length
      invariant NoneWith(cbs[..i], s => Connects(s, q))
      invariant if free.Some? then FirstWith(cbs[..i], s => Free(s), free.value) else NoneWith(cbs[..i], s => Free(s))
      invariant if listener.Some? then FirstWith(cbs[..i], s => Listens(s, q), listener.value)
                else NoneWith(cbs[..i], s => Listens(s, q))
    {
      var s := cbs[i];
      if Free(s) {
        if free.None? { free := Some(i); }
      } else if (s.iface.None? || s.iface == Some(q.iface)) && s.port == q.dport {
        if s.peerAddr == q.src && s.peerPort == q.sport {
          return Connection(i);
        } else if s.state == Listen && listener.None? {
          listener := Some(i);
        }
      }
      i := i + 1;
    }
    assert cbs[..i] == cbs[..];
    r := if free.None? then Exhausted else Spare(free.value, listener);
  }

  /** The answer is determined by the table. */
  lemma RouteUnique(t: seq<Sock>, q: Quad, r: Route, r': Route)
    requires Routes(t, q, r) && Routes(t, q, r')
    ensures r == r'
  {
  }

  /** The block as `tcp_rx` sets it up for a segment no connection matches (tcp.c:866-880). */
  function Claimed(t: seq<Sock>, q: Quad, i: nat, listener: Option<nat>): Sock
    requires i < |t| && (listener.Some? ==> listener.value < |t|)
  {
    var s := t[i].(iface := Some(q.iface), peerAddr := q.src, peerPort := q.sport);
    if listener.Some? then s.(state := t[listener.value].state, port := t[listener.value].port, parent := listener)
    else s.(port := 0)
  }

  method Claim(cbs: array<Sock>, q: Quad, i: nat, listener: Option<nat>)
    requires Routes(cbs[..], q, Spare(i, listener))
    modifies cbs
    ensures cbs[..] == old(cbs[..])[i := Claimed(old(cbs[..]), q, i, listener)]
  {
    var s := cbs[i].(iface := Some(q.iface));
    if listener.Some? {
      s := s.(state := cbs[listener.value].state, port := cbs[listener.value].port, parent := listener);
    } else {
      s := s.(port := 0);
    }
    cbs[i] := s.(peerAddr := q.src, peerPort := q.sport);
  }

  /**
   * A child is where later segments of its connection go, whatever state it has
   * moved to, as long as it is not free again.
   */
  lemma ChildIsRouted(t: seq<Sock>, q: Quad, i: nat, l: nat, state: State)
    requires Routes(t, q, Spare(i, Some(l))) && state != Closed
    ensures l < |t| && Routes(t[i := Claimed(t, q, i, Some(l)).(state := state)], q, Connection(i))
    ensures var k := Claimed(t, q, i, Some(l)); k.state == Listen && k.parent == Some(l) && !k.used
  {
    var u := t[i := Claimed(t, q, i, Some(l)).(state := state)];
    assert Listens(t[l], q) && Connects(u[i], q);
    assert forall j :: 0 <= j < |t| && j != i ==> u[j] == t[j];
  }

  /** A segment without a listener leaves its block free. */
  lemma NobodyClaims(t: seq<Sock>, q: Quad, i: nat)
    requires Routes(t, q, Spare(i, None))
    ensures i < |t| && Free(Claimed(t, q, i, None))
  {
  }

  /**
   * Setting up a block redirects no other connection that has a block: neither
   * as a child, whatever state it then moves to, nor without a listener.
   */
  lemma OthersKeepRoute(t: seq<Sock>, q: Quad, i: nat, listener: Option<nat>, state: State, q': Quad, k: nat)
    requires Routes(t, q, Spare(i, listener)) && Routes(t, q', Connection(k))
    requires if listener.Some? then q' != q else state == Closed
    ensures i < |t| && (listener.Some? ==> listener.value < |t|)
    ensures Routes(t[i := Claimed(t, q, i, listener).(state := state)], q', Connection(k))
  {
    var u := t[i := Claimed(t, q, i, listener).(state := state)];
    assert forall j :: 0 <= j < |t| && j != i ==> u[j] == t[j];
    if listener.Some? { assert Listens(t[listener.value], q); } else { NobodyClaims(t, q, i); }
    assert !Connects(u[i], q') && k != i;
  }
}
