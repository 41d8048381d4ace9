/**
 * What a pass of the timer must send (tcp.c:934-1020): a definition by position
 * in the queue, where the code keeps a running sum.
 */
module TcpRetransmit {
  import opened Words
  import opened TcpModel
  import opened TcpHost
  import opened TcpLocal
  import opened TcpEndpointRuns
  import opened TcpTheorems

  /** Never sent, or sent more than three seconds ago. */
  predicate Stale(e: Entry, now: Time) {
    e.stamp == 0 || now - e.stamp > 3
  }

  /** Entry `j` is not acknowledged, has less than `wnd` bytes of unacknowledged data in front of it, and is stale. */
  predicate Due(q: seq<Entry>, una: Word, wnd: int, now: Time, j: nat)
    requires j < |q|
  {
    q[j].seg.seqno >= una && DataIn(Unacked(q[..j], una)) < wnd && Stale(q[j], now)
  }

  function Refreshed(e: Entry, rcvNxt: Word, now: Time): Entry {
    Entry(e.seg.(ackno := rcvNxt), now)
  }

  /** What entry `j` makes the pass send: its segment with the acknowledgement rewritten, or nothing. */
  function SendsAt(q: seq<Entry>, una: Word, wnd: int, rcvNxt: Word, now: Time, j: nat): seq<Segment>
    requires j < |q|
  {
    if Due(q, una, wnd, now, j) then [q[j].seg.(ackno := rcvNxt)] else []
  }

  /** What becomes of entry `j`: acknowledged ones leave the queue, due ones are refreshed. */
  function LeftAt(q: seq<Entry>, una: Word, wnd: int, rcvNxt: Word, now: Time, j: nat): seq<Entry>
    requires j < |q|
  {
    if q[j].seg.seqno < una then []
    else if Due(q, una, wnd, now, j) then [Refreshed(q[j], rcvNxt, now)]
    else [q[j]]
  }

  /** The same for the first `n` entries, in order. */
  function DueIn(q: seq<Entry>, una: Word, wnd: int, rcvNxt: Word, now: Time, n: nat): seq<Segment>
    requires n <= |q|
  {
    if n == 0 then [] else DueIn(q, una, wnd, rcvNxt, now, n - 1) + SendsAt(q, una, wnd, rcvNxt, now, n - 1)
  }

  function LeftIn(q: seq<Entry>, una: Word, wnd: int, rcvNxt: Word, now: Time, n: nat): seq<Entry>
    requires n <= |q|
  {
    if n == 0 then [] else LeftIn(q, una, wnd, rcvNxt, now, n - 1) + LeftAt(q, una, wnd, rcvNxt, now, n - 1)
  }

  lemma UnackedNext(q: seq<Entry>, una: Word, j: nat)
    requires q != [] && 1 <= j <= |q|
    ensures DataIn(Unacked(q[..j], una))
            == (if q[0].seg.seqno >= una then |q[0].seg.text| else 0) + DataIn(Unacked(q[1..][..j - 1], una))
  {
    assert q[..j][1..] == q[1..][..j - 1];
    var rest := Unacked(q[1..][..j - 1], una);
    assert ([q[0]] + rest)[1..] == rest && [] + rest == rest;
  }

  /** What the data of the first entry leaves of the window for the others. */
  function Narrowed(e: Entry, una: Word, wnd: int): int {
    if e.seg.seqno >= una then wnd - |e.seg.text| else wnd
  }

  lemma AtNext(q: seq<Entry>, una: Word, wnd: int, rcvNxt: Word, now: Time, j: nat)
    requires 1 <= j < |q|
    ensures var w := Narrowed(q[0], una, wnd);
            && SendsAt(q, una, wnd, rcvNxt, now, j) == SendsAt(q[1..], una, w, rcvNxt, now, j - 1)
            && LeftAt(q, una, wnd, rcvNxt, now, j) == LeftAt(q[1..], una, w, rcvNxt, now, j - 1)
  {
    UnackedNext(q, una, j);
    assert q[1..][j - 1] == q[j];
  }

  lemma Append3<T>(a: seq<T>, b: seq<T>, c: seq<T>)
    ensures (a + b) + c == a + (b + c)
  {
  }

  lemma {:induction false} DueNext(q: seq<Entry>, una: Word, wnd: int, rcvNxt: Word, now: Time, n: nat)
    requires 1 <= n <= |q|
    ensures DueIn(q, una, wnd, rcvNxt, now, n)
            == SendsAt(q, una, wnd, rcvNxt, now, 0) + DueIn(q[1..], una, Narrowed(q[0], una, wnd), rcvNxt, now, n - 1)
    decreases n
  {
    var a, w := SendsAt(q, una, wnd, rcvNxt, now, 0), Narrowed(q[0], una, wnd);
    if n == 1 {
      assert DueIn(q, una, wnd, rcvNxt, now, 0) == [];
    } else {
      DueNext(q, una, wnd, rcvNxt, now, n - 1);
      AtNext(q, una, wnd, rcvNxt, now, n - 1);
      Append3(a, DueIn(q[1..], una, w, rcvNxt, now, n - 2), SendsAt(q[1..], una, w, rcvNxt, now, n - 2));
    }
  }

  lemma {:induction false} LeftNext(q: seq<Entry>, una: Word, wnd: int, rcvNxt: Word, now: Time, n: nat)
    requires 1 <= n <= |q|
    ensures LeftIn(q, una, wnd, rcvNxt, now, n)
            == LeftAt(q, una, wnd, rcvNxt, now, 0) + LeftIn(q[1..], una, Narrowed(q[0], una, wnd), rcvNxt, now, n - 1)
    decreases n
  {
    var a, w := LeftAt(q, una, wnd, rcvNxt, now, 0), Narrowed(q[0], una, wnd);
    if n == 1 {
      assert LeftIn(q, una, wnd, rcvNxt, now, 0) == [];
    } else {
      LeftNext(q, una, wnd, rcvNxt, now, n - 1);
      AtNext(q, una, wnd, rcvNxt, now, n - 1);
      Append3(a, LeftIn(q[1..], una, w, rcvNxt, now, n - 2), LeftAt(q[1..], una, w, rcvNxt, now, n - 2));
    }
  }

  lemma FreedNext(q: seq<Entry>, una: Word)
    requires q != []
    ensures DataIn(q) - DataIn(Unacked(q, una))
            == DataIn(q[1..]) - DataIn(Unacked(q[1..], una)) + if q[0].seg.seqno >= una then 0 else |q[0].seg.text|
  {
    UnackedNext(q, una, |q|);
    assert q[..|q|] == q && q[1..][..|q| - 1] == q[1..];
  }

  /** `p` is what a pass over `q` must come to. */
  predicate PassIs(q: seq<Entry>, una: Word, wnd: int, rcvNxt: Word, now: Time, p: Pass) {
    && p.out == DueIn(q, una, wnd, rcvNxt, now, |q|)
    && p.kept == LeftIn(q, una, wnd, rcvNxt, now, |q|)
    && p.freed == DataIn(q) - DataIn(Unacked(q, una))
  }

  /** One entry of the walk. */
  lemma WalkNext(q: seq<Entry>, una: Word, wnd: Half, rcvNxt: Word, now: Time, sum: nat)
    requires q != []
    ensures var e := q[0];
            var rest := TimerWalk(q[1..], una, wnd, rcvNxt, now, if e.seg.seqno >= una then sum + |e.seg.text| else sum);
            TimerWalk(q, una, wnd, rcvNxt, now, sum)
            == Pass(LeftAt(q, una, wnd - sum, rcvNxt, now, 0) + rest.kept,
                    SendsAt(q, una, wnd - sum, rcvNxt, now, 0) + rest.out,
                    rest.freed + if e.seg.seqno >= una then 0 else |e.seg.text|)
  {
    assert q[..0] == [] && Unacked([], una) == [] && DataIn([]) == 0;
    var rest := TimerWalk(q[1..], una, wnd, rcvNxt, now, sum);
    assert [] + rest.kept == rest.kept && [] + rest.out == rest.out;
  }

  lemma {:induction false} WalkIs(q: seq<Entry>, una: Word, wnd: Half, rcvNxt: Word, now: Time, sum: nat)
    ensures PassIs(q, una, wnd - sum, rcvNxt, now, TimerWalk(q, una, wnd, rcvNxt, now, sum))
    decreases |q|
  {
    if q != [] {
      var sum' := if q[0].seg.seqno >= una then sum + |q[0].seg.text| else sum;
      WalkIs(q[1..], una, wnd, rcvNxt, now, sum');
      WalkNext(q, una, wnd, rcvNxt, now, sum);
      PassNext(q, una, wnd - sum, rcvNxt, now, TimerWalk(q[1..], una, wnd, rcvNxt, now, sum'));
    }
  }

  lemma PassNext(q: seq<Entry>, una: Word, wnd: int, rcvNxt: Word, now: Time, rest: Pass)
    requires q != [] && PassIs(q[1..], una, Narrowed(q[0], una, wnd), rcvNxt, now, rest)
    ensures PassIs(q, una, wnd, rcvNxt, now,
                   Pass(LeftAt(q, una, wnd, rcvNxt, now, 0) + rest.kept, SendsAt(q, una, wnd, rcvNxt, now, 0) + rest.out,
                        rest.freed + if q[0].seg.seqno >= una then 0 else |q[0].seg.text|))
  {
    DueNext(q, una, wnd, rcvNxt, now, |q|);
    LeftNext(q, una, wnd, rcvNxt, now, |q|);
    FreedNext(q, una);
  }

  /**
   * In every run: a pass of the timer over an endpoint that is not past its
   * deadline sends exactly the segments that are due, in order, restamps those,
   * drops exactly those acknowledged and changes nothing else.
   */
  lemma TickSends(hs: seq<Host>, es: seq<Event>, i: nat)
    requires IsEndpointRun(hs, es) && i < |es| && es[i].Tick?
    requires hs[i].cb.state != Closed && hs[i + 1].cb.state != Closed
    ensures var c, d, now := hs[i].cb, hs[i + 1].cb, es[i].now;
            && Apply(hs[i], es[i]).out == DueIn(c.txq, c.sndUna, c.sndWnd, c.rcvNxt, now, |c.txq|)
            && d.txq == LeftIn(c.txq, c.sndUna, c.sndWnd, c.rcvNxt, now, |c.txq|)
            && d.snt == (c.snt - DataIn(c.txq) + DataIn(Unacked(c.txq, c.sndUna))) % TWO16
            && d == c.(txq := d.txq, snt := d.snt)
  {
    assert EndpointStepAt(hs, es, i);
    TimerIs(hs[i].cb, es[i].now);
  }

  lemma TimerIs(c: Tcb, now: Time)
    requires c.state != Closed && Timer(c, now).cb.state != Closed
    ensures Timer(c, now)
            == Result(c.(txq := LeftIn(c.txq, c.sndUna, c.sndWnd, c.rcvNxt, now, |c.txq|),
                         snt := (c.snt - DataIn(c.txq) + DataIn(Unacked(c.txq, c.sndUna))) % TWO16),
                      DueIn(c.txq, c.sndUna, c.sndWnd, c.rcvNxt, now, |c.txq|))
  {
    WalkIs(c.txq, c.sndUna, c.sndWnd, c.rcvNxt, now, 0);
  }

  lemma {:induction false} DueIsSent(q: seq<Entry>, una: Word, wnd: int, rcvNxt: Word, now: Time, n: nat, j: nat)
    requires j < n <= |q| && Due(q, una, wnd, now, j)
    ensures q[j].seg.(ackno := rcvNxt) in DueIn(q, una, wnd, rcvNxt, now, n)
    decreases n
  {
    if j < n - 1 {
      DueIsSent(q, una, wnd, rcvNxt, now, n - 1, j);
    } else {
      assert SendsAt(q, una, wnd, rcvNxt, now, j) == [q[j].seg.(ackno := rcvNxt)];
    }
    InEither(DueIn(q, una, wnd, rcvNxt, now, n - 1), SendsAt(q, una, wnd, rcvNxt, now, n - 1), q[j].seg.(ackno := rcvNxt));
  }

  lemma InEither<T>(a: seq<T>, b: seq<T>, x: T)
    ensures x in a || x in b ==> x in a + b
  {
  }

  lemma {:induction false} NoneBefore(q: seq<Entry>, una: Word)
    requires forall i :: 0 <= i < |q| ==> q[i].seg.seqno < una
    ensures Unacked(q, una) == []
    decreases |q|
  {
    if q != [] { NoneBefore(q[1..], una); }
  }

  /**
   * In every run: with an open window, each pass sends the oldest segment not
   * acknowledged unless it was sent in the last three seconds.
   */
  lemma OldestIsResent(hs: seq<Host>, es: seq<Event>, i: nat, j: nat)
    requires IsEndpointRun(hs, es) && i < |es| && es[i].Tick?
    requires hs[i].cb.state != Closed && hs[i + 1].cb.state != Closed && hs[i].cb.sndWnd > 0
    requires var c := hs[i].cb;
             && j < |c.txq| && c.txq[j].seg.seqno >= c.sndUna && Stale(c.txq[j], es[i].now)
             && forall k :: 0 <= k < j ==> c.txq[k].seg.seqno < c.sndUna
    ensures Enabled(hs[i], es[i])
    ensures hs[i].cb.txq[j].seg.(ackno := hs[i].cb.rcvNxt) in Apply(hs[i], es[i]).out
  {
    var c := hs[i].cb;
    TickSends(hs, es, i);
    NoneBefore(c.txq[..j], c.sndUna);
    DueIsSent(c.txq, c.sndUna, c.sndWnd, c.rcvNxt, es[i].now, |c.txq|, j);
  }
}
