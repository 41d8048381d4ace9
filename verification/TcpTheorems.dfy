/** The guarantees of a connection, for every state of every run. */
module TcpTheorems {
  import opened Words
  import opened TcpModel
  import opened TcpHost
  import opened TcpLocal
  import opened TcpEndpointRuns
  import opened TcpConnection

  // ---------------------------------------------------------- the two ends

  function Flips(ws: seq<World>): seq<World> {
    seq(|ws|, i requires 0 <= i < |ws| => Flip(ws[i]))
  }

  /** A run seen from the other end is a run, so what is stated below of `a` holds of `b`. */
  lemma FlippedRun(ws: seq<World>, es: seq<Event>)
    requires IsRun(ws, es)
    ensures IsRun(Flips(ws), es)
    ensures FinsInTurn(ws, es) ==> FinsInTurn(Flips(ws), es)
  {
    var vs := Flips(ws);
    forall i | 0 <= i < |es|
      ensures StepAt(vs, es, i) && (FinsInTurn(ws, es) ==> InTurnAt(vs, es, i))
    {
      assert StepAt(ws, es, i);
      assert Flip(vs[i]) == ws[i] && Flip(vs[i + 1]) == ws[i + 1];
      if FinsInTurn(ws, es) { assert InTurnAt(ws, es, i); }
    }
  }

  // -------------------------------------------------------- what is received

  /** Bytes returned by `tcp_api_recv`, then those still in `window`. */
  function Received(h: Host): seq<Byte> {
    h.taken + h.cb.buf
  }

  /** Bytes accepted by `tcp_api_send`. */
  function SentBytes(h: Host): seq<Byte> {
    Flat(h.st.chunks)
  }

  // -------------------------------------------------------- stream safety

  lemma SideStream(x: Host, y: Host)
    requires Local(x) && StreamOk(y.st) && ReceiveInv(y, x)
    ensures Received(x) <= SentBytes(y)
  {
    OffMonotone(y.st, x.got, |y.st.chunks|);
    assert y.st.chunks[..|y.st.chunks|] == y.st.chunks;
    if !Synced(x.cb.state) {
      assert x.cb.buf == [];
      assert Received(x) == x.taken;
    }
  }

  /** What one side has received is at every moment a prefix of what the other side has sent. */
  lemma StreamSafety(ws: seq<World>, es: seq<Event>, i: nat)
    requires IsRun(ws, es) && i < |ws|
    ensures Received(ws[i].a) <= SentBytes(ws[i].b)
    ensures Received(ws[i].b) <= SentBytes(ws[i].a)
  {
    RunInv(ws, es, i);
    SideStream(ws[i].a, ws[i].b);
    SideStream(ws[i].b, ws[i].a);
  }

  // --------------------------------------------------- cross-endpoint order

  lemma SideOrder(x: Host, y: Host)
    requires Local(x) && Local(y) && ReceiveInv(x, y) && UnaInv(x, y)
    requires Synced(x.cb.state) && Synced(y.cb.state)
    ensures x.cb.iss <= x.cb.sndUna <= y.cb.rcvNxt <= x.cb.sndNxt
    ensures x.cb.iss == x.st.isn && x.cb.sndNxt == Total(x.st)
  {
    HoldsCut(x.st, y.cb, y.got, y.taken);
  }

  /** Once both ends are synchronized, `iss <= snd.una <= peer rcv.nxt <= snd.nxt` in both directions. */
  lemma CrossOrder(ws: seq<World>, es: seq<Event>, i: nat)
    requires IsRun(ws, es) && i < |ws|
    requires Synced(ws[i].a.cb.state) && Synced(ws[i].b.cb.state)
    ensures var a, b := ws[i].a.cb, ws[i].b.cb;
            && a.iss <= a.sndUna <= b.rcvNxt <= a.sndNxt
            && b.iss <= b.sndUna <= a.rcvNxt <= b.sndNxt
  {
    RunInv(ws, es, i);
    SideOrder(ws[i].a, ws[i].b);
    SideOrder(ws[i].b, ws[i].a);
  }

  /** Every acknowledgement in flight ends at a segment boundary the acknowledging side has reached. */
  lemma AcksInFlight(ws: seq<World>, es: seq<Event>, i: nat, g: Segment)
    requires IsRun(ws, es) && i < |ws| && g in ws[i].ab && !g.flags.rst
    ensures g.ackno <= ws[i].a.edge
    ensures g.ackno != 0 ==> IsCut(ws[i].b.st, g.ackno)
    ensures Synced(ws[i].a.cb.state) ==> g.ackno <= ws[i].a.cb.rcvNxt
  {
    RunInv(ws, es, i);
  }

  // -------------------------------------------------- retransmission queue

  /** Sequence space taken by a segment. */
  function Span(g: Segment): nat {
    |g.text| + (if g.flags.syn then 1 else 0) + (if g.flags.fin then 1 else 0)
  }

  /** The entries occupy consecutive ranges from `lo` up to `hi`. */
  predicate Tiles(q: seq<Entry>, lo: int, hi: int)
    decreases |q|
  {
    if q == [] then lo == hi
    else q[0].seg.seqno == lo && Tiles(q[1..], lo + Span(q[0].seg), hi)
  }

  lemma NextStart(s: Stream, i: nat, g: Segment)
    requires i < Units(s) && IsUnit(s, i, g)
    ensures Start(s, i + 1) == g.seqno + Span(g)
  {
    if 1 <= i <= |s.chunks| { FlatNext(s.chunks, i - 1); }
    assert s.chunks[..|s.chunks|] == s.chunks;
  }

  lemma LastUnitsRest(s: Stream, b: seq<Entry>)
    requires LastUnits(s, b) && b != []
    ensures IsUnit(s, Units(s) - |b|, b[0].seg) && LastUnits(s, b[1..])
  {
    assert IsUnit(s, Units(s) - |b| + 0, b[0].seg);
    LastUnitsTail(s, b, b[1..]);
  }

  lemma {:induction false} LastUnitsTile(s: Stream, b: seq<Entry>)
    requires LastUnits(s, b)
    ensures Tiles(b, Start(s, Units(s) - |b|), Total(s))
    decreases |b|
  {
    if b != [] {
      LastUnitsRest(s, b);
      NextStart(s, Units(s) - |b|, b[0].seg);
      LastUnitsTile(s, b[1..]);
    }
  }

  /** In every run of one endpoint, whatever the peer sends, queued segments are consecutive and end at `snd.nxt`. */
  lemma QueueTiles(hs: seq<Host>, es: seq<Event>, i: nat)
    requires IsEndpointRun(hs, es) && i < |hs| && hs[i].cb.state != Closed && hs[i].cb.state != Listen
    ensures var c := hs[i].cb; var b := Base(c.txq);
            Tiles(b, if b == [] then c.sndNxt else b[0].seg.seqno, c.sndNxt)
  {
    EndpointLocal(hs, es, i);
    var h, b := hs[i], Base(hs[i].cb.txq);
    LastUnitsTile(h.st, b);
    if b != [] { assert IsUnit(h.st, Units(h.st) - |b| + 0, b[0].seg); }
  }

  /** A boundary above the start of unit `i` is at least its end. */
  lemma CutAbove(s: Stream, i: nat, n: int)
    requires StreamOk(s) && i < Units(s) && Start(s, i) < n && IsCut(s, n)
    ensures Start(s, i + 1) <= n
  {
    if k: nat :| CutAt(s, k, n) {
      assert Start(s, k + 1) == n;
      if k + 1 < i { StartIncreases(s, k + 1, i); }
      if i < k { StartIncreases(s, i + 1, k + 1); }
    } else {
      assert Start(s, Units(s)) == n;
      if i + 1 < Units(s) { StartIncreases(s, i + 1, Units(s)); }
    }
  }

  lemma StartAtLeast(s: Stream, i: nat)
    requires i <= Units(s)
    ensures s.isn <= Start(s, i)
  {
  }

  /** In a connection of this stack with itself, after a timer pass the queue covers
      exactly what the peer has not acknowledged. */
  lemma TimerCovers(ws: seq<World>, es: seq<Event>, i: nat, now: Time)
    requires IsRun(ws, es) && i < |ws|
    requires ws[i].a.cb.state != Closed && ws[i].a.cb.state != Listen && !TimedOut(ws[i].a.cb, now)
    ensures var c := Timer(ws[i].a.cb, now).cb; Tiles(Base(c.txq), c.sndUna, c.sndNxt)
  {
    RunInv(ws, es, i);
    SideCovers(ws[i].a, ws[i].b, now);
  }

  /** A queue that lost only units below `una`, and has only units above it, covers from `una` on. */
  lemma CoversExactly(s: Stream, b: seq<Entry>, una: int)
    requires StreamOk(s) && LastUnits(s, b) && s.isn <= una <= Total(s) && (una == s.isn || IsCut(s, una))
    requires |b| < Units(s) ==> Start(s, Units(s) - |b| - 1) < una
    requires b != [] ==> b[0].seg.seqno >= una
    ensures Tiles(b, una, Total(s))
  {
    LastUnitsTile(s, b);
    var m := Units(s) - |b|;
    if m > 0 {
      StartAtLeast(s, m - 1);
      CutAbove(s, m - 1, una);
    }
    if b != [] { LastUnitsRest(s, b); }
  }

  lemma SideCovers(x: Host, y: Host, now: Time)
    requires Local(x) && UnaInv(x, y)
    requires x.cb.state != Closed && x.cb.state != Listen && !TimedOut(x.cb, now)
    ensures var c := Timer(x.cb, now).cb; Tiles(Base(c.txq), c.sndUna, c.sndNxt)
  {
    var c := x.cb;
    WalkTiles(x.st, c.txq, c.sndUna, c.sndWnd, c.rcvNxt, now);
  }

  /** What the timer keeps of a queue covers from a boundary `una` on. */
  lemma WalkTiles(s: Stream, q: seq<Entry>, una: Word, wnd: Half, rcvNxt: Word, now: Time)
    requires StreamOk(s) && QueueInv(s, q) && Covers(s, q, una)
    requires s.isn <= una <= Total(s) && (una == s.isn || IsCut(s, una))
    ensures Tiles(Base(TimerWalk(q, una, wnd, rcvNxt, now, 0).kept), una, Total(s))
  {
    WalkQueueInv(s, q, una, wnd, rcvNxt, now);
    KeptAbove(s, q, una, wnd, rcvNxt, now);
    KeptTiles(s, TimerWalk(q, una, wnd, rcvNxt, now, 0).kept, una);
  }

  lemma KeptTiles(s: Stream, k: seq<Entry>, una: Word)
    requires StreamOk(s) && QueueInv(s, k) && Covers(s, k, una)
    requires s.isn <= una <= Total(s) && (una == s.isn || IsCut(s, una))
    requires Base(k) != [] ==> Base(k)[0].seg.seqno >= una
    ensures Tiles(Base(k), una, Total(s))
  {
    CoversExactly(s, Base(k), una);
  }

  /** What the timer keeps starts at or above `snd.una`. */
  lemma KeptAbove(s: Stream, q: seq<Entry>, una: Word, wnd: Half, rcvNxt: Word, now: Time)
    requires StreamOk(s) && QueueInv(s, q)
    ensures var b := Base(TimerWalk(q, una, wnd, rcvNxt, now, 0).kept);
            b != [] ==> b[0].seg.seqno >= una
  {
    QueueSorted(s, q);
    WalkKeepsTail(q, una, wnd, rcvNxt, now, 0);
    TailAbove(q, TimerWalk(q, una, wnd, rcvNxt, now, 0).kept, una);
  }

  lemma TailAbove(q: seq<Entry>, k: seq<Entry>, una: Word)
    requires TailOf(k, q) && forall j :: |q| - |k| <= j < |q| ==> q[j].seg.seqno >= una
    ensures Base(k) != [] ==> Base(k)[0].seg.seqno >= una
  {
    var t := q[|q| - |k|..];
    assert forall j :: 0 <= j < |k| ==> k[j].seg.seqno == t[j].seg.seqno && t[j] == q[|q| - |k| + j];
  }

  // ------------------------------------------------ what leaves the queue

  lemma {:induction false} WalkFilters(q: seq<Entry>, una: Word, wnd: Half, rcvNxt: Word, now: Time, sum: nat)
    ensures SameSegments(TimerWalk(q, una, wnd, rcvNxt, now, sum).kept, Unacked(q, una))
    decreases |q|
  {
    if q != [] {
      WalkFilters(q[1..], una, wnd, rcvNxt, now, if q[0].seg.seqno >= una then sum + |q[0].seg.text| else sum);
    }
  }

  /** The entries at or above `una`, in order. */
  function Unacked(q: seq<Entry>, una: Word): seq<Entry> {
    if q == [] then []
    else (if q[0].seg.seqno >= una then [q[0]] else []) + Unacked(q[1..], una)
  }

  lemma QueuedUnit(s: Stream, q: seq<Entry>, e: Entry) returns (i: nat)
    requires QueueInv(s, q) && e in q
    ensures i < Units(s) && IsUnit(s, i, e.seg)
  {
    var j :| 0 <= j < |q| && q[j] == e;
    i := EntryIsUnit(s, q, j);
  }

  /** A segment below `snd.una`, which the next timer pass frees, has been passed by the peer's `rcv.nxt`. */
  lemma FreedWasReached(ws: seq<World>, es: seq<Event>, n: nat, e: Entry)
    requires IsRun(ws, es) && n < |ws| && ws[n].a.cb.state != Closed && ws[n].a.cb.state != Listen
    requires e in ws[n].a.cb.txq && e.seg.seqno < ws[n].a.cb.sndUna
    ensures e.seg.seqno + Span(e.seg) <= ws[n].b.edge
    ensures Synced(ws[n].b.cb.state) ==> e.seg.seqno + Span(e.seg) <= ws[n].b.cb.rcvNxt
  {
    RunInv(ws, es, n);
    SideReached(ws[n].a, ws[n].b, e);
  }

  lemma SideReached(x: Host, y: Host, e: Entry)
    requires Local(x) && UnaInv(x, y) && x.cb.state != Closed && x.cb.state != Listen
    requires e in x.cb.txq && e.seg.seqno < x.cb.sndUna
    ensures e.seg.seqno + Span(e.seg) <= y.edge
  {
    var i := QueuedUnit(x.st, x.cb.txq, e);
    StartAtLeast(x.st, i);
    CutAbove(x.st, i, x.cb.sndUna);
    NextStart(x.st, i, e.seg);
  }

  // ---------------------------------------------------------- the FIN order

  lemma CompleteIff(s: Stream, got: nat)
    requires StreamOk(s) && got <= |s.chunks|
    ensures Flat(s.chunks[..got]) == Flat(s.chunks) <==> Off(s, got) == Off(s, |s.chunks|)
    ensures Off(s, got) == Off(s, |s.chunks|) <==> got == |s.chunks|
  {
    OffMonotone(s, got, |s.chunks|);
    assert s.chunks[..|s.chunks|] == s.chunks;
  }

  /** When the peer's FIN is taken, the whole stream has been received if and only
      if the FIN arrived at `rcv.nxt`: tcp.c does not hold back an early FIN. */
  lemma FinCompletesIff(ws: seq<World>, es: seq<Event>, n: nat, seg: Segment, now: Time, isn: Word)
    requires IsRun(ws, es) && n < |ws| && seg in ws[n].ba && seg.flags.fin
    requires var c := ws[n].a.cb; Synced(c.state) && !GotFin(c.state) && CheckSynchronized(c, seg, now).Go?
    ensures !Overruns(ws[n].a.cb, seg, now, isn)
    ensures var x := ApplyArrival(ws[n].a, seg, now, isn).h;
            && GotFin(x.cb.state)
            && (Received(x) == SentBytes(ws[n].b) <==> seg.seqno == ws[n].a.cb.rcvNxt)
  {
    RunInv(ws, es, n);
    var x, y := ws[n].a, ws[n].b;
    GoMid(x, y, seg, now);
    var c := CheckSynchronized(x.cb, seg, now).cb;
    assert seg.text == [] && !CopiesText(c, seg);
    var x' := ApplyArrival(x, seg, now, isn).h;
    assert Received(x') == Received(x);
    CompleteIff(y.st, x.got);
  }

  /** The event makes `x` take its peer's FIN. */
  predicate TakesFin(x: Host, e: Event) {
    e.Arrival? && e.seg.flags.fin && Synced(x.cb.state) && !GotFin(x.cb.state)
    && CheckSynchronized(x.cb, e.seg, e.now).Go?
  }

  predicate FinInTurn(x: Host, e: Event) {
    TakesFin(x, e) ==> e.seg.seqno == x.cb.rcvNxt
  }

  predicate StepInTurn(w: World, e: Event, w': World) {
    && (StepA(w, e, w') ==> FinInTurn(w.a, e))
    && (StepA(Flip(w), e, Flip(w')) ==> FinInTurn(w.b, e))
  }

  predicate InTurnAt(ws: seq<World>, es: seq<Event>, i: nat)
    requires i < |es| && |ws| == |es| + 1
  {
    StepInTurn(ws[i], es[i], ws[i + 1])
  }

  /** Each FIN that either end takes arrives at its `rcv.nxt`. */
  predicate FinsInTurn(ws: seq<World>, es: seq<Event>)
    requires |ws| == |es| + 1
  {
    forall i :: 0 <= i < |es| ==> InTurnAt(ws, es, i)
  }

  /** With the FIN of `y`, `x` has all its chunks. */
  predicate AllBeforeFin(x: Host, y: Host) {
    GotFin(x.cb.state) ==> x.got == |y.st.chunks|
  }

  /** A FIN that arrives at `rcv.nxt` finds every chunk before it received. */
  lemma FinFindsAll(x: Host, y: Host, e: Event)
    requires Local(x) && StreamOk(y.st) && ReceiveInv(y, x) && TakesFin(x, e) && InFlight(y, x, e.seg)
    requires e.seg.seqno == x.cb.rcvNxt
    ensures x.got == |y.st.chunks|
  {
    GoMid(x, y, e.seg, e.now);
    OffMonotone(y.st, x.got, |y.st.chunks|);
  }

  /** Only a FIN makes a synchronized block one that has got a FIN. */
  lemma GotFinByFin(x: Host, e: Event)
    requires Local(x) && Enabled(x, e) && Synced(x.cb.state) && GotFin(Apply(x, e).h.cb.state)
    ensures GotFin(x.cb.state) || TakesFin(x, e)
  {
    if e.Arrival? {
      ChecksEffect(x.cb, e.seg, e.now);
      var p := CheckSynchronized(x.cb, e.seg, e.now);
      if p.Go? { ReceiveEffect(p.cb, e.seg, e.now); }
    }
  }

  /** A SYN of `y`, which carries no FIN, leaves none taken. */
  lemma OpeningTakesNoFin(x: Host, y: Host, e: Event)
    requires Local(x) && Enabled(x, e) && !Synced(x.cb.state)
    requires e.Arrival? ==> InFlight(y, x, e.seg) && SaneSyn(x.cb, e.seg)
    ensures !GotFin(Apply(x, e).h.cb.state)
  {
    if e.Arrival? && x.cb.state == SynSent { SynSentEffect(x.cb, e.seg, e.now); }
  }

  lemma GotNeverShrinks(x: Host, e: Event)
    requires Enabled(x, e)
    ensures x.got <= Apply(x, e).h.got
  {
  }

  lemma ActorKeepsAll(x: Host, y: Host, e: Event)
    requires Local(x) && Local(y) && ReceiveInv(y, x) && ReceiveInv(x, y) && UnaInv(x, y)
    requires Enabled(x, e) && StreamOk(Apply(x, e).h.st)
    requires e.Arrival? ==> InFlight(y, x, e.seg)
    requires FinInTurn(x, e) && AllBeforeFin(x, y)
    ensures AllBeforeFin(Apply(x, e).h, y)
  {
    EventActed(x, y, e);
    GotNeverShrinks(x, e);
    if GotFin(Apply(x, e).h.cb.state) {
      if Synced(x.cb.state) {
        GotFinByFin(x, e);
        if TakesFin(x, e) { FinFindsAll(x, y, e); }
      } else {
        OpeningTakesNoFin(x, y, e);
      }
    }
  }

  /** After its FIN the stream of `y` does not grow. */
  lemma WaiterKeepsAll(x: Host, y: Host, y': Host)
    requires ReceiveInv(y, x) && Grows(y, y') && AllBeforeFin(x, y)
    ensures AllBeforeFin(x, y')
  {
  }

  predicate BothBeforeFin(w: World) {
    AllBeforeFin(w.a, w.b) && AllBeforeFin(w.b, w.a)
  }

  lemma StepAKeepsAll(w: World, e: Event, w': World)
    requires Inv(w) && StepA(w, e, w') && FinInTurn(w.a, e)
    requires BothBeforeFin(w)
    ensures BothBeforeFin(w')
  {
    ActorKeepsAll(w.a, w.b, e);
    EventActed(w.a, w.b, e);
    WaiterKeepsAll(w.b, w.a, Apply(w.a, e).h);
  }

  lemma StepKeepsAll(w: World, e: Event, w': World)
    requires Inv(w) && Step(w, e, w') && StepInTurn(w, e, w') && BothBeforeFin(w)
    ensures BothBeforeFin(w')
  {
    if StepA(w, e, w') { StepAKeepsAll(w, e, w'); }
    else { StepAKeepsAll(Flip(w), e, Flip(w')); }
  }

  lemma AtKeepsAll(ws: seq<World>, es: seq<Event>, i: nat)
    requires IsRun(ws, es) && FinsInTurn(ws, es) && i < |es| && BothBeforeFin(ws[i])
    ensures BothBeforeFin(ws[i + 1])
  {
    RunInv(ws, es, i);
    assert StepAt(ws, es, i) && InTurnAt(ws, es, i);
    StepKeepsAll(ws[i], es[i], ws[i + 1]);
  }

  lemma InitialAll(w: World)
    requires InitialWorld(w)
    ensures BothBeforeFin(w)
  {
  }

  lemma {:induction false} RunKeepsAll(ws: seq<World>, es: seq<Event>, i: nat)
    requires IsRun(ws, es) && FinsInTurn(ws, es) && i < |ws|
    ensures BothBeforeFin(ws[i])
    decreases i
  {
    if i == 0 {
      InitialAll(ws[0]);
    } else {
      RunKeepsAll(ws, es, i - 1);
      AtKeepsAll(ws, es, i - 1);
    }
  }

  /** If FINs arrive in turn, whoever has taken one has received the whole stream. */
  lemma FinMeansAll(ws: seq<World>, es: seq<Event>, i: nat)
    requires IsRun(ws, es) && FinsInTurn(ws, es) && i < |ws|
    ensures GotFin(ws[i].a.cb.state) ==> Received(ws[i].a) == SentBytes(ws[i].b)
    ensures GotFin(ws[i].b.cb.state) ==> Received(ws[i].b) == SentBytes(ws[i].a)
  {
    RunInv(ws, es, i);
    RunKeepsAll(ws, es, i);
    var a, b := ws[i].a, ws[i].b;
    assert b.st.chunks[..|b.st.chunks|] == b.st.chunks && a.st.chunks[..|a.st.chunks|] == a.st.chunks;
  }

  /** A data segment below `snd.una` is freed by the next timer pass; if FINs arrive in turn, the
      peer has received all of its text by then. */
  lemma FreedWasReceived(ws: seq<World>, es: seq<Event>, n: nat, e: Entry)
    requires IsRun(ws, es) && n < |ws|
    requires ws[n].a.cb.state != Closed && ws[n].a.cb.state != Listen && Synced(ws[n].b.cb.state)
    requires e in ws[n].a.cb.txq && e.seg.seqno < ws[n].a.cb.sndUna && e.seg.text != []
    requires FinsInTurn(ws, es)
    ensures e.seg.seqno + |e.seg.text| <= ws[n].b.cb.rcvNxt
    ensures exists k :: IsChunk(ws[n].a.st, k, e.seg) && Flat(ws[n].a.st.chunks[..k + 1]) <= Received(ws[n].b)
  {
    RunInv(ws, es, n);
    FinMeansAll(ws, es, n);
    var x, y := ws[n].a, ws[n].b;
    SideReached(x, y, e);
    var i := QueuedUnit(x.st, x.cb.txq, e);
    NextStart(x.st, i, e.seg);
    assert IsChunk(x.st, i - 1, e.seg);
    ChunkReceived(x.st, y, i - 1);
  }

  lemma ChunkReceived(s: Stream, y: Host, k: nat)
    requires StreamOk(s) && k < |s.chunks| && Holds(s, y.cb, y.got, y.taken) && Off(s, k + 1) <= y.cb.rcvNxt
    requires GotFin(y.cb.state) ==> Received(y) == Flat(s.chunks)
    ensures Flat(s.chunks[..k + 1]) <= Received(y)
  {
    if GotFin(y.cb.state) {
      OffMonotone(s, k + 1, |s.chunks|);
      assert s.chunks[..|s.chunks|] == s.chunks;
    } else if y.got < k + 1 {
      OffMonotone(s, y.got, k + 1);
    } else {
      OffMonotone(s, k + 1, y.got);
    }
  }
}
