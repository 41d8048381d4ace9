/**
 One TCP endpoint over a whole connection: the control block, and the history
 its API calls and arrivals have made. The history never influences the control
 block; it is what the invariants are stated against.
 */
module TcpHost {
  import opened Words
  import opened TcpModel

  // ------------------------------------------------------ the byte stream

  /** What one endpoint has queued for sending: its SYN, the segments of text
      cut by `tcp_api_send` (oldest first), and whether a FIN follows them. */
  datatype Stream = Stream(isn: Word, chunks: seq<Text>, fin: bool)

  function Flat(chunks: seq<Text>): seq<Byte> {
    if chunks == [] then [] else Flat(chunks[..|chunks| - 1]) + chunks[|chunks| - 1]
  }

  /** Sequence number of the first byte of chunk `k`. */
  function Off(s: Stream, k: nat): int
    requires k <= |s.chunks|
  {
    s.isn + 1 + |Flat(s.chunks[..k])|
  }

  /** One past the last sequence number used. */
  function Total(s: Stream): int {
    Off(s, |s.chunks|) + if s.fin then 1 else 0
  }

  /** Chunks are not empty and sequence numbers do not rotate within the connection. */
  predicate StreamOk(s: Stream) {
    && (forall i :: 0 <= i < |s.chunks| ==> s.chunks[i] != [])
    && Off(s, |s.chunks|) + 1 < TWO32
  }

  lemma FlatNext(chunks: seq<Text>, k: nat)
    requires k < |chunks|
    ensures Flat(chunks[..k + 1]) == Flat(chunks[..k]) + chunks[k]
  {
    assert chunks[..k + 1][..k] == chunks[..k];
  }

  lemma {:induction false} OffMonotone(s: Stream, j: nat, k: nat)
    requires j <= k <= |s.chunks|
    requires forall i :: 0 <= i < |s.chunks| ==> s.chunks[i] != []
    ensures Off(s, j) + (k - j) <= Off(s, k)
    ensures Flat(s.chunks[..j]) <= Flat(s.chunks[..k])
    decreases k - j
  {
    if j < k {
      OffMonotone(s, j, k - 1);
      FlatNext(s.chunks, k - 1);
    }
  }

  /** `t` is a later version of `s`. */
  predicate Extends(s: Stream, t: Stream) {
    && s.isn == t.isn
    && s.chunks <= t.chunks
    && (s.fin ==> s == t)
  }

  lemma OffKept(s: Stream, t: Stream, k: nat)
    requires Extends(s, t) && k <= |s.chunks|
    ensures Off(s, k) == Off(t, k) && s.chunks[..k] == t.chunks[..k]
  {
    assert s.chunks[..k] == t.chunks[..k];
  }

  // ------------------------------------------------- retransmission queue

  /** Everything that was ever queued, in order: the SYN, each chunk, the FIN. */
  function Units(s: Stream): nat {
    1 + |s.chunks| + if s.fin then 1 else 0
  }

  function Start(s: Stream, i: nat): int
    requires i <= Units(s)
  {
    if i == 0 then s.isn else if i <= |s.chunks| + 1 then Off(s, i - 1) else Total(s)
  }

  predicate IsUnit(s: Stream, i: nat, g: Segment)
    requires i < Units(s)
  {
    && g.seqno == Start(s, i)
    && g.flags.syn == (i == 0)
    && g.flags.fin == (i == |s.chunks| + 1)
    && !g.flags.rst
    && (i != 0 ==> g.flags.ack)
    && g.text == if 1 <= i <= |s.chunks| then s.chunks[i - 1] else []
  }

  /** A simultaneous open queues the SYN a second time, as SYN,ACK. */
  predicate TwoSyns(q: seq<Entry>) {
    |q| >= 2 && q[0].seg.flags.syn && q[1].seg.flags.syn
  }

  function Base(q: seq<Entry>): seq<Entry> {
    if TwoSyns(q) then q[1..] else q
  }

  /** The entries are exactly the last units of the stream, in order. */
  predicate LastUnits(s: Stream, b: seq<Entry>) {
    && |b| <= Units(s)
    && forall j :: 0 <= j < |b| ==> IsUnit(s, Units(s) - |b| + j, b[j].seg)
  }

  /** The queue holds exactly the last units (and, at the front, perhaps both SYNs). */
  predicate QueueInv(s: Stream, q: seq<Entry>) {
    && LastUnits(s, Base(q))
    && (TwoSyns(q) ==> |q| == Units(s) + 1 && IsUnit(s, 0, q[0].seg))
  }

  /** Entries never transmitted are a suffix of the queue. */
  predicate UnsentLast(q: seq<Entry>) {
    forall i, j :: 0 <= i < j < |q| && q[i].stamp == 0 ==> q[j].stamp == 0
  }

  // ------------------------------------------------------------ endpoints

  /** - `got`: how many text segments of the peer were copied into `window`
      - `edge`: the last `rcv.nxt` of a synchronized state (0 before)
      - `taken`: the bytes `tcp_api_recv` has returned
      - `acks`: the segments whose window was considered, oldest first */
  datatype Host = Host(
    cb: Tcb, begun: bool, st: Stream, got: nat, edge: nat, taken: seq<Byte>, acks: seq<Segment>)

  datatype Event =
    | Open(isn: Word, now: Time)
    | Accepted
    | Arrival(seg: Segment, now: Time, isn: Word)
    | Tick(now: Time)
    | Send(data: seq<Byte>, mtu: nat, now: Time)
    | Recv(size: nat)
    | Shut(now: Time)

  datatype Move = Move(h: Host, out: seq<Segment>)

  function NewHost(cb: Tcb): Host {
    Host(cb, false, Stream(0, [], false), 0, 0, [], [])
  }

  /** A socket that will connect, or a child block that a listener hands its first segment. A
      block that has had a connection before keeps `txq.snt` and `timeout` of it. */
  predicate Initial(h: Host) {
    var c := FRESH.(snt := h.cb.snt, timeout := h.cb.timeout);
    h == NewHost(c.(used := true)) || h == NewHost(c.(state := Listen))
  }

  predicate Synced(s: State) {
    s != Closed && s != Listen && s != SynSent
  }

  predicate FinSent(s: State) {
    s == FinWait1 || s == FinWait2 || s == Closing || s == TimeWait
  }

  predicate GotFin(s: State) {
    s == CloseWait || s == Closing || s == TimeWait
  }

  /** The segment reaches the test of `snd.wl1` and `snd.wl2`. */
  predicate TestsWindow(cb: Tcb, seg: Segment) {
    Synced(cb.state) && cb.state != LastAck && cb.state != TimeWait
    && Acceptable(cb, seg) && !seg.flags.rst && !seg.flags.syn && seg.flags.ack
    && cb.sndUna <= seg.ackno <= cb.sndNxt
  }

  /** The event changes the block: a call that fails or waits does not. */
  predicate Enabled(h: Host, e: Event) {
    match e
    case Open(_, _) => !h.begun && h.cb.used && h.cb.state == Closed
    case Accepted => true
    case Arrival(seg, now, isn) => !Overruns(h.cb, seg, now, isn)
    case Tick(_) => true
    case Send(data, mtu, _) =>
      CanSend(h.cb) && mtu > HEADERS_MAX && ChunkSize(h.cb, |data|, mtu) > 0
    case Recv(_) => CanRecv(h.cb) && h.cb.buf != [] && h.cb.rcvWnd + |h.cb.buf| <= WINDOW_SIZE
    case Shut(_) => h.cb.used
  }

  function ApplyArrival(h: Host, seg: Segment, now: Time, isn: Word): Move
    requires !Overruns(h.cb, seg, now, isn)
  {
    var p := Checks(h.cb, seg, now, isn);
    var r := Arrive(h.cb, seg, now, isn);
    var opens := h.cb.state == Listen && r.cb.state != Closed;
    Move(h.(cb := r.cb,
            begun := h.begun || opens,
            st := if opens then h.st.(isn := isn) else h.st,
            got := if p.Go? && CopiesText(p.cb, seg) then h.got + 1 else h.got,
            edge := if Synced(r.cb.state) then r.cb.rcvNxt else h.edge,
            acks := if TestsWindow(h.cb, seg) then h.acks + [seg] else h.acks),
         r.out)
  }

  function SendText(h: Host, text: Text, now: Time): Move {
    var r := SendChunk(h.cb, text, now);
    Move(h.(cb := r.cb, st := h.st.(chunks := h.st.chunks + [text])), r.out)
  }

  function Apply(h: Host, e: Event): Move
    requires Enabled(h, e)
  {
    match e
    case Open(isn, now) =>
      var r := Connect(h.cb, isn, now);
      Move(h.(cb := r.cb, begun := true, st := h.st.(isn := isn)), r.out)
    case Accepted => Move(h.(cb := h.cb.(used := true)), [])
    case Arrival(seg, now, isn) => ApplyArrival(h, seg, now, isn)
    case Tick(now) =>
      var r := Timer(h.cb, now);
      Move(h.(cb := r.cb), r.out)
    case Send(data, mtu, now) => SendText(h, data[..ChunkSize(h.cb, |data|, mtu)], now)
    case Recv(size) =>
      var n := if size < |h.cb.buf| then size else |h.cb.buf|;
      Move(h.(cb := Take(h.cb, n), taken := h.taken + h.cb.buf[..n]), [])
    case Shut(now) =>
      var r := Close(h.cb, now);
      Move(h.(cb := r.cb, st := h.st.(fin := h.st.fin || CanClose(h.cb.state))), r.out)
  }
}
