/**
 The TCP control block of tcp.c as a value, and every critical section of the
 stack as a function from control block to control block and emitted segments.

 `pthread_cond_wait` ends a critical section; memory allocation and `ip_tx`
 succeed; the clock and the random initial sequence number are arguments.
 */
module TcpModel {
  import opened Words

  const WINDOW_SIZE: Half := 65535      // sizeof(cb->window)
  const SND_BUF_SIZE: int := 10240      // TCP_SND_BUF_SIZE
  const USER_TIMEOUT: int := 20
  const TIME_WAIT_TIMEOUT: int := 20
  const RETRANSMIT_AFTER: int := 3
  const HEADERS_MAX: int := 80          // IP_HDR_SIZE_MAX + sizeof(struct tcp_hdr)

  type Text = t: seq<Byte> | |t| < 0x1_0000

  datatype State =
    | Closed | Listen | SynSent | SynRcvd | Established
    | FinWait1 | FinWait2 | Closing | TimeWait | CloseWait | LastAck

  datatype Flags = Flags(fin: bool, syn: bool, rst: bool, psh: bool, ack: bool, urg: bool)

  const SYN := Flags(false, true, false, false, false, false)
  const SYN_ACK := Flags(false, true, false, false, true, false)
  const ACK := Flags(false, false, false, false, true, false)
  const RST := Flags(false, false, true, false, false, false)
  const RST_ACK := Flags(false, false, true, false, true, false)
  const FIN_ACK := Flags(true, false, false, false, true, false)
  const PSH_ACK := Flags(false, false, false, true, true, false)

  datatype Segment = Segment(seqno: Word, ackno: Word, flags: Flags, win: Half, text: Text)

  /** An entry of the retransmission queue; timestamp 0 means never transmitted. */
  datatype Entry = Entry(seg: Segment, stamp: nat)

  /** `buf` is the received text not yet taken by the user: the first
      `WINDOW_SIZE - rcvWnd` bytes of `window` once the block is past LISTEN. */
  datatype Tcb = Tcb(
    used: bool, state: State,
    sndNxt: Word, sndUna: Word, wl1: Word, wl2: Word, sndWnd: Half, iss: Word,
    rcvNxt: Word, rcvWnd: Half, irs: Word,
    txq: seq<Entry>, snt: Half, buf: seq<Byte>, timeout: int)

  const FRESH := Tcb(false, Closed, 0, 0, 0, 0, 0, 0, 0, 0, 0, [], 0, [], 0)

  /** The control block after a critical section and the segments given to `ip_tx`, in order. */
  datatype Result = Result(cb: Tcb, out: seq<Segment>)

  // ---------------------------------------------------------------- output

  /** A segment that is not queued for retransmission. */
  function Control(cb: Tcb, seqno: Word, ackno: Word, flags: Flags): Segment {
    Segment(seqno, ackno, flags, cb.rcvWnd, [])
  }

  predicate HaveUnsent(q: seq<Entry>) {
    q != [] && q[|q| - 1].stamp == 0
  }

  /** `tcp_tx` for a segment that expects an acknowledgement: always queued,
      transmitted at once only behind no unsent segment and within the window. */
  function Enqueue(cb: Tcb, seqno: Word, ackno: Word, flags: Flags, now: Time, text: Text): (r: Result) {
    var seg := Segment(seqno, ackno, flags, cb.rcvWnd, text);
    if HaveUnsent(cb.txq) || (!flags.syn && cb.snt + |text| > cb.sndWnd) then
      Result(cb.(txq := cb.txq + [Entry(seg, 0)]), [])
    else
      Result(cb.(txq := cb.txq + [Entry(seg, now)], snt := Trunc16(cb.snt + |text|)), [seg])
  }

  /** `tcp_close_cb`. */
  function CloseCb(cb: Tcb): Tcb {
    Tcb(cb.used, Closed, 0, 0, 0, 0, 0, 0, 0, 0, 0, [], cb.snt, [], cb.timeout)
  }

  // ------------------------------------------------------- segment arrives

  /** The checks made before the segment text is looked at: either processing
      stops there, or it goes on to the text and the FIN bit. */
  datatype Progress = Stop(cb: Tcb, out: seq<Segment>) | Go(cb: Tcb, out: seq<Segment>)

  function CheckClosed(cb: Tcb, seg: Segment): Progress {
    if seg.flags.rst then Stop(cb, [])
    else if seg.flags.ack then Stop(cb, [Control(cb, seg.ackno, 0, RST)])
    else Stop(cb, [Control(cb, 0, Add32(seg.seqno, |seg.text|), RST_ACK)])
  }

  function CheckListen(cb: Tcb, seg: Segment, now: Time, isn: Word): Progress {
    if seg.flags.rst then Stop(CloseCb(cb), [])
    else if seg.flags.ack then Stop(CloseCb(cb), [Control(cb, seg.ackno, 0, RST)])
    else if seg.flags.syn then SynInListen(cb, seg, now, isn)
    else Stop(CloseCb(cb), [])
  }

  function SynInListen(cb: Tcb, seg: Segment, now: Time, isn: Word): Progress {
    var c := cb.(rcvWnd := WINDOW_SIZE, rcvNxt := Add32(seg.seqno, 1), irs := seg.seqno, iss := isn, buf := []);
    var t := Enqueue(c, isn, c.rcvNxt, SYN_ACK, now, []);
    Go(t.cb.(sndNxt := Add32(isn, 1), sndUna := isn, timeout := now + USER_TIMEOUT, state := SynRcvd), t.out)
  }

  function CheckSynSent(cb: Tcb, seg: Segment, now: Time): Progress {
    if seg.flags.ack && (seg.ackno <= cb.iss || seg.ackno > cb.sndNxt) then
      Stop(cb, [Control(cb, seg.ackno, 0, RST)])
    else if seg.flags.ack && !(cb.sndUna <= seg.ackno <= cb.sndNxt) then
      Stop(cb, [])
    else if seg.flags.rst then
      Stop(if seg.flags.ack then CloseCb(cb) else cb, [])
    else if seg.flags.syn then SynInSynSent(cb, seg, now)
    else Stop(cb, [])
  }

  function SynInSynSent(cb: Tcb, seg: Segment, now: Time): Progress {
    var b := Advance(cb.(rcvNxt := Add32(seg.seqno, 1), irs := seg.seqno), seg.ackno, now);
    if b.sndUna > b.iss then
      var e := b.(state := Established);
      var reply := [Control(e, e.sndNxt, e.rcvNxt, ACK)];
      if seg.text != [] || seg.flags.urg then Go(e, reply) else Stop(e, reply)
    else
      var t := Enqueue(b.(state := SynRcvd), b.iss, b.rcvNxt, SYN_ACK, now, []);
      Stop(t.cb, t.out)
  }

  /** The sequence number test (`uint32_t` right edge; `size_t` on the left of the last comparison). */
  predicate Acceptable(cb: Tcb, seg: Segment) {
    var edge := Add32(cb.rcvNxt, cb.rcvWnd);
    if seg.text != [] then
      cb.rcvWnd > 0 && cb.rcvNxt <= seg.seqno && (seg.seqno < edge || seg.seqno + |seg.text| - 1 < edge)
    else if cb.rcvWnd > 0 then cb.rcvNxt <= seg.seqno < edge
    else seg.seqno == cb.rcvNxt
  }

  function Advance(cb: Tcb, ack: Word, now: Time): Tcb {
    if cb.sndUna < ack then cb.(sndUna := ack, timeout := now + USER_TIMEOUT) else cb
  }

  function UpdateWindow(cb: Tcb, seg: Segment): Tcb {
    if cb.wl1 < seg.seqno || (cb.wl1 == seg.seqno && cb.wl2 <= seg.ackno) then
      cb.(sndWnd := seg.win, wl1 := seg.seqno, wl2 := seg.ackno)
    else cb
  }

  /** "if this ACK is for sent FIN", as tcp.c tests it. */
  function AckOfFin(cb: Tcb, seg: Segment): Tcb {
    if Add32(seg.ackno, 1) != cb.sndNxt then cb
    else if cb.state == FinWait1 then cb.(state := FinWait2)
    else if cb.state == Closing then cb.(state := TimeWait)
    else cb
  }

  function ProcessAck(cb: Tcb, seg: Segment, now: Time): Progress {
    if cb.sndUna <= seg.ackno <= cb.sndNxt then
      Go(AckOfFin(UpdateWindow(Advance(cb, seg.ackno, now), seg), seg), [])
    else if seg.ackno > cb.sndNxt then
      Stop(cb, [Control(cb, cb.sndNxt, cb.rcvNxt, ACK)])
    else Go(AckOfFin(cb, seg), [])
  }

  function CheckAck(cb: Tcb, seg: Segment, now: Time): Progress {
    match cb.state
    case SynRcvd =>
      if cb.sndUna <= seg.ackno <= cb.sndNxt then ProcessAck(cb.(state := Established), seg, now)
      else Go(cb, [Control(cb, seg.ackno, cb.rcvNxt, RST)])
    case LastAck =>
      if seg.ackno == cb.sndNxt then Stop(CloseCb(cb), []) else Go(cb, [])
    case TimeWait => Go(cb, [])
    case _ => ProcessAck(cb, seg, now)
  }

  function CheckSynchronized(cb: Tcb, seg: Segment, now: Time): Progress {
    if !Acceptable(cb, seg) then
      Stop(cb, if seg.flags.rst then [] else [Control(cb, cb.sndNxt, cb.rcvNxt, ACK)])
    else if seg.flags.rst then Stop(CloseCb(cb), [])
    else if seg.flags.syn then Stop(CloseCb(cb), [Control(cb, 0, cb.rcvNxt, RST)])
    else if seg.flags.ack then CheckAck(cb, seg, now)
    else Go(cb, [])
  }

  function Checks(cb: Tcb, seg: Segment, now: Time, isn: Word): Progress {
    match cb.state
    case Closed => CheckClosed(cb, seg)
    case Listen => CheckListen(cb, seg, now, isn)
    case SynSent => CheckSynSent(cb, seg, now)
    case _ => CheckSynchronized(cb, seg, now)
  }

  predicate TakesText(s: State) {
    s == Established || s == FinWait1 || s == FinWait2
  }

  /** In-order text in a state that takes text is copied behind the buffered bytes. */
  predicate CopiesText(cb: Tcb, seg: Segment) {
    TakesText(cb.state) && seg.text != [] && cb.rcvNxt == seg.seqno
  }

  /** The copy would run past the end of `window`: the C program has no defined behaviour there. */
  predicate Overruns(cb: Tcb, seg: Segment, now: Time, isn: Word) {
    var p := Checks(cb, seg, now, isn);
    p.Go? && CopiesText(p.cb, seg) && |seg.text| > p.cb.rcvWnd
  }

  function ProcessText(cb: Tcb, seg: Segment): Result
    requires CopiesText(cb, seg) ==> |seg.text| <= cb.rcvWnd
  {
    if CopiesText(cb, seg) then
      var c := cb.(buf := cb.buf + seg.text, rcvNxt := Add32(seg.seqno, |seg.text|), rcvWnd := cb.rcvWnd - |seg.text|);
      Result(c, [Control(c, c.sndNxt, c.rcvNxt, ACK)])
    else if TakesText(cb.state) && seg.flags.psh then
      Result(cb, [Control(cb, cb.sndNxt, cb.rcvNxt, ACK)])
    else Result(cb, [])
  }

  function StateAfterFin(s: State): State {
    match s
    case SynRcvd => CloseWait
    case Established => CloseWait
    case FinWait1 => Closing
    case FinWait2 => TimeWait
    case _ => s
  }

  function ProcessFin(cb: Tcb, seg: Segment, now: Time): Result {
    if seg.flags.fin then
      var c := cb.(rcvNxt := Add32(seg.seqno, 1));
      var restart := c.state == FinWait2 || c.state == TimeWait;
      Result(c.(state := StateAfterFin(c.state), timeout := if restart then now + TIME_WAIT_TIMEOUT else c.timeout),
             [Control(c, c.sndNxt, c.rcvNxt, ACK)])
    else Result(cb, [])
  }

  /** `tcp_event_segment_arrives`. */
  function Arrive(cb: Tcb, seg: Segment, now: Time, isn: Word): (r: Result)
    requires !Overruns(cb, seg, now, isn)
  {
    match Checks(cb, seg, now, isn)
    case Stop(c, out) => Result(c, out)
    case Go(c, out) =>
      var t := ProcessText(c, seg);
      var f := ProcessFin(t.cb, seg, now);
      Result(f.cb, out + t.out + f.out)
  }

  // ------------------------------------------------------------------ timer

  datatype Pass = Pass(kept: seq<Entry>, out: seq<Segment>, freed: nat)

  /** One walk of `tcp_timer_thread` over a retransmission queue: acknowledged
      entries leave it, entries inside the send window are sent when due. */
  function TimerWalk(q: seq<Entry>, una: Word, wnd: Half, rcvNxt: Word, now: Time, sum: nat): (p: Pass)
    decreases |q|
  {
    if q == [] then Pass([], [], 0)
    else
      var e := q[0];
      if e.seg.seqno >= una then
        var due := sum < wnd && (e.stamp == 0 || now - e.stamp > RETRANSMIT_AFTER);
        var e' := if due then Entry(e.seg.(ackno := rcvNxt), now) else e;
        var rest := TimerWalk(q[1..], una, wnd, rcvNxt, now, sum + |e.seg.text|);
        Pass([e'] + rest.kept, (if due then [e'.seg] else []) + rest.out, rest.freed)
      else
        var rest := TimerWalk(q[1..], una, wnd, rcvNxt, now, sum);
        rest.(freed := rest.freed + |e.seg.text|)
  }

  predicate TimedOut(cb: Tcb, now: Time) {
    (cb.sndUna != cb.sndNxt || cb.state == TimeWait) && cb.timeout < now
  }

  /** The body of `tcp_timer_thread` for one control block. */
  function Timer(cb: Tcb, now: Time): (r: Result) {
    if cb.state == Closed then Result(cb, [])
    else if TimedOut(cb, now) then Result(CloseCb(cb), [])
    else
      var p := TimerWalk(cb.txq, cb.sndUna, cb.sndWnd, cb.rcvNxt, now, 0);
      Result(cb.(txq := p.kept, snt := Trunc16(cb.snt - p.freed)), p.out)
  }

  // --------------------------------------------------------- user interface

  /** `tcp_api_connect` up to its wait, on a block it accepts. */
  function Connect(cb: Tcb, isn: Word, now: Time): (r: Result)
    requires cb.used && cb.state == Closed
  {
    var t := Enqueue(cb.(rcvWnd := WINDOW_SIZE, iss := isn, buf := []), isn, 0, SYN, now, []);
    Result(t.cb.(sndUna := isn, sndNxt := Add32(isn, 1), timeout := now + USER_TIMEOUT, state := SynSent), t.out)
  }

  predicate CanSend(cb: Tcb) {
    cb.used && (cb.state == Established || cb.state == CloseWait)
  }

  /** `uint16_t wnd`: what the send buffer has left. */
  function Room(cb: Tcb): Half {
    Trunc16(SND_BUF_SIZE - Sub32(cb.sndNxt, cb.sndUna))
  }

  function ChunkSize(cb: Tcb, len: nat, mtu: nat): nat
    requires mtu > HEADERS_MAX
  {
    var size := if len < mtu - HEADERS_MAX then len else mtu - HEADERS_MAX;
    if Room(cb) < size then Room(cb) else size
  }

  /** One segment of `tcp_api_send`. */
  function SendChunk(cb: Tcb, text: Text, now: Time): (r: Result) {
    var t := Enqueue(cb, cb.sndNxt, cb.rcvNxt, PSH_ACK, now, text);
    Result(t.cb.(timeout := now + USER_TIMEOUT, sndNxt := Add32(t.cb.sndNxt, |text|)), t.out)
  }

  /** How far `tcp_api_send` got: the block, the bytes queued, the segments transmitted. */
  datatype Sending = Sending(cb: Tcb, snt: nat, out: seq<Segment>)

  /** The loop of `tcp_api_send`, up to its end or its next wait. */
  function SendFrom(cb: Tcb, data: seq<Byte>, snt: nat, out: seq<Segment>, mtu: nat, now: Time): (r: Sending)
    requires mtu > HEADERS_MAX && snt <= |data|
    decreases |data| - snt
  {
    var n := ChunkSize(cb, |data| - snt, mtu);
    if n == 0 then Sending(cb, snt, out)
    else
      var r := SendChunk(cb, data[snt..snt + n], now);
      SendFrom(r.cb, data, snt + n, out + r.out, mtu, now)
  }

  predicate CanClose(s: State) {
    s == SynRcvd || s == Established || s == CloseWait
  }

  /** `tcp_close` on a used block (the backlog of a listener is the `Backlog` module's). */
  function Close(cb: Tcb, now: Time): (r: Result)
    requires cb.used
  {
    var c := cb.(used := false);
    match c.state
    case Listen => Result(CloseCb(c), [])
    case SynSent => Result(CloseCb(c), [])
    case _ =>
      if CanClose(c.state) then CloseByFin(c, now) else Result(c, [])
  }

  function CloseByFin(c: Tcb, now: Time): Result {
    var t := Enqueue(c, c.sndNxt, c.rcvNxt, FIN_ACK, now, []);
    Result(t.cb.(sndNxt := Add32(c.sndNxt, 1), state := if c.state == CloseWait then Closing else FinWait1), t.out)
  }

  predicate CanRecv(cb: Tcb) {
    cb.used && (TakesText(cb.state) || cb.state == CloseWait)
  }

  /** `tcp_api_recv` when bytes are buffered. */
  function Take(cb: Tcb, n: nat): (r: Tcb)
    requires n <= |cb.buf| && cb.rcvWnd + n <= WINDOW_SIZE
  {
    cb.(buf := cb.buf[n..], rcvWnd := cb.rcvWnd + n)
  }
}
