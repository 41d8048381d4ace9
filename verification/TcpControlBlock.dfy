/**
 `struct tcp_cb` and the functions of tcp.c that update it in place. Every
 method is tied to the function of `TcpModel` that specifies it; segments given
 to `ip_tx` are returned in order. The retransmission queue is the linked list
 of `TcpTxQueue`, the receive buffer an array.
 */
module TcpControlBlock {
  import opened Words
  import opened TcpModel
  import opened TcpTxQueue

  /** The `snd` and `rcv` members of the struct. */
  datatype Snd = Snd(nxt: Word, una: Word, wl1: Word, wl2: Word, wnd: Half)
  datatype Rcv = Rcv(nxt: Word, wnd: Half)

  /** The scalar members of the struct; `snt` is `txq.snt`. */
  datatype Fields = Fields(used: bool, state: State, snd: Snd, iss: Word, rcv: Rcv, irs: Word, snt: Half, timeout: int)

  /** What an API call returns: a result, -1, or a wait on the condition variable. */
  datatype Outcome<T> = Done(value: T) | Failed | Waits(value: T)

  /** What sending comes to from here on. */
  ghost function Outlook(cb: Tcb, data: seq<Byte>, sent: nat, out: seq<Segment>, mtu: nat, now: Time): Sending {
    if mtu > HEADERS_MAX && sent <= |data| then SendFrom(cb, data, sent, out, mtu, now) else Sending(cb, sent, out)
  }

  /** The next segment, if there is room for one, leaves the outlook unchanged. */
  lemma OutlookNext(cb: Tcb, data: seq<Byte>, sent: nat, out: seq<Segment>, mtu: nat, now: Time) returns (r: Result)
    requires mtu > HEADERS_MAX && sent <= |data|
    ensures var n := ChunkSize(cb, |data| - sent, mtu);
            && sent + n <= |data|
            && r == SendChunk(cb, data[sent..sent + n], now)
            && Outlook(cb, data, sent, out, mtu, now)
               == if n == 0 then Sending(cb, sent, out) else Outlook(r.cb, data, sent + n, out + r.out, mtu, now)
  {
    r := SendChunk(cb, data[sent..sent + ChunkSize(cb, |data| - sent, mtu)], now);
  }

  ghost function AsTcb(f: Fields, queue: seq<Entry>, buf: seq<Byte>): Tcb {
    Tcb(f.used, f.state, f.snd.nxt, f.snd.una, f.snd.wl1, f.snd.wl2, f.snd.wnd, f.iss, f.rcv.nxt, f.rcv.wnd, f.irs,
        queue, f.snt, buf, f.timeout)
  }

  lemma QueueFields(f: Fields, q: seq<Entry>, buf: seq<Byte>, seqno: Word, ackno: Word, flags: Flags, now: Time, text: Text)
    ensures var seg := Segment(seqno, ackno, flags, f.rcv.wnd, text);
            Enqueue(AsTcb(f, q, buf), seqno, ackno, flags, now, text)
            == if HaveUnsent(q) || (!flags.syn && f.snt + |text| > f.snd.wnd)
               then Result(AsTcb(f, q + [Entry(seg, 0)], buf), [])
               else Result(AsTcb(f.(snt := Trunc16(f.snt + |text|)), q + [Entry(seg, now)], buf), [seg])
  {
  }

  /** `p` is the pass over the queue. */
  ghost predicate IsPass(p: Pass, f: Fields, q: seq<Entry>, now: Time) {
    p == TimerWalk(q, f.snd.una, f.snd.wnd, f.rcv.nxt, now, 0)
  }

  lemma ResendGoal(f: Fields, q: seq<Entry>, buf: seq<Byte>, now: Time) returns (goal: Result, p: Pass)
    requires f.state != Closed && !TimedOut(AsTcb(f, q, buf), now)
    ensures IsPass(p, f, q, now) && goal == Timer(AsTcb(f, q, buf), now)
    ensures goal == Result(AsTcb(f.(snt := Trunc16(f.snt - p.freed)), p.kept, buf), p.out)
  {
    p := TimerWalk(q, f.snd.una, f.snd.wnd, f.rcv.nxt, now, 0);
    goal := Timer(AsTcb(f, q, buf), now);
  }

  class ControlBlock {
    var f: Fields
    const txq: TxQueue
    const window: array<Byte>

    /** The entries of `txq`. */
    ghost var queue: seq<Entry>
    /** The contents of `window`. */
    ghost var bytes: seq<Byte>
    /** The buffered bytes: the front of `window` once the block is past LISTEN. */
    ghost var buf: seq<Byte>

    ghost function Links(): Shape
      reads this`queue, txq, txq.repr
    {
      if txq.Valid() && queue == txq.contents then Sound else Broken
    }

    ghost predicate Mirrored()
      reads this`bytes, window
    {
      window.Length == WINDOW_SIZE && bytes == window[..]
    }

    ghost predicate Valid()
      reads this
    {
      |bytes| == WINDOW_SIZE
      && buf == if f.state == Closed || f.state == Listen then [] else bytes[..WINDOW_SIZE - f.rcv.wnd]
    }

    ghost function Model(): Tcb
      reads this
    {
      AsTcb(f, queue, buf)
    }

    constructor ()
      ensures Valid() && Links() == Sound && Mirrored() && Model() == FRESH && fresh(window) && fresh(txq) && txq.repr == {}
    {
      f := Fields(false, Closed, Snd(0, 0, 0, 0, 0), 0, Rcv(0, 0), 0, 0, 0);
      txq := new TxQueue();
      window := new Byte[WINDOW_SIZE](_ => 0);
      queue, buf := [], [];
      new;
      bytes := window[..];
    }

    // -------------------------------------------------- retransmission queue

    method Unsent() returns (r: bool)
      requires Links() == Sound
      ensures r == HaveUnsent(queue)
    {
      r := txq.HasUnsent();
    }

    method PushEntry(seg: Segment, held: bool, now: Time)
      requires Links() == Sound
      modifies this`queue, txq, txq.repr
      ensures Links() == Sound && fresh(txq.repr - old(txq.repr))
      ensures queue == old(queue) + [Entry(seg, if held then 0 else now)]
    {
      txq.Push(seg, held, now);
      queue := txq.contents;
    }

    method ClearEntries()
      modifies this`queue, txq
      ensures Links() == Sound && txq.repr == {} && queue == []
    {
      txq.ClearAll();
      queue := [];
    }

    method WalkEntries(now: Time, ghost p: Pass) returns (out: seq<Segment>, freed: nat)
      requires Links() == Sound && IsPass(p, f, queue, now)
      modifies this`queue, txq, txq.repr
      ensures Links() == Sound && txq.repr == old(txq.repr)
      ensures p == Pass(queue, out, freed)
    {
      out, freed := txq.Walk(f.snd.una, f.snd.wnd, f.rcv.nxt, now);
      queue := txq.contents;
    }

    // ---------------------------------------------------------------- output

    /** `tcp_tx` for a segment that is not queued. */
    method Reply(seqno: Word, ackno: Word, flags: Flags) returns (g: Segment)
      ensures g == Control(Model(), seqno, ackno, flags)
    {
      g := Segment(seqno, ackno, flags, f.rcv.wnd, []);
    }

    /** `tcp_tx` for a segment that expects an acknowledgement. */
    method Queue(seqno: Word, ackno: Word, flags: Flags, now: Time, text: Text) returns (out: seq<Segment>)
      requires Valid() && Links() == Sound
      modifies this`f, this`queue, txq, txq.repr
      ensures Valid() && Links() == Sound && fresh(txq.repr - old(txq.repr))
      ensures Result(Model(), out) == Enqueue(old(Model()), seqno, ackno, flags, now, text)
    {
      var seg := Segment(seqno, ackno, flags, f.rcv.wnd, text);
      QueueFields(f, queue, buf, seqno, ackno, flags, now, text);
      var unsent := Unsent();
      var held := unsent || (!flags.syn && f.snt + |text| > f.snd.wnd);
      out := [];
      if !held {
        f := f.(snt := Trunc16(f.snt + |text|));
        out := [seg];
      }
      PushEntry(seg, held, now);
    }

    /** `tcp_close_cb`. */
    method CloseBlock()
      requires Valid()
      modifies this`f, this`queue, this`buf, txq
      ensures Valid() && Links() == Sound && txq.repr == {}
      ensures Model() == CloseCb(old(Model()))
    {
      f := f.(state := Closed, snd := Snd(0, 0, 0, 0, 0), iss := 0, rcv := Rcv(0, 0), irs := 0);
      buf := [];
      ClearEntries();
    }

    /** The body of `tcp_timer_thread` for this block. */
    method TimerPass(now: Time) returns (out: seq<Segment>)
      requires Valid() && Links() == Sound
      modifies this`f, this`queue, this`buf, txq, txq.repr
      ensures Valid() && Links() == Sound && fresh(txq.repr - old(txq.repr))
      ensures Result(Model(), out) == Timer(old(Model()), now)
    {
      out := [];
      if f.state == Closed {
        return;
      }
      if (f.snd.una != f.snd.nxt || f.state == TimeWait) && f.timeout < now {
        CloseBlock();
        return;
      }
      out := ResendPass(now);
    }

    /** The walk of the queue, past the user time-out. */
    method ResendPass(now: Time) returns (out: seq<Segment>)
      requires Valid() && Links() == Sound && f.state != Closed && !TimedOut(Model(), now)
      modifies this`f, this`queue, txq, txq.repr
      ensures Valid() && Links() == Sound && txq.repr == old(txq.repr)
      ensures Result(Model(), out) == Timer(old(Model()), now)
    {
      ghost var goal, p := ResendGoal(f, queue, buf, now);
      var freed;
      out, freed := WalkEntries(now, p);
      f := f.(snt := Trunc16(f.snt - freed));
      assert goal == Result(AsTcb(f, queue, buf), out);
    }

    // ------------------------------------------------------- segment arrives

    method HandleClosed(seg: Segment) returns (out: seq<Segment>)
      ensures Stop(Model(), out) == CheckClosed(Model(), seg)
    {
      out := [];
      if !seg.flags.rst {
        var g;
        if seg.flags.ack {
          g := Reply(seg.ackno, 0, RST);
        } else {
          g := Reply(0, Add32(seg.seqno, |seg.text|), RST_ACK);
        }
        out := [g];
      }
    }

    /** A SYN in LISTEN. */
    method HandleFirstSyn(seg: Segment, now: Time, isn: Word) returns (out: seq<Segment>)
      requires Valid() && Links() == Sound && f.state == Listen
      modifies this`f, this`queue, this`buf, txq, txq.repr
      ensures Valid() && Links() == Sound && fresh(txq.repr - old(txq.repr))
      ensures Go(Model(), out) == SynInListen(old(Model()), seg, now, isn)
    {
      f := f.(rcv := Rcv(Add32(seg.seqno, 1), WINDOW_SIZE), irs := seg.seqno, iss := isn);
      buf := [];
      out := Queue(isn, f.rcv.nxt, SYN_ACK, now, []);
      f := f.(snd := f.snd.(nxt := Add32(isn, 1), una := isn), timeout := now + USER_TIMEOUT, state := SynRcvd);
    }

    method HandleListen(seg: Segment, now: Time, isn: Word) returns (go: bool, out: seq<Segment>)
      requires Valid() && Links() == Sound && f.state == Listen
      modifies this`f, this`queue, this`buf, txq, txq.repr
      ensures Valid() && Links() == Sound && fresh(txq.repr - old(txq.repr))
      ensures CheckListen(old(Model()), seg, now, isn) == if go then Go(Model(), out) else Stop(Model(), out)
    {
      go, out := false, [];
      if !seg.flags.rst && !seg.flags.ack && seg.flags.syn {
        out := HandleFirstSyn(seg, now, isn);
        go := true;
        return;
      }
      if !seg.flags.rst && seg.flags.ack {
        var g := Reply(seg.ackno, 0, RST);
        out := [g];
      }
      CloseBlock();
    }

    method AdvanceUna(ackno: Word, now: Time)
      requires Valid()
      modifies this`f
      ensures Valid() && Model() == Advance(old(Model()), ackno, now)
      ensures f == if old(f).snd.una < ackno then old(f).(snd := old(f).snd.(una := ackno), timeout := now + USER_TIMEOUT)
                   else old(f)
    {
      if f.snd.una < ackno {
        f := f.(snd := f.snd.(una := ackno), timeout := now + USER_TIMEOUT);
      }
    }

    /** A SYN in SYN_SENT, once the acknowledgement and RST checks have passed. */
    method HandleSyn(seg: Segment, now: Time) returns (go: bool, out: seq<Segment>)
      requires Valid() && Links() == Sound && f.state == SynSent
      modifies this`f, this`queue, txq, txq.repr
      ensures Valid() && Links() == Sound && fresh(txq.repr - old(txq.repr))
      ensures SynInSynSent(old(Model()), seg, now) == if go then Go(Model(), out) else Stop(Model(), out)
    {
      go := false;
      NoteSyn(seg, now);
      if f.snd.una > f.iss {
        f := f.(state := Established);
        var g := Reply(f.snd.nxt, f.rcv.nxt, ACK);
        out, go := [g], seg.text != [] || seg.flags.urg;
      } else {
        out := HandleCross(now);
      }
    }

    method NoteSyn(seg: Segment, now: Time)
      requires Valid()
      modifies this`f
      ensures Valid() && f.state == old(f).state
      ensures Model() == Advance(old(Model()).(rcvNxt := Add32(seg.seqno, 1), irs := seg.seqno), seg.ackno, now)
    {
      f := f.(rcv := f.rcv.(nxt := Add32(seg.seqno, 1)), irs := seg.seqno);
      AdvanceUna(seg.ackno, now);
    }

    /** The SYN of a simultaneous open is answered. */
    method HandleCross(now: Time) returns (out: seq<Segment>)
      requires Valid() && Links() == Sound && f.state == SynSent
      modifies this`f, this`queue, txq, txq.repr
      ensures Valid() && Links() == Sound && fresh(txq.repr - old(txq.repr))
      ensures var b := old(Model());
              Result(Model(), out) == Enqueue(b.(state := SynRcvd), b.iss, b.rcvNxt, SYN_ACK, now, [])
    {
      f := f.(state := SynRcvd);
      out := Queue(f.iss, f.rcv.nxt, SYN_ACK, now, []);
    }

    method HandleSynSent(seg: Segment, now: Time) returns (go: bool, out: seq<Segment>)
      requires Valid() && Links() == Sound && f.state == SynSent
      modifies this`f, this`queue, this`buf, txq, txq.repr
      ensures Valid() && Links() == Sound && fresh(txq.repr - old(txq.repr))
      ensures CheckSynSent(old(Model()), seg, now) == if go then Go(Model(), out) else Stop(Model(), out)
    {
      go, out := false, [];
      if seg.flags.ack {
        if seg.ackno <= f.iss || seg.ackno > f.snd.nxt {
          var g := Reply(seg.ackno, 0, RST);
          out := [g];
          return;
        }
        if !(f.snd.una <= seg.ackno <= f.snd.nxt) {
          return;
        }
      }
      if seg.flags.rst {
        if seg.flags.ack {
          CloseBlock();
        }
        return;
      }
      if seg.flags.syn {
        go, out := HandleSyn(seg, now);
      }
    }

    /** The acknowledgement in ESTABLISHED, FIN_WAIT1, FIN_WAIT2, CLOSE_WAIT and CLOSING. */
    method HandleAck(seg: Segment, now: Time) returns (go: bool, out: seq<Segment>)
      requires Valid() && f.state != Closed && f.state != Listen
      modifies this`f
      ensures Valid()
      ensures ProcessAck(old(Model()), seg, now) == if go then Go(Model(), out) else Stop(Model(), out)
    {
      go, out := true, [];
      if f.snd.una <= seg.ackno <= f.snd.nxt {
        AdvanceUna(seg.ackno, now);
        if f.snd.wl1 < seg.seqno || (f.snd.wl1 == seg.seqno && f.snd.wl2 <= seg.ackno) {
          f := f.(snd := f.snd.(wnd := seg.win, wl1 := seg.seqno, wl2 := seg.ackno));
        }
      } else if seg.ackno > f.snd.nxt {
        var g := Reply(f.snd.nxt, f.rcv.nxt, ACK);
        out, go := [g], false;
        return;
      }
      if Add32(seg.ackno, 1) == f.snd.nxt {
        if f.state == FinWait1 {
          f := f.(state := FinWait2);
        } else if f.state == Closing {
          f := f.(state := TimeWait);
        }
      }
    }

    method HandleAckField(seg: Segment, now: Time) returns (go: bool, out: seq<Segment>)
      requires Valid() && Links() == Sound && f.state != Closed && f.state != Listen
      modifies this`f, this`queue, this`buf, txq, txq.repr
      ensures Valid() && Links() == Sound && fresh(txq.repr - old(txq.repr))
      ensures CheckAck(old(Model()), seg, now) == if go then Go(Model(), out) else Stop(Model(), out)
    {
      go, out := true, [];
      if f.state == SynRcvd {
        if f.snd.una <= seg.ackno <= f.snd.nxt {
          f := f.(state := Established);
          go, out := HandleAck(seg, now);
        } else {
          var g := Reply(seg.ackno, f.rcv.nxt, RST);
          out := [g];
        }
      } else if f.state == LastAck {
        if seg.ackno == f.snd.nxt {
          CloseBlock();
          go := false;
        }
      } else if f.state != TimeWait {
        go, out := HandleAck(seg, now);
      }
    }

    method InWindow(seg: Segment) returns (ok: bool)
      ensures ok == Acceptable(Model(), seg)
    {
      var edge := Add32(f.rcv.nxt, f.rcv.wnd);
      if seg.text != [] {
        ok := f.rcv.wnd > 0
          && ((f.rcv.nxt <= seg.seqno && seg.seqno < edge)
              || (f.rcv.nxt <= seg.seqno && seg.seqno + |seg.text| - 1 < edge));
      } else if f.rcv.wnd > 0 {
        ok := f.rcv.nxt <= seg.seqno < edge;
      } else {
        ok := seg.seqno == f.rcv.nxt;
      }
    }

    method HandleSynchronized(seg: Segment, now: Time) returns (go: bool, out: seq<Segment>)
      requires Valid() && Links() == Sound && f.state != Closed && f.state != Listen
      modifies this`f, this`queue, this`buf, txq, txq.repr
      ensures Valid() && Links() == Sound && fresh(txq.repr - old(txq.repr))
      ensures CheckSynchronized(old(Model()), seg, now) == if go then Go(Model(), out) else Stop(Model(), out)
    {
      go, out := false, [];
      var acceptable := InWindow(seg);
      if !acceptable {
        if !seg.flags.rst {
          var g := Reply(f.snd.nxt, f.rcv.nxt, ACK);
          out := [g];
        }
      } else if seg.flags.rst {
        CloseBlock();
      } else if seg.flags.syn {
        var g := Reply(0, f.rcv.nxt, RST);
        CloseBlock();
        out := [g];
      } else if seg.flags.ack {
        go, out := HandleAckField(seg, now);
      } else {
        go := true;
      }
    }

    method HandleChecks(seg: Segment, now: Time, isn: Word) returns (go: bool, out: seq<Segment>)
      requires Valid() && Links() == Sound
      modifies this`f, this`queue, this`buf, txq, txq.repr
      ensures Valid() && Links() == Sound && fresh(txq.repr - old(txq.repr))
      ensures Checks(old(Model()), seg, now, isn) == if go then Go(Model(), out) else Stop(Model(), out)
    {
      match f.state
      case Closed => go := false; out := HandleClosed(seg);
      case Listen => go, out := HandleListen(seg, now, isn);
      case SynSent => go, out := HandleSynSent(seg, now);
      case _ => go, out := HandleSynchronized(seg, now);
    }

    /** The segment text is copied behind the buffered bytes. */
    method CopyText(text: Text)
      requires Valid() && Mirrored() && f.state != Closed && f.state != Listen && |text| <= f.rcv.wnd
      modifies this`f, this`buf, this`bytes, window
      ensures Valid() && Mirrored()
      ensures f == old(f).(rcv := old(f).rcv.(wnd := old(f).rcv.wnd - |text|)) && buf == old(buf) + text
    {
      var used := WINDOW_SIZE - f.rcv.wnd;
      forall i | 0 <= i < |text| {
        window[used + i] := text[i];
      }
      f, buf, bytes := f.(rcv := f.rcv.(wnd := f.rcv.wnd - |text|)), buf + text, window[..];
    }

    method HandleText(seg: Segment) returns (out: seq<Segment>)
      requires Valid() && Mirrored() && f.state != Closed && f.state != Listen
      requires CopiesText(Model(), seg) ==> |seg.text| <= f.rcv.wnd
      modifies this`f, this`buf, this`bytes, window
      ensures Valid() && Mirrored()
      ensures Result(Model(), out) == ProcessText(old(Model()), seg)
    {
      out := [];
      if TakesText(f.state) {
        if seg.text != [] && f.rcv.nxt == seg.seqno {
          CopyText(seg.text);
          f := f.(rcv := f.rcv.(nxt := Add32(seg.seqno, |seg.text|)));
          var g := Reply(f.snd.nxt, f.rcv.nxt, ACK);
          out := [g];
        } else if seg.flags.psh {
          var g := Reply(f.snd.nxt, f.rcv.nxt, ACK);
          out := [g];
        }
      }
    }

    method HandleFin(seg: Segment, now: Time) returns (out: seq<Segment>)
      requires Valid() && f.state != Closed && f.state != Listen
      modifies this`f
      ensures Valid()
      ensures Result(Model(), out) == ProcessFin(old(Model()), seg, now)
    {
      out := [];
      if seg.flags.fin {
        f := f.(rcv := f.rcv.(nxt := Add32(seg.seqno, 1)));
        var g := Reply(f.snd.nxt, f.rcv.nxt, ACK);
        out := [g];
        if f.state == FinWait2 || f.state == TimeWait {
          f := f.(timeout := now + TIME_WAIT_TIMEOUT);
        }
        f := f.(state := StateAfterFin(f.state));
      }
    }

    /** `tcp_event_segment_arrives`. */
    method SegmentArrives(seg: Segment, now: Time, isn: Word) returns (out: seq<Segment>)
      requires Valid() && Links() == Sound && Mirrored() && !Overruns(Model(), seg, now, isn)
      modifies this, txq, txq.repr, window
      ensures Valid() && Links() == Sound && Mirrored() && fresh(txq.repr - old(txq.repr))
      ensures Result(Model(), out) == Arrive(old(Model()), seg, now, isn)
    {
      GoesOpen(Model(), seg, now, isn);
      var go;
      go, out := HandleChecks(seg, now, isn);
      if go {
        out := HandleData(seg, now, out);
      }
    }

    /** Text and FIN, after the checks have sent `gone`. */
    method HandleData(seg: Segment, now: Time, gone: seq<Segment>) returns (out: seq<Segment>)
      requires Valid() && Mirrored() && CanReceive(f.state)
      requires CopiesText(Model(), seg) ==> |seg.text| <= f.rcv.wnd
      modifies this`f, this`buf, this`bytes, window
      ensures Valid() && Mirrored()
      ensures var t := ProcessText(old(Model()), seg);
              var g := ProcessFin(t.cb, seg, now);
              Model() == g.cb && out == gone + t.out + g.out
    {
      var t := HandleText(seg);
      var g := HandleFin(seg, now);
      out := gone + t + g;
    }

    // -------------------------------------------------------- user interface

    /** `tcp_api_connect` up to its wait; -1 if the block is not an open, closed socket. */
    method ConnectCall(isn: Word, now: Time) returns (ok: bool, out: seq<Segment>)
      requires Valid() && Links() == Sound
      modifies this`f, this`queue, this`buf, txq, txq.repr
      ensures Valid() && Links() == Sound && fresh(txq.repr - old(txq.repr))
      ensures ok == (old(f).used && old(f).state == Closed)
      ensures if ok then Result(Model(), out) == Connect(old(Model()), isn, now) else Model() == old(Model()) && out == []
    {
      ok, out := f.used && f.state == Closed, [];
      if ok {
        f, buf := f.(rcv := f.rcv.(wnd := WINDOW_SIZE), iss := isn), [];
        out := Queue(isn, 0, SYN, now, []);
        f := f.(snd := f.snd.(una := isn, nxt := Add32(isn, 1)), timeout := now + USER_TIMEOUT, state := SynSent);
      }
    }

    /** The FIN of `tcp_close`. */
    method QueueFin(now: Time) returns (out: seq<Segment>)
      requires Valid() && Links() == Sound && CanClose(f.state)
      modifies this`f, this`queue, txq, txq.repr
      ensures Valid() && Links() == Sound && fresh(txq.repr - old(txq.repr))
      ensures Result(Model(), out) == CloseByFin(old(Model()), now)
    {
      out := Queue(f.snd.nxt, f.rcv.nxt, FIN_ACK, now, []);
      f := f.(snd := f.snd.(nxt := Add32(f.snd.nxt, 1)), state := if f.state == CloseWait then Closing else FinWait1);
    }

    /** `tcp_close`; -1 on an unused block or one that is closing already. */
    method CloseCall(now: Time) returns (ok: bool, out: seq<Segment>)
      requires Valid() && Links() == Sound
      modifies this`f, this`queue, this`buf, txq, txq.repr
      ensures Valid() && Links() == Sound && fresh(txq.repr - old(txq.repr))
      ensures if old(f).used then Result(Model(), out) == Close(old(Model()), now) else Model() == old(Model()) && out == []
      ensures ok <==> old(f).used && old(f).state in {Closed, Listen, SynSent, SynRcvd, Established, CloseWait}
    {
      ok, out := false, [];
      if !f.used {
        return;
      }
      f := f.(used := false);
      if f.state == Listen || f.state == SynSent {
        CloseBlock();
        ok := true;
      } else if CanClose(f.state) {
        out := QueueFin(now);
        ok := true;
      } else {
        ok := f.state == Closed;
      }
    }

    /** Moves the first `n` buffered bytes out of `window`. */
    method Drain(n: nat) returns (taken: seq<Byte>)
      requires Valid() && Mirrored() && f.state != Closed && f.state != Listen && n <= WINDOW_SIZE - f.rcv.wnd
      modifies this`f, this`buf, this`bytes, window
      ensures Valid() && Mirrored()
      ensures taken == old(buf)[..n] && buf == old(buf)[n..] && f == old(f).(rcv := old(f).rcv.(wnd := old(f).rcv.wnd + n))
    {
      var total := WINDOW_SIZE - f.rcv.wnd;
      taken := window[..n];
      forall i | 0 <= i < total - n {
        window[i] := window[n + i];
      }
      f, buf, bytes := f.(rcv := f.rcv.(wnd := f.rcv.wnd + n)), buf[n..], window[..];
    }

    /** `tcp_api_recv`, from its entry or from a wake-up to its end or its next wait. */
    method RecvCall(size: nat) returns (r: Outcome<seq<Byte>>)
      requires Valid() && Mirrored()
      modifies this`f, this`buf, this`bytes, window
      ensures Valid() && Mirrored()
      ensures if old(f).used && old(f).state in {Established, FinWait1, FinWait2, CloseWait} && old(buf) != []
              then var n := if size < |old(buf)| then size else |old(buf)|;
                   r == Done(old(buf)[..n]) && Model() == Take(old(Model()), n)
              else r == (if old(f).used && old(f).state in {Established, FinWait1, FinWait2} then Waits([]) else Failed)
                   && Model() == old(Model())
    {
      if !f.used || !(TakesText(f.state) || f.state == CloseWait) {
        return Failed;
      }
      var total := WINDOW_SIZE - f.rcv.wnd;
      if total == 0 {
        return if f.state == CloseWait then Failed else Waits([]);
      }
      var taken := Drain(if total > size then size else total);
      r := Done(taken);
    }

    /** One segment of `tcp_api_send`. */
    method SendSegment(text: Text, now: Time, ghost r: Result) returns (out: seq<Segment>)
      requires Valid() && Links() == Sound && r == SendChunk(Model(), text, now)
      modifies this`f, this`queue, txq, txq.repr
      ensures Valid() && Links() == Sound && fresh(txq.repr - old(txq.repr))
      ensures Result(Model(), out) == r
    {
      out := Queue(f.snd.nxt, f.rcv.nxt, PSH_ACK, now, text);
      f := f.(timeout := now + USER_TIMEOUT, snd := f.snd.(nxt := Add32(f.snd.nxt, |text|)));
    }

    /** The size of the next segment; 0 when the send buffer is full. */
    method NextSize(len: nat, mtu: nat) returns (size: nat)
      requires mtu > HEADERS_MAX
      ensures size == ChunkSize(Model(), len, mtu)
    {
      size := if len < mtu - HEADERS_MAX then len else mtu - HEADERS_MAX;
      var room := Trunc16(SND_BUF_SIZE - Sub32(f.snd.nxt, f.snd.una));
      if room < size {
        size := room;
      }
    }

    /** Queues the next segment of `data`, if there is more and the send buffer is not full. */
    method SendNext(data: seq<Byte>, before: nat, gone: seq<Segment>, mtu: nat, now: Time, ghost goal: Sending)
      returns (sent: nat, out: seq<Segment>, more: bool)
      requires Valid() && Links() == Sound && mtu > HEADERS_MAX && before <= |data|
      requires goal == Outlook(Model(), data, before, gone, mtu, now)
      modifies this`f, this`queue, txq, txq.repr
      ensures Valid() && Links() == Sound && fresh(txq.repr - old(txq.repr)) && before <= sent <= |data|
      ensures if more then before < sent && goal == Outlook(Model(), data, sent, out, mtu, now)
              else goal == Sending(Model(), sent, out)
    {
      ghost var r := OutlookNext(Model(), data, before, gone, mtu, now);
      var size := NextSize(|data| - before, mtu);
      if size == 0 { return before, gone, false; }
      var g := SendSegment(data[before..before + size], now, r);
      return before + size, gone + g, true;
    }

    /** The loop of `tcp_api_send`. */
    method SendLoop(data: seq<Byte>, mtu: nat, now: Time) returns (sent: nat, out: seq<Segment>)
      requires Valid() && Links() == Sound && mtu > HEADERS_MAX
      modifies this`f, this`queue, txq, txq.repr
      ensures Valid() && Links() == Sound && fresh(txq.repr - old(txq.repr))
      ensures Sending(Model(), sent, out) == SendFrom(old(Model()), data, 0, [], mtu, now)
    {
      ghost var goal := Outlook(Model(), data, 0, [], mtu, now);
      var more;
      sent, out, more := 0, [], true;
      while more
        invariant Valid() && Links() == Sound && fresh(txq.repr - old(txq.repr)) && sent <= |data|
        invariant goal == if more then Outlook(Model(), data, sent, out, mtu, now) else Sending(Model(), sent, out)
        decreases |data| - sent, more
      {
        sent, out, more := SendNext(data, sent, out, mtu, now, goal);
      }
    }

    /** `tcp_api_send`, from its entry or from a wake-up to its end or its next wait. */
    method SendCall(data: seq<Byte>, mtu: nat, now: Time) returns (r: Outcome<nat>, out: seq<Segment>)
      requires Valid() && Links() == Sound && mtu > HEADERS_MAX
      modifies this`f, this`queue, txq, txq.repr
      ensures Valid() && Links() == Sound && fresh(txq.repr - old(txq.repr))
      ensures if old(f).used && old(f).state in {Established, CloseWait}
              then var s := SendFrom(old(Model()), data, 0, [], mtu, now);
                   s.cb == Model() && s.out == out && r == (if s.snt < |data| then Waits(s.snt) else Done(s.snt))
              else r == Failed && Model() == old(Model()) && out == []
    {
      if !f.used || !(f.state == Established || f.state == CloseWait) {
        return Failed, [];
      }
      var sent;
      sent, out := SendLoop(data, mtu, now);
      r := if sent < |data| then Waits(sent) else Done(sent);
    }
  }

  predicate CanReceive(state: State) {
    state != Closed && state != Listen
  }

  lemma AckGoesOpen(cb: Tcb, seg: Segment, now: Time)
    requires CanReceive(cb.state)
    ensures var p := CheckAck(cb, seg, now); p.Go? ==> CanReceive(p.cb.state)
  {
  }

  /** A segment that gets past the checks leaves the block in a state that can receive. */
  lemma GoesOpen(cb: Tcb, seg: Segment, now: Time, isn: Word)
    ensures var p := Checks(cb, seg, now, isn); p.Go? ==> CanReceive(p.cb.state)
  {
    if CanReceive(cb.state) { AckGoesOpen(cb, seg, now); }
  }
}
