/**
 * The table of control blocks behind `listen` and `accept`, updated in place,
 * each block with its backlog as a linked queue.
 */
module SocketTable {
  import opened Backlog
  import opened LinkedQueue
  import opened Wrappers

  /** The fields of a control block that matter here, apart from its backlog. */
  datatype Row = Row(used: bool, phase: Phase, parent: Option<nat>)

  datatype Accepting = Refuses | Waits | Takes(c: nat)

  predicate Shows(row: Row, backlog: seq<nat>, cb: Cb) {
    row.used == cb.used && row.phase == cb.phase && row.parent == cb.parent && backlog == cb.backlog
  }

  class Sockets {
    const rows: array<Row>
    const queues: seq<Queue<nat>>
    ghost var cbs: seq<Cb>
    ghost var ended: set<Conn>
    ghost var repr: set<Cell<nat>>

    /** The queues are well formed and share nothing. */
    ghost predicate Separate()
      reads this`repr, queues, repr
    {
      && (forall i :: 0 <= i < |queues| ==> queues[i].repr <= repr && queues[i].Valid())
      && (forall i, j :: 0 <= i < j < |queues| ==> queues[i] != queues[j] && queues[i].repr !! queues[j].repr)
    }

    ghost predicate Valid()
      reads this, rows, queues, repr
    {
      && rows.Length == |queues| == |cbs|
      && Separate()
      && forall i :: 0 <= i < |queues| ==> Shows(rows[i], queues[i].contents, cbs[i])
    }

    ghost function Model(): State
      reads this
    {
      State(cbs, ended)
    }

    constructor (n: nat)
      ensures Valid() && Model() == Start(n)
      ensures fresh(rows) && repr == {} && forall i :: 0 <= i < |queues| ==> fresh(queues[i])
    {
      var qs: seq<Queue<nat>> := [];
      while |qs| < n
        invariant |qs| <= n
        invariant forall i :: 0 <= i < |qs| ==> fresh(qs[i]) && qs[i].Valid() && qs[i].contents == [] && qs[i].repr == {}
        invariant forall i, j :: 0 <= i < j < |qs| ==> qs[i] != qs[j]
      {
        var q := new Queue<nat>();
        qs := qs + [q];
      }
      rows := new Row[n](_ => Row(false, Closed, None));
      queues, repr := qs, {};
      cbs, ended := Start(n).cbs, {};
    }

    /** Changes a row; `cb` is the block it then stands for. */
    method SetRow(c: nat, row: Row, ghost cb: Cb)
      requires Valid() && c < rows.Length && Shows(row, queues[c].contents, cb)
      modifies this`cbs, rows
      ensures Valid() && Model() == Set(old(Model()), c, cb)
    {
      rows[c] := row;
      cbs := cbs[c := cb];
    }

    method PushQueue(l: nat, c: nat)
      requires Separate() && l < |queues|
      modifies this`repr, queues[l], queues[l].repr
      ensures Separate() && fresh(repr - old(repr))
      ensures queues[l].contents == old(queues[l].contents) + [c]
      ensures forall i :: 0 <= i < |queues| && i != l ==> queues[i].contents == old(queues[i].contents)
    {
      var q := queues[l];
      assert forall i :: 0 <= i < |queues| && i != l ==> queues[i] != q && queues[i].repr !! q.repr;
      q.Push(c);
      repr := repr + q.repr;
    }

    method PopQueue(l: nat) returns (r: Option<nat>)
      requires Separate() && l < |queues|
      modifies queues[l]
      ensures Separate()
      ensures if old(queues[l].contents) == [] then r == None && queues[l].contents == []
              else r == Some(old(queues[l].contents)[0]) && queues[l].contents == old(queues[l].contents)[1..]
      ensures forall i :: 0 <= i < |queues| && i != l ==> queues[i].contents == old(queues[i].contents)
    {
      var q := queues[l];
      assert forall i :: 0 <= i < |queues| && i != l ==> queues[i] != q;
      r := q.Pop();
    }

    /** `queue_push` on the backlog of `l`. */
    method PushOn(l: nat, c: nat, ghost cb: Cb)
      requires Valid() && l < rows.Length
      requires cb == cbs[l].(backlog := cbs[l].backlog + [c], est := cb.est)
      modifies this`cbs, this`repr, queues[l], queues[l].repr
      ensures Valid() && Model() == Set(old(Model()), l, cb) && fresh(repr - old(repr))
    {
      PushQueue(l, c);
      cbs := cbs[l := cb];
    }

    /** `queue_pop` on the backlog of `l`. */
    method PopFrom(l: nat, ghost accepted: bool) returns (r: Option<nat>)
      requires Valid() && l < rows.Length
      modifies this`cbs, queues[l]
      ensures Valid()
      ensures if old(cbs[l].backlog) == [] then r == None && Model() == old(Model())
              else r == Some(old(cbs[l].backlog[0]))
                   && Model() == Set(old(Model()), l, WithoutHead(old(cbs[l]), accepted))
    {
      ghost var p := cbs[l];
      r := PopQueue(l);
      if r.Some? {
        cbs := cbs[l := WithoutHead(p, accepted)];
      }
    }

    /** The first free block, or the length (tcp.c:1042-1048, 837-843). */
    method FirstFree() returns (c: nat)
      requires Valid()
      ensures c <= |cbs| && (c < |cbs| ==> Free(cbs[c]))
      ensures forall i :: 0 <= i < c ==> !Free(cbs[i])
    {
      c := 0;
      while c < rows.Length
        invariant c <= rows.Length
        invariant forall i :: 0 <= i < c ==> !Free(cbs[i])
      {
        if !rows[c].used && rows[c].phase == Closed { return; }
        c := c + 1;
      }
    }

    /** `tcp_api_open` (tcp.c:1037-1053). */
    method OpenCall() returns (r: Option<nat>)
      requires Valid()
      modifies this`cbs, rows
      ensures Valid()
      ensures if exists i :: 0 <= i < |old(cbs)| && Free(old(cbs)[i])
              then r.Some? && Enabled(old(Model()), OpenSock(r.value))
                   && Model() == Apply(old(Model()), OpenSock(r.value))
                   && forall i :: 0 <= i < r.value ==> !Free(old(cbs)[i])
              else r.None? && Model() == old(Model())
    {
      var c := FirstFree();
      if c == rows.Length { return None; }
      SetRow(c, rows[c].(used := true), cbs[c].(used := true));
      return Some(c);
    }

    /** `tcp_api_listen` (tcp.c:1257-1271); `bound` says whether the block has a port. */
    method ListenCall(c: nat, bound: bool) returns (ok: bool)
      requires Valid() && c < |cbs|
      modifies this`cbs, rows
      ensures Valid()
      ensures ok <==> bound && Enabled(old(Model()), ListenSock(c))
      ensures Model() == if ok then Apply(old(Model()), ListenSock(c)) else old(Model())
    {
      if !rows[c].used || rows[c].phase != Closed || !bound { return false; }
      SetRow(c, rows[c].(phase := Listen), cbs[c].(phase := Listen));
      return true;
    }

    /** A SYN for listener `l` that matches no connection takes the first free block (tcp.c:855-880, 316-335). */
    method SynArrives(l: nat) returns (r: Option<nat>)
      requires Valid() && l < |cbs| && cbs[l].phase == Listen
      modifies this`cbs, rows
      ensures Valid()
      ensures if exists i :: 0 <= i < |old(cbs)| && Free(old(cbs)[i])
              then r.Some? && Enabled(old(Model()), Syn(r.value, l))
                   && Model() == Apply(old(Model()), Syn(r.value, l))
                   && forall i :: 0 <= i < r.value ==> !Free(old(cbs)[i])
              else r.None? && Model() == old(Model())
    {
      var c := FirstFree();
      if c == rows.Length { return None; }
      SetRow(c, rows[c].(phase := SynRcvd, parent := Some(l)),
             cbs[c].(phase := SynRcvd, parent := Some(l), gen := cbs[c].gen + 1));
      return Some(c);
    }

    /** SYN_RCVD becomes ESTABLISHED and joins its parent's backlog (tcp.c:526-536). */
    method EstablishBlock(c: nat)
      requires Valid() && Enabled(Model(), Establish(c))
      modifies this`cbs, this`repr, rows, queues, repr
      ensures Valid() && fresh(repr - old(repr))
      ensures Model() == Apply(old(Model()), Establish(c))
    {
      SetRow(c, rows[c].(phase := Open), cbs[c].(phase := Open));
      if rows[c].parent.Some? {
        var l := rows[c].parent.value;
        PushOn(l, c, cbs[l].(backlog := cbs[l].backlog + [c], est := cbs[l].est + [Conn(c, cbs[c].gen)]));
      }
    }

    /** `tcp_close_cb` of a connection (tcp.c:267-275). */
    method EndBlock(c: nat)
      requires Valid() && c < |cbs|
      modifies this`cbs, this`ended, rows
      ensures Valid() && Model() == Ended(old(Model()), c)
    {
      ended := ended + {Conn(c, cbs[c].gen)};
      SetRow(c, rows[c].(phase := Closed), cbs[c].(phase := Closed));
    }

    /** `tcp_api_accept`, from its entry or from a wake-up to its end or its next wait (tcp.c:1273-1303). */
    method AcceptCall(l: nat) returns (r: Accepting)
      requires Valid() && l < |cbs| && Inv(Model())
      modifies this`cbs, rows, queues
      ensures Valid()
      ensures if !old(cbs[l]).used || old(cbs[l]).phase != Listen then r == Refuses && Model() == old(Model())
              else if old(cbs[l]).backlog == [] then r == Waits && Model() == old(Model())
              else r == Takes(old(cbs[l]).backlog[0]) && Enabled(old(Model()), Accept(l))
                   && Model() == Apply(old(Model()), Accept(l))
    {
      if !rows[l].used || rows[l].phase != Listen { return Refuses; }
      if cbs[l].backlog != [] { QueuedExists(Model(), l); }
      var head := PopFrom(l, true);
      if head.None? { return Waits; }
      var c := head.value;
      SetRow(c, rows[c].(used := true), cbs[c].(used := true));
      return Takes(c);
    }

    /** `tcp_close` (tcp.c:1055-1122); false where the source returns -1. */
    method CloseCall(c: nat) returns (ok: bool)
      requires Valid() && c < |cbs| && Inv(Model())
      modifies this`cbs, this`ended, rows, queues
      ensures Valid() && Inv(Model()) && Model() == Shut(old(Model()), c)
      ensures ok <==> old(cbs[c]).used && old(cbs[c]).phase != Closing
      decreases InUse(cbs), 0
    {
      ShutKeeps(Model(), c);
      if !rows[c].used { return false; }
      var phase := rows[c].phase;
      UnusedKeeps(Model(), c);
      InUseSet(cbs, c, cbs[c].(used := false));
      SetRow(c, rows[c].(used := false), cbs[c].(used := false));
      if phase == Listen {
        DrainBacklog(c);
        SetRow(c, rows[c].(phase := Closed), cbs[c].(phase := Closed));
      } else {
        CloseConnection(c);
      }
      return phase != Closing;
    }

    /** `tcp_close` of a block that is no listener, past the test of `used`. */
    method CloseConnection(c: nat)
      requires Valid() && c < |cbs| && cbs[c].phase != Listen
      modifies this`cbs, this`ended, rows
      ensures Valid()
      ensures var s := old(Model());
              Model() == match s.cbs[c].phase
                         case SynSent => Ended(s, c)
                         case SynRcvd => Set(s, c, s.cbs[c].(phase := Closing))
                         case Open => Set(s, c, s.cbs[c].(phase := Closing))
                         case _ => s
    {
      if rows[c].phase == SynSent {
        EndBlock(c);
      } else if rows[c].phase == SynRcvd || rows[c].phase == Open {
        SetRow(c, rows[c].(phase := Closing), cbs[c].(phase := Closing));
      }
    }

    /** The loop of `tcp_close` over the backlog of a listener (tcp.c:1075-1077). */
    method DrainBacklog(l: nat)
      requires Valid() && l < |cbs| && Inv(Model())
      modifies this`cbs, this`ended, rows, queues
      ensures Valid() && Inv(Model()) && Model() == Drain(old(Model()), l)
      decreases InUse(cbs), |cbs[l].backlog|
    {
      ghost var goal := Drain(Model(), l);
      var more := true;
      while more
        invariant Valid() && |cbs| == old(|cbs|) && Inv(Model())
        invariant goal == if more then Drain(Model(), l) else Model()
        invariant Model() == old(Model()) || Smaller(Model(), old(Model()), l)
        decreases InUse(cbs), |cbs[l].backlog|, more
      {
        more := DropHead(l, goal);
      }
    }

    /** One turn of that loop: false on an empty backlog. */
    method DropHead(l: nat, ghost goal: State) returns (more: bool)
      requires Valid() && l < |cbs| && Inv(Model()) && goal == Drain(Model(), l)
      modifies this`cbs, this`ended, rows, queues
      ensures Valid() && |cbs| == old(|cbs|) && Inv(Model())
      ensures if more then goal == Drain(Model(), l) && Smaller(Model(), old(Model()), l)
              else goal == Model() == old(Model())
      decreases InUse(cbs), if cbs[l].backlog == [] then 0 else 1, 0
    {
      ghost var o, t := DrainNext(Model(), l);
      var head := PopFrom(l, false);
      if head.None? { return false; }
      var _ := CloseCall(head.value);
      return true;
    }
  }

  /** Fewer blocks in use, or as many and a shorter backlog. */
  ghost predicate Smaller(t: State, s: State, l: nat) {
    && l < |t.cbs| == |s.cbs|
    && (InUse(t.cbs) < InUse(s.cbs)
        || (InUse(t.cbs) == InUse(s.cbs) && |t.cbs[l].backlog| < |s.cbs[l].backlog|))
  }

  /** Popping and closing one block leaves what the loop comes to unchanged. */
  lemma DrainNext(s: State, l: nat) returns (o: State, t: State)
    requires Inv(s) && l < |s.cbs|
    ensures if s.cbs[l].backlog == [] then Drain(s, l) == s
            else && s.cbs[l].backlog[0] < |s.cbs|
                 && o == Set(s, l, WithoutHead(s.cbs[l], false)) && Inv(o) && InUse(o.cbs) == InUse(s.cbs)
                 && t == Shut(o, s.cbs[l].backlog[0]) && Drain(s, l) == Drain(t, l) && Smaller(t, s, l)
  {
    o, t := s, s;
    if s.cbs[l].backlog != [] {
      HeadDropped(s, l);
      InUseSet(s.cbs, l, WithoutHead(s.cbs[l], false));
      o := Set(s, l, WithoutHead(s.cbs[l], false));
      t := Shut(o, s.cbs[l].backlog[0]);
    }
  }

  /** A block in a backlog is a block of the table. */
  lemma QueuedExists(s: State, l: nat)
    requires Inv(s) && l < |s.cbs| && s.cbs[l].backlog != []
    ensures s.cbs[l].backlog[0] < |s.cbs|
  {
    var p := s.cbs[l];
    assert InOrder(p);
    assert Past(s, p.est[|p.outs|]);
  }
}
