/** The retransmission queue of tcp.c: a linked list spliced in place. */
module TcpTxQueue {
  import opened Words
  import opened TcpModel
  import opened Sequences

  class Node {
    var seg: Segment
    var stamp: nat
    var next: Node?

    constructor (seg: Segment)
      ensures this.seg == seg && stamp == 0 && next == null
    {
      this.seg, stamp, next := seg, 0, null;
    }
  }

  /**
   * Whether a list in memory is what it should be at some point. A value and not
   * a predicate: the verifier unfolds a predicate in a contract into its parts,
   * and a value it takes as one fact, which is all that most callers need.
   */
  datatype Shape = Sound | Broken

  /** What a walk has done so far: entries kept, segments sent, bytes freed, bytes kept. */
  datatype SoFar = SoFar(kept: seq<Entry>, out: seq<Segment>, freed: nat, sum: nat)

  /** One turn of the walk. */
  function Turn(s: SoFar, e: Entry, una: Word, wnd: Half, rcvNxt: Word, now: Time): SoFar {
    if e.seg.seqno >= una then
      var due := s.sum < wnd && (e.stamp == 0 || now - e.stamp > RETRANSMIT_AFTER);
      var e' := if due then Entry(e.seg.(ackno := rcvNxt), now) else e;
      SoFar(s.kept + [e'], s.out + (if due then [e'.seg] else []), s.freed, s.sum + |e.seg.text|)
    else s.(freed := s.freed + |e.seg.text|)
  }

  /** What the walk comes to from here on. */
  function Rest(s: SoFar, ahead: seq<Entry>, una: Word, wnd: Half, rcvNxt: Word, now: Time): Pass {
    var r := TimerWalk(ahead, una, wnd, rcvNxt, now, s.sum);
    Pass(s.kept + r.kept, s.out + r.out, s.freed + r.freed)
  }

  /** One turn leaves what the walk comes to unchanged. */
  lemma TurnStep(s: SoFar, q: seq<Entry>, una: Word, wnd: Half, rcvNxt: Word, now: Time)
    requires q != []
    ensures Rest(Turn(s, q[0], una, wnd, rcvNxt, now), q[1..], una, wnd, rcvNxt, now)
            == Rest(s, q, una, wnd, rcvNxt, now)
  {
    var t := Turn(s, q[0], una, wnd, rcvNxt, now);
    var r := TimerWalk(q[1..], una, wnd, rcvNxt, now, t.sum);
    if q[0].seg.seqno >= una {
      var e' := t.kept[|s.kept|];
      assert s.kept + ([e'] + r.kept) == (s.kept + [e']) + r.kept;
      var sent := t.out[|s.out|..];
      assert t.out == s.out + sent;
      assert s.out + (sent + r.out) == (s.out + sent) + r.out;
    }
  }

  lemma WholeWalk(q: seq<Entry>, una: Word, wnd: Half, rcvNxt: Word, now: Time)
    ensures Rest(SoFar([], [], 0, 0), q, una, wnd, rcvNxt, now) == TimerWalk(q, una, wnd, rcvNxt, now, 0)
  {
  }

  lemma WalkDone(s: SoFar, una: Word, wnd: Half, rcvNxt: Word, now: Time)
    ensures Rest(s, [], una, wnd, rcvNxt, now) == Pass(s.kept, s.out, s.freed)
  {
  }

  class TxQueue {
    var head: Node?
    var tail: Node?
    ghost var nodes: seq<Node>
    ghost var contents: seq<Entry>
    ghost var repr: set<Node>

    /** `head`, `tail` and the `next` links spell out `nodes`, which hold `contents`. */
    ghost predicate Valid()
      reads this, repr
    {
      && (forall i :: 0 <= i < |nodes| ==> nodes[i] in repr)
      && (forall i, j :: 0 <= i < j < |nodes| ==> nodes[i] != nodes[j])
      && |contents| == |nodes|
      && (forall i :: 0 <= i < |nodes| ==> nodes[i].seg == contents[i].seg && nodes[i].stamp == contents[i].stamp)
      && (forall i {:trigger nodes[i].next} :: 0 <= i < |nodes| - 1 ==> nodes[i].next == nodes[i + 1])
      && if nodes == [] then head == null && tail == null
         else head == nodes[0] && tail == nodes[|nodes| - 1] && tail.next == null
    }

    constructor ()
      ensures Valid() && contents == [] && repr == {}
    {
      head, tail, nodes, contents, repr := null, null, [], [], {};
    }

    method HasUnsent() returns (r: bool)
      requires Valid()
      ensures r == HaveUnsent(contents)
    {
      r := tail != null && tail.stamp == 0;
    }

    /** `tcp_txq_add`. */
    method Add(seg: Segment)
      requires Valid()
      modifies this, repr
      ensures Valid() && nodes != [] && fresh(repr - old(repr))
      ensures contents == old(contents) + [Entry(seg, 0)]
    {
      var n := new Node(seg);
      if head == null {
        head := n;
      } else {
        tail.next := n;
      }
      tail := n;
      nodes, contents, repr := nodes + [n], contents + [Entry(seg, 0)], repr + {n};
    }

    /** The segment just added has been transmitted. */
    method StampTail(now: Time)
      requires Valid() && nodes != []
      modifies this`contents, repr
      ensures Valid() && repr == old(repr)
      ensures contents == old(contents)[|nodes| - 1 := Entry(old(contents)[|nodes| - 1].seg, now)]
    {
      tail.stamp := now;
      contents := contents[|nodes| - 1 := Entry(contents[|nodes| - 1].seg, now)];
    }

    /** Adds a segment and, unless it is held back, stamps it as transmitted. */
    method Push(seg: Segment, held: bool, now: Time)
      requires Valid()
      modifies this, repr
      ensures Valid() && fresh(repr - old(repr))
      ensures contents == old(contents) + [Entry(seg, if held then 0 else now)]
    {
      Add(seg);
      if !held {
        StampTail(now);
      }
    }

    /** `tcp_txq_clear_all`. */
    method ClearAll()
      modifies this
      ensures Valid() && contents == [] && repr == {}
    {
      head, tail, nodes, contents, repr := null, null, [], [], {};
    }

    /** The walk stands at `cur`, behind `prev`: `kept` is what it has left in the queue, `ahead` what it has not seen. */
    ghost predicate At(prev: Node?, cur: Node?, kept: seq<Entry>, ahead: seq<Entry>)
      reads this, repr
    {
      && Valid() && contents == kept + ahead
      && cur == (if ahead != [] then nodes[|kept|] else null)
      && prev == if kept == [] then null else nodes[|kept| - 1]
    }

    ghost function Place(prev: Node?, cur: Node?, kept: seq<Entry>, ahead: seq<Entry>): Shape
      reads this, repr
    {
      if At(prev, cur, kept, ahead) then Sound else Broken
    }

    /** Splices the first node out of the queue. */
    method RemoveFirst(cur: Node, ghost ahead: seq<Entry>) returns (next: Node?)
      requires Place(null, cur, [], ahead) == Sound
      modifies this
      ensures Place(null, next, [], ahead[1..]) == Sound && repr == old(repr)
    {
      assert cur == nodes[0] && (|nodes| > 1 ==> cur.next == nodes[1]);
      if cur.next == null {
        tail := null;
      }
      head := cur.next;
      next := cur.next;
      nodes, contents := nodes[1..], ahead[1..];
    }

    /** Splices the node behind `prev` out of the queue. */
    method RemoveBehind(prev: Node, cur: Node, ghost kept: seq<Entry>, ghost ahead: seq<Entry>) returns (next: Node?)
      requires Place(prev, cur, kept, ahead) == Sound
      modifies this, prev
      ensures Place(prev, next, kept, ahead[1..]) == Sound && repr == old(repr)
    {
      ghost var k := |kept|;
      assert prev == nodes[k - 1] && cur == nodes[k];
      assert if k < |nodes| - 1 then cur.next == nodes[k + 1] else cur == tail && cur.next == null;
      ghost var rest := Without(nodes, k);
      if cur.next == null {
        tail := prev;
      }
      prev.next := cur.next;
      next := cur.next;
      nodes, contents := rest, kept + ahead[1..];
    }

    /** Splices the node `cur` out of the queue. */
    method Remove(prev: Node?, cur: Node, ghost kept: seq<Entry>, ghost ahead: seq<Entry>) returns (next: Node?)
      requires Place(prev, cur, kept, ahead) == Sound
      modifies this, repr
      ensures Place(prev, next, kept, ahead[1..]) == Sound && repr == old(repr)
    {
      if prev == null {
        next := RemoveFirst(cur, ahead);
      } else {
        next := RemoveBehind(prev, cur, kept, ahead);
      }
    }

    /** Sends the segment of `cur` if it is due, with a fresh acknowledgement field, and steps past it. */
    method Refresh(prev: Node?, cur: Node, rcvNxt: Word, now: Time, due: bool, ghost kept: seq<Entry>, ghost ahead: seq<Entry>)
        returns (sent: seq<Segment>, next: Node?, ghost e: Entry)
      requires Place(prev, cur, kept, ahead) == Sound
      modifies this`contents, cur
      ensures Place(cur, next, kept + [e], ahead[1..]) == Sound && repr == old(repr)
      ensures e == if due then Entry(ahead[0].seg.(ackno := rcvNxt), now) else ahead[0]
      ensures sent == if due then [e.seg] else []
    {
      assert cur.seg == ahead[0].seg && cur.stamp == ahead[0].stamp;
      sent := [];
      if due {
        cur.seg := cur.seg.(ackno := rcvNxt);
        cur.stamp := now;
        sent := [cur.seg];
      }
      next, e := cur.next, Entry(cur.seg, cur.stamp);
      contents := (kept + [e]) + ahead[1..];
    }

    /** One turn of the walk at `cur`. */
    method TakeTurn(prev: Node?, cur: Node, una: Word, wnd: Half, rcvNxt: Word, now: Time, sum: nat, freed: nat,
                    ghost s: SoFar, ghost ahead: seq<Entry>)
        returns (sent: seq<Segment>, sum': nat, freed': nat, prev': Node?, next: Node?, ghost t: SoFar)
      requires Place(prev, cur, s.kept, ahead) == Sound && sum == s.sum && freed == s.freed
      modifies this, repr
      ensures repr == old(repr) && ahead != [] && t == Turn(s, ahead[0], una, wnd, rcvNxt, now)
      ensures Place(prev', next, t.kept, ahead[1..]) == Sound
      ensures t.out == s.out + sent && t.freed == freed' && t.sum == sum'
    {
      sent, sum', freed', prev' := [], sum, freed, prev;
      assert cur.seg == ahead[0].seg && cur.stamp == ahead[0].stamp;
      t := Turn(s, ahead[0], una, wnd, rcvNxt, now);
      var len := |cur.seg.text|;
      if cur.seg.seqno >= una {
        var due := sum < wnd && (cur.stamp == 0 || now - cur.stamp > RETRANSMIT_AFTER);
        ghost var e;
        sent, next, e := Refresh(prev, cur, rcvNxt, now, due, s.kept, ahead);
        sum', prev' := sum + len, cur;
      } else {
        next := Remove(prev, cur, s.kept, ahead);
        freed' := freed + len;
      }
    }

    /** The walk before its first turn. */
    lemma AtHead()
      requires Valid()
      ensures Place(null, head, [], contents) == Sound
    {
    }

    lemma AtEnd(prev: Node?, kept: seq<Entry>, ahead: seq<Entry>)
      requires Place(prev, null, kept, ahead) == Sound
      ensures Valid() && ahead == [] && contents == kept
    {
    }

    /** The inner loop of `tcp_timer_thread`. */
    method Walk(una: Word, wnd: Half, rcvNxt: Word, now: Time) returns (out: seq<Segment>, freed: nat)
      requires Valid()
      modifies this, repr
      ensures Valid() && repr == old(repr)
      ensures TimerWalk(old(contents), una, wnd, rcvNxt, now, 0) == Pass(contents, out, freed)
    {
      var prev: Node?, cur, sum: nat := null, head, 0;
      out, freed := [], 0;
      ghost var s, ahead := SoFar([], [], 0, 0), contents;
      ghost var goal := Rest(s, ahead, una, wnd, rcvNxt, now);
      WholeWalk(contents, una, wnd, rcvNxt, now);
      AtHead();
      while cur != null
        invariant Place(prev, cur, s.kept, ahead) == Sound && repr == old(repr)
        invariant goal == Rest(s, ahead, una, wnd, rcvNxt, now)
        invariant out == s.out && freed == s.freed && sum == s.sum
        decreases |ahead|
      {
        var sent;
        ghost var before := s;
        sent, sum, freed, prev, cur, s := TakeTurn(prev, cur, una, wnd, rcvNxt, now, sum, freed, s, ahead);
        TurnStep(before, ahead, una, wnd, rcvNxt, now);
        ahead := ahead[1..];
        out := out + sent;
      }
      AtEnd(prev, s.kept, ahead);
      WalkDone(s, una, wnd, rcvNxt, now);
    }
  }
}
