/**
 * `ip_fragment_process` (ip.c:104-238) in place: contexts with a data buffer
 * and a packed coverage mask, the linked list of them and the counter that
 * limits it.
 */
module IpReassembler {
  import opened Words
  import opened Checksum
  import opened IpPacket
  import opened IpReassembly
  import opened Wrappers
  import opened Sequences
  import Mask

  const MASK_WORDS: nat := 2048

  class Context {
    const key: Key
    const data: array<Byte>
    const mask: array<bv32>
    var len: Half
    var timestamp: int
    /** The context as a value. */
    ghost var value: Slot

    ghost predicate Shaped() {
      data.Length == CAPACITY && mask.Length == MASK_WORDS
    }

    ghost predicate Good()
      reads this`len, this`timestamp, this`value, data, mask
    {
      Shaped() && value == Slot(key, len, data[..], Mask.Positions(mask[..]), timestamp)
    }

    /** `ip_fragment_alloc` (ip.c:104-121), with the whole mask cleared. */
    constructor (k: Key)
      ensures fresh(data) && fresh(mask)
      ensures Good() && value == Fresh(k)
    {
      key := k;
      len := 0;
      timestamp := 0;
      data := new Byte[CAPACITY](i => 0);
      mask := new bv32[MASK_WORDS];
      value := Fresh(k);
      new;
      Mask.MaskClr(mask);
      assert data[..] == Zeros(CAPACITY);
    }

    /** The copy, the mask and the length (ip.c:212-219). */
    method Absorb(d: Datagram, later: int)
      requires Good() && Fits(d)
      modifies this`len, this`timestamp, this`value, data, mask
      ensures Good() && value == IpReassembly.Absorb(old(value), d, later)
    {
      ghost var was := data[..];
      var off := d.offset % 0x2000 * 8;
      forall k | 0 <= k < |d.payload| {
        data[off + k] := d.payload[k];
      }
      assert data[..] == Overlay(was, off, d.payload);
      Mask.MaskSet(mask, off, |d.payload|);
      if d.offset / 0x2000 % 2 == 0 {
        len := off + |d.payload|;
      }
      timestamp := later;
      value := IpReassembly.Absorb(value, d, later);
    }

    /** The two tests of ip.c:222-231. */
    method IsComplete() returns (all: bool)
      requires Good()
      ensures all <==> Complete(value)
    {
      if len == 0 { return false; }
      all := Mask.MaskChk(mask, 0, len);
    }
  }

  /** The `next` member of a context, and whether `free` has been called on the context. */
  class Node {
    const context: Context
    var next: Node?
    var freed: bool

    constructor (context: Context, next: Node?)
      ensures this.context == context && this.next == next && !freed
    {
      this.context, this.next, freed := context, next, false;
    }
  }

  /** The list behind `fragments`. */
  class ContextList {
    var fragments: Node?
    ghost var nodes: seq<Node>
    ghost var contents: seq<Context>
    ghost var repr: set<Node>

    /** The node at `i`, or null behind the last. */
    ghost function At(i: nat): Node?
      reads this`nodes
    {
      if i < |nodes| then nodes[i] else null
    }

    /** The node in front of that. */
    ghost function Ahead(i: nat): Node?
      reads this`nodes
    {
      if i == 0 then null else At(i - 1)
    }

    /** `fragments` and the `next` links spell out `nodes`, which hold `contents`. */
    ghost predicate Valid()
      reads this, repr
    {
      && (forall i :: 0 <= i < |nodes| ==> nodes[i] in repr)
      && (forall i, j :: 0 <= i < j < |nodes| ==> nodes[i] != nodes[j])
      && |contents| == |nodes|
      && (forall i :: 0 <= i < |nodes| ==> nodes[i].context == contents[i])
      && fragments == At(0)
      && forall i {:trigger nodes[i].next} :: 0 <= i < |nodes| ==> nodes[i].next == At(i + 1)
    }

    /** Of the nodes in the list only the one at `i` has been freed, if any. */
    ghost predicate FreedAt(i: nat, freed: bool)
      reads this, nodes
    {
      forall j :: 0 <= j < |nodes| ==> (nodes[j].freed <==> j == i && freed)
    }

    /** No node in the list has been freed. */
    ghost predicate Intact()
      reads this, repr
    {
      Valid() && FreedAt(0, false)
    }

    constructor ()
      ensures Intact() && contents == [] && repr == {}
    {
      fragments, nodes, contents, repr := null, [], [], {};
    }

    method Push(c: Context) returns (n: Node)
      requires Intact()
      modifies this
      ensures Intact() && fresh(repr - old(repr))
      ensures contents == [c] + old(contents) && n == At(0)
    {
      n := new Node(c, fragments);
      fragments := n;
      nodes, contents, repr := [n] + nodes, [c] + contents, repr + {n};
    }

    /** Links `prev` to what is behind `entry`. */
    method Unlink(prev: Node?, entry: Node, ghost i: nat) returns (next: Node?)
      requires Valid() && i < |nodes| && entry == At(i) && prev == Ahead(i)
      modifies this, repr`next
      ensures Valid() && repr == old(repr) && next == At(i) && entry !in nodes && prev == Ahead(i)
      ensures nodes == Without(old(nodes), i) && contents == Without(old(contents), i)
    {
      next := entry.next;
      ghost var rest := Without(nodes, i);
      if prev == null {
        fragments := next;
      } else {
        assert prev == rest[i - 1];
        prev.next := next;
      }
      nodes, contents := rest, Without(contents, i);
    }

    /** ip.c:164-169: an expired context leaves the list and the one behind it is freed. */
    method Expel(prev: Node?, entry: Node, ghost i: nat) returns (next: Node?)
      requires Valid() && FreedAt(i, false) && i < |nodes| && entry == At(i) && prev == Ahead(i)
      modifies this, repr
      ensures Valid() && FreedAt(i, true) && repr == old(repr) && next == At(i) && prev == Ahead(i)
      ensures contents == Without(old(contents), i)
    {
      next := Unlink(prev, entry, i);
      if next != null {
        next.freed := true;
      }
    }

    /** The node in front of `n`. */
    method Before(n: Node, ghost at: nat) returns (prev: Node?)
      requires Valid() && at < |nodes| && nodes[at] == n
      ensures prev == Ahead(at)
    {
      prev := null;
      var entry := fragments;
      ghost var i := 0;
      while entry != n
        invariant i <= at && entry == At(i) && prev == Ahead(i)
        decreases at - i
      {
        prev, entry := entry, entry.next;
        i := i + 1;
      }
    }

    /** `ip_fragment_detach` (ip.c:125-141): by identity. */
    method Detach(n: Node, ghost at: nat)
      requires Intact() && at < |nodes| && nodes[at] == n
      modifies this, repr
      ensures Intact() && repr == old(repr) && n.next == null
      ensures contents == Without(old(contents), at)
    {
      var prev := Before(n, at);
      var _ := Unlink(prev, n, at);
      n.next := null;
    }
  }

  // ------------------------------------------------------------ what they hold

  /** Neither context can touch the other. */
  ghost predicate Apart(a: Context, b: Context) {
    a != b && a.data != b.data && a.mask != b.mask
  }

  /** Contexts that share nothing, all in `repr`, and hold `ss`. */
  ghost predicate Hold(cs: seq<Context>, ss: seq<Slot>, repr: set<object>)
    reads repr
  {
    && |cs| == |ss|
    && (forall i :: 0 <= i < |cs| ==>
          cs[i] in repr && cs[i].data in repr && cs[i].mask in repr && cs[i].Good() && cs[i].value == ss[i])
    && forall i, j :: 0 <= i < j < |cs| ==> Apart(cs[i], cs[j])
  }

  lemma HoldWithout(cs: seq<Context>, ss: seq<Slot>, repr: set<object>, i: nat)
    requires Hold(cs, ss, repr) && i < |cs|
    ensures Hold(Without(cs, i), Without(ss, i), repr)
  {
  }

  lemma HoldMore(cs: seq<Context>, ss: seq<Slot>, repr: set<object>, c: Context)
    requires Hold(cs, ss, repr) && c.Good() && c !in repr && c.data !in repr && c.mask !in repr
    ensures Hold([c] + cs, [c.value] + ss, repr + {c, c.data, c.mask})
  {
  }

  /** What the patrol comes to that stands at slot `i`, which is freed or not. */
  ghost function Patrolling(slots: seq<Slot>, i: nat, freed: bool, now: int): Option<seq<Slot>> {
    if i > |slots| then None
    else
      var r := PatrolLoop(slots[i..], freed, now);
      if r.Some? then Some(slots[..i] + r.value) else None
  }

  lemma PatrolNext(slots: seq<Slot>, i: nat, now: int)
    requires i < |slots|
    ensures Patrolling(slots, i, false, now)
            == if Expired(slots[i], now) then Patrolling(Without(slots, i), i, true, now)
               else Patrolling(slots, i + 1, false, now)
    ensures Patrolling(slots, i, true, now) == None
  {
    assert slots[i..][0] == slots[i] && slots[i..][1..] == slots[i + 1..];
    var rest := Without(slots, i);
    assert rest[..i] == slots[..i] && rest[i..] == slots[i + 1..];
    assert slots[..i + 1] == slots[..i] + [slots[i]];
    var r := PatrolLoop(slots[i + 1..], false, now);
    if r.Some? { assert slots[..i] + ([slots[i]] + r.value) == slots[..i + 1] + r.value; }
  }

  lemma PatrolEnds(slots: seq<Slot>, freed: bool, now: int)
    ensures Patrolling(slots, 0, false, now) == PatrolLoop(slots, false, now)
    ensures Patrolling(slots, |slots|, freed, now) == Some(slots)
  {
    assert slots[0..] == slots && slots[..0] == [] && slots[|slots|..] == [] && slots[..|slots|] == slots;
    var r := PatrolLoop(slots, false, now);
    if r.Some? { assert [] + r.value == r.value; }
    assert slots + [] == slots;
  }

  class Reassembler {
    const list: ContextList
    var count: nat
    ghost var slots: seq<Slot>
    /** The contexts and their buffers. */
    ghost var store: set<object>

    ghost predicate Linked()
      reads this, list, list.repr, store
    {
      && list.Valid() && Hold(list.contents, slots, store)
      && this !in store && list !in store && list.repr !! store
    }

    ghost function Model(): Table
      reads this
    {
      Table(slots, count)
    }

    ghost predicate Valid()
      reads this, list, list.repr, store
    {
      Linked() && list.Intact() && TableInv(Model())
    }

    constructor ()
      ensures Valid() && fresh(list) && fresh(list.repr) && fresh(store) && Model() == Table([], 0)
    {
      list := new ContextList();
      count, slots, store := 0, [], {};
    }

    /** An expired context leaves the list. */
    method Drop(prev: Node?, entry: Node, ghost i: nat) returns (next: Node?)
      requires Linked() && list.FreedAt(i, false) && i < |slots| && entry == list.At(i) && prev == list.Ahead(i)
      modifies this`slots, list, list.repr
      ensures Linked() && list.FreedAt(i, true) && next == list.At(i) && prev == list.Ahead(i)
      ensures slots == Without(old(slots), i) && list.repr == old(list.repr)
    {
      HoldWithout(list.contents, slots, store, i);
      next := list.Expel(prev, entry, i);
      slots := Without(slots, i);
    }

    /**
     * `ip_fragment_patrol` (ip.c:155-177) as it is written. False when the loop
     * comes to a context it has freed, after which nothing is defined.
     */
    method PatrolContexts(now: int) returns (ok: bool)
      requires Linked() && list.Intact()
      modifies this`slots, list, list.repr
      ensures list.repr == old(list.repr)
      ensures ok <==> PatrolLoop(old(slots), false, now).Some?
      ensures ok ==> Linked() && list.Intact() && Some(slots) == PatrolLoop(old(slots), false, now)
    {
      ghost var goal := PatrolLoop(slots, false, now);
      PatrolEnds(slots, false, now);
      var prev: Node?, entry := null, list.fragments;
      ghost var i, freed := 0, false;
      while entry != null
        invariant Linked() && list.FreedAt(i, freed) && list.repr == old(list.repr)
        invariant i <= |slots| && entry == list.At(i) && prev == list.Ahead(i)
        invariant Patrolling(slots, i, freed, now) == goal
        decreases |slots| - i
      {
        PatrolNext(slots, i, now);
        if entry.freed { return false; }
        if now - entry.context.timestamp > TIMEOUT {
          entry := Drop(prev, entry, i);
          freed := true;
        } else {
          prev, entry := entry, entry.next;
          i := i + 1;
        }
      }
      PatrolEnds(slots, freed, now);
      return true;
    }

    /** `ip_fragment_search` (ip.c:143-153). */
    method Search(key: Key) returns (entry: Node?)
      requires Linked()
      ensures entry == list.At(Find(slots, key))
    {
      entry := list.fragments;
      ghost var i := 0;
      while entry != null
        invariant i <= |slots| && entry == list.At(i)
        invariant forall j :: 0 <= j < i ==> slots[j].key != key
        decreases |slots| - i
      {
        if entry.context.key == key { return; }
        entry := entry.next;
        i := i + 1;
      }
    }

    method Prepend(c: Context) returns (n: Node)
      requires Linked() && list.Intact() && c.Good()
      requires {c, c.data, c.mask} !! store
      modifies this`slots, this`store, list
      ensures Linked() && list.Intact() && fresh(list.repr - old(list.repr)) && store == old(store) + {c, c.data, c.mask}
      ensures n == list.At(0) && slots == [c.value] + old(slots)
    {
      HoldMore(list.contents, slots, store, c);
      slots, store := [c.value] + slots, store + {c, c.data, c.mask};
      n := list.Push(c);
    }

    /** `ip_fragment_alloc` (ip.c:104-121) and the counter. */
    method Alloc(key: Key) returns (n: Node)
      requires Linked() && list.Intact()
      modifies this, list
      ensures Linked() && list.Intact() && fresh(list.repr - old(list.repr)) && fresh(store - old(store))
      ensures n == list.At(0) && slots == [Fresh(key)] + old(slots) && count == old(count) + 1
    {
      var c := new Context(key);
      count := count + 1;
      n := Prepend(c);
    }

    method AbsorbAt(c: Context, ghost i: nat, d: Datagram, later: int)
      requires Linked() && list.Intact() && i < |slots| && c == list.contents[i] && Fits(d)
      requires Sized(slots[i])
      modifies this`slots, store
      ensures Linked() && list.Intact() && c.value == slots[i]
      ensures slots == old(slots)[i := IpReassembly.Absorb(old(slots)[i], d, later)]
    {
      c.Absorb(d, later);
      slots := slots[i := c.value];
    }

    /** A complete context leaves the list. */
    method Remove(n: Node, ghost i: nat)
      requires Linked() && list.Intact() && i < |slots| && n == list.At(i) && 0 < count
      modifies this`slots, this`count, list, list.repr
      ensures Linked() && list.Intact() && list.repr == old(list.repr)
      ensures slots == Without(old(slots), i) && count == old(count) - 1
    {
      HoldWithout(list.contents, slots, store, i);
      list.Detach(n, i);
      slots, count := Without(slots, i), count - 1;
    }

    /** From a context in the list to the delivery, if it is complete (ip.c:212-237). */
    method Finish(n: Node, ghost i: nat, d: Datagram, later: int) returns (out: Option<Bytes>)
      requires Linked() && list.Intact() && AllSized(slots) && i < |slots| && n == list.At(i) && Fits(d) && 0 < count
      modifies this, list, list.repr, store
      ensures Linked() && list.Intact() && list.repr == old(list.repr) && store == old(store)
      ensures Step(Model(), out) == Update(old(slots), old(count), i, d, later)
    {
      var c := n.context;
      AbsorbAt(c, i, d, later);
      var all := c.IsComplete();
      if !all { return None; }
      out := Some(c.data[..c.len]);
      Remove(n, i);
    }

    /** The first fragment of a datagram to come, with room for a context. */
    method Open(d: Datagram, later: int) returns (out: Option<Bytes>)
      requires Linked() && list.Intact() && AllSized(slots) && Fits(d)
      modifies this, list, list.repr, store
      ensures Linked() && list.Intact() && fresh(list.repr - old(list.repr)) && fresh(store - old(store))
      ensures AllSized([Fresh(KeyOf(d))] + old(slots))
      ensures Step(Model(), out) == Update([Fresh(KeyOf(d))] + old(slots), old(count) + 1, 0, d, later)
    {
      var n := Alloc(Key(d.src, d.dst, d.id, d.protocol));
      out := Finish(n, 0, d, later);
    }

    /** From the search for a context to the end (ip.c:194-237). */
    method Serve(d: Datagram, later: int) returns (out: Option<Bytes>)
      requires Linked() && list.Intact() && AllSized(slots) && |slots| <= count && Fits(d)
      modifies this, list, list.repr, store
      ensures Linked() && list.Intact() && fresh(list.repr - old(list.repr)) && fresh(store - old(store))
      ensures Step(Model(), out) == Proceed(old(slots), old(count), d, later)
    {
      var n := Search(Key(d.src, d.dst, d.id, d.protocol));
      if n != null {
        out := Finish(n, Find(slots, KeyOf(d)), d, later);
      } else if count >= CONTEXTS_MAX {
        out := None;
      } else {
        out := Open(d, later);
      }
    }

    /** `ip_fragment_process` (ip.c:179-238); false when its patrol reads freed memory. */
    method ProcessFragment(d: Datagram, now: int, later: int) returns (ok: bool, out: Option<Bytes>)
      requires Valid() && Fits(d)
      modifies this, list, list.repr, store
      ensures ok <==> ProcessWritten(old(Model()), d, now, later).Some?
      ensures ok ==> Valid() && fresh(list.repr - old(list.repr)) && fresh(store - old(store))
      ensures ok ==> Some(Step(Model(), out)) == ProcessWritten(old(Model()), d, now, later)
    {
      ghost var t := Model();
      ProcessKeepsInv(t, d, now, later);
      PatrolLoopIff(t.slots, now);
      PatrolFilters(t.slots, now);
      out := None;
      ok := PatrolContexts(now);
      if ok {
        out := Serve(d, later);
      }
    }
  }
}
