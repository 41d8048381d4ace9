/**
 * Reassembly (ip.c:104-238) as a function of the table of contexts, and the
 * proof that the contexts do not disturb one another.
 */
module IpReassembly {
  import opened Words
  import opened Checksum
  import opened IpPacket
  import Mask
  import opened Wrappers

  const CAPACITY: nat := 65535
  const CONTEXTS_MAX: nat := 8
  const TIMEOUT: int := 30

  datatype Key = Key(src: Word, dst: Word, id: Half, protocol: Byte)

  /** One context; `cover` is the set of positions its mask stands for. */
  datatype Slot = Slot(key: Key, len: Half, data: Bytes, cover: set<nat>, stamp: int)

  /** The list of contexts and the counter that limits it. */
  datatype Table = Table(slots: seq<Slot>, count: nat)

  // -------------------------------------------------- the fragment's fields

  function KeyOf(d: Datagram): Key {
    Key(d.src, d.dst, d.id, d.protocol)
  }

  /** The header of `d` names the datagram `key`: source, destination, identifier and protocol all agree. */
  predicate Names(d: Datagram, key: Key) {
    d.src == key.src && d.dst == key.dst && d.id == key.id && d.protocol == key.protocol
  }

  /** The headers name the same datagram. */
  predicate SameHeader(d: Datagram, e: Datagram) {
    d.src == e.src && d.dst == e.dst && d.id == e.id && d.protocol == e.protocol
  }

  /** Fragments share a context exactly when all four fields of their headers agree. */
  lemma SameContextIff(d: Datagram, e: Datagram)
    ensures KeyOf(d) == KeyOf(e) <==> SameHeader(d, e)
    ensures forall key :: Names(d, key) <==> KeyOf(d) == key
  {
  }

  function Position(offset: Half): nat {
    offset % 0x2000 * 8
  }

  predicate More(offset: Half) {
    offset / 0x2000 % 2 == 1
  }

  /** The test of ip.c:366. */
  predicate IsFragment(offset: Half) {
    More(offset) || offset % 0x2000 != 0
  }

  /** The receiver reads back the flag, and the position rounded down to eight bytes. */
  lemma OffsetDecodes(done: nat, flag: Half)
    requires done < TWO16 && (flag == 0 || flag == 0x2000)
    ensures var offset := flag + done / 8 % 0x2000;
            && Position(offset) == done / 8 * 8
            && (More(offset) <==> flag == 0x2000)
            && (IsFragment(offset) <==> flag == 0x2000 || done >= 8)
  {
  }

  /** The fragment is not empty and lies inside the data buffer. */
  predicate Fits(d: Datagram) {
    0 < |d.payload| && Position(d.offset) + |d.payload| <= CAPACITY
  }

  // ------------------------------------------------------------ one context

  function Zeros(n: nat): Bytes
    ensures |Zeros(n)| == n
  {
    seq(n, i => 0)
  }

  function Fresh(key: Key): Slot {
    Slot(key, 0, Zeros(CAPACITY), {}, 0)
  }

  predicate Sized(s: Slot) {
    |s.data| == CAPACITY
  }

  function Overlay(data: Bytes, off: nat, part: Bytes): (r: Bytes)
    requires off + |part| <= |data|
    ensures |r| == |data|
    ensures forall p :: 0 <= p < |r| ==> r[p] == if off <= p < off + |part| then part[p - off] else data[p]
  {
    data[..off] + part + data[off + |part|..]
  }

  ghost function Absorb(s: Slot, d: Datagram, later: int): Slot
    requires Sized(s) && Fits(d)
  {
    var off := Position(d.offset);
    s.(data := Overlay(s.data, off, d.payload),
       cover := s.cover + Mask.Range(off, off + |d.payload|),
       len := if More(d.offset) then s.len else off + |d.payload|,
       stamp := later)
  }

  ghost predicate Complete(s: Slot) {
    s.len != 0 && Mask.Range(0, s.len) <= s.cover
  }

  datatype Step<S> = Step(next: S, out: Option<Bytes>)

  /** What a datagram's fragments do when nothing else is in the table. */
  ghost function Alone(s: Option<Slot>, d: Datagram, later: int): Step<Option<Slot>>
    requires Fits(d) && (s.Some? ==> Sized(s.value))
  {
    var x := Absorb(if s.Some? then s.value else Fresh(KeyOf(d)), d, later);
    if Complete(x) then Step(None, Some(x.data[..x.len])) else Step(Some(x), None)
  }

  /** Position `p` is among those the fragment brings: eight times its offset, and on from there. */
  predicate Brings(d: Datagram, p: int) {
    8 * (d.offset % 8192) <= p < 8 * (d.offset % 8192) + |d.payload|
  }

  /** The total length a context knows after `d`: the fragment without the flag for more says it, the latest if several do. */
  function LengthAfter(len: Half, d: Datagram): nat {
    if d.offset / 8192 % 2 == 1 then len else 8 * (d.offset % 8192) + |d.payload|
  }

  /** What a fragment makes of a context, position by position. */
  lemma AbsorbIs(s: Slot, d: Datagram, later: int)
    requires Sized(s) && Fits(d)
    ensures var x := Absorb(s, d, later);
            && Sized(x) && x.key == s.key && x.stamp == later && x.len == LengthAfter(s.len, d)
            && (forall p :: 0 <= p < CAPACITY ==>
                  x.data[p] == if Brings(d, p) then d.payload[p - 8 * (d.offset % 8192)] else s.data[p])
            && (forall p: nat :: p in x.cover <==> p in s.cover || Brings(d, p))
  {
  }

  /** A fragment delivers its datagram exactly when the length is known and every position below it has been brought. */
  lemma DeliversIff(s: Option<Slot>, d: Datagram, later: int)
    requires Fits(d) && (s.Some? ==> Sized(s.value))
    ensures var r := Alone(s, d, later);
            var len := LengthAfter(if s.Some? then s.value.len else 0, d);
            && (r.out.Some? <==>
                  len > 0 && forall p: nat :: p < len ==> Brings(d, p) || (s.Some? && p in s.value.cover))
            && (r.out.Some? <==> r.next.None?)
            && (r.out.Some? ==> |r.out.value| == len <= CAPACITY)
            && (r.out.Some? ==> forall p :: 0 <= p < len ==>
                  r.out.value[p] == if Brings(d, p) then d.payload[p - 8 * (d.offset % 8192)]
                                    else if s.Some? then s.value.data[p] else 0)
  {
    var c := if s.Some? then s.value else Fresh(KeyOf(d));
    AbsorbIs(c, d, later);
    CompleteIs(Absorb(c, d, later));
  }

  lemma CompleteIs(x: Slot)
    ensures Complete(x) <==> x.len > 0 && forall p: nat :: p < x.len ==> p in x.cover
  {
    if Complete(x) {
      forall p: nat | p < x.len
        ensures p in x.cover
      {
        assert p in Mask.Range(0, x.len);
      }
    }
  }

  // -------------------------------------------------------------- the table

  predicate Expired(s: Slot, now: int) {
    now - s.stamp > TIMEOUT
  }

  /** The patrol as it is meant: expired contexts leave the list. */
  function Patrol(slots: seq<Slot>, now: int): seq<Slot> {
    if slots == [] then []
    else (if Expired(slots[0], now) then [] else [slots[0]]) + Patrol(slots[1..], now)
  }

  function Prepended<T>(x: T, r: Option<seq<T>>): Option<seq<T>> {
    if r.Some? then Some([x] + r.value) else None
  }

  /**
   * The loop of ip.c:161-175 as it is written, from the context it stands at:
   * it takes an expired context off the list and frees the one behind it, if
   * there is one. `freed` says that the first context has been freed; reading
   * it leaves the rest undefined.
   */
  function PatrolLoop(slots: seq<Slot>, freed: bool, now: int): Option<seq<Slot>> {
    if slots == [] then Some([])
    else if freed then None
    else if Expired(slots[0], now) then PatrolLoop(slots[1..], true, now)
    else Prepended(slots[0], PatrolLoop(slots[1..], false, now))
  }

  /** No expired context has a context behind it. */
  predicate OnlyLastExpired(slots: seq<Slot>, now: int) {
    forall i :: 0 <= i < |slots| - 1 ==> !Expired(slots[i], now)
  }

  /** The index of the first context with this key, or the length. */
  function Find(slots: seq<Slot>, key: Key): (i: nat)
    ensures i <= |slots|
    ensures i < |slots| ==> slots[i].key == key
    ensures forall j :: 0 <= j < i ==> slots[j].key != key
  {
    if slots == [] || slots[0].key == key then 0 else 1 + Find(slots[1..], key)
  }

  function Lookup(slots: seq<Slot>, key: Key): Option<Slot> {
    var i := Find(slots, key);
    if i < |slots| then Some(slots[i]) else None
  }

  predicate AllSized(slots: seq<Slot>) {
    forall i :: 0 <= i < |slots| ==> Sized(slots[i])
  }

  /** From a list that holds the context at `j`: copy, mark, and detach it if complete. */
  ghost function Update(slots: seq<Slot>, count: nat, j: nat, d: Datagram, later: int): Step<Table>
    requires AllSized(slots) && j < |slots| && 0 < count && Fits(d)
  {
    var x := Absorb(slots[j], d, later);
    if Complete(x)
    then Step(Table(slots[..j] + slots[j + 1..], count - 1), Some(x.data[..x.len]))
    else Step(Table(slots[j := x], count), None)
  }

  /** `ip_fragment_process` past the patrol, which has left `live`. */
  ghost function Proceed(live: seq<Slot>, count: nat, d: Datagram, later: int): Step<Table>
    requires AllSized(live) && |live| <= count && Fits(d)
  {
    var i := Find(live, KeyOf(d));
    if i < |live| then Update(live, count, i, d, later)
    else if count >= CONTEXTS_MAX then Step(Table(live, count), None)
    else Update([Fresh(KeyOf(d))] + live, count + 1, 0, d, later)
  }

  /**
   * `ip_fragment_process` with the patrol as it is meant: the clock reads `now`
   * for the patrol and `later` for the stamp. The time of the last patrol is
   * never recorded (ip.c:184, 190), so that every call patrols.
   */
  ghost function Process(t: Table, d: Datagram, now: int, later: int): Step<Table>
    requires TableInv(t) && Fits(d)
  {
    PatrolFilters(t.slots, now);
    Proceed(Patrol(t.slots, now), t.count, d, later)
  }

  /** `ip_fragment_process` as it is written; None once it has read freed memory. */
  ghost function ProcessWritten(t: Table, d: Datagram, now: int, later: int): Option<Step<Table>>
    requires TableInv(t) && Fits(d)
  {
    PatrolLoopIff(t.slots, now);
    PatrolFilters(t.slots, now);
    var live := PatrolLoop(t.slots, false, now);
    if live.Some? then Some(Proceed(live.value, t.count, d, later)) else None
  }

  // -------------------------------------------------------------- invariant

  ghost predicate Distinct(slots: seq<Slot>) {
    forall i, j :: 0 <= i < j < |slots| ==> slots[i].key != slots[j].key
  }

  ghost predicate Unfinished(slots: seq<Slot>) {
    forall i :: 0 <= i < |slots| ==> !Complete(slots[i])
  }

  /** Distinct keys, at most eight contexts, none of them complete. */
  ghost predicate TableInv(t: Table) {
    && AllSized(t.slots) && Distinct(t.slots) && Unfinished(t.slots)
    && |t.slots| <= t.count <= CONTEXTS_MAX
  }

  /** The patrol keeps, in order, exactly the contexts that have not expired. */
  lemma {:induction false} PatrolFilters(slots: seq<Slot>, now: int)
    ensures |Patrol(slots, now)| <= |slots|
    ensures forall i :: 0 <= i < |Patrol(slots, now)| ==>
              Patrol(slots, now)[i] in slots && !Expired(Patrol(slots, now)[i], now)
    ensures forall i :: 0 <= i < |slots| && !Expired(slots[i], now) ==> slots[i] in Patrol(slots, now)
    ensures AllSized(slots) ==> AllSized(Patrol(slots, now))
  {
    if slots != [] { PatrolFilters(slots[1..], now); }
  }

  /**
   * The loop does what is meant exactly when no expired context has a context
   * behind it; otherwise it reads a context it has freed.
   */
  lemma {:induction false} PatrolLoopIff(slots: seq<Slot>, now: int)
    ensures PatrolLoop(slots, false, now)
            == if OnlyLastExpired(slots, now) then Some(Patrol(slots, now)) else None
  {
    if slots != [] {
      var rest := slots[1..];
      PatrolLoopIff(rest, now);
      assert [] + Patrol(rest, now) == Patrol(rest, now);
      assert forall i :: 0 < i < |slots| ==> slots[i] == rest[i - 1];
      assert forall i :: 0 <= i < |rest| ==> rest[i] == slots[i + 1];
    }
  }

  /** So does `ip_fragment_process`. */
  lemma ProcessWrittenIff(t: Table, d: Datagram, now: int, later: int)
    requires TableInv(t) && Fits(d)
    ensures ProcessWritten(t, d, now, later)
            == if OnlyLastExpired(t.slots, now) then Some(Process(t, d, now, later)) else None
  {
    PatrolLoopIff(t.slots, now);
  }

  lemma {:induction false} PatrolDistinct(slots: seq<Slot>, now: int)
    requires Distinct(slots)
    ensures Distinct(Patrol(slots, now))
  {
    if slots != [] {
      PatrolDistinct(slots[1..], now);
      PatrolFilters(slots[1..], now);
    }
  }

  lemma FoundIs(slots: seq<Slot>, s: Slot)
    requires Distinct(slots) && s in slots
    ensures Lookup(slots, s.key) == Some(s)
  {
    var i :| 0 <= i < |slots| && slots[i] == s;
    var f := Find(slots, s.key);
  }

  lemma NotFound(slots: seq<Slot>, key: Key)
    ensures Lookup(slots, key).None? <==> forall i :: 0 <= i < |slots| ==> slots[i].key != key
  {
  }

  /** What a patrol leaves of the context of `key`. */
  function Spared(slots: seq<Slot>, now: int, key: Key): Option<Slot> {
    var s := Lookup(slots, key);
    if s.Some? && Expired(s.value, now) then None else s
  }

  /**
   * If no expired context has a context behind it, the loop forgets an expired
   * context and still finds every other; and it has no result otherwise.
   */
  lemma PatrolLookup(slots: seq<Slot>, now: int, key: Key)
    requires Distinct(slots)
    ensures var live := PatrolLoop(slots, false, now);
            if OnlyLastExpired(slots, now)
            then live.Some? && Lookup(live.value, key) == Spared(slots, now, key)
            else live.None?
  {
    PatrolLoopIff(slots, now);
    MeantLookup(slots, now, key);
  }

  lemma MeantLookup(slots: seq<Slot>, now: int, key: Key)
    requires Distinct(slots)
    ensures Lookup(Patrol(slots, now), key) == Spared(slots, now, key)
  {
    PatrolFilters(slots, now);
    PatrolDistinct(slots, now);
    var live := Patrol(slots, now);
    var s := Lookup(slots, key);
    var l := Lookup(live, key);
    if l.Some? {
      assert l.value in slots;
      FoundIs(slots, l.value);
    }
    if s.Some? && !Expired(s.value, now) {
      FoundIs(live, s.value);
    }
  }

  lemma UpdateKeepsInv(slots: seq<Slot>, count: nat, j: nat, d: Datagram, later: int)
    requires AllSized(slots) && j < |slots| && 0 < count && Fits(d)
    requires Distinct(slots) && |slots| <= count <= CONTEXTS_MAX
    requires forall i :: 0 <= i < |slots| && i != j ==> !Complete(slots[i])
    ensures TableInv(Update(slots, count, j, d, later).next)
  {
    var x := Absorb(slots[j], d, later);
    var r := if Complete(x) then slots[..j] + slots[j + 1..] else slots[j := x];
    assert forall i :: 0 <= i < |r| ==>
        r[i] == if !Complete(x) then (if i == j then x else slots[i])
                else if i < j then slots[i] else slots[i + 1];
  }

  /** Every step that has a result keeps the keys distinct, the contexts unfinished and at most eight. */
  lemma ProcessKeepsInv(t: Table, d: Datagram, now: int, later: int)
    requires TableInv(t) && Fits(d)
    ensures var p := ProcessWritten(t, d, now, later);
            if OnlyLastExpired(t.slots, now) then p.Some? && TableInv(p.value.next) else p.None?
  {
    ProcessWrittenIff(t, d, now, later);
    MeantKeepsInv(t, d, now, later);
  }

  lemma MeantKeepsInv(t: Table, d: Datagram, now: int, later: int)
    requires TableInv(t) && Fits(d)
    ensures TableInv(Process(t, d, now, later).next)
  {
    var live := Patrol(t.slots, now);
    PatrolFilters(t.slots, now);
    PatrolDistinct(t.slots, now);
    var i := Find(live, KeyOf(d));
    if i < |live| {
      UpdateKeepsInv(live, t.count, i, d, later);
    } else if t.count < CONTEXTS_MAX {
      UpdateKeepsInv([Fresh(KeyOf(d))] + live, t.count + 1, 0, d, later);
    }
  }

  /** A fragment without a context finds no slot: it is dropped, and the patrol is all that happens. */
  lemma FullDrops(t: Table, d: Datagram, now: int, later: int)
    requires TableInv(t) && Fits(d) && OnlyLastExpired(t.slots, now)
    requires forall i :: 0 <= i < |t.slots| ==> !Names(d, t.slots[i].key) || Expired(t.slots[i], now)
    ensures var p := ProcessWritten(t, d, now, later);
            t.count >= 8 ==> p == Some(Step(Table(Patrol(t.slots, now), t.count), None))
    ensures var p := ProcessWritten(t, d, now, later);
            t.count < 8 ==> p.Some? && p.value.next.count == t.count + if p.value.out.Some? then 0 else 1
  {
    ProcessWrittenIff(t, d, now, later);
    PatrolFilters(t.slots, now);
    var live := Patrol(t.slots, now);
    SameContextIff(d, d);
    assert Find(live, KeyOf(d)) == |live|;
  }

  // -------------------------------------------------------------- isolation

  /** The list after an update: `x` in place `j`, or nothing there. */
  ghost function Replaced(slots: seq<Slot>, j: nat, x: Slot): (r: seq<Slot>)
    requires j < |slots|
    ensures |r| == if Complete(x) then |slots| - 1 else |slots|
    ensures forall i :: 0 <= i < |r| ==>
              r[i] == if !Complete(x) then (if i == j then x else slots[i])
                      else if i < j then slots[i] else slots[i + 1]
  {
    if Complete(x) then slots[..j] + slots[j + 1..] else slots[j := x]
  }

  lemma ReplacedLookup(slots: seq<Slot>, j: nat, x: Slot, key: Key)
    requires Distinct(slots) && j < |slots| && slots[j].key == x.key
    ensures Lookup(Replaced(slots, j, x), key)
            == if key != x.key then Lookup(slots, key) else if Complete(x) then None else Some(x)
  {
    var r := Replaced(slots, j, x);
    assert Distinct(r);
    var l := Lookup(slots, key);
    if key == x.key {
      if Complete(x) {
        NotFound(r, key);
      } else {
        assert r[j] in r;
        FoundIs(r, x);
      }
    } else if l.Some? {
      var i := Find(slots, key);
      assert r[if Complete(x) && j < i then i - 1 else i] == l.value;
      FoundIs(r, l.value);
    } else {
      NotFound(slots, key);
      NotFound(r, key);
    }
  }

  lemma UpdateLookup(slots: seq<Slot>, count: nat, j: nat, d: Datagram, later: int, key: Key)
    requires AllSized(slots) && j < |slots| && 0 < count && Fits(d)
    requires Distinct(slots) && slots[j].key == KeyOf(d)
    ensures var u := Update(slots, count, j, d, later);
            var x := Absorb(slots[j], d, later);
            && u.out == (if Complete(x) then Some(x.data[..x.len]) else None)
            && Lookup(u.next.slots, key) == if key != KeyOf(d) then Lookup(slots, key)
                                            else if Complete(x) then None else Some(x)
  {
    ReplacedLookup(slots, j, Absorb(slots[j], d, later), key);
  }

  /**
   * The patrol of a step has a result, the step finds `key`'s context or room
   * for one, and `key`'s context has not expired.
   */
  predicate Served(t: Table, d: Datagram, now: int, key: Key) {
    var s := Lookup(t.slots, key);
    && OnlyLastExpired(t.slots, now)
    && (s.Some? ==> !Expired(s.value, now))
    && (s.None? && Names(d, key) ==> t.count < CONTEXTS_MAX)
  }

  /** `p` is, for the datagram `key`, a step of it alone if the header of `d` names it, and no step otherwise. */
  ghost predicate Isolated(t: Table, d: Datagram, later: int, key: Key, p: Step<Table>)
    requires Fits(d)
  {
    var s := Lookup(t.slots, key);
    if Names(d, key)
    then (s.Some? ==> Sized(s.value)) && Step(Lookup(p.next.slots, key), p.out) == Alone(s, d, later)
    else Lookup(p.next.slots, key) == s
  }

  /**
   * One step of the table is one step of the fragment's own datagram alone,
   * and no step for any other.
   */
  lemma StepIsolated(t: Table, d: Datagram, now: int, later: int, key: Key)
    requires TableInv(t) && Fits(d) && Served(t, d, now, key)
    ensures var p := ProcessWritten(t, d, now, later); p.Some? && Isolated(t, d, later, key, p.value)
  {
    ProcessWrittenIff(t, d, now, later);
    MeantIsolated(t, d, now, later, key);
  }

  lemma MeantIsolated(t: Table, d: Datagram, now: int, later: int, key: Key)
    requires TableInv(t) && Fits(d) && Served(t, d, now, key)
    ensures Isolated(t, d, later, key, Process(t, d, now, later))
  {
    var live := Patrol(t.slots, now);
    PatrolFilters(t.slots, now);
    PatrolDistinct(t.slots, now);
    MeantLookup(t.slots, now, key);
    var i := Find(live, KeyOf(d));
    if i < |live| {
      UpdateLookup(live, t.count, i, d, later, key);
    } else if t.count < CONTEXTS_MAX {
      var slots := [Fresh(KeyOf(d))] + live;
      UpdateLookup(slots, t.count + 1, 0, d, later, key);
      if key != KeyOf(d) { LookupBehind(Fresh(KeyOf(d)), live, key); }
    }
  }

  lemma LookupBehind(s: Slot, slots: seq<Slot>, key: Key)
    requires s.key != key
    ensures Lookup([s] + slots, key) == Lookup(slots, key)
  {
    assert ([s] + slots)[1..] == slots;
  }
}
