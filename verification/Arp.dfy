/**
 * The ARP table (arp.c) as a state machine over its critical sections. A
 * lookup that waits is split at the wait, and a received message at the point
 * where the lock is released between update and insert (arp.c:294-300).
 */
module Arp {
  import opened Words
  import opened Wrappers

  const TABLE_SIZE: nat := 4096
  const ENTRY_TIMEOUT: int := 300
  const PATROL_PERIOD: int := 10

  /** A 48-bit hardware address; 0 is `ETHERNET_ADDR_ANY`. */
  type Ha = x: int | 0 <= x < 0x1_0000_0000_0000
  const ANY: Ha := 0

  datatype Netif = Netif(dev: nat, unicast: Word)

  /** A saved packet; `id` names the buffer it was copied to. */
  datatype Held = Held(id: nat, bytes: seq<Byte>)

  datatype Entry = Entry(used: bool, pa: Word, ha: Ha, stamp: int, data: Option<Held>, netif: Option<Netif>)

  const CLEAR := Entry(false, 0, ANY, 0, None, None)

  // ------------------------------------------------------------- the table

  /** The first free entry, or the length. */
  function Freespace(t: seq<Entry>): (i: nat)
    ensures i <= |t|
    ensures i < |t| ==> !t[i].used
    ensures forall j :: 0 <= j < i ==> t[j].used
  {
    if t == [] || !t[0].used then 0 else 1 + Freespace(t[1..])
  }

  /** The first used entry for `pa`, or the length. */
  function Select(t: seq<Entry>, pa: Word): (i: nat)
    ensures i <= |t|
    ensures i < |t| ==> t[i].used && t[i].pa == pa
    ensures forall j :: 0 <= j < i ==> !(t[j].used && t[j].pa == pa)
  {
    if t == [] || (t[0].used && t[0].pa == pa) then 0 else 1 + Select(t[1..], pa)
  }

  function Inserted(t: seq<Entry>, pa: Word, ha: Ha, now: int): seq<Entry> {
    var i := Freespace(t);
    if i == |t| then t else t[i := t[i].(used := true, pa := pa, ha := ha, stamp := now)]
  }

  // ------------------------------------------------- the machine with history

  /** What a saved packet was for. */
  datatype Parcel = Parcel(pa: Word, dev: nat, bytes: seq<Byte>)

  datatype Cause = Expiry | Timeout

  /** What became of a saved packet. */
  datatype Fate = Sent(id: nat, ha: Ha, dev: nat, bytes: seq<Byte>) | Lost(id: nat, cause: Cause)

  /**
   * `table` and `timestamp` are the state of arp.c; `born` lists the packets
   * ever saved, `log` what became of them, `heard` the messages received.
   */
  datatype State = State(table: seq<Entry>, timestamp: int,
                         born: seq<Parcel>, log: seq<Fate>, heard: set<(Word, Ha)>)

  datatype Answer = Found(ha: Ha) | Waits(slot: nat) | Query | Error

  /** `arp_entry_clear` (arp.c:162-173). */
  function ClearAt(s: State, i: nat, cause: Cause): State
    requires i < |s.table|
  {
    s.(table := s.table[i := CLEAR],
       log := s.log + if s.table[i].data.Some? then [Lost(s.table[i].data.value.id, cause)] else [])
  }

  /** `arp_table_patrol` (arp.c:241-252), its first `n` entries. */
  function PatrolTo(s: State, n: nat): (r: State)
    requires n <= |s.table|
    ensures |r.table| == |s.table|
  {
    if n == 0 then s
    else
      var p := PatrolTo(s, n - 1);
      if p.table[n - 1].used && p.timestamp - p.table[n - 1].stamp > ENTRY_TIMEOUT
      then ClearAt(p, n - 1, Expiry) else p
  }

  /** The device a saved packet goes out on. */
  function TxDevice(e: Entry, dev: nat): nat {
    if e.netif.Some? then e.netif.value.dev else dev
  }

  /** `arp_table_update` (arp.c:131-160) of the entry found. */
  function ResolveAt(s: State, i: nat, dev: nat, ha: Ha, now: int): State
    requires i < |s.table|
  {
    var e := s.table[i];
    s.(table := s.table[i := e.(ha := ha, stamp := now, data := None)],
       log := s.log + if e.data.Some? then [Sent(e.data.value.id, ha, TxDevice(e, dev), e.data.value.bytes)] else [])
  }

  function Hear(s: State, pa: Word, ha: Ha): State {
    s.(heard := s.heard + {(pa, ha)})
  }

  function Patrolled(s: State, now: int): State {
    if now - s.timestamp > PATROL_PERIOD then PatrolTo(s.(timestamp := now), |s.table|) else s
  }

  datatype Updated = Updated(next: State, merged: bool)

  /** The first critical section of `arp_rx` (arp.c:285-295). */
  function RxUpdate(s: State, dev: nat, spa: Word, sha: Ha, now: int): Updated {
    var p := Patrolled(Hear(s, spa, sha), now);
    var i := Select(p.table, spa);
    if i == |p.table| then Updated(p, false) else Updated(ResolveAt(p, i, dev, sha, now), true)
  }

  /** The second critical section of `arp_rx` (arp.c:300-304). */
  function RxInsert(s: State, spa: Word, sha: Ha, now: int): State {
    Hear(s, spa, sha).(table := Inserted(s.table, spa, sha, now))
  }

  datatype Resolved = Resolved(next: State, answer: Answer)

  /** A new entry for `pa` in the free slot `i`, with the packet saved (arp.c:352-376). */
  function ParkAt(s: State, i: nat, netif: Netif, pa: Word, data: Option<seq<Byte>>, now: int): State
    requires i < |s.table|
  {
    var e := s.table[i];
    var held := if data.Some? then Some(Held(|s.born|, data.value)) else e.data;
    s.(table := s.table[i := e.(used := true, pa := pa, stamp := now, data := held, netif := Some(netif))],
       born := s.born + if data.Some? then [Parcel(pa, netif.dev, data.value)] else [])
  }

  /** `arp_resolve` up to its wait or its return (arp.c:313-379). */
  function Resolve(s: State, netif: Netif, pa: Word, data: Option<seq<Byte>>, now: int): Resolved {
    var i := Select(s.table, pa);
    if i < |s.table| then
      if s.table[i].ha == ANY then Resolved(s, Waits(i)) else Resolved(s, Found(s.table[i].ha))
    else
      var f := Freespace(s.table);
      if f == |s.table| then Resolved(s, Error) else Resolved(ParkAt(s, f, netif, pa, data, now), Query)
  }

  /** `arp_resolve` after its wait on entry `slot` (arp.c:337-349). */
  function Wake(s: State, slot: nat, timedOut: bool): Resolved
    requires slot < |s.table|
  {
    var e := s.table[slot];
    if !e.used || timedOut then Resolved(if e.used then ClearAt(s, slot, Timeout) else s, Error)
    else Resolved(s, Found(e.ha))
  }

  datatype Event =
    | Message(dev: nat, spa: Word, sha: Ha, now: int)
    | Insertion(spa: Word, sha: Ha, now: int)
    | Lookup(netif: Netif, pa: Word, data: Option<seq<Byte>>, now: int)
    | Waking(slot: nat, timedOut: bool)

  function Apply(s: State, e: Event): State {
    match e
    case Message(dev, spa, sha, now) => RxUpdate(s, dev, spa, sha, now).next
    case Insertion(spa, sha, now) => RxInsert(s, spa, sha, now)
    case Lookup(netif, pa, data, now) => Resolve(s, netif, pa, data, now).next
    case Waking(slot, timedOut) => if slot < |s.table| then Wake(s, slot, timedOut).next else s
  }

  function Start(now: int): State {
    State(seq(TABLE_SIZE, i => CLEAR), now, [], [], {})
  }

  // -------------------------------------------------------------- invariant

  ghost predicate EntryOk(e: Entry, born: seq<Parcel>, heard: set<(Word, Ha)>) {
    && (!e.used ==> e.data.None? && e.ha == ANY)
    && (e.ha != ANY ==> (e.pa, e.ha) in heard)
    && (e.data.Some? ==>
          && e.ha == ANY && e.netif.Some? && e.data.value.id < |born|
          && born[e.data.value.id] == Parcel(e.pa, e.netif.value.dev, e.data.value.bytes))
  }

  ghost predicate FateOk(f: Fate, born: seq<Parcel>, heard: set<(Word, Ha)>) {
    && f.id < |born|
    && (f.Sent? ==> (born[f.id].pa, f.ha) in heard && f.dev == born[f.id].dev && f.bytes == born[f.id].bytes)
  }

  ghost predicate Holds(t: seq<Entry>, i: nat, id: nat) {
    i < |t| && t[i].data.Some? && t[i].data.value.id == id
  }

  ghost predicate Parked(t: seq<Entry>, id: nat) {
    exists i :: Holds(t, i, id)
  }

  ghost predicate Settled(log: seq<Fate>, id: nat) {
    exists k :: 0 <= k < |log| && log[k].id == id
  }

  /** No packet is held twice, and none that has met its fate is held. */
  ghost predicate Once(t: seq<Entry>, log: seq<Fate>) {
    && (forall i, j, id :: Holds(t, i, id) && Holds(t, j, id) ==> i == j)
    && (forall k, l :: 0 <= k < l < |log| ==> log[k].id != log[l].id)
    && (forall i, k :: 0 <= k < |log| ==> !Holds(t, i, log[k].id))
  }

  ghost predicate Inv(s: State) {
    && (forall i :: 0 <= i < |s.table| ==> EntryOk(s.table[i], s.born, s.heard))
    && (forall k :: 0 <= k < |s.log| ==> FateOk(s.log[k], s.born, s.heard))
    && Once(s.table, s.log)
    && forall id: nat :: id < |s.born| ==> Parked(s.table, id) || Settled(s.log, id)
  }

  /** Entry `i` of `t` becomes `e`, which holds nothing; what it held gets its fate. */
  ghost predicate Moves(s: State, i: nat, e: Entry, f: Fate, n: State) {
    && i < |s.table| && e.data.None?
    && n.table == s.table[i := e] && n.born == s.born && n.heard == s.heard
    && if s.table[i].data.Some? then f.id == s.table[i].data.value.id && n.log == s.log + [f] else n.log == s.log
  }

  lemma MovesHolds(s: State, i: nat, e: Entry, f: Fate, n: State)
    requires Moves(s, i, e, f, n)
    ensures forall j, id :: Holds(n.table, j, id) <==> j != i && Holds(s.table, j, id)
    ensures forall id :: Settled(n.log, id) <==> Settled(s.log, id) || Holds(s.table, i, id)
  {
    forall id
      ensures Settled(n.log, id) <==> Settled(s.log, id) || Holds(s.table, i, id)
    {
      if Settled(s.log, id) {
        var k :| 0 <= k < |s.log| && s.log[k].id == id;
        assert n.log[k].id == id;
      }
      if Holds(s.table, i, id) { assert n.log[|s.log|].id == id; }
    }
  }

  lemma MovesOnce(s: State, i: nat, e: Entry, f: Fate, n: State)
    requires Once(s.table, s.log) && Moves(s, i, e, f, n)
    ensures Once(n.table, n.log)
  {
    MovesHolds(s, i, e, f, n);
    if s.table[i].data.Some? { assert Holds(s.table, i, f.id); }
  }

  lemma MovesKeeps(s: State, i: nat, e: Entry, f: Fate, n: State)
    requires Inv(s) && Moves(s, i, e, f, n)
    requires EntryOk(e, s.born, s.heard)
    requires s.table[i].data.Some? ==> FateOk(f, s.born, s.heard)
    ensures Inv(n)
  {
    MovesOnce(s, i, e, f, n);
    MovesHolds(s, i, e, f, n);
    forall id: nat | id < |n.born|
      ensures Parked(n.table, id) || Settled(n.log, id)
    {
      if Parked(s.table, id) {
        var j :| Holds(s.table, j, id);
        if j != i { assert Holds(n.table, j, id); }
      }
    }
  }

  lemma ClearKeeps(s: State, i: nat, cause: Cause)
    requires Inv(s) && i < |s.table|
    ensures Inv(ClearAt(s, i, cause))
  {
    var f := Lost(if s.table[i].data.Some? then s.table[i].data.value.id else 0, cause);
    MovesKeeps(s, i, CLEAR, f, ClearAt(s, i, cause));
  }

  lemma PatrolTurnKeeps(p: State, i: nat)
    requires Inv(p) && i < |p.table|
    ensures Inv(if p.table[i].used && p.timestamp - p.table[i].stamp > ENTRY_TIMEOUT then ClearAt(p, i, Expiry) else p)
  {
    ClearKeeps(p, i, Expiry);
  }

  lemma {:induction false} PatrolKeeps(s: State, n: nat)
    requires Inv(s) && n <= |s.table|
    ensures Inv(PatrolTo(s, n))
    ensures PatrolTo(s, n).heard == s.heard && PatrolTo(s, n).born == s.born
  {
    if n > 0 {
      PatrolKeeps(s, n - 1);
      PatrolTurnKeeps(PatrolTo(s, n - 1), n - 1);
    }
  }

  lemma ResolveAtKeeps(s: State, i: nat, dev: nat, ha: Ha, now: int)
    requires Inv(s) && i < |s.table| && s.table[i].used && (s.table[i].pa, ha) in s.heard
    ensures Inv(ResolveAt(s, i, dev, ha, now))
  {
    var e := s.table[i];
    var f := if e.data.Some? then Sent(e.data.value.id, ha, TxDevice(e, dev), e.data.value.bytes)
             else Lost(0, Expiry);
    MovesKeeps(s, i, e.(ha := ha, stamp := now, data := None), f, ResolveAt(s, i, dev, ha, now));
  }

  lemma ParkHolds(s: State, i: nat, netif: Netif, pa: Word, data: Option<seq<Byte>>, now: int)
    requires Inv(s) && i < |s.table| && !s.table[i].used
    ensures var t := ParkAt(s, i, netif, pa, data, now).table;
            forall j, id :: Holds(t, j, id) <==>
              if j == i then data.Some? && id == |s.born| else Holds(s.table, j, id)
  {
    assert EntryOk(s.table[i], s.born, s.heard);
  }

  lemma ParkKeeps(s: State, i: nat, netif: Netif, pa: Word, data: Option<seq<Byte>>, now: int)
    requires Inv(s) && i < |s.table| && !s.table[i].used
    ensures Inv(ParkAt(s, i, netif, pa, data, now))
  {
    var n := ParkAt(s, i, netif, pa, data, now);
    assert EntryOk(s.table[i], s.born, s.heard);
    ParkHolds(s, i, netif, pa, data, now);
    assert Once(n.table, n.log) by {
      assert forall j: nat, id: nat :: Holds(s.table, j, id) ==> id < |s.born|;
    }
    forall id: nat | id < |n.born|
      ensures Parked(n.table, id) || Settled(n.log, id)
    {
      if id == |s.born| {
        assert Holds(n.table, i, id);
      } else if Parked(s.table, id) {
        var j :| Holds(s.table, j, id);
        assert Holds(n.table, j, id);
      }
    }
  }

  lemma InsertKeeps(s: State, spa: Word, sha: Ha, now: int)
    requires Inv(s)
    ensures Inv(RxInsert(s, spa, sha, now))
  {
    var i := Freespace(s.table);
    var h := Hear(s, spa, sha);
    if i < |s.table| {
      var e := s.table[i].(used := true, pa := spa, ha := sha, stamp := now);
      MovesKeeps(h, i, e, Lost(0, Expiry), RxInsert(s, spa, sha, now));
    }
  }

  /** Every critical section keeps the invariant. */
  lemma StepKeeps(s: State, e: Event)
    requires Inv(s)
    ensures Inv(Apply(s, e))
  {
    match e
    case Message(dev, spa, sha, now) =>
      var h := Hear(s, spa, sha);
      if now - h.timestamp > PATROL_PERIOD { PatrolKeeps(h.(timestamp := now), |h.table|); }
      var p := Patrolled(h, now);
      var i := Select(p.table, spa);
      if i < |p.table| { ResolveAtKeeps(p, i, dev, sha, now); }
    case Insertion(spa, sha, now) =>
      InsertKeeps(s, spa, sha, now);
    case Lookup(netif, pa, data, now) =>
      var i, f := Select(s.table, pa), Freespace(s.table);
      if i == |s.table| && f < |s.table| { ParkKeeps(s, f, netif, pa, data, now); }
    case Waking(slot, timedOut) =>
      if slot < |s.table| { ClearKeeps(s, slot, Timeout); }
  }

  // ------------------------------------------------------------------- runs

  function Run(now: int, es: seq<Event>): State
    decreases |es|
  {
    if es == [] then Start(now) else Apply(Run(now, es[..|es| - 1]), es[|es| - 1])
  }

  lemma {:induction false} RunInv(now: int, es: seq<Event>)
    ensures Inv(Run(now, es))
    decreases |es|
  {
    if es != [] {
      RunInv(now, es[..|es| - 1]);
      StepKeeps(Run(now, es[..|es| - 1]), es[|es| - 1]);
    }
  }

  /**
   * Conservation over every interleaving: each packet ever saved is in one
   * place only, a single entry or a single line of the log; a packet sent went
   * out once, unchanged, on the device of its interface, to the sender address
   * of a message for its protocol address.
   */
  lemma Conservation(now: int, es: seq<Event>, id: nat)
    requires id < |Run(now, es).born|
    ensures var s := Run(now, es);
            && (Parked(s.table, id) <==> !Settled(s.log, id))
            && (forall i, j :: Holds(s.table, i, id) && Holds(s.table, j, id) ==> i == j)
            && (forall k, l :: 0 <= k < l < |s.log| ==> s.log[k].id != s.log[l].id)
            && (forall k :: 0 <= k < |s.log| && s.log[k].id == id && s.log[k].Sent? ==>
                  && (s.born[id].pa, s.log[k].ha) in s.heard
                  && s.log[k].dev == s.born[id].dev && s.log[k].bytes == s.born[id].bytes)
  {
    RunInv(now, es);
  }

  /** Free entries are empty; an entry with a saved packet is not resolved. */
  lemma EntryShape(now: int, es: seq<Event>, i: nat)
    requires i < |Run(now, es).table|
    ensures var e := Run(now, es).table[i];
            && (!e.used ==> e.data.None? && e.ha == ANY)
            && (e.data.Some? ==> e.used && e.ha == ANY)
  {
    RunInv(now, es);
    assert EntryOk(Run(now, es).table[i], Run(now, es).born, Run(now, es).heard);
  }

  /** An answer given without waiting was heard from the address asked for. */
  lemma FoundWasHeard(now: int, es: seq<Event>, netif: Netif, pa: Word, data: Option<seq<Byte>>, at: int)
    ensures var s := Run(now, es);
            var a := Resolve(s, netif, pa, data, at).answer;
            a.Found? ==> a.ha != ANY && (pa, a.ha) in s.heard
  {
    RunInv(now, es);
    var s := Run(now, es);
    var i := Select(s.table, pa);
    if i < |s.table| { assert EntryOk(s.table[i], s.born, s.heard); }
  }

  /** No hardware address was heard from two protocol addresses. */
  ghost predicate OneOwner(heard: set<(Word, Ha)>) {
    forall x, y :: x in heard && y in heard && x.1 == y.1 && x.1 != ANY ==> x.0 == y.0
  }

  /**
   * After a wait the answer is an address heard from the one asked for if the
   * entry is still for it and resolved; and only then, if no hardware address
   * was heard from two protocol addresses.
   */
  lemma WokenAnswer(now: int, es: seq<Event>, slot: nat, pa: Word)
    requires slot < |Run(now, es).table| && Wake(Run(now, es), slot, false).answer.Found?
    ensures var s := Run(now, es);
            var ha := Wake(s, slot, false).answer.ha;
            && (s.table[slot].pa == pa && ha != ANY ==> (pa, ha) in s.heard)
            && (OneOwner(s.heard) ==>
                  (ha != ANY && (pa, ha) in s.heard <==> s.table[slot].pa == pa && ha != ANY))
  {
    RunInv(now, es);
    var s := Run(now, es);
    assert EntryOk(s.table[slot], s.born, s.heard);
    var ha := s.table[slot].ha;
    if OneOwner(s.heard) && ha != ANY && (pa, ha) in s.heard {
      var x, y := (pa, ha), (s.table[slot].pa, ha);
      assert x in s.heard && y in s.heard;
    }
  }

  lemma {:induction false} RunSize(now: int, es: seq<Event>)
    ensures |Run(now, es).table| == TABLE_SIZE
    decreases |es|
  {
    if es != [] { RunSize(now, es[..|es| - 1]); }
  }

  /** A used entry that a step leaves used is for the same address. */
  lemma StepKeepsPa(s: State, e: Event, slot: nat)
    requires slot < |s.table| && s.table[slot].used
    ensures |Apply(s, e).table| == |s.table|
    ensures Apply(s, e).table[slot].used ==> Apply(s, e).table[slot].pa == s.table[slot].pa
  {
    if e.Message? {
      var h := Hear(s, e.spa, e.sha);
      PatrolEmpties(h.(timestamp := e.now), |h.table|);
    }
  }

  /** At every point of the run from event `n` on, the entry is in use. */
  ghost predicate InUseSince(now: int, es: seq<Event>, n: nat, slot: nat)
    requires n <= |es|
  {
    forall m :: n <= m <= |es| ==> slot < |Run(now, es[..m]).table| && Run(now, es[..m]).table[slot].used
  }

  /** An entry that stays in use stays with its address. */
  lemma {:induction false} StillFor(now: int, es: seq<Event>, n: nat, slot: nat)
    requires n <= |es| && slot < TABLE_SIZE && InUseSince(now, es, n, slot)
    ensures |Run(now, es).table| == |Run(now, es[..n]).table| == TABLE_SIZE
    ensures Run(now, es).table[slot].used
    ensures Run(now, es).table[slot].pa == Run(now, es[..n]).table[slot].pa
    decreases |es|
  {
    RunSize(now, es);
    RunSize(now, es[..n]);
    assert es[..|es|] == es;
    if n < |es| {
      var init := es[..|es| - 1];
      forall m | n <= m <= |init|
        ensures slot < |Run(now, init[..m]).table| && Run(now, init[..m]).table[slot].used
      {
        assert init[..m] == es[..m];
      }
      assert init[..n] == es[..n];
      StillFor(now, init, n, slot);
      StepKeepsPa(Run(now, init), es[|es| - 1], slot);
    }
  }

  /**
   * A lookup for `pa` waits on an entry. If the entry is in use at every point
   * until the lookup wakes without a time-out, the answer is an address heard
   * from `pa`, or none yet.
   */
  lemma WaiterAnswered(now: int, es: seq<Event>, n: nat, netif: Netif, pa: Word, data: Option<seq<Byte>>, at: int,
                       slot: nat)
    requires n <= |es| && Resolve(Run(now, es[..n]), netif, pa, data, at).answer == Waits(slot)
    requires InUseSince(now, es, n, slot)
    ensures slot < |Run(now, es).table|
    ensures var s := Run(now, es);
            var a := Wake(s, slot, false).answer;
            a.Found? && (a.ha == ANY || (pa, a.ha) in s.heard)
  {
    RunSize(now, es[..n]);
    StillFor(now, es, n, slot);
    WokenAnswer(now, es, slot, pa);
  }

  // ----------------------------------------------- one entry for an address

  predicate ForPa(e: Entry, pa: Word) {
    e.used && e.pa == pa
  }

  ghost predicate PaUnique(t: seq<Entry>) {
    forall i, j :: 0 <= i < j < |t| && t[i].used ==> !ForPa(t[j], t[i].pa)
  }

  /** Inserting keeps addresses unique exactly when the address is not there by then, or nothing fits. */
  lemma InsertUniqueIff(t: seq<Entry>, pa: Word, ha: Ha, now: int)
    requires PaUnique(t)
    ensures PaUnique(Inserted(t, pa, ha, now)) <==> Select(t, pa) == |t| || Freespace(t) == |t|
  {
    var i, f := Select(t, pa), Freespace(t);
    var n := Inserted(t, pa, ha, now);
    if i < |t| && f < |t| {
      assert n[i] == t[i] && ForPa(n[i], pa) && ForPa(n[f], pa);
    } else if f < |t| {
      assert forall j :: 0 <= j < |t| && j != f ==> n[j] == t[j];
    }
  }

  /** The patrol empties exactly the entries that are too old. */
  lemma {:induction false} PatrolEmpties(s: State, n: nat)
    requires n <= |s.table|
    ensures PatrolTo(s, n).timestamp == s.timestamp && PatrolTo(s, n).heard == s.heard
    ensures forall i :: 0 <= i < |s.table| ==>
              PatrolTo(s, n).table[i]
              == if i < n && s.table[i].used && s.timestamp - s.table[i].stamp > ENTRY_TIMEOUT
                 then CLEAR else s.table[i]
  {
    if n > 0 { PatrolEmpties(s, n - 1); }
  }

  /** A message for an address with one entry leaves no packet for it behind. */
  lemma MessageFlushes(s: State, dev: nat, spa: Word, sha: Ha, now: int)
    requires PaUnique(s.table)
    ensures var t := RxUpdate(s, dev, spa, sha, now).next.table;
            && PaUnique(t)
            && forall i :: 0 <= i < |t| && ForPa(t[i], spa) ==> t[i].data.None?
  {
    var h := Hear(s, spa, sha);
    PatrolEmpties(h.(timestamp := now), |h.table|);
    var p := Patrolled(h, now);
    assert PaUnique(p.table);
  }

  lemma ClearUnique(s: State, i: nat, cause: Cause)
    requires PaUnique(s.table) && i < |s.table|
    ensures PaUnique(ClearAt(s, i, cause).table)
  {
    var t := ClearAt(s, i, cause).table;
    assert forall j :: 0 <= j < |t| ==> t[j] == if j == i then CLEAR else s.table[j];
  }

  lemma LookupUnique(s: State, e: Event)
    requires PaUnique(s.table) && e.Lookup?
    ensures PaUnique(Apply(s, e).table)
  {
    var t, n := s.table, Apply(s, e).table;
    var f := Freespace(t);
    if Select(t, e.pa) == |t| && f < |t| {
      assert forall j :: 0 <= j < |t| && j != f ==> n[j] == t[j] && !ForPa(t[j], e.pa);
    }
  }

  /** An insertion finds its address absent, or nothing free. */
  predicate GuardedInsert(s: State, e: Event) {
    e.Insertion? ==> Select(s.table, e.spa) == |s.table| || Freespace(s.table) == |s.table|
  }

  lemma StepUnique(s: State, e: Event)
    requires PaUnique(s.table) && GuardedInsert(s, e)
    ensures PaUnique(Apply(s, e).table)
  {
    match e
    case Message(dev, spa, sha, now) => MessageFlushes(s, dev, spa, sha, now);
    case Insertion(spa, sha, now) => InsertUniqueIff(s.table, spa, sha, now);
    case Lookup(_, _, _, _) => LookupUnique(s, e);
    case Waking(slot, _) => if slot < |s.table| { ClearUnique(s, slot, Timeout); }
  }

  /** In every run whose insertions meet that guard there is one entry per address. */
  lemma {:induction false} RunUnique(now: int, es: seq<Event>)
    requires forall i :: 0 <= i < |es| ==> GuardedInsert(Run(now, es[..i]), es[i])
    ensures PaUnique(Run(now, es).table)
    decreases |es|
  {
    if es != [] {
      var init := es[..|es| - 1];
      forall i | 0 <= i < |init|
        ensures GuardedInsert(Run(now, init[..i]), init[i])
      {
        assert init[..i] == es[..i];
      }
      RunUnique(now, init);
      StepUnique(Run(now, init), es[|es| - 1]);
    }
  }

  /**
   * Two messages from one address, each of which finds no entry before either
   * inserts, leave two entries for it.
   */
  lemma DuplicateEntries(pa: Word, ha: Ha)
    ensures var first := RxUpdate(Start(0), 0, pa, ha, 0);
            var second := RxUpdate(first.next, 0, pa, ha, 0);
            && !first.merged && !second.merged
            && !PaUnique(RxInsert(RxInsert(second.next, pa, ha, 0), pa, ha, 0).table)
  {
    var s := RxUpdate(RxUpdate(Start(0), 0, pa, ha, 0).next, 0, pa, ha, 0).next;
    assert s.table == Start(0).table;
    var t := RxInsert(s, pa, ha, 0).table;
    assert Freespace(s.table) == 0 && ForPa(t[0], pa);
    assert !t[1].used;
    assert Freespace(t) == 1;
    var u := RxInsert(RxInsert(s, pa, ha, 0), pa, ha, 0).table;
    assert u[0].pa == pa && ForPa(u[1], pa);
  }

  /**
   * A lookup that waits on an entry, sees it expire and be taken over by a
   * lookup for another address, answers with no address at all.
   */
  lemma WaiterMisled(n: Netif, pa: Word, other: Word, third: Word, ha: Ha, d: seq<Byte>)
    requires pa != other && third != pa
    ensures var a := Resolve(Start(0), n, pa, Some(d), 0);
            var b := Resolve(a.next, n, pa, Some(d), 0);
            var c := RxUpdate(b.next, 0, third, ha, 400);
            var e := Resolve(c.next, n, other, Some(d), 400);
            && b.answer == Waits(0)
            && |e.next.table| > 0 && Wake(e.next, 0, false).answer == Found(ANY)
            && (pa, ANY) !in e.next.heard
  {
    var s := Start(0);
    assert Select(s.table, pa) == |s.table| && Freespace(s.table) == 0;
    var a := Resolve(s, n, pa, Some(d), 0).next;
    assert ForPa(a.table[0], pa) && a.table[0].ha == ANY;
    assert Select(a.table, pa) == 0;
    assert forall i :: 0 < i < |a.table| ==> a.table[i] == CLEAR;
    var h := Hear(a, third, ha);
    PatrolEmpties(h.(timestamp := 400), |h.table|);
    var p := Patrolled(h, 400);
    assert forall i :: 0 <= i < |p.table| ==> p.table[i] == CLEAR;
    assert Select(p.table, third) == |p.table| && Select(p.table, other) == |p.table|;
    assert Freespace(p.table) == 0;
  }
}
