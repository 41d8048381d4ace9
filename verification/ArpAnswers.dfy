/**
 * What the operations of arp.c must do: the answer to a lookup for every table,
 * what a message does to it, and over runs that an address that was heard is
 * what a lookup gets until it is too old.
 */
module ArpAnswers {
  import opened Words
  import opened Wrappers
  import opened Arp

  // -------------------------------------------------------------- one table

  /** Entry `i` is the first used one for `pa`. */
  ghost predicate FirstFor(t: seq<Entry>, pa: Word, i: nat) {
    i < |t| && t[i].used && t[i].pa == pa && forall j :: 0 <= j < i ==> !(t[j].used && t[j].pa == pa)
  }

  ghost predicate NoneFor(t: seq<Entry>, pa: Word) {
    forall j :: 0 <= j < |t| ==> !(t[j].used && t[j].pa == pa)
  }

  ghost predicate FirstFree(t: seq<Entry>, i: nat) {
    i < |t| && !t[i].used && forall j :: 0 <= j < i ==> t[j].used
  }

  ghost predicate Full(t: seq<Entry>) {
    forall j :: 0 <= j < |t| ==> t[j].used
  }

  /** The tables differ in entry `i` alone. */
  ghost predicate OnlyAt(t: seq<Entry>, u: seq<Entry>, i: nat) {
    |u| == |t| && forall j :: 0 <= j < |t| && j != i ==> u[j] == t[j]
  }

  /** The saved packet of a new entry: the one given, copied to a buffer of its own. */
  ghost predicate Saves(s: State, n: State, e: Entry, netif: Netif, pa: Word, data: Option<seq<Byte>>) {
    match data
    case Some(bytes) => e.data == Some(Held(|s.born|, bytes)) && n.born == s.born + [Parcel(pa, netif.dev, bytes)]
    case None => n.born == s.born
  }

  /**
   * A lookup, for every table: the address of the first entry for it, a wait if
   * that has none yet, a question on the wire with an entry of its own if there is
   * no entry and room for one, an error otherwise.
   */
  lemma ResolveAnswers(s: State, netif: Netif, pa: Word, data: Option<seq<Byte>>, now: int)
    ensures var r := Resolve(s, netif, pa, data, now);
            && (forall i: nat :: FirstFor(s.table, pa, i) ==>
                  r == Resolved(s, if s.table[i].ha == ANY then Waits(i) else Found(s.table[i].ha)))
            && (NoneFor(s.table, pa) && Full(s.table) ==> r == Resolved(s, Error))
            && (forall f: nat :: NoneFor(s.table, pa) && FirstFree(s.table, f) ==>
                  && r.answer == Query && OnlyAt(s.table, r.next.table, f)
                  && var e := r.next.table[f];
                  && e.used && e.pa == pa && e.ha == s.table[f].ha && e.stamp == now && e.netif == Some(netif)
                  && Saves(s, r.next, e, netif, pa, data)
                  && r.next.log == s.log && r.next.timestamp == s.timestamp)
  {
    var i, f := Select(s.table, pa), Freespace(s.table);
    forall j: nat | FirstFor(s.table, pa, j)
      ensures i == j
    {
    }
  }

  /** A wait that ends: an error if it was too long or the entry is gone, what the entry holds otherwise. */
  lemma WakeAnswers(s: State, slot: nat, timedOut: bool)
    requires slot < |s.table|
    ensures var r, e := Wake(s, slot, timedOut), s.table[slot];
            && r.answer == (if e.used && !timedOut then Found(e.ha) else Error)
            && OnlyAt(s.table, r.next.table, slot)
            && r.next.table[slot] == if e.used && timedOut then CLEAR else e
  {
  }

  /** An insertion fills the first free entry, or changes nothing in a full table. */
  lemma InsertFills(s: State, pa: Word, ha: Ha, now: int)
    ensures var n := RxInsert(s, pa, ha, now);
            && (Full(s.table) ==> n.table == s.table)
            && (forall f: nat :: FirstFree(s.table, f) ==>
                  && OnlyAt(s.table, n.table, f)
                  && n.table[f] == s.table[f].(used := true, pa := pa, ha := ha, stamp := now))
            && n.log == s.log && n.born == s.born
  {
  }

  /** The entry survives a patrol that is due at `now` since `timestamp`. */
  predicate Survives(e: Entry, timestamp: int, now: int) {
    now - timestamp > 10 ==> !e.used || now - e.stamp <= 300
  }

  /** What the patrol of a message leaves. */
  lemma PatrolLeaves(s: State, now: int)
    ensures var p := Patrolled(s, now);
            && |p.table| == |s.table|
            && (forall j :: 0 <= j < |s.table| ==>
                  p.table[j] == if Survives(s.table[j], s.timestamp, now) then s.table[j] else CLEAR)
            && p.timestamp == if now - s.timestamp > 10 then now else s.timestamp
  {
    if now - s.timestamp > PATROL_PERIOD { PatrolEmpties(s.(timestamp := now), |s.table|); }
  }

  /**
   * A message, for every table: the first entry for its sender that the patrol
   * leaves gets the address, the time and its packet sent there; if there is none
   * the message is left to the insertion.
   */
  lemma MessageMerges(s: State, dev: nat, spa: Word, sha: Ha, now: int)
    ensures var p, u := Patrolled(Hear(s, spa, sha), now), RxUpdate(s, dev, spa, sha, now);
            && (NoneFor(p.table, spa) ==> u == Updated(p, false))
            && (forall i: nat :: FirstFor(p.table, spa, i) ==>
                  && u.merged && OnlyAt(p.table, u.next.table, i)
                  && var e := p.table[i];
                  && u.next.table[i] == e.(ha := sha, stamp := now, data := None)
                  && u.next.log == p.log + if e.data.None? then []
                     else [Sent(e.data.value.id, sha, if e.netif.Some? then e.netif.value.dev else dev, e.data.value.bytes)])
  {
    var p := Patrolled(Hear(s, spa, sha), now);
    var i := Select(p.table, spa);
    forall j: nat | FirstFor(p.table, spa, j)
      ensures i == j
    {
    }
  }

  // ------------------------------------------------------------------- runs

  /** The first entry for `pa` has the address `ha`, no older than `at`. */
  ghost predicate Knows(s: State, pa: Word, ha: Ha, at: int) {
    exists i: nat :: FirstFor(s.table, pa, i) && s.table[i].ha == ha && s.table[i].stamp >= at
  }

  /**
   * Nothing the event does can take the address away: a message comes within 300
   * seconds, one from `pa` repeats the address, and no wait on an entry for `pa`
   * is too long.
   */
  predicate Harmless(s: State, e: Event, pa: Word, ha: Ha, at: int) {
    match e
    case Message(_, spa, sha, now) => at <= now <= at + 300 && (spa == pa ==> sha == ha)
    case Insertion(spa, sha, now) => spa == pa ==> sha == ha && at <= now
    case Lookup(_, _, _, _) => true
    case Waking(slot, timedOut) => slot < |s.table| && timedOut ==> s.table[slot].pa != pa
  }

  lemma KnowsAt(s: State, pa: Word, ha: Ha, at: int, i: nat)
    requires FirstFor(s.table, pa, i) && s.table[i].ha == ha && s.table[i].stamp >= at
    ensures Knows(s, pa, ha, at)
  {
  }

  /** A table that differs in an entry which is and was none for `pa` has the same first entry for it. */
  lemma StillFirst(t: seq<Entry>, u: seq<Entry>, k: nat, pa: Word, i: nat)
    requires OnlyAt(t, u, k) && FirstFor(t, pa, i) && k < |t|
    requires !(t[k].used && t[k].pa == pa) && !(u[k].used && u[k].pa == pa)
    ensures FirstFor(u, pa, i) && u[i] == t[i]
  {
  }

  lemma PatrolKnows(s: State, now: int, pa: Word, ha: Ha, at: int, i: nat)
    requires FirstFor(s.table, pa, i) && s.table[i].ha == ha && s.table[i].stamp >= at && now <= at + 300
    ensures var p := Patrolled(s, now); FirstFor(p.table, pa, i) && p.table[i] == s.table[i]
  {
    PatrolLeaves(s, now);
  }

  lemma MessageKnows(s: State, e: Event, pa: Word, ha: Ha, at: int, i: nat)
    requires e.Message? && Harmless(s, e, pa, ha, at)
    requires FirstFor(s.table, pa, i) && s.table[i].ha == ha && s.table[i].stamp >= at
    ensures Knows(Apply(s, e), pa, ha, at)
  {
    var h := Hear(s, e.spa, e.sha);
    PatrolKnows(h, e.now, pa, ha, at, i);
    var p := Patrolled(h, e.now);
    MessageMerges(s, e.dev, e.spa, e.sha, e.now);
    var k := Select(p.table, e.spa);
    if k < |p.table| {
      assert FirstFor(p.table, e.spa, k);
      if e.spa != pa { StillFirst(p.table, Apply(s, e).table, k, pa, i); }
    } else {
      assert NoneFor(p.table, e.spa);
    }
    KnowsAt(Apply(s, e), pa, ha, at, i);
  }

  lemma InsertionKnows(s: State, e: Event, pa: Word, ha: Ha, at: int, i: nat)
    requires e.Insertion? && Harmless(s, e, pa, ha, at)
    requires FirstFor(s.table, pa, i) && s.table[i].ha == ha && s.table[i].stamp >= at
    ensures Knows(Apply(s, e), pa, ha, at)
  {
    InsertFills(s, e.spa, e.sha, e.now);
    var f := Freespace(s.table);
    if f == |s.table| {
      assert Full(s.table);
      KnowsAt(Apply(s, e), pa, ha, at, i);
    } else {
      assert FirstFree(s.table, f);
      if e.spa != pa {
        StillFirst(s.table, Apply(s, e).table, f, pa, i);
      }
      KnowsAt(Apply(s, e), pa, ha, at, if e.spa == pa && f < i then f else i);
    }
  }

  lemma LookupKnows(s: State, e: Event, pa: Word, ha: Ha, at: int, i: nat)
    requires e.Lookup? && FirstFor(s.table, pa, i) && s.table[i].ha == ha && s.table[i].stamp >= at
    ensures Knows(Apply(s, e), pa, ha, at)
  {
    ResolveAnswers(s, e.netif, e.pa, e.data, e.now);
    var k, f := Select(s.table, e.pa), Freespace(s.table);
    if k < |s.table| {
      assert FirstFor(s.table, e.pa, k);
    } else if f == |s.table| {
      assert NoneFor(s.table, e.pa) && Full(s.table);
    } else {
      assert NoneFor(s.table, e.pa) && FirstFree(s.table, f) && e.pa != pa;
      StillFirst(s.table, Apply(s, e).table, f, pa, i);
    }
    KnowsAt(Apply(s, e), pa, ha, at, i);
  }

  lemma WakingKnows(s: State, e: Event, pa: Word, ha: Ha, at: int, i: nat)
    requires e.Waking? && Harmless(s, e, pa, ha, at)
    requires FirstFor(s.table, pa, i) && s.table[i].ha == ha && s.table[i].stamp >= at
    ensures Knows(Apply(s, e), pa, ha, at)
  {
    if e.slot < |s.table| { WakeAnswers(s, e.slot, e.timedOut); }
    KnowsAt(Apply(s, e), pa, ha, at, i);
  }

  lemma StepKnows(s: State, e: Event, pa: Word, ha: Ha, at: int)
    requires Knows(s, pa, ha, at) && Harmless(s, e, pa, ha, at)
    ensures Knows(Apply(s, e), pa, ha, at)
  {
    var i: nat :| FirstFor(s.table, pa, i) && s.table[i].ha == ha && s.table[i].stamp >= at;
    match e
    case Message(_, _, _, _) => MessageKnows(s, e, pa, ha, at, i);
    case Insertion(_, _, _) => InsertionKnows(s, e, pa, ha, at, i);
    case Lookup(_, _, _, _) => LookupKnows(s, e, pa, ha, at, i);
    case Waking(_, _) => WakingKnows(s, e, pa, ha, at, i);
  }

  /** Event `n` of the run puts the address in the table: a message that was merged, or an insertion that found no entry and room. */
  ghost predicate Tells(s: State, e: Event, pa: Word, ha: Ha, at: int) {
    || (e.Message? && e.spa == pa && e.sha == ha && e.now == at && RxUpdate(s, e.dev, pa, ha, at).merged)
    || (e.Insertion? && e.spa == pa && e.sha == ha && e.now == at && NoneFor(s.table, pa) && !Full(s.table))
  }

  lemma TellsKnows(s: State, e: Event, pa: Word, ha: Ha, at: int)
    requires Tells(s, e, pa, ha, at)
    ensures Knows(Apply(s, e), pa, ha, at)
  {
    if e.Message? {
      var p := Patrolled(Hear(s, pa, ha), at);
      MessageMerges(s, e.dev, pa, ha, at);
      var i := Select(p.table, pa);
      assert i < |p.table| && FirstFor(p.table, pa, i);
      KnowsAt(Apply(s, e), pa, ha, at, i);
    } else {
      InsertFills(s, pa, ha, at);
      var f := Freespace(s.table);
      assert FirstFree(s.table, f);
      KnowsAt(Apply(s, e), pa, ha, at, f);
    }
  }

  lemma {:induction false} RunKnows(now: int, es: seq<Event>, n: nat, pa: Word, ha: Ha, at: int)
    requires n < |es| && Tells(Run(now, es[..n]), es[n], pa, ha, at)
    requires forall m :: n < m < |es| ==> Harmless(Run(now, es[..m]), es[m], pa, ha, at)
    ensures Knows(Run(now, es), pa, ha, at)
    decreases |es|
  {
    var init := es[..|es| - 1];
    if n == |es| - 1 {
      TellsKnows(Run(now, init), es[n], pa, ha, at);
    } else {
      assert init[..n] == es[..n];
      forall m | n < m < |init|
        ensures Harmless(Run(now, init[..m]), init[m], pa, ha, at)
      {
        assert init[..m] == es[..m];
      }
      RunKnows(now, init, n, pa, ha, at);
      StepKnows(Run(now, init), es[|es| - 1], pa, ha, at);
    }
  }

  /**
   * Over every run: once a message from `pa` has put its address in the table, a
   * lookup for `pa` finds that address at once, whatever else has happened since,
   * as long as nothing that happened took it away.
   */
  lemma HeardIsFound(now: int, es: seq<Event>, n: nat, pa: Word, ha: Ha, at: int,
                     netif: Netif, data: Option<seq<Byte>>, when: int)
    requires n < |es| && Tells(Run(now, es[..n]), es[n], pa, ha, at) && ha != ANY
    requires forall m :: n < m < |es| ==> Harmless(Run(now, es[..m]), es[m], pa, ha, at)
    ensures Resolve(Run(now, es), netif, pa, data, when) == Resolved(Run(now, es), Found(ha))
  {
    RunKnows(now, es, n, pa, ha, at);
    ResolveAnswers(Run(now, es), netif, pa, data, when);
  }
}
