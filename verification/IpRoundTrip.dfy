/**
 * Whole runs of the receiver: any arrivals of any datagrams, in any order and
 * with duplicates, and what the fragments of one datagram give among them.
 */
module IpRoundTrip {
  import opened Checksum
  import opened IpPacket
  import opened IpFragments
  import opened IpReassembly
  import opened Wrappers
  import Mask

  // ------------------------------------------------ `ip_rx` past its checks

  predicate Sound(d: Datagram) {
    IsFragment(d.offset) ==> Fits(d)
  }

  /** ip.c:363-373: a whole datagram goes up at once, a fragment to its context; None once freed memory is read. */
  ghost function InputWritten(t: Table, d: Datagram, now: int, later: int): (r: Option<Step<Table>>)
    requires TableInv(t) && Sound(d)
    ensures r.Some? ==> TableInv(r.value.next)
  {
    if IsFragment(d.offset) then ProcessKeepsInv(t, d, now, later); ProcessWritten(t, d, now, later)
    else Some(Step(t, Some(d.payload)))
  }

  /** The same with the patrol as it is meant. */
  ghost function Input(t: Table, d: Datagram, now: int, later: int): Step<Table>
    requires TableInv(t) && Sound(d)
  {
    if IsFragment(d.offset) then Process(t, d, now, later) else Step(t, Some(d.payload))
  }

  ghost predicate Ready(s: Option<Slot>) {
    s.Some? ==> Sized(s.value)
  }

  ghost function InputAlone(s: Option<Slot>, d: Datagram, later: int): Step<Option<Slot>>
    requires Ready(s) && Sound(d)
  {
    if IsFragment(d.offset) then Alone(s, d, later) else Step(s, Some(d.payload))
  }

  lemma InputKeepsInv(t: Table, d: Datagram, now: int, later: int)
    requires TableInv(t) && Sound(d)
    ensures TableInv(Input(t, d, now, later).next)
  {
    if IsFragment(d.offset) { MeantKeepsInv(t, d, now, later); }
  }

  // -------------------------------------------------------------------- runs

  datatype Arrival = Arrival(d: Datagram, now: int, later: int)

  predicate AllSound(run: seq<Arrival>) {
    forall i :: 0 <= i < |run| ==> Sound(run[i].d)
  }

  function Init<T>(s: seq<T>): seq<T>
    requires s != []
  {
    s[..|s| - 1]
  }

  function Last<T>(s: seq<T>): T
    requires s != []
  {
    s[|s| - 1]
  }

  /** The table after a run of the code as it is written; None once it has read freed memory. */
  ghost function Written(t: Table, run: seq<Arrival>): (r: Option<Table>)
    requires TableInv(t) && AllSound(run)
    ensures r.Some? ==> TableInv(r.value)
    decreases |run|, 1
  {
    if run == [] then Some(t)
    else
      var s := LastStep(t, run);
      if s.Some? then Some(s.value.next) else None
  }

  /** What the last arrival of a run does, in the code as it is written. */
  ghost function LastStep(t: Table, run: seq<Arrival>): (r: Option<Step<Table>>)
    requires TableInv(t) && AllSound(run) && run != []
    ensures r.Some? ==> TableInv(r.value.next)
    decreases |run|, 0
  {
    var u, a := Written(t, Init(run)), Last(run);
    if u.Some? then InputWritten(u.value, a.d, a.now, a.later) else None
  }

  /** The table after a run with patrols as they are meant; it is well formed at every point. */
  ghost function After(t: Table, run: seq<Arrival>): (r: Table)
    requires TableInv(t) && AllSound(run)
    ensures TableInv(r)
    decreases |run|
  {
    if run == [] then t else StepOf(After(t, Init(run)), Last(run)).next
  }

  ghost function StepOf(t: Table, a: Arrival): (r: Step<Table>)
    requires TableInv(t) && Sound(a.d)
    ensures TableInv(r.next)
  {
    InputKeepsInv(t, a.d, a.now, a.later);
    Input(t, a.d, a.now, a.later)
  }

  /** No patrol of the run finds an expired context in front of another. */
  ghost predicate Orderly(t: Table, run: seq<Arrival>)
    requires TableInv(t) && AllSound(run)
    decreases |run|
  {
    run == [] || (Orderly(t, Init(run))
                  && (IsFragment(Last(run).d.offset) ==> OnlyLastExpired(After(t, Init(run)).slots, Last(run).now)))
  }

  /** The code has a result exactly for such runs, and then it is the one that is meant. */
  lemma {:induction false} WrittenIff(t: Table, run: seq<Arrival>)
    requires TableInv(t) && AllSound(run)
    ensures Written(t, run) == if Orderly(t, run) then Some(After(t, run)) else None
    ensures run != [] ==>
              LastStep(t, run) == if Orderly(t, run) then Some(StepOf(After(t, Init(run)), Last(run))) else None
    decreases |run|
  {
    if run != [] {
      WrittenIff(t, Init(run));
      var u, a := After(t, Init(run)), Last(run);
      if IsFragment(a.d.offset) { ProcessWrittenIff(u, a.d, a.now, a.later); }
    }
  }

  ghost function AloneAfter(s: Option<Slot>, run: seq<Arrival>): (r: Option<Slot>)
    requires Ready(s) && AllSound(run)
    ensures Ready(r)
    decreases |run|
  {
    if run == [] then s else AloneStep(AloneAfter(s, Init(run)), Last(run)).next
  }

  ghost function AloneStep(s: Option<Slot>, a: Arrival): (r: Step<Option<Slot>>)
    requires Ready(s) && Sound(a.d)
    ensures Ready(r.next)
  {
    InputAlone(s, a.d, a.later)
  }

  /** The arrivals of one datagram's fragments. */
  function Mine(run: seq<Arrival>, key: Key): (r: seq<Arrival>)
    ensures AllSound(run) ==> AllSound(r)
    decreases |run|
  {
    if run == [] then []
    else Mine(Init(run), key) + if Names(Last(run).d, key) then [Last(run)] else []
  }

  /** Patrols have a result, slots last and `key`'s context does not expire. */
  ghost predicate Undisturbed(t: Table, run: seq<Arrival>, key: Key)
    requires TableInv(t) && AllSound(run)
    decreases |run|
  {
    run == [] || (Undisturbed(t, Init(run), key)
                  && (IsFragment(Last(run).d.offset) ==>
                        Served(After(t, Init(run)), Last(run).d, Last(run).now, key)))
  }

  lemma {:induction false} UndisturbedOrderly(t: Table, run: seq<Arrival>, key: Key)
    requires TableInv(t) && AllSound(run) && Undisturbed(t, run, key)
    ensures Orderly(t, run)
    decreases |run|
  {
    if run != [] { UndisturbedOrderly(t, Init(run), key); }
  }

  /**
   * Isolation: whatever else arrives, the code has a result, the context of `key` is the one its own
   * fragments alone would have made, and the last arrival, if it is one of
   * them, delivers what it would have delivered alone.
   */
  lemma Isolation(t: Table, run: seq<Arrival>, key: Key)
    requires TableInv(t) && AllSound(run) && Undisturbed(t, run, key)
    requires Ready(Lookup(t.slots, key))
    ensures var u := Written(t, run);
            u.Some? && Lookup(u.value.slots, key) == AloneAfter(Lookup(t.slots, key), Mine(run, key))
    ensures run != [] && Names(Last(run).d, key) ==>
              var s := LastStep(t, run);
              s.Some? && s.value.out == AloneStep(AloneAfter(Lookup(t.slots, key), Mine(Init(run), key)), Last(run)).out
  {
    UndisturbedOrderly(t, run, key);
    WrittenIff(t, run);
    MeantIsolation(t, run, key);
  }

  lemma {:induction false} MeantIsolation(t: Table, run: seq<Arrival>, key: Key)
    requires TableInv(t) && AllSound(run) && Undisturbed(t, run, key)
    requires Ready(Lookup(t.slots, key))
    ensures Lookup(After(t, run).slots, key) == AloneAfter(Lookup(t.slots, key), Mine(run, key))
    ensures run != [] && Names(Last(run).d, key) ==>
              StepOf(After(t, Init(run)), Last(run)).out
              == AloneStep(AloneAfter(Lookup(t.slots, key), Mine(Init(run), key)), Last(run)).out
    decreases |run|
  {
    if run != [] {
      MeantIsolation(t, Init(run), key);
      var u, a := After(t, Init(run)), Last(run);
      var mine := Mine(Init(run), key);
      if IsFragment(a.d.offset) {
        MeantIsolated(u, a.d, a.now, a.later, key);
      }
      if Names(a.d, key) {
        assert Init(mine + [a]) == mine && Last(mine + [a]) == a;
      } else {
        assert Mine(run, key) == mine;
      }
    }
  }

  // --------------------------------------------- the fragments of one datagram

  /** A payload the buffer holds, cut at a multiple of eight bytes. */
  predicate Cut(len: nat, unit: nat) {
    0 < len <= CAPACITY && 0 < unit && unit % 8 == 0
  }

  /** What the receiver reads in the header of fragment `k`. */
  lemma Decoded(whole: Datagram, unit: nat, k: nat)
    requires var len := |whole.payload|; Cut(len, unit) && IsIndex(len, unit, k)
    ensures var f, len := FragmentAt(whole, unit, Begin(k, unit)), |whole.payload|;
            && SameHeader(f, whole)
            && Position(f.offset) == Begin(k, unit)
            && Begin(k, unit) + |f.payload| == EndOf(len, unit, k) <= len
            && (More(f.offset) <==> EndOf(len, unit, k) < len)
            && (IsFragment(f.offset) <==> len > unit)
            && Sound(f)
  {
    var len, b := |whole.payload|, Begin(k, unit);
    OffsetDecodes(b, if EndOf(len, unit, k) < len then 0x2000 else 0);
    BeginAligned(k, unit);
    if k > 0 { BeginGrows(1, k, unit); }
  }

  /** All fragments of the datagram. */
  ghost function All(len: nat, unit: nat): set<nat> {
    set k: nat | k < len && IsIndex(len, unit, k)
  }

  lemma InAll(len: nat, unit: nat, k: nat)
    requires unit > 0
    ensures k in All(len, unit) <==> IsIndex(len, unit, k)
  {
    BeginAtLeast(k, unit);
  }

  /**
   * The reference: the fragments received since the datagram was last
   * delivered. It is delivered when the set is complete.
   */
  ghost function Got(len: nat, unit: nat, order: seq<nat>): set<nat>
    decreases |order|
  {
    if order == [] then {}
    else
      var g := Got(len, unit, Init(order)) + {Last(order)};
      if g == All(len, unit) then {} else g
  }

  ghost predicate InFragments(p: nat, len: nat, unit: nat, g: set<nat>) {
    exists k :: k in g && IsIndex(len, unit, k) && Begin(k, unit) <= p < EndOf(len, unit, k)
  }

  ghost predicate LastIn(len: nat, unit: nat, g: set<nat>) {
    exists k :: k in g && IsIndex(len, unit, k) && EndOf(len, unit, k) == len
  }

  /** The context holds the fragments of `g` of this payload and no more. */
  ghost predicate Contains(s: Slot, payload: Bytes, unit: nat, g: set<nat>) {
    && Sized(s) && |payload| <= CAPACITY
    && (forall p: nat :: p in s.cover <==> InFragments(p, |payload|, unit, g))
    && (forall p :: 0 <= p < |payload| && p in s.cover ==> s.data[p] == payload[p])
    && s.len == if LastIn(|payload|, unit, g) then |payload| else 0
  }

  ghost predicate Holds(s: Option<Slot>, payload: Bytes, unit: nat, g: set<nat>) {
    if g == {} then s.None? else s.Some? && Contains(s.value, payload, unit, g)
  }

  lemma AbsorbCovers(s: Slot, whole: Datagram, unit: nat, g: set<nat>, k: nat, later: int, p: nat)
    requires var len := |whole.payload|; Cut(len, unit) && IsIndex(len, unit, k)
    requires p in s.cover <==> InFragments(p, |whole.payload|, unit, g)
    requires Sized(s) && Fits(FragmentAt(whole, unit, Begin(k, unit)))
    ensures p in Absorb(s, FragmentAt(whole, unit, Begin(k, unit)), later).cover
            <==> InFragments(p, |whole.payload|, unit, g + {k})
  {
    var len := |whole.payload|;
    Decoded(whole, unit, k);
    assert p in Absorb(s, FragmentAt(whole, unit, Begin(k, unit)), later).cover
      <==> p in s.cover || Mask.Within(p, Begin(k, unit), EndOf(len, unit, k));
    assert k in g + {k};
  }

  lemma AbsorbAgrees(s: Slot, whole: Datagram, unit: nat, k: nat, later: int, p: nat)
    requires var len := |whole.payload|; Cut(len, unit) && IsIndex(len, unit, k)
    requires Sized(s) && Fits(FragmentAt(whole, unit, Begin(k, unit)))
    requires p < |whole.payload| && (p in s.cover ==> s.data[p] == whole.payload[p])
    ensures var x := Absorb(s, FragmentAt(whole, unit, Begin(k, unit)), later);
            Sized(x) && (p in x.cover ==> x.data[p] == whole.payload[p])
  {
    var len := |whole.payload|;
    Decoded(whole, unit, k);
    assert p in Absorb(s, FragmentAt(whole, unit, Begin(k, unit)), later).cover
      <==> p in s.cover || Mask.Within(p, Begin(k, unit), EndOf(len, unit, k));
  }

  lemma AbsorbContains(s: Slot, whole: Datagram, unit: nat, g: set<nat>, k: nat, later: int)
    requires var len := |whole.payload|; Cut(len, unit) && IsIndex(len, unit, k)
    requires Contains(s, whole.payload, unit, g)
    requires Fits(FragmentAt(whole, unit, Begin(k, unit)))
    ensures Contains(Absorb(s, FragmentAt(whole, unit, Begin(k, unit)), later), whole.payload, unit, g + {k})
  {
    var len := |whole.payload|;
    var x := Absorb(s, FragmentAt(whole, unit, Begin(k, unit)), later);
    Decoded(whole, unit, k);
    forall p: nat
      ensures p in x.cover <==> InFragments(p, len, unit, g + {k})
    {
      AbsorbCovers(s, whole, unit, g, k, later, p);
    }
    forall p | 0 <= p < len && p in x.cover
      ensures x.data[p] == whole.payload[p]
    {
      AbsorbAgrees(s, whole, unit, k, later, p);
    }
    LastGrows(len, unit, g, k);
  }

  lemma LastGrows(len: nat, unit: nat, g: set<nat>, k: nat)
    requires unit > 0 && IsIndex(len, unit, k)
    ensures LastIn(len, unit, g + {k}) <==> LastIn(len, unit, g) || EndOf(len, unit, k) == len
  {
    if EndOf(len, unit, k) == len { assert k in g + {k}; }
  }

  /** The context is complete exactly when every fragment is in it. */
  lemma CompleteIff(s: Slot, payload: Bytes, unit: nat, g: set<nat>)
    requires Cut(|payload|, unit) && Contains(s, payload, unit, g)
    requires g <= All(|payload|, unit)
    ensures Complete(s) <==> g == All(|payload|, unit)
    ensures Complete(s) ==> s.data[..s.len] == payload
  {
    var len := |payload|;
    if Complete(s) {
      assert s.len == len;
      forall k | k in All(len, unit)
        ensures k in g
      {
        var b := Begin(k, unit);
        assert b in Mask.Range(0, len) by { assert Mask.Within(b, 0, len); }
        assert InFragments(b, len, unit, g);
        var j :| j in g && IsIndex(len, unit, j) && Begin(j, unit) <= b < EndOf(len, unit, j);
        OnlyOne(len, unit, b, j, k);
      }
      assert forall p :: 0 <= p < len ==> Mask.Within(p, 0, len) && p in Mask.Range(0, len);
    }
    if g == All(len, unit) {
      forall p | p in Mask.Range(0, len)
        ensures p in s.cover
      {
        var k := Locate(len, unit, p);
        InAll(len, unit, k);
        assert InFragments(p, len, unit, g);
      }
      var k := Locate(len, unit, len - 1);
      InAll(len, unit, k);
      assert LastIn(len, unit, g);
    }
  }

  lemma FreshContains(key: Key, payload: Bytes, unit: nat)
    requires |payload| <= CAPACITY
    ensures Contains(Fresh(key), payload, unit, {})
  {
  }

  /** One arrival of a fragment, against the reference. */
  lemma ArrivalStep(s: Option<Slot>, whole: Datagram, unit: nat, g: set<nat>, k: nat, later: int)
    requires var len := |whole.payload|; Cut(len, unit) && IsIndex(len, unit, k)
    requires g <= All(|whole.payload|, unit)
    requires Ready(s) && Holds(s, whole.payload, unit, g)
    requires Sound(FragmentAt(whole, unit, Begin(k, unit)))
    requires |whole.payload| <= unit ==> g == {}
    ensures var r := InputAlone(s, FragmentAt(whole, unit, Begin(k, unit)), later);
            var all := All(|whole.payload|, unit);
            if g + {k} == all
            then r.next.None? && r.out == Some(whole.payload)
            else r.out == None && Holds(r.next, whole.payload, unit, g + {k})
  {
    var len := |whole.payload|;
    var f := FragmentAt(whole, unit, Begin(k, unit));
    Decoded(whole, unit, k);
    InAll(len, unit, k);
    if len > unit {
      var c := if s.Some? then s.value else Fresh(KeyOf(f));
      if s.None? { FreshContains(KeyOf(f), whole.payload, unit); }
      AbsorbContains(c, whole, unit, g, k, later);
      CompleteIff(Absorb(c, f, later), whole.payload, unit, g + {k});
    } else {
      SinglePiece(len, unit, k);
      assert f.payload == whole.payload;
    }
  }

  lemma SinglePiece(len: nat, unit: nat, k: nat)
    requires 0 < len <= unit && IsIndex(len, unit, k)
    ensures k == 0 && All(len, unit) == {0}
  {
    forall j | j in All(len, unit)
      ensures j == 0
    {
      assert IsIndex(len, unit, j);
    }
    assert 0 in All(len, unit);
  }

  /** The run `mine` is made of the fragments of `whole` with the numbers in `order`. */
  ghost predicate Fragmentary(mine: seq<Arrival>, whole: Datagram, unit: nat, order: seq<nat>) {
    && |mine| == |order|
    && forall i :: 0 <= i < |order| ==>
         && IsIndex(|whole.payload|, unit, order[i])
         && mine[i].d == FragmentAt(whole, unit, Begin(order[i], unit))
  }

  lemma {:induction false} GotWithin(len: nat, unit: nat, order: seq<nat>)
    requires unit > 0
    requires forall i :: 0 <= i < |order| ==> IsIndex(len, unit, order[i])
    ensures Got(len, unit, order) <= All(len, unit)
    ensures 0 < len <= unit ==> Got(len, unit, order) == {}
    decreases |order|
  {
    if order != [] {
      GotWithin(len, unit, Init(order));
      InAll(len, unit, Last(order));
      if 0 < len <= unit { SinglePiece(len, unit, Last(order)); }
    }
  }

  /** Alone: every arrival of a fragment delivers the payload or nothing, as the reference says. */
  lemma {:induction false} RoundTripAlone(mine: seq<Arrival>, whole: Datagram, unit: nat, order: seq<nat>)
    requires Cut(|whole.payload|, unit) && AllSound(mine) && Fragmentary(mine, whole, unit, order)
    ensures Holds(AloneAfter(None, mine), whole.payload, unit, Got(|whole.payload|, unit, order))
    ensures mine != [] ==>
              AloneStep(AloneAfter(None, Init(mine)), Last(mine)).out
              == if Got(|whole.payload|, unit, Init(order)) + {Last(order)} == All(|whole.payload|, unit)
                 then Some(whole.payload) else None
    decreases |mine|
  {
    if mine != [] {
      RoundTripAlone(Init(mine), whole, unit, Init(order));
      GotWithin(|whole.payload|, unit, Init(order));
      ArrivalStep(AloneAfter(None, Init(mine)), whole, unit,
                  Got(|whole.payload|, unit, Init(order)), Last(order), Last(mine).later);
    }
  }

  /**
   * The round trip: fragments of `whole` arrive in any order, with duplicates,
   * among the fragments of other datagrams. Each arrival delivers the exact
   * payload if it completes the set of fragments received since the last
   * delivery, and nothing otherwise.
   */
  lemma RoundTrip(t: Table, run: seq<Arrival>, whole: Datagram, key: Key, unit: nat, order: seq<nat>)
    requires TableInv(t) && AllSound(run) && Names(whole, key)
    requires Lookup(t.slots, key).None? && Undisturbed(t, run, key)
    requires Cut(|whole.payload|, unit)
    requires Fragmentary(Mine(run, key), whole, unit, order)
    requires run != [] && Names(Last(run).d, key)
    ensures LastStep(t, run).Some?
    ensures LastStep(t, run).value.out
            == if Got(|whole.payload|, unit, Init(order)) + {Last(order)} == All(|whole.payload|, unit)
               then Some(whole.payload) else None
  {
    var mine := Mine(run, key);
    Isolation(t, run, key);
    RoundTripAlone(mine, whole, unit, order);
    assert Init(mine) == Mine(Init(run), key) && Last(mine) == Last(run);
  }
}
