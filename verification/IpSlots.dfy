/**
 * How long slots last: a run that is short enough and has few enough
 * datagrams is undisturbed, and what an expired context costs for good.
 */
module IpSlots {
  import opened IpPacket
  import opened IpReassembly
  import opened IpRoundTrip
  import opened Wrappers

  const EMPTY := Table([], 0)

  // ------------------------------------------------------------ short runs

  function KeysIn(run: seq<Arrival>): set<Key> {
    set i | 0 <= i < |run| :: KeyOf(run[i].d)
  }

  function SlotKeys(slots: seq<Slot>): set<Key> {
    set i | 0 <= i < |slots| :: slots[i].key
  }

  /** Every patrol of the run comes within the time-out of its earliest stamp. */
  predicate Brief(run: seq<Arrival>, start: int) {
    forall i :: 0 <= i < |run| ==> start <= run[i].later && run[i].now <= start + TIMEOUT
  }

  lemma {:induction false} DistinctSize(slots: seq<Slot>)
    requires Distinct(slots)
    ensures |SlotKeys(slots)| == |slots|
  {
    if slots != [] {
      var init := slots[..|slots| - 1];
      DistinctSize(init);
      var k := slots[|slots| - 1].key;
      assert SlotKeys(slots) == SlotKeys(init) + {k};
      assert k !in SlotKeys(init);
    }
  }

  lemma {:induction false} SubsetSize<T>(a: set<T>, b: set<T>)
    requires a <= b
    ensures |a| <= |b|
  {
    if a != {} {
      var x :| x in a;
      SubsetSize(a - {x}, b - {x});
    }
  }

  lemma {:induction false} PatrolIdle(slots: seq<Slot>, now: int)
    requires forall i :: 0 <= i < |slots| ==> !Expired(slots[i], now)
    ensures Patrol(slots, now) == slots
  {
    if slots != [] { PatrolIdle(slots[1..], now); }
  }

  /** The counter is exact, the keys are among those seen, the stamps are recent. */
  ghost predicate Tidy(t: Table, keys: set<Key>, start: int) {
    && t.count == |t.slots|
    && SlotKeys(t.slots) <= keys
    && forall i :: 0 <= i < |t.slots| ==> start <= t.slots[i].stamp
  }

  lemma UpdateTidy(slots: seq<Slot>, j: nat, d: Datagram, later: int, keys: set<Key>, start: int)
    requires AllSized(slots) && j < |slots| && Fits(d) && start <= later
    requires forall i :: 0 <= i < |slots| && i != j ==> slots[i].key in keys && start <= slots[i].stamp
    requires slots[j].key in keys
    ensures Tidy(Update(slots, |slots|, j, d, later).next, keys, start)
  {
    var x := Absorb(slots[j], d, later);
    var r := Update(slots, |slots|, j, d, later).next.slots;
    assert forall i :: 0 <= i < |r| ==>
        r[i] == if !Complete(x) then (if i == j then x else slots[i])
                else if i < j then slots[i] else slots[i + 1];
  }

  lemma StepTidy(t: Table, a: Arrival, keys: set<Key>, start: int)
    requires TableInv(t) && Sound(a.d) && Tidy(t, keys, start)
    requires start <= a.later && a.now <= start + TIMEOUT
    ensures Tidy(StepOf(t, a).next, keys + {KeyOf(a.d)}, start)
  {
    if IsFragment(a.d.offset) {
      PatrolIdle(t.slots, a.now);
      forall i | 0 <= i < |t.slots|
        ensures t.slots[i].key in keys
      {
        assert t.slots[i].key in SlotKeys(t.slots);
      }
      var i := Find(t.slots, KeyOf(a.d));
      if i < |t.slots| {
        UpdateTidy(t.slots, i, a.d, a.later, keys + {KeyOf(a.d)}, start);
      } else if t.count < CONTEXTS_MAX {
        UpdateTidy([Fresh(KeyOf(a.d))] + t.slots, 0, a.d, a.later, keys + {KeyOf(a.d)}, start);
      }
    }
  }

  lemma {:induction false} AfterTidy(run: seq<Arrival>, start: int)
    requires AllSound(run) && Brief(run, start)
    ensures Tidy(After(EMPTY, run), KeysIn(run), start)
    decreases |run|
  {
    if run != [] {
      AfterTidy(Init(run), start);
      StepTidy(After(EMPTY, Init(run)), Last(run), KeysIn(Init(run)), start);
      KeysGrow(run);
    }
  }

  lemma KeysGrow(run: seq<Arrival>)
    requires run != []
    ensures KeysIn(run) == KeysIn(Init(run)) + {KeyOf(Last(run).d)}
  {
    forall k | k in KeysIn(Init(run)) + {KeyOf(Last(run).d)}
      ensures k in KeysIn(run)
    {
      if k == KeyOf(Last(run).d) {
        assert KeyOf(run[|run| - 1].d) == k;
      } else {
        var i :| 0 <= i < |Init(run)| && KeyOf(Init(run)[i].d) == k;
        assert KeyOf(run[i].d) == k;
      }
    }
  }

  /** A table whose contexts are among eight keys has room for the missing one. */
  lemma RoomLeft(t: Table, keys: set<Key>, start: int, key: Key)
    requires TableInv(t) && Tidy(t, keys, start) && |keys + {key}| <= CONTEXTS_MAX
    requires Lookup(t.slots, key).None?
    ensures t.count < CONTEXTS_MAX
  {
    DistinctSize(t.slots);
    assert key !in SlotKeys(t.slots);
    SubsetSize(SlotKeys(t.slots) + {key}, keys + {key});
  }

  /**
   * From an empty table, a run of at most eight datagrams within the time-out
   * disturbs none of them.
   */
  lemma {:induction false} FewAndBrief(run: seq<Arrival>, start: int, key: Key)
    requires AllSound(run) && Brief(run, start)
    requires |KeysIn(run)| <= CONTEXTS_MAX
    ensures Undisturbed(EMPTY, run, key)
    decreases |run|
  {
    if run != [] {
      KeysGrow(run);
      SubsetSize(KeysIn(Init(run)), KeysIn(run));
      FewAndBrief(Init(run), start, key);
      AfterTidy(Init(run), start);
      var t, a := After(EMPTY, Init(run)), Last(run);
      if Lookup(t.slots, key).None? && Names(a.d, key) {
        RoomLeft(t, KeysIn(Init(run)), start, key);
      }
    }
  }

  /** The round trip of such a run, with nothing else asked of it. */
  lemma BriefRoundTrip(run: seq<Arrival>, start: int, whole: Datagram, key: Key, unit: nat, order: seq<nat>)
    requires AllSound(run) && Brief(run, start) && |KeysIn(run)| <= CONTEXTS_MAX
    requires Names(whole, key) && Cut(|whole.payload|, unit)
    requires Fragmentary(Mine(run, key), whole, unit, order)
    requires run != [] && Names(Last(run).d, key)
    ensures order != [] && LastStep(EMPTY, run).Some?
    ensures LastStep(EMPTY, run).value.out
            == if Got(|whole.payload|, unit, Init(order)) + {Last(order)} == All(|whole.payload|, unit)
               then Some(whole.payload) else None
  {
    FewAndBrief(run, start, key);
    RoundTrip(EMPTY, run, whole, key, unit, order);
  }

  // ------------------------------------------------------- what expiry costs

  /** Contexts the patrols of a run have removed. */
  ghost function Lost(t: Table, run: seq<Arrival>): nat
    requires TableInv(t) && AllSound(run)
    decreases |run|
  {
    if run == [] then 0
    else Lost(t, Init(run)) + Dropped(After(t, Init(run)), Last(run))
  }

  ghost function Dropped(t: Table, a: Arrival): nat {
    PatrolFilters(t.slots, a.now);
    if IsFragment(a.d.offset) then |t.slots| - |Patrol(t.slots, a.now)| else 0
  }

  lemma StepLeaks(t: Table, a: Arrival)
    requires TableInv(t) && Sound(a.d)
    ensures var n := StepOf(t, a).next;
            n.count - |n.slots| == t.count - |t.slots| + Dropped(t, a)
  {
    PatrolFilters(t.slots, a.now);
  }

  /**
   * Conservation of slots, in every run the code survives: the counter exceeds
   * the number of contexts by the number of contexts that ever expired
   * (ip.c:190-192 adds nothing back).
   */
  lemma SlotsLeak(t: Table, run: seq<Arrival>)
    requires TableInv(t) && AllSound(run) && Orderly(t, run)
    ensures var u := Written(t, run);
            u.Some? && u.value.count - |u.value.slots| == t.count - |t.slots| + Lost(t, run)
  {
    WrittenIff(t, run);
    MeantLeak(t, run);
  }

  lemma {:induction false} MeantLeak(t: Table, run: seq<Arrival>)
    requires TableInv(t) && AllSound(run)
    ensures var u := After(t, run);
            u.count - |u.slots| == t.count - |t.slots| + Lost(t, run)
    decreases |run|
  {
    if run != [] {
      MeantLeak(t, Init(run));
      StepLeaks(After(t, Init(run)), Last(run));
    }
  }

  lemma {:induction false} DropsLast(slots: seq<Slot>, now: int)
    requires OnlyLastExpired(slots, now)
    ensures |slots| - 1 <= |Patrol(slots, now)|
  {
    if |slots| > 1 {
      assert forall i :: 0 <= i < |slots| - 1 ==> slots[1..][i] == slots[i + 1];
      DropsLast(slots[1..], now);
    }
  }

  /** In every run the code survives, a patrol removes at most one context, and all of them at most eight. */
  lemma LostAtMost(run: seq<Arrival>)
    requires AllSound(run) && Orderly(EMPTY, run)
    ensures Lost(EMPTY, run) <= CONTEXTS_MAX
    ensures run != [] ==> Lost(EMPTY, run) <= Lost(EMPTY, Init(run)) + 1
  {
    MeantLeak(EMPTY, run);
    if run != [] && IsFragment(Last(run).d.offset) {
      DropsLast(After(EMPTY, Init(run)).slots, Last(run).now);
    }
  }

  /** A run with eight contexts lost leaves nothing to patrol and no slot. */
  lemma {:induction false} MeantExhausted(more: seq<Arrival>)
    requires AllSound(more)
    ensures var t := Table([], CONTEXTS_MAX);
            && After(t, more) == t && Orderly(t, more)
            && (more != [] && IsFragment(Last(more).d.offset) ==> StepOf(After(t, Init(more)), Last(more)).out == None)
    decreases |more|
  {
    if more != [] { MeantExhausted(Init(more)); }
  }

  /** Once eight have expired, the code goes on, and no fragment is delivered any more. */
  lemma Exhausted(before: seq<Arrival>, more: seq<Arrival>)
    requires AllSound(before) && AllSound(more) && Orderly(EMPTY, before)
    requires Lost(EMPTY, before) == CONTEXTS_MAX
    ensures Written(EMPTY, before) == Some(Table([], CONTEXTS_MAX))
    ensures var t := Table([], CONTEXTS_MAX);
            && Written(t, more) == Some(t)
            && (more != [] && IsFragment(Last(more).d.offset) ==> LastStep(t, more) == Some(Step(t, None)))
  {
    WrittenIff(EMPTY, before);
    MeantLeak(EMPTY, before);
    MeantExhausted(more);
    WrittenIff(Table([], CONTEXTS_MAX), more);
  }

  // --------------------------------------------------- eight that all expire

  /** The first fragment of datagram `k`, 100 seconds after that of the one before. */
  function Orphan(k: nat): Arrival
    requires k <= 8
  {
    Arrival(Datagram(k, 0x2000, 17, 1, 2, [0, 0, 0, 0, 0, 0, 0, 0]), 100 * k, 100 * k)
  }

  function Orphans(n: nat): seq<Arrival>
    requires n <= 9
  {
    seq(n, k requires 0 <= k < n => Orphan(k))
  }

  lemma OrphanSound(k: nat)
    requires k <= 8
    ensures IsFragment(Orphan(k).d.offset) && More(Orphan(k).d.offset) && Fits(Orphan(k).d)
  {
  }

  lemma OrphansSound(n: nat)
    requires n <= 9
    ensures AllSound(Orphans(n))
  {
    forall k | 0 <= k < n
      ensures Sound(Orphans(n)[k].d)
    {
      OrphanSound(k);
    }
  }

  /** One context, as old as orphan `k`, with no length yet. */
  ghost predicate HoldsOrphan(t: Table, k: nat)
    requires k <= 8
  {
    && t.count == k + 1 && |t.slots| == 1
    && t.slots[0].key == KeyOf(Orphan(k).d) && t.slots[0].stamp == 100 * k && t.slots[0].len == 0
  }

  lemma PatrolOne(s: Slot, now: int)
    ensures Patrol([s], now) == if Expired(s, now) then [] else [s]
  {
    assert [s][1..] == [];
  }

  /** The next orphan finds the last one expired and takes the next slot, if there is one. */
  lemma OrphanStep(t: Table, k: nat)
    requires 1 <= k <= 8 && TableInv(t) && HoldsOrphan(t, k - 1) && Sound(Orphan(k).d)
    ensures Dropped(t, Orphan(k)) == 1 && OnlyLastExpired(t.slots, Orphan(k).now)
    ensures k < 8 ==> HoldsOrphan(StepOf(t, Orphan(k)).next, k)
  {
    OrphanSound(k);
    PatrolOne(t.slots[0], 100 * k);
    assert t.slots == [t.slots[0]];
  }

  lemma FirstOrphan()
    requires Sound(Orphan(0).d)
    ensures Dropped(EMPTY, Orphan(0)) == 0 && HoldsOrphan(StepOf(EMPTY, Orphan(0)).next, 0)
  {
    OrphanSound(0);
  }

  lemma OrphansNext(n: nat)
    requires 1 <= n <= 9
    ensures Init(Orphans(n)) == Orphans(n - 1) && Last(Orphans(n)) == Orphan(n - 1) && Sound(Orphan(n - 1).d)
    ensures AllSound(Orphans(n)) && AllSound(Orphans(n - 1))
  {
    OrphansSound(n);
    OrphansSound(n - 1);
    OrphanSound(n - 1);
  }

  lemma OneOrphan()
    requires AllSound(Orphans(1))
    ensures Lost(EMPTY, Orphans(1)) == 0 && Orderly(EMPTY, Orphans(1)) && HoldsOrphan(After(EMPTY, Orphans(1)), 0)
  {
    OrphansNext(1);
    assert Orphans(0) == [];
    FirstOrphan();
  }

  lemma {:induction false} OrphansExpire(n: nat)
    requires 1 <= n <= 9 && AllSound(Orphans(n))
    ensures Lost(EMPTY, Orphans(n)) == n - 1 && Orderly(EMPTY, Orphans(n))
    ensures n <= 8 ==> HoldsOrphan(After(EMPTY, Orphans(n)), n - 1)
  {
    if n == 1 {
      OneOrphan();
    } else {
      OrphansNext(n);
      OrphansExpire(n - 1);
      OrphanStep(After(EMPTY, Orphans(n - 1)), n - 1);
    }
  }

  /**
   * Nine lone first fragments, 100 seconds apart, use up every slot for good:
   * eight contexts expire, which is as many as ever can, and from then on no
   * fragment is delivered.
   */
  lemma SlotsRunOut(more: seq<Arrival>)
    requires AllSound(more)
    ensures AllSound(Orphans(9)) && Orderly(EMPTY, Orphans(9)) && Lost(EMPTY, Orphans(9)) == CONTEXTS_MAX
    ensures Written(EMPTY, Orphans(9)) == Some(Table([], CONTEXTS_MAX))
    ensures var t := Table([], CONTEXTS_MAX);
            && Written(t, more) == Some(t)
            && (more != [] && IsFragment(Last(more).d.offset) ==> LastStep(t, more) == Some(Step(t, None)))
  {
    OrphansSound(9);
    OrphansExpire(9);
    Exhausted(Orphans(9), more);
  }
}
