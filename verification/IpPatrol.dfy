/**
 * Runs in which `ip_fragment_patrol` frees a context that is still in the list
 * (ip.c:163-171) and reads it next: the condition on expired contexts of
 * `IpRoundTrip.RoundTrip` cannot be dropped.
 */
module IpPatrol {
  import opened IpPacket
  import opened IpFragments
  import opened IpReassembly
  import opened IpRoundTrip
  import opened IpSlots
  import opened Wrappers

  /** A fragment that is not its datagram's last. */
  predicate Early(d: Datagram) {
    IsFragment(d.offset) && More(d.offset) && Fits(d)
  }

  datatype Mark = Mark(key: Key, stamp: int)

  /** Contexts with these keys and stamps, in this order, none of which knows its length. */
  ghost predicate Marked(t: Table, ms: seq<Mark>) {
    && t.count == |t.slots| == |ms|
    && forall i :: 0 <= i < |ms| ==> t.slots[i].key == ms[i].key && t.slots[i].stamp == ms[i].stamp && t.slots[i].len == 0
  }

  /** An early fragment of a datagram without a context gets one, in front. */
  lemma Joins(t: Table, ms: seq<Mark>, a: Arrival)
    requires TableInv(t) && Marked(t, ms) && Early(a.d) && |ms| < CONTEXTS_MAX
    requires forall i :: 0 <= i < |ms| ==> ms[i].key != KeyOf(a.d) && a.now - ms[i].stamp <= TIMEOUT
    ensures OnlyLastExpired(t.slots, a.now) && Marked(StepOf(t, a).next, [Mark(KeyOf(a.d), a.later)] + ms)
  {
    PatrolIdle(t.slots, a.now);
  }

  /** An early fragment of a datagram with a context renews its stamp. */
  lemma Renews(t: Table, ms: seq<Mark>, a: Arrival, j: nat)
    requires TableInv(t) && Marked(t, ms) && Early(a.d) && j < |ms| && ms[j].key == KeyOf(a.d)
    requires forall i :: 0 <= i < |ms| ==> a.now - ms[i].stamp <= TIMEOUT
    ensures OnlyLastExpired(t.slots, a.now) && Marked(StepOf(t, a).next, ms[j := Mark(KeyOf(a.d), a.later)])
  {
    PatrolIdle(t.slots, a.now);
    assert Find(t.slots, KeyOf(a.d)) == j;
  }

  /** The code survives the run and leaves such a table. */
  ghost predicate LeadsTo(run: seq<Arrival>, ms: seq<Mark>) {
    AllSound(run) && Orderly(EMPTY, run) && Marked(After(EMPTY, run), ms)
  }

  lemma Longer(run: seq<Arrival>, a: Arrival)
    requires AllSound(run) && Orderly(EMPTY, run) && Sound(a.d) && OnlyLastExpired(After(EMPTY, run).slots, a.now)
    ensures AllSound(run + [a]) && Orderly(EMPTY, run + [a])
    ensures After(EMPTY, run + [a]) == StepOf(After(EMPTY, run), a).next
  {
    assert Init(run + [a]) == run && Last(run + [a]) == a;
  }

  lemma RunJoins(run: seq<Arrival>, ms: seq<Mark>, a: Arrival)
    requires LeadsTo(run, ms) && Early(a.d) && |ms| < CONTEXTS_MAX
    requires forall i :: 0 <= i < |ms| ==> ms[i].key != KeyOf(a.d) && a.now - ms[i].stamp <= TIMEOUT
    ensures LeadsTo(run + [a], [Mark(KeyOf(a.d), a.later)] + ms)
  {
    Joins(After(EMPTY, run), ms, a);
    Longer(run, a);
  }

  lemma RunRenews(run: seq<Arrival>, ms: seq<Mark>, a: Arrival, j: nat)
    requires LeadsTo(run, ms) && Early(a.d) && j < |ms| && ms[j].key == KeyOf(a.d)
    requires forall i :: 0 <= i < |ms| ==> a.now - ms[i].stamp <= TIMEOUT
    ensures LeadsTo(run + [a], ms[j := Mark(KeyOf(a.d), a.later)])
  {
    Renews(After(EMPTY, run), ms, a, j);
    Longer(run, a);
  }

  lemma RunOfTwo(a: Arrival, b: Arrival)
    requires Early(a.d) && Early(b.d) && KeyOf(a.d) != KeyOf(b.d) && b.now - a.later <= TIMEOUT
    ensures LeadsTo([a, b], [Mark(KeyOf(b.d), b.later), Mark(KeyOf(a.d), a.later)])
  {
    var m := [Mark(KeyOf(a.d), a.later)];
    RunJoins([], [], a);
    assert [] + [a] == [a] && m + [] == m;
    RunJoins([a], m, b);
    assert [a] + [b] == [a, b];
  }

  /** A fragment that finds the first of several contexts expired ends in a read of freed memory. */
  lemma ReadsFreed(run: seq<Arrival>, ms: seq<Mark>, c: Arrival)
    requires LeadsTo(run, ms) && |ms| > 1 && c.now - ms[0].stamp > TIMEOUT
    requires IsFragment(c.d.offset) && Fits(c.d)
    ensures AllSound(run + [c]) && Written(EMPTY, run + [c]) == None
  {
    assert Init(run + [c]) == run && Last(run + [c]) == c;
    assert Expired(After(EMPTY, run).slots[0], c.now);
    WrittenIff(EMPTY, run + [c]);
  }

  /**
   * Two datagrams of which one early fragment each arrives, within the time-out
   * of each other: any fragment after the second has expired ends in a read of
   * freed memory.
   */
  lemma TwoOrphans(a: Arrival, b: Arrival, c: Arrival)
    requires Early(a.d) && Early(b.d) && !SameHeader(a.d, b.d) && b.now - a.later <= TIMEOUT
    requires IsFragment(c.d.offset) && Fits(c.d) && c.now - b.later > TIMEOUT
    ensures AllSound([a, b, c]) && Written(EMPTY, [a, b, c]) == None
  {
    SameContextIff(a.d, b.d);
    RunOfTwo(a, b);
    ReadsFreed([a, b], [Mark(KeyOf(b.d), b.later), Mark(KeyOf(a.d), a.later)], c);
    assert [a, b] + [c] == [a, b, c];
  }

  // ------------------------------------------ a datagram that is never late

  /** A payload that is cut into three fragments of at most eight bytes. */
  predicate Triple(whole: Datagram) {
    16 < |whole.payload| <= 24
  }

  lemma TripleIndex(len: nat, k: nat)
    requires 16 < len <= 24
    ensures IsIndex(len, 8, k) <==> k < 3
  {
    assert Begin(1, 8) == 8 && Begin(2, 8) == 16 && Begin(3, 8) == 24;
    if k < 3 { BeginGrows(k, 2, 8); } else { BeginGrows(3, k, 8); }
  }

  function Part(whole: Datagram, k: nat, at: int): Arrival
    requires Triple(whole) && k < 3
  {
    TripleIndex(|whole.payload|, k);
    Arrival(FragmentAt(whole, 8, Begin(k, 8)), at, at)
  }

  lemma PartEarly(whole: Datagram, k: nat, at: int)
    requires Triple(whole) && k < 3
    ensures var p := Part(whole, k, at);
            && KeyOf(p.d) == KeyOf(whole) && IsFragment(p.d.offset) && Fits(p.d)
            && (k < 2 ==> Early(p.d))
  {
    TripleIndex(|whole.payload|, k);
    Decoded(whole, 8, k);
    assert Begin(1, 8) == 8 && Begin(2, 8) == 16;
  }

  /** On its own the last of the three fragments delivers the payload. */
  lemma PartsAlone(whole: Datagram)
    requires Triple(whole)
    ensures var mine := [Part(whole, 0, 0), Part(whole, 1, 20), Part(whole, 2, 40)];
            AllSound(mine) && AloneStep(AloneAfter(None, Init(mine)), Last(mine)).out == Some(whole.payload)
  {
    var len := |whole.payload|;
    var mine := [Part(whole, 0, 0), Part(whole, 1, 20), Part(whole, 2, 40)];
    var order := [0, 1, 2];
    PartEarly(whole, 0, 0);
    PartEarly(whole, 1, 20);
    PartEarly(whole, 2, 40);
    TripleIndex(len, 0);
    TripleIndex(len, 1);
    TripleIndex(len, 2);
    RoundTripAlone(mine, whole, 8, order);
    GotTwo(len);
  }

  lemma GotTwo(len: nat)
    requires 16 < len <= 24
    ensures Got(len, 8, Init([0, 1, 2])) + {2} == All(len, 8)
  {
    forall k: nat
      ensures k in All(len, 8) <==> k in {0, 1, 2}
    {
      InAll(len, 8, k);
      TripleIndex(len, k);
    }
    assert All(len, 8) == {0, 1, 2};
    assert Init([0, 1, 2]) == [0, 1] && Init([0, 1]) == [0] && Init([0]) == [];
    assert Got(len, 8, [0]) == {0} by { assert 1 in All(len, 8); }
    assert Got(len, 8, [0, 1]) == {0, 1} by { assert 2 in All(len, 8); }
  }

  /**
   * The three fragments of `whole` come 20 seconds apart, so that its context is
   * never old, and one early fragment of another datagram comes in between. At
   * the third fragment the other context has expired in front of that of `whole`:
   * the code reads freed memory, where `whole` alone would be delivered.
   */
  lemma NeighbourExpires(whole: Datagram, other: Datagram)
    requires Triple(whole) && Early(other) && !SameHeader(other, whole)
    ensures var run := [Part(whole, 0, 0), Arrival(other, 1, 1), Part(whole, 1, 20), Part(whole, 2, 40)];
            AllSound(run) && LastStep(EMPTY, run) == None
    ensures var mine := [Part(whole, 0, 0), Part(whole, 1, 20), Part(whole, 2, 40)];
            AllSound(mine) && AloneStep(AloneAfter(None, Init(mine)), Last(mine)).out == Some(whole.payload)
  {
    PartsAlone(whole);
    SameContextIff(other, whole);
    PartEarly(whole, 0, 0);
    PartEarly(whole, 1, 20);
    PartEarly(whole, 2, 40);
    var a, b, c, d := Part(whole, 0, 0), Arrival(other, 1, 1), Part(whole, 1, 20), Part(whole, 2, 40);
    var ms := [Mark(KeyOf(other), 1), Mark(KeyOf(whole), 0)];
    RunOfTwo(a, b);
    RunRenews([a, b], ms, c, 1);
    assert [a, b] + [c] == [a, b, c] && [a, b, c] + [d] == [a, b, c, d];
    ReadsFreed([a, b, c], ms[1 := Mark(KeyOf(whole), 20)], d);
  }
}
