/**
 * When the fragments of `ip_tx` can be put together again: the cut must fall
 * on multiples of eight bytes, because the offset field counts in eights
 * (ip.c:478-480, ip.c:213).
 */
module IpAlignment {
  import opened IpPacket
  import opened IpFragments
  import opened IpReassembly
  import opened IpRoundTrip
  import opened Wrappers
  import Mask

  /** A fragmented payload cut at no multiple of eight. */
  predicate Skewed(len: nat, unit: nat) {
    0 < unit < len <= CAPACITY && unit % 8 != 0
  }

  /** Where the receiver puts fragment `k`. */
  function Placed(unit: nat, k: nat): nat {
    Begin(k, unit) / 8 * 8
  }

  function PlacedEnd(len: nat, unit: nat, k: nat): nat
    requires IsIndex(len, unit, k)
  {
    Placed(unit, k) + SliceSize(len, unit, Begin(k, unit))
  }

  lemma DecodedSkewed(whole: Datagram, unit: nat, k: nat)
    requires var len := |whole.payload|; Skewed(len, unit) && IsIndex(len, unit, k)
    ensures var f, len := FragmentAt(whole, unit, Begin(k, unit)), |whole.payload|;
            && Position(f.offset) == Placed(unit, k)
            && Placed(unit, k) + |f.payload| == PlacedEnd(len, unit, k)
            && (More(f.offset) <==> EndOf(len, unit, k) < len)
            && Fits(f)
            && (IsFragment(f.offset) <==> EndOf(len, unit, k) < len || Begin(k, unit) >= 8)
  {
    var len := |whole.payload|;
    OffsetDecodes(Begin(k, unit), if EndOf(len, unit, k) < len then 0x2000 else 0);
  }

  /** The length the last fragment announces. */
  ghost predicate Announced(n: nat, len: nat, unit: nat) {
    exists k :: IsIndex(len, unit, k) && EndOf(len, unit, k) == len && n == PlacedEnd(len, unit, k)
  }

  /** Nothing outside the placed fragments is covered; no other length is announced. */
  ghost predicate Bounded(s: Slot, len: nat, unit: nat) {
    && Sized(s)
    && (forall p: nat :: p in s.cover ==>
          exists k :: IsIndex(len, unit, k) && Placed(unit, k) <= p < PlacedEnd(len, unit, k))
    && (s.len == 0 || Announced(s.len, len, unit))
  }

  lemma AbsorbBounded(s: Slot, whole: Datagram, unit: nat, k: nat, later: int)
    requires var len := |whole.payload|; Skewed(len, unit) && IsIndex(len, unit, k)
    requires Bounded(s, |whole.payload|, unit)
    requires Fits(FragmentAt(whole, unit, Begin(k, unit)))
    ensures Bounded(Absorb(s, FragmentAt(whole, unit, Begin(k, unit)), later), |whole.payload|, unit)
  {
    var len := |whole.payload|;
    DecodedSkewed(whole, unit, k);
    var x := Absorb(s, FragmentAt(whole, unit, Begin(k, unit)), later);
    forall p: nat | p in x.cover && p !in s.cover
      ensures Placed(unit, k) <= p < PlacedEnd(len, unit, k)
    {
      assert Mask.Within(p, Placed(unit, k), PlacedEnd(len, unit, k));
    }
  }

  // ------------------------------------------------------------------ the gap

  /** No fragment covers the position just before an aligned start that follows a skewed one. */
  lemma GapBefore(len: nat, unit: nat, j: nat, i: nat)
    requires unit > 8 && IsIndex(len, unit, j + 1) && IsIndex(len, unit, i)
    requires Begin(j, unit) % 8 != 0 && Begin(j + 1, unit) % 8 == 0
    ensures Begin(j + 1, unit) > 0
    ensures !(Placed(unit, i) <= Begin(j + 1, unit) - 1 < PlacedEnd(len, unit, i))
  {
    if i < j {
      BeginGrows(i, j, unit);
    } else if i > j {
      BeginGrows(j + 1, i, unit);
    }
  }

  /** With units below eight no fragment reaches the seventh position of its block. */
  lemma SmallUnitGap(len: nat, unit: nat, i: nat)
    requires 0 < unit < 8 && IsIndex(len, unit, i)
    ensures !(Placed(unit, i) <= 7 < PlacedEnd(len, unit, i))
  {
  }

  lemma CoversAll(s: Slot, p: nat)
    requires Complete(s) && p < s.len
    ensures p in s.cover
  {
    assert Mask.Within(p, 0, s.len) && p in Mask.Range(0, s.len);
  }

  /** The last fragment either announces too short a length or leaves a gap before it. */
  lemma NeverWhole(len: nat, unit: nat, last: nat, s: Slot)
    requires Skewed(len, unit) && IsIndex(len, unit, last) && EndOf(len, unit, last) == len
    requires Bounded(s, len, unit) && Complete(s)
    ensures s.len != len
  {
    if s.len == len {
      var k :| IsIndex(len, unit, k) && EndOf(len, unit, k) == len && s.len == PlacedEnd(len, unit, k);
      OnlyOne(len, unit, len - 1, k, last);
      assert Begin(last, unit) % 8 == 0;
      assert last >= 1;
      var g := Uncovered(len, unit, last);
      CoversAll(s, g);
    }
  }

  /** No fragment covers position `g`. */
  ghost predicate IsGap(len: nat, unit: nat, g: nat) {
    g < len && forall i: nat :: IsIndex(len, unit, i) ==> !(Placed(unit, i) <= g < PlacedEnd(len, unit, i))
  }

  lemma SmallGap(len: nat, unit: nat)
    requires 0 < unit < 8 && 7 < len
    ensures IsGap(len, unit, 7)
  {
    forall i: nat | IsIndex(len, unit, i)
      ensures !(Placed(unit, i) <= 7 < PlacedEnd(len, unit, i))
    {
      SmallUnitGap(len, unit, i);
    }
  }

  lemma LargeGap(len: nat, unit: nat, j: nat)
    requires unit > 8 && IsIndex(len, unit, j + 1)
    requires Begin(j, unit) % 8 != 0 && Begin(j + 1, unit) % 8 == 0
    ensures Begin(j + 1, unit) > 0 && IsGap(len, unit, Begin(j + 1, unit) - 1)
  {
    GapBefore(len, unit, j, j);
    forall i: nat | IsIndex(len, unit, i)
      ensures !(Placed(unit, i) <= Begin(j + 1, unit) - 1 < PlacedEnd(len, unit, i))
    {
      GapBefore(len, unit, j, i);
    }
  }

  lemma BeginNext(k: nat, unit: nat)
    ensures Begin(k + 1, unit) == Begin(k, unit) + unit
  {
  }

  lemma SkewBefore(a: nat, unit: nat)
    requires unit % 8 != 0 && (a + unit) % 8 == 0
    ensures a % 8 != 0 && a + unit >= 8
  {
  }

  lemma Uncovered(len: nat, unit: nat, last: nat) returns (g: nat)
    requires Skewed(len, unit) && IsIndex(len, unit, last) && last >= 1
    requires Begin(last, unit) % 8 == 0
    ensures IsGap(len, unit, g)
  {
    var j := last - 1;
    BeginNext(j, unit);
    SkewBefore(Begin(j, unit), unit);
    if unit < 8 {
      g := 7;
      SmallGap(len, unit);
    } else {
      LargeGap(len, unit, j);
      g := Begin(j + 1, unit) - 1;
    }
  }

  // ----------------------------------------------------------------- all runs

  ghost predicate BoundedOption(s: Option<Slot>, len: nat, unit: nat) {
    s.Some? ==> Bounded(s.value, len, unit)
  }

  lemma {:induction false} StaysBounded(mine: seq<Arrival>, whole: Datagram, unit: nat, order: seq<nat>)
    requires Skewed(|whole.payload|, unit) && AllSound(mine) && Fragmentary(mine, whole, unit, order)
    ensures BoundedOption(AloneAfter(None, mine), |whole.payload|, unit)
    ensures mine != [] ==> AloneStep(AloneAfter(None, Init(mine)), Last(mine)).out != Some(whole.payload)
    decreases |mine|
  {
    var len := |whole.payload|;
    if mine != [] {
      StaysBounded(Init(mine), whole, unit, Init(order));
      var s, a, k := AloneAfter(None, Init(mine)), Last(mine), Last(order);
      DecodedSkewed(whole, unit, k);
      var c := if s.Some? then s.value else Fresh(KeyOf(a.d));
      AbsorbBounded(c, whole, unit, k, a.later);
      var x := Absorb(c, a.d, a.later);
      if Complete(x) {
        var last := Locate(len, unit, len - 1);
        NeverWhole(len, unit, last, x);
      }
    }
  }

  // -------------------------------------------------------- the exact condition

  /** Some run of fragments of `whole` ends by delivering its payload. */
  ghost predicate Delivers(mine: seq<Arrival>, whole: Datagram, unit: nat, order: seq<nat>) {
    && mine != [] && AllSound(mine) && Fragmentary(mine, whole, unit, order)
    && AloneStep(AloneAfter(None, Init(mine)), Last(mine)).out == Some(whole.payload)
  }

  function UpTo(n: nat): seq<nat> {
    seq(n, k => k)
  }

  function InOrder(fs: seq<Datagram>): seq<Arrival> {
    seq(|fs|, k requires 0 <= k < |fs| => Arrival(fs[k], 0, 0))
  }

  ghost function Below(n: nat): set<nat> {
    set k: nat | k < n && Mask.Within(k, 0, n)
  }

  lemma {:induction false} GotInOrder(len: nat, unit: nat, n: nat)
    requires unit > 0 && IsIndex(len, unit, n)
    ensures Got(len, unit, UpTo(n)) == Below(n)
  {
    if n > 0 {
      assert Init(UpTo(n)) == UpTo(n - 1);
      BeginGrows(n - 1, n, unit);
      GotInOrder(len, unit, n - 1);
      assert forall k: nat :: k < n ==> Mask.Within(k, 0, n);
      assert Below(n - 1) + {n - 1} == Below(n);
      InAll(len, unit, n);
      assert n !in Below(n);
    }
  }

  lemma InOrderFragmentary(whole: Datagram, unit: nat)
    requires Cut(|whole.payload|, unit)
    ensures var fs := Fragments(whole, unit);
            && fs != [] && AllSound(InOrder(fs))
            && Fragmentary(InOrder(fs), whole, unit, UpTo(|fs|))
            && Below(|fs| - 1) + {|fs| - 1} == All(|whole.payload|, unit)
  {
    var len, fs := |whole.payload|, Fragments(whole, unit);
    FragmentsByIndex(whole, unit, 0);
    forall k | 0 <= k < |fs|
      ensures IsIndex(len, unit, k) && Sound(fs[k]) && fs[k] == FragmentAt(whole, unit, Begin(k, unit))
    {
      FragmentsByIndex(whole, unit, k);
      Decoded(whole, unit, k);
    }
    forall k: nat
      ensures k in Below(|fs| - 1) + {|fs| - 1} <==> k in All(len, unit)
    {
      FragmentsByIndex(whole, unit, k);
      InAll(len, unit, k);
      assert k in Below(|fs| - 1) <==> Mask.Within(k, 0, |fs| - 1);
    }
  }

  lemma LastCompletes(whole: Datagram, unit: nat)
    requires Cut(|whole.payload|, unit)
    ensures var n, len := |Fragments(whole, unit)|, |whole.payload|;
            && n > 0 && UpTo(n) != [] && Last(UpTo(n)) == n - 1
            && Got(len, unit, Init(UpTo(n))) + {Last(UpTo(n))} == All(len, unit)
  {
    var fs := Fragments(whole, unit);
    InOrderFragmentary(whole, unit);
    assert Init(UpTo(|fs|)) == UpTo(|fs| - 1);
    FragmentsByIndex(whole, unit, |fs| - 1);
    GotInOrder(|whole.payload|, unit, |fs| - 1);
  }

  lemma AllInOrder(whole: Datagram, unit: nat)
    requires Cut(|whole.payload|, unit)
    ensures var fs := Fragments(whole, unit);
            Delivers(InOrder(fs), whole, unit, UpTo(|fs|))
  {
    var fs := Fragments(whole, unit);
    InOrderFragmentary(whole, unit);
    RoundTripAlone(InOrder(fs), whole, unit, UpTo(|fs|));
    LastCompletes(whole, unit);
  }

  lemma AtOnce(whole: Datagram, unit: nat)
    requires 0 < |whole.payload| <= unit
    ensures Delivers([Arrival(FragmentAt(whole, unit, 0), 0, 0)], whole, unit, [0])
  {
    assert FragmentAt(whole, unit, 0).payload == whole.payload;
  }

  /**
   * The fragments of `ip_tx` can give the payload back exactly when the
   * payload goes out whole or the unit, `mtu - 20`, is a multiple of eight.
   */
  lemma DeliverableIff(whole: Datagram, unit: nat)
    requires 0 < |whole.payload| <= CAPACITY && unit > 0
    ensures (exists mine, order :: Delivers(mine, whole, unit, order))
            <==> |whole.payload| <= unit || unit % 8 == 0
  {
    if |whole.payload| <= unit {
      AtOnce(whole, unit);
    } else if unit % 8 == 0 {
      AllInOrder(whole, unit);
    } else {
      forall mine, order | mine != [] && AllSound(mine) && Fragmentary(mine, whole, unit, order)
        ensures !Delivers(mine, whole, unit, order)
      {
        StaysBounded(mine, whole, unit, order);
      }
    }
  }
}
