/** Bits of a 32-bit word. */
module WordBits {
  const ONES: bv32 := 0xffffffff

  predicate At(w: bv32, j: bv6)
    requires j < 32
  {
    (w >> j) & 1 == 1
  }

  lemma OrAt(v: bv32, w: bv32, j: bv6)
    requires j < 32
    ensures At(v | w, j) <==> At(v, j) || At(w, j)
  {
  }

  lemma MissingAt(v: bv32, w: bv32, j: bv6)
    requires j < 32
    ensures At((v & w) ^ w, j) <==> At(w, j) && !At(v, j)
  {
  }

  lemma LowAt(m: bv6, j: bv6)
    requires m < 32 && j < 32
    ensures At(ONES >> m, j) <==> j < 32 - m
  {
  }

  lemma ShiftedAt(w: bv32, s: bv6, j: bv6)
    requires s < 32 && j < 32
    ensures At(w << s, j) <==> s <= j && At(w, j - s)
  {
  }

  lemma ZeroAt(j: bv6)
    requires j < 32
    ensures !At(0, j)
  {
  }

  lemma ShiftOnceAt(d: bv32, m: bv6, n: bv6)
    requires m < 32 && m == n - 1
    ensures n <= 32 && (d >> 1) >> m == d >> n
  {
  }

  lemma ShiftEndsAt(d: bv32)
    ensures d & 1 == 0 && d != 0 ==> d >> 1 != 0
    ensures d >> 0 == d && d >> 32 == 0
  {
  }

  // ------------------------------------- shift counts as integers

  lemma CastLess(x: bv6, y: bv6)
    ensures x < y <==> (x as int) < (y as int)
  {
  }

  lemma CastBack(n: nat)
    requires n < 64
    ensures (n as bv6) as int == n
  {
  }

  lemma CastMinus(x: bv6, y: bv6)
    requires y <= x
    ensures (x - y) as int == (x as int) - (y as int)
  {
  }

  lemma CastInjective(x: bv6, y: bv6)
    requires x as int == y as int
    ensures x == y
  {
  }

  lemma CastLe(n: nat, m: nat)
    requires n < 64 && m < 64
    ensures (n as bv6) <= (m as bv6) <==> n <= m
  {
    CastBack(n);
    CastBack(m);
    CastLess(m as bv6, n as bv6);
  }

  lemma Small(j: nat)
    requires j < 32
    ensures (j as bv6) < 32
  {
    CastLe(32, j);
  }

  lemma CastDifference(n: nat, m: nat)
    requires m <= n < 64
    ensures (n - m) as bv6 == (n as bv6) - (m as bv6)
  {
    var d, x, y := (n - m) as bv6, n as bv6, m as bv6;
    assert d as int == (x as int) - (y as int) by {
      CastBack(n);
      CastBack(m);
      CastBack(n - m);
    }
    assert y <= x by { CastLe(m, n); }
    CastMinus(x, y);
    CastInjective(d, x - y);
  }

  // ------------------------------------------------- bits by integer index

  predicate Bit(w: bv32, j: nat)
    requires j < 32
  {
    Small(j);
    At(w, j as bv6)
  }

  function Shr(w: bv32, n: nat): bv32
    requires n <= 32
  {
    CastLe(n, 32);
    w >> (n as bv6)
  }

  function Shl(w: bv32, n: nat): bv32
    requires n < 32
  {
    Small(n);
    w << (n as bv6)
  }

  /** `(0xffffffff >> (32 - n)) << s`. */
  function Run(s: nat, n: nat): bv32
    requires 1 <= n && s + n <= 32
  {
    Shl(Shr(ONES, 32 - n), s)
  }

  lemma OrBit(v: bv32, w: bv32, j: nat)
    requires j < 32
    ensures Bit(v | w, j) <==> Bit(v, j) || Bit(w, j)
  {
    Small(j);
    OrAt(v, w, j as bv6);
  }

  /** `(v & w) ^ w` has the bits of `w` that `v` misses. */
  lemma MissingBit(v: bv32, w: bv32, j: nat)
    requires j < 32
    ensures Bit((v & w) ^ w, j) <==> Bit(w, j) && !Bit(v, j)
  {
    Small(j);
    MissingAt(v, w, j as bv6);
  }

  lemma ZeroBit(j: nat)
    requires j < 32
    ensures !Bit(0, j)
  {
    Small(j);
    ZeroAt(j as bv6);
  }

  lemma LowBit(n: nat, j: nat)
    requires 1 <= n <= 32 && j < 32
    ensures Bit(Shr(ONES, 32 - n), j) <==> j < n
  {
    Small(32 - n);
    Small(j);
    CastDifference(32, 32 - n);
    CastLe(n, j);
    LowBelow((32 - n) as bv6, n as bv6, j as bv6);
  }

  lemma LowBelow(m: bv6, n: bv6, j: bv6)
    requires m < 32 && j < 32 && n == 32 - m
    ensures At(ONES >> m, j) <==> !(n <= j)
  {
    LowAt(m, j);
  }

  lemma ShiftedBit(w: bv32, s: nat, j: nat)
    requires s < 32 && j < 32
    ensures Bit(Shl(w, s), j) <==> s <= j && Bit(w, j - s)
  {
    Small(s);
    Small(j);
    ShiftedAt(w, s as bv6, j as bv6);
    CastLe(s, j);
    if s <= j { CastDifference(j, s); }
  }

  /** A run of ones has exactly its own bits. */
  lemma RunBit(s: nat, n: nat, j: nat)
    requires 1 <= n && s + n <= 32 && j < 32
    ensures Bit(Run(s, n), j) <==> s <= j < s + n
  {
    ShiftedBit(Shr(ONES, 32 - n), s, j);
    if s <= j { LowBit(n, j - s); }
  }

  lemma ShiftEnds(d: bv32)
    ensures Shr(d, 0) == d && Shr(d, 32) == 0
    ensures d & 1 == 0 && d != 0 ==> d >> 1 != 0
  {
    ShiftEndsAt(d);
  }

  lemma OnesAt(w: bv32)
    ensures w | 0xffffffff == 0xffffffff
  {
  }

  lemma NotOnesAt(w: bv32)
    ensures w ^ 0xffffffff == 0 <==> (w & 0xffffffff) ^ 0xffffffff == 0
  {
  }

  lemma NoShiftAt(w: bv32)
    ensures w >> 0 == w
  {
  }

  lemma OnesBit(j: nat)
    requires j < 32
    ensures Bit(ONES, j)
  {
    NoShiftAt(ONES);
    LowBit(32, j);
  }

  lemma ShiftOnce(d: bv32, m: nat)
    requires m < 32
    ensures Shr(d >> 1, m) == Shr(d, m + 1)
  {
    var x, y := m as bv6, (m + 1) as bv6;
    assert x < 32 by { Small(m); }
    assert x == y - 1 by { CastDifference(m + 1, 1); }
    ShiftOnceAt(d, x, y);
    assert Shr(d >> 1, m) == (d >> 1) >> x;
    assert Shr(d, m + 1) == d >> y;
  }

  lemma NextBit(d: bv32, j: nat)
    requires j < 31
    ensures Bit(d >> 1, j) <==> Bit(d, j + 1)
  {
    ShiftOnce(d, j);
    assert Bit(d >> 1, j) <==> Shr(d >> 1, j) & 1 == 1;
    assert Bit(d, j + 1) <==> Shr(d, j + 1) & 1 == 1;
  }

  /** A word that is not zero has a bit. */
  lemma {:induction false} SomeBit(d: bv32, n: nat) returns (j: nat)
    requires n <= 32 && d != 0 && Shr(d, n) == 0
    ensures j < n && Bit(d, j)
    decreases n
  {
    ShiftEnds(d);
    if d & 1 == 1 {
      j := 0;
      assert Bit(d, 0) <==> Shr(d, 0) & 1 == 1;
    } else {
      ShiftOnce(d, n - 1);
      j := SomeBit(d >> 1, n - 1);
      NextBit(d, j);
      j := j + 1;
    }
  }

  /** The word test of `maskchk`: no bit of `r` is missing in `w`. */
  lemma MissesNone(w: bv32, r: bv32)
    ensures (w & r) ^ r == 0 <==> forall j :: 0 <= j < 32 && Bit(r, j) ==> Bit(w, j)
  {
    var d := (w & r) ^ r;
    if d != 0 {
      ShiftEnds(d);
      var j := SomeBit(d, 32);
      MissingBit(w, r, j);
    } else {
      forall j | 0 <= j < 32 && Bit(r, j)
        ensures Bit(w, j)
      {
        MissingBit(w, r, j);
        ZeroBit(j);
      }
    }
  }
}
