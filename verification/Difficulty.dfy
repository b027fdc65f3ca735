/**
  Difficulty, target and the 32-bit compact form a header carries: three significant bytes
  and a byte length. Going through the compact form never makes a block easier to mine.
 */
module Difficulty {
  import opened Arithmetic

  const U256_LIMIT: nat := 0x1_0000_0000_0000_0000_0000_0000_0000_0000_0000_0000_0000_0000_0000_0000_0000_0000

  const MAX_U256: nat := U256_LIMIT - 1

  const MANTISSA_LIMIT: nat := 0x100_0000

  function TargetToDifficulty(target: nat): nat
    requires target > 0
  {
    if target == 1 then MAX_U256 else U256_LIMIT / target
  }

  function DifficultyToTarget(difficulty: nat): nat
    requires difficulty > 0
  {
    if difficulty == 1 then MAX_U256 else U256_LIMIT / difficulty
  }

  function Pow256(k: nat): (r: nat)
    ensures r > 0
  {
    if k == 0 then 1 else 256 * Pow256(k - 1)
  }

  /** The number of bytes of a number. */
  function ByteLen(t: nat): nat {
    if t == 0 then 0 else 1 + ByteLen(t / 256)
  }

  function TargetToCompact(target: nat): nat {
    var exponent := ByteLen(target);
    var mantissa :=
      if exponent <= 3 then Times(target, Pow256(3 - exponent)) else Quotient(target, Pow256(exponent - 3));
    mantissa + exponent * MANTISSA_LIMIT
  }

  /** The target and whether it does not fit 256 bits. */
  function CompactToTarget(compact: nat): (nat, bool) {
    var exponent, mantissa := compact / MANTISSA_LIMIT, compact % MANTISSA_LIMIT;
    if exponent <= 3 then (Quotient(mantissa, Pow256(3 - exponent)), false)
    else (Times(mantissa, Pow256(exponent - 3)) % U256_LIMIT, mantissa != 0 && exponent > 32)
  }

  function CompactToDifficulty(compact: nat): nat {
    var (target, overflow) := CompactToTarget(compact);
    if target == 0 || overflow then 0 else TargetToDifficulty(target)
  }

  function DifficultyToCompact(difficulty: nat): nat
    requires difficulty > 0
  {
    TargetToCompact(DifficultyToTarget(difficulty))
  }

  // ---------------------------------------------------------------- powers of 256

  lemma {:induction false} PowAdd(j: nat, k: nat)
    ensures Pow256(j + k) == Pow256(j) * Pow256(k)
  {
    if j > 0 { PowAdd(j - 1, k); }
  }

  lemma {:induction false} PowMono(j: nat, k: nat)
    requires j <= k
    ensures Pow256(j) <= Pow256(k)
  {
    PowAdd(j, k - j);
    MulMono(1, Pow256(k - j), Pow256(j));
  }

  lemma {:induction false} PowThree()
    ensures Pow256(3) == MANTISSA_LIMIT && Pow256(2) == 0x1_0000
  {
    assert Pow256(1) == 256 * Pow256(0);
    assert Pow256(2) == 256 * Pow256(1);
    assert Pow256(3) == 256 * Pow256(2);
  }

  lemma {:induction false} PowThirtyTwo()
    ensures Pow256(32) == U256_LIMIT
  {
    PowThree();
    hide Pow256;
    PowAdd(2, 2);
    PowAdd(4, 4);
    PowAdd(8, 8);
    PowAdd(16, 16);
    assert Pow256(4) == 0x1_0000_0000;
    assert Pow256(8) == 0x1_0000_0000_0000_0000;
    assert Pow256(16) == 0x1_0000_0000_0000_0000_0000_0000_0000_0000;
  }

  /** The byte length brackets a number between powers of 256. */
  lemma {:induction false} ByteLenBounds(t: nat)
    ensures t < Pow256(ByteLen(t))
    ensures t > 0 ==> ByteLen(t) > 0 && Pow256(ByteLen(t) - 1) <= t
  {
    if t > 0 {
      ByteLenBounds(t / 256);
      DivBounds(t, 256);
    }
  }

  lemma {:induction false} ByteLenLimit(t: nat, k: nat)
    requires t < Pow256(k)
    ensures ByteLen(t) <= k
  {
    ByteLenBounds(t);
    if ByteLen(t) > k { PowMono(k, ByteLen(t) - 1); }
  }

  // ---------------------------------------------------------------- through the compact form

  /** The three leading bytes of a longer number. */
  lemma {:induction false} LeadingBytes(t: nat, e: nat)
    requires e == ByteLen(t) && e > 3
    ensures var m := t / Pow256(e - 3);
            0x1_0000 <= m < MANTISSA_LIMIT && m * Pow256(e - 3) <= t < m * Pow256(e - 3) + Pow256(e - 3)
  {
    var p := Pow256(e - 3);
    assert Pow256(e) == MANTISSA_LIMIT * p && Pow256(e - 1) == 0x1_0000 * p by {
      PowThree();
      PowAdd(3, e - 3);
      PowAdd(2, e - 3);
    }
    ByteLenBounds(t);
    LeadingPart(t, p);
  }

  lemma {:induction false} LeadingPart(t: nat, p: nat)
    requires p > 0 && 0x1_0000 * p <= t < MANTISSA_LIMIT * p
    ensures var m := t / p; 0x1_0000 <= m < MANTISSA_LIMIT && m * p <= t < m * p + p
  {
    DivBounds(t, p);
    var m := t / p;
    if m < 0x1_0000 { MulMono(m + 1, 0x1_0000, p); }
    if m >= MANTISSA_LIMIT { MulMono(MANTISSA_LIMIT, m, p); }
  }

  lemma {:induction false} CompactParts(m: nat, e: nat)
    requires m < MANTISSA_LIMIT
    ensures (m + e * MANTISSA_LIMIT) / MANTISSA_LIMIT == e && (m + e * MANTISSA_LIMIT) % MANTISSA_LIMIT == m
  {
    DivUnique(m + e * MANTISSA_LIMIT, MANTISSA_LIMIT, e);
  }

  lemma {:induction false} ShortTarget(t: nat)
    requires 0 < t && ByteLen(t) <= 3
    ensures CompactToTarget(TargetToCompact(t)) == (t, false)
  {
    var e := ByteLen(t);
    var p := Pow256(3 - e);
    ByteLenBounds(t);
    PowThree();
    PowAdd(e, 3 - e);
    MulMono(t + 1, Pow256(e), p);
    CompactParts(t * p, e);
    DivUnique(t * p, p, t);
  }

  lemma {:induction false} LongTarget(t: nat)
    requires t < U256_LIMIT && ByteLen(t) > 3
    ensures var p := Pow256(ByteLen(t) - 3); CompactToTarget(TargetToCompact(t)) == (t / p * p, false)
  {
    hide Pow256, ByteLen;
    var e := ByteLen(t);
    var m := t / Pow256(e - 3);
    LeadingBytes(t, e);
    CompactParts(m, e);
    assert e <= 32 by {
      PowThirtyTwo();
      ByteLenLimit(t, 32);
    }
    SmallMod(m * Pow256(e - 3), U256_LIMIT);
  }

  /** The compact form keeps a target to one part in 65536, rounding down, and never overflows. */
  lemma {:induction false} CompactTarget(t: nat)
    requires 0 < t < U256_LIMIT
    ensures var (r, overflow) := CompactToTarget(TargetToCompact(t));
            !overflow && 0 < r <= t && (t - r) * 0x1_0000 <= r
  {
    if ByteLen(t) <= 3 {
      ShortTarget(t);
    } else {
      LongTarget(t);
      LeadingBytes(t, ByteLen(t));
      var p := Pow256(ByteLen(t) - 3);
      MulMono(0x1_0000, t / p, p);
      MulMono(t - t / p * p, p, 0x1_0000);
    }
  }

  lemma {:induction false} TargetFits(d: nat)
    requires 0 < d < U256_LIMIT
    ensures 0 < DifficultyToTarget(d) < U256_LIMIT
    ensures d * DifficultyToTarget(d) <= U256_LIMIT
  {
    if d > 1 {
      DivBounds(U256_LIMIT, d);
      DivMono(U256_LIMIT, 2, d);
      DivMono(U256_LIMIT, d, U256_LIMIT);
      assert U256_LIMIT / U256_LIMIT == 1;
    }
  }

  /** A difficulty written into a header and read back is at least what was written. */
  lemma {:induction false} DifficultyKept(d: nat)
    requires 0 < d < U256_LIMIT
    ensures CompactToDifficulty(DifficultyToCompact(d)) >= d
  {
    hide CompactToTarget, TargetToCompact;
    var t := DifficultyToTarget(d);
    TargetFits(d);
    CompactTarget(t);
    var (r, overflow) := CompactToTarget(TargetToCompact(t));
    if r > 1 {
      DivMono(U256_LIMIT, r, t);
      DivAtLeast(U256_LIMIT, t, d);
    }
  }

  lemma {:induction false} TargetClose(d: nat)
    requires 0 < d < U256_LIMIT
    ensures U256_LIMIT <= (DifficultyToTarget(d) + 1) * d
    ensures d * 0x1_0000 <= U256_LIMIT ==> DifficultyToTarget(d) >= 0x1_0000
  {
    DivBounds(U256_LIMIT, d);
    if d > 1 && d * 0x1_0000 <= U256_LIMIT { DivAtLeast(U256_LIMIT, d, 0x1_0000); }
  }

  /** The difficulty of a target: how often it goes into two to the 256, or one less. */
  lemma {:induction false} ReadTimes(r: nat)
    requires 0 < r < U256_LIMIT
    ensures TargetToDifficulty(r) * r <= U256_LIMIT <= (TargetToDifficulty(r) + 1) * r
    ensures TargetToDifficulty(r) < U256_LIMIT
  {
    if r > 1 { DivMono(U256_LIMIT, 2, r); }
    DivBounds(U256_LIMIT, r);
  }

  /**
    The difficulty read back is not much more than what was written: at most twice and one part in
    65536, and no more than two parts in 65536 and a bit unless the target has less than 17 bits.
   */
  lemma {:induction false} DifficultyClose(d: nat)
    requires 0 < d < U256_LIMIT
    ensures CompactToDifficulty(DifficultyToCompact(d)) * 0x1_0000 <= 2 * 0x1_0001 * d
    ensures d * 0x1_0000 <= U256_LIMIT ==>
              CompactToDifficulty(DifficultyToCompact(d)) * 0x1_0000_0000 <= 0x1_0001 * 0x1_0001 * d
  {
    hide CompactToTarget, TargetToCompact, DifficultyToTarget, TargetToDifficulty;
    var t := DifficultyToTarget(d);
    TargetFits(d);
    TargetClose(d);
    CompactTarget(t);
    var r := CompactToTarget(TargetToCompact(t)).0;
    ReadTimes(r);
    CloseBounds(TargetToDifficulty(r), d, t, r);
  }

  lemma {:induction false} CloseBounds(x: nat, d: nat, t: nat, r: nat)
    requires 0 < r <= t && (t - r) * 0x1_0000 <= r && x * r <= U256_LIMIT <= (t + 1) * d
    ensures x * 0x1_0000 <= 2 * 0x1_0001 * d
    ensures t >= 0x1_0000 ==> x * 0x1_0000_0000 <= 0x1_0001 * 0x1_0001 * d
  {
    assert x * 0x1_0000 * t <= 0x1_0001 * d * (t + 1) by {
      MulMono(t * 0x1_0000, r * 0x1_0001, x);
      assert (t * 0x1_0000) * x == x * 0x1_0000 * t && (r * 0x1_0001) * x == 0x1_0001 * (x * r);
      assert 0x1_0001 * ((t + 1) * d) == 0x1_0001 * d * (t + 1);
    }
    Cancelled(x * 0x1_0000, 0x1_0001 * d, t);
  }

  lemma {:induction false} Cancelled(y: nat, z: nat, t: nat)
    requires t > 0 && y * t <= z * (t + 1)
    ensures y <= 2 * z
    ensures t >= 0x1_0000 ==> y * 0x1_0000 <= 0x1_0001 * z
  {
    MulMono(t + 1, 2 * t, z);
    assert z * (t + 1) <= (2 * z) * t;
    SameOrder(y, 2 * z, t);
    if t >= 0x1_0000 {
      MulMono(0x1_0000 * (t + 1), 0x1_0001 * t, z);
      assert (y * 0x1_0000) * t == 0x1_0000 * (y * t);
      assert (0x1_0000 * (t + 1)) * z == 0x1_0000 * (z * (t + 1));
      assert (0x1_0001 * t) * z == (0x1_0001 * z) * t;
      SameOrder(y * 0x1_0000, 0x1_0001 * z, t);
    }
  }

  // ---------------------------------------------------------------- the compact form itself

  lemma {:induction false} ShortCompact(t: nat)
    requires 0 < t && ByteLen(t) <= 3
    ensures var e, m := ByteLen(t), t * Pow256(3 - ByteLen(t));
            && TargetToCompact(t) / 0x100_0000 == e && TargetToCompact(t) % 0x100_0000 == m
            && m * Pow256(e) == t * 0x100_0000
  {
    var e := ByteLen(t);
    var p := Pow256(3 - e);
    ByteLenBounds(t);
    PowThree();
    PowAdd(e, 3 - e);
    MulMono(t + 1, Pow256(e), p);
    CompactParts(t * p, e);
    Assoc(t, p, Pow256(e));
  }

  lemma {:induction false} LongCompact(t: nat)
    requires ByteLen(t) > 3
    ensures var e, m := ByteLen(t), t / Pow256(ByteLen(t) - 3);
            && TargetToCompact(t) / 0x100_0000 == e && TargetToCompact(t) % 0x100_0000 == m
            && m * Pow256(e) <= t * 0x100_0000 < (m + 1) * Pow256(e)
  {
    hide Pow256, ByteLen;
    var e := ByteLen(t);
    var p, m := Pow256(e - 3), t / Pow256(e - 3);
    LeadingBytes(t, e);
    CompactParts(m, e);
    PowThree();
    PowAdd(e - 3, 3);
    Assoc(m, p, 0x100_0000);
    Assoc(m + 1, p, 0x100_0000);
    Distribute(m, p);
  }

  /** The compact form is the byte length above the three leading bytes of the target. */
  lemma {:induction false} CompactIs(t: nat)
    requires 0 < t < U256_LIMIT
    ensures var e, m := TargetToCompact(t) / 0x100_0000, TargetToCompact(t) % 0x100_0000;
            && 0 < e <= 32 && Pow256(e - 1) <= t < Pow256(e)
            && m * Pow256(e) <= t * 0x100_0000 < (m + 1) * Pow256(e)
  {
    ByteLenBounds(t);
    PowThirtyTwo();
    ByteLenLimit(t, 32);
    if ByteLen(t) <= 3 {
      ShortCompact(t);
      Distribute(t * Pow256(3 - ByteLen(t)), Pow256(ByteLen(t)));
    } else {
      LongCompact(t);
    }
    hide Pow256, ByteLen, TargetToCompact;
  }

  lemma {:induction false} ShortMeans(m: nat, e: nat)
    requires m < 0x100_0000 && e <= 3
    ensures var r := m / Pow256(3 - e);
            r < U256_LIMIT && r * 0x100_0000 <= m * Pow256(e) < (r + 1) * 0x100_0000
  {
    var p := Pow256(3 - e);
    var r := m / p;
    DivBounds(m, p);
    PowThree();
    PowAdd(3 - e, e);
    hide Pow256;
    MulMono(r * p, m, Pow256(e));
    MulStrict(m, (r + 1) * p, Pow256(e));
    Assoc(r, p, Pow256(e));
    Assoc(r + 1, p, Pow256(e));
    MulMono(1, p, r);
  }

  lemma {:induction false} LongMeans(m: nat, e: nat)
    requires m < 0x100_0000 && e > 3 && (m == 0 || e <= 32)
    ensures m * Pow256(e - 3) < U256_LIMIT && m * Pow256(e - 3) * 0x100_0000 == m * Pow256(e)
  {
    PowThree();
    hide Pow256;
    PowAdd(e - 3, 3);
    Assoc(m, Pow256(e - 3), 0x100_0000);
    if m > 0 {
      PowThirtyTwo();
      PowMono(e, 32);
      MulMono(m, 0xff_ffff, Pow256(e - 3));
    }
  }

  /** What a compact form stands for; too long ones are marked, whether or not they would fit. */
  lemma {:induction false} CompactMeans(compact: nat)
    ensures var e, m := compact / 0x100_0000, compact % 0x100_0000;
            var (r, overflow) := CompactToTarget(compact);
            && (overflow <==> m != 0 && e > 32)
            && (!overflow ==> r < U256_LIMIT && r * 0x100_0000 <= m * Pow256(e) < (r + 1) * 0x100_0000)
  {
    var e, m := compact / 0x100_0000, compact % 0x100_0000;
    hide Pow256;
    if e <= 3 {
      ShortMeans(m, e);
    } else if m == 0 || e <= 32 {
      LongMeans(m, e);
      SmallMod(m * Pow256(e - 3), U256_LIMIT);
    }
  }

  /** The difficulty that a header's compact form gives: zero for a zero or overlong target, else that of the target. */
  lemma {:induction false} DifficultyRead(compact: nat) returns (r: nat)
    ensures var e, m, d := compact / 0x100_0000, compact % 0x100_0000, CompactToDifficulty(compact);
            if m == 0 || e > 32 || m * Pow256(e) < 0x100_0000 then d == 0
            else
              && 0 < r < U256_LIMIT && r * 0x100_0000 <= m * Pow256(e) < (r + 1) * 0x100_0000
              && d * r <= U256_LIMIT <= (d + 1) * r && 0 < d < U256_LIMIT
  {
    hide CompactToTarget, TargetToDifficulty, Pow256;
    CompactMeans(compact);
    r := CompactToTarget(compact).0;
    if 0 < r < U256_LIMIT { ReadTimes(r); }
  }
}
