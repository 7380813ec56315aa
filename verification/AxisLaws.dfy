/**
 * What the two motor regulators of ctrl.c compute, written over signed errors
 * instead of the unsigned 16-bit arithmetic of the code, and the facts about
 * these laws that hold for every 16-bit input.
 */
module AxisLaws {
  import opened MachineInts

  const NULL_ZONE: int := 45
  const MIN_SPEED: int := 2 * 182
  const MAX_SPEED: int := 30 * 182
  const TORQUE_LIMIT: int := 25

  // ----- Azimuth: position on the circle of 65536 counts

  /** The signed way round from `enc` to `tgt`, in [-32768, 32767]. */
  function CircularError(enc: U16, tgt: U16): I16 { WrapI16(tgt - enc) }

  /** Positions in which the controller does not ask for any speed. */
  predicate Idle(error: int) { -NULL_ZONE - 1 <= error <= NULL_ZONE }

  function Sign(error: int): int { if error < 0 then -1 else 1 }

  /** Half the error, limited in magnitude on both sides. */
  function ApproachSpeed(error: I16): I16 {
    Sign(error) * Clamp(Abs(error) / 2, MIN_SPEED, MAX_SPEED)
  }

  /** No integer displacement from `enc` to `tgt` is shorter than the error. */
  lemma ErrorIsShortestWay(enc: U16, tgt: U16, d: int)
    requires (enc + d - tgt) % 0x1_0000 == 0
    ensures (enc + CircularError(enc, tgt) - tgt) % 0x1_0000 == 0
    ensures Abs(CircularError(enc, tgt)) <= Abs(d)
  {
    var k := (enc + d - tgt) / 0x1_0000;
    assert d == tgt - enc + k * 0x1_0000;
    var e: int := CircularError(enc, tgt);
    var m := (tgt - enc + 0x8000) / 0x1_0000;
    assert e == tgt - enc - m * 0x1_0000;
    assert enc + e - tgt == -m * 0x1_0000;
    assert d - e == (k + m) * 0x1_0000;
    if k + m >= 1 {
      assert d >= e + 0x1_0000;
    } else if k + m <= -1 {
      assert d <= e - 0x1_0000;
    }
  }

  /** The speed law turns toward the target, within the two speed limits. */
  lemma ApproachSpeedRange(error: I16)
    requires !Idle(error)
    ensures Sign(ApproachSpeed(error)) == Sign(error)
    ensures MIN_SPEED <= Abs(ApproachSpeed(error)) <= MAX_SPEED
  {}

  // ----- Azimuth: torque

  /** What the regulator means to apply, before any narrowing. */
  function AzExactTorque(tgt: I16, act: I16): int {
    TruncDiv(tgt - act, 60) + (if tgt > 0 then 10 else -10)
  }

  /** What it applies: the exact value passes through an 8-bit variable before it is limited. */
  function AzTorque(tgt: I16, act: I16): (trq: I8)
    ensures -TORQUE_LIMIT <= trq <= TORQUE_LIMIT
  {
    Clamp(WrapI8(AzExactTorque(tgt, act)), -TORQUE_LIMIT, TORQUE_LIMIT)
  }

  /** The 8-bit values for which the limiter hides an overflow of the exact torque. */
  predicate LimiterHidesOverflow(exact: int) {
    || -0x80 <= exact < 0x80
    || (exact >= 0x80 && TORQUE_LIMIT <= exact % 0x100 < 0x80)
    || (exact < -0x80 && 0x80 <= exact % 0x100 <= 0x100 - TORQUE_LIMIT)
  }

  /** Exactly when the azimuth torque is the limited exact torque. */
  lemma AzTorqueExactIff(tgt: I16, act: I16)
    ensures AzTorque(tgt, act) == Clamp(AzExactTorque(tgt, act), -TORQUE_LIMIT, TORQUE_LIMIT)
       <==> LimiterHidesOverflow(AzExactTorque(tgt, act))
  {
    LimitedIff(AzExactTorque(tgt, act));
  }

  lemma LimitedIff(v: int)
    ensures Clamp(WrapI8(v), -TORQUE_LIMIT, TORQUE_LIMIT) == Clamp(v, -TORQUE_LIMIT, TORQUE_LIMIT)
       <==> LimiterHidesOverflow(v)
  {
    var m := v % 0x100;
    NarrowedByRemainder(v, m);
    assert v >= 0x80 || -0x80 <= v < 0x80 || v < -0x80;
  }

  lemma NarrowedByRemainder(v: int, m: int)
    requires m == v % 0x100
    ensures WrapI8(v) == if m < 0x80 then m else m - 0x100
  {
    var q := v / 0x100;
    assert v + 0x80 == 0x100 * q + (m + 0x80);
    if m < 0x80 {
      Remainder256(v + 0x80, q, m + 0x80);
    } else {
      Remainder256(v + 0x80, q + 1, m - 0x80);
    }
  }

  /**
   * The same in terms of the speed error: it stays under the bound at which
   * the torque leaves 8 bits, or lies as far beyond a multiple of 256 * 60 as
   * the wrapped torque is limited to the same end.
   */
  predicate HarmlessSpeedError(tgt: I16, error: int) {
    var n := Abs(error);
    var (from, to) :=
      if error >= 0 then (if tgt > 0 then (900, 7079) else (2100, 8279))
      else (if tgt > 0 then (2100, 8339) else (900, 7139));
    n <= to || from <= n % (256 * 60) <= to
  }

  lemma AzTorqueExactRanges(tgt: I16, act: I16)
    ensures AzTorque(tgt, act) == Clamp(AzExactTorque(tgt, act), -TORQUE_LIMIT, TORQUE_LIMIT)
       <==> HarmlessSpeedError(tgt, tgt - act)
  {
    AzTorqueExactIff(tgt, act);
    var n := Abs(tgt - act);
    InSixtieths(n, 15, 117);
    InSixtieths(n, 15, 118);
    InSixtieths(n, 35, 137);
    InSixtieths(n, 35, 138);
    HiddenAbove(n / 60);
    HiddenBelow(n / 60);
  }

  lemma InSixtieths(n: nat, a: nat, b: nat)
    ensures n <= 60 * b + 59 <==> n / 60 <= b
    ensures 60 * a <= n % (256 * 60) <= 60 * b + 59 <==> a <= n / 60 % 256 <= b
  {
    var k, m := n / 15360, n % 15360;
    assert n / 60 == 256 * k + m / 60;
    Remainder256(n / 60, k, m / 60);
    Sixtieth(n, b);
    Sixtieth(m, b);
    Sixtieth(m, a);
  }

  lemma Sixtieth(n: nat, b: nat)
    ensures n <= 60 * b + 59 <==> n / 60 <= b
    ensures 60 * b <= n <==> b <= n / 60
  {}

  lemma HiddenAbove(q: nat)
    ensures LimiterHidesOverflow(q + 10) <==> q <= 117 || 15 <= q % 256 <= 117
    ensures LimiterHidesOverflow(q - 10) <==> q <= 137 || 35 <= q % 256 <= 137
  {
    var k, m := q / 256, q % 256;
    if m <= 245 { Remainder256(q + 10, k, m + 10); } else { Remainder256(q + 10, k + 1, m - 246); }
    if m >= 10 { Remainder256(q - 10, k, m - 10); } else { Remainder256(q - 10, k - 1, m + 246); }
  }

  lemma HiddenBelow(q: nat)
    ensures LimiterHidesOverflow(10 - q) <==> q <= 138 || 35 <= q % 256 <= 138
    ensures LimiterHidesOverflow(0 - q - 10) <==> q <= 118 || 15 <= q % 256 <= 118
  {
    var k, m := q / 256, q % 256;
    if m <= 10 { Remainder256(10 - q, -k, 10 - m); } else { Remainder256(10 - q, -k - 1, 266 - m); }
    if m <= 246 { Remainder256(0 - q - 10, -k - 1, 246 - m); } else { Remainder256(0 - q - 10, -k - 2, 502 - m); }
  }

  lemma Remainder256(x: int, k: int, m: int)
    requires x == 256 * k + m && 0 <= m < 256
    ensures x % 256 == m
  {}

  /** A speed error of up to 7079 never overflows; the bound is the best possible. */
  lemma AzTorqueExactBand(tgt: I16, act: I16)
    ensures Abs(tgt - act) <= 7079 ==>
              AzTorque(tgt, act) == Clamp(AzExactTorque(tgt, act), -TORQUE_LIMIT, TORQUE_LIMIT)
    ensures tgt > 0 && tgt - act == 7080 ==>
              AzTorque(tgt, act) == -TORQUE_LIMIT && AzExactTorque(tgt, act) == 128
  {}

  // ----- Elevation

  const EL_SLOW_RANGE: int := 45
  const EL_MIN_SPEED: int := 1 * 182
  const EL_MAX_SPEED: int := 15 * 182
  const EL_DEAD_BAND: int := 150

  /** The wanted elevation speed: the error, with a floor outside the slow range and a ceiling. */
  function ElSpeed(error: I16): I16 {
    Sign(error) * Clamp(Abs(error), if Abs(error) > EL_SLOW_RANGE then EL_MIN_SPEED else 0, EL_MAX_SPEED)
  }

  /** No narrowing is visible here: this is the limited exact torque for every input. */
  function ElTorque(tgtSpd: I16, spd: I16): (trq: I8)
    ensures -TORQUE_LIMIT <= trq <= TORQUE_LIMIT
  {
    Clamp(TruncDiv(tgtSpd - spd, 10), -TORQUE_LIMIT, TORQUE_LIMIT)
  }
}
