/** Azimuth in target position mode, in closed loop with an antenna that follows it. */
module Approach {
  import opened MachineInts
  import opened AxisLaws
  import opened Control

  /** Iterations per second: the loop sleeps 20 ms. */
  const RATE: int := 50

  /**
   * The antenna's assumed behaviour between two iterations: it moves in the
   * commanded direction, by at least one count and by no more than the
   * commanded speed covers in one period.
   */
  predicate Obeys(speed: I16, move: int) { 1 <= Sign(speed) * move <= Abs(speed) / RATE }

  /**
   * `pos` are the unwrapped antenna positions at the iterations `rs`, started
   * in `s`; while the controller asks for a speed, the antenna obeys it.
   */
  ghost predicate ClosedLoop(s: Ctrl, rs: seq<Readings>, pos: seq<int>)
    decreases |rs|
  {
    && |pos| == |rs| + 1
    && (rs == [] ||
        (&& s.phase == Asleep
         && !Trips(rs[0])
         && rs[0].encPos == WrapU16(pos[0])
         && (Idle(ErrorAt(s, pos[0])) || Obeys(Begin(s, rs[0]).azTgtSpd, pos[1] - pos[0]))
         && ClosedLoop(Begin(s, rs[0]), rs[1..], pos[1..])))
  }

  predicate Positioning(s: Ctrl) { s.phase == Asleep && !s.calibrating && s.azMode == TargetPosition }

  /** The signed circular error at an unwrapped antenna position. */
  function PosError(tgt: U16, off: U16, pos: int): I16 { WrapI16(tgt - off - pos) }

  function ErrorAt(s: Ctrl, pos: int): I16 { PosError(s.azTgtPos, s.encOff, pos) }

  /** It is the error the controller derives from the 16-bit reading. */
  lemma ErrorFromReading(s: Ctrl, pos: int)
    ensures AzError(s, WrapU16(pos)) == ErrorAt(s, pos)
  {
    UnwrappedError(s.azTgtPos, s.encOff, pos);
  }

  lemma UnwrappedError(tgt: int, off: int, pos: int)
    ensures WrapI16(tgt - WrapU16(WrapU16(pos) + off)) == WrapI16(tgt - off - pos)
  {
    var a, b := pos / 0x1_0000, (WrapU16(pos) + off) / 0x1_0000;
    assert tgt - WrapU16(WrapU16(pos) + off) == (tgt - off - pos) + (a + b) * 0x1_0000;
    WrapPeriodic(tgt - off - pos, a + b);
  }

  lemma WrapPeriodic(x: int, k: int)
    ensures WrapI16(x + k * 0x1_0000) == WrapI16(x)
  {}

  lemma WrapShift(x: int, m: int)
    requires -0x8000 <= WrapI16(x) - m < 0x8000
    ensures WrapI16(x - m) == WrapI16(x) - m
  {
    var q := (x + 0x8000) / 0x1_0000;
    assert x == WrapI16(x) + q * 0x1_0000;
    WrapPeriodic(WrapI16(x) - m, q);
  }

  /** One obedient move shortens the error by exactly its length and keeps its sign. */
  lemma MoveApproaches(tgt: U16, off: U16, pos: int, pos': int)
    requires !Idle(PosError(tgt, off, pos))
    requires Obeys(ApproachSpeed(PosError(tgt, off, pos)), pos' - pos)
    ensures Abs(PosError(tgt, off, pos')) == Abs(PosError(tgt, off, pos)) - Abs(pos' - pos)
    ensures Sign(PosError(tgt, off, pos')) == Sign(PosError(tgt, off, pos))
  {
    var e := PosError(tgt, off, pos);
    assert Abs(pos' - pos) <= Clamp(Abs(e) / 2, MIN_SPEED, MAX_SPEED) / RATE < Abs(e);
    WrapShift(tgt - off - pos, pos' - pos);
  }

  /** An iteration outside the null zone keeps positioning and commands the speed law. */
  lemma IterationCommandsSpeed(s: Ctrl, r: Readings, pos: int)
    requires Positioning(s) && !Trips(r) && r.encPos == WrapU16(pos)
    requires !Idle(ErrorAt(s, pos))
    ensures var s' := Begin(s, r);
            && Positioning(s') && s'.azTgtPos == s.azTgtPos && s'.encOff == s.encOff
            && s'.azTgtSpd == ApproachSpeed(ErrorAt(s, pos))
  {
    ErrorFromReading(s, pos);
  }

  /** In the null zone at position k, having moved toward it without overshoot before. */
  ghost predicate Arrives(tgt: U16, off: U16, pos: seq<int>, k: nat) {
    && k < |pos|
    && Idle(PosError(tgt, off, pos[k]))
    && forall j | 0 <= j < k :: Nearer(tgt, off, pos[j], pos[j + 1])
  }

  predicate Nearer(tgt: U16, off: U16, pos: int, pos': int) {
    && !Idle(PosError(tgt, off, pos))
    && Abs(PosError(tgt, off, pos')) < Abs(PosError(tgt, off, pos))
    && Sign(PosError(tgt, off, pos')) == Sign(PosError(tgt, off, pos))
  }

  /**
   * Whatever the start, the target and the antenna's moves, the null zone is
   * reached, monotonically and without overshoot, after at most as many
   * iterations as the distance has counts beyond it.
   */
  lemma {:induction false} TargetReached(s: Ctrl, rs: seq<Readings>, pos: seq<int>) returns (k: nat)
    requires Positioning(s) && ClosedLoop(s, rs, pos)
    requires |rs| >= Abs(ErrorAt(s, pos[0])) - NULL_ZONE
    ensures Arrives(s.azTgtPos, s.encOff, pos, k)
    ensures k == 0 || k <= Abs(ErrorAt(s, pos[0])) - NULL_ZONE
    decreases |rs|
  {
    k := 0;
    if !Idle(ErrorAt(s, pos[0])) {
      IterationCommandsSpeed(s, rs[0], pos[0]);
      MoveApproaches(s.azTgtPos, s.encOff, pos[0], pos[1]);
      k := TargetReached(Begin(s, rs[0]), rs[1..], pos[1..]);
      ArrivesOneLater(s.azTgtPos, s.encOff, pos, k);
      k := k + 1;
    }
  }

  lemma ArrivesOneLater(tgt: U16, off: U16, pos: seq<int>, k: nat)
    requires pos != [] && Arrives(tgt, off, pos[1..], k)
    requires Nearer(tgt, off, pos[0], pos[1])
    ensures Arrives(tgt, off, pos, k + 1)
  {
    forall j | 0 <= j < k + 1
      ensures Nearer(tgt, off, pos[j], pos[j + 1])
    {
      if j > 0 {
        assert pos[1..][j - 1] == pos[j] && pos[1..][j] == pos[j + 1];
      }
    }
  }
}
