/** Elevation in target position mode, in closed loop with an antenna that follows it. */
module ElevationApproach {
  import opened MachineInts
  import opened AxisLaws
  import opened Control
  import opened IterationLaws
  import opened Approach

  /** The signed error at an unwrapped antenna position. */
  function ElPosError(tgt: I16, off: I16, pos: int): I16 { WrapI16(tgt - off - pos) }

  function ElErrorAt(s: Ctrl, pos: int): I16 { ElPosError(s.elTgtPos, s.elOff, pos) }

  /** Close enough that speeds under one count per iteration are commanded. */
  predicate Close(error: int) { -45 <= error <= 45 }

  predicate ElPositioning(s: Ctrl) { s.phase == Asleep && !s.calibrating && s.elMode == TargetPosition }

  /**
   * `pos` are the unwrapped elevations at the iterations `rs`, started in `s`;
   * while the controller asks for more than a crawl, the antenna obeys it.
   */
  ghost predicate ElClosedLoop(s: Ctrl, rs: seq<Readings>, pos: seq<int>)
    decreases |rs|
  {
    && |pos| == |rs| + 1
    && (rs == [] ||
        (&& s.phase == Asleep
         && Healthy(rs[0])
         && rs[0].elPos == WrapI16(pos[0])
         && (Close(ElErrorAt(s, pos[0])) || Obeys(Begin(s, rs[0]).elTgtSpd, pos[1] - pos[0]))
         && ElClosedLoop(Begin(s, rs[0]), rs[1..], pos[1..])))
  }

  /** An iteration keeps positioning and commands a speed for the error at the antenna's position. */
  lemma ElIterationCommandsSpeed(s: Ctrl, r: Readings, pos: int)
    requires ElPositioning(s) && Healthy(r) && r.elPos == WrapI16(pos)
    ensures var s' := Begin(s, r);
            && ElPositioning(s') && s'.elTgtPos == s.elTgtPos && s'.elOff == s.elOff
            && s'.elTgtSpd == ElSpeed(ElErrorAt(s, pos))
  {
    OffFromReading(s, r, pos);
    ElErrorIs(s, r, ElErrorAt(s, pos));
    ElevationInBegin(s, r);
    HealthyGoesOn(s, r);
    StepFrame(s, r);
    StillUncalibrated(s, r);
  }

  lemma StillUncalibrated(s: Ctrl, r: Readings)
    requires s.phase == Asleep && !s.calibrating
    ensures !Begin(s, r).calibrating
  {
    FlagStaysClear(s, [r]);
    assert ControlRun(Begin(s, r), [r][1..]) == Begin(s, r);
  }

  lemma OffFromReading(s: Ctrl, r: Readings, pos: int)
    requires r.elPos == WrapI16(pos)
    ensures ElevationOff(s, r, ElErrorAt(s, pos))
  {
    var x := s.elTgtPos - s.elOff - pos;
    var j, k := (pos + 0x8000) / 0x1_0000, (x + 0x8000) / 0x1_0000;
    assert WrapI16(pos) == pos - j * 0x1_0000 && WrapI16(x) == x - k * 0x1_0000;
    assert r.elPos + s.elOff + WrapI16(x) - s.elTgtPos == (-j - k) * 0x1_0000;
  }

  /** One obedient move shortens the error by exactly its length and keeps its sign. */
  lemma ElMoveApproaches(tgt: I16, off: I16, pos: int, pos': int)
    requires !Close(ElPosError(tgt, off, pos))
    requires Obeys(ElSpeed(ElPosError(tgt, off, pos)), pos' - pos)
    ensures ElNearer(tgt, off, pos, pos')
  {
    var e := ElPosError(tgt, off, pos);
    assert Abs(ElSpeed(e)) <= 182 || Abs(ElSpeed(e)) <= Abs(e);
    assert Abs(ElSpeed(e)) / RATE < Abs(e);
    WrapShift(tgt - off - pos, pos' - pos);
  }

  predicate ElNearer(tgt: I16, off: I16, pos: int, pos': int) {
    && !Close(ElPosError(tgt, off, pos))
    && Abs(ElPosError(tgt, off, pos')) == Abs(ElPosError(tgt, off, pos)) - Abs(pos' - pos)
    && Abs(pos' - pos) >= 1
    && Sign(ElPosError(tgt, off, pos')) == Sign(ElPosError(tgt, off, pos))
  }

  /** Close at position k, having moved toward the target without overshoot before. */
  ghost predicate ElArrives(tgt: I16, off: I16, pos: seq<int>, k: nat) {
    && k < |pos|
    && Close(ElPosError(tgt, off, pos[k]))
    && forall j | 0 <= j < k :: ElNearer(tgt, off, pos[j], pos[j + 1])
  }

  /**
   * Whatever the start, the target and the antenna's moves, elevation comes
   * within 45 counts, monotonically and without overshoot, after at most as
   * many iterations as the distance has counts beyond them.
   */
  lemma {:induction false} ElevationReached(s: Ctrl, rs: seq<Readings>, pos: seq<int>) returns (k: nat)
    requires ElPositioning(s) && ElClosedLoop(s, rs, pos)
    requires |rs| >= Abs(ElErrorAt(s, pos[0])) - 45
    ensures ElArrives(s.elTgtPos, s.elOff, pos, k)
    ensures k == 0 || k <= Abs(ElErrorAt(s, pos[0])) - 45
    decreases |rs|
  {
    if Close(ElErrorAt(s, pos[0])) {
      k := 0;
    } else {
      ElIterationCommandsSpeed(s, rs[0], pos[0]);
      ElMoveApproaches(s.elTgtPos, s.elOff, pos[0], pos[1]);
      k := ElevationReached(Begin(s, rs[0]), rs[1..], pos[1..]);
      ElArrivesOneLater(s.elTgtPos, s.elOff, pos, k);
      k := k + 1;
    }
  }

  lemma ElArrivesOneLater(tgt: I16, off: I16, pos: seq<int>, k: nat)
    requires pos != [] && ElArrives(tgt, off, pos[1..], k)
    requires ElNearer(tgt, off, pos[0], pos[1])
    ensures ElArrives(tgt, off, pos, k + 1)
  {
    forall j | 0 <= j < k + 1
      ensures ElNearer(tgt, off, pos[j], pos[j + 1])
    {
      if j > 0 {
        assert pos[1..][j - 1] == pos[j] && pos[1..][j] == pos[j + 1];
      }
    }
  }
}
