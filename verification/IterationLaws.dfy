/**
 * What one control iteration does to its motors, in the numbers of ctrl.c and
 * in terms of readings and targets only: which readings stop it, which torque
 * and speed it commands otherwise, and what it leaves alone.
 */
module IterationLaws {
  import opened MachineInts
  import opened AxisLaws
  import opened Control
  import Imu

  // ----- Failsafe

  /** Some acceleration, and no gyro reading outside 1270..2870 on any axis. */
  predicate Healthy(r: Readings) {
    && (r.accelX != 0 || r.accelY != 0 || r.accelZ != 0)
    && 1270 <= r.rotXLow && r.rotXHigh <= 2870
    && 1270 <= r.rotYLow && r.rotYHigh <= 2870
    && 1270 <= r.rotZLow && r.rotZHigh <= 2870
  }

  lemma TripsIff(r: Readings)
    ensures Trips(r) <==> !Healthy(r)
  {}

  /** Any other readings stop everything. */
  lemma FailsafeStops(s: Ctrl, r: Readings)
    requires s.phase == Asleep && !Healthy(r)
    ensures var e := Begin(s, r);
            && e.phase == Asleep && !e.calibrating
            && e.motorAz == 0 && e.motorEl == 0 && e.motorSk == 0
            && e.azMode == ConstTorque && e.elMode == ConstTorque && e.skMode == ConstTorque
  {
    TripsIff(r);
  }

  /** Healthy ones leave the modes and the skew torque alone; a pending calibration starts with its pre-roll. */
  lemma HealthyGoesOn(s: Ctrl, r: Readings)
    requires s.phase == Asleep && Healthy(r)
    ensures var e := Begin(s, r);
            && e.elMode == s.elMode && e.motorSk == s.motorSk
            && (s.elMode == ConstTorque ==> e.motorEl == s.motorEl)
            && (!s.calibrating ==> e.phase == Asleep && e.azMode == s.azMode)
            && (!s.calibrating && s.azMode == ConstTorque ==> e.motorAz == s.motorAz)
            && (s.calibrating && s.azMode != ConstSpeed ==> e == s.(phase := PreRoll, motorAz := 25))
  {
    TripsIff(r);
    FinishFrame(WatchOverflow(s, r), r);
  }

  /** So a block of gyro readings that no iteration stopped at never overflows the elevation speed. */
  lemma QuietBlockFits(rs: seq<Readings>, ss: seq<(Imu.U12, Imu.U12)>)
    requires |rs| == |ss| == 5 && Quiet(rs)
    requires forall i | 0 <= i < 5 :: rs[i].rotYLow == rs[i].rotYHigh == ss[i].0
    ensures Imu.Fits(ss)
  {
    forall i | 0 <= i < 5
      ensures 1270 <= ss[i].0 <= 2870
    {
      assert rs[i] in rs;
      TripsIff(rs[i]);
    }
    Imu.BlockWithinWindowFits(ss);
  }

  // ----- What a control step leaves alone

  /** No step touches targets or offsets; one that completes stamps its time and resets skew to constant torque. */
  lemma StepFrame(s: Ctrl, r: Readings)
    ensures var e := ControlStep(s, r);
            && e.azTgtPos == s.azTgtPos && e.elTgtPos == s.elTgtPos && e.skTgtPos == s.skTgtPos
            && e.encOff == s.encOff && e.elOff == s.elOff
            && (e.phase == Asleep ==> e.lastUpdate == r.clock && e.skMode == ConstTorque)
            && (e.phase == PreRoll ==> e.lastUpdate == s.lastUpdate)
  {
    if s.phase == PreRoll {
      FinishFrame(s.(azTgtSpd := CALIBRATION_SPEED, azMode := ConstSpeed, oldAz := 0, oldAzSet := true, phase := Asleep), r);
    } else {
      FinishFrame(WatchOverflow(Failsafe(s, r), r), r);
    }
  }

  /** Azimuth control writes two variables and elevation control two others. */
  lemma AzimuthFrame(s: Ctrl, r: Readings)
    ensures var f := Azimuth(s, r); f == s.(azTgtSpd := f.azTgtSpd, motorAz := f.motorAz)
    ensures s.azMode == ConstTorque ==> Azimuth(s, r) == s
  {}

  lemma ElevationFrame(s: Ctrl, r: Readings)
    ensures var f := Elevation(s, r); f == s.(elTgtSpd := f.elTgtSpd, motorEl := f.motorEl)
    ensures s.elMode == ConstTorque ==> Elevation(s, r) == s
  {}

  lemma FinishFrame(s: Ctrl, r: Readings)
    ensures var e := Finish(s, r);
            e == s.(azTgtSpd := e.azTgtSpd, motorAz := e.motorAz, elTgtSpd := e.elTgtSpd, motorEl := e.motorEl,
                    skMode := ConstTorque, lastUpdate := r.clock)
    ensures s.azMode == ConstTorque ==> Finish(s, r).motorAz == s.motorAz
    ensures s.elMode == ConstTorque ==> Finish(s, r).motorEl == s.motorEl
  {
    AzimuthFrame(s, r);
    ElevationFrame(Azimuth(s, r), r);
  }

  /** The end of the pre-roll starts a turn at 5400 counts per second, forward, and forgets the old reading. */
  lemma WakeTurnsForward(s: Ctrl, r: Readings)
    requires s.phase == PreRoll
    ensures var e := Resume(s, r);
            && e.phase == Asleep && e.azMode == ConstSpeed && e.azTgtSpd == 5400 && e.oldAz == 0
            && e.calibrating == s.calibrating
            && (0 <= 5400 - r.encSpd <= 7079 ==> 10 <= e.motorAz <= 25)
  {
    if 0 <= 5400 - r.encSpd <= 7079 {
      Regulated(5400, r.encSpd, (5400 - r.encSpd) / 60);
    }
  }

  // ----- Azimuth

  /** The torque regulator on its own: q is the whole part of the speed error over 60. */
  lemma Regulated(tgt: I16, act: I16, q: int)
    requires 60 * q <= Abs(tgt - act) < 60 * q + 60 && Abs(tgt - act) <= 7079
    ensures AzTorque(tgt, act) == Limited(Directed(q, tgt < act) + (if tgt > 0 then 10 else -10))
  {
    AzTorqueExactBand(tgt, act);
  }

  function Directed(q: int, back: bool): int { if back then -q else q }

  function Limited(x: int): int { if x > 25 then 25 else if x < -25 then -25 else x }

  /** Nothing but azimuth control acts on azimuth. */
  predicate AzimuthControlled(s: Ctrl, r: Readings) { s.phase == Asleep && !s.calibrating && Healthy(r) }

  /** At constant speed the torque is that of the error between commanded and measured speed. */
  lemma ConstantSpeedTorque(s: Ctrl, r: Readings, q: int)
    requires AzimuthControlled(s, r) && s.azMode == ConstSpeed
    requires var e := s.azTgtSpd - r.encSpd; 60 * q <= Abs(e) < 60 * q + 60 && Abs(e) <= 7079
    ensures var e := Begin(s, r);
            && e.azTgtSpd == s.azTgtSpd
            && e.motorAz == Limited(Directed(q, s.azTgtSpd < r.encSpd) + (if s.azTgtSpd > 0 then 10 else -10))
  {
    Regulated(s.azTgtSpd, r.encSpd, q);
  }

  /** So an antenna slower than commanded is pushed in the commanded direction. */
  lemma ConstantSpeedPushes(s: Ctrl, r: Readings)
    requires AzimuthControlled(s, r) && s.azMode == ConstSpeed
    ensures s.azTgtSpd > 0 && 0 <= s.azTgtSpd - r.encSpd <= 7079 ==> 10 <= Begin(s, r).motorAz <= 25
    ensures s.azTgtSpd <= 0 && 0 <= r.encSpd - s.azTgtSpd <= 7079 ==> -25 <= Begin(s, r).motorAz <= -10
  {
    var e := Abs(s.azTgtSpd - r.encSpd);
    if e <= 7079 {
      ConstantSpeedTorque(s, r, e / 60);
    }
  }

  /** d counts lead from the corrected encoder reading to the target, the short way round. */
  predicate AzimuthOff(s: Ctrl, r: Readings, d: int) {
    -0x8000 <= d < 0x8000 && (r.encPos + s.encOff + d - s.azTgtPos) % 0x1_0000 == 0
  }

  lemma AzErrorIs(s: Ctrl, r: Readings, d: int)
    requires AzimuthOff(s, r, d)
    ensures AzError(s, r.encPos) == d
  {
    var x := r.encPos + s.encOff;
    var k := (x + d - s.azTgtPos) / 0x1_0000;
    var j := x / 0x1_0000;
    assert s.azTgtPos - WrapU16(x) == d + (j - k) * 0x1_0000;
    OnlyOneInRange(s.azTgtPos - WrapU16(x), d, j - k);
  }

  lemma OnlyOneInRange(x: int, d: int, k: int)
    requires x == d + k * 0x1_0000 && -0x8000 <= d < 0x8000
    ensures WrapI16(x) == d
  {}

  /** The speed and, in the null zone, the torque commanded for a target d counts away. */
  lemma TargetSpeed(s: Ctrl, r: Readings, d: int)
    requires AzimuthControlled(s, r) && s.azMode == TargetPosition && AzimuthOff(s, r, d)
    ensures var e := Begin(s, r); var v := e.azTgtSpd;
            && (-46 <= d <= 45 ==> v == s.azTgtSpd && e.motorAz == if s.motorAz > 0 then 3 else -3)
            && (46 <= d < 728 ==> v == 364)
            && (728 <= d < 10920 ==> d - 1 <= 2 * v <= d)
            && (10920 <= d ==> v == 5460)
            && (-728 < d <= -47 ==> v == -364)
            && (-10920 < d <= -728 ==> d <= 2 * v <= d + 1)
            && (d <= -10920 ==> v == -5460)
  {
    AzErrorIs(s, r, d);
  }

  /** Outside the null zone the torque is that of the error between this speed and the measured one. */
  lemma TargetTorque(s: Ctrl, r: Readings, d: int, v: int, q: int)
    requires AzimuthControlled(s, r) && s.azMode == TargetPosition && AzimuthOff(s, r, d) && !(-46 <= d <= 45)
    requires v == Begin(s, r).azTgtSpd && 60 * q <= Abs(v - r.encSpd) < 60 * q + 60 && Abs(v - r.encSpd) <= 7079
    ensures Begin(s, r).motorAz == Limited(Directed(q, v < r.encSpd) + (if v > 0 then 10 else -10))
  {
    AzErrorIs(s, r, d);
    Regulated(v, r.encSpd, q);
  }

  /** So an antenna at rest, or turning slowly the right way, is pushed toward the target. */
  lemma TargetPulls(s: Ctrl, r: Readings, d: int)
    requires AzimuthControlled(s, r) && s.azMode == TargetPosition && AzimuthOff(s, r, d)
    ensures 46 <= d && 0 <= r.encSpd <= 364 ==> 10 <= Begin(s, r).motorAz <= 25
    ensures d <= -47 && -364 <= r.encSpd <= 0 ==> -25 <= Begin(s, r).motorAz <= -10
  {
    TargetSpeed(s, r, d);
    var v := Begin(s, r).azTgtSpd;
    if (46 <= d && 0 <= r.encSpd <= 364) || (d <= -47 && -364 <= r.encSpd <= 0) {
      TargetTorque(s, r, d, v, Abs(v - r.encSpd) / 60);
    }
  }

  // ----- Elevation

  /** d counts lead from the corrected elevation to the target. */
  predicate ElevationOff(s: Ctrl, r: Readings, d: int) {
    -0x8000 <= d < 0x8000 && (r.elPos + s.elOff + d - s.elTgtPos) % 0x1_0000 == 0
  }

  lemma ElErrorIs(s: Ctrl, r: Readings, d: int)
    requires ElevationOff(s, r, d)
    ensures ElError(s, r) == d
  {
    var x := r.elPos + s.elOff;
    var k := (x + d - s.elTgtPos) / 0x1_0000;
    var j := (x + 0x8000) / 0x1_0000;
    assert s.elTgtPos - WrapI16(x) == d + (j - k) * 0x1_0000;
    OnlyOneInRange(s.elTgtPos - WrapI16(x), d, j - k);
  }

  /** Elevation control runs in this iteration. */
  predicate ElevationControlled(s: Ctrl, r: Readings) {
    s.phase == Asleep && Healthy(r) && (!s.calibrating || s.azMode == ConstSpeed)
  }

  lemma ElevationInBegin(s: Ctrl, r: Readings)
    requires ElevationControlled(s, r)
    ensures s.elMode == TargetPosition ==> Begin(s, r).elTgtSpd == ElSpeed(ElError(s, r))
    ensures s.elMode == ConstSpeed ==> Begin(s, r).elTgtSpd == s.elTgtSpd
    ensures s.elMode != ConstTorque ==> Begin(s, r).motorEl == ElTorque(Begin(s, r).elTgtSpd, MeasuredElSpeed(r))
  {
    TripsIff(r);
    var f := Azimuth(WatchOverflow(s, r), r);
    AzimuthFrame(WatchOverflow(s, r), r);
    assert Begin(s, r) == Elevation(f, r).(skMode := ConstTorque, lastUpdate := r.clock);
    SameElError(f, s, r);
  }

  lemma SameElError(s: Ctrl, t: Ctrl, r: Readings)
    requires s.elTgtPos == t.elTgtPos && s.elOff == t.elOff
    ensures ElError(s, r) == ElError(t, r)
  {}

  /** The speed commanded for a target d counts away. */
  lemma ElevationSpeed(s: Ctrl, r: Readings, d: int)
    requires ElevationControlled(s, r) && s.elMode == TargetPosition && ElevationOff(s, r, d)
    ensures var v := Begin(s, r).elTgtSpd;
            && (-45 <= d <= 45 ==> v == d)
            && (46 <= d <= 182 ==> v == 182) && (-182 <= d <= -46 ==> v == -182)
            && (182 <= d <= 2730 ==> v == d) && (-2730 <= d <= -182 ==> v == d)
            && (2730 <= d ==> v == 2730) && (d <= -2730 ==> v == -2730)
  {
    ElErrorIs(s, r, d);
    ElevationInBegin(s, r);
  }

  /** The speed the regulator takes the antenna to have: slower than 150 counts per second is rest. */
  predicate SeenSpeed(r: Readings, w: int) { w == if -150 < r.elSpdTest < 150 then 0 else r.elSpd as int }

  /** The torque is a tenth of the error between commanded and seen speed. */
  lemma ElevationTorque(s: Ctrl, r: Readings, v: int, w: int, q: int)
    requires ElevationControlled(s, r) && s.elMode != ConstTorque
    requires v == Begin(s, r).elTgtSpd && SeenSpeed(r, w) && 10 * q <= Abs(v - w) < 10 * q + 10
    ensures Begin(s, r).motorEl == Limited(Directed(q, v < w))
  {
    ElevationInBegin(s, r);
    TenthOf(v - w, q);
  }

  lemma TenthOf(x: int, q: int)
    requires 10 * q <= Abs(x) < 10 * q + 10
    ensures TruncDiv(x, 10) == Directed(q, x < 0)
  {}

  /** So at rest and more than 45 counts off the antenna is pushed toward the target. */
  lemma ElevationPulls(s: Ctrl, r: Readings, d: int)
    requires ElevationControlled(s, r) && s.elMode == TargetPosition && ElevationOff(s, r, d)
    requires -150 < r.elSpdTest < 150
    ensures d > 45 ==> 18 <= Begin(s, r).motorEl <= 25
    ensures d < -45 ==> -25 <= Begin(s, r).motorEl <= -18
  {
    ElevationSpeed(s, r, d);
    var v := Begin(s, r).elTgtSpd;
    ElevationTorque(s, r, v, 0, Abs(v) / 10);
  }
}
