/**
 * ctrl.c in its own form: an object whose setters and loop body assign its
 * fields, each proved to have the effect stated in module Control.
 */
module ControlThread {
  import opened MachineInts
  import opened AxisLaws
  import opened Control

  /**
   * Direction and distance as the loop body derives them, with 16-bit
   * unsigned differences: together they are the signed circular error, and the
   * null-zone test on the unsigned difference is the test on that error.
   */
  method DirectionAndDistance(enc: U16, tgt: U16) returns (dir: int, dist: U16, moving: bool)
    ensures dir == 1 || dir == -1
    ensures dir * dist == CircularError(enc, tgt)
    ensures moving <==> !Idle(CircularError(enc, tgt))
    ensures moving ==> dir == Sign(CircularError(enc, tgt))
  {
    var dirDiff: U16 := WrapU16(tgt - enc);
    ghost var error: int := CircularError(enc, tgt);
    assert dirDiff == (if error >= 0 then error else error + 0x1_0000);
    assert WrapU16(enc - tgt) == (if error > 0 then 0x1_0000 - error else -error);
    if WrapU16(tgt - enc) < WrapU16(enc - tgt) {
      dist := WrapU16(tgt - enc);
    } else {
      dist := WrapU16(enc - tgt);
    }
    var nullzone: U16 := 45;
    moving := dirDiff > nullzone && 0xFFFF - nullzone > dirDiff;
    dir := if dirDiff < 32768 then 1 else -1;
  }

  /** Half the distance, limited to at least 2 and at most 30 degrees per second. */
  method AzTargetSpeed(dir: int, dist: U16, ghost error: I16) returns (spd: I16)
    requires (dir == 1 || dir == -1) && dir == Sign(error) && dir * dist == error
    ensures spd == ApproachSpeed(error)
  {
    spd := TruncDiv(dir * dist, 2);
    if Abs(spd) < 2 * 182 { spd := dir * 2 * 182; }
    if Abs(spd) > 30 * 182 { spd := dir * 30 * 182; }
  }

  method AzRegulator(tgt: I16, act: I16) returns (trq: I8)
    ensures trq == AzTorque(tgt, act)
  {
    var dir := if tgt > 0 then 1 else -1;
    var staticTrq := 10;
    trq := WrapI8(TruncDiv(tgt - act, 60) + staticTrq * dir);
    if trq > 25 { trq := 25; }
    if trq < -25 { trq := -25; }
  }

  method ElTargetSpeed(dist: I16) returns (spd: I16)
    ensures spd == ElSpeed(dist)
  {
    spd := dist;
    var dirEl := if spd < 0 then -1 else 1;
    if Abs(dist) > 45 {
      if Abs(spd) < 1 * 182 { spd := dirEl * 1 * 182; }
    }
    if Abs(spd) > 15 * 182 { spd := dirEl * 15 * 182; }
  }

  /** The 16-bit intermediate results hold every value they can get. */
  method ElRegulator(tgtSpd: I16, spd: I16, staticTrq: I8) returns (limited: I8)
    ensures limited == Clamp(TruncDiv(tgtSpd - spd, 10) + staticTrq, -25, 25)
    ensures staticTrq == 0 ==> limited == ElTorque(tgtSpd, spd)
  {
    var quotient := TruncDiv(tgtSpd - spd, 10);
    QuotientFits(tgtSpd - spd);
    var movingTrq := WrapI16(quotient);
    assert movingTrq == quotient;
    var trq := WrapI16(movingTrq + staticTrq);
    assert trq == quotient + staticTrq;
    if trq > 25 { trq := 25; }
    if trq < -25 { trq := -25; }
    limited := WrapI8(trq);
  }

  lemma QuotientFits(difference: int)
    requires Abs(difference) <= 0xFFFF
    ensures Abs(TruncDiv(difference, 10)) <= 6553
  {}

  /** How far a target moving at `spd` counts per second gets in `elapsed` milliseconds, by an unsigned product. */
  function Lead(spd: I16, elapsed: U32): real { WrapU32(spd * elapsed) as real / 1000.0 }

  /** C's conversion of a floating-point number to an integer. */
  function Truncate(x: real): int { if x >= 0.0 then x.Floor else -(-x).Floor }

  /** Where a moving target is by now; one with speed 0 stays. */
  method LedTarget(pos: int, spd: I16, elapsed: U32) returns (tgt: int)
    ensures spd == 0 ==> tgt == pos
  {
    tgt := Truncate(pos as real + Lead(spd, elapsed));
    assert spd == 0 ==> WrapU32(spd * elapsed) == 0;
  }

  /** Interpolates between the torques needed at 0 and at 90 degrees of elevation. */
  method HoldingTorque(trq0: I8, trq90: I8, imu: I16) returns (trq: I8)
    ensures trq0 == trq90 ==> trq == trq0
  {
    trq := WrapI8(trq0 + TruncDiv((trq90 - trq0) * imu, 16384));
    assert trq0 == trq90 ==> (trq90 - trq0) * imu == 0;
  }

  class Controller {
    var phase: Phase
    var azFlagCalibrate: bool
    var azState: Mode
    var elState: Mode
    var skState: Mode
    var azTgtSpd: I16
    var azTgtPos: U16
    var azTgtPosSpd: I16
    var elTgtSpd: I16
    var elTgtPos: I16
    var elTgtPosSpd: I16
    var skTgtPos: I16
    var oldAz: U16
    ghost var oldAzSet: bool
    var motorAz: I8
    var motorEl: I8
    var motorSk: I8
    var encAzOff: U16
    var imuElOff: I16
    var lastLoopUpdate: U32

    /** The lead terms are zero: no caller sets them to anything else. */
    ghost predicate Valid()
      reads this
    {
      azTgtPosSpd == 0 && elTgtPosSpd == 0
    }

    ghost function View(): Ctrl
      reads this
    {
      Ctrl(phase, azFlagCalibrate, azState, elState, skState, azTgtSpd, azTgtPos, elTgtSpd, elTgtPos,
           skTgtPos, oldAz, oldAzSet, motorAz, motorEl, motorSk, encAzOff, imuElOff, lastLoopUpdate)
    }

    constructor (junk: U16)
      ensures Valid() && View() == Initial(junk)
    {
      phase, azFlagCalibrate := Asleep, false;
      azState, elState, skState := ConstTorque, ConstTorque, ConstTorque;
      azTgtSpd, azTgtPos, azTgtPosSpd := 0, 0, 0;
      elTgtSpd, elTgtPos, elTgtPosSpd := 0, 0, 0;
      skTgtPos, oldAz, oldAzSet := 0, junk, false;
      motorAz, motorEl, motorSk := 0, 0, 0;
      encAzOff, imuElOff, lastLoopUpdate := 0, 0, 0;
    }

    method AzSetConstTrq(torque: I8)
      requires Valid()
      modifies this
      ensures Valid() && View() == ApplyAll(old(View()), AzConstTorque(torque).Writes())
    {
      ApplyThree(View(), AzConstTorque(torque).Writes());
      azFlagCalibrate := false;
      azState := ConstTorque;
      motorAz := torque;
    }

    method ElSetConstTrq(torque: I8)
      requires Valid()
      modifies this
      ensures Valid() && View() == ApplyAll(old(View()), ElConstTorque(torque).Writes())
    {
      ApplyTwo(View(), ElConstTorque(torque).Writes());
      motorEl := torque;
      elState := ConstTorque;
    }

    method SkSetConstTrq(torque: I8)
      requires Valid()
      modifies this
      ensures Valid() && View() == ApplyAll(old(View()), SkConstTorque(torque).Writes())
    {
      ApplyTwo(View(), SkConstTorque(torque).Writes());
      motorSk := torque;
      skState := ConstTorque;
    }

    method AzSetTgtPos(position: U16)
      requires Valid()
      modifies this
      ensures Valid() && View() == ApplyAll(old(View()), AzTarget(position).Writes())
    {
      ApplyThree(View(), AzTarget(position).Writes());
      azTgtPos := position;
      azFlagCalibrate := false;
      azState := TargetPosition;
    }

    method ElSetTgtPos(position: I16)
      requires Valid()
      modifies this
      ensures Valid() && View() == ApplyAll(old(View()), ElTarget(position).Writes())
    {
      ApplyTwo(View(), ElTarget(position).Writes());
      elTgtPos := position;
      elState := TargetPosition;
    }

    method SkSetTgtPos(position: I16)
      requires Valid()
      modifies this
      ensures Valid() && View() == ApplyAll(old(View()), SkTarget(position).Writes())
    {
      ApplyTwo(View(), SkTarget(position).Writes());
      skTgtPos := position;
      skState := TargetPosition;
    }

    method AzCalibrate()
      requires Valid()
      modifies this
      ensures Valid() && View() == ApplyAll(old(View()), Calibrate.Writes())
    {
      azFlagCalibrate := true;
    }

    /** The loop body up to its end, or up to the sleep of a starting calibration. */
    method RunToSleep(r: Readings, azElapsed: U32, elElapsed: U32)
      requires Valid() && phase == Asleep
      modifies this
      ensures Valid() && View() == Begin(old(View()), r)
    {
      if Trips(r) {
        AzSetConstTrq(0);
        ElSetConstTrq(0);
        SkSetConstTrq(0);
      }
      ghost var f := View();
      assert f == Failsafe(old(View()), r) by {
        StopIsThreeCommands(old(View()));
      }
      if azFlagCalibrate && azState != ConstSpeed {
        motorAz := 25;
        phase := PreRoll;
        return;
      }
      if azFlagCalibrate {
        WatchForOverflow(r.encCal);
      }
      ControlAxes(r, azElapsed, elElapsed);
    }

    method WatchForOverflow(az: U16)
      requires Valid() && azFlagCalibrate
      modifies this
      ensures Valid()
      ensures forall r: Readings | r.encCal == az :: View() == WatchOverflow(old(View()), r)
    {
      if oldAz > az {
        ApplyThree(View(), AzConstTorque(0).Writes());
        AzSetConstTrq(0);
      }
      oldAz, oldAzSet := az, true;
    }

    /** The rest of the loop body after that sleep. */
    method RunAfterSleep(r: Readings, azElapsed: U32, elElapsed: U32)
      requires Valid() && phase == PreRoll
      modifies this
      ensures Valid() && View() == Resume(old(View()), r)
    {
      phase := Asleep;
      azTgtSpd := 180 * 30;
      azState := ConstSpeed;
      oldAz, oldAzSet := 0, true;
      ghost var s := View();
      assert s == old(View()).(azTgtSpd := CALIBRATION_SPEED, azMode := ConstSpeed, oldAz := 0, oldAzSet := true,
                               phase := Asleep);
      ControlAxes(r, azElapsed, elElapsed);
    }

    method ControlAxes(r: Readings, azElapsed: U32, elElapsed: U32)
      requires Valid()
      modifies this
      ensures Valid() && View() == Finish(old(View()), r)
    {
      ControlAzimuth(r, azElapsed);
      ControlElevation(r, elElapsed);
      match skState {
        case ConstTorque =>
        case TargetPosition => skState := ConstTorque;
        case ConstSpeed => skState := ConstTorque;
      }
      lastLoopUpdate := r.clock;
    }

    method ControlAzimuth(r: Readings, elapsed: U32)
      requires Valid()
      modifies this
      ensures Valid() && View() == Azimuth(old(View()), r)
    {
      if azState == ConstTorque {
        return;
      }
      if azState == TargetPosition {
        var enc := WrapU16(r.encPos + encAzOff);
        var led := LedTarget(azTgtPos, azTgtPosSpd, elapsed);
        var tgt := WrapU16(led);
        assert tgt == azTgtPos;
        ghost var error := AzError(View(), r.encPos);
        assert CircularError(enc, tgt) == error;
        var dir, dist, moving := DirectionAndDistance(enc, tgt);
        if !moving {
          motorAz := if motorAz > 0 then 3 else -3;
          return;
        }
        azTgtSpd := AzTargetSpeed(dir, dist, error);
      }
      motorAz := AzRegulator(azTgtSpd, r.encSpd);
    }

    method ControlElevation(r: Readings, elapsed: U32)
      requires Valid()
      modifies this
      ensures Valid() && View() == Elevation(old(View()), r)
    {
      var imu: I16 := WrapI16(r.elPos + imuElOff);
      var staticTrq := HoldingTorque(0, 0, imu);
      if elState == ConstTorque {
        return;
      }
      if elState == TargetPosition {
        var led := LedTarget(elTgtPos, elTgtPosSpd, elapsed);
        var tgt := WrapI16(led);
        assert tgt == elTgtPos;
        elTgtSpd := ElTargetSpeed(WrapI16(tgt - imu));
      }
      var spd := MeasuredElSpeed(r);
      motorEl := ElRegulator(elTgtSpd, spd, staticTrq);
    }
  }

  lemma StopIsThreeCommands(s: Ctrl)
    ensures ApplyAll(ApplyAll(ApplyAll(s, AzConstTorque(0).Writes()), ElConstTorque(0).Writes()), SkConstTorque(0).Writes())
         == StopAzimuth(s).(elMode := ConstTorque, motorEl := 0, skMode := ConstTorque, motorSk := 0)
  {
    var s1 := ApplyAll(s, AzConstTorque(0).Writes());
    ApplyThree(s, AzConstTorque(0).Writes());
    ApplyTwo(s1, ElConstTorque(0).Writes());
    ApplyTwo(ApplyAll(s1, ElConstTorque(0).Writes()), SkConstTorque(0).Writes());
  }
}
