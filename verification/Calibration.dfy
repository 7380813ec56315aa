/**
 * The azimuth calibration run: from the end of its pre-roll the antenna turns
 * until the encoder reading falls below the one before it.
 */
module Calibration {
  import opened MachineInts
  import opened Control

  /** Calibration under way after its pre-roll; `oldAz` is the reading to compare with. */
  predicate Turning(s: Ctrl) { s.phase == Asleep && s.calibrating && s.azMode == ConstSpeed }

  predicate CalibrationOver(s: Ctrl) {
    s.phase == Asleep && !s.calibrating && s.azMode == ConstTorque && s.motorAz == 0
  }

  /** The readings compared, in order, starting with the one remembered. */
  function Compared(s: Ctrl, rs: seq<Readings>): (xs: seq<U16>)
    ensures |xs| == |rs| + 1
  {
    [s.oldAz] + seq(|rs|, i requires 0 <= i < |rs| => rs[i].encCal)
  }

  /** No reading is below the one before it. */
  ghost predicate Climbing(xs: seq<int>) { forall i | 0 < i < |xs| :: xs[i - 1] <= xs[i] }

  /** After the pre-roll the run starts with 0 as the remembered reading. */
  lemma PreRollStartsTurning(s: Ctrl, r: Readings)
    requires s.phase == PreRoll && s.calibrating
    ensures Turning(Resume(s, r)) && Resume(s, r).oldAz == 0 && Resume(s, r).oldAzSet
  {}

  /**
   * Calibration is still running after `rs` exactly when no reading fell below
   * its predecessor, and is over with the motor off as soon as one did.
   */
  lemma {:induction false} StopsAtFirstDescent(s: Ctrl, rs: seq<Readings>)
    requires Turning(s) && Quiet(rs)
    ensures Climbing(Compared(s, rs)) ==> Turning(ControlRun(s, rs))
    ensures !Climbing(Compared(s, rs)) ==> CalibrationOver(ControlRun(s, rs))
    decreases |rs|
  {
    if rs == [] {
    } else {
      var xs := Compared(s, rs);
      var next := Begin(s, rs[0]);
      assert rs[0] in rs;
      if s.oldAz > rs[0].encCal {
        assert xs[0] > xs[1];
        OverStays(next, rs[1..]);
      } else {
        assert Compared(next, rs[1..]) == xs[1..];
        ClimbingTail(xs);
        StopsAtFirstDescent(next, rs[1..]);
      }
    }
  }

  lemma ClimbingTail(xs: seq<int>)
    requires |xs| >= 2 && xs[0] <= xs[1]
    ensures Climbing(xs) <==> Climbing(xs[1..])
  {
    if Climbing(xs[1..]) {
      forall i | 0 < i < |xs|
        ensures xs[i - 1] <= xs[i]
      {
        if i > 1 {
          assert xs[1..][i - 2] <= xs[1..][i - 1];
        }
      }
    }
  }

  lemma {:induction false} OverStays(s: Ctrl, rs: seq<Readings>)
    requires CalibrationOver(s)
    ensures CalibrationOver(ControlRun(s, rs))
    decreases |rs|
  {
    if rs == [] {
    } else {
      OverStays(Begin(s, rs[0]), rs[1..]);
    }
  }

  /**
   * For an antenna that only moves forward, by less than a turn between two
   * readings, a reading falls exactly where the position crosses a whole turn.
   */
  lemma DescentIsCrossing(before: int, after: int)
    requires before <= after < before + 0x1_0000
    ensures WrapU16(after) < WrapU16(before) <==> after / 0x1_0000 == before / 0x1_0000 + 1
    ensures WrapU16(before) <= WrapU16(after) <==> after / 0x1_0000 == before / 0x1_0000
  {
    var a, b := after / 0x1_0000, before / 0x1_0000;
    assert after == a * 0x1_0000 + WrapU16(after);
    assert before == b * 0x1_0000 + WrapU16(before);
    assert b <= a <= b + 1;
  }

  /** Readings of an antenna at the unwrapped positions `pos`. */
  ghost predicate Measures(rs: seq<Readings>, pos: seq<int>) {
    && |rs| == |pos|
    && (forall i | 0 <= i < |rs| :: rs[i].encCal == WrapU16(pos[i]))
    && (forall i | 0 < i < |pos| :: pos[i - 1] <= pos[i] < pos[i - 1] + 0x1_0000)
  }

  /**
   * Right after its pre-roll, calibration is over exactly when the antenna has
   * crossed a whole turn since the first reading.
   */
  lemma StopsAtFirstTurn(s: Ctrl, rs: seq<Readings>, pos: seq<int>)
    requires Turning(s) && s.oldAz == 0 && Quiet(rs) && rs != []
    requires Measures(rs, pos)
    ensures CalibrationOver(ControlRun(s, rs)) <==> pos[|pos| - 1] / 0x1_0000 > pos[0] / 0x1_0000
    ensures Turning(ControlRun(s, rs)) <==> pos[|pos| - 1] / 0x1_0000 == pos[0] / 0x1_0000
  {
    StopsAtFirstDescent(s, rs);
    if Climbing(Compared(s, rs)) {
      ClimbingStaysInTurn(s, rs, pos);
    } else {
      DescentLeavesTurn(s, rs, pos);
    }
  }

  lemma ClimbingStaysInTurn(s: Ctrl, rs: seq<Readings>, pos: seq<int>)
    requires rs != [] && Measures(rs, pos) && Climbing(Compared(s, rs))
    ensures pos[|pos| - 1] / 0x1_0000 == pos[0] / 0x1_0000
  {
    var xs := Compared(s, rs);
    forall i | 0 < i < |pos|
      ensures pos[i] / 0x1_0000 == pos[i - 1] / 0x1_0000
    {
      assert xs[i] <= xs[i + 1];
      DescentIsCrossing(pos[i - 1], pos[i]);
    }
    ConstantTurns(pos);
  }

  lemma DescentLeavesTurn(s: Ctrl, rs: seq<Readings>, pos: seq<int>)
    requires s.oldAz == 0 && rs != [] && Measures(rs, pos) && !Climbing(Compared(s, rs))
    ensures pos[|pos| - 1] / 0x1_0000 > pos[0] / 0x1_0000
  {
    var xs := Compared(s, rs);
    var i :| 0 < i < |xs| && xs[i - 1] > xs[i];
    assert i >= 2;
    DescentIsCrossing(pos[i - 2], pos[i - 1]);
    TurnsOnlyGrow(rs, pos);
    assert pos[0] / 0x1_0000 <= pos[i - 2] / 0x1_0000 < pos[i - 1] / 0x1_0000 <= pos[|pos| - 1] / 0x1_0000;
  }

  lemma {:induction false} ConstantTurns(pos: seq<int>)
    requires pos != []
    requires forall i | 0 < i < |pos| :: pos[i] / 0x1_0000 == pos[i - 1] / 0x1_0000
    ensures pos[|pos| - 1] / 0x1_0000 == pos[0] / 0x1_0000
  {
    if |pos| == 1 {
    } else {
      var p := pos[..|pos| - 1];
      ConstantTurns(p);
    }
  }

  lemma {:induction false} TurnsOnlyGrow(rs: seq<Readings>, pos: seq<int>)
    requires Measures(rs, pos)
    ensures forall i, j | 0 <= i <= j < |pos| :: pos[i] / 0x1_0000 <= pos[j] / 0x1_0000
  {
    if pos == [] {
    } else {
      var n := |pos| - 1;
      TurnsOnlyGrow(rs[..n], pos[..n]);
      forall i | 0 <= i <= n
        ensures pos[i] / 0x1_0000 <= pos[n] / 0x1_0000
      {
        if i < n {
          assert pos[..n][i] / 0x1_0000 <= pos[..n][n - 1] / 0x1_0000;
          assert pos[n - 1] <= pos[n];
        }
      }
    }
  }

  /** If no two readings in a row agree, 65537 of them always end the run. */
  lemma StopsWithinOneRevolution(s: Ctrl, rs: seq<Readings>)
    requires Turning(s) && Quiet(rs)
    requires |rs| >= 65537
    requires forall i | 0 < i < |rs| :: rs[i - 1].encCal != rs[i].encCal
    ensures CalibrationOver(ControlRun(s, rs))
  {
    StopsAtFirstDescent(s, rs);
    var xs := Compared(s, rs);
    if Climbing(xs) {
      var ys := xs[1..];
      forall i | 0 < i < |ys|
        ensures ys[i - 1] < ys[i]
      {
        assert xs[i] <= xs[i + 1];
        assert rs[i - 1].encCal != rs[i].encCal;
      }
      StrictClimbIsHigh(ys);
      assert false;
    }
  }

  lemma {:induction false} StrictClimbIsHigh(ys: seq<U16>)
    requires ys != []
    requires forall i | 0 < i < |ys| :: ys[i - 1] < ys[i]
    ensures ys[|ys| - 1] >= |ys| - 1
  {
    if |ys| == 1 {
    } else {
      StrictClimbIsHigh(ys[..|ys| - 1]);
    }
  }
}
