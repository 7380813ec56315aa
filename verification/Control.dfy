/**
 * The motion controller (ctrl.c): one control iteration as a function of the
 * shared state and of every value it reads, and the assignments that commands
 * make to the same state.
 *
 * An iteration runs to its end before any command thread gets the processor,
 * except that starting a calibration puts the control thread to sleep for one
 * second half way through. `Begin` and `Resume` are the two halves. A command
 * thread can be preempted by an iteration after any of its assignments, so a
 * command is a sequence of `Write`s.
 */
module Control {
  import opened MachineInts
  import opened AxisLaws

  datatype Mode = ConstTorque | ConstSpeed | TargetPosition

  datatype Phase = Asleep | PreRoll

  const PRE_ROLL_TORQUE: I8 := 25
  const CALIBRATION_SPEED: I16 := 180 * 30
  const HOLD_TORQUE: I8 := 3

  /** The variables of ctrl.c, and those of mde.c and imu.c that it and its commands write. */
  datatype Ctrl = Ctrl(
    phase: Phase,
    calibrating: bool,
    azMode: Mode, elMode: Mode, skMode: Mode,
    azTgtSpd: I16, azTgtPos: U16,
    elTgtSpd: I16, elTgtPos: I16,
    skTgtPos: I16,
    oldAz: U16, oldAzSet: bool,
    motorAz: I8, motorEl: I8, motorSk: I8,
    encOff: U16, elOff: I16,
    lastUpdate: U32)

  /** At power-on; `junk` is whatever the uninitialised local `old_az` holds. */
  function Initial(junk: U16): Ctrl {
    Ctrl(Asleep, false, ConstTorque, ConstTorque, ConstTorque,
         0, 0, 0, 0, 0, junk, false, 0, 0, 0, 0, 0, 0)
  }

  /**
   * One value per read in the loop body. The sensor threads run at a higher
   * priority, so two reads of one variable need not agree.
   */
  datatype Readings = Readings(
    accelX: I16, accelY: I16, accelZ: I16,
    rotXLow: U16, rotXHigh: U16,
    rotYLow: U16, rotYHigh: U16,
    rotZLow: U16, rotZHigh: U16,
    encCal: U16, encPos: U16, encSpd: I16,
    elPos: I16, elSpdTest: I16, elSpd: I16,
    clock: U32)

  // ----- One iteration

  predicate Trips(r: Readings) {
    || (r.accelX == 0 && r.accelY == 0 && r.accelZ == 0)
    || r.rotXLow < 2070 - 800 || r.rotXHigh > 2070 + 800
    || r.rotYLow < 2070 - 800 || r.rotYHigh > 2070 + 800
    || r.rotZLow < 2070 - 800 || r.rotZHigh > 2070 + 800
  }

  /** All motors off and nothing left that would turn one on again. */
  predicate Stopped(s: Ctrl) {
    && s.phase == Asleep && !s.calibrating
    && s.azMode == s.elMode == s.skMode == ConstTorque
    && s.motorAz == s.motorEl == s.motorSk == 0
  }

  function StopAzimuth(s: Ctrl): Ctrl { s.(calibrating := false, azMode := ConstTorque, motorAz := 0) }

  function Failsafe(s: Ctrl, r: Readings): Ctrl {
    if Trips(r)
    then StopAzimuth(s).(elMode := ConstTorque, motorEl := 0, skMode := ConstTorque, motorSk := 0)
    else s
  }

  function WatchOverflow(s: Ctrl, r: Readings): Ctrl {
    if s.calibrating
    then (if s.oldAz > r.encCal then StopAzimuth(s) else s).(oldAz := r.encCal, oldAzSet := true)
    else s
  }

  /** The position error the azimuth law works on. */
  function AzError(s: Ctrl, encPos: U16): I16 { CircularError(WrapU16(encPos + s.encOff), s.azTgtPos) }

  function Azimuth(s: Ctrl, r: Readings): Ctrl {
    match s.azMode
    case ConstTorque => s
    case ConstSpeed => s.(motorAz := AzTorque(s.azTgtSpd, r.encSpd))
    case TargetPosition =>
      var e := AzError(s, r.encPos);
      if Idle(e) then s.(motorAz := if s.motorAz > 0 then HOLD_TORQUE else -HOLD_TORQUE)
      else s.(azTgtSpd := ApproachSpeed(e), motorAz := AzTorque(ApproachSpeed(e), r.encSpd))
  }

  function MeasuredElSpeed(r: Readings): I16 { if Abs(r.elSpdTest) < EL_DEAD_BAND then 0 else r.elSpd }

  function ElError(s: Ctrl, r: Readings): I16 { WrapI16(s.elTgtPos - WrapI16(r.elPos + s.elOff)) }

  function Elevation(s: Ctrl, r: Readings): Ctrl {
    match s.elMode
    case ConstTorque => s
    case ConstSpeed => s.(motorEl := ElTorque(s.elTgtSpd, MeasuredElSpeed(r)))
    case TargetPosition =>
      var v := ElSpeed(ElError(s, r));
      s.(elTgtSpd := v, motorEl := ElTorque(v, MeasuredElSpeed(r)))
  }

  function Finish(s: Ctrl, r: Readings): Ctrl {
    Elevation(Azimuth(s, r), r).(skMode := ConstTorque, lastUpdate := r.clock)
  }

  predicate EntersPreRoll(s: Ctrl) { s.calibrating && s.azMode != ConstSpeed }

  function Begin(s: Ctrl, r: Readings): Ctrl
    requires s.phase == Asleep
  {
    var f := Failsafe(s, r);
    if EntersPreRoll(f)
    then f.(motorAz := PRE_ROLL_TORQUE, phase := PreRoll)
    else Finish(WatchOverflow(f, r), r)
  }

  function Resume(s: Ctrl, r: Readings): Ctrl
    requires s.phase == PreRoll
  {
    Finish(s.(azTgtSpd := CALIBRATION_SPEED, azMode := ConstSpeed, oldAz := 0, oldAzSet := true,
              phase := Asleep), r)
  }

  // ----- Commands

  /** One assignment by a command thread; the targets are what http.c and api.c can reach. */
  datatype Write =
    | SetCalibrating(on: bool)
    | SetAzMode(mode: Mode) | SetElMode(mode: Mode) | SetSkMode(mode: Mode)
    | SetAzTgtPos(azPos: U16) | SetElTgtPos(elPos: I16) | SetSkTgtPos(skPos: I16)
    | SetMotorAz(trq: I8) | SetMotorEl(trq: I8) | SetMotorSk(trq: I8)
    | SetEncOff(encOff: U16) | SetElOff(elOff: I16)

  function Apply(s: Ctrl, w: Write): Ctrl {
    match w
    case SetCalibrating(on) => s.(calibrating := on)
    case SetAzMode(m) => s.(azMode := m)
    case SetElMode(m) => s.(elMode := m)
    case SetSkMode(m) => s.(skMode := m)
    case SetAzTgtPos(p) => s.(azTgtPos := p)
    case SetElTgtPos(p) => s.(elTgtPos := p)
    case SetSkTgtPos(p) => s.(skTgtPos := p)
    case SetMotorAz(t) => s.(motorAz := t)
    case SetMotorEl(t) => s.(motorEl := t)
    case SetMotorSk(t) => s.(motorSk := t)
    case SetEncOff(o) => s.(encOff := o)
    case SetElOff(o) => s.(elOff := o)
  }

  function ApplyAll(s: Ctrl, ws: seq<Write>): Ctrl
    decreases |ws|
  {
    if ws == [] then s else ApplyAll(Apply(s, ws[0]), ws[1..])
  }

  datatype Command =
    | AzConstTorque(trq: I8) | ElConstTorque(trq: I8) | SkConstTorque(trq: I8)
    | AzTarget(azPos: U16) | ElTarget(elPos: I16) | SkTarget(skPos: I16)
    | Calibrate | AzOffset(encOff: U16) | ElOffset(elOff: I16)
  {
    /** The assignments, in program order. */
    function Writes(): seq<Write> {
      match this
      case AzConstTorque(t) => [SetCalibrating(false), SetAzMode(ConstTorque), SetMotorAz(t)]
      case ElConstTorque(t) => [SetMotorEl(t), SetElMode(ConstTorque)]
      case SkConstTorque(t) => [SetMotorSk(t), SetSkMode(ConstTorque)]
      case AzTarget(p) => [SetAzTgtPos(p), SetCalibrating(false), SetAzMode(TargetPosition)]
      case ElTarget(p) => [SetElTgtPos(p), SetElMode(TargetPosition)]
      case SkTarget(p) => [SetSkTgtPos(p), SetSkMode(TargetPosition)]
      case Calibrate => [SetCalibrating(true)]
      case AzOffset(o) => [SetEncOff(o)]
      case ElOffset(o) => [SetElOff(o)]
    }
  }

  /** What each command leaves behind when nothing comes between its assignments. */
  lemma CommandsLeave(s: Ctrl, c: Command)
    ensures ApplyAll(s, c.Writes()) ==
            match c
            case AzConstTorque(t) => s.(calibrating := false, azMode := ConstTorque, motorAz := t)
            case ElConstTorque(t) => s.(elMode := ConstTorque, motorEl := t)
            case SkConstTorque(t) => s.(skMode := ConstTorque, motorSk := t)
            case AzTarget(p) => s.(calibrating := false, azMode := TargetPosition, azTgtPos := p)
            case ElTarget(p) => s.(elMode := TargetPosition, elTgtPos := p)
            case SkTarget(p) => s.(skMode := TargetPosition, skTgtPos := p)
            case Calibrate => s.(calibrating := true)
            case AzOffset(o) => s.(encOff := o)
            case ElOffset(o) => s.(elOff := o)
  {
    var ws := c.Writes();
    if |ws| == 3 {
      ApplyThree(s, ws);
    } else if |ws| == 2 {
      ApplyTwo(s, ws);
    } else {
      assert ApplyAll(s, ws) == ApplyAll(Apply(s, ws[0]), ws[1..]) == Apply(s, ws[0]);
    }
  }

  // ----- The control thread by itself

  /** Its next stretch: to the end of an iteration, or to the sleep inside it. */
  function ControlStep(s: Ctrl, r: Readings): Ctrl {
    if s.phase == Asleep then Begin(s, r) else Resume(s, r)
  }

  function ControlRun(s: Ctrl, rs: seq<Readings>): Ctrl
    decreases |rs|
  {
    if rs == [] then s else ControlRun(ControlStep(s, rs[0]), rs[1..])
  }

  ghost predicate Quiet(rs: seq<Readings>) { forall r | r in rs :: !Trips(r) }

  /** In the pre-roll and not yet woken, or an iteration has just entered it. */
  predicate EndsInPreRoll(s: Ctrl, rs: seq<Readings>) {
    if s.phase == PreRoll then rs == [] else EntersPreRoll(s) && |rs| == 1 && !Trips(rs[0])
  }

  /** Exactly when the control thread by itself ends up in the pre-roll. */
  lemma {:induction false} PreRollIff(s: Ctrl, rs: seq<Readings>)
    ensures ControlRun(s, rs).phase == PreRoll <==> EndsInPreRoll(s, rs)
    decreases |rs|
  {
    if rs == [] {
    } else {
      PreRollStep(s, rs[0]);
      PreRollIff(ControlStep(s, rs[0]), rs[1..]);
    }
  }

  lemma PreRollStep(s: Ctrl, r: Readings)
    ensures var s' := ControlStep(s, r);
            && (s'.phase == PreRoll <==> s.phase == Asleep && EntersPreRoll(s) && !Trips(r))
            && (s'.phase == Asleep ==> !EntersPreRoll(s'))
            && (!s.calibrating ==> !s'.calibrating)
            && s'.azTgtPos == s.azTgtPos
  {}

  /** No control step sets the calibration flag or changes the target. */
  lemma {:induction false} FlagStaysClear(s: Ctrl, rs: seq<Readings>)
    ensures !s.calibrating ==> !ControlRun(s, rs).calibrating
    ensures ControlRun(s, rs).azTgtPos == s.azTgtPos
    decreases |rs|
  {
    if rs == [] {
    } else {
      PreRollStep(s, rs[0]);
      FlagStaysClear(ControlStep(s, rs[0]), rs[1..]);
    }
  }

  // ----- Failsafe

  /** A tripped iteration stops everything, and everything stays stopped whatever is read later. */
  lemma FailsafeLatches(s: Ctrl, trip: Readings, later: seq<Readings>)
    requires s.phase == Asleep
    requires Trips(trip)
    ensures Stopped(Begin(s, trip))
    ensures Stopped(ControlRun(Begin(s, trip), later))
  {
    StoppedStays(Begin(s, trip), later);
  }

  lemma {:induction false} StoppedStays(s: Ctrl, later: seq<Readings>)
    requires Stopped(s)
    ensures Stopped(ControlRun(s, later))
    decreases |later|
  {
    if later == [] {
    } else {
      StoppedStays(Begin(s, later[0]), later[1..]);
    }
  }

  // ----- Azimuth commands preempted by the control thread

  predicate AzCommand(c: Command) { c.AzConstTorque? || c.AzTarget? }

  /**
   * The command with `first` and `second` run before its second and its third
   * assignment, iterations and halves of them alike.
   */
  function Preempted(s: Ctrl, c: Command, first: seq<Readings>, second: seq<Readings>): Ctrl
    requires AzCommand(c)
  {
    var s1 := ControlRun(Apply(s, c.Writes()[0]), first);
    Apply(ControlRun(Apply(s1, c.Writes()[1]), second), c.Writes()[2])
  }

  /** The state its assignment of the mode meets. */
  function AtModeWrite(s: Ctrl, c: Command, first: seq<Readings>, second: seq<Readings>): Ctrl
    requires AzCommand(c)
  {
    var s1 := ControlRun(Apply(s, c.Writes()[0]), first);
    if c.AzConstTorque? then s1 else ControlRun(Apply(s1, c.Writes()[1]), second)
  }

  /** The mode is assigned during the pre-roll, in terms of the state before the command. */
  predicate ModeMeetsPreRoll(s: Ctrl, c: Command, first: seq<Readings>, second: seq<Readings>) {
    if c.AzConstTorque? then s.phase == PreRoll && first == []
    else second == [] && EndsInPreRoll(s, first)
  }

  lemma ModeMeetsPreRollIff(s: Ctrl, c: Command, first: seq<Readings>, second: seq<Readings>)
    requires AzCommand(c)
    ensures AtModeWrite(s, c, first, second).phase == PreRoll <==> ModeMeetsPreRoll(s, c, first, second)
  {
    PreRollIff(Apply(s, c.Writes()[0]), first);
    if c.AzTarget? {
      PreRollIff(Apply(ControlRun(Apply(s, c.Writes()[0]), first), c.Writes()[1]), second);
    }
  }

  /** What the command asks for is in force, with nothing pending that would undo it. */
  predicate InForce(s: Ctrl, c: Command)
    requires AzCommand(c)
  {
    && s.phase == Asleep && !s.calibrating
    && if c.AzTarget? then s.azMode == TargetPosition && s.azTgtPos == c.azPos
       else s.azMode == ConstTorque && s.motorAz == c.trq
  }

  /** Azimuth turning at calibration speed with nothing watching for the overflow. */
  predicate Runaway(s: Ctrl) {
    s.phase == Asleep && !s.calibrating && s.azMode == ConstSpeed && s.azTgtSpd == CALIBRATION_SPEED
  }

  /** Running away, or about to when the pre-roll is over. */
  predicate Lost(s: Ctrl) { Runaway(s) || (s.phase == PreRoll && !s.calibrating) }

  /** Without calibration only a trip changes the mode; it is in force or not for good. */
  lemma {:induction false} UncalibratedRun(s: Ctrl, rs: seq<Readings>)
    requires s.phase == Asleep && !s.calibrating
    ensures var e := ControlRun(s, rs);
            && e.phase == Asleep && !e.calibrating
            && (Quiet(rs) ==> e.azMode == s.azMode && (s.azMode == ConstTorque ==> e.motorAz == s.motorAz))
            && (!Quiet(rs) || s.azMode == ConstTorque ==> e.azMode == ConstTorque)
            && (s.azMode != TargetPosition ==> e.azTgtSpd == s.azTgtSpd)
            && e.azTgtPos == s.azTgtPos
    decreases |rs|
  {
    if rs == [] {
    } else {
      UncalibratedStep(s, rs[0]);
      assert rs[0] in rs;
      assert forall r | r in rs :: r == rs[0] || r in rs[1..];
      UncalibratedRun(Begin(s, rs[0]), rs[1..]);
    }
  }

  lemma UncalibratedStep(s: Ctrl, r: Readings)
    requires s.phase == Asleep && !s.calibrating
    ensures var e := Begin(s, r);
            && e.phase == Asleep && !e.calibrating
            && (Trips(r) ==> e.azMode == ConstTorque)
            && (!Trips(r) ==> e.azMode == s.azMode && (s.azMode == ConstTorque ==> e.motorAz == s.motorAz))
            && (s.azMode != TargetPosition ==> e.azTgtSpd == s.azTgtSpd)
            && e.azTgtPos == s.azTgtPos
  {}

  /** The readings from the end of the pre-roll on: waking up does not test for a trip. */
  function Tested(s: Ctrl, rs: seq<Readings>): seq<Readings> {
    if s.phase == PreRoll && rs != [] then rs[1..] else rs
  }

  /** A lost azimuth keeps turning exactly until the failsafe trips. */
  lemma LostRun(s: Ctrl, rs: seq<Readings>)
    requires Lost(s)
    ensures var e := ControlRun(s, rs);
            && (Quiet(Tested(s, rs)) ==> Lost(e))
            && (!Quiet(Tested(s, rs)) ==> e.phase == Asleep && !e.calibrating && e.azMode == ConstTorque)
            && (e.phase == PreRoll ==> rs == [])
  {
    if s.phase == PreRoll && rs != [] {
      assert Runaway(Resume(s, rs[0]));
      UncalibratedRun(Resume(s, rs[0]), rs[1..]);
    } else if s.phase == Asleep {
      UncalibratedRun(s, rs);
    }
  }

  /**
   * The torque command, for all placements of the control steps: it is lost
   * exactly when its assignment of the mode meets the pre-roll and no trip
   * stops the antenna before its last assignment.
   */
  lemma AzTorqueCommandHonouredIff(s: Ctrl, trq: I8, first: seq<Readings>, second: seq<Readings>)
    ensures var c := AzConstTorque(trq);
            var e := Preempted(s, c, first, second);
            && (InForce(e, c)
                <==> !(ModeMeetsPreRoll(s, c, first, second) && Quiet(if second == [] then [] else second[1..])))
            && (Lost(e) <==> !InForce(e, c))
  {
    var c := AzConstTorque(trq);
    var m := ControlRun(Apply(s, SetCalibrating(false)), first);
    ModeMeetsPreRollIff(s, c, first, second);
    FlagStaysClear(Apply(s, SetCalibrating(false)), first);
    var s2 := Apply(m, SetAzMode(ConstTorque));
    if m.phase == PreRoll {
      LostRun(s2, second);
    } else {
      UncalibratedRun(s2, second);
    }
  }

  /**
   * The target command writes the target before it clears the calibration
   * flag, so it is lost also when an iteration enters the pre-roll in between.
   */
  lemma AzTargetCommandHonouredIff(s: Ctrl, pos: U16, first: seq<Readings>, second: seq<Readings>)
    ensures var c := AzTarget(pos);
            var e := Preempted(s, c, first, second);
            && (InForce(e, c) <==> !ModeMeetsPreRoll(s, c, first, second))
            && (Lost(e) <==> !InForce(e, c))
  {
    var c := AzTarget(pos);
    var s1 := Apply(s, SetAzTgtPos(pos));
    ModeMeetsPreRollIff(s, c, first, second);
    FlagStaysClear(s1, first);
    FlagStaysClear(Apply(ControlRun(s1, first), SetCalibrating(false)), second);
  }

  /**
   * With the control steps after the command: the antenna runs away exactly
   * when the mode was assigned during the pre-roll and no trip came after it,
   * and without trips the command is in force exactly otherwise.
   */
  lemma AzCommandLostIff(s: Ctrl, c: Command, first: seq<Readings>, second: seq<Readings>, later: seq<Readings>)
    requires AzCommand(c) && later != []
    ensures var e := ControlRun(Preempted(s, c, first, second), later);
            && (Runaway(e) <==> ModeMeetsPreRoll(s, c, first, second) && Quiet((second + later)[1..]))
            && (Quiet(second + later) ==> (InForce(e, c) <==> !ModeMeetsPreRoll(s, c, first, second)))
  {
    var x := Preempted(s, c, first, second);
    if c.AzConstTorque? {
      AzTorqueCommandHonouredIff(s, c.trq, first, second);
    } else {
      AzTargetCommandHonouredIff(s, c.azPos, first, second);
    }
    LaterTrips(second, later);
    if Lost(x) {
      LostPhase(s, c, first, second);
      LostRun(x, later);
    } else {
      UncalibratedRun(x, later);
    }
  }

  lemma LaterTrips(second: seq<Readings>, later: seq<Readings>)
    requires later != []
    ensures Quiet(second + later) <==> Quiet(second) && Quiet(later)
    ensures second == [] ==> (second + later)[1..] == later[1..]
    ensures second != [] ==> (Quiet((second + later)[1..]) <==> Quiet(second[1..]) && Quiet(later))
  {
    if second == [] {
      assert second + later == later;
    } else {
      assert (second + later)[1..] == second[1..] + later;
    }
  }

  /** A lost command leaves the control thread asleep in its pre-roll if nothing ran after the mode was assigned. */
  lemma LostPhase(s: Ctrl, c: Command, first: seq<Readings>, second: seq<Readings>)
    requires AzCommand(c) && ModeMeetsPreRoll(s, c, first, second)
    ensures Preempted(s, c, first, second).phase == PreRoll <==> second == []
  {
    ModeMeetsPreRollIff(s, c, first, second);
    if c.AzConstTorque? {
      PreRollIff(Apply(AtModeWrite(s, c, first, second), SetAzMode(ConstTorque)), second);
    }
  }

  // ----- The elevation torque command preempted by the control thread

  /** The state after the elevation torque setter when `between` runs between its two assignments. */
  function ElTorqueCommand(s: Ctrl, trq: I8, between: seq<Readings>): Ctrl {
    var ws := ElConstTorque(trq).Writes();
    Apply(ControlRun(Apply(s, ws[0]), between), ws[1])
  }

  /** The readings an iteration begins with, and so tests for a trip. */
  function Begun(s: Ctrl, rs: seq<Readings>): seq<Readings> {
    if s.phase == Asleep && EntersPreRoll(s) && |rs| >= 2 && !Trips(rs[0]) then [rs[0]] + rs[2..] else Tested(s, rs)
  }

  /** No trip, and constant torque or not one elevation control. */
  ghost predicate KeepsElTorque(s: Ctrl, rs: seq<Readings>) {
    Quiet(Begun(s, rs)) && (s.elMode == ConstTorque || rs == [] || EndsInPreRoll(s, rs))
  }

  /**
   * The elevation setter writes the torque first. Whatever runs between its
   * two assignments, it is honoured for every torque exactly when that neither
   * trips nor controls elevation in another mode.
   */
  lemma ElTorqueCommandHonouredIff(s: Ctrl, between: seq<Readings>)
    ensures (forall trq: I8 :: ElTorqueCommand(s, trq, between).motorEl == trq) <==> KeepsElTorque(s, between)
  {
    if KeepsElTorque(s, between) {
      forall trq: I8
        ensures ElTorqueCommand(s, trq, between).motorEl == trq
      {
        ElTorqueKept(Apply(s, SetMotorEl(trq)), between);
      }
    } else {
      ElTorqueForgotten(Apply(s, SetMotorEl(1)), Apply(s, SetMotorEl(2)), between);
      assert ElTorqueCommand(s, 1, between).motorEl == ElTorqueCommand(s, 2, between).motorEl;
    }
  }

  /** One control step leaves the elevation torque alone. */
  predicate StepKeepsElTorque(s: Ctrl, r: Readings) {
    if s.phase == PreRoll then s.elMode == ConstTorque
    else !Trips(r) && (EntersPreRoll(s) || s.elMode == ConstTorque)
  }

  lemma KeepsStepByStep(s: Ctrl, rs: seq<Readings>)
    requires rs != []
    ensures KeepsElTorque(s, rs) <==> StepKeepsElTorque(s, rs[0]) && KeepsElTorque(ControlStep(s, rs[0]), rs[1..])
  {
    var s' := ControlStep(s, rs[0]);
    PreRollStep(s, rs[0]);
    assert rs[0] in rs;
    assert forall r | r in rs :: r == rs[0] || r in rs[1..];
    if s.phase == Asleep && EntersPreRoll(s) && !Trips(rs[0]) && |rs| >= 2 {
      assert Begun(s', rs[1..]) == rs[2..];
      assert rs[0] in Begun(s, rs);
    } else if s.phase == Asleep {
      assert Begun(s, rs) == rs && (!Trips(rs[0]) && |rs| >= 2 ==> Begun(s', rs[1..]) == rs[1..]);
    }
  }

  lemma {:induction false} ElTorqueKept(s: Ctrl, rs: seq<Readings>)
    requires KeepsElTorque(s, rs)
    ensures ControlRun(s, rs).motorEl == s.motorEl
    decreases |rs|
  {
    if rs == [] {
    } else {
      KeepsStepByStep(s, rs);
      StepKeepsMotorEl(s, rs[0]);
      ElTorqueKept(ControlStep(s, rs[0]), rs[1..]);
    }
  }

  lemma StepKeepsMotorEl(s: Ctrl, r: Readings)
    requires StepKeepsElTorque(s, r)
    ensures ControlStep(s, r).motorEl == s.motorEl
  {}

  /** Once overwritten, the torque in force no longer depends on the one commanded. */
  lemma {:induction false} ElTorqueForgotten(a: Ctrl, b: Ctrl, rs: seq<Readings>)
    requires a == b.(motorEl := a.motorEl)
    requires a == b || !KeepsElTorque(a, rs)
    ensures ControlRun(a, rs) == ControlRun(b, rs)
    decreases |rs|
  {
    if rs == [] || a == b {
    } else {
      KeepsStepByStep(a, rs);
      StepForgets(a, b, rs[0]);
      ElTorqueForgotten(ControlStep(a, rs[0]), ControlStep(b, rs[0]), rs[1..]);
    }
  }

  lemma StepForgets(a: Ctrl, b: Ctrl, r: Readings)
    requires a == b.(motorEl := a.motorEl)
    ensures var a', b' := ControlStep(a, r), ControlStep(b, r);
            a' == b'.(motorEl := a'.motorEl) && (a' == b' || StepKeepsElTorque(a, r))
  {
    if a.phase == PreRoll {
      FinishForgets(b.(azTgtSpd := CALIBRATION_SPEED, azMode := ConstSpeed, oldAz := 0, oldAzSet := true, phase := Asleep),
                    r, a.motorEl);
    } else if Trips(r) {
      assert Failsafe(a, r) == Failsafe(b, r);
    } else if !EntersPreRoll(b) {
      var f := WatchOverflow(b, r);
      assert WatchOverflow(a, r) == f.(motorEl := a.motorEl);
      FinishForgets(f, r, a.motorEl);
    }
  }

  lemma FinishForgets(s: Ctrl, r: Readings, trq: I8)
    ensures Finish(s.(motorEl := trq), r)
         == if s.elMode == ConstTorque then Finish(s, r).(motorEl := trq) else Finish(s, r)
  {
    AzimuthKeepsMotorEl(s, r, trq);
    ElevationIgnoresMotorEl(Azimuth(s, r), r, trq);
  }

  lemma AzimuthKeepsMotorEl(s: Ctrl, r: Readings, trq: I8)
    ensures Azimuth(s.(motorEl := trq), r) == Azimuth(s, r).(motorEl := trq)
    ensures Azimuth(s, r).elMode == s.elMode
  {
    assert AzError(s.(motorEl := trq), r.encPos) == AzError(s, r.encPos);
  }

  lemma ElevationIgnoresMotorEl(s: Ctrl, r: Readings, trq: I8)
    ensures s.elMode != ConstTorque ==> Elevation(s.(motorEl := trq), r) == Elevation(s, r)
    ensures s.elMode == ConstTorque ==> Elevation(s.(motorEl := trq), r) == s.(motorEl := trq)
    ensures Elevation(s, r).elMode == s.elMode
  {
    assert ElError(s.(motorEl := trq), r) == ElError(s, r);
  }

  // ----- A stop during calibration

  /**
   * From any state in which azimuth is not already turning at constant
   * speed, a calibration followed by a stop before its pre-roll is over leaves
   * the antenna turning.
   */
  lemma StopLostDuringCalibration(s: Ctrl, c: Command, r: Readings, r': Readings)
    requires s.phase == Asleep && s.azMode != ConstSpeed && !Trips(r)
    requires c.AzConstTorque? || c.AzTarget?
    ensures var started := Begin(Apply(s, SetCalibrating(true)), r);
            && started.phase == PreRoll
            && var commanded := ApplyAll(started, c.Writes());
            commanded.phase == PreRoll && Runaway(Resume(commanded, r'))
  {
    ApplyThree(Begin(Apply(s, SetCalibrating(true)), r), c.Writes());
  }

  lemma ApplyThree(s: Ctrl, ws: seq<Write>)
    requires |ws| == 3
    ensures ApplyAll(s, ws) == Apply(Apply(Apply(s, ws[0]), ws[1]), ws[2])
  {
    var s1 := Apply(s, ws[0]);
    var s2 := Apply(s1, ws[1]);
    assert ApplyAll(s1, ws[1..]) == ApplyAll(s2, ws[1..][1..]);
    assert ws[1..][1..][0] == ws[2];
    assert ApplyAll(s2, ws[1..][1..]) == ApplyAll(Apply(s2, ws[2]), ws[1..][1..][1..]);
  }

  lemma ApplyTwo(s: Ctrl, ws: seq<Write>)
    requires |ws| == 2
    ensures ApplyAll(s, ws) == Apply(Apply(s, ws[0]), ws[1])
  {
    assert ApplyAll(Apply(s, ws[0]), ws[1..]) == ApplyAll(Apply(Apply(s, ws[0]), ws[1]), ws[1..][1..]);
  }

  /** Nothing the control thread reads ends a runaway but a trip. */
  lemma RunawayEndsIff(s: Ctrl, rs: seq<Readings>)
    requires Runaway(s)
    ensures Runaway(ControlRun(s, rs)) <==> Quiet(rs)
  {
    LostRun(s, rs);
  }

  // ----- The stop command of the rotator protocol

  /** It makes the readings, without the offsets, the targets. */
  function StopCommand(s: Ctrl, enc: U16, elPos: I16): (s': Ctrl)
    ensures s' == s.(azTgtPos := enc, calibrating := false, azMode := TargetPosition,
                     elTgtPos := elPos, elMode := TargetPosition)
  {
    ApplyThree(s, AzTarget(enc).Writes());
    ApplyTwo(ApplyAll(s, AzTarget(enc).Writes()), ElTarget(elPos).Writes());
    ApplyAll(ApplyAll(s, AzTarget(enc).Writes()), ElTarget(elPos).Writes())
  }

  /** With the antenna still where it was read, the errors after a stop are the negated offsets. */
  lemma StopErrors(s: Ctrl, r: Readings)
    ensures var stopped := StopCommand(s, r.encPos, r.elPos);
            && AzError(stopped, r.encPos) == WrapI16(0 - s.encOff)
            && ElError(stopped, r) == WrapI16(0 - s.elOff)
  {
    var stopped := StopCommand(s, r.encPos, r.elPos);
    AzErrorAtReading(stopped, r.encPos);
    ElErrorAtReading(stopped, r);
  }

  lemma AzErrorAtReading(s: Ctrl, enc: U16)
    requires s.azTgtPos == enc
    ensures AzError(s, enc) == WrapI16(0 - s.encOff)
  {
    calc {
      AzError(s, enc);
      CircularError(WrapU16(enc + s.encOff), enc);
      { OffsetIsError(enc, s.encOff); }
      WrapI16(0 - s.encOff);
    }
  }

  lemma ElErrorAtReading(s: Ctrl, r: Readings)
    requires s.elTgtPos == r.elPos
    ensures ElError(s, r) == WrapI16(0 - s.elOff)
  {
    calc {
      ElError(s, r);
      WrapI16(r.elPos - WrapI16(r.elPos + s.elOff));
      { SignedOffsetIsError(r.elPos, s.elOff); }
      WrapI16(0 - s.elOff);
    }
  }

  /** Azimuth offsets from 45 counts below to 46 counts above zero. */
  predicate NearZero(encOff: U16) { encOff <= NULL_ZONE + 1 || encOff >= 0x1_0000 - NULL_ZONE }

  /**
   * So azimuth is held, whatever speed is measured, exactly if its offset is
   * near zero, and is otherwise told to turn as if it were that far away.
   */
  lemma StopHoldsAzimuthIff(s: Ctrl, r: Readings)
    requires s.phase == Asleep && !Trips(r)
    ensures var stopped := StopCommand(s, r.encPos, r.elPos);
            && ((forall v: I16 :: Abs(Begin(stopped, r.(encSpd := v)).motorAz) == HOLD_TORQUE) <==> NearZero(s.encOff))
            && (!NearZero(s.encOff) ==> Begin(stopped, r).azTgtSpd == ApproachSpeed(WrapI16(0 - s.encOff)))
  {
    var stopped := StopCommand(s, r.encPos, r.elPos);
    var error := WrapI16(0 - s.encOff);
    StopErrors(s, r);
    assert Idle(error) <==> NearZero(s.encOff);
    if !Idle(error) {
      var v := ApproachSpeed(error);
      assert Abs(AzTorque(v, v)) == 10;
      assert Abs(Begin(stopped, r.(encSpd := v)).motorAz) == 10;
    }
  }

  /** Elevation is asked to stand still exactly if its offset is zero, and at rest left alone if it is under 10 counts. */
  lemma StopHoldsElevationIff(s: Ctrl, r: Readings)
    requires s.phase == Asleep && !Trips(r)
    ensures var e := Begin(StopCommand(s, r.encPos, r.elPos), r);
            && (e.elTgtSpd == 0 <==> s.elOff == 0)
            && (Abs(r.elSpdTest) < EL_DEAD_BAND ==> (e.motorEl == 0 <==> Abs(s.elOff) < 10))
  {
    StopErrors(s, r);
    BeginControlsElevation(StopCommand(s, r.encPos, r.elPos), r);
    ElevationAtOffset(s.elOff);
  }

  lemma BeginControlsElevation(s: Ctrl, r: Readings)
    requires s.phase == Asleep && !Trips(r) && !s.calibrating && s.elMode == TargetPosition
    ensures Begin(s, r).elTgtSpd == ElSpeed(ElError(s, r))
    ensures Begin(s, r).motorEl == ElTorque(ElSpeed(ElError(s, r)), MeasuredElSpeed(r))
  {
    assert ElError(Azimuth(s, r), r) == ElError(s, r);
  }

  lemma ElevationAtOffset(off: I16)
    ensures ElSpeed(WrapI16(0 - off)) == 0 <==> off == 0
    ensures ElTorque(ElSpeed(WrapI16(0 - off)), 0) == 0 <==> Abs(off) < 10
  {
    if Abs(off) <= EL_SLOW_RANGE {
      assert ElSpeed(WrapI16(0 - off)) == -off;
    } else {
      assert Abs(ElSpeed(WrapI16(0 - off))) >= EL_MIN_SPEED;
    }
  }

  lemma OffsetIsError(enc: U16, off: U16)
    ensures CircularError(WrapU16(enc + off), enc) == WrapI16(0 - off)
  {
    if enc + off < 0x1_0000 {
      assert WrapU16(enc + off) == enc + off;
    } else {
      assert WrapU16(enc + off) == enc + off - 0x1_0000;
    }
  }

  lemma SignedOffsetIsError(pos: I16, off: I16)
    ensures WrapI16(pos - WrapI16(pos + off)) == WrapI16(0 - off)
  {
    var k := if pos + off < -0x8000 then 1 else if pos + off >= 0x8000 then -1 else 0;
    assert WrapI16(pos + off) == pos + off + k * 0x1_0000;
  }
}
