/**
 * Control thread, drive thread and command threads together: every run is a
 * sequence of labels, and the theorems hold for every such sequence.
 */
module Firmware {
  import opened MachineInts
  import opened BusWords
  import opened Control
  import opened Drive

  const TICKS_PER_SECOND: nat := 100000
  const CLOCK_PERIOD: nat := 0x1_0000_0000

  /** The kernel's conversion of ticks to milliseconds; it rounds up. */
  function Millis(ticks: U32): nat { (ticks * 1000 + TICKS_PER_SECOND - 1) / TICKS_PER_SECOND }

  /** ctrl_is_running, on the wrapped tick counter. */
  predicate IsRunning(clock: U32, lastUpdate: U32) { Millis(WrapU32(clock - lastUpdate)) < 100 }

  /** `now` is true time in ticks; the firmware only sees it modulo the clock period. */
  datatype Sys = Sys(now: nat, ctrl: Ctrl, drive: Drive)

  datatype Label =
    | Tick(dt: nat)
    | Iterate(r: Readings)
    | Wake(r: Readings)
    | Command(w: Write)
    | PowerUp
    | PowerDown
    | DriveStep

  function MotorTorque(c: Ctrl, motor: nat): I8 {
    if motor == MOTOR_AZ then c.motorAz else if motor == MOTOR_EL then c.motorEl else c.motorSk
  }

  function Next(p: Script, s: Sys, l: Label): (s': Sys)
    requires s.drive.Valid(p)
    ensures s'.drive.Valid(p)
  {
    match l
    case Tick(dt) => s.(now := s.now + dt)
    case Iterate(r) =>
      if s.ctrl.phase == Asleep then s.(ctrl := Begin(s.ctrl, r.(clock := WrapU32(s.now)))) else s
    case Wake(r) =>
      if s.ctrl.phase == PreRoll then s.(ctrl := Resume(s.ctrl, r.(clock := WrapU32(s.now)))) else s
    case Command(w) => s.(ctrl := Apply(s.ctrl, w))
    case PowerUp => s.(drive := s.drive.(powerUp := true))
    case PowerDown => s.(drive := s.drive.(powerDn := true))
    case DriveStep =>
      s.(drive := Step(p, s.drive, IsRunning(WrapU32(s.now), s.ctrl.lastUpdate),
                       MotorTorque(s.ctrl, NextMotor(p, s.drive.pc))))
  }

  /** What each label changes, and that it changes nothing else. */
  lemma LabelsFrame(p: Script, s: Sys, l: Label)
    requires s.drive.Valid(p)
    ensures var s' := Next(p, s, l);
            match l
            case Tick(dt) => s' == s.(now := s.now + dt)
            case Iterate(_) => s'.now == s.now && s'.drive == s.drive && (s.ctrl.phase == PreRoll ==> s' == s)
            case Wake(_) => s'.now == s.now && s'.drive == s.drive && (s.ctrl.phase == Asleep ==> s' == s)
            case Command(_) => s'.now == s.now && s'.drive == s.drive && s'.ctrl.phase == s.ctrl.phase
            case PowerUp => s' == s.(drive := s.drive.(powerUp := true))
            case PowerDown => s' == s.(drive := s.drive.(powerDn := true))
            case DriveStep => s'.now == s.now && s'.ctrl == s.ctrl
  {}

  function Start(junk: U16): Sys { Sys(0, Initial(junk), INITIAL) }

  /** What a run starts from; the theorems hold for every script with parity-coded words. */
  datatype Boot = Boot(junk: U16, script: Script)

  /** The state after the labels, from any state. */
  function Run(p: Script, s: Sys, ls: seq<Label>): (s': Sys)
    requires s.drive.Valid(p)
    ensures s'.drive.Valid(p)
    decreases |ls|
  {
    if ls == [] then s else Next(p, Run(p, s, ls[..|ls| - 1]), ls[|ls| - 1])
  }

  function Exec(b: Boot, ls: seq<Label>): (s: Sys)
    ensures s.drive.Valid(b.script)
  {
    Run(b.script, Start(b.junk), ls)
  }

  // ----- The bus

  lemma NextKeepsShape(p: Script, s: Sys, l: Label, segs: seq<Segment>, rest: Segment)
    returns (segs': seq<Segment>, rest': Segment)
    requires Shape(p, s.drive, segs, rest)
    ensures Shape(p, Next(p, s, l).drive, segs', rest')
  {
    segs', rest' := segs, rest;
    if l.DriveStep? {
      segs', rest' := StepKeepsShape(p, s.drive, IsRunning(WrapU32(s.now), s.ctrl.lastUpdate),
                                     MotorTorque(s.ctrl, NextMotor(p, s.drive.pc)), segs, rest);
    }
  }

  /**
   * In every run the bus trace is a well ordered concatenation of whole
   * power-ups, power-downs and torque bursts, plus the part already sent of
   * the one under way; at the loop head the power line is what the thread
   * believes it to be.
   */
  lemma {:induction false} BusTrace(b: Boot, ls: seq<Label>) returns (segs: seq<Segment>, rest: Segment)
    ensures Shape(b.script, Exec(b, ls).drive, segs, rest)
    decreases |ls|
  {
    if ls == [] {
      segs, rest := [], Up;
    } else {
      var n := |ls| - 1;
      segs, rest := BusTrace(b, ls[..n]);
      segs, rest := NextKeepsShape(b.script, Exec(b, ls[..n]), ls[n], segs, rest);
    }
  }

  /** Each drive step of a burst after its poll words sends the frame of one motor with that motor's variable. */
  lemma FramesCarryMotors(p: Script, s: Sys)
    requires s.drive.Valid(p)
    ensures var before, after := s.drive.trace, Next(p, s, DriveStep).drive.trace;
            && (s.drive.pc == Burst(|p.poll|) ==> after == before + [Word(TorqueFrame(3, s.ctrl.motorAz))])
            && (s.drive.pc == Burst(|p.poll| + 1) ==> after == before + [Word(TorqueFrame(5, s.ctrl.motorEl))])
            && (s.drive.pc == Burst(|p.poll| + 2) ==> after == before + [Word(TorqueFrame(6, s.ctrl.motorSk))])
  {}

  /** What the next drive step reports: a motor's address, with the value its variable has then. */
  function StepReport(p: Script, s: Sys): seq<(nat, I8)> {
    if s.drive.pc == Burst(|p.poll|) then [(3, s.ctrl.motorAz)]
    else if s.drive.pc == Burst(|p.poll| + 1) then [(5, s.ctrl.motorEl)]
    else if s.drive.pc == Burst(|p.poll| + 2) then [(6, s.ctrl.motorSk)]
    else []
  }

  /** The motor variables a run put on the bus, each as it was at the step that sent it. */
  function Reports(b: Boot, ls: seq<Label>): seq<(nat, I8)>
    decreases |ls|
  {
    if ls == [] then []
    else
      var n := |ls| - 1;
      Reports(b, ls[..n]) + (if ls[n].DriveStep? then StepReport(b.script, Exec(b, ls[..n])) else [])
  }

  /** The drive step sends what it reports. */
  lemma StepSends(p: Script, s: Sys) returns (sent: seq<Event>)
    requires ParityCoded(p) && s.drive.Valid(p)
    ensures Next(p, s, DriveStep).drive.trace == s.drive.trace + sent
    ensures |sent| <= 1 && Decode(sent) == StepReport(p, s)
  {
    sent := SentWord(p, s.drive, IsRunning(WrapU32(s.now), s.ctrl.lastUpdate),
                     MotorTorque(s.ctrl, NextMotor(p, s.drive.pc)));
  }

  /** In every run the receiver decodes for each motor the values of its own variable, in order. */
  lemma {:induction false} BusReportsMotors(b: Boot, ls: seq<Label>)
    requires ParityCoded(b.script)
    ensures Decode(Exec(b, ls).drive.trace) == Reports(b, ls)
    decreases |ls|
  {
    if ls == [] {
      assert Exec(b, ls).drive.trace == [];
    } else {
      var n := |ls| - 1;
      BusReportsMotors(b, ls[..n]);
      LabelReports(b.script, Exec(b, ls[..n]), ls[n]);
    }
  }

  lemma LabelReports(p: Script, s: Sys, l: Label)
    requires ParityCoded(p) && s.drive.Valid(p)
    ensures Decode(Next(p, s, l).drive.trace)
         == Decode(s.drive.trace) + (if l.DriveStep? then StepReport(p, s) else [])
  {
    if l.DriveStep? {
      var sent := StepSends(p, s);
      DecodeConcat(s.drive.trace, sent);
    }
  }

  /**
   * In every run, wherever it stops: every word sent has odd parity, and a
   * receiver decodes the torques of the whole bursts and of the one under way,
   * which are those the motor variables had.
   */
  lemma BusWordsCoded(b: Boot, ls: seq<Label>) returns (segs: seq<Segment>, rest: Segment)
    requires b.script == MDE_SCRIPT
    ensures var d := Exec(b, ls).drive;
            && Shape(b.script, d, segs, rest)
            && Decode(d.trace) == Commanded(segs) + AskedSoFar(b.script, d.pc, rest) == Reports(b, ls)
            && forall i | 0 <= i < |d.trace| && d.trace[i].Word? :: OddParity(d.trace[i].w)
  {
    segs, rest := BusTrace(b, ls);
    MdeScriptParityCoded();
    var d := Exec(b, ls).drive;
    ShapeDecodes(b.script, d, segs, rest);
    BusReportsMotors(b, ls);
    forall i | 0 <= i < |d.trace| && d.trace[i].Word?
      ensures OddParity(d.trace[i].w)
    {
      ShapeParity(b.script, d, segs, rest, i);
    }
  }

  /** At the loop head there are only whole segments and the power line is as believed. */
  lemma BusAtLoopHead(b: Boot, ls: seq<Label>) returns (segs: seq<Segment>)
    requires b.script == MDE_SCRIPT
    requires Exec(b, ls).drive.pc == Head
    ensures var d := Exec(b, ls).drive;
            && WellOrdered(segs) && d.trace == Flatten(b.script, segs)
            && d.line == d.poweredUp == PowerAfter(segs)
            && Decode(d.trace) == Commanded(segs)
  {
    var rest;
    segs, rest := BusWordsCoded(b, ls);
  }

  // ----- The liveness gate

  /** The label completes an iteration: it does not end in the pre-roll. */
  predicate Completes(c: Ctrl, l: Label) {
    || (l.Iterate? && c.phase == Asleep && !EntersPreRoll(Failsafe(c, l.r)))
    || (l.Wake? && c.phase == PreRoll)
  }

  /** True time of the last completed iteration, or of power-on before the first. */
  function LastDone(b: Boot, ls: seq<Label>): nat
    decreases |ls|
  {
    if ls == [] then 0
    else
      var n := |ls| - 1;
      if Completes(Exec(b, ls[..n]).ctrl, ls[n]) then Exec(b, ls[..n]).now else LastDone(b, ls[..n])
  }

  /** Exactly the completing labels stamp the time, and time never runs backwards. */
  lemma NextStamps(p: Script, s: Sys, l: Label)
    requires s.drive.Valid(p)
    ensures var s' := Next(p, s, l);
            && s'.ctrl.lastUpdate == (if Completes(s.ctrl, l) then WrapU32(s.now) else s.ctrl.lastUpdate)
            && s'.now >= s.now
            && (s.ctrl.phase == PreRoll && !l.Wake? ==> s'.ctrl.phase == PreRoll)
  {
    match l
    case Iterate(r) =>
      if s.ctrl.phase == Asleep { BeginStamps(s.ctrl, r.(clock := WrapU32(s.now))); }
    case Wake(r) =>
      if s.ctrl.phase == PreRoll { ResumeStamps(s.ctrl, r.(clock := WrapU32(s.now))); }
    case _ =>
  }

  lemma BeginStamps(c: Ctrl, r: Readings)
    requires c.phase == Asleep
    ensures Begin(c, r).lastUpdate == (if EntersPreRoll(Failsafe(c, r)) then c.lastUpdate else r.clock)
  {}

  lemma ResumeStamps(c: Ctrl, r: Readings)
    requires c.phase == PreRoll
    ensures Resume(c, r).lastUpdate == r.clock
  {}

  lemma {:induction false} StampIsLastDone(b: Boot, ls: seq<Label>)
    ensures Exec(b, ls).ctrl.lastUpdate == WrapU32(LastDone(b, ls))
    ensures LastDone(b, ls) <= Exec(b, ls).now
    decreases |ls|
  {
    if ls == [] {
    } else {
      var n := |ls| - 1;
      StampIsLastDone(b, ls[..n]);
      NextStamps(b.script, Exec(b, ls[..n]), ls[n]);
    }
  }

  /** The wrapped test is a test of true age modulo the clock period: at most 99 ms. */
  lemma RunningIffYoung(now: nat, done: nat)
    requires done <= now
    ensures IsRunning(WrapU32(now), WrapU32(done)) <==> (now - done) % CLOCK_PERIOD <= 9900
  {
    var a, b := now / CLOCK_PERIOD, done / CLOCK_PERIOD;
    var c := (now - done) / CLOCK_PERIOD;
    assert WrapU32(now) - WrapU32(done) == (now - done) % CLOCK_PERIOD + (c - a + b) * CLOCK_PERIOD;
    assert WrapU32(WrapU32(now) - WrapU32(done)) == (now - done) % CLOCK_PERIOD;
  }

  predicate BurstStarts(p: Script, s: Sys)
    requires s.drive.Valid(p)
  {
    StartsBurst(s.drive, Next(p, s, DriveStep).drive)
  }

  /** A burst starts exactly if the drive is at its gate, powered up, and `done` is young. */
  predicate GateRule(p: Script, s: Sys, done: nat)
    requires s.drive.Valid(p)
  {
    BurstStarts(p, s)
    <==> s.drive.pc.Gate? && s.drive.poweredUp && (s.now - done) % CLOCK_PERIOD <= 9900
  }

  lemma GateOpensIff(p: Script, s: Sys, done: nat)
    requires s.drive.Valid(p)
    requires s.ctrl.lastUpdate == WrapU32(done) && done <= s.now
    ensures GateRule(p, s, done)
  {
    RunningIffYoung(s.now, done);
  }

  /**
   * In every run a burst starts exactly when the drive is at its gate, powered
   * up and initialised, and the age of the last completed iteration, modulo
   * the clock period, is at most 99 ms.
   */
  lemma BurstStartsIff(b: Boot, ls: seq<Label>)
    ensures GateRule(b.script, Exec(b, ls), LastDone(b, ls))
  {
    StampIsLastDone(b, ls);
    GateOpensIff(b.script, Exec(b, ls), LastDone(b, ls));
  }

  /** The control thread completes no iteration during `more`. */
  ghost predicate Stalled(p: Script, s: Sys, more: seq<Label>)
    requires s.drive.Valid(p)
    decreases |more|
  {
    more == [] ||
    (var n := |more| - 1;
     Stalled(p, s, more[..n]) && !Completes(Run(p, s, more[..n]).ctrl, more[n]))
  }

  lemma {:induction false} StalledKeepsStamp(p: Script, s: Sys, more: seq<Label>)
    requires s.drive.Valid(p) && Stalled(p, s, more)
    ensures Run(p, s, more).ctrl.lastUpdate == s.ctrl.lastUpdate
    ensures Run(p, s, more).now >= s.now
    decreases |more|
  {
    if more == [] {
    } else {
      var n := |more| - 1;
      StalledKeepsStamp(p, s, more[..n]);
      NextStamps(p, Run(p, s, more[..n]), more[n]);
    }
  }

  lemma GateClosed(p: Script, s: Sys, done: nat)
    requires s.drive.Valid(p)
    requires s.ctrl.lastUpdate == WrapU32(done) && 9900 < s.now - done < CLOCK_PERIOD
    ensures !BurstStarts(p, s)
  {
    GateOpensIff(p, s, done);
  }

  /**
   * If the control thread completes nothing from some point of a run on, then
   * from 99 ms after its last completed iteration until the tick counter has
   * come round again no burst starts, whatever the commands and the drive
   * thread do.
   */
  lemma StallSilencesBus(b: Boot, ls: seq<Label>, more: seq<Label>)
    requires Stalled(b.script, Exec(b, ls), more)
    requires 9900 < Run(b.script, Exec(b, ls), more).now - LastDone(b, ls) < CLOCK_PERIOD
    ensures !BurstStarts(b.script, Run(b.script, Exec(b, ls), more))
  {
    StampIsLastDone(b, ls);
    StalledKeepsStamp(b.script, Exec(b, ls), more);
    GateClosed(b.script, Run(b.script, Exec(b, ls), more), LastDone(b, ls));
  }

  /** A pre-roll is such a stall for as long as it lasts. */
  lemma PreRollSilencesBus(b: Boot, ls: seq<Label>, more: seq<Label>)
    requires Exec(b, ls).ctrl.phase == PreRoll
    requires forall l | l in more :: !l.Wake?
    requires 9900 < Run(b.script, Exec(b, ls), more).now - LastDone(b, ls) < CLOCK_PERIOD
    ensures !BurstStarts(b.script, Run(b.script, Exec(b, ls), more))
  {
    PreRollStalls(b.script, Exec(b, ls), more);
    StallSilencesBus(b, ls, more);
  }

  lemma {:induction false} PreRollStalls(p: Script, s: Sys, more: seq<Label>)
    requires s.drive.Valid(p) && s.ctrl.phase == PreRoll
    requires forall l | l in more :: !l.Wake?
    ensures Stalled(p, s, more) && Run(p, s, more).ctrl.phase == PreRoll
    decreases |more|
  {
    if more == [] {
    } else {
      var n := |more| - 1;
      assert more[n] in more;
      PreRollStalls(p, s, more[..n]);
      NextStamps(p, Run(p, s, more[..n]), more[n]);
    }
  }

  // ----- The failsafe as the drive sees it

  /** Labels that cannot start a motor: everything but a torque, mode or calibration assignment. */
  predicate Harmless(l: Label) {
    l.Command? ==> l.w.SetEncOff? || l.w.SetElOff? || l.w.SetAzTgtPos? || l.w.SetElTgtPos? || l.w.SetSkTgtPos?
  }

  ghost predicate AllZero(ts: seq<(nat, I8)>) { forall t | t in ts :: t.1 == 0 }

  /**
   * From the iteration in which the failsafe trips on, in whatever state, all
   * torque frames put on the bus say zero, until a torque, mode or calibration
   * assignment.
   */
  lemma FailsafeOnBus(p: Script, s: Sys, trip: Readings, later: seq<Label>) returns (sent: seq<Event>)
    requires ParityCoded(p) && s.drive.Valid(p)
    requires s.ctrl.phase == Asleep && Trips(trip)
    requires forall l | l in later :: Harmless(l)
    ensures var end := Run(p, Next(p, s, Iterate(trip)), later);
            Stopped(end.ctrl) && end.drive.trace == s.drive.trace + sent && AllZero(Decode(sent))
  {
    TripStops(p, s, trip);
    sent := StoppedRun(p, Next(p, s, Iterate(trip)), later);
  }

  /** From power-on, nothing but zero torques is sent until a torque, mode or calibration assignment. */
  lemma BootIsStill(b: Boot, ls: seq<Label>)
    requires ParityCoded(b.script) && forall l | l in ls :: Harmless(l)
    ensures Stopped(Exec(b, ls).ctrl) && AllZero(Decode(Exec(b, ls).drive.trace))
  {
    var sent := StoppedRun(b.script, Start(b.junk), ls);
    assert Exec(b, ls).drive.trace == sent;
  }

  lemma {:induction false} StoppedRun(p: Script, s: Sys, later: seq<Label>) returns (sent: seq<Event>)
    requires ParityCoded(p) && s.drive.Valid(p) && Stopped(s.ctrl)
    requires forall l | l in later :: Harmless(l)
    ensures var end := Run(p, s, later);
            Stopped(end.ctrl) && end.drive.trace == s.drive.trace + sent && AllZero(Decode(sent))
    decreases |later|
  {
    if later == [] {
      sent := [];
    } else {
      var n := |later| - 1;
      assert later[n] in later;
      sent := StoppedRun(p, s, later[..n]);
      var more := StoppedStep(p, Run(p, s, later[..n]), later[n]);
      SilenceGrows(s.drive.trace, sent, more);
      sent := sent + more;
    }
  }

  lemma SilenceGrows(trace: seq<Event>, sent: seq<Event>, more: seq<Event>)
    requires AllZero(Decode(sent)) && AllZero(Decode(more))
    ensures trace + sent + more == trace + (sent + more)
    ensures AllZero(Decode(sent + more))
  {
    var x, y := Decode(sent), Decode(more);
    assert Decode(sent + more) == x + y by { DecodeConcat(sent, more); }
    AllZeroConcat(x, y);
  }

  lemma AllZeroConcat(x: seq<(nat, I8)>, y: seq<(nat, I8)>)
    requires AllZero(x) && AllZero(y)
    ensures AllZero(x + y)
  {}

  lemma TripStops(p: Script, s: Sys, trip: Readings)
    requires s.drive.Valid(p) && s.ctrl.phase == Asleep && Trips(trip)
    ensures Stopped(Next(p, s, Iterate(trip)).ctrl)
    ensures Next(p, s, Iterate(trip)).drive == s.drive
  {
    FailsafeLatches(s.ctrl, trip.(clock := WrapU32(s.now)), []);
  }

  lemma StoppedStep(p: Script, s: Sys, l: Label) returns (sent: seq<Event>)
    requires ParityCoded(p) && s.drive.Valid(p) && Stopped(s.ctrl) && Harmless(l)
    ensures Stopped(Next(p, s, l).ctrl)
    ensures Next(p, s, l).drive.trace == s.drive.trace + sent
    ensures AllZero(Decode(sent))
  {
    sent := [];
    match l
    case Iterate(r) => StoppedStays(s.ctrl, [r.(clock := WrapU32(s.now))]);
    case DriveStep =>
      sent := StepSends(p, s);
    case _ =>
  }

  // ----- How large a torque can get

  predicate Within(t: int, limit: nat) { Abs(t) <= limit }

  predicate MotorsWithin(c: Ctrl, limit: nat) {
    Within(c.motorAz, limit) && Within(c.motorEl, limit) && Within(c.motorSk, limit)
  }

  /** Commands that ask for no more than `limit`. */
  predicate Modest(l: Label, limit: nat) {
    l.Command? && (l.w.SetMotorAz? || l.w.SetMotorEl? || l.w.SetMotorSk?) ==> Within(l.w.trq, limit)
  }

  ghost predicate AllWithin(ts: seq<(nat, I8)>, limit: nat) { forall t | t in ts :: Within(t.1, limit) }

  /**
   * In every run, whatever is read and however the threads interleave, no
   * torque frame asks for more than 25, or than the largest torque commanded.
   */
  lemma BusTorqueBounded(b: Boot, ls: seq<Label>, limit: nat)
    requires ParityCoded(b.script) && limit >= 25
    requires forall l | l in ls :: Modest(l, limit)
    ensures MotorsWithin(Exec(b, ls).ctrl, limit)
    ensures AllWithin(Decode(Exec(b, ls).drive.trace), limit)
  {
    ReportsBounded(b, ls, limit);
    BusReportsMotors(b, ls);
  }

  lemma {:induction false} ReportsBounded(b: Boot, ls: seq<Label>, limit: nat)
    requires limit >= 25
    requires forall l | l in ls :: Modest(l, limit)
    ensures MotorsWithin(Exec(b, ls).ctrl, limit)
    ensures AllWithin(Reports(b, ls), limit)
    decreases |ls|
  {
    if ls == [] {
      assert MotorsWithin(Initial(b.junk), limit);
    } else {
      var n := |ls| - 1;
      var s := Exec(b, ls[..n]);
      assert ls[n] in ls;
      ReportsBounded(b, ls[..n], limit);
      NextBounded(b.script, s, ls[n], limit);
      StepReportBounded(b.script, s, limit);
      AllWithinConcat(Reports(b, ls[..n]), if ls[n].DriveStep? then StepReport(b.script, s) else [], limit);
    }
  }

  lemma NextBounded(p: Script, s: Sys, l: Label, limit: nat)
    requires s.drive.Valid(p) && limit >= 25
    requires MotorsWithin(s.ctrl, limit) && Modest(l, limit)
    ensures MotorsWithin(Next(p, s, l).ctrl, limit)
  {
    match l
    case Iterate(r) =>
      if s.ctrl.phase == Asleep { BeginBounded(s.ctrl, r.(clock := WrapU32(s.now)), limit); }
    case Wake(r) =>
      if s.ctrl.phase == PreRoll { ResumeBounded(s.ctrl, r.(clock := WrapU32(s.now)), limit); }
    case _ =>
  }

  lemma StepReportBounded(p: Script, s: Sys, limit: nat)
    requires MotorsWithin(s.ctrl, limit)
    ensures AllWithin(StepReport(p, s), limit)
  {}

  lemma AllWithinConcat(x: seq<(nat, I8)>, y: seq<(nat, I8)>, limit: nat)
    requires AllWithin(x, limit) && AllWithin(y, limit)
    ensures AllWithin(x + y, limit)
  {}

  lemma FinishBounded(c: Ctrl, r: Readings, limit: nat)
    requires MotorsWithin(c, limit) && limit >= 25
    ensures MotorsWithin(Finish(c, r), limit)
  {
    AzimuthBounded(c, r, limit);
    ElevationBounded(Azimuth(c, r), r, limit);
  }

  lemma AzimuthBounded(c: Ctrl, r: Readings, limit: nat)
    requires MotorsWithin(c, limit) && limit >= 25
    ensures MotorsWithin(Azimuth(c, r), limit)
  {}

  lemma ElevationBounded(c: Ctrl, r: Readings, limit: nat)
    requires MotorsWithin(c, limit) && limit >= 25
    ensures MotorsWithin(Elevation(c, r), limit)
  {}

  lemma ResumeBounded(c: Ctrl, r: Readings, limit: nat)
    requires c.phase == PreRoll && MotorsWithin(c, limit) && limit >= 25
    ensures MotorsWithin(Resume(c, r), limit)
  {
    FinishBounded(c.(azTgtSpd := CALIBRATION_SPEED, azMode := ConstSpeed, oldAz := 0, oldAzSet := true, phase := Asleep), r, limit);
  }

  lemma BeginBounded(c: Ctrl, r: Readings, limit: nat)
    requires c.phase == Asleep && MotorsWithin(c, limit) && limit >= 25
    ensures MotorsWithin(Begin(c, r), limit)
  {
    FinishBounded(WatchOverflow(Failsafe(c, r), r), r, limit);
  }

  // ----- The uninitialised local

  /** The command set has no assignment of constant speed. */
  predicate Issued(l: Label) { l.Command? ==> l.w != SetAzMode(ConstSpeed) }

  /** Without such a command, `old_az` is never compared before it has been assigned. */
  lemma {:induction false} OldAzInitialised(b: Boot, ls: seq<Label>)
    requires forall l | l in ls :: Issued(l)
    ensures Exec(b, ls).ctrl.azMode == ConstSpeed ==> Exec(b, ls).ctrl.oldAzSet
    decreases |ls|
  {
    if ls == [] {
    } else {
      var n := |ls| - 1;
      assert ls[n] in ls;
      OldAzInitialised(b, ls[..n]);
      OldAzStep(b.script, Exec(b, ls[..n]), ls[n]);
    }
  }

  lemma OldAzStep(p: Script, s: Sys, l: Label)
    requires s.drive.Valid(p) && Issued(l)
    requires s.ctrl.azMode == ConstSpeed ==> s.ctrl.oldAzSet
    ensures Next(p, s, l).ctrl.azMode == ConstSpeed ==> Next(p, s, l).ctrl.oldAzSet
  {
    if l.Iterate? && s.ctrl.phase == Asleep {
      OldAzBegin(s.ctrl, l.r.(clock := WrapU32(s.now)));
    }
  }

  lemma OldAzBegin(c: Ctrl, r: Readings)
    requires c.phase == Asleep && (c.azMode == ConstSpeed ==> c.oldAzSet)
    ensures Begin(c, r).azMode == ConstSpeed ==> Begin(c, r).oldAzSet
  {}
}
