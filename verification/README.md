# Sea Tel antenna controller: a verified model

The firmware replaces the control unit of a Sea Tel 4012 antenna. This project
models its motion controller, its motor-drive protocol, its oscillator loop and
its text handling, and proves what they do for every input, every run or every
interleaving.

| file | models |
|---|---|
| `MachineInts.dfy` | fixed-width integers, C division |
| `AxisLaws.dfy` | the azimuth and elevation regulators as laws over signed errors |
| `Control.dfy` | one control iteration, the commands as sequences of assignments, and how they interleave |
| `ControlThread.dfy` | `ctrl.c` in its own imperative form, refining `Control.dfy` |
| `IterationLaws.dfy` | what one iteration does to its motors, in the numbers of `ctrl.c` |
| `Calibration.dfy`, `Approach.dfy`, `ElevationApproach.dfy` | azimuth calibration; azimuth and elevation in closed loop with an antenna |
| `BusWords.dfy`, `Drive.dfy`, `DriveThread.dfy`, `Encoder.dfy` | parity and frames, the drive thread step by step and in its own form, the encoder |
| `Firmware.dfy`, `PowerRequests.dfy` | control, drive and command threads together, over all runs |
| `Oscillator.dfy` | the oscillator discipline loop |
| `Imu.dfy` | sensor decoding, gyro averaging and calibration |
| `Decimal.dfy`, `CStrings.dfy` | `atoi`, printing, terminated strings |
| `GpsLines.dfy`, `Nmea.dfy` | GPS line assembler and sentence parser |
| `Rotator.dfy`, `LogBucket.dfy` | the `P` command of the rotator protocol, the debug text bucket |

How the pieces are read:

- **Granularity.** One core, the control thread above the command threads and
  below drive and sensor threads. A control iteration is therefore one step
  against commands, except that the start of a calibration puts it to sleep for
  a second: `Begin` and `Resume` are its halves. A command is a sequence of
  single assignments and an iteration can fall between any two. Each read of a
  sensor variable is an input of its own, since sensor threads can change it
  between two reads. The drive thread moves one bus word per step.
- **Time.** True time is unbounded; the firmware sees it modulo 2^32 ticks of
  10 microseconds. The kernel's tick-to-millisecond macro rounds up
  (`software/ChibiOS/demos/various/RT-ARMCM4-USELIB/rt/ch.h:258`), so "less than
  100 ms" means at most 9900 ticks.
- **Exact arithmetic.** Degrees, decimal positions and coordinates are reals
  where the source has floats.
- **Assumed plants.** `Approach.Obeys` states what the antenna must do between
  two iterations, `Oscillator.Shift` how the oscillator answers a DAC step.

What the proofs say about the code beyond its intent:

- An azimuth command that assigns the mode during the calibration pre-roll is
  lost, and the antenna then turns at calibration speed until the next command
  or a failsafe trip (`Control.AzCommandLostIff`, `Control.RunawayEndsIff`). A
  torque command meets the pre-roll only if it begins in it; a target command
  also if an iteration enters it after its first assignment
  (`Control.AzTorqueCommandHonouredIff`, `Control.AzTargetCommandHonouredIff`).
- The elevation torque setter can lose its torque to an iteration between its
  two assignments; the azimuth setter cannot outside the pre-roll
  (`Control.ElTorqueCommandHonouredIff`).
- The azimuth torque passes through an 8-bit variable before it is limited, so
  a speed error of 7080 or more can reverse it (`AxisLaws.AzTorqueExactRanges`).
- The stop command targets the raw readings, so it moves the antenna by the
  offsets (`Control.StopHoldsAzimuthIff`, `Control.StopHoldsElevationIff`).
- Gyro readings outside 1117 to 2978 can overflow the elevation speed; the
  failsafe window is inside (`Imu.BlocksFitIff`).
- The `P` parser refuses only messages that end with their third separator; a
  message without any separator is accepted (`Rotator.RefusedIff`).
- The oscillator's ring index wraps at 2^32, no multiple of 3, so the
  correction that spans the wrap takes a fourth pulse
  (`Oscillator.ThreePulsesFillIff`).

## Model

| member | source | states |
|---|---|---|
| `AxisLaws.ErrorIsShortestWay` | software/ctrl.c:156-163 | the signed circular error leads from encoder to target modulo 65536 and no integer displacement that does so is shorter |
| `AxisLaws.ApproachSpeedRange` | software/ctrl.c:162-166 | outside the null zone the commanded speed turns toward the target with magnitude 364 to 5460 |
| `AxisLaws.AzTorque` | software/ctrl.c:176-186 | the azimuth torque never exceeds 25 in magnitude, for all speeds |
| `AxisLaws.AzTorqueExactIff` | software/ctrl.c:176-184 | it equals the limited exact torque if and only if the exact value fits 8 bits or wraps to a value the limiter maps to the same end |
| `AxisLaws.AzTorqueExactRanges` | software/ctrl.c:176-184 | the same as ranges of the speed error: up to 7079, 7139, 8279 or 8339 by the signs of target and error, and the ranges that recur every 15360 beyond |
| `AxisLaws.AzTorqueExactBand` | software/ctrl.c:176-184 | a speed error up to 7079 is always regulated exactly; at 7080 with a positive target the torque is reversed |
| `AxisLaws.ElTorque` | software/ctrl.c:221-226 | the elevation torque never exceeds 25 in magnitude |
| `IterationLaws.TripsIff` | software/ctrl.c:118-121 | the readings that trip are exactly no acceleration at all, or a gyro reading of any of the three axes outside 1270 to 2870 |
| `IterationLaws.FailsafeStops` | software/ctrl.c:118-126 | such readings leave all motors at 0, all modes at constant torque and calibration off |
| `IterationLaws.HealthyGoesOn` | software/ctrl.c:118-138 | all others leave modes and skew torque alone, and start a pending calibration with torque 25 and the sleep |
| `IterationLaws.QuietBlockFits` | software/ctrl.c:120 | five gyro readings that no iteration stopped at cannot overflow the elevation speed |
| `IterationLaws.StepFrame` | software/ctrl.c:115-260 | a control step changes no target and no offset; one that completes stamps the time and resets skew, one that goes to sleep does not |
| `IterationLaws.WakeTurnsForward` | software/ctrl.c:135-137 | the end of the pre-roll commands 5400 counts per second and pushes forward |
| `IterationLaws.ConstantSpeedTorque` | software/ctrl.c:174-187 | at constant speed the torque applied is a sixtieth of commanded minus measured speed, plus 10 in the commanded direction, limited to 25 |
| `IterationLaws.ConstantSpeedPushes` | software/ctrl.c:174-187 | an antenna slower than commanded is pushed in the commanded direction |
| `IterationLaws.AzErrorIs` | software/ctrl.c:156-159 | the error is the one displacement within half a turn that leads from corrected encoder to target |
| `IterationLaws.TargetSpeed` | software/ctrl.c:156-171 | speed by displacement: held with torque 3 from -46 to 45, then 364, half the displacement, at most 5460, toward the target |
| `IterationLaws.TargetTorque` | software/ctrl.c:174-187 | outside the null zone the torque is that of this speed minus the measured one |
| `IterationLaws.TargetPulls` | software/ctrl.c:154-187 | an antenna at rest or slow is pushed toward the target with at least 10 |
| `IterationLaws.ElErrorIs` | software/ctrl.c:192-204 | the elevation error is the displacement from corrected reading to target |
| `IterationLaws.ElevationSpeed` | software/ctrl.c:203-215 | elevation speed by displacement: itself up to 45, at least 182 and at most 2730 beyond, toward the target |
| `IterationLaws.ElevationTorque` | software/ctrl.c:219-226 | the torque applied is a tenth of commanded minus seen speed, limited to 25, speeds under 150 being seen as rest |
| `IterationLaws.ElevationPulls` | software/ctrl.c:200-226 | at rest and more than 45 counts off, elevation is pushed toward the target with at least 18 |
| `ElevationApproach.ElevationReached` | software/ctrl.c:200-260 | for every antenna that obeys the commanded elevation speed, the target is approached without overshoot and within 45 counts after at most as many iterations as the distance has counts beyond them |
| `Control.CommandsLeave` | software/ctrl.c:30-105 | field by field what each command leaves behind |
| `Control.PreRollIff` | software/ctrl.c:128-138 | any sequence of control steps ends in the pre-roll if and only if it starts there and is empty, or is one untripped iteration with the flag set and not at constant speed |
| `Control.FailsafeLatches` | software/ctrl.c:117-126 | a tripped iteration stops all three axes and clears calibration, and any later iterations leave it so, whatever they read |
| `Control.StoppedStays` | software/ctrl.c:117-243 | once stopped, no sequence of iterations starts a motor |
| `Control.ModeMeetsPreRollIff` | software/ctrl.c:30-57 | when the assignment of the mode finds the control thread in its pre-roll, in terms of the state before the command and of what runs between its assignments |
| `Control.AzTorqueCommandHonouredIff` | software/ctrl.c:30-34 | for every placement of control steps between its three assignments, pre-roll included, the azimuth torque command ends in constant torque, uncalibrating, with the requested torque, if and only if it does not assign the mode in the pre-roll or a trip follows; otherwise it is lost |
| `Control.AzTargetCommandHonouredIff` | software/ctrl.c:52-57 | for every such placement the target command is in force if and only if it does not assign the mode in the pre-roll, which it can also do when begun outside it |
| `Control.ElTorqueCommandHonouredIff` | software/ctrl.c:36-39 | from every state the elevation torque command is honoured for every torque if and only if what ran between its assignments neither tripped nor controlled elevation in another mode than constant torque |
| `Control.ElTorqueForgotten` | software/ctrl.c:36-39 | once a control step has overwritten the torque, the state no longer depends on the commanded one |
| `Control.AzCommandLostIff` | software/ctrl.c:131-137 | for every placement of control steps during and after either azimuth command the antenna runs away if and only if the mode was assigned in the pre-roll and no trip followed, and without trips the command is in force exactly otherwise |
| `Control.StopLostDuringCalibration` | software/ctrl.c:131-137 | from every state not at constant speed, calibrate followed by a command within the pre-roll leads to the runaway |
| `Control.RunawayEndsIff` | software/ctrl.c:174-188 | iterations end the runaway if and only if the failsafe trips |
| `Control.StopCommand` | software/api.c:121-126 | the stop command makes the raw readings the targets of both axes |
| `Control.StopErrors` | software/api.c:121-126 | after a stop the position errors are the negated offsets |
| `Control.StopHoldsAzimuthIff` | software/api.c:121-126 | azimuth is then held at every measured speed if and only if its offset is within -45 to 46 counts, and turned otherwise |
| `Control.StopHoldsElevationIff` | software/api.c:121-126 | elevation is asked to stand still if and only if its offset is 0, and at rest gets no torque if and only if it is under 10 counts |
| `Calibration.PreRollStartsTurning` | software/ctrl.c:131-138 | the pre-roll of an uncancelled calibration ends in a turning antenna with 0 as the remembered reading |
| `Calibration.StopsAtFirstDescent` | software/ctrl.c:139-146 | calibration is still on after any readings exactly if none fell below its predecessor, and is over with torque 0 once one did |
| `Calibration.DescentIsCrossing` | software/ctrl.c:141-142 | for forward motion under a turn, a reading falls exactly where the position crosses a multiple of 65536 |
| `Calibration.StopsAtFirstTurn` | software/ctrl.c:128-147 | calibration is over exactly when the unwrapped position has crossed a whole turn since the first reading |
| `Calibration.StopsWithinOneRevolution` | software/ctrl.c:128-147 | if consecutive readings always differ, 65537 of them end it |
| `Approach.MoveApproaches` | software/ctrl.c:156-166 | an obedient move shortens the circular error by its length and keeps its sign |
| `Approach.IterationCommandsSpeed` | software/ctrl.c:154-173 | an iteration outside the null zone keeps mode and target and commands the speed law of the unwrapped error |
| `Approach.TargetReached` | software/ctrl.c:154-173 | every obedient antenna reaches the null zone, strictly nearer at each iteration and without overshoot, within its distance in iterations |
| `ControlThread.DirectionAndDistance` | software/ctrl.c:156-163 | the unsigned differences yield direction times distance equal to the signed circular error, and the null-zone test is exact |
| `ControlThread.AzTargetSpeed` | software/ctrl.c:163-166 | the limited half distance is the speed law of the error |
| `ControlThread.AzRegulator` | software/ctrl.c:176-184 | the regulator computes the azimuth torque law |
| `ControlThread.ElTargetSpeed` | software/ctrl.c:204-215 | floor and limiter give the elevation speed law |
| `ControlThread.ElRegulator` | software/ctrl.c:221-226 | the 16-bit intermediates lose nothing: the torque is the limited exact value for all inputs |
| `ControlThread.Controller.constructor` | software/ctrl.c:10-28 | the state at power-on, whatever `old_az` holds |
| `ControlThread.Controller.AzSetConstTrq` | software/ctrl.c:30-34 | has the effect of its three assignments in order |
| `ControlThread.Controller.ElSetConstTrq` | software/ctrl.c:36-39 | has the effect of its two assignments in order |
| `ControlThread.Controller.SkSetConstTrq` | software/ctrl.c:41-44 | has the effect of its two assignments in order |
| `ControlThread.Controller.AzSetTgtPos` | software/ctrl.c:52-57 | has the effect of its assignments in order |
| `ControlThread.Controller.ElSetTgtPos` | software/ctrl.c:63-67 | has the effect of its assignments in order |
| `ControlThread.Controller.SkSetTgtPos` | software/ctrl.c:73-76 | has the effect of its assignments in order |
| `ControlThread.Controller.AzCalibrate` | software/ctrl.c:102-104 | sets the calibration flag and nothing else |
| `ControlThread.Controller.RunToSleep` | software/ctrl.c:115-260 | the loop body up to its end or the pre-roll sleep is `Control.Begin` |
| `ControlThread.Controller.RunAfterSleep` | software/ctrl.c:135-260 | the loop body after that sleep is `Control.Resume` |
| `ControlThread.Controller.WatchForOverflow` | software/ctrl.c:141-145 | stops azimuth when the reading fell, and remembers the reading |
| `ControlThread.Controller.ControlAxes` | software/ctrl.c:149-259 | the three axes and the time stamp |
| `ControlThread.Controller.ControlAzimuth` | software/ctrl.c:150-189 | the code on unsigned 16-bit values computes the azimuth law on the signed error |
| `ControlThread.Controller.ControlElevation` | software/ctrl.c:192-229 | the code computes the elevation law |
| `BusWords.BitCount` | software/mde.c:26-34 | the shifting loop counts the ones of the word |
| `BusWords.CmdSetMotTrq` | software/mde.c:50-56 | builds the torque frame of motor and torque |
| `BusWords.FlipBitChangesOneBit` | software/mde.c:54 | the error model: inverting bit i changes that bit only |
| `BusWords.SingleBitErrorDetected` | software/mde.c:54 | inverting any one bit of any word changes its parity |
| `BusWords.TorqueFrameDecodes` | software/mde.c:50-56 | a frame has prefix 1110 and odd parity and decodes to the motor and torque it was built from |
| `BusWords.TorqueFrameLayout` | software/mde.c:50-56 | command, motor and torque are at their bit positions |
| `Drive.StepKeepsShape` | software/mde.c:67-159 | every step of the drive thread keeps the trace a well ordered sequence of whole segments plus the sent part of one |
| `Drive.MdeScriptParityCoded` | software/mde.c:84-139 | all 30 init words and all poll words have odd parity and none carries the torque prefix |
| `Drive.TraceParity` | software/mde.c:84-155 | every word of every such trace has odd parity |
| `Drive.TraceDecodes` | software/mde.c:131-155 | a receiver looking only at torque frames recovers exactly the commanded torques in order |
| `Drive.ShapeDecodes` | software/mde.c:67-159 | at every point of the loop, also inside a segment, it recovers the torques sent so far |
| `Drive.ShapeParity` | software/mde.c:67-159 | and every word sent so far has odd parity |
| `Drive.SentWord` | software/mde.c:67-155 | a step sends at most one event, and what it decodes to is the motor whose turn it is with the torque read at that step |
| `DriveThread.MotorDrive.ExchangeAll` | software/mde.c:84-118 | sends the given words in order |
| `DriveThread.MotorDrive.PowerDownIfAsked` | software/mde.c:69-75 | switches the line off and clears request and state exactly when asked while up |
| `DriveThread.MotorDrive.PowerUpIfAsked` | software/mde.c:77-122 | switches the line on, sends the init words and records the state exactly when asked while down |
| `DriveThread.MotorDrive.PollAndSetTorques` | software/mde.c:130-155 | sends the poll words and the three torque frames and derives position and movement |
| `DriveThread.MotorDrive.SendTorques` | software/mde.c:152-155 | sends the three torque frames in order |
| `DriveThread.MotorDrive.Pass` | software/mde.c:67-158 | one undisturbed pass of the loop |
| `DriveThread.PassIsSteps` | software/mde.c:67-158 | an undisturbed pass is what the single steps of the machine do from loop head to loop head |
| `PowerRequests.PowerDownHonoured` | software/mde.c:67-75 | in every run a power-down asked for while the line is on is carried out within a bounded number of drive steps, whatever happens between them |
| `PowerRequests.PowerUpHonoured` | software/mde.c:77-122 | in every run a power-up asked for while the line is off is carried out within a bounded number of drive steps, with exactly the init sequence on the bus |
| `PowerRequests.SilentUntilAsked` | software/mde.c:67-159 | without a power-up request the line stays off and nothing is sent |
| `PowerRequests.MdeSegments` | software/mde.c:79-155 | 30 init words after power is on; a burst is seven poll words and the frames of motors 3, 5 and 6 |
| `Encoder.PositionBytes` | software/mde.c:143 | high and low byte of the position are the complements of the two answers |
| `Encoder.MovementIsExact` | software/mde.c:143-148 | a movement of less than half a turn is recovered exactly across wraps |
| `Encoder.TravelTelescopes` | software/mde.c:143-149 | over any trajectory the movements sum to the distance travelled, over any number of turns |
| `Firmware.BusTrace` | software/mde.c:67-159 | in every interleaved run the bus carries whole power-ups, power-downs and bursts in legal order, plus the sent part of one |
| `Firmware.LabelsFrame` | software/mde.c:177-185 | what each step of a run changes, and nothing else |
| `Firmware.FramesCarryMotors` | software/mde.c:152-155 | the three frames of a burst carry azimuth, elevation and skew torque to motors 3, 5 and 6 |
| `Firmware.BusReportsMotors` | software/mde.c:151-155 | in every run the torques decoded from the bus are, motor by motor and in order, the values the motor variables had at the steps that sent them |
| `Firmware.BusWordsCoded` | software/mde.c:67-159 | in every run, wherever it stops, every word has odd parity and decoding yields the torques of the whole bursts and of the sent part of the one under way, which are those the motor variables had |
| `Firmware.BusAtLoopHead` | software/mde.c:67-159 | at each loop head there are only whole segments and the power line is what the thread believes |
| `Firmware.StampIsLastDone` | software/ctrl.c:259 | in every run the stamp is the true time of the last completed iteration modulo 2^32 |
| `Firmware.RunningIffYoung` | software/ctrl.c:269-272 | the wrapped age test is true exactly for true ages of at most 9900 ticks modulo 2^32 |
| `Firmware.BurstStartsIff` | software/mde.c:124-128 | in every run a burst starts exactly if the drive is powered up and initialised and the last completed iteration is at most 99 ms old modulo 2^32 ticks |
| `Firmware.StallSilencesBus` | software/mde.c:124-128 | a control thread that completes nothing silences the bus from 99 ms on until the tick counter comes round |
| `Firmware.PreRollSilencesBus` | software/ctrl.c:131-138 | so does the calibration pre-roll |
| `Firmware.FailsafeOnBus` | software/ctrl.c:117-126 | from a tripped iteration on, every torque frame on the bus says 0 until a torque, mode or calibration assignment, in every interleaving |
| `Firmware.BootIsStill` | software/ctrl.c:10-28 | from power-on only zero torques are sent until a torque, mode or calibration assignment |
| `Firmware.BusTorqueBounded` | software/ctrl.c:115-243 | in every run no torque frame exceeds 25 or the largest torque a command asked for |
| `Firmware.OldAzInitialised` | software/ctrl.c:111-145 | with the commands that exist, the uninitialised `old_az` is never compared |
| `Oscillator.Discipline.constructor` | software/ocxo.c:18-22 | ring, index and DAC at power-on |
| `Oscillator.Discipline.OnPulse` | software/ocxo.c:64-72 | stores the count in the next slot |
| `Oscillator.Discipline.PollOnce` | software/ocxo.c:35-54 | evaluates and masks an agreeing ring and steps the DAC |
| `Oscillator.Execute` | software/ocxo.c:35-72 | the interrupt and the thread, taken through any events, reach the state the theorems speak of |
| `Oscillator.PollByCount` | software/ocxo.c:37-54 | three equal counts above 20000001 step the DAC down by 10, below 19999999 up, between leave it; unequal ones do nothing |
| `Oscillator.RingHoldsHistory` | software/ocxo.c:18-67 | in every run under 2^32 pulses the ring holds the last three counts, slot 0 masked exactly when a triple was evaluated since it was written, with at most one evaluation per three pulses begun |
| `Oscillator.EvaluatesOnlyAgreement` | software/ocxo.c:37-39 | an evaluation happens only when the last three counts agree, and on their value |
| `Oscillator.DacIsNet` | software/ocxo.c:48-53 | the DAC is 2050 plus 10 per net low evaluation modulo 65536 |
| `Oscillator.DacFitsIff` | software/ocxo.c:12-22 | it is exact and fits 12 bits if and only if the net is in -205 to 204 |
| `Oscillator.PollIsIdempotent` | software/ocxo.c:37-40 | a second poll before the next pulse does nothing |
| `Oscillator.CorrectsSoon` | software/ocxo.c:35-67 | from any ring exactly one evaluation of the present count happens within three pulses, or within four when the 32-bit index wraps among them |
| `Oscillator.ThreePulsesFillIff` | software/ocxo.c:67 | three pulses of one count fill every ring if and only if the index does not wrap among them: 2^32 is no multiple of 3 |
| `Oscillator.LoopConserves` | software/ocxo.c:35-67 | over any number of pulses the count moves by the gain and the DAC by 10 for the same number of steps |
| `Oscillator.Locks` | software/ocxo.c:35-67 | with a gain of 1 to 3 counts per step, from any ring and index, the count enters the window within three pulses per DAC step needed and one per wrap of the index, always moving toward it, never over it, and by exactly the DAC steps needed |
| `Oscillator.DacFitsToLockIff` | software/ocxo.c:48-53 | the DAC is exact and within 12 bits at every pulse until the lock and ever after if and only if the present net and the steps needed stay in -205 to 204 |
| `Oscillator.LockedForever` | software/ocxo.c:48-53 | once in the window the DAC never changes |
| `GpsLines.FeedAllDelivers` | software/gps.c:54-75 | the loop delivers, for every stream, the last (length mod 128) characters of each piece of the text between line ends, NULs dropped |
| `GpsLines.Assemble` | software/gps.c:54-75 | the loop with its 128-byte buffer delivers that, with the index never above 127 |
| `GpsLines.CrLfLineDelivered` | software/gps.c:60-73 | a line ended by CR LF is delivered, cut to its length modulo 128, followed by an empty one |
| `Nmea.Receiver.GpsParse` | software/gps.c:25-47 | assigns the fields from their fixed columns of the line buffer, also beyond the end of a short sentence, and leaves the others alone |
| `Nmea.GgaRoundTrip` | software/gps.c:27-38 | parsing a printed GGA sentence recovers time, both angles with hemisphere, satellites and altitude, signed |
| `Nmea.RmfRoundTrip` | software/gps.c:43-46 | parsing a printed date sentence recovers the date and changes nothing else |
| `Decimal.AtoiFixed` | software/gps.c:33-37 | reading back a zero-padded number |
| `Decimal.AtoiSigned` | software/gps.c:37 | reading back a signed number |
| `Imu.DecodeAccel` | software/imu.c:189-201 | shifting and dividing is 14-bit sign extension for every word |
| `Imu.Sensor.constructor` | software/imu.c:12-19 | the gyro state at power-on |
| `Imu.Sensor.Sample` | software/imu.c:209-227 | one gyro reading accumulated, and the speed set at each fifth |
| `Imu.Sensor.Calibrate` | software/imu.c:379-388 | the zero becomes the mean of the hundred readings |
| `Imu.MeanBounded` | software/imu.c:379-388 | the new zero is the hundredth part of the sum of the readings, rounded down, within 12 bits and between their extremes |
| `Imu.PublishesBlockMeans` | software/imu.c:221-227 | for every schedule of samples and recalibrations the speed is published once per disjoint block of five, as its truncated mean against the zeros in force |
| `Imu.BlockOfFive` | software/imu.c:222-227 | five readings publish eleven times their mean deviation from the zero, truncated; four publish nothing |
| `Imu.BlocksFitIff` | software/imu.c:222-226 | no block of readings in a window overflows the 16-bit speed against any zero if and only if the window lies within 1117 to 2978 |
| `Imu.BlockWithinWindowFits` | software/imu.c:222-226 | a block whose readings pass the failsafe window cannot overflow the 16-bit speed |
| `Rotator.SkipAndBlank` | software/api.c:31-37 | one search loop: stops at the first separator or the end and blanks it |
| `Rotator.CutInPlace` | software/api.c:29-45 | the three cuts in place, for every message whose cuts fall inside its buffer |
| `Rotator.CutInsideIff` | software/api.c:35-45 | which is so for every message of a length if and only if three characters more fit, and for every terminated message with its three separators |
| `Rotator.ExtractNumbers` | software/api.c:22-51 | the values and the verdict the parser returns, and the message it leaves |
| `Rotator.PositionRoundTrip` | software/api.c:22-51 | every printed position with two decimals, point or comma, is accepted and read back exactly |
| `Rotator.RefusedIff` | software/api.c:50 | a message is refused if and only if its last character is its third separator |
| `Rotator.NoSeparatorAccepted` | software/api.c:50 | a message without decimal separators is accepted |
| `Rotator.CountsInRange` | software/api.c:98 | every azimuth from 0 to 360 degrees maps in order to a 16-bit count less than one count away |
| `CStrings.StrLen` | software/debug.c:12 | the index of the first NUL |
| `LogBucket.Bucket.constructor` | software/debug.c:8 | an empty bucket |
| `LogBucket.Bucket.Print` | software/debug.c:10-16 | a message is appended whole if used plus length is under 4095 and dropped whole otherwise |
| `LogBucket.Bucket.Drain` | software/debug.c:18-22 | hands out the text and empties the bucket |
| `LogBucket.MemCpy` | software/debug.c:15 | the copy replaces exactly the target bytes |
| `LogBucket.Execute` | software/debug.c:10-22 | a bucket taken through any prints and drains reaches the state the theorems speak of |
| `LogBucket.TextConserved` | software/debug.c:10-22 | from any log, drained text and bucket grow by exactly the accepted messages in order |
| `LogBucket.LogIsAcceptedMessages` | software/debug.c:8-22 | over every sequence of prints and drains, drained text followed by the bucket is the accepted messages in order |

## Left out

- `software/http.c` pages, JSON and sockets, and the network handling of `software/api.c`: only the setters they call are modelled, as commands.
- SPI, I2C, GPIO, DAC and timer access: reads are inputs, writes are trace events or fields.
- Elevation position by arc tangent and all float rounding: elevation position is an arbitrary 16-bit input, other floats are exact reals.
- `software/ina3221.c`, `software/main.c`, the board files and the kernel: a register reader, start-up code and vendor code, with no control logic of their own.
- `az_set_const_spd` has no caller and is not modelled.
- Two motor writes of one iteration are one step: the drive thread reading a torque between them is not modelled.
- A pulse interrupt in the middle of the oscillator thread's comparison is not modelled: a poll is one step.
- The encoder speed `dx/dt` is an arbitrary 16-bit reading of the controller; only `dx` is modelled.
- A moving target: every caller sets the lead speeds to 0, the controller class keeps them there as an invariant, and only that case of the lead formula is used.
- Rotator.ExtractNumbers: leaves out messages with a cut behind the end of the buffer, where the source overwrites what lies there (`Rotator.CutInsideIff` says which they can be), and messages of 128 or more characters, which fill the buffer without a terminator (`software/api.c:79`).
- Rotator.CutInPlace: leaves out the same cuts behind the end of the buffer.
- The buffer behind a line the GPS assembler delivers: the assembler's theorem is about the line, the parser's about any buffer contents.
- DriveThread.MotorDrive.ExchangeAll: takes the fixed words from a table where the source has one call per word.
