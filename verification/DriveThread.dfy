/**
 * The loop body of the drive thread in its own form, and that undisturbed it
 * does what the steps of module Drive do one after the other.
 */
module DriveThread {
  import opened MachineInts
  import opened BusWords
  import opened Drive
  import opened Encoder

  /** The torque variables, as long as nobody changes them. */
  datatype Env = Env(running: bool, az: I8, el: I8, sk: I8) {
    function Torque(motor: nat): I8 {
      if motor == MOTOR_AZ then az else if motor == MOTOR_EL then el else sk
    }
  }

  // The three parts of the loop body; they leave the program counter alone.

  function PowerDownPart(p: Script, d: Drive): Drive {
    if d.powerDn && d.poweredUp
    then d.(line := false, powerDn := false, poweredUp := false, trace := d.trace + Down.Events(p))
    else d
  }

  function PowerUpPart(p: Script, d: Drive): Drive {
    if d.powerUp && !d.poweredUp
    then d.(line := true, powerUp := false, poweredUp := true, trace := d.trace + Up.Events(p))
    else d
  }

  function TorquePart(p: Script, d: Drive, e: Env): Drive {
    if d.poweredUp && e.running then d.(trace := d.trace + Torques(e.az, e.el, e.sk).Events(p)) else d
  }

  function AfterPass(p: Script, d: Drive, e: Env): Drive {
    TorquePart(p, PowerUpPart(p, PowerDownPart(p, d)), e)
  }

  class MotorDrive {
    var powerUp: bool
    var powerDn: bool
    var isPoweredUp: bool
    var line: bool
    var trace: seq<Event>
    var motorAz: I8
    var motorEl: I8
    var motorSk: I8
    var encAz: U16
    var oldX: U16

    ghost function View(): Drive
      reads this
    {
      Drive(Head, powerUp, powerDn, isPoweredUp, line, trace)
    }

    method Exchange(w: U16)
      modifies this`trace
      ensures trace == old(trace) + [Word(w)]
    {
      trace := trace + [Word(w)];
    }

    /** Sends fixed words from a table, where the source has one call per word. */
    method ExchangeAll(ws: seq<U16>)
      modifies this`trace
      ensures trace == old(trace) + Words(ws)
    {
      for i := 0 to |ws|
        invariant trace == old(trace) + Words(ws)[..i]
      {
        Exchange(ws[i]);
      }
    }

    /** One pass of the loop, with what the gate and the encoder answer. */
    method Pass(running: bool, fc: U8, fb: U8) returns (dx: I16)
      modifies this
      ensures View() == AfterPass(MDE_SCRIPT, old(View()), Env(running, motorAz, motorEl, motorSk))
      ensures motorAz == old(motorAz) && motorEl == old(motorEl) && motorSk == old(motorSk)
      ensures isPoweredUp && running ==> encAz == oldX == Position(fc, fb) && dx == Movement(old(oldX), encAz)
      ensures !(isPoweredUp && running) ==> encAz == old(encAz) && oldX == old(oldX)
    {
      PowerDownIfAsked();
      PowerUpIfAsked(MDE_SCRIPT);
      dx := 0;
      if isPoweredUp && running {
        dx := PollAndSetTorques(MDE_SCRIPT, fc, fb);
      }
    }

    method PowerDownIfAsked()
      modifies this`line, this`trace, this`powerDn, this`isPoweredUp
      ensures View() == PowerDownPart(MDE_SCRIPT, old(View()))
    {
      if powerDn && isPoweredUp {
        line := false;
        trace := trace + [Power(false)];
        powerDn := false;
        isPoweredUp := false;
      }
    }

    method PowerUpIfAsked(p: Script)
      modifies this`line, this`trace, this`powerUp, this`isPoweredUp
      ensures View() == PowerUpPart(p, old(View()))
    {
      if powerUp && !isPoweredUp {
        line := true;
        trace := trace + [Power(true)];
        ExchangeAll(p.init);
        powerUp := false;
        isPoweredUp := true;
        assert trace == old(trace) + ([Power(true)] + Words(p.init));
      }
    }

    method PollAndSetTorques(p: Script, fc: U8, fb: U8) returns (dx: I16)
      modifies this`trace, this`encAz, this`oldX
      ensures trace == old(trace) + Torques(motorAz, motorEl, motorSk).Events(p)
      ensures encAz == oldX == Position(fc, fb) && dx == Movement(old(oldX), encAz)
    {
      ExchangeAll(p.poll);
      encAz := 0xFFFF - (fc * 0x100 + fb);
      dx := WrapI16(WrapI16(encAz) - WrapI16(oldX));
      oldX := encAz;
      SendTorques();
    }

    method SendTorques()
      modifies this`trace
      ensures trace == old(trace) + [Word(TorqueFrame(MOTOR_AZ, motorAz)), Word(TorqueFrame(MOTOR_EL, motorEl)),
                                     Word(TorqueFrame(MOTOR_SK, motorSk))]
    {
      var cmd := CmdSetMotTrq(MOTOR_AZ, motorAz);
      Exchange(cmd);
      cmd := CmdSetMotTrq(MOTOR_EL, motorEl);
      Exchange(cmd);
      cmd := CmdSetMotTrq(MOTOR_SK, motorSk);
      Exchange(cmd);
    }
  }

  // ----- A pass as a sequence of steps

  function Steps(p: Script, d: Drive, e: Env, n: nat): (d': Drive)
    requires d.Valid(p)
    ensures d'.Valid(p)
    decreases n
  {
    if n == 0 then d else Steps(p, Step(p, d, e.running, e.Torque(NextMotor(p, d.pc))), e, n - 1)
  }

  /** From the middle of the init words to the gate. */
  lemma {:induction false} InitSteps(p: Script, d: Drive, e: Env)
    requires d.Valid(p) && d.pc.Init?
    ensures Steps(p, d, e, |p.init| - d.pc.sent + 1)
         == d.(pc := Gate, powerUp := false, poweredUp := true,
               trace := d.trace + Words(p.init)[d.pc.sent..])
    decreases |p.init| - d.pc.sent
  {
    var d' := Step(p, d, e.running, e.Torque(NextMotor(p, d.pc)));
    if d.pc.sent < |p.init| {
      InitSteps(p, d', e);
      SuffixStep(d.trace, Words(p.init), d.pc.sent);
    } else {
      assert Steps(p, d, e, 1) == Steps(p, d', e, 0);
      assert Words(p.init)[d.pc.sent..] == [];
    }
  }

  /** The n-th event of a burst. */
  function BurstEvent(p: Script, e: Env, n: nat): Event {
    Word(BurstWord(p, n, e.Torque(NextMotor(p, Burst(n)))))
  }

  /** From the middle of a burst back to the loop head; `es` is the burst as a whole. */
  lemma {:induction false} BurstSteps(p: Script, d: Drive, e: Env, es: seq<Event>)
    requires d.Valid(p) && d.pc.Burst?
    requires |es| == |p.poll| + 3 && forall n | 0 <= n < |es| :: es[n] == BurstEvent(p, e, n)
    ensures Steps(p, d, e, |es| - d.pc.sent) == d.(pc := Head, trace := d.trace + es[d.pc.sent..])
    decreases |es| - d.pc.sent
  {
    var n := d.pc.sent;
    var d' := Step(p, d, e.running, e.Torque(NextMotor(p, d.pc)));
    assert d' == d.(pc := d'.pc, trace := d.trace + [es[n]]);
    SuffixStep(d.trace, es, n);
    assert Steps(p, d, e, |es| - n) == Steps(p, d', e, |es| - n - 1);
    if n + 1 < |es| {
      BurstSteps(p, d', e, es);
    } else {
      assert es[n + 1..] == [];
    }
  }

  lemma EventsOfBurst(p: Script, e: Env)
    ensures var es := Torques(e.az, e.el, e.sk).Events(p);
            |es| == |p.poll| + 3 && forall n | 0 <= n < |es| :: es[n] == BurstEvent(p, e, n)
  {}

  lemma SuffixStep(trace: seq<Event>, es: seq<Event>, n: nat)
    requires n < |es|
    ensures trace + es[n..] == trace + [es[n]] + es[n + 1..]
  {}

  lemma {:induction false} StepsCompose(p: Script, d: Drive, e: Env, m: nat, n: nat)
    requires d.Valid(p)
    ensures Steps(p, d, e, m + n) == Steps(p, Steps(p, d, e, m), e, n)
    decreases m
  {
    if m == 0 {
    } else {
      StepsCompose(p, Step(p, d, e.running, e.Torque(NextMotor(p, d.pc))), e, m - 1, n);
    }
  }

  lemma PowerDownSteps(p: Script, d: Drive, e: Env) returns (n: nat)
    requires d.pc == Head
    ensures n > 0 && Steps(p, d, e, n) == PowerDownPart(p, d).(pc := UpCheck)
  {
    var d' := Step(p, d, e.running, e.Torque(NextMotor(p, d.pc)));
    assert Steps(p, d, e, 1) == Steps(p, d', e, 0);
    n := 1;
    if d'.pc.PoweringDown? {
      assert Steps(p, d', e, 1) == Steps(p, Step(p, d', e.running, e.Torque(NextMotor(p, d'.pc))), e, 0);
      assert Steps(p, d, e, 2) == Steps(p, d', e, 1);
      n := 2;
    }
  }

  lemma PowerUpSteps(p: Script, d: Drive, e: Env) returns (n: nat)
    requires d.pc == UpCheck
    ensures Steps(p, d, e, n) == PowerUpPart(p, d).(pc := Gate)
  {
    var d' := Step(p, d, e.running, e.Torque(NextMotor(p, d.pc)));
    if d'.pc.Init? {
      n := |p.init| + 2;
      InitSteps(p, d', e);
      assert Steps(p, d, e, n) == Steps(p, d', e, |p.init| + 1);
      assert d.trace + [Power(true)] + Words(p.init)[0..] == d.trace + Up.Events(p);
    } else {
      n := 1;
      assert Steps(p, d, e, 1) == Steps(p, d', e, 0);
    }
  }

  lemma TorqueSteps(p: Script, d: Drive, e: Env) returns (n: nat)
    requires d.pc == Gate
    ensures Steps(p, d, e, n) == TorquePart(p, d, e).(pc := Head)
  {
    var d' := Step(p, d, e.running, e.Torque(NextMotor(p, d.pc)));
    if d'.pc.Burst? {
      n := |p.poll| + 4;
      EventsOfBurst(p, e);
      BurstSteps(p, d', e, Torques(e.az, e.el, e.sk).Events(p));
      assert Steps(p, d, e, n) == Steps(p, d', e, |p.poll| + 3);
      assert Torques(e.az, e.el, e.sk).Events(p)[0..] == Torques(e.az, e.el, e.sk).Events(p);
    } else {
      n := 1;
      assert Steps(p, d, e, 1) == Steps(p, d', e, 0);
    }
  }

  /** An undisturbed sequence of steps from loop head to loop head is one pass. */
  lemma PassIsSteps(p: Script, d: Drive, e: Env) returns (n: nat)
    requires d.pc == Head
    ensures n > 0 && Steps(p, d, e, n) == AfterPass(p, d, e)
  {
    var down := PowerDownPart(p, d);
    var up := PowerUpPart(p, down);
    var a := PowerDownSteps(p, d, e);
    var b := PowerUpSteps(p, down.(pc := UpCheck), e);
    var c := TorqueSteps(p, up.(pc := Gate), e);
    StepsCompose(p, d, e, a, b);
    StepsCompose(p, d, e, a + b, c);
    n := a + b + c;
  }
}
