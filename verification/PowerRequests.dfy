/** That the drive thread carries out what it is asked, in every interleaving. */
module PowerRequests {
  import opened MachineInts
  import opened BusWords
  import opened Drive
  import opened Firmware

  /** How often the drive thread gets to make a step. */
  function DriveSteps(ls: seq<Label>): nat
    decreases |ls|
  {
    if ls == [] then 0 else DriveSteps(ls[..|ls| - 1]) + (if ls[|ls| - 1].DriveStep? then 1 else 0)
  }

  /** The power line is what the thread believes, except while it is switching. */
  predicate LineAsBelieved(d: Drive) {
    match d.pc
    case Init(_) => d.line && !d.poweredUp
    case PoweringDown => !d.line && d.poweredUp
    case _ => d.line == d.poweredUp
  }

  lemma RunIsAsBelieved(b: Boot, ls: seq<Label>)
    ensures LineAsBelieved(Exec(b, ls).drive)
  {
    var segs, rest := BusTrace(b, ls);
  }

  // ----- Power down

  /** Power is on and to be switched off, or has just been. */
  predicate GoingDown(d: Drive) {
    && LineAsBelieved(d)
    && if d.pc.PoweringDown? then d.trace != [] && d.trace[|d.trace| - 1] == Power(false) else d.line && d.powerDn
  }

  /** The request has been carried out. */
  predicate IsDown(d: Drive) {
    && d.pc == UpCheck && !d.line && !d.poweredUp && !d.powerDn
    && d.trace != [] && d.trace[|d.trace| - 1] == Power(false)
  }

  /** At most so many drive steps are still to go. */
  function UntilDown(p: Script, pc: Pc): int {
    match pc
    case PoweringDown => 1
    case Head => 2
    case Burst(n) => |p.poll| + 5 - n
    case Gate => |p.poll| + 6
    case UpCheck => |p.poll| + 7
    case Init(n) => |p.init| - n + |p.poll| + 7
  }

  lemma DownStep(p: Script, s: Sys, l: Label)
    requires s.drive.Valid(p) && GoingDown(s.drive)
    ensures var d, d' := s.drive, Next(p, s, l).drive;
            if l.DriveStep? then IsDown(d') || (GoingDown(d') && UntilDown(p, d'.pc) < UntilDown(p, d.pc))
            else GoingDown(d') && d'.pc == d.pc
  {}

  lemma {:induction false} DownProgress(p: Script, s: Sys, more: seq<Label>) returns (done: bool, k: nat)
    requires s.drive.Valid(p) && GoingDown(s.drive)
    ensures done ==> k <= |more| && IsDown(Run(p, s, more[..k]).drive)
    ensures !done ==> var d := Run(p, s, more).drive;
                      GoingDown(d) && UntilDown(p, d.pc) + DriveSteps(more) <= UntilDown(p, s.drive.pc)
    decreases |more|
  {
    if more == [] {
      done, k := false, 0;
    } else {
      var n := |more| - 1;
      done, k := DownProgress(p, s, more[..n]);
      if done {
        assert more[..n][..k] == more[..k];
      } else {
        DownStep(p, Run(p, s, more[..n]), more[n]);
        done, k := IsDown(Run(p, s, more).drive), |more|;
        assert more[..|more|] == more;
      }
    }
  }

  /**
   * In every run, a power-down asked for while the line is on is carried out
   * once the drive thread has made enough steps, whatever else happens between
   * them: the line is off, the thread knows it, and the bus saw it.
   */
  lemma PowerDownHonoured(b: Boot, ls: seq<Label>, more: seq<Label>) returns (k: nat)
    requires Exec(b, ls).drive.line
    requires DriveSteps(more) >= UntilDown(b.script, Exec(b, ls).drive.pc)
    ensures k <= |more| && IsDown(Run(b.script, Next(b.script, Exec(b, ls), PowerDown), more[..k]).drive)
  {
    RunIsAsBelieved(b, ls);
    var s := Next(b.script, Exec(b, ls), PowerDown);
    var done;
    done, k := DownProgress(b.script, s, more);
    assert !done ==> UntilDown(b.script, Run(b.script, s, more).drive.pc) >= 1;
  }

  // ----- Power up

  /** Power is off and to be switched on, or the init words are on their way; `before` was on the bus before. */
  ghost predicate GoingUp(p: Script, d: Drive, before: seq<Event>) {
    && d.Valid(p) && LineAsBelieved(d)
    && match d.pc
       case Init(n) => d.trace == before + Up.Events(p)[..n + 1]
       case _ => !d.line && d.powerUp && d.trace == before
  }

  ghost predicate IsUp(p: Script, d: Drive, before: seq<Event>) {
    d.pc == Gate && d.line && d.poweredUp && !d.powerUp && d.trace == before + Up.Events(p)
  }

  function UntilUp(p: Script, pc: Pc): int {
    match pc
    case Init(n) => |p.init| - n + 1
    case UpCheck => |p.init| + 2
    case Head => |p.init| + 3
    case PoweringDown => |p.init| + 3
    case Gate => |p.init| + 4
    case Burst(_) => |p.init| + 4
  }

  lemma UpStep(p: Script, s: Sys, l: Label, before: seq<Event>)
    requires GoingUp(p, s.drive, before) && !s.drive.pc.Burst?
    ensures var d, d' := s.drive, Next(p, s, l).drive;
            if l.DriveStep? then IsUp(p, d', before) || (GoingUp(p, d', before) && !d'.pc.Burst? && UntilUp(p, d'.pc) < UntilUp(p, d.pc))
            else GoingUp(p, d', before) && d'.pc == d.pc
  {
    if l.DriveStep? && s.drive.pc.Init? {
      var n := s.drive.pc.sent;
      if n < |p.init| {
        PrefixGrows(before, Up.Events(p), n + 1);
      } else {
        assert Up.Events(p)[..n + 1] == Up.Events(p);
      }
    } else if l.DriveStep? && s.drive.pc.UpCheck? {
      assert Up.Events(p)[..1] == [Power(true)];
    }
  }

  lemma {:induction false} UpProgress(p: Script, s: Sys, more: seq<Label>, before: seq<Event>) returns (done: bool, k: nat)
    requires GoingUp(p, s.drive, before) && !s.drive.pc.Burst?
    ensures done ==> k <= |more| && IsUp(p, Run(p, s, more[..k]).drive, before)
    ensures !done ==> var d := Run(p, s, more).drive;
                      && GoingUp(p, d, before) && !d.pc.Burst?
                      && UntilUp(p, d.pc) + DriveSteps(more) <= UntilUp(p, s.drive.pc)
    decreases |more|
  {
    if more == [] {
      done, k := false, 0;
    } else {
      var n := |more| - 1;
      done, k := UpProgress(p, s, more[..n], before);
      if done {
        assert more[..n][..k] == more[..k];
      } else {
        UpStep(p, Run(p, s, more[..n]), more[n], before);
        done, k := IsUp(p, Run(p, s, more).drive, before), |more|;
        assert more[..|more|] == more;
      }
    }
  }

  /**
   * In every run, a power-up asked for while the line is off is carried out
   * once the drive thread has made enough steps: the line is on, exactly the
   * whole init sequence has been sent, and only then is the drive taken to be up.
   */
  lemma PowerUpHonoured(b: Boot, ls: seq<Label>, more: seq<Label>) returns (k: nat)
    requires !Exec(b, ls).drive.line
    requires DriveSteps(more) >= UntilUp(b.script, Exec(b, ls).drive.pc)
    ensures k <= |more|
    ensures IsUp(b.script, Run(b.script, Next(b.script, Exec(b, ls), PowerUp), more[..k]).drive, Exec(b, ls).drive.trace)
  {
    var segs, rest := BusTrace(b, ls);
    var s := Next(b.script, Exec(b, ls), PowerUp);
    var done;
    done, k := UpProgress(b.script, s, more, Exec(b, ls).drive.trace);
    assert !done ==> UntilUp(b.script, Run(b.script, s, more).drive.pc) >= 1;
  }

  /** Without such a request the line stays off and nothing is ever sent. */
  lemma {:induction false} SilentUntilAsked(b: Boot, ls: seq<Label>)
    requires forall l | l in ls :: !l.PowerUp?
    ensures var d := Exec(b, ls).drive;
            !d.line && !d.powerUp && !d.poweredUp && d.trace == [] && (d.pc.Head? || d.pc.UpCheck? || d.pc.Gate?)
    decreases |ls|
  {
    if ls == [] {
    } else {
      var n := |ls| - 1;
      assert ls[n] in ls;
      SilentUntilAsked(b, ls[..n]);
    }
  }

  /** The sequences of mde.c: 30 init words after power is on, and in a burst seven poll words and three frames. */
  lemma MdeSegments(az: I8, el: I8, sk: I8)
    ensures |Up.Events(MDE_SCRIPT)| == 1 + 30 && Up.Events(MDE_SCRIPT)[0] == Power(true)
    ensures Down.Events(MDE_SCRIPT) == [Power(false)]
    ensures Torques(az, el, sk).Events(MDE_SCRIPT)
         == [Word(0xfeff), Word(0xfeff), Word(0xfeff), Word(0xfeff), Word(0xfdff), Word(0xfcfe), Word(0xfbff),
             Word(TorqueFrame(3, az)), Word(TorqueFrame(5, el)), Word(TorqueFrame(6, sk))]
  {
    assert Words(POLL)
        == [Word(0xfeff), Word(0xfeff), Word(0xfeff), Word(0xfeff), Word(0xfdff), Word(0xfcfe), Word(0xfbff)];
  }
}
