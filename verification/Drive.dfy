/**
 * The motor-drive thread (mde.c) as a step machine, one step per bus word or
 * power switch, so that control iterations and commands can fall between any
 * two of them; and the shape of everything it puts on the bus.
 */
module Drive {
  import opened MachineInts
  import opened BusWords

  /** What the drive enclosure can observe. */
  datatype Event = Power(on: bool) | Word(w: U16)

  // The init sequence is sent in three parts with pauses between them.
  const INIT_A: seq<U16> := [
    0x5ba5, 0xf4ff, 0xf4ff, 0xa8ff, 0xa9fe, 0xa9fd, 0xa8fc, 0xa9fb, 0xa8fa,
    0xa8f9, 0xa9f8, 0xa9f7, 0xa8f6, 0xa8f5, 0xa9f4, 0xa8f3, 0xa9f2, 0xa9f1]

  const INIT_B: seq<U16> := [0xa45a, 0xa45a]

  const INIT_C: seq<U16> := [0xfbff, 0xd9f9, 0xd7ef, 0xdcff, 0xdaff, 0xfb77, 0xfa76, 0xfafb, 0xfdff, 0xfcfe]

  const POLL: seq<U16> := [0xfeff, 0xfeff, 0xfeff, 0xfeff, 0xfdff, 0xfcfe, 0xfbff]

  /** The fixed words of a power-up and of the start of a burst. */
  datatype Script = Script(init: seq<U16>, poll: seq<U16>)

  const MDE_SCRIPT: Script := Script(INIT_A + INIT_B + INIT_C, POLL)

  /** The motors in the order in which a burst addresses them. */
  function Motor(k: nat): nat { if k == 0 then MOTOR_AZ else if k == 1 then MOTOR_EL else MOTOR_SK }

  /** Where the thread is in its loop; the index counts the words already sent. */
  datatype Pc = Head | PoweringDown | UpCheck | Init(sent: nat) | Gate | Burst(sent: nat)

  datatype Drive = Drive(
    pc: Pc,
    powerUp: bool, powerDn: bool,
    poweredUp: bool,
    line: bool,
    trace: seq<Event>)
  {
    ghost predicate Valid(p: Script) {
      && (pc.Init? ==> pc.sent <= |p.init|)
      && (pc.Burst? ==> pc.sent < |p.poll| + 3)
    }
  }

  const INITIAL: Drive := Drive(Head, false, false, false, false, [])

  function Emit(d: Drive, e: Event): Drive { d.(trace := d.trace + [e]) }

  /**
   * One step. `running` is what the liveness gate answers and `trq` the torque
   * variable of the motor whose turn it is, both read at this step.
   */
  function Step(p: Script, d: Drive, running: bool, trq: I8): (d': Drive)
    requires d.Valid(p)
    ensures d'.Valid(p)
  {
    match d.pc
    case Head =>
      if d.powerDn && d.poweredUp then Emit(d, Power(false)).(line := false, pc := PoweringDown)
      else d.(pc := UpCheck)
    case PoweringDown => d.(powerDn := false, poweredUp := false, pc := UpCheck)
    case UpCheck =>
      if d.powerUp && !d.poweredUp then Emit(d, Power(true)).(line := true, pc := Init(0))
      else d.(pc := Gate)
    case Init(n) =>
      if n < |p.init| then Emit(d, Word(p.init[n])).(pc := Init(n + 1))
      else d.(powerUp := false, poweredUp := true, pc := Gate)
    case Gate => d.(pc := if d.poweredUp && running then Burst(0) else Head)
    case Burst(n) =>
      Emit(d, Word(BurstWord(p, n, trq))).(pc := if n + 1 < |p.poll| + 3 then Burst(n + 1) else Head)
  }

  function BurstWord(p: Script, n: nat, trq: I8): U16 {
    if n < |p.poll| then p.poll[n] else TorqueFrame(Motor(n - |p.poll|), trq)
  }

  /** The motor whose torque the next step sends, if it sends one. */
  function NextMotor(p: Script, pc: Pc): nat {
    if pc.Burst? && |p.poll| <= pc.sent then Motor(pc.sent - |p.poll|) else 0
  }

  predicate StartsBurst(d: Drive, d': Drive) { d.pc.Gate? && d'.pc.Burst? }

  // ----- The language of the bus

  /** A whole power-up, power-down or torque exchange. */
  datatype Segment = Up | Down | Torques(az: I8, el: I8, sk: I8)
  {
    function Events(p: Script): seq<Event> {
      match this
      case Up => [Power(true)] + Words(p.init)
      case Down => [Power(false)]
      case Torques(_, _, _) => Words(p.poll) + Frames(this)
    }
  }

  function Frames(s: Segment): (es: seq<Event>)
    requires s.Torques?
    ensures |es| == 3
  {
    [Word(TorqueFrame(MOTOR_AZ, s.az)), Word(TorqueFrame(MOTOR_EL, s.el)), Word(TorqueFrame(MOTOR_SK, s.sk))]
  }

  function Words(ws: seq<U16>): (es: seq<Event>)
    ensures |es| == |ws|
  {
    seq(|ws|, i requires 0 <= i < |ws| => Word(ws[i]))
  }

  function Flatten(p: Script, segs: seq<Segment>): seq<Event> {
    if segs == [] then [] else Flatten(p, segs[..|segs| - 1]) + segs[|segs| - 1].Events(p)
  }

  /** The power state after a well ordered sequence of segments. */
  predicate PowerAfter(segs: seq<Segment>) {
    segs != [] && !segs[|segs| - 1].Down?
  }

  /** Power goes up before anything else and only when down; bursts and power-down need it up. */
  predicate WellOrdered(segs: seq<Segment>) {
    forall i | 0 <= i < |segs| :: PowerAfter(segs[..i]) == !segs[i].Up?
  }

  /**
   * `segs` are the whole segments on the bus and `rest` is under way with what
   * the program counter says of it sent.
   */
  ghost predicate Shape(p: Script, d: Drive, segs: seq<Segment>, rest: Segment) {
    && d.Valid(p)
    && WellOrdered(segs)
    && match d.pc
       case Init(n) =>
         && rest == Up && d.line && !d.poweredUp && !PowerAfter(segs)
         && d.trace == Flatten(p, segs) + rest.Events(p)[..n + 1]
       case Burst(n) =>
         && rest.Torques? && d.line && d.poweredUp && PowerAfter(segs)
         && d.trace == Flatten(p, segs) + rest.Events(p)[..n]
       case PoweringDown =>
         d.poweredUp && !d.line && !PowerAfter(segs) && d.trace == Flatten(p, segs)
       case _ =>
         d.poweredUp == d.line == PowerAfter(segs) && d.trace == Flatten(p, segs)
  }

  lemma FlattenAppend(p: Script, segs: seq<Segment>, s: Segment)
    ensures Flatten(p, segs + [s]) == Flatten(p, segs) + s.Events(p)
  {
    assert (segs + [s])[..|segs|] == segs;
  }

  lemma WellOrderedAppend(segs: seq<Segment>, s: Segment)
    requires WellOrdered(segs) && PowerAfter(segs) == !s.Up?
    ensures WellOrdered(segs + [s]) && PowerAfter(segs + [s]) == !s.Down?
  {
    forall i | 0 <= i < |segs + [s]|
      ensures PowerAfter((segs + [s])[..i]) == !(segs + [s])[i].Up?
    {
      assert (segs + [s])[..i] == segs[..i];
      assert i == |segs| ==> segs[..i] == segs;
    }
  }

  /** The burst under way after its word n, given the torque read for it. */
  function Extend(p: Script, rest: Segment, n: nat, trq: I8): Segment
    requires rest.Torques?
  {
    if n == |p.poll| then rest.(az := trq)
    else if n == |p.poll| + 1 then rest.(el := trq)
    else if n == |p.poll| + 2 then rest.(sk := trq)
    else rest
  }

  lemma ExtendSends(p: Script, rest: Segment, n: nat, trq: I8)
    requires rest.Torques? && n < |p.poll| + 3
    ensures Extend(p, rest, n, trq).Events(p)[n] == Word(BurstWord(p, n, trq))
    ensures Extend(p, rest, n, trq).Events(p)[..n] == rest.Events(p)[..n]
  {}

  lemma PrefixGrows(front: seq<Event>, es: seq<Event>, n: nat)
    requires n < |es|
    ensures front + es[..n] + [es[n]] == front + es[..n + 1]
  {}

  /** Every step keeps the shape of the bus trace, whatever the script. */
  lemma StepKeepsShape(p: Script, d: Drive, running: bool, trq: I8, segs: seq<Segment>, rest: Segment)
    returns (segs': seq<Segment>, rest': Segment)
    requires Shape(p, d, segs, rest)
    ensures Shape(p, Step(p, d, running, trq), segs', rest')
  {
    match d.pc
    case Head => segs', rest' := HeadKeepsShape(p, d, running, trq, segs, rest);
    case Init(n) => segs', rest' := InitKeepsShape(p, d, running, trq, segs, rest);
    case Burst(n) => segs', rest' := BurstKeepsShape(p, d, running, trq, segs, rest);
    case UpCheck => segs', rest' := segs, Up;
    case Gate => segs', rest' := segs, Torques(0, 0, 0);
    case PoweringDown => segs', rest' := segs, rest;
  }

  lemma HeadKeepsShape(p: Script, d: Drive, running: bool, trq: I8, segs: seq<Segment>, rest: Segment)
    returns (segs': seq<Segment>, rest': Segment)
    requires Shape(p, d, segs, rest) && d.pc.Head?
    ensures Shape(p, Step(p, d, running, trq), segs', rest')
  {
    segs', rest' := segs, rest;
    if d.powerDn && d.poweredUp {
      segs' := segs + [Down];
      FlattenAppend(p, segs, Down);
      WellOrderedAppend(segs, Down);
    }
  }

  lemma InitKeepsShape(p: Script, d: Drive, running: bool, trq: I8, segs: seq<Segment>, rest: Segment)
    returns (segs': seq<Segment>, rest': Segment)
    requires Shape(p, d, segs, rest) && d.pc.Init?
    ensures Shape(p, Step(p, d, running, trq), segs', rest')
  {
    var n := d.pc.sent;
    segs', rest' := segs, rest;
    if n < |p.init| {
      PrefixGrows(Flatten(p, segs), Up.Events(p), n + 1);
    } else {
      segs' := segs + [Up];
      FlattenAppend(p, segs, Up);
      WellOrderedAppend(segs, Up);
      assert Up.Events(p)[..n + 1] == Up.Events(p);
    }
  }

  lemma BurstKeepsShape(p: Script, d: Drive, running: bool, trq: I8, segs: seq<Segment>, rest: Segment)
    returns (segs': seq<Segment>, rest': Segment)
    requires Shape(p, d, segs, rest) && d.pc.Burst?
    ensures Shape(p, Step(p, d, running, trq), segs', rest')
  {
    var n := d.pc.sent;
    segs', rest' := segs, Extend(p, rest, n, trq);
    ExtendSends(p, rest, n, trq);
    PrefixGrows(Flatten(p, segs), rest'.Events(p), n);
    if n + 1 == |p.poll| + 3 {
      segs' := segs + [rest'];
      FlattenAppend(p, segs, rest');
      WellOrderedAppend(segs, rest');
      assert rest'.Events(p)[..n + 1] == rest'.Events(p);
    }
  }

  // ----- What the words say

  /** Every fixed word has odd parity and is no torque frame. */
  ghost predicate ParityCoded(p: Script) {
    && (forall i | 0 <= i < |p.init| :: OddParity(p.init[i]) && !IsTorqueFrame(p.init[i]))
    && (forall i | 0 <= i < |p.poll| :: OddParity(p.poll[i]) && !IsTorqueFrame(p.poll[i]))
  }

  lemma MdeScriptParityCoded()
    ensures ParityCoded(MDE_SCRIPT)
  {
    var init := MDE_SCRIPT.init;
    forall i | 0 <= i < |init|
      ensures OddParity(init[i]) && !IsTorqueFrame(init[i])
    {
      assert init[i] in INIT_A || init[i] in INIT_B || init[i] in INIT_C;
      MdeWordCoded(init[i]);
      CodedWordIsOdd(init[i]);
    }
    forall i | 0 <= i < |POLL|
      ensures OddParity(POLL[i]) && !IsTorqueFrame(POLL[i])
    {
      MdeWordCoded(POLL[i]);
      CodedWordIsOdd(POLL[i]);
    }
  }

  lemma MdeWordCoded(w: U16)
    requires w in INIT_A || w in INIT_B || w in INIT_C || w in POLL
    ensures CodedWord(w)
  {
    if w in INIT_A {
      InitACoded(w);
    } else {
      OtherWordsCoded(w);
    }
  }

  lemma InitACoded(w: U16)
    requires w in INIT_A
    ensures CodedWord(w)
  {
    Coded1();
    Coded2();
    Coded3();
    Coded4();
  }

  lemma OtherWordsCoded(w: U16)
    requires w in INIT_B || w in INIT_C || w in POLL
    ensures CodedWord(w)
  {
    Coded4();
    Coded5();
    Coded6();
  }

  // The distinct words, five at a time.

  lemma Coded1()
    ensures CodedWord(0x5ba5) && CodedWord(0xf4ff) && CodedWord(0xa8ff) && CodedWord(0xa9fe) && CodedWord(0xa9fd)
  {}

  lemma Coded2()
    ensures CodedWord(0xa8fc) && CodedWord(0xa9fb) && CodedWord(0xa8fa) && CodedWord(0xa8f9) && CodedWord(0xa9f8)
  {}

  lemma Coded3()
    ensures CodedWord(0xa9f7) && CodedWord(0xa8f6) && CodedWord(0xa8f5) && CodedWord(0xa9f4) && CodedWord(0xa8f3)
  {}

  lemma Coded4()
    ensures CodedWord(0xa9f2) && CodedWord(0xa9f1) && CodedWord(0xa45a) && CodedWord(0xfbff) && CodedWord(0xd9f9)
  {}

  lemma Coded5()
    ensures CodedWord(0xd7ef) && CodedWord(0xdcff) && CodedWord(0xdaff) && CodedWord(0xfb77) && CodedWord(0xfa76)
  {}

  lemma Coded6()
    ensures CodedWord(0xfafb) && CodedWord(0xfdff) && CodedWord(0xfcfe) && CodedWord(0xfeff)
  {}

  lemma SegmentParity(p: Script, s: Segment, i: nat)
    requires ParityCoded(p)
    requires i < |s.Events(p)| && s.Events(p)[i].Word?
    ensures OddParity(s.Events(p)[i].w)
  {
    if s.Torques? {
      TorqueFrameDecodes(MOTOR_AZ, s.az);
      TorqueFrameDecodes(MOTOR_EL, s.el);
      TorqueFrameDecodes(MOTOR_SK, s.sk);
    }
  }

  /** Every word ever sent has odd parity. */
  lemma {:induction false} TraceParity(p: Script, segs: seq<Segment>, i: nat)
    requires ParityCoded(p)
    requires i < |Flatten(p, segs)| && Flatten(p, segs)[i].Word?
    ensures OddParity(Flatten(p, segs)[i].w)
    decreases |segs|
  {
    var n := |segs| - 1;
    var front := Flatten(p, segs[..n]);
    if i < |front| {
      TraceParity(p, segs[..n], i);
    } else {
      SegmentParity(p, segs[n], i - |front|);
    }
  }

  /** What a receiver that looks only at torque frames makes of a trace. */
  function Decode(es: seq<Event>): seq<(nat, I8)> {
    if es == [] then []
    else Decode(es[..|es| - 1]) + DecodeOne(es[|es| - 1])
  }

  function DecodeOne(e: Event): seq<(nat, I8)> {
    if e.Word? && IsTorqueFrame(e.w) then [(FrameMotor(e.w), FrameTorque(e.w))] else []
  }

  /** The torques a segment commands. */
  function Asked(s: Segment): (ts: seq<(nat, I8)>)
    ensures s.Torques? ==> |ts| == 3
  {
    if s.Torques? then [(MOTOR_AZ, s.az), (MOTOR_EL, s.el), (MOTOR_SK, s.sk)] else []
  }

  /** The torques commanded by the bursts among the segments. */
  function Commanded(segs: seq<Segment>): seq<(nat, I8)> {
    if segs == [] then [] else Commanded(segs[..|segs| - 1]) + Asked(segs[|segs| - 1])
  }

  /** Those of the segment under way that are already on the bus. */
  function AskedSoFar(p: Script, pc: Pc, rest: Segment): seq<(nat, I8)>
    requires pc.Burst? ==> rest.Torques? && pc.sent < |p.poll| + 3
  {
    if pc.Burst? && pc.sent > |p.poll| then Asked(rest)[..pc.sent - |p.poll|] else []
  }

  lemma {:induction false} DecodeConcat(a: seq<Event>, b: seq<Event>)
    ensures Decode(a + b) == Decode(a) + Decode(b)
    decreases |b|
  {
    if b == [] {
      assert a + b == a;
    } else {
      var n := |b| - 1;
      assert (a + b)[..|a + b| - 1] == a + b[..n];
      DecodeConcat(a, b[..n]);
    }
  }

  lemma {:induction false} DecodeNothing(es: seq<Event>)
    requires forall e | e in es :: DecodeOne(e) == []
    ensures Decode(es) == []
    decreases |es|
  {
    if es == [] {
    } else {
      assert es[|es| - 1] in es;
      DecodeNothing(es[..|es| - 1]);
    }
  }

  lemma DecodeFixedWords(ws: seq<U16>)
    requires forall i | 0 <= i < |ws| :: !IsTorqueFrame(ws[i])
    ensures Decode(Words(ws)) == []
  {
    DecodeNothing(Words(ws));
  }

  lemma {:induction false} DecodeFrames(s: Segment, k: nat)
    requires s.Torques? && k <= 3
    ensures Decode(Frames(s)[..k]) == Asked(s)[..k]
    decreases k
  {
    if k == 0 {
    } else {
      DecodeFrames(s, k - 1);
      assert Frames(s)[..k][..k - 1] == Frames(s)[..k - 1];
      TorqueFrameDecodes(MOTOR_AZ, s.az);
      TorqueFrameDecodes(MOTOR_EL, s.el);
      TorqueFrameDecodes(MOTOR_SK, s.sk);
      assert DecodeOne(Frames(s)[k - 1]) == [Asked(s)[k - 1]];
      assert Asked(s)[..k] == Asked(s)[..k - 1] + [Asked(s)[k - 1]];
    }
  }

  /** Every part of a burst from its beginning decodes to the torques in it. */
  lemma DecodeBurstPart(p: Script, s: Segment, n: nat)
    requires ParityCoded(p) && s.Torques? && n <= |p.poll| + 3
    ensures Decode(s.Events(p)[..n]) == if n > |p.poll| then Asked(s)[..n - |p.poll|] else []
  {
    if n > |p.poll| {
      DecodeFramesPart(p, s, n);
    } else {
      DecodePollPart(p, s, n);
    }
  }

  lemma DecodeFramesPart(p: Script, s: Segment, n: nat)
    requires ParityCoded(p) && s.Torques? && |p.poll| <= n <= |p.poll| + 3
    ensures Decode(s.Events(p)[..n]) == Asked(s)[..n - |p.poll|]
  {
    var k := n - |p.poll|;
    PrefixIntoFrames(p, s, n);
    DecodeFixedWords(p.poll);
    DecodeFrames(s, k);
    DecodeConcat(Words(p.poll), Frames(s)[..k]);
  }

  lemma DecodePollPart(p: Script, s: Segment, n: nat)
    requires ParityCoded(p) && s.Torques? && n <= |p.poll|
    ensures Decode(s.Events(p)[..n]) == []
  {
    assert s.Events(p)[..n] == Words(p.poll[..n]);
    DecodeFixedWords(p.poll[..n]);
  }

  lemma PrefixIntoFrames(p: Script, s: Segment, n: nat)
    requires s.Torques? && |p.poll| <= n <= |p.poll| + 3
    ensures s.Events(p)[..n] == Words(p.poll) + Frames(s)[..n - |p.poll|]
  {}

  lemma DecodeUpPart(p: Script, n: nat)
    requires ParityCoded(p) && n <= |p.init| + 1
    ensures Decode(Up.Events(p)[..n]) == []
  {
    DecodeNothing(Up.Events(p)[..n]);
  }

  lemma DecodeSegment(p: Script, s: Segment)
    requires ParityCoded(p)
    ensures Decode(s.Events(p)) == Asked(s)
  {
    var es := s.Events(p);
    assert es[..|es|] == es;
    match s
    case Up => DecodeUpPart(p, |es|);
    case Down => DecodeNothing(es);
    case Torques(_, _, _) => DecodeBurstPart(p, s, |es|);
  }

  /** The receiver recovers exactly the commanded torques, in order. */
  lemma {:induction false} TraceDecodes(p: Script, segs: seq<Segment>)
    requires ParityCoded(p)
    ensures Decode(Flatten(p, segs)) == Commanded(segs)
    decreases |segs|
  {
    if segs == [] {
    } else {
      var n := |segs| - 1;
      TraceDecodes(p, segs[..n]);
      DecodeConcat(Flatten(p, segs[..n]), segs[n].Events(p));
      DecodeSegment(p, segs[n]);
    }
  }

  /** At every point of its loop, also inside a segment. */
  lemma ShapeDecodes(p: Script, d: Drive, segs: seq<Segment>, rest: Segment)
    requires ParityCoded(p) && Shape(p, d, segs, rest)
    ensures Decode(d.trace) == Commanded(segs) + AskedSoFar(p, d.pc, rest)
  {
    if d.pc.Init? {
      DecodeUpPart(p, d.pc.sent + 1);
      PartDecodes(p, segs, Up.Events(p)[..d.pc.sent + 1], []);
    } else if d.pc.Burst? {
      DecodeBurstPart(p, rest, d.pc.sent);
      PartDecodes(p, segs, rest.Events(p)[..d.pc.sent], AskedSoFar(p, d.pc, rest));
    } else {
      TraceDecodes(p, segs);
    }
  }

  lemma PartDecodes(p: Script, segs: seq<Segment>, part: seq<Event>, ts: seq<(nat, I8)>)
    requires ParityCoded(p) && Decode(part) == ts
    ensures Decode(Flatten(p, segs) + part) == Commanded(segs) + ts
  {
    TraceDecodes(p, segs);
    DecodeConcat(Flatten(p, segs), part);
  }

  lemma ShapeParity(p: Script, d: Drive, segs: seq<Segment>, rest: Segment, i: nat)
    requires ParityCoded(p) && Shape(p, d, segs, rest)
    requires i < |d.trace| && d.trace[i].Word?
    ensures OddParity(d.trace[i].w)
  {
    if i < |Flatten(p, segs)| {
      TraceParity(p, segs, i);
    } else {
      SegmentParity(p, rest, i - |Flatten(p, segs)|);
    }
  }

  /** The torque frame the next step sends, if it sends one, for the torque read at that step. */
  function Reported(p: Script, pc: Pc, trq: I8): seq<(nat, I8)> {
    if pc.Burst? && |p.poll| <= pc.sent then [(NextMotor(p, pc), trq)] else []
  }

  /** A step sends at most one event; it decodes to the motor whose turn it is with the torque read for it. */
  lemma SentWord(p: Script, d: Drive, running: bool, trq: I8) returns (sent: seq<Event>)
    requires ParityCoded(p) && d.Valid(p)
    ensures Step(p, d, running, trq).trace == d.trace + sent
    ensures |sent| <= 1 && Decode(sent) == Reported(p, d.pc, trq)
  {
    sent := [];
    match d.pc
    case Head =>
      if d.powerDn && d.poweredUp { sent := DecodeSingle(Power(false)); }
    case UpCheck =>
      if d.powerUp && !d.poweredUp { sent := DecodeSingle(Power(true)); }
    case Init(n) =>
      if n < |p.init| { sent := DecodeSingle(Word(p.init[n])); }
    case Burst(n) =>
      sent := DecodeSingle(Word(BurstWord(p, n, trq)));
      BurstWordSays(p, n, trq);
    case _ =>
  }

  lemma BurstWordSays(p: Script, n: nat, trq: I8)
    requires ParityCoded(p)
    ensures DecodeOne(Word(BurstWord(p, n, trq))) == Reported(p, Burst(n), trq)
  {
    if n >= |p.poll| {
      TorqueFrameDecodes(Motor(n - |p.poll|), trq);
    }
  }

  lemma DecodeSingle(e: Event) returns (sent: seq<Event>)
    ensures sent == [e] && Decode(sent) == DecodeOne(e)
  {
    sent := [e];
    assert sent[..0] == [];
  }
}
