/**
 * The oscillator discipline loop (ocxo.c): a pulse interrupt stores counts in
 * a ring of three and a thread steps a DAC when the three agree.
 */
module Oscillator {
  import opened MachineInts

  const LOWEST: int := 19999999
  const HIGHEST: int := 20000001
  const DAC_START: int := 2050
  const DAC_STEP: int := 10
  const CNTR_MOD: int := 0x1_0000_0000

  datatype Osc = Osc(ring: seq<int>, cntr: U32, dac: U16, out: int) {
    ghost predicate Valid() { |ring| == 3 && ring[1] >= 0 && ring[2] >= 0 && ring[0] >= -1 }
  }

  const START: Osc := Osc([0, 1, 2], 0, 2050, 0)

  function Pulse(s: Osc, count: nat): Osc
    requires |s.ring| == 3
  {
    s.(ring := s.ring[s.cntr % 3 := count], cntr := WrapU32(s.cntr + 1))
  }

  predicate Agree(s: Osc)
    requires |s.ring| == 3
  {
    s.ring[0] == s.ring[1] == s.ring[2]
  }

  /** +1 when a count is evaluated as too low, -1 when as too high. */
  function Correction(count: int): int { if count > HIGHEST then -1 else if count < LOWEST then 1 else 0 }

  function Poll(s: Osc): Osc
    requires |s.ring| == 3
  {
    if Agree(s)
    then s.(out := s.ring[0], ring := s.ring[0 := -1], dac := WrapU16(s.dac + DAC_STEP * Correction(s.ring[0])))
    else s
  }

  /** What a poll does with three equal counts, in counts of a 20 MHz oscillator, and with any others. */
  lemma PollByCount(s: Osc, count: int)
    requires |s.ring| == 3
    ensures s.ring == [count, count, count] ==>
              && Poll(s).ring == [-1, count, count] && Poll(s).out == count && Poll(s).cntr == s.cntr
              && (count > 20000001 ==> Poll(s).dac == (s.dac - 10) % 65536)
              && (count < 19999999 ==> Poll(s).dac == (s.dac + 10) % 65536)
              && (19999999 <= count <= 20000001 ==> Poll(s).dac == s.dac)
    ensures !(s.ring[0] == s.ring[1] == s.ring[2]) ==> Poll(s) == s
  {}

  /** ocxo.c in its own form: the ring is an array that both parties write. */
  class Discipline {
    const ring: array<int>
    var cntr: U32
    var dacVal: U16
    var out: int

    ghost predicate Valid()
      reads this, ring
    {
      ring.Length == 3
    }

    ghost function View(): Osc
      reads this, ring
    {
      Osc(ring[..], cntr, dacVal, out)
    }

    constructor ()
      ensures Valid() && View() == START && fresh(ring)
    {
      ring := new int[3][0, 1, 2];
      cntr, dacVal, out := 0, 2050, 0;
      new;
      assert ring[..] == [0, 1, 2];
    }

    method OnPulse(count: nat)
      requires Valid()
      modifies this, ring
      ensures Valid() && View() == Pulse(old(View()), count)
    {
      ring[cntr % 3] := count;
      cntr := WrapU32(cntr + 1);
    }

    method PollOnce()
      requires Valid()
      modifies this, ring
      ensures Valid() && View() == Poll(old(View()))
    {
      if ring[0] == ring[1] && ring[1] == ring[2] {
        out := ring[0];
        ring[0] := -1;
        if out > 20000001 {
          dacVal := WrapU16(dacVal - 10);
        } else if out < 19999999 {
          dacVal := WrapU16(dacVal + 10);
        }
      }
    }
  }

  // ----- Every sequence of pulses and polls

  datatype Event = P(count: nat) | Look

  function Run(es: seq<Event>): (s: Osc)
    ensures |s.ring| == 3
    decreases |es|
  {
    if es == [] then START
    else
      var s := Run(es[..|es| - 1]);
      match es[|es| - 1]
      case P(count) => Pulse(s, count)
      case Look => Poll(s)
  }

  /** The pulse interrupt and the thread, taken through the events, go through the states of `Run`. */
  method Execute(es: seq<Event>) returns (d: Discipline)
    ensures d.Valid() && d.View() == Run(es)
  {
    d := new Discipline();
    for i := 0 to |es|
      invariant fresh(d) && fresh(d.ring) && d.Valid()
      invariant d.View() == Run(es[..i])
    {
      assert es[..i + 1][..i] == es[..i];
      match es[i]
      case P(count) => d.OnPulse(count);
      case Look => d.PollOnce();
    }
    assert es[..|es|] == es;
  }

  /** Everything the ring was ever given, beginning with its initial contents. */
  function History(es: seq<Event>): (h: seq<int>)
    ensures |h| >= 3
    decreases |es|
  {
    if es == [] then [0, 1, 2]
    else History(es[..|es| - 1]) + (match es[|es| - 1] case P(count) => [count] case Look => [])
  }

  function Pulses(es: seq<Event>): nat { |History(es)| - 3 }

  /** Number of evaluated triples. */
  function Evaluations(es: seq<Event>): nat
    decreases |es|
  {
    if es == [] then 0
    else
      var front := es[..|es| - 1];
      Evaluations(front) + (if es[|es| - 1] == Look && Agree(Run(front)) then 1 else 0)
  }

  /** Low evaluations minus high evaluations. */
  function Net(es: seq<Event>): int
    decreases |es|
  {
    if es == [] then 0
    else
      var front := es[..|es| - 1];
      Net(front) + (if es[|es| - 1] == Look && Agree(Run(front)) then Correction(Run(front).ring[0]) else 0)
  }

  /** A triple was evaluated since slot 0 was last written. */
  function Used(es: seq<Event>): bool
    decreases |es|
  {
    if es == [] then false
    else
      var front := es[..|es| - 1];
      match es[|es| - 1]
      case P(_) => Used(front) && Pulses(front) % 3 != 0
      case Look => Used(front) || Agree(Run(front))
  }

  /** What the ring says about the history of a run: the last three counts, slot 0 masked exactly if used. */
  ghost predicate Refines(s: Osc, h: seq<int>, evals: nat, used: bool)
    requires |h| >= 3
  {
    var n := |h| - 3;
    && s.Valid()
    && s.cntr == n
    && (forall m | n <= m < n + 3 :: s.ring[m % 3] == if m % 3 == 0 && used then -1 else h[m])
    && (forall m | n <= m < n + 3 :: h[m] >= 0)
    && evals + (if n > 0 && !used then 1 else 0) <= (n + 2) / 3
    && (n == 0 ==> s.ring == [0, 1, 2] && !used)
  }

  lemma PulseRefines(s: Osc, h: seq<int>, evals: nat, used: bool, count: nat)
    requires |h| >= 3 && Refines(s, h, evals, used) && |h| - 3 < 0xFFFF_FFFF
    ensures Refines(Pulse(s, count), h + [count], evals, used && (|h| - 3) % 3 != 0)
  {
    var n := |h| - 3;
    var s' := Pulse(s, count);
    var h' := h + [count];
    assert h'[n + 3] == count && (n + 3) % 3 == n % 3;
    assert s'.ring[n % 3] == count;
    forall m | n + 1 <= m < n + 4
      ensures h'[m] >= 0 && s'.ring[m % 3] == if m % 3 == 0 && used && n % 3 != 0 then -1 else h'[m]
    {
      if m < n + 3 {
        assert m % 3 != n % 3 && h'[m] == h[m];
      }
    }
  }

  lemma PollRefines(s: Osc, h: seq<int>, evals: nat, used: bool)
    requires |h| >= 3 && Refines(s, h, evals, used)
    ensures Refines(Poll(s), h, evals + (if Agree(s) then 1 else 0), used || Agree(s))
    ensures Agree(s) ==> h[|h| - 3] == h[|h| - 2] == h[|h| - 1] == s.ring[0]
  {
    var n := |h| - 3;
    assert s.ring[n % 3] == if n % 3 == 0 && used then -1 else h[n];
    assert s.ring[(n + 1) % 3] == if (n + 1) % 3 == 0 && used then -1 else h[n + 1];
    assert s.ring[(n + 2) % 3] == if (n + 2) % 3 == 0 && used then -1 else h[n + 2];
  }

  /**
   * In every run of fewer than 2^32 pulses: the ring holds the last three
   * counts, slot 0 masked by -1 exactly when it was used since it was written,
   * and there is at most one evaluation per three pulses begun.
   */
  lemma RingHoldsHistory(es: seq<Event>)
    requires Pulses(es) < 0x1_0000_0000
    ensures Refines(Run(es), History(es), Evaluations(es), Used(es))
    ensures Evaluations(es) <= (Pulses(es) + 2) / 3
  {
    RunRefines(es);
  }

  lemma {:induction false} RunRefines(es: seq<Event>)
    requires Pulses(es) < 0x1_0000_0000
    ensures Refines(Run(es), History(es), Evaluations(es), Used(es))
    decreases |es|
  {
    if es == [] {
      StartRefines();
    } else {
      var front := es[..|es| - 1];
      RunRefines(front);
      match es[|es| - 1]
      case P(count) => PulseRefines(Run(front), History(front), Evaluations(front), Used(front), count);
      case Look => PollRefines(Run(front), History(front), Evaluations(front), Used(front));
    }
  }

  lemma StartRefines()
    ensures Refines(START, [0, 1, 2], 0, false)
  {}

  /** In every run the DAC is its start value moved by the net corrections, in 16 bits. */
  lemma {:induction false} DacIsNet(es: seq<Event>)
    ensures Run(es).dac == WrapU16(DAC_START + DAC_STEP * Net(es))
    decreases |es|
  {
    if es == [] {
    } else {
      var front := es[..|es| - 1];
      DacIsNet(front);
      if es[|es| - 1] == Look && Agree(Run(front)) {
        DacAdds(DAC_START + DAC_STEP * Net(front), DAC_STEP * Correction(Run(front).ring[0]));
      }
    }
  }

  lemma DacAdds(x: int, y: int)
    ensures WrapU16(WrapU16(x) + y) == WrapU16(x + y)
  {
    var q := x / 0x1_0000;
    assert x + y == WrapU16(x) + y + q * 0x1_0000;
  }

  /** A triple is evaluated only when the last three counts agree, on their common value. */
  lemma EvaluatesOnlyAgreement(es: seq<Event>)
    requires Pulses(es) < 0x1_0000_0000
    requires Agree(Run(es))
    ensures var h := History(es);
            h[|h| - 3] == h[|h| - 2] == h[|h| - 1] == Run(es + [Look]).out
  {
    RingHoldsHistory(es);
    PollRefines(Run(es), History(es), Evaluations(es), Used(es));
    assert (es + [Look])[..|es|] == es;
  }

  /** The DAC value is exact and fits the converter exactly for these net corrections. */
  lemma DacFitsIff(es: seq<Event>)
    ensures DacFits(Run(es).dac, Net(es)) <==> -205 <= Net(es) <= 204
  {
    DacIsNet(es);
    NetFits(Net(es));
  }

  predicate DacFits(dac: U16, net: int) { dac == DAC_START + DAC_STEP * net && dac < 0x1000 }

  lemma NetFits(net: int)
    ensures DacFits(WrapU16(DAC_START + DAC_STEP * net), net) <==> -205 <= net <= 204
  {}

  // ----- In closed loop with an oscillator

  /** The loop and the count the oscillator would show at the next pulse. */
  datatype LoopState = LoopState(osc: Osc, count: int)

  type Loop = l: LoopState | l.osc.Valid() && l.count >= 0 witness LoopState(START, 0)

  /** How many counts the oscillator shifts for one DAC step. */
  type Gain = g: int | 1 <= g <= 3 witness 1

  predicate InWindow(count: int) { LOWEST <= count <= HIGHEST }

  /** An amount in the direction of a correction; the assumed oscillator shifts its count by a `gain` so directed. */
  function Shift(amount: int, correction: int): int {
    if correction > 0 then amount else if correction < 0 then -amount else 0
  }

  /** One pulse and the polls before the next one; all but the first of them do nothing. */
  function Round(gain: Gain, l: Loop): Loop {
    var s := Pulse(l.osc, l.count);
    AgreesOnCount(l);
    LoopState(Poll(s), l.count + (if Agree(s) then Shift(gain, Correction(s.ring[0])) else 0))
  }

  lemma AgreesOnCount(l: Loop)
    ensures var s := Pulse(l.osc, l.count);
            s.Valid() && Poll(s).Valid() && (Agree(s) ==> s.ring[0] == l.count)
  {
    var s := Pulse(l.osc, l.count);
    assert s.ring[l.osc.cntr % 3] == l.count;
  }

  lemma PollIsIdempotent(s: Osc)
    requires s.Valid()
    ensures Poll(Poll(s)) == Poll(s)
  {}

  /** A round corrects by the present count or leaves the DAC alone. */
  lemma RoundCorrects(gain: Gain, l: Loop)
    ensures Agree(Pulse(l.osc, l.count)) ==> Round(gain, l).count == l.count + Shift(gain, Correction(l.count))
    ensures !Agree(Pulse(l.osc, l.count)) ==> Round(gain, l).count == l.count
    ensures Round(gain, l).count == l.count || !InWindow(l.count)
    ensures InWindow(l.count) ==> Round(gain, l).osc.dac == l.osc.dac
  {
    AgreesOnCount(l);
  }

  function Rounds(gain: Gain, l: Loop, n: nat): (l': Loop)
    decreases n
  {
    if n == 0 then l else Rounds(gain, Round(gain, l), n - 1)
  }

  /** A number of pulses of one count, no poll changing the ring. */
  function Pulsed(s: Osc, count: nat, k: nat): (s': Osc)
    requires |s.ring| == 3
    ensures |s'.ring| == 3
    decreases k
  {
    if k == 0 then s else Pulsed(Pulse(s, count), count, k - 1)
  }

  /** Three pulses fill the ring, or four when the index wraps between them: 2^32 is no multiple of 3. */
  lemma PulsesFill(s: Osc, count: nat)
    requires s.Valid()
    ensures Agree(Pulsed(s, count, if s.cntr <= CNTR_MOD - 3 then 3 else 4))
  {
    var s1 := Pulse(s, count);
    var s2 := Pulse(s1, count);
    var s3 := Pulse(s2, count);
    if s.cntr <= CNTR_MOD - 3 {
      assert Pulsed(s, count, 3) == Pulsed(s1, count, 2) == Pulsed(s2, count, 1) == Pulsed(s3, count, 0);
    } else {
      var s4 := Pulse(s3, count);
      assert Pulsed(s, count, 4) == Pulsed(s1, count, 3) == Pulsed(s2, count, 2) == Pulsed(s3, count, 1) == Pulsed(s4, count, 0);
    }
  }

  /** If so many pulses fill the ring, a correction comes by then. */
  lemma {:induction false} FirstCorrection(gain: Gain, l: Loop, k: nat) returns (n: nat)
    requires k >= 1 && Agree(Pulsed(l.osc, l.count, k))
    ensures 1 <= n <= k
    ensures Rounds(gain, l, n).count == l.count + Shift(gain, Correction(l.count))
    ensures forall j | 0 <= j < n :: Rounds(gain, l, j).count == l.count
    decreases k
  {
    RoundCorrects(gain, l);
    var l1 := Round(gain, l);
    if Agree(Pulse(l.osc, l.count)) {
      assert Rounds(gain, l, 1) == Rounds(gain, l1, 0);
      n := 1;
    } else {
      var m := FirstCorrection(gain, l1, k - 1);
      n := m + 1;
    }
  }

  lemma {:induction false} RoundsCount(gain: Gain, l: Loop, n: nat)
    ensures Rounds(gain, l, n).osc.cntr == WrapU32(l.osc.cntr + n)
    decreases n
  {
    if n == 0 {
    } else {
      RoundsCount(gain, Round(gain, l), n - 1);
      WrapAdds(l.osc.cntr + 1, n - 1);
    }
  }

  lemma WrapAdds(x: nat, y: nat)
    ensures WrapU32(WrapU32(x) + y) == WrapU32(x + y)
  {
    assert x + y == WrapU32(x) + y + x / CNTR_MOD * CNTR_MOD;
  }

  /** From any ring, three pulses bring exactly one correction, or four when the index wraps. */
  lemma CorrectsSoon(gain: Gain, l: Loop) returns (n: nat)
    ensures 1 <= n <= if l.osc.cntr <= CNTR_MOD - 3 then 3 else 4
    ensures Rounds(gain, l, n).count == l.count + Shift(gain, Correction(l.count))
    ensures Rounds(gain, l, n).osc.cntr == WrapU32(l.osc.cntr + n)
    ensures forall j | 0 <= j < n :: Rounds(gain, l, j).count == l.count
  {
    PulsesFill(l.osc, l.count);
    n := FirstCorrection(gain, l, if l.osc.cntr <= CNTR_MOD - 3 then 3 else 4);
    RoundsCount(gain, l, n);
  }

  /** The slot three pulses from this index leave out, if they leave out one. */
  function Skipped(cntr: U32): nat { if cntr == CNTR_MOD - 2 then 1 else 2 }

  lemma ThreePulses(s: Osc, count: nat)
    requires s.Valid()
    ensures Agree(Pulsed(s, count, 3)) <==> s.cntr <= CNTR_MOD - 3 || s.ring[Skipped(s.cntr)] == count
  {
    var s1 := Pulse(s, count);
    var s2 := Pulse(s1, count);
    assert Pulsed(s, count, 3) == Pulsed(s1, count, 2) == Pulsed(s2, count, 1) == Pulsed(Pulse(s2, count), count, 0);
  }

  /** Three pulses fill every ring exactly when the index does not wrap between them. */
  lemma ThreePulsesFillIff(cntr: U32)
    ensures (forall s: Osc, count: nat | s.Valid() && s.cntr == cntr :: Agree(Pulsed(s, count, 3)))
       <==> cntr <= CNTR_MOD - 3
  {
    forall s: Osc, count: nat | s.Valid() && s.cntr == cntr
      ensures Agree(Pulsed(s, count, 3)) <==> cntr <= CNTR_MOD - 3 || s.ring[Skipped(cntr)] == count
    {
      ThreePulses(s, count);
    }
    var s := START.(cntr := cntr);
    ThreePulses(s, 7);
  }

  /** How far the count is outside the window. */
  function Excess(count: int): nat {
    if count > HIGHEST then count - HIGHEST else if count < LOWEST then LOWEST - count else 0
  }

  /** The later count is between the earlier one and the window, or in it. */
  predicate Toward(before: int, after: int) {
    InWindow(after) || (HIGHEST < after <= before) || (before <= after < LOWEST)
  }

  /** The DAC steps it takes from this count into the window: the excess over the gain, rounded up. */
  function StepsNeeded(gain: Gain, count: int): nat
  {
    RoundedUp(Excess(count), gain)
  }

  function RoundedUp(e: nat, gain: Gain): nat
  {
    if gain == 1 then e else if gain == 2 then (e + 1) / 2 else (e + 2) / 3
  }

  /**
   * From any ring contents and index, the count enters the window after at
   * most three pulses per DAC step needed, and one more for every time the
   * index wraps, moving toward it all the time and never leaping over it.
   */
  lemma {:induction false} EntersWindow(gain: Gain, l: Loop) returns (n: nat)
    ensures Enters(gain, l, n)
    decreases StepsNeeded(gain, l.count)
  {
    if InWindow(l.count) {
      EntersNow(gain, l);
      n := 0;
    } else {
      var a := CorrectsSoon(gain, l);
      StepNeedsOneLess(gain, l.count);
      var b := EntersWindow(gain, Rounds(gain, l, a));
      EntersLater(gain, l, a, b);
      n := a + b;
    }
  }

  /** The count is in the window after n pulses, which are few, and approached it all the way. */
  ghost predicate Enters(gain: Gain, l: Loop, n: nat)
  {
    && n <= 3 * StepsNeeded(gain, l.count) + (l.osc.cntr + n) / CNTR_MOD
    && InWindow(Rounds(gain, l, n).count)
    && ApproachesFor(gain, l, n)
  }

  lemma EntersNow(gain: Gain, l: Loop)
    requires InWindow(l.count)
    ensures Enters(gain, l, 0)
  {
    assert Rounds(gain, l, 0) == l;
  }

  /** One correction after `a` pulses, then the window after `b` more. */
  lemma EntersLater(gain: Gain, l: Loop, a: nat, b: nat)
    requires !InWindow(l.count)
    requires a <= if l.osc.cntr <= CNTR_MOD - 3 then 3 else 4
    requires StaysFor(gain, l, a)
    requires var l' := Rounds(gain, l, a);
             && l'.count == l.count + Shift(gain, Correction(l.count))
             && l'.osc.cntr == WrapU32(l.osc.cntr + a) && Enters(gain, l', b)
    ensures Enters(gain, l, a + b)
  {
    var l' := Rounds(gain, l, a);
    assert ApproachesFor(gain, l, a + b) by {
      StepToward(gain, l.count);
      ApproachesOn(gain, l, a, b);
    }
    assert InWindow(Rounds(gain, l, a + b).count) by { RoundsAdd(gain, l, a, b); }
    StepBudget(gain, l.count, l.osc.cntr, a, b);
  }

  ghost predicate StaysFor(gain: Gain, l: Loop, n: nat)
  {
    forall j | 0 <= j < n :: Rounds(gain, l, j).count == l.count
  }

  ghost predicate ApproachesFor(gain: Gain, l: Loop, n: nat)
  {
    forall j | 0 <= j <= n :: Toward(l.count, Rounds(gain, l, j).count)
  }

  lemma ApproachesOn(gain: Gain, l: Loop, a: nat, b: nat)
    requires !InWindow(l.count)
    requires StaysFor(gain, l, a)
    requires Toward(l.count, Rounds(gain, l, a).count) && ApproachesFor(gain, Rounds(gain, l, a), b)
    ensures ApproachesFor(gain, l, a + b)
  {
    forall j | 0 <= j <= a + b
      ensures Toward(l.count, Rounds(gain, l, j).count)
    {
      if j < a {
        assert Rounds(gain, l, j).count == l.count;
      } else {
        ApproachesAt(gain, l, a, b, j - a);
      }
    }
  }

  lemma ApproachesAt(gain: Gain, l: Loop, a: nat, b: nat, k: nat)
    requires k <= b
    requires Toward(l.count, Rounds(gain, l, a).count) && ApproachesFor(gain, Rounds(gain, l, a), b)
    ensures Toward(l.count, Rounds(gain, l, a + k).count)
  {
    var l' := Rounds(gain, l, a);
    var later := Rounds(gain, l', k);
    assert Toward(l'.count, later.count);
    assert Rounds(gain, l, a + k) == later by { RoundsAdd(gain, l, a, k); }
    TowardComposes(l.count, l'.count, later.count);
  }

  lemma TowardComposes(x: int, y: int, z: int)
    requires Toward(x, y) && Toward(y, z)
    ensures Toward(x, z)
  {}

  lemma StepBudget(gain: Gain, count: int, cntr: U32, a: nat, b: nat)
    requires !InWindow(count)
    requires a <= if cntr <= CNTR_MOD - 3 then 3 else 4
    requires b <= 3 * StepsNeeded(gain, count + Shift(gain, Correction(count))) + (WrapU32(cntr + a) + b) / CNTR_MOD
    ensures a + b <= 3 * StepsNeeded(gain, count) + (cntr + a + b) / CNTR_MOD
  {
    StepNeedsOneLess(gain, count);
    PulseBudget(cntr, a, b, StepsNeeded(gain, count), StepsNeeded(gain, count + Shift(gain, Correction(count))));
  }

  lemma PulseBudget(cntr: U32, a: nat, b: nat, steps: nat, steps': nat)
    requires a <= (if cntr <= CNTR_MOD - 3 then 3 else 4) && steps' < steps
    requires b <= 3 * steps' + (WrapU32(cntr + a) + b) / CNTR_MOD
    ensures a + b <= 3 * steps + (cntr + a + b) / CNTR_MOD
  {
    WrapsAdd(cntr + a, b);
  }

  /** One step cannot leap over a window of three counts. */
  lemma StepToward(gain: Gain, count: int)
    requires !InWindow(count)
    ensures Toward(count, count + Shift(gain, Correction(count)))
  {}

  lemma WrapsAdd(x: nat, b: nat)
    ensures (x + b) / CNTR_MOD == x / CNTR_MOD + (WrapU32(x) + b) / CNTR_MOD
  {
    assert x + b == WrapU32(x) + b + x / CNTR_MOD * CNTR_MOD;
  }

  lemma {:induction false} RoundsAdd(gain: Gain, l: Loop, a: nat, b: nat)
    ensures Rounds(gain, l, a + b) == Rounds(gain, Rounds(gain, l, a), b)
    decreases a
  {
    if a == 0 {
    } else {
      RoundsAdd(gain, Round(gain, l), a - 1, b);
    }
  }

  /** Once in the window the count and the DAC never change again. */
  lemma {:induction false} LockedForever(gain: Gain, l: Loop, n: nat)
    requires InWindow(l.count)
    ensures Rounds(gain, l, n).count == l.count && Rounds(gain, l, n).osc.dac == l.osc.dac
    decreases n
  {
    if n == 0 {
    } else {
      RoundCorrects(gain, l);
      LockedForever(gain, Round(gain, l), n - 1);
    }
  }

  // ----- The DAC on the way to the lock

  /** DAC steps up minus steps down in a number of rounds. */
  function Moves(gain: Gain, l: Loop, n: nat): int
    decreases n
  {
    if n == 0 then 0
    else FirstMove(l) + Moves(gain, Round(gain, l), n - 1)
  }

  /** The DAC step of the next round. */
  function FirstMove(l: Loop): int
  {
    if Agree(Pulse(l.osc, l.count)) then Correction(l.count) else 0
  }

  /** Count and DAC move together: conservation over any number of rounds. */
  lemma LoopConserves(gain: Gain, l: Loop, n: nat)
    ensures Rounds(gain, l, n).count == l.count + gain * Moves(gain, l, n)
    ensures Rounds(gain, l, n).osc.dac == WrapU16(l.osc.dac + DAC_STEP * Moves(gain, l, n))
  {
    CountMoves(gain, l, n);
    DacMoves(gain, l, n);
  }

  lemma {:induction false} CountMoves(gain: Gain, l: Loop, n: nat)
    ensures Rounds(gain, l, n).count == l.count + gain * Moves(gain, l, n)
    decreases n
  {
    if n == 0 {
      assert gain * Moves(gain, l, 0) == 0;
    } else {
      RoundMoves(gain, l);
      CountMoves(gain, Round(gain, l), n - 1);
      Distributes(gain, FirstMove(l), Moves(gain, Round(gain, l), n - 1));
    }
  }

  lemma {:induction false} DacMoves(gain: Gain, l: Loop, n: nat)
    ensures Rounds(gain, l, n).osc.dac == WrapU16(l.osc.dac + DAC_STEP * Moves(gain, l, n))
    decreases n
  {
    if n == 0 {
      assert Moves(gain, l, 0) == 0;
    } else {
      RoundMoves(gain, l);
      DacMoves(gain, Round(gain, l), n - 1);
      DacAdds(l.osc.dac + DAC_STEP * FirstMove(l), DAC_STEP * Moves(gain, Round(gain, l), n - 1));
    }
  }

  lemma Distributes(gain: Gain, x: int, y: int)
    ensures gain * (x + y) == gain * x + gain * y
  {}

  lemma RoundMoves(gain: Gain, l: Loop)
    ensures Round(gain, l).count == l.count + gain * FirstMove(l)
    ensures Round(gain, l).osc.dac == WrapU16(l.osc.dac + DAC_STEP * FirstMove(l))
  {
    AgreesOnCount(l);
    ShiftIsProduct(gain, l.count);
  }

  lemma ShiftIsProduct(gain: Gain, count: int)
    ensures Shift(gain, Correction(count)) == gain * Correction(count)
  {}

  /** All steps go toward the window, and never more than needed. */
  lemma {:induction false} MovesBounded(gain: Gain, l: Loop, n: nat)
    ensures Bounded(gain, l.count, Moves(gain, l, n))
    decreases n
  {
    if n == 0 {
      assert Moves(gain, l, 0) == 0;
    } else {
      RoundCorrects(gain, l);
      MovesBounded(gain, Round(gain, l), n - 1);
      if !InWindow(l.count) {
        StepNeedsOneLess(gain, l.count);
      }
    }
  }

  /** So many steps up are toward the window and not more than needed. */
  predicate Bounded(gain: Gain, count: int, moves: int)
  {
    0 <= Shift(moves, Correction(count)) <= StepsNeeded(gain, count) && (InWindow(count) ==> moves == 0)
  }

  lemma StepNeedsOneLess(gain: Gain, count: int)
    requires !InWindow(count)
    ensures var count' := count + Shift(gain, Correction(count));
            && StepsNeeded(gain, count') == StepsNeeded(gain, count) - 1
            && (InWindow(count') || Correction(count') == Correction(count))
  {
    var count' := count + Shift(gain, Correction(count));
    assert Excess(count') == if Excess(count) <= gain then 0 else Excess(count) - gain;
    OneLess(gain, Excess(count), Excess(count'));
  }

  lemma OneLess(gain: Gain, e: nat, e': nat)
    requires e > 0 && e' == if e <= gain then 0 else e - gain
    ensures RoundedUp(e', gain) == RoundedUp(e, gain) - 1
  {}

  /** A count in the window is reached by exactly the steps needed. */
  lemma WindowNeedsAll(gain: Gain, count: int, moves: int)
    requires Bounded(gain, count, moves)
    requires InWindow(count + gain * moves)
    ensures moves == Shift(StepsNeeded(gain, count), Correction(count))
  {
    if gain == 1 {
      assert InWindow(count + moves);
    } else if gain == 2 {
      assert InWindow(count + 2 * moves);
    } else {
      assert InWindow(count + 3 * moves);
    }
  }

  /**
   * Lock: the count enters the window in the time EntersWindow gives, by
   * exactly the DAC steps needed.
   */
  lemma Locks(gain: Gain, l: Loop) returns (n: nat)
    ensures n <= 3 * StepsNeeded(gain, l.count) + (l.osc.cntr + n) / CNTR_MOD
    ensures InWindow(Rounds(gain, l, n).count) && ApproachesFor(gain, l, n)
    ensures Moves(gain, l, n) == Shift(StepsNeeded(gain, l.count), Correction(l.count))
    ensures Rounds(gain, l, n).osc.dac == WrapU16(l.osc.dac + DAC_STEP * Moves(gain, l, n))
  {
    n := EntersWindow(gain, l);
    LoopConserves(gain, l, n);
    MovesBounded(gain, l, n);
    WindowNeedsAll(gain, l.count, Moves(gain, l, n));
  }

  /**
   * On the whole way to the lock and ever after the DAC is exact and within
   * its 12 bits, if and only if it would be after the steps needed.
   */
  lemma DacFitsToLockIff(gain: Gain, l: Loop, net: int)
    requires DacFits(l.osc.dac, net)
    ensures (forall n: nat :: DacFits(Rounds(gain, l, n).osc.dac, net + Moves(gain, l, n)))
       <==> -205 <= net + Shift(StepsNeeded(gain, l.count), Correction(l.count)) <= 204
  {
    forall n: nat
      ensures DacFits(Rounds(gain, l, n).osc.dac, net + Moves(gain, l, n)) <==> -205 <= net + Moves(gain, l, n) <= 204
      ensures Bounded(gain, l.count, Moves(gain, l, n))
    {
      LoopConserves(gain, l, n);
      MovesBounded(gain, l, n);
      NetFits(net + Moves(gain, l, n));
    }
    NetFits(net);
    var n := Locks(gain, l);
  }
}
