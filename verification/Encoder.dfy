/** The azimuth encoder as the drive thread decodes it (mde.c). */
module Encoder {
  import opened MachineInts

  /** The position is the complement of the two received bytes. */
  function Position(fc: U8, fb: U8): U16 { 0xFFFF - (fc * 0x100 + fb) }

  /** The movement between two positions, as a difference of 16-bit signed values. */
  function Movement(oldX: U16, enc: U16): I16 { WrapI16(WrapI16(enc) - WrapI16(oldX)) }

  /** The two bytes a drive at an unwrapped position answers with. */
  predicate Answers(fc: U8, fb: U8, pos: int) { fc * 0x100 + fb == 0xFFFF - WrapU16(pos) }

  lemma MovementIsExact(from: int, to: int)
    requires -0x8000 <= to - from < 0x8000
    ensures Movement(WrapU16(from), WrapU16(to)) == to - from
  {
    var a, b := from / 0x1_0000, to / 0x1_0000;
    assert from == WrapU16(from) + a * 0x1_0000 && to == WrapU16(to) + b * 0x1_0000;
    SignedDifference(WrapU16(from), WrapU16(to));
    Congruent(WrapU16(to) - WrapU16(from), to - from, b - a);
  }

  lemma SignedDifference(x: U16, y: U16)
    ensures Movement(x, y) == WrapI16(y - x)
  {
    var a := if x < 0x8000 then 0 else 1;
    var b := if y < 0x8000 then 0 else 1;
    assert WrapI16(x) == x - a * 0x1_0000 && WrapI16(y) == y - b * 0x1_0000;
  }

  lemma Congruent(x: int, y: int, k: int)
    requires y == x + k * 0x1_0000 && -0x8000 <= y < 0x8000
    ensures WrapI16(x) == y
  {}

  /** The sum of all movements the thread sees, given the answers it gets. */
  function Travel(answers: seq<(U8, U8)>): int {
    if |answers| < 2 then 0
    else
      var n := |answers| - 1;
      Travel(answers[..n])
      + Movement(Position(answers[n - 1].0, answers[n - 1].1), Position(answers[n].0, answers[n].1))
  }

  /**
   * For every trajectory that moves less than half a turn between two polls
   * the movements add up to the distance travelled, over any number of turns.
   */
  lemma {:induction false} TravelTelescopes(pos: seq<int>, answers: seq<(U8, U8)>)
    requires |pos| == |answers| > 0
    requires forall i | 0 <= i < |pos| :: Answers(answers[i].0, answers[i].1, pos[i])
    requires forall i | 0 < i < |pos| :: -0x8000 <= pos[i] - pos[i - 1] < 0x8000
    ensures Travel(answers) == pos[|pos| - 1] - pos[0]
    decreases |pos|
  {
    if |pos| == 1 {
    } else {
      var n := |pos| - 1;
      TravelTelescopes(pos[..n], answers[..n]);
      MovementAnswered(answers[n - 1], answers[n], pos[n - 1], pos[n]);
    }
  }

  lemma MovementAnswered(a: (U8, U8), b: (U8, U8), from: int, to: int)
    requires Answers(a.0, a.1, from) && Answers(b.0, b.1, to) && -0x8000 <= to - from < 0x8000
    ensures Movement(Position(a.0, a.1), Position(b.0, b.1)) == to - from
  {
    PositionAnswered(a.0, a.1, from);
    PositionAnswered(b.0, b.1, to);
    MovementIsExact(from, to);
  }

  /** High and low byte of the position are the complements of the answers to FC and FB. */
  lemma PositionBytes(fc: U8, fb: U8)
    ensures Position(fc, fb) / 0x100 == 0xFF - fc && Position(fc, fb) % 0x100 == 0xFF - fb
  {
    assert Position(fc, fb) == (0xFF - fc) * 0x100 + (0xFF - fb);
  }

  lemma PositionAnswered(fc: U8, fb: U8, pos: int)
    requires Answers(fc, fb, pos)
    ensures Position(fc, fb) == WrapU16(pos)
  {}
}
