/** The 16-bit words on the motor-drive bus (mde.c): parity and torque frames. */
module BusWords {
  import opened MachineInts

  const MOTOR_AZ: nat := 3
  const MOTOR_EL: nat := 5
  const MOTOR_SK: nat := 6

  const TORQUE_PREFIX: nat := 14

  // ----- Parity

  function Ones(n: nat): nat { if n == 0 then 0 else n % 2 + Ones(n / 2) }

  predicate OddParity(w: nat) { Ones(w) % 2 == 1 }

  method BitCount(word: U16) returns (cntr: nat)
    ensures cntr == Ones(word)
  {
    var n: nat := word;
    cntr := 0;
    while n != 0
      invariant cntr + Ones(n) == Ones(word)
      decreases n
    {
      cntr := cntr + n % 2;
      n := n / 2;
    }
  }

  /** Ones of a hexadecimal digit. */
  function DigitOnes(x: nat): nat {
    if x == 0 then 0
    else if x == 1 || x == 2 || x == 4 || x == 8 then 1
    else if x == 7 || x == 11 || x == 13 || x == 14 then 3
    else if x == 15 then 4 else 2
  }

  lemma OnesDouble(w: nat, n: nat, bit: nat)
    requires bit < 2 && w == 2 * n + bit
    ensures Ones(w) == bit + Ones(n)
  {
    assert w / 2 == n;
  }

  lemma OddDouble(w: nat, n: nat, bit: nat)
    requires bit < 2 && w == 2 * n + bit
    ensures OddParity(w) == (OddParity(n) != (bit == 1))
  {
    OnesDouble(w, n, bit);
    ParityOfSum(Ones(w), Ones(n), bit);
  }

  lemma ParityOfSum(sum: nat, n: nat, bit: nat)
    requires bit < 2 && sum == bit + n
    ensures (sum % 2 == 1) == ((n % 2 == 1) != (bit == 1))
  {}

  lemma DigitBits(x: nat) returns (b3: nat, b2: nat, b1: nat, b0: nat)
    requires x < 16
    ensures b3 < 2 && b2 < 2 && b1 < 2 && b0 < 2
    ensures x == 8 * b3 + 4 * b2 + 2 * b1 + b0
    ensures DigitOnes(x) == b3 + b2 + b1 + b0
  {
    b3 := if x >= 8 then 1 else 0;
    b2 := if x - 8 * b3 >= 4 then 1 else 0;
    b1 := if x - 8 * b3 - 4 * b2 >= 2 then 1 else 0;
    b0 := x - 8 * b3 - 4 * b2 - 2 * b1;
  }

  lemma OnesDigit(w: nat, n: nat, x: nat)
    requires x < 16 && w == 16 * n + x
    ensures Ones(w) == DigitOnes(x) + Ones(n)
  {
    var b3, b2, b1, b0 := DigitBits(x);
    var n3 := 2 * n + b3;
    var n2 := 2 * n3 + b2;
    var n1 := 2 * n2 + b1;
    OnesDouble(n3, n, b3);
    OnesDouble(n2, n3, b2);
    OnesDouble(n1, n2, b1);
    OnesDouble(w, n1, b0);
  }

  /** Ones of a word from its four hexadecimal digits. */
  lemma WordByDigits(w: nat, a: nat, b: nat, c: nat, d: nat)
    requires a < 16 && b < 16 && c < 16 && d < 16
    requires w == 0x1000 * a + 0x100 * b + 0x10 * c + d
    ensures Ones(w) == DigitOnes(a) + DigitOnes(b) + DigitOnes(c) + DigitOnes(d)
  {
    var ab := 16 * a + b;
    var abc := 16 * ab + c;
    OnesDigit(a, 0, a);
    OnesDigit(ab, a, b);
    OnesDigit(abc, ab, c);
    OnesDigit(w, abc, d);
  }

  /** A word that is not a torque frame and has odd parity, by its digits. */
  predicate CodedWord(w: U16) {
    && w / 0x1000 != TORQUE_PREFIX
    && (DigitOnes(w / 16 / 16 / 16) + DigitOnes(w / 16 / 16 % 16) + DigitOnes(w / 16 % 16) + DigitOnes(w % 16)) % 2 == 1
  }

  lemma CodedWordIsOdd(w: U16)
    requires CodedWord(w)
    ensures OddParity(w) && !IsTorqueFrame(w)
  {
    var c := w / 16;
    var b := c / 16;
    var a := b / 16;
    assert w == 16 * c + w % 16 && c == 16 * b + c % 16 && b == 16 * a + b % 16;
    WordByDigits(w, a, b % 16, c % 16, w % 16);
  }

  predicate BitSet(w: nat, i: nat) { if i == 0 then w % 2 == 1 else BitSet(w / 2, i - 1) }

  /** The word with bit i inverted. */
  function FlipBit(w: nat, i: nat): nat {
    if i == 0 then (if w % 2 == 1 then w - 1 else w + 1) else 2 * FlipBit(w / 2, i - 1) + w % 2
  }

  /** FlipBit changes bit i and nothing else. */
  lemma {:induction false} FlipBitChangesOneBit(w: nat, i: nat, j: nat)
    ensures BitSet(FlipBit(w, i), j) == (if i == j then !BitSet(w, j) else BitSet(w, j))
    decreases i
  {
    if i > 0 {
      assert FlipBit(w, i) / 2 == FlipBit(w / 2, i - 1) && FlipBit(w, i) % 2 == w % 2;
      if j > 0 {
        FlipBitChangesOneBit(w / 2, i - 1, j - 1);
      }
    } else {
      assert FlipBit(w, 0) / 2 == w / 2;
    }
  }

  /** A single inverted bit always turns the parity around. */
  lemma {:induction false} SingleBitErrorDetected(w: nat, i: nat)
    ensures OddParity(FlipBit(w, i)) != OddParity(w)
    decreases i
  {
    var half, bit := w / 2, w % 2;
    if i == 0 {
      LowBitTurnsParity(w, half, bit);
    } else {
      SingleBitErrorDetected(half, i - 1);
      HigherBitsTurnParity(w, half, FlipBit(w, i), FlipBit(half, i - 1), bit);
    }
  }

  lemma LowBitTurnsParity(w: nat, half: nat, bit: nat)
    requires bit < 2 && w == 2 * half + bit
    ensures OddParity(FlipBit(w, 0)) != OddParity(w)
  {
    OddDouble(w, half, bit);
    OddDouble(FlipBit(w, 0), half, 1 - bit);
  }

  lemma HigherBitsTurnParity(w: nat, half: nat, w': nat, half': nat, bit: nat)
    requires bit < 2 && w == 2 * half + bit && w' == 2 * half' + bit
    requires OddParity(half') != OddParity(half)
    ensures OddParity(w') != OddParity(w)
  {
    OddDouble(w, half, bit);
    OddDouble(w', half', bit);
  }

  // ----- Torque frames

  /** Command, motor and torque fields of a frame, with the parity bit still clear. */
  function FrameBody(motor: nat, trq: I8): U16 {
    TORQUE_PREFIX * 0x1000 + (motor % 8) * 0x200 + (trq % 0x100) * 2
  }

  function TorqueFrame(motor: nat, trq: I8): U16 {
    FrameBody(motor, trq) + (if OddParity(FrameBody(motor, trq)) then 0 else 1)
  }

  predicate IsTorqueFrame(w: nat) { w / 0x1000 == TORQUE_PREFIX }

  function FrameMotor(w: nat): nat { w / 0x200 % 8 }

  function FrameTorque(w: nat): I8 { WrapI8(w / 2 % 0x100) }

  /** The bits of the three fields and of the parity do not overlap, so or is addition. */
  method CmdSetMotTrq(motor: U8, speed: I8) returns (cmd: U16)
    ensures cmd == TorqueFrame(motor, speed)
  {
    cmd := 14 * 0x1000 + (motor % 8) * 0x200 + (speed % 0x100) * 2;
    var ones := BitCount(cmd);
    cmd := cmd + (if ones % 2 == 1 then 0 else 1);
  }

  /** A torque frame is recognised, decodes to what it was built from and has odd parity. */
  lemma TorqueFrameDecodes(motor: nat, trq: I8)
    requires motor < 8
    ensures var w := TorqueFrame(motor, trq);
            && IsTorqueFrame(w) && OddParity(w)
            && FrameMotor(w) == motor && FrameTorque(w) == trq
  {
    var body := FrameBody(motor, trq);
    var parity := if OddParity(body) then 0 else 1;
    var w := body + parity;
    assert TorqueFrame(motor, trq) == w;
    assert OddParity(w) by {
      BodyIsEven(motor, trq);
      ParityBitFixes(body);
    }
    FieldsRecovered(w, motor, trq, parity);
  }

  /** The same by bit positions: command 1110 in bits 12 to 15, motor in 9 to 11, torque in 1 to 8. */
  lemma TorqueFrameLayout(motor: nat, trq: I8)
    requires motor < 8
    ensures var w := TorqueFrame(motor, trq);
            w / 0x1000 == 14 && w / 0x200 % 8 == motor && w / 2 % 0x100 == trq % 0x100
  {
    var body := FrameBody(motor, trq);
    assert motor % 8 == motor;
    FrameFields(TorqueFrame(motor, trq), motor, trq % 0x100, if OddParity(body) then 0 else 1);
  }

  lemma FieldsRecovered(w: nat, motor: nat, trq: I8, parity: nat)
    requires motor < 8 && parity < 2 && w == FrameBody(motor, trq) + parity
    ensures IsTorqueFrame(w) && FrameMotor(w) == motor && FrameTorque(w) == trq
  {
    var byte := trq % 0x100;
    assert motor % 8 == motor;
    FrameFields(w, motor, byte, parity);
    TorqueOfByte(trq, byte);
  }

  lemma FrameFields(w: nat, motor: nat, byte: U8, parity: nat)
    requires motor < 8 && parity < 2
    requires w == TORQUE_PREFIX * 0x1000 + motor * 0x200 + byte * 2 + parity
    ensures w / 0x1000 == TORQUE_PREFIX && w / 0x200 % 8 == motor && w / 2 % 0x100 == byte
  {
    assert w / 0x200 == TORQUE_PREFIX * 8 + motor;
    assert w / 2 == (TORQUE_PREFIX * 8 + motor) * 0x100 + byte;
  }

  lemma TorqueOfByte(trq: I8, byte: int)
    requires byte == trq % 0x100
    ensures WrapI8(byte) == trq
  {}

  lemma BodyIsEven(motor: nat, trq: I8)
    ensures FrameBody(motor, trq) % 2 == 0
  {
    assert FrameBody(motor, trq) == 2 * (TORQUE_PREFIX * 0x800 + (motor % 8) * 0x100 + trq % 0x100);
  }

  lemma ParityBitFixes(body: nat)
    requires body % 2 == 0
    ensures OddParity(body + (if OddParity(body) then 0 else 1))
  {
    var half := body / 2;
    OddDouble(body, half, 0);
    OddDouble(body + 1, half, 1);
  }
}
