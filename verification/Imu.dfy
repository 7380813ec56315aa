/** Inertial sensor arithmetic (imu.c): sign extension, gyro averaging and its calibration. */
module Imu {
  import opened MachineInts

  type U12 = x: int | 0 <= x < 0x1000

  const BLOCK: int := 5

  // ----- Accelerometer words

  /** The 14-bit two's complement number in the low bits of a word. */
  function Signed14(word: U16): int {
    if word % 0x4000 < 0x2000 then word % 0x4000 else word % 0x4000 - 0x4000
  }

  /** Shifting to the top of 16 bits and dividing back is sign extension. */
  method DecodeAccel(word: U16) returns (a: I16)
    ensures a == Signed14(word)
  {
    var shifted: I16 := WrapI16(word % 0x4000 * 4);
    a := TruncDiv(shifted, 4);
  }

  // ----- Elevation speed

  function Sum(xs: seq<int>): int { if xs == [] then 0 else Sum(xs[..|xs| - 1]) + xs[|xs| - 1] }

  lemma SumSnoc(xs: seq<int>, x: int)
    ensures Sum(xs + [x]) == Sum(xs) + x
  {
    assert (xs + [x])[..|xs|] == xs;
  }

  /** One gyro reading against the zero in force. */
  function Term(rotY: U12, zero: U12): int { -(rotY - zero) * 11 }

  datatype Gyro = Gyro(accu: int, cntr: nat, elSpd: I16, zero: U12, published: seq<I16>)

  const START: Gyro := Gyro(0, 0, 0, 2070, [])

  function OnSample(g: Gyro, rotY: U12): Gyro {
    var accu := g.accu + Term(rotY, g.zero);
    var cntr := g.cntr + 1;
    if cntr >= BLOCK then
      var spd := WrapI16(TruncDiv(accu, cntr));
      Gyro(0, 0, spd, g.zero, g.published + [spd])
    else g.(accu := accu, cntr := cntr)
  }

  /** imu.c in its own form; `published` records the values elSpd has taken. */
  class Sensor {
    var accu: int
    var cntr: nat
    var imuElSpd: I16
    var imuRotY: U12
    var imuRotY0: U12
    ghost var published: seq<I16>

    ghost function View(): Gyro
      reads this
    {
      Gyro(accu, cntr, imuElSpd, imuRotY0, published)
    }

    constructor ()
      ensures View() == START && imuRotY == 0
    {
      accu, cntr, imuElSpd, imuRotY, imuRotY0, published := 0, 0, 0, 0, 2070, [];
    }

    method Sample(word: U16)
      modifies this
      ensures imuRotY == word % 0x1000
      ensures View() == OnSample(old(View()), word % 0x1000)
    {
      imuRotY := word % 0x1000;
      accu := accu + -(imuRotY - imuRotY0) * 11;
      cntr := cntr + 1;
      if cntr >= 5 {
        imuElSpd := WrapI16(TruncDiv(accu, cntr));
        published := published + [imuElSpd];
        accu, cntr := 0, 0;
      }
    }

    /** The zero becomes the mean of a hundred readings, each taken when its turn comes. */
    method Calibrate(readings: seq<U12>)
      requires |readings| == 100
      modifies this`imuRotY0
      ensures imuRotY0 == Mean(readings)
      ensures View() == old(View()).(zero := Mean(readings))
    {
      var total: int := 0;
      var i := 0;
      while i < 100
        invariant 0 <= i <= 100
        invariant total == Sum(readings[..i])
      {
        assert readings[..i + 1][..i] == readings[..i];
        total := total + readings[i];
        i := i + 1;
      }
      assert readings[..100] == readings;
      MeanBounded(readings, 0, 0xFFF);
      imuRotY0 := TruncDiv(total, 100);
    }
  }

  // ----- Calibration

  function Mean(readings: seq<U12>): int
    requires readings != []
  {
    Sum(readings) / |readings|
  }

  lemma {:induction false} SumBounded(xs: seq<int>, lo: int, hi: int)
    requires forall i | 0 <= i < |xs| :: lo <= xs[i] <= hi
    ensures lo * |xs| <= Sum(xs) <= hi * |xs|
    decreases |xs|
  {
    if xs == [] {
    } else {
      var n := |xs| - 1;
      SumBounded(xs[..n], lo, hi);
      OneMore(lo, n);
      OneMore(hi, n);
    }
  }

  lemma OneMore(x: int, n: nat)
    ensures x * (n + 1) == x * n + x
  {}

  /** The new zero lies between the smallest and the largest reading. */
  lemma MeanBounded(readings: seq<U12>, lo: int, hi: int)
    requires |readings| == 100
    requires forall i | 0 <= i < |readings| :: lo <= readings[i] <= hi
    ensures lo <= Mean(readings) <= hi
    ensures 0 <= Mean(readings) < 0x1000
    ensures Sum(readings) >= 0 && 100 * Mean(readings) <= Sum(readings) < 100 * Mean(readings) + 100
  {
    SumBounded(readings, lo, hi);
    SumBounded(readings, 0, 0xFFF);
  }

  // ----- Every schedule of samples and recalibrations

  datatype Event = Sampled(rotY: U12) | Zeroed(zero: U12)

  function Run(es: seq<Event>): Gyro
    decreases |es|
  {
    if es == [] then START
    else
      var g := Run(es[..|es| - 1]);
      match es[|es| - 1]
      case Sampled(y) => OnSample(g, y)
      case Zeroed(z) => g.(zero := z)
  }

  function ZeroAfter(es: seq<Event>): U12
    decreases |es|
  {
    if es == [] then 2070
    else match es[|es| - 1] case Zeroed(z) => z case Sampled(_) => ZeroAfter(es[..|es| - 1])
  }

  /** The samples of a schedule, each with the zero in force when it was taken. */
  function Samples(es: seq<Event>): seq<(U12, U12)>
    decreases |es|
  {
    if es == [] then []
    else
      var front := es[..|es| - 1];
      Samples(front) + (match es[|es| - 1] case Sampled(y) => [(y, ZeroAfter(front))] case Zeroed(_) => [])
  }

  function Terms(ss: seq<(U12, U12)>): seq<int> {
    seq(|ss|, i requires 0 <= i < |ss| => Term(ss[i].0, ss[i].1))
  }

  /** The truncated mean of each complete block of five, narrowed to 16 bits. */
  function BlockMeans(ts: seq<int>): seq<I16> {
    seq(|ts| / BLOCK, b requires 0 <= b < |ts| / BLOCK => WrapI16(TruncDiv(Sum(ts[BLOCK * b..BLOCK * b + BLOCK]), BLOCK)))
  }

  /** The samples of the block not yet complete. */
  function OpenBlock(ts: seq<int>): seq<int> { ts[|ts| - |ts| % BLOCK..] }

  /** The machine's state in terms of the samples so far. */
  ghost predicate Averages(g: Gyro, ts: seq<int>) { AveragesOf(g, BlockMeans(ts), Sum(OpenBlock(ts)), |ts|) }

  ghost predicate AveragesOf(g: Gyro, means: seq<I16>, open: int, n: nat) {
    && g.published == means
    && g.accu == open
    && g.cntr == n % BLOCK
    && (g.published != [] ==> g.elSpd == g.published[|g.published| - 1])
  }

  lemma SampleAverages(g: Gyro, ts: seq<int>, rotY: U12)
    requires Averages(g, ts)
    ensures Averages(OnSample(g, rotY), ts + [Term(rotY, g.zero)])
  {
    var t := Term(rotY, g.zero);
    BlocksGrow(ts, t);
    SumSnoc(OpenBlock(ts), t);
    if |ts| % BLOCK < BLOCK - 1 {
      BlockContinued(g, BlockMeans(ts), Sum(OpenBlock(ts)), |ts|, rotY);
    } else {
      BlockCompleted(g, BlockMeans(ts), Sum(OpenBlock(ts)), |ts|, rotY);
    }
  }

  lemma BlockContinued(g: Gyro, means: seq<I16>, open: int, n: nat, rotY: U12)
    requires AveragesOf(g, means, open, n) && n % BLOCK < BLOCK - 1
    ensures AveragesOf(OnSample(g, rotY), means, open + Term(rotY, g.zero), n + 1)
  {}

  lemma BlockCompleted(g: Gyro, means: seq<I16>, open: int, n: nat, rotY: U12)
    requires AveragesOf(g, means, open, n) && n % BLOCK == BLOCK - 1
    ensures AveragesOf(OnSample(g, rotY), means + [WrapI16(TruncDiv(open + Term(rotY, g.zero), BLOCK))], 0, n + 1)
  {}

  lemma BlocksGrow(ts: seq<int>, t: int)
    ensures |ts| % BLOCK < BLOCK - 1 ==>
              BlockMeans(ts + [t]) == BlockMeans(ts) && OpenBlock(ts + [t]) == OpenBlock(ts) + [t]
    ensures |ts| % BLOCK == BLOCK - 1 ==>
              && BlockMeans(ts + [t]) == BlockMeans(ts) + [WrapI16(TruncDiv(Sum(OpenBlock(ts) + [t]), BLOCK))]
              && OpenBlock(ts + [t]) == []
  {
    var ts' := ts + [t];
    forall b | 0 <= b < |ts| / BLOCK
      ensures ts'[BLOCK * b..BLOCK * b + BLOCK] == ts[BLOCK * b..BLOCK * b + BLOCK]
    {}
    if |ts| % BLOCK == BLOCK - 1 {
      assert ts'[BLOCK * (|ts| / BLOCK)..BLOCK * (|ts| / BLOCK) + BLOCK] == OpenBlock(ts) + [t];
    }
  }

  /**
   * For every schedule the elevation speed is published once per disjoint
   * block of five samples, as the truncated mean of the block, each sample
   * taken against the zero in force at its time.
   */
  lemma {:induction false} PublishesBlockMeans(es: seq<Event>)
    ensures Averages(Run(es), Terms(Samples(es)))
    ensures |Run(es).published| == |Samples(es)| / 5
    ensures Run(es).zero == ZeroAfter(es)
    decreases |es|
  {
    if es == [] {
    } else {
      var front := es[..|es| - 1];
      PublishesBlockMeans(front);
      match es[|es| - 1]
      case Sampled(y) =>
        TermsSnoc(Samples(front), y, ZeroAfter(front));
        SampleAverages(Run(front), Terms(Samples(front)), y);
      case Zeroed(z) =>
        assert Samples(es) == Samples(front);
        ZeroKeepsAverages(Run(front), Terms(Samples(front)), z);
    }
  }

  lemma TermsSnoc(ss: seq<(U12, U12)>, rotY: U12, zero: U12)
    ensures Terms(ss + [(rotY, zero)]) == Terms(ss) + [Term(rotY, zero)]
  {}

  lemma ZeroKeepsAverages(g: Gyro, ts: seq<int>, zero: U12)
    requires Averages(g, ts)
    ensures Averages(g.(zero := zero), ts)
  {}

  /** The first five samples after a publication, by their readings: the speed is their mean deviation times eleven. */
  lemma BlockOfFive(g: Gyro, y0: U12, y1: U12, y2: U12, y3: U12, y4: U12, q: int)
    requires g.accu == 0 && g.cntr == 0
    requires var m := 11 * (5 * g.zero - y0 - y1 - y2 - y3 - y4);
             && 5 * q <= Abs(m) < 5 * q + 5 && q < 0x8000
    ensures var four := OnSample(OnSample(OnSample(OnSample(g, y0), y1), y2), y3);
            && four.elSpd == g.elSpd
            && OnSample(four, y4).elSpd == if 5 * g.zero < y0 + y1 + y2 + y3 + y4 then -q else q
  {
    var one := OnSample(g, y0);
    assert one == g.(accu := 11 * (g.zero - y0), cntr := 1);
    var two := OnSample(one, y1);
    assert two == g.(accu := 11 * (2 * g.zero - y0 - y1), cntr := 2);
    var three := OnSample(two, y2);
    assert three == g.(accu := 11 * (3 * g.zero - y0 - y1 - y2), cntr := 3);
    var four := OnSample(three, y3);
    assert four == g.(accu := 11 * (4 * g.zero - y0 - y1 - y2 - y3), cntr := 4);
    FifthSample(four, y4, 11 * (5 * g.zero - y0 - y1 - y2 - y3 - y4), q);
  }

  lemma FifthSample(g: Gyro, y: U12, m: int, q: int)
    requires g.cntr == 4 && m == g.accu + 11 * (g.zero - y)
    requires 5 * q <= Abs(m) < 5 * q + 5 && q < 0x8000
    ensures OnSample(g, y).elSpd == if m < 0 then -q else q
  {
    FifthOf(m, q);
  }

  lemma FifthOf(m: int, q: int)
    requires 5 * q <= Abs(m) < 5 * q + 5 && q < 0x8000
    ensures WrapI16(TruncDiv(m, 5)) == if m < 0 then -q else q
  {}

  /** Five samples with readings from lo to hi, against any zeros. */
  ghost predicate Block(ss: seq<(U12, U12)>, lo: U12, hi: U12) {
    |ss| == BLOCK && forall i | 0 <= i < |ss| :: lo <= ss[i].0 <= hi
  }

  /** The mean of a block before it is narrowed. */
  function ExactMean(ss: seq<(U12, U12)>): int { TruncDiv(Sum(Terms(ss)), BLOCK) }

  ghost predicate Fits(ss: seq<(U12, U12)>) { WrapI16(ExactMean(ss)) == ExactMean(ss) }

  lemma MeanRange(ss: seq<(U12, U12)>, lo: U12, hi: U12)
    requires Block(ss, lo, hi)
    ensures -11 * hi <= ExactMean(ss) <= 11 * (0xFFF - lo)
  {
    var ts := Terms(ss);
    assert forall i | 0 <= i < |ts| :: -11 * hi <= ts[i] <= 11 * (0xFFF - lo);
    SumBounded(ts, -11 * hi, 11 * (0xFFF - lo));
  }

  /** Five equal samples. */
  function Constant(rotY: U12, zero: U12): seq<(U12, U12)> { seq(BLOCK, _ => (rotY, zero)) }

  lemma ConstantMean(rotY: U12, zero: U12)
    ensures ExactMean(Constant(rotY, zero)) == 11 * (zero - rotY)
  {
    var ts := Terms(Constant(rotY, zero));
    assert forall i | 0 <= i < |ts| :: ts[i] == Term(rotY, zero);
    SumBounded(ts, Term(rotY, zero), Term(rotY, zero));
  }

  /** The windows of readings in which no block can overflow 16 bits are exactly those within 1117..2978. */
  lemma BlocksFitIff(lo: U12, hi: U12)
    requires lo <= hi
    ensures (forall ss | Block(ss, lo, hi) :: Fits(ss)) <==> 1117 <= lo && hi <= 2978
  {
    if 1117 <= lo && hi <= 2978 {
      forall ss | Block(ss, lo, hi)
        ensures Fits(ss)
      {
        MeanRange(ss, lo, hi);
      }
    } else {
      var ss := if lo < 1117 then Constant(lo, 0xFFF) else Constant(hi, 0);
      if lo < 1117 { ConstantMean(lo, 0xFFF); } else { ConstantMean(hi, 0); }
      assert Block(ss, lo, hi) && !Fits(ss);
    }
  }

  /** So no block whose readings all pass the failsafe window overflows. */
  lemma BlockWithinWindowFits(ss: seq<(U12, U12)>)
    requires Block(ss, 1270, 2870)
    ensures Fits(ss) && -31570 <= ExactMean(ss) <= 31075
  {
    BlocksFitIff(1270, 2870);
    MeanRange(ss, 1270, 2870);
  }
}
