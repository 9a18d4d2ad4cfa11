// Decoding a bit from probe latencies: a threshold halfway between two calibration means.
module Decoding {
  import opened Counting
  import opened Wrappers

  datatype Model = Model(zeroMean: real, oneMean: real, threshold: real, highIsOne: bool)

  function Mean(xs: seq<real>): real
    requires xs != []
  {
    Sum(xs) / |xs| as real
  }

  // The mean of one value is the value, and a joined sample weighs each part by its size.
  lemma MeanOfJoined(x: real, a: seq<real>, b: seq<real>)
    requires a != [] && b != []
    ensures Mean([x]) == x
    ensures Mean(a + b) * |a + b| as real == Mean(a) * |a| as real + Mean(b) * |b| as real
  {
    assert [x][..0] == [];
    SumConcat(a, b);
    MeanTimes(a);
    MeanTimes(b);
    MeanTimes(a + b);
  }

  lemma MeanTimes(xs: seq<real>)
    requires xs != []
    ensures Mean(xs) * |xs| as real == Sum(xs)
  {
  }

  function Calibrated(zero: seq<real>, one: seq<real>): Model
    requires zero != [] && one != []
  {
    Model(Mean(zero), Mean(one), (Mean(zero) + Mean(one)) / 2.0, Mean(one) >= Mean(zero))
  }

  function Decide(m: Model, x: real): nat {
    var high := x >= m.threshold;
    if high == m.highIsOne then 1 else 0
  }

  function Decode(m: Model, latencies: seq<real>): Option<nat> {
    if latencies == [] then None else Some(Decide(m, Mean(latencies)))
  }

  function Distance(x: real, y: real): real { if x < y then y - x else x - y }

  // The decoder picks the bit whose calibration mean is nearer.  At equal distance it picks the bit with
  // the higher mean, and one when the means coincide.
  lemma NearestMean(zero: seq<real>, one: seq<real>, latencies: seq<real>)
    requires zero != [] && one != [] && latencies != []
    ensures var (m, x) := (Calibrated(zero, one), Mean(latencies));
            Decode(m, latencies) ==
              if m.zeroMean == m.oneMean then Some(if x >= m.oneMean then 1 else 0)
              else if Distance(x, m.oneMean) < Distance(x, m.zeroMean) then Some(1)
              else if Distance(x, m.oneMean) > Distance(x, m.zeroMean) then Some(0)
              else Some(if m.oneMean > m.zeroMean then 1 else 0)
  {
    hide Mean;
    var m, x := Calibrated(zero, one), Mean(latencies);
    assert m.threshold * 2.0 == m.zeroMean + m.oneMean;
  }

  // The calibration samples themselves are decoded right, except that zero samples are decoded as one
  // when the two means coincide.
  lemma OwnSamples(zero: seq<real>, one: seq<real>)
    requires zero != [] && one != []
    ensures Decode(Calibrated(zero, one), one) == Some(1)
    ensures Decode(Calibrated(zero, one), zero) == Some(0) <==> Mean(zero) != Mean(one)
  {
    NearestMean(zero, one, zero);
    NearestMean(zero, one, one);
  }
}
