/** The retransmission timer of pkg/applications/tcp/socket.go: updateRTO over every sequence of round
    trip samples. Durations are whole nanoseconds; the weighted sums are exact and then truncated. */
module Timer {
  const RTO_MIN := 50_000
  const RTO_MAX := 200_000
  const FIRST_SRTT := 5_000_000
  const FIRST_RTO := 500_000

  function Smooth(srtt: nat, sample: nat): nat
  {
    var x := srtt as real * 0.85 + sample as real * 0.15;
    x.Floor
  }

  function Timeout(srtt: nat): nat
  {
    var x := (srtt as real * 1.65).Floor;
    if x < RTO_MIN then RTO_MIN else if x < RTO_MAX then x else RTO_MAX
  }

  /** The smoothed time is 85% of the old and 15% of the sample, rounded down. */
  lemma SmoothLaw(srtt: nat, sample: nat)
    ensures 20 * Smooth(srtt, sample) <= 17 * srtt + 3 * sample < 20 * Smooth(srtt, sample) + 20
  {
    var x := srtt as real * 0.85 + sample as real * 0.15;
    assert 20.0 * x == (17 * srtt + 3 * sample) as real;
  }

  /** The timeout is 165% of the smoothed time, rounded down, between 50us and 200us: exactly the
      smoothed times below 30304ns get the least timeout and those from 121213ns on the greatest. */
  lemma TimeoutLaw(srtt: nat)
    ensures var t := Timeout(srtt);
            if srtt < 30_304 then t == 50_000
            else if srtt >= 121_213 then t == 200_000
            else 100 * t <= 165 * srtt < 100 * t + 100
  {
    var x := srtt as real * 1.65;
    assert 100.0 * x == (165 * srtt) as real;
    assert 100 * x.Floor <= 165 * srtt < 100 * x.Floor + 100;
  }

  class RetransmissionTimer {
    var srtt: nat
    var rto: nat

    constructor ()
      ensures srtt == 5_000_000 && rto == 500_000
    {
      srtt, rto := FIRST_SRTT, FIRST_RTO;
    }

    method UpdateRTO(sample: nat)
      modifies this
      ensures srtt == Smooth(old(srtt), sample) && rto == Timeout(srtt)
      ensures 20 * srtt <= 17 * old(srtt) + 3 * sample < 20 * srtt + 20
      ensures 30_304 <= srtt < 121_213 ==> 100 * rto <= 165 * srtt < 100 * rto + 100
      ensures (srtt < 30_304 ==> rto == 50_000) && (srtt >= 121_213 ==> rto == 200_000)
    {
      var weighted := srtt as real * 0.85 + sample as real * (1.0 - 0.85);
      srtt := weighted.Floor;
      var scaled := (srtt as real * 1.65).Floor;
      rto := MaxTime(RTO_MIN, MinTime(scaled, RTO_MAX));
      SmoothLaw(old(srtt), sample);
      TimeoutLaw(srtt);
    }
  }

  function MinTime(a: nat, b: nat): nat
  {
    if a < b then a else b
  }

  function MaxTime(a: nat, b: nat): nat
  {
    if a > b then a else b
  }

  function Smoothed(srtt: nat, samples: seq<nat>): nat
    decreases |samples|
  {
    if samples == [] then srtt else Smoothed(Smooth(srtt, samples[0]), samples[1..])
  }

  lemma {:induction false} SmoothedBetween(srtt: nat, samples: seq<nat>, lo: nat, hi: nat)
    requires lo <= srtt <= hi && forall i :: 0 <= i < |samples| ==> lo <= samples[i] <= hi
    ensures lo <= Smoothed(srtt, samples) <= hi
    decreases |samples|
  {
    if samples == [] {
    } else {
      SmoothedBetween(Smooth(srtt, samples[0]), samples[1..], lo, hi);
    }
  }

  /** After any non-empty sequence of samples the smoothed time lies within every range that holds
      5ms and all samples, and the timeout within 50us and 200us, where it did not start. */
  lemma TimerBounds(samples: seq<nat>, lo: nat, hi: nat)
    requires samples != [] && lo <= FIRST_SRTT <= hi
    requires forall i :: 0 <= i < |samples| ==> lo <= samples[i] <= hi
    ensures lo <= Smoothed(FIRST_SRTT, samples) <= hi
    ensures 50_000 <= Timeout(Smoothed(FIRST_SRTT, samples)) <= 200_000 < FIRST_RTO
  {
    SmoothedBetween(FIRST_SRTT, samples, lo, hi);
  }

  // ----- steady traffic --------------------------------------------------------------------

  /** One sample at c: from above the smoothed time falls but not below c; from more than 6ns below it
      rises but not above c; in the last 6ns the truncation holds it where it is. */
  lemma TowardsSample(srtt: nat, c: nat)
    ensures srtt > c ==> c <= Smooth(srtt, c) < srtt
    ensures srtt < c - 6 ==> srtt < Smooth(srtt, c) <= c
    ensures c - 6 <= srtt <= c ==> Smooth(srtt, c) == srtt
  {
    var x := srtt as real * 0.85 + c as real * 0.15;
    assert x == srtt as real + (c - srtt) as real * 0.15;
    if srtt > c {
      assert c as real <= x < srtt as real;
    } else if srtt < c - 6 {
      assert (c - srtt) as real >= 7.0;
      assert srtt as real + 1.0 <= x <= c as real;
    } else {
      assert (c - srtt) as real <= 6.0;
      assert srtt as real <= x < srtt as real + 1.0;
    }
  }

  predicate Steady(samples: seq<nat>, c: nat)
  {
    forall i :: 0 <= i < |samples| ==> samples[i] == c
  }

  /** Under steady samples c the smoothed time settles in [c - 6, c], for good, after no more samples
      than it was nanoseconds away. */
  lemma {:induction false} SettlesUnderSteadySamples(srtt: nat, samples: seq<nat>, c: nat)
    requires Steady(samples, c) && |samples| >= (if srtt < c then c - srtt else srtt - c)
    ensures c - 6 <= Smoothed(srtt, samples) <= c
    decreases |samples|
  {
    if samples == [] {
    } else {
      TowardsSample(srtt, c);
      if c - 6 <= srtt <= c {
        StaysSettled(srtt, samples, c);
      } else {
        SettlesUnderSteadySamples(Smooth(srtt, samples[0]), samples[1..], c);
      }
    }
  }

  lemma {:induction false} StaysSettled(srtt: nat, samples: seq<nat>, c: nat)
    requires Steady(samples, c) && c - 6 <= srtt <= c
    ensures Smoothed(srtt, samples) == srtt
    decreases |samples|
  {
    if samples == [] {
    } else {
      TowardsSample(srtt, c);
      StaysSettled(srtt, samples[1..], c);
    }
  }
}
