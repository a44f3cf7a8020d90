/** Round-trip time from a receiver report (section 6.4.1 of RFC 3550), in compact NTP ticks of
    1/65536 second. */
module Rtt {
  import opened Bytes

  const TICKS := 65536

  function CompactFromElapsed(elapsedNs: int): u32 {
    var micros := if elapsedNs >= 0 then elapsedNs / 1000 else -(-elapsedNs / 1000);
    if micros <= 0 then 0 else micros * TICKS / 1_000_000 % TWO_32
  }

  function CompactToMs(compact: u32): u32 {
    (compact * 1000 + 65535) / TICKS % TWO_32
  }

  /** `sr` is the compact NTP of the sender report forwarded at time `observedNs`; the receiver's report,
      seen at `nowNs`, echoes it as `lsr` with its own delay `dlsr` in ticks. */
  function ComputeRttMs(sr: u32, observedNs: int, lsr: u32, dlsr: u32, nowNs: int): u32 {
    if sr == 0 || lsr == 0 || sr != lsr || nowNs <= observedNs then 0
    else
      var arrival := (sr + CompactFromElapsed(nowNs - observedNs)) % TWO_32;
      var reflected := lsr + dlsr;
      if arrival <= reflected then 0 else CompactToMs(arrival - reflected)
  }

  /** The true round trip in milliseconds: elapsed time less the receiver's delay. */
  function TrueRttMs(elapsedNs: int, dlsr: u32): real {
    elapsedNs as real / 1000000.0 - dlsr as real * 1000.0 / 65536.0
  }

  /** Elapsed ticks, before any wrap. */
  function Ticks(elapsedNs: int): int {
    elapsedNs / 1000 * TICKS / 1_000_000
  }

  lemma TicksBounds(elapsedNs: int)
    requires 0 < elapsedNs
    ensures Ticks(elapsedNs) * 1_000_000 <= elapsedNs / 1000 * TICKS < (Ticks(elapsedNs) + 1) * 1_000_000
    ensures elapsedNs / 1000 * 1000 <= elapsedNs < elapsedNs / 1000 * 1000 + 1000
    ensures elapsedNs < 65536 * 1_000_000_000 ==> 0 <= Ticks(elapsedNs) < TWO_32
  {
  }

  lemma MsBounds(compact: u32)
    ensures CompactToMs(compact) * TICKS - 65536 < compact * 1000 <= CompactToMs(compact) * TICKS
  {
    assert (compact * 1000 + 65535) / TICKS < TWO_32;
  }

  /** The true round trip in units of 1/65536 nanosecond, which keeps everything below in integers. */
  function Scaled(elapsedNs: int, dlsr: u32): int {
    elapsedNs * 65536 - dlsr * 1_000_000_000
  }

  lemma ScaledIsTrue(elapsedNs: int, dlsr: u32)
    ensures TrueRttMs(elapsedNs, dlsr) == Scaled(elapsedNs, dlsr) as real / 65536000000.0
  {
  }

  lemma RttWithoutWrap(sr: u32, observedNs: int, dlsr: u32, nowNs: int)
    requires sr != 0 && 0 < nowNs - observedNs < 65536 * 1_000_000_000
    requires sr + Ticks(nowNs - observedNs) < TWO_32
    ensures var ticks := Ticks(nowNs - observedNs);
            ComputeRttMs(sr, observedNs, sr, dlsr, nowNs) == if ticks > dlsr then CompactToMs(ticks - dlsr) else 0
  {
    TicksBounds(nowNs - observedNs);
    assert CompactFromElapsed(nowNs - observedNs) == Ticks(nowNs - observedNs);
  }

  /** What the tick count leaves of the elapsed time, and what rounding up to milliseconds adds back. */
  function Lag(elapsedNs: int): int {
    elapsedNs * 65536 - Ticks(elapsedNs) * 1_000_000_000
  }

  function Slack(elapsedNs: int, dlsr: u32): int {
    (dlsr - Ticks(elapsedNs)) * 1000 % 65536 * 1_000_000
  }

  lemma LagBounds(elapsedNs: int)
    requires 0 < elapsedNs
    ensures 0 <= Lag(elapsedNs) < 1_000_000_000 + 65_536_000
    ensures elapsedNs % 1000 == 0 ==> Lag(elapsedNs) < 1_000_000_000
  {
    TicksBounds(elapsedNs);
  }

  lemma CeilingSlack(compact: u32)
    ensures CompactToMs(compact) * 65536 == compact * 1000 + (0 - compact as int) * 1000 % 65536
  {
    MsBounds(compact);
    var up := CompactToMs(compact) * 65536 - compact * 1000;
    assert 0 <= up < 65536;
    assert (0 - compact as int) * 1000 - up == 65536 * (0 - CompactToMs(compact) as int);
  }

  /** The computed value is the true one, less the lag, plus the slack; or 0 when the ticks do not
      exceed the receiver's delay. */
  lemma RttScaled(sr: u32, observedNs: int, dlsr: u32, nowNs: int)
    requires sr != 0 && 0 < nowNs - observedNs < 65536 * 1_000_000_000
    requires sr + Ticks(nowNs - observedNs) < TWO_32
    ensures var elapsed := nowNs - observedNs;
            var rtt := ComputeRttMs(sr, observedNs, sr, dlsr, nowNs) * 65536000000;
            rtt == if Ticks(elapsed) > dlsr then Scaled(elapsed, dlsr) - Lag(elapsed) + Slack(elapsed, dlsr) else 0
  {
    RttWithoutWrap(sr, observedNs, dlsr, nowNs);
    TicksBounds(nowNs - observedNs);
    if Ticks(nowNs - observedNs) > dlsr {
      CeilingSlack(Ticks(nowNs - observedNs) - dlsr);
    }
  }

  /** Without a wrap of the compact clock, the computed value is within one millisecond above and one
      tick plus one microsecond below the true round trip, through two floors and one ceiling. When
      the elapsed time is a whole number of microseconds the microsecond disappears. */
  lemma RttIsAccurate(sr: u32, observedNs: int, dlsr: u32, nowNs: int)
    requires sr != 0 && 0 < nowNs - observedNs < 65536 * 1_000_000_000
    requires sr + Ticks(nowNs - observedNs) < TWO_32
    requires TrueRttMs(nowNs - observedNs, dlsr) >= 0.0
    ensures var rtt := ComputeRttMs(sr, observedNs, sr, dlsr, nowNs) as real;
            var truth := TrueRttMs(nowNs - observedNs, dlsr);
            && rtt < truth + 1.0
            && rtt > truth - 1000.0 / 65536.0 - 0.001
            && ((nowNs - observedNs) % 1000 == 0 ==> rtt > truth - 1000.0 / 65536.0)
  {
    var elapsed := nowNs - observedNs;
    RttScaled(sr, observedNs, dlsr, nowNs);
    LagBounds(elapsed);
    ScaledIsTrue(elapsed, dlsr);
  }

  /** Once the compact clock wraps between the two reports, every round trip is reported as 0. */
  lemma WrapReportsZero(sr: u32, observedNs: int, dlsr: u32, nowNs: int)
    requires 0 < nowNs - observedNs < 65536 * 1_000_000_000
    requires sr + Ticks(nowNs - observedNs) >= TWO_32
    ensures ComputeRttMs(sr, observedNs, sr, dlsr, nowNs) == 0
  {
    TicksBounds(nowNs - observedNs);
    assert CompactFromElapsed(nowNs - observedNs) == Ticks(nowNs - observedNs);
  }

  /** A nanosecond clock can lose more than a tick, since the elapsed time is cut to microseconds first. */
  lemma SubMicrosecondLosesMore()
    ensures ComputeRttMs(1, 0, 1, 0, 125_015_999) as real < TrueRttMs(125_015_999, 0) - 1000.0 / 65536.0
  {
    assert CompactFromElapsed(125_015_999) == 8192;
    assert ComputeRttMs(1, 0, 1, 0, 125_015_999) == 125;
    ScaledIsTrue(125_015_999, 0);
  }

  /** The reported value is less than one tick below the true one exactly when the round trip is below
      one tick, or the compact clock did not wrap and rounding up to milliseconds covers the lag. */
  lemma LowerBoundIff(sr: u32, observedNs: int, dlsr: u32, nowNs: int)
    requires sr != 0 && 0 < nowNs - observedNs < 65536 * 1_000_000_000
    requires TrueRttMs(nowNs - observedNs, dlsr) >= 0.0
    ensures var elapsed := nowNs - observedNs; var truth := TrueRttMs(elapsed, dlsr);
            ComputeRttMs(sr, observedNs, sr, dlsr, nowNs) as real > truth - 1000.0 / 65536.0 <==>
            (truth < 1000.0 / 65536.0
             || (sr + Ticks(elapsed) < TWO_32 && Lag(elapsed) < 1_000_000_000 + Slack(elapsed, dlsr)))
  {
    var elapsed := nowNs - observedNs;
    LagBounds(elapsed);
    ScaledIsTrue(elapsed, dlsr);
    if sr + Ticks(elapsed) < TWO_32 {
      RttScaled(sr, observedNs, dlsr, nowNs);
    } else {
      WrapReportsZero(sr, observedNs, dlsr, nowNs);
    }
  }

  /** A report that echoes another sender report, or none, or comes before it, tells nothing. */
  lemma UnmatchedReportsZero(sr: u32, observedNs: int, lsr: u32, dlsr: u32, nowNs: int)
    requires sr == 0 || lsr == 0 || lsr != sr || nowNs <= observedNs
    ensures ComputeRttMs(sr, observedNs, lsr, dlsr, nowNs) == 0
  {
  }
}
