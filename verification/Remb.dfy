/** Receiver estimated maximum bitrate: the exponent/mantissa coding, the packet and its parser. */
module Remb {
  import opened Bytes
  import opened RtcpHandler

  const TWO_18 := 0x4_0000
  const TWO_64 := 0x1_0000_0000_0000_0000
  const MAX_KBPS := 4294967

  // ----- coding a bitrate -----

  /** `q` is the least multiplier of `d` that reaches `b`. */
  predicate Covers(b: nat, d: nat, q: nat) {
    b <= q * d && (q == 0 || (q - 1) * d < b)
  }

  lemma HalvingCovers(b: nat, d: nat, q: nat)
    requires Covers(b, d, q)
    ensures Covers(b, 2 * d, (q + 1) / 2)
  {
    var h := (q + 1) / 2;
    assert q <= 2 * h <= q + 1;
    assert q * d <= 2 * h * d by { MulMono(q, 2 * h, d); }
    if h > 0 {
      MulMono(2 * (h - 1), q - 1, d);
    }
  }

  lemma MulMono(x: int, y: int, d: nat)
    requires x <= y
    ensures x * d <= y * d
  {
  }

  lemma Pow2Of15()
    ensures Pow2(15) == 0x8000
  {
    assert Pow2(8) == 256;
    assert Pow2(12) == 4096;
  }

  lemma LargeRate(b: nat, d: nat, q: nat)
    requires Covers(b, d, q) && q > 0x3FFFF && d > 0
    ensures (TWO_18 - 1) * d < b && q <= b
  {
    MulMono(TWO_18 - 1, q - 1, d);
    MulMono(1, d, q - 1);
  }

  /** One halving step: it still covers, it has not wrapped, and the bitrate is known to be large. */
  lemma EncodeStep(b: nat, exp: nat, q: nat)
    requires Covers(b, Pow2(exp), q) && q > 0x3FFFF && b < TWO_32 - 1 && exp <= 15
    ensures Covers(b, Pow2(exp + 1), (q + 1) / 2)
    ensures (TWO_18 - 1) * Pow2(exp) < b && q <= b && exp < 15
  {
    HalvingCovers(b, Pow2(exp), q);
    LargeRate(b, Pow2(exp), q);
    if exp == 15 {
      Pow2Of15();
      assert false;
    }
  }

  /** What holds after `exp` halvings; the largest 32-bit rate wraps to 0 on the first. */
  predicate Coded(bps: u32, exp: nat, q: u32) {
    if bps == TWO_32 - 1 then (exp == 0 && q == bps) || (exp == 1 && q == 0)
    else
      && exp <= 15 && Covers(bps, Pow2(exp), q)
      && (if exp == 0 then q == bps else bps >= TWO_18 && (TWO_18 - 1) * Pow2(exp - 1) < bps)
  }

  lemma CodedStep(bps: u32, exp: nat, q: u32)
    requires Coded(bps, exp, q) && q > 0x3FFFF
    ensures Coded(bps, exp + 1, (q + 1) % TWO_32 / 2) && exp < 15
  {
    if bps != TWO_32 - 1 {
      EncodeStep(bps, exp, q);
      assert (q + 1) % TWO_32 == q + 1;
      assert bps >= TWO_18 by {
        MulMono(1, Pow2(exp), TWO_18 - 1);
      }
    }
  }

  /** Halves the mantissa, rounding up in 32 bits, until it fits 18 bits. The mantissa times 2^exp is
      the least multiple of 2^exp not below the bitrate; it is exact below 2^18 and otherwise
      overshoots by less than 2b / (2^18 - 1). Only the largest 32-bit value defeats the rounding. */
  method EncodeRembBitrate(bps: u32) returns (exp: nat, mantissa: u32)
    ensures exp <= 15 && mantissa < TWO_18
    ensures bps != TWO_32 - 1 ==> Covers(bps, Pow2(exp), mantissa)
    ensures bps < TWO_18 ==> exp == 0 && mantissa == bps
    ensures bps != TWO_32 - 1 && bps >= TWO_18 ==> (mantissa * Pow2(exp) - bps) * (TWO_18 - 1) < 2 * bps
    ensures bps == TWO_32 - 1 ==> exp == 1 && mantissa == 0
  {
    exp, mantissa := Halve(bps);
    CodedDone(bps, exp, mantissa);
    mantissa := mantissa % TWO_18;
  }

  method Halve(bps: u32) returns (exp: nat, mantissa: u32)
    ensures exp <= 15 && mantissa < TWO_18 && Coded(bps, exp, mantissa)
  {
    exp, mantissa := 0, bps;
    while mantissa > 0x3FFFF && exp < 63
      invariant exp <= 15 && Coded(bps, exp, mantissa)
      decreases 63 - exp
    {
      CodedStep(bps, exp, mantissa);
      mantissa := (mantissa + 1) % TWO_32 / 2;
      exp := exp + 1;
    }
  }

  lemma CodedDone(bps: u32, exp: nat, q: u32)
    requires Coded(bps, exp, q) && q < TWO_18
    ensures bps != TWO_32 - 1 && bps >= TWO_18 ==> (q * Pow2(exp) - bps) * (TWO_18 - 1) < 2 * bps
    ensures bps < TWO_18 ==> exp == 0 && q == bps
    ensures bps == TWO_32 - 1 ==> exp == 1 && q == 0
  {
    if bps != TWO_32 - 1 && exp > 0 {
      Overshoot(bps, exp, q);
    }
  }

  lemma Overshoot(b: nat, exp: nat, q: nat)
    requires exp > 0 && Covers(b, Pow2(exp), q) && (TWO_18 - 1) * Pow2(exp - 1) < b
    ensures (q * Pow2(exp) - b) * (TWO_18 - 1) < 2 * b
  {
    var d := Pow2(exp);
    assert q * d - b < d by { assert q > 0; assert (q - 1) * d == q * d - d; }
    MulMono(q * d - b, d, TWO_18 - 1);
  }

  // ----- the packet -----

  function BuildRembPacket(sender: u32, media: u32, exp: nat, mantissa: nat, target: u32): seq<byte> {
    var capped := mantissa % TWO_18;
    [0x8F, 0xCE, 0x00, 0x05] + WriteU32(sender) + WriteU32(media) +
    ['R' as int, 'E' as int, 'M' as int, 'B' as int] +
    [1, exp % 64 * 4 + capped / 0x1_0000, capped / 256 % 256, capped % 256] + WriteU32(target)
  }

  datatype Feedback = Feedback(senderSsrc: u32, mediaSsrc: u32, exp: nat, mantissa: nat, bps: u32, targets: seq<u32>)

  function Rate(exp: nat, mantissa: nat): nat {
    mantissa * Pow2(exp)
  }

  function Saturated(rate: nat): u32 {
    if rate > TWO_32 - 1 then TWO_32 - 1 else rate
  }

  /** The 64-bit shift, capped to 32 bits. */
  function Bps(exp: nat, mantissa: nat): u32 {
    Saturated(Rate(exp, mantissa) % TWO_64)
  }

  function Targets(data: seq<byte>, at: nat, count: nat): seq<u32>
    requires at + 4 * count <= |data|
  {
    if count == 0 then [] else Targets(data, at, count - 1) + [ReadU32(data, at + 4 * (count - 1))]
  }

  function FeedbackOf(data: seq<byte>, s: Summary): Option<Feedback>
    requires s.offset + s.size <= |data|
  {
    if s.kind != PSFB || s.fmt != 15 || s.size < 20 then None
    else
      var fci := s.offset + 12;
      if data[fci] != 'R' as int || data[fci + 1] != 'E' as int || data[fci + 2] != 'M' as int
         || data[fci + 3] != 'B' as int then None
      else
        var count := data[fci + 4] as int;
        if s.size < 20 + count * 4 || count == 0 then None
        else
          var exp := data[fci + 5] / 4;
          var mantissa := data[fci + 5] % 4 * 0x1_0000 + (data[fci + 6] as int) * 256 + data[fci + 7];
          Some(Feedback(ReadU32(data, s.offset + 4), ReadU32(data, s.offset + 8), exp, mantissa, Bps(exp, mantissa),
                        Targets(data, fci + 8, count)))
  }

  function Feedbacks(data: seq<byte>, ss: seq<Summary>): seq<Feedback>
    requires forall i | 0 <= i < |ss| :: ss[i].offset + ss[i].size <= |data|
  {
    if ss == [] then []
    else
      var f := FeedbackOf(data, ss[|ss| - 1]);
      Feedbacks(data, ss[..|ss| - 1]) + if f.Some? then [f.value] else []
  }

  function AllFeedbacks(data: seq<byte>): seq<Feedback> {
    CompoundTilesPrefix(data, 0);
    Feedbacks(data, Summaries(data, 0))
  }

  method ParseRembFeedback(data: seq<byte>) returns (rembs: seq<Feedback>)
    ensures rembs == AllFeedbacks(data)
  {
    var packets := ParseCompound(data);
    CompoundTilesPrefix(data, 0);
    rembs := [];
    var i := 0;
    while i < |packets|
      invariant 0 <= i <= |packets|
      invariant rembs == Feedbacks(data, packets[..i])
    {
      var f := FeedbackOf(data, packets[i]);
      assert packets[..i + 1][..i] == packets[..i];
      if f.Some? { rembs := rembs + [f.value]; }
      i := i + 1;
    }
    assert packets[..i] == packets;
  }

  // ----- a packet for any number of targets -----

  function RembHead(sender: u32, media: u32, exp: nat, mantissa: nat, n: nat): (d: seq<byte>)
    requires exp < 64 && mantissa < TWO_18 && n < 256
    ensures |d| == 20
  {
    [0x8F, 0xCE] + WriteU16(4 + n) + WriteU32(sender) + WriteU32(media) +
    ['R' as int, 'E' as int, 'M' as int, 'B' as int] +
    [n, exp * 4 + mantissa / 0x1_0000, mantissa / 256 % 256, mantissa % 256]
  }

  /** The REMB format: 6 bits of exponent, 18 of mantissa, and a counted list of targets. */
  function RembPacket(sender: u32, media: u32, exp: nat, mantissa: nat, targets: seq<u32>): seq<byte>
    requires exp < 64 && mantissa < TWO_18 && |targets| < 256
  {
    RembHead(sender, media, exp, mantissa, |targets|) + WriteWords(targets)
  }

  lemma HeadFields(sender: u32, media: u32, exp: nat, mantissa: nat, n: nat)
    requires exp < 64 && mantissa < TWO_18 && n < 256
    ensures var d := RembHead(sender, media, exp, mantissa, n);
            && d[0] == 0x8F && d[1] == 0xCE && ReadU16(d, 2) == 4 + n && ReadU32(d, 4) == sender
            && ReadU32(d, 8) == media
            && d[12] == 'R' as int && d[13] == 'E' as int && d[14] == 'M' as int && d[15] == 'B' as int && d[16] == n
  {
    var d := RembHead(sender, media, exp, mantissa, n);
    WriteReadU32(sender);
    WriteReadU32(media);
    ReadPlaced(d[..4], WriteU32(sender), d[8..], 0);
    assert d[..4] + WriteU32(sender) + d[8..] == d;
    ReadPlaced(d[..8], WriteU32(media), d[12..], 0);
    assert d[..8] + WriteU32(media) + d[12..] == d;
  }

  lemma HeadRate(sender: u32, media: u32, exp: nat, mantissa: nat, n: nat)
    requires exp < 64 && mantissa < TWO_18 && n < 256
    ensures var d := RembHead(sender, media, exp, mantissa, n);
            d[17] / 4 == exp && (d[17] % 4 * 0x1_0000) + (d[18] as int) * 256 + d[19] == mantissa
  {
    var d := RembHead(sender, media, exp, mantissa, n);
    assert d[17] == exp * 4 + mantissa / 0x1_0000 && d[18] == mantissa / 256 % 256 && d[19] == mantissa % 256;
    TopBits(exp, mantissa / 0x1_0000);
    MantissaBytes(mantissa);
  }

  lemma TopBits(exp: nat, top: nat)
    requires top < 4
    ensures (exp * 4 + top) / 4 == exp && (exp * 4 + top) % 4 == top
  {
  }

  lemma MantissaBytes(mantissa: nat)
    requires mantissa < TWO_18
    ensures mantissa / 0x1_0000 * 0x1_0000 + mantissa / 256 % 256 * 256 + mantissa % 256 == mantissa
  {
    assert mantissa / 256 == mantissa / 0x1_0000 * 256 + mantissa / 256 % 256;
  }

  lemma {:induction false} ReadTargets(head: seq<byte>, targets: seq<u32>, n: nat)
    requires n <= |targets|
    ensures Targets(head + WriteWords(targets), |head|, n) == targets[..n]
  {
    if n > 0 {
      ReadTargets(head, targets, n - 1);
      ReadWord(targets, n - 1);
      ReadPlaced(head, WriteWords(targets), [], 4 * (n - 1));
      assert head + WriteWords(targets) + [] == head + WriteWords(targets);
    }
  }

  lemma PacketBytes(head: seq<byte>, tail: seq<byte>, i: nat)
    requires i < |head|
    ensures (head + tail)[i] == head[i]
    ensures i + 2 <= |head| ==> ReadU16(head + tail, i) == ReadU16(head, i)
    ensures i + 4 <= |head| ==> ReadU32(head + tail, i) == ReadU32(head, i)
  {
  }

  lemma PacketSummary(sender: u32, media: u32, exp: nat, mantissa: nat, targets: seq<u32>)
    requires exp < 64 && mantissa < TWO_18 && |targets| < 256
    ensures var p, n := RembPacket(sender, media, exp, mantissa, targets), |targets|;
            Summaries(p, 0) == [Summary(PSFB, 15, 4 + n, sender, 0, 20 + 4 * n)]
  {
    var n := |targets|;
    var head, tail := RembHead(sender, media, exp, mantissa, n), WriteWords(targets);
    var p := head + tail;
    HeadFields(sender, media, exp, mantissa, n);
    PacketBytes(head, tail, 0);
    PacketBytes(head, tail, 1);
    PacketBytes(head, tail, 2);
    PacketBytes(head, tail, 4);
    assert SummaryAt(p, 0) == Some(Summary(PSFB, 15, 4 + n, sender, 0, 20 + 4 * n));
    assert Summaries(p, |p|) == [];
  }

  lemma PacketFeedback(sender: u32, media: u32, exp: nat, mantissa: nat, targets: seq<u32>)
    requires exp < 64 && mantissa < TWO_18 && 0 < |targets| < 256
    ensures var p, n := RembPacket(sender, media, exp, mantissa, targets), |targets|;
            FeedbackOf(p, Summary(PSFB, 15, 4 + n, sender, 0, 20 + 4 * n)) ==
            Some(Feedback(sender, media, exp, mantissa, Bps(exp, mantissa), targets))
  {
    var n := |targets|;
    var head, tail := RembHead(sender, media, exp, mantissa, n), WriteWords(targets);
    HeadFields(sender, media, exp, mantissa, n);
    HeadRate(sender, media, exp, mantissa, n);
    PacketBytes(head, tail, 4);
    PacketBytes(head, tail, 8);
    ReadTargets(head, targets, n);
    assert targets[..n] == targets;
  }

  /** Parsing inverts the format: any nonempty list of targets is read back, in order, with every field. */
  lemma ParseInvertsPacket(sender: u32, media: u32, exp: nat, mantissa: nat, targets: seq<u32>)
    requires exp < 64 && mantissa < TWO_18 && 0 < |targets| < 256
    ensures AllFeedbacks(RembPacket(sender, media, exp, mantissa, targets)) ==
            [Feedback(sender, media, exp, mantissa, Bps(exp, mantissa), targets)]
  {
    PacketSummary(sender, media, exp, mantissa, targets);
    PacketFeedback(sender, media, exp, mantissa, targets);
    var p, n := RembPacket(sender, media, exp, mantissa, targets), |targets|;
    OneFeedback(p, Summary(PSFB, 15, 4 + n, sender, 0, 20 + 4 * n),
                Feedback(sender, media, exp, mantissa, Bps(exp, mantissa), targets));
  }

  lemma BuiltIsPacket(sender: u32, media: u32, exp: nat, mantissa: nat, target: u32)
    requires exp < 64 && mantissa < TWO_18
    ensures BuildRembPacket(sender, media, exp, mantissa, target) == RembPacket(sender, media, exp, mantissa, [target])
  {
    assert WriteWords([target]) == WriteWords([]) + WriteU32(target) == WriteU32(target);
    assert WriteU16(5) == [0, 5];
    assert mantissa % TWO_18 == mantissa && exp % 64 == exp;
    assert [0x8F, 0xCE] + [0, 5] == [0x8F, 0xCE, 0x00, 0x05];
  }

  /** Building then parsing yields exactly one feedback, for the intended SSRC, field for field. */
  lemma BuildThenParse(sender: u32, media: u32, exp: nat, mantissa: nat, target: u32)
    requires exp < 64 && mantissa < TWO_18
    ensures AllFeedbacks(BuildRembPacket(sender, media, exp, mantissa, target)) ==
            [Feedback(sender, media, exp, mantissa, Bps(exp, mantissa), [target])]
  {
    ParseInvertsPacket(sender, media, exp, mantissa, [target]);
    BuiltIsPacket(sender, media, exp, mantissa, target);
  }

  lemma OneFeedback(p: seq<byte>, s: Summary, f: Feedback)
    requires s.offset + s.size <= |p| && FeedbackOf(p, s) == Some(f)
    ensures Feedbacks(p, [s]) == [f]
  {
    assert [s][..0] == [];
  }

  /** The estimate sent to a publisher: encode, build, and what any parser of it reads back. */
  method SendEstimatedRemb(source: u32, kbps: u32) returns (sent: Option<seq<byte>>, exp: nat, mantissa: nat)
    ensures sent.Some? == (kbps > 0 && source != 0)
    ensures sent.Some? ==>
            var b := (if kbps < MAX_KBPS then kbps else MAX_KBPS) * 1000;
            && exp <= 15 && mantissa < TWO_18 && Covers(b, Pow2(exp), mantissa)
            && (b < TWO_18 ==> mantissa * Pow2(exp) == b)
            && (b >= TWO_18 ==> (mantissa * Pow2(exp) - b) * (TWO_18 - 1) < 2 * b)
    ensures sent.Some? ==>
            AllFeedbacks(sent.value) == [Feedback(0, source, exp, mantissa, Saturated(Rate(exp, mantissa)), [source])]
  {
    if kbps == 0 || source == 0 { return None, 0, 0; }
    var capped: int := if kbps < MAX_KBPS then kbps else MAX_KBPS;
    var bps: u32 := capped * 1000;
    exp, mantissa := EncodeRembBitrate(bps);
    sent := Some(BuildRembPacket(0, source, exp, mantissa, source));
    ParsedBack(source, exp, mantissa);
  }

  /** A parser of the packet reads the product, saturated to 32 bits. */
  lemma ParsedBack(source: u32, exp: nat, mantissa: nat)
    requires exp <= 15 && mantissa < TWO_18
    ensures AllFeedbacks(BuildRembPacket(0, source, exp, mantissa, source)) ==
            [Feedback(0, source, exp, mantissa, Saturated(Rate(exp, mantissa)), [source])]
  {
    BuildThenParse(0, source, exp, mantissa, source);
    BpsIsSaturated(exp, mantissa);
  }

  lemma BpsIsSaturated(exp: nat, mantissa: nat)
    requires exp <= 15 && mantissa < TWO_18
    ensures Bps(exp, mantissa) == Saturated(Rate(exp, mantissa))
  {
    SmallProduct(exp, mantissa);
  }

  lemma SmallProduct(exp: nat, mantissa: nat)
    requires exp <= 15 && mantissa < TWO_18
    ensures mantissa * Pow2(exp) < TWO_64
  {
    Pow2AtMost(exp, 15);
    Pow2Of15();
    MulMono(Pow2(exp), 0x8000, mantissa);
  }

  lemma {:induction false} Pow2AtMost(k: nat, n: nat)
    requires k <= n
    ensures Pow2(k) <= Pow2(n)
    decreases n - k
  {
    if k < n {
      Pow2AtMost(k + 1, n);
    }
  }

  /** The cap is the largest number of kbps whose bps fit 32 bits, and below the rate the rounding fails on. */
  lemma CapIsTight(kbps: nat)
    ensures kbps * 1000 < TWO_32 <==> kbps <= MAX_KBPS
    ensures kbps <= MAX_KBPS ==> kbps * 1000 != TWO_32 - 1
  {
  }

  // ----- from the bytes alone -----

  /** At `p` stands a REMB packet (packet type 206, format 15, "REMB") of `sender` for `media` with this exponent
      and mantissa, one of whose targets is `target`. */
  ghost predicate RembAt(data: seq<byte>, p: nat, sender: u32, media: u32, exp: nat, mantissa: nat, target: u32) {
    && Fits(data, p) && data[p + 1] == 206 && data[p] % 32 == 15 && StatedSize(data, p) >= 20
    && data[p + 12] == 'R' as int && data[p + 13] == 'E' as int && data[p + 14] == 'M' as int
    && data[p + 15] == 'B' as int
    && ReadU32(data, p + 4) == sender && ReadU32(data, p + 8) == media
    && data[p + 17] / 4 == exp && data[p + 17] % 4 * 0x1_0000 + (data[p + 18] as int) * 256 + data[p + 19] == mantissa
    && 20 + 4 * (data[p + 16] as int) <= StatedSize(data, p)
    && exists i: nat :: i < (data[p + 16] as int) && ReadU32(data, p + 20 + 4 * i) == target
  }

  lemma {:induction false} TargetsMembers(data: seq<byte>, at: nat, count: nat, target: u32)
    requires at + 4 * count <= |data|
    ensures target in Targets(data, at, count) <==> exists i :: 0 <= i < count && ReadU32(data, at + 4 * i) == target
  {
    if count > 0 {
      TargetsMembers(data, at, count - 1, target);
    }
  }

  predicate Names(f: Feedback, sender: u32, media: u32, exp: nat, mantissa: nat, target: u32) {
    f.senderSsrc == sender && f.mediaSsrc == media && f.exp == exp && f.mantissa == mantissa && target in f.targets
  }

  lemma FeedbackFromBytes(data: seq<byte>, x: Summary, sender: u32, media: u32, exp: nat, mantissa: nat, target: u32)
    requires SummaryAt(data, x.offset) == Some(x)
    ensures x.offset + x.size <= |data|
    ensures FeedbackOf(data, x).Some? && Names(FeedbackOf(data, x).value, sender, media, exp, mantissa, target) <==>
            RembAt(data, x.offset, sender, media, exp, mantissa, target)
  {
    SummaryFits(data, x.offset);
    if x.size >= 20 && 20 + 4 * (data[x.offset + 16] as int) <= x.size {
      TargetsMembers(data, x.offset + 20, data[x.offset + 16], target);
    }
  }

  lemma {:induction false} FeedbacksMembers(data: seq<byte>, ss: seq<Summary>, f: Feedback)
    requires forall i | 0 <= i < |ss| :: ss[i].offset + ss[i].size <= |data|
    ensures f in Feedbacks(data, ss) <==> exists i :: 0 <= i < |ss| && FeedbackOf(data, ss[i]) == Some(f)
  {
    if ss != [] {
      var n := |ss| - 1;
      FeedbacksMembers(data, ss[..n], f);
      assert forall i | 0 <= i < n :: ss[..n][i] == ss[i];
    }
  }

  lemma ReportedIsThere(data: seq<byte>, f: Feedback, sender: u32, media: u32, exp: nat, mantissa: nat, target: u32)
    requires f in AllFeedbacks(data) && Names(f, sender, media, exp, mantissa, target)
    ensures exists p: nat :: Tiled(data, 0, p) && RembAt(data, p, sender, media, exp, mantissa, target)
  {
    CompoundTilesPrefix(data, 0);
    var ss := Summaries(data, 0);
    FeedbacksMembers(data, ss, f);
    var i :| 0 <= i < |ss| && FeedbackOf(data, ss[i]) == Some(f);
    SummariesAreTiled(data, 0, ss[i]);
    FeedbackFromBytes(data, ss[i], sender, media, exp, mantissa, target);
    assert Tiled(data, 0, ss[i].offset);
  }

  lemma ThereIsReported(data: seq<byte>, p: nat, sender: u32, media: u32, exp: nat, mantissa: nat, target: u32)
    requires Tiled(data, 0, p) && RembAt(data, p, sender, media, exp, mantissa, target)
    ensures exists f :: f in AllFeedbacks(data) && Names(f, sender, media, exp, mantissa, target)
  {
    CompoundTilesPrefix(data, 0);
    var ss := Summaries(data, 0);
    SummaryFits(data, p);
    var x := SummaryAt(data, p).value;
    SummariesAreTiled(data, 0, x);
    FeedbackFromBytes(data, x, sender, media, exp, mantissa, target);
    var i :| 0 <= i < |ss| && ss[i] == x;
    FeedbacksMembers(data, ss, FeedbackOf(data, x).value);
  }

  /** Over the whole datagram a rate is reported for a target exactly when some REMB packet of it says so. */
  lemma RembReportsExactly(data: seq<byte>, sender: u32, media: u32, exp: nat, mantissa: nat, target: u32)
    ensures (exists f :: f in AllFeedbacks(data) && Names(f, sender, media, exp, mantissa, target)) <==>
            (exists p: nat :: Tiled(data, 0, p) && RembAt(data, p, sender, media, exp, mantissa, target))
  {
    if f :| f in AllFeedbacks(data) && Names(f, sender, media, exp, mantissa, target) {
      ReportedIsThere(data, f, sender, media, exp, mantissa, target);
    }
    if p: nat :| Tiled(data, 0, p) && RembAt(data, p, sender, media, exp, mantissa, target) {
      ThereIsReported(data, p, sender, media, exp, mantissa, target);
    }
  }

  lemma EveryReportHasTargets(data: seq<byte>, f: Feedback)
    requires f in AllFeedbacks(data)
    ensures f.targets != [] && f.bps == Bps(f.exp, f.mantissa)
  {
    CompoundTilesPrefix(data, 0);
    FeedbacksMembers(data, Summaries(data, 0), f);
  }
}
