/** RTCP: cutting a compound datagram into packets (section 6.1 of RFC 3550) and reading generic NACKs
    (section 6.2.1 of RFC 4585). */
module RtcpHandler {
  import opened Bytes

  datatype PacketType = SR | RR | RTPFB | PSFB | Unknown

  function TypeOf(pt: byte): PacketType {
    if pt == 200 then SR else if pt == 201 then RR else if pt == 205 then RTPFB else if pt == 206 then PSFB else Unknown
  }

  /** The packet type numbers of RFC 3550 section 12.1 and RFC 4585 section 6.1. */
  function CodeOf(t: PacketType): byte
    requires t != Unknown
  {
    match t
    case SR => 200
    case RR => 201
    case RTPFB => 205
    case PSFB => 206
  }

  lemma TypeInvertsCode(pt: byte, t: PacketType)
    ensures t != Unknown ==> (TypeOf(pt) == t <==> pt == CodeOf(t))
    ensures TypeOf(pt) == Unknown <==> forall k: PacketType :: k != Unknown ==> pt != CodeOf(k)
  {
    assert pt == 200 ==> pt == CodeOf(SR);
    assert pt == 201 ==> pt == CodeOf(RR);
    assert pt == 205 ==> pt == CodeOf(RTPFB);
    assert pt == 206 ==> pt == CodeOf(PSFB);
  }

  datatype Summary = Summary(kind: PacketType, fmt: nat, lengthWords: u16, senderSsrc: u32, offset: nat, size: nat)

  /** The packet starting at `offset`, if one does. */
  function SummaryAt(data: seq<byte>, offset: nat): (r: Option<Summary>)
    ensures r.Some? ==> r.value.offset == offset && r.value.size >= 4 && offset + r.value.size <= |data|
  {
    if offset + 4 > |data| || data[offset] / 64 != 2 then None
    else
      var words := ReadU16(data, offset + 2);
      var size: nat := (words as int + 1) * 4;
      if offset + size > |data| then None
      else Some(Summary(TypeOf(data[offset + 1]), data[offset] % 32, words,
                        if size >= 8 then ReadU32(data, offset + 4) else 0, offset, size))
  }

  function Summaries(data: seq<byte>, offset: nat): seq<Summary>
    decreases |data| - offset
  {
    var s := SummaryAt(data, offset);
    if s.None? then [] else [s.value] + Summaries(data, offset + s.value.size)
  }

  method ParseCompound(data: seq<byte>) returns (packets: seq<Summary>)
    ensures packets == Summaries(data, 0)
  {
    packets := [];
    if |data| < 4 { return; }
    var offset := 0;
    while offset + 4 <= |data|
      invariant 0 <= offset <= |data|
      invariant Summaries(data, 0) == packets + Summaries(data, offset)
      decreases |data| - offset
    {
      var summary := ReadSummary(data, offset);
      if summary.None? { break; }
      packets := packets + [summary.value];
      offset := offset + summary.value.size;
    }
  }

  /** One packet header, if the packet is version 2 and fits. */
  method ReadSummary(data: seq<byte>, offset: nat) returns (summary: Option<Summary>)
    requires offset + 4 <= |data|
    ensures summary == SummaryAt(data, offset)
  {
    if data[offset] / 64 != 2 { return None; }
    var words := ReadU16(data, offset + 2);
    var size: nat := (words as int + 1) * 4;
    if size < 4 || offset + size > |data| { return None; }
    return Some(Summary(TypeOf(data[offset + 1]), data[offset] % 32, words,
                        if size >= 8 then ReadU32(data, offset + 4) else 0, offset, size));
  }

  // ----- compound packets -----

  /** One version-2 packet whose length field counts its own bytes. */
  predicate WellFormed(p: seq<byte>) {
    |p| >= 4 && p[0] / 64 == 2 && |p| == (ReadU16(p, 2) + 1) * 4
  }

  function Concat(ps: seq<seq<byte>>): seq<byte> {
    if ps == [] then [] else ps[0] + Concat(ps[1..])
  }

  function TotalSize(ss: seq<Summary>): nat {
    if ss == [] then 0 else ss[0].size + TotalSize(ss[1..])
  }

  /** The summary describes the packet it names. */
  ghost predicate Describes(s: Summary, p: seq<byte>) {
    && WellFormed(p) && s.size == |p|
    && s.kind == TypeOf(p[1]) && s.fmt == p[0] % 32 && s.lengthWords == ReadU16(p, 2)
    && s.senderSsrc == if |p| >= 8 then ReadU32(p, 4) else 0
  }

  /** The summaries name consecutive stretches of the buffer from `offset` on. */
  ghost predicate Tiles(data: seq<byte>, offset: nat, ss: seq<Summary>)
    decreases |ss|
  {
    if ss == [] then offset <= |data|
    else ss[0].offset == offset && offset + ss[0].size <= |data| && Tiles(data, offset + ss[0].size, ss[1..])
  }

  /** Each summary lies in the buffer and describes the well-formed packet there. */
  ghost predicate Truthful(data: seq<byte>, ss: seq<Summary>) {
    forall i | 0 <= i < |ss| :: TrueAt(data, ss[i])
  }

  ghost predicate TrueAt(data: seq<byte>, s: Summary) {
    s.offset + s.size <= |data| && Describes(s, data[s.offset..s.offset + s.size])
  }

  lemma SliceReads(data: seq<byte>, lo: nat, hi: nat)
    requires lo + 4 <= hi <= |data|
    ensures var p := data[lo..hi];
            && p[0] == data[lo] && p[1] == data[lo + 1] && ReadU16(p, 2) == ReadU16(data, lo + 2)
            && (hi - lo >= 8 ==> ReadU32(p, 4) == ReadU32(data, lo + 4))
  {
  }

  lemma SummaryIsTruthful(data: seq<byte>, offset: nat)
    requires SummaryAt(data, offset).Some?
    ensures var s := SummaryAt(data, offset).value; Describes(s, data[offset..offset + s.size])
  {
    SliceReads(data, offset, offset + SummaryAt(data, offset).value.size);
  }

  ghost predicate GoodTiling(data: seq<byte>, offset: nat, ss: seq<Summary>) {
    Tiles(data, offset, ss) && Truthful(data, ss)
  }

  lemma GoodTilingCons(data: seq<byte>, s: Summary, rest: seq<Summary>)
    requires TrueAt(data, s)
    requires GoodTiling(data, s.offset + s.size, rest)
    ensures GoodTiling(data, s.offset, [s] + rest)
  {
    var ss := [s] + rest;
    assert ss[1..] == rest;
    forall i | 0 <= i < |ss| ensures TrueAt(data, ss[i]) {
      assert i > 0 ==> ss[i] == rest[i - 1];
    }
  }

  /** For any buffer the summaries tile a prefix with well-formed packets. */
  lemma {:induction false} CompoundTilesPrefix(data: seq<byte>, offset: nat)
    requires offset <= |data|
    ensures GoodTiling(data, offset, Summaries(data, offset))
    decreases |data| - offset
  {
    var s := SummaryAt(data, offset);
    if s.Some? {
      var next := offset + s.value.size;
      SummaryIsTruthful(data, offset);
      CompoundTilesPrefix(data, next);
      GoodTilingCons(data, s.value, Summaries(data, next));
      assert Summaries(data, offset) == [s.value] + Summaries(data, next);
    } else {
      assert Summaries(data, offset) == [];
    }
  }

  /** Packet `i` of a concatenation, as the parser must report it. */
  function Reported(ps: seq<seq<byte>>, i: nat, offset: nat): Summary
    requires i < |ps| && WellFormed(ps[i])
  {
    Summary(TypeOf(ps[i][1]), ps[i][0] % 32, ReadU16(ps[i], 2), if |ps[i]| >= 8 then ReadU32(ps[i], 4) else 0,
            offset + |Concat(ps[..i])|, |ps[i]|)
  }

  lemma ConcatSplit(ps: seq<seq<byte>>, i: nat)
    requires 0 < i <= |ps|
    ensures Concat(ps[..i]) == ps[0] + Concat(ps[1..][..i - 1])
  {
    assert ps[..i][1..] == ps[1..][..i - 1];
  }

  /** A well-formed packet is found wherever it stands. */
  lemma FindsPacket(pre: seq<byte>, p: seq<byte>, post: seq<byte>)
    requires WellFormed(p)
    ensures SummaryAt(pre + p + post, |pre|) == Some(Reported([p], 0, |pre|))
  {
    var data := pre + p + post;
    assert data[|pre|..|pre| + |p|] == p;
    SliceReads(data, |pre|, |pre| + |p|);
    assert [p][..0] == [];
  }

  /** Parsing inverts concatenation: any list of well-formed packets, placed anywhere at the end of a
      buffer, is reported packet for packet with its fields, offset and size. */
  lemma {:induction false} CompoundInvertsConcat(pre: seq<byte>, ps: seq<seq<byte>>)
    requires forall i | 0 <= i < |ps| :: WellFormed(ps[i])
    ensures var ss := Summaries(pre + Concat(ps), |pre|);
            && |ss| == |ps| && TotalSize(ss) == |Concat(ps)|
            && forall i | 0 <= i < |ps| :: ss[i] == Reported(ps, i, |pre|)
    decreases |ps|
  {
    if ps != [] {
      var p, rest := ps[0], ps[1..];
      var data := pre + Concat(ps);
      assert data == pre + p + Concat(rest);
      FindsPacket(pre, p, Concat(rest));
      CompoundInvertsConcat(pre + p, rest);
      var ss, ss' := Summaries(data, |pre|), Summaries(data, |pre + p|);
      assert ss == [Reported([p], 0, |pre|)] + ss';
      assert ss[1..] == ss';
      assert ps[..0] == [p][..0];
      forall i | 0 < i < |ps| ensures ss[i] == Reported(ps, i, |pre|) {
        ConcatSplit(ps, i);
        assert ss[i] == ss'[i - 1] == Reported(rest, i - 1, |pre + p|);
      }
    }
  }

  lemma TruthfulTail(data: seq<byte>, ss: seq<Summary>)
    requires ss != [] && Truthful(data, ss)
    ensures Truthful(data, ss[1..])
  {
    forall i | 0 <= i < |ss| - 1 ensures ss[1..][i] == ss[i + 1] { }
  }

  lemma SliceJoin(data: seq<byte>, a: nat, b: nat, c: nat)
    requires a <= b <= c <= |data|
    ensures data[a..b] + data[b..c] == data[a..c]
  {
  }

  lemma {:induction false} TilingIsConcat(data: seq<byte>, offset: nat, ss: seq<Summary>) returns (ps: seq<seq<byte>>)
    requires offset <= |data| && Tiles(data, offset, ss) && Truthful(data, ss)
    ensures offset + TotalSize(ss) <= |data|
    ensures |ps| == |ss| && Concat(ps) == data[offset..offset + TotalSize(ss)]
    ensures forall i | 0 <= i < |ps| :: WellFormed(ps[i])
    decreases |ss|
  {
    if ss == [] {
      ps := [];
    } else {
      var next := offset + ss[0].size;
      TruthfulTail(data, ss);
      var rest := TilingIsConcat(data, next, ss[1..]);
      ps := [data[offset..next]] + rest;
      assert ps[1..] == rest;
      SliceJoin(data, offset, next, next + TotalSize(ss[1..]));
      assert Concat(ps) == data[offset..next] + Concat(rest);
    }
  }

  ghost predicate IsCompound(data: seq<byte>) {
    exists ps: seq<seq<byte>> :: ps != [] && Concat(ps) == data && forall i | 0 <= i < |ps| :: WellFormed(ps[i])
  }

  /** The test the SFU admits a control datagram with: packets were found and their sizes add up to
      the whole buffer. It holds exactly for the nonempty concatenations of well-formed packets. */
  lemma ConsumedIffCompound(data: seq<byte>)
    ensures var ss := Summaries(data, 0);
            ss != [] && TotalSize(ss) == |data| <==> IsCompound(data)
  {
    var ss := Summaries(data, 0);
    if ss != [] && TotalSize(ss) == |data| {
      CompoundTilesPrefix(data, 0);
      var ps := TilingIsConcat(data, 0, ss);
      assert data[0..|data|] == data;
    }
    if IsCompound(data) {
      var ps :| ps != [] && Concat(ps) == data && forall i | 0 <= i < |ps| :: WellFormed(ps[i]);
      CompoundInvertsConcat([], ps);
      assert [] + Concat(ps) == data;
    }
  }

  // ----- generic NACK -----

  datatype Nack = Nack(senderSsrc: u32, mediaSsrc: u32, lost: seq<u16>)

  predicate IsNack(s: Summary) {
    s.kind == RTPFB && s.fmt == 1
  }

  /** The sequence numbers named by the low `bits` bits of a bitmask. */
  function MaskSequences(pid: u16, blp: u16, bits: nat): seq<u16> {
    if bits == 0 then []
    else MaskSequences(pid, blp, bits - 1) + if Bit(blp, bits - 1) then [(pid + bits) % TWO_16] else []
  }

  function BlockSequences(data: seq<byte>, at: nat): seq<u16>
    requires at + 4 <= |data|
  {
    [ReadU16(data, at)] + MaskSequences(ReadU16(data, at), ReadU16(data, at + 2), 16)
  }

  /** The sequence numbers of all feedback blocks from `at` to `end`. */
  function LostSequences(data: seq<byte>, at: nat, end: nat): seq<u16>
    requires end <= |data|
    decreases end - at
  {
    if at + 4 > end then [] else BlockSequences(data, at) + LostSequences(data, at + 4, end)
  }

  function NackOf(data: seq<byte>, s: Summary): (r: Option<Nack>)
    requires s.offset + s.size <= |data|
  {
    if !IsNack(s) || s.size < 12 then None
    else
      var lost := LostSequences(data, s.offset + 12, s.offset + s.size);
      if lost == [] then None else Some(Nack(ReadU32(data, s.offset + 4), ReadU32(data, s.offset + 8), lost))
  }

  function Nacks(data: seq<byte>, ss: seq<Summary>): seq<Nack>
    requires forall i | 0 <= i < |ss| :: ss[i].offset + ss[i].size <= |data|
  {
    if ss == [] then []
    else
      var n := NackOf(data, ss[|ss| - 1]);
      Nacks(data, ss[..|ss| - 1]) + if n.Some? then [n.value] else []
  }

  /** Every NACK of a datagram, in order. */
  function AllNacks(data: seq<byte>): seq<Nack> {
    CompoundTilesPrefix(data, 0);
    Nacks(data, Summaries(data, 0))
  }

  method ReadBlocks(data: seq<byte>, at: nat, end: nat) returns (lost: seq<u16>)
    requires end <= |data|
    ensures lost == LostSequences(data, at, end)
  {
    lost := [];
    var block := at;
    while block + 4 <= end
      invariant LostSequences(data, at, end) == lost + LostSequences(data, block, end)
      decreases end - block
    {
      var pid, blp := ReadU16(data, block), ReadU16(data, block + 2);
      var found := [pid];
      var bit := 0;
      while bit < 16
        invariant 0 <= bit <= 16
        invariant found == [pid] + MaskSequences(pid, blp, bit)
      {
        if Bit(blp, bit) { found := found + [(pid + bit + 1) % TWO_16]; }
        bit := bit + 1;
      }
      lost := lost + found;
      block := block + 4;
    }
  }

  method ReadNack(data: seq<byte>, s: Summary) returns (n: Option<Nack>)
    requires s.offset + s.size <= |data|
    ensures n == NackOf(data, s)
  {
    if !IsNack(s) || s.size < 12 { return None; }
    var lost := ReadBlocks(data, s.offset + 12, s.offset + s.size);
    if lost == [] { return None; }
    return Some(Nack(ReadU32(data, s.offset + 4), ReadU32(data, s.offset + 8), lost));
  }

  method ParseNackFeedback(data: seq<byte>) returns (nacks: seq<Nack>)
    ensures nacks == AllNacks(data)
  {
    var packets := ParseCompound(data);
    CompoundTilesPrefix(data, 0);
    nacks := [];
    var i := 0;
    while i < |packets|
      invariant 0 <= i <= |packets|
      invariant nacks == Nacks(data, packets[..i])
    {
      var n := ReadNack(data, packets[i]);
      assert packets[..i + 1][..i] == packets[..i];
      if n.Some? { nacks := nacks + [n.value]; }
      i := i + 1;
    }
    assert packets[..i] == packets;
  }

  /** The meaning of one feedback block: the packet PID is lost, and so is packet PID + i + 1 modulo
      65536 for every bit i of BLP that is set. */
  predicate BlockNames(data: seq<byte>, at: nat, s: u16)
    requires at + 4 <= |data|
  {
    var pid, blp := ReadU16(data, at), ReadU16(data, at + 2);
    s == pid || (var i := (s - pid - 1) % TWO_16; i < 16 && Bit(blp, i))
  }

  /** A number has one distance from another modulo 65536. */
  lemma Distance(pid: u16, d: nat, s: u16)
    requires d < TWO_16
    ensures (s - pid - 1) % TWO_16 == d <==> s == (pid + d + 1) % TWO_16
  {
  }

  lemma {:induction false} MaskMembers(pid: u16, blp: u16, bits: nat, s: u16)
    requires bits <= 16
    ensures s in MaskSequences(pid, blp, bits) <==> (var i := (s - pid - 1) % TWO_16; i < bits && Bit(blp, i))
  {
    if bits > 0 {
      MaskMembers(pid, blp, bits - 1, s);
      Distance(pid, bits - 1, s);
    }
  }

  /** A feedback block starts at `b`. */
  predicate BlockStart(at: nat, end: nat, b: nat) {
    at <= b && b + 4 <= end && (b - at) % 4 == 0
  }

  lemma BlockMembers(data: seq<byte>, at: nat, s: u16)
    requires at + 4 <= |data|
    ensures s in BlockSequences(data, at) <==> BlockNames(data, at, s)
  {
    MaskMembers(ReadU16(data, at), ReadU16(data, at + 2), 16, s);
  }

  lemma NextBlocks(at: nat, end: nat, b: nat)
    requires at + 4 <= end
    ensures BlockStart(at, end, b) <==> b == at || BlockStart(at + 4, end, b)
  {
  }

  ghost predicate SomeBlockNames(data: seq<byte>, at: nat, end: nat, s: u16)
    requires end <= |data|
  {
    exists b :: BlockStart(at, end, b) && BlockNames(data, b, s)
  }

  lemma BlocksSplit(data: seq<byte>, at: nat, end: nat, s: u16)
    requires at + 4 <= end <= |data|
    ensures SomeBlockNames(data, at, end, s) <==> BlockNames(data, at, s) || SomeBlockNames(data, at + 4, end, s)
  {
    forall b: nat ensures BlockStart(at, end, b) <==> b == at || BlockStart(at + 4, end, b) {
      NextBlocks(at, end, b);
    }
  }

  lemma {:induction false} LostMembers(data: seq<byte>, at: nat, end: nat, s: u16)
    requires end <= |data|
    ensures s in LostSequences(data, at, end) <==> SomeBlockNames(data, at, end, s)
    decreases end - at
  {
    if at + 4 <= end {
      BlockMembers(data, at, s);
      LostMembers(data, at + 4, end, s);
      BlocksSplit(data, at, end, s);
    }
  }

  /** Summary `p` is a NACK packet for `media` one of whose blocks names `s`. */
  ghost predicate Requests(data: seq<byte>, p: Summary, sender: u32, media: u32, s: u16) {
    && IsNack(p) && p.size >= 16 && p.offset + p.size <= |data| && ReadU32(data, p.offset + 4) == sender
    && ReadU32(data, p.offset + 8) == media
    && SomeBlockNames(data, p.offset + 12, p.offset + p.size, s)
  }

  lemma NackOfMembers(data: seq<byte>, p: Summary, sender: u32, media: u32, s: u16)
    requires p.offset + p.size <= |data|
    ensures Requests(data, p, sender, media, s) <==>
            (NackOf(data, p).Some? && NackOf(data, p).value.senderSsrc == sender
             && NackOf(data, p).value.mediaSsrc == media && s in NackOf(data, p).value.lost)
  {
    if IsNack(p) && p.size >= 12 {
      LostMembers(data, p.offset + 12, p.offset + p.size, s);
    }
  }

  lemma {:induction false} NacksMembers(data: seq<byte>, ss: seq<Summary>, sender: u32, media: u32, s: u16)
    requires forall i | 0 <= i < |ss| :: ss[i].offset + ss[i].size <= |data|
    ensures (exists n :: n in Nacks(data, ss) && n.senderSsrc == sender && n.mediaSsrc == media && s in n.lost) <==>
            (exists i :: 0 <= i < |ss| && Requests(data, ss[i], sender, media, s))
  {
    if ss != [] {
      var last := |ss| - 1;
      NacksMembers(data, ss[..last], sender, media, s);
      NackOfMembers(data, ss[last], sender, media, s);
      var n := NackOf(data, ss[last]);
      forall x ensures x in Nacks(data, ss) <==> x in Nacks(data, ss[..last]) || (n.Some? && x == n.value) { }
      forall i | 0 <= i < last ensures ss[i] == ss[..last][i] { }
    }
  }

  lemma NackReportsSummaries(data: seq<byte>, sender: u32, media: u32, s: u16)
    ensures (exists n :: n in AllNacks(data) && n.senderSsrc == sender && n.mediaSsrc == media && s in n.lost) <==>
            (exists p :: p in Summaries(data, 0) && Requests(data, p, sender, media, s))
  {
    CompoundTilesPrefix(data, 0);
    var ss := Summaries(data, 0);
    NacksMembers(data, ss, sender, media, s);
    if i :| 0 <= i < |ss| && Requests(data, ss[i], sender, media, s) {
      assert ss[i] in ss;
    }
  }

  // ----- from the bytes alone -----

  /** The size the length field of a packet at `p` states. */
  function StatedSize(data: seq<byte>, p: nat): nat
    requires p + 4 <= |data|
  {
    ((data[p + 2] as int) * 256 + data[p + 3] as int + 1) * 4
  }

  /** A version-2 packet at `p` fits the datagram. */
  predicate Fits(data: seq<byte>, p: nat) {
    p + 4 <= |data| && data[p] / 64 == 2 && p + StatedSize(data, p) <= |data|
  }

  /** Packets that fit lead from one offset to another. */
  ghost predicate Tiled(data: seq<byte>, from: nat, p: nat)
    decreases |data| - from
  {
    from == p || (Fits(data, from) && Tiled(data, from + StatedSize(data, from), p))
  }

  /** At `p` stands a generic NACK (packet type 205, format 1) of `sender` for `media` one of whose blocks names `s`. */
  ghost predicate NackAt(data: seq<byte>, p: nat, sender: u32, media: u32, s: u16) {
    && Fits(data, p) && data[p + 1] == 205 && data[p] % 32 == 1 && StatedSize(data, p) >= 16
    && ReadU32(data, p + 4) == sender && ReadU32(data, p + 8) == media
    && SomeBlockNames(data, p + 12, p + StatedSize(data, p), s)
  }

  lemma SummaryFits(data: seq<byte>, p: nat)
    ensures SummaryAt(data, p).Some? <==> Fits(data, p)
    ensures Fits(data, p) ==> SummaryAt(data, p).value.size == StatedSize(data, p)
  {
  }

  lemma {:induction false} SummariesAreTiled(data: seq<byte>, from: nat, x: Summary)
    ensures x in Summaries(data, from) <==> SummaryAt(data, x.offset) == Some(x) && Tiled(data, from, x.offset)
    decreases |data| - from
  {
    SummaryFits(data, from);
    SummaryFits(data, x.offset);
    if Fits(data, from) {
      var first := SummaryAt(data, from).value;
      SummariesAreTiled(data, from + first.size, x);
      assert x in Summaries(data, from) <==> x == first || x in Summaries(data, from + first.size);
      if Tiled(data, from + first.size, x.offset) {
        TiledAhead(data, from + first.size, x.offset);
      }
    }
  }

  lemma {:induction false} TiledAhead(data: seq<byte>, from: nat, p: nat)
    requires Tiled(data, from, p)
    ensures from <= p
    decreases |data| - from
  {
    if from != p {
      TiledAhead(data, from + StatedSize(data, from), p);
    }
  }

  lemma RequestsFromBytes(data: seq<byte>, x: Summary, sender: u32, media: u32, s: u16)
    requires SummaryAt(data, x.offset) == Some(x)
    ensures Requests(data, x, sender, media, s) <==> NackAt(data, x.offset, sender, media, s)
  {
    SummaryFits(data, x.offset);
  }

  /** Over the whole datagram, `sender` reports sequence `s` of `media` lost exactly when some packet of it, of
      type 205 and format 1, with these SSRCs, has a block naming `s`: across wrap-around, any number of blocks
      and of packets. */
  lemma NackReportsExactly(data: seq<byte>, sender: u32, media: u32, s: u16)
    ensures (exists n :: n in AllNacks(data) && n.senderSsrc == sender && n.mediaSsrc == media && s in n.lost) <==>
            (exists p: nat :: Tiled(data, 0, p) && NackAt(data, p, sender, media, s))
  {
    NackReportsSummaries(data, sender, media, s);
    if x :| x in Summaries(data, 0) && Requests(data, x, sender, media, s) {
      SummariesAreTiled(data, 0, x);
      RequestsFromBytes(data, x, sender, media, s);
      assert Tiled(data, 0, x.offset) && NackAt(data, x.offset, sender, media, s);
    }
    if p: nat :| Tiled(data, 0, p) && NackAt(data, p, sender, media, s) {
      SummaryFits(data, p);
      var x := SummaryAt(data, p).value;
      SummariesAreTiled(data, 0, x);
      RequestsFromBytes(data, x, sender, media, s);
    }
  }
}
