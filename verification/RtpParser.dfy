/** RTP fixed header, CSRC list, extension and padding (sections 5.1 and 5.3.1 of RFC 3550). */
module RtpParser {
  import opened Bytes

  const MIN_HEADER := 12

  datatype Header = Header(padding: bool, extension: bool, csrcCount: nat, marker: bool, payloadType: nat,
                           sequence: u16, timestamp: u32, ssrc: u32, headerSize: nat)

  datatype Parsed = Parsed(header: Header, payloadSize: nat)

  /** The number of extension bytes at `offset`, if the extension fits. */
  function ExtensionSize(data: seq<byte>, offset: nat): (r: Option<nat>)
    ensures r.Some? ==> offset + r.value <= |data|
  {
    if offset + 4 > |data| then None
    else
      var bytes := 4 + ReadU16(data, offset + 2) * 4;
      if offset + bytes > |data| then None else Some(bytes)
  }

  /** The extension after the fixed part and its sources: 0 bytes without the flag. */
  function Extension(data: seq<byte>): (r: Option<nat>)
    requires |data| >= MIN_HEADER
    ensures r.Some? ==> MIN_HEADER + data[0] % 16 * 4 + r.value <= |data|
  {
    var fixed := MIN_HEADER + data[0] % 16 * 4;
    if fixed > |data| then None else if data[0] / 16 % 2 == 1 then ExtensionSize(data, fixed) else Some(0)
  }

  /** Where the payload starts and how long it is, for the first and last byte and the extension found. */
  function Cut(first: byte, size: nat, ext: Option<nat>, last: byte): (r: Option<(nat, nat)>)
    requires ext.Some? ==> MIN_HEADER + first % 16 * 4 + ext.value <= size
    ensures r.Some? ==> && MIN_HEADER + first % 16 * 4 <= r.value.0
                        && r.value.0 + r.value.1 + (if first / 32 % 2 == 1 then last else 0) == size
  {
    if ext.None? then None
    else
      var offset := MIN_HEADER + first % 16 * 4 + ext.value;
      var pad := if first / 32 % 2 == 1 then last else 0;
      if first / 32 % 2 == 1 && (pad == 0 || pad > size - offset) then None else Some((offset, size - offset - pad))
  }

  /** A parsed packet is cut into header, payload and padding without remainder. */
  function Parse(data: seq<byte>): (r: Option<Parsed>)
    ensures r.Some? ==>
              && |data| >= MIN_HEADER
              && MIN_HEADER + r.value.header.csrcCount * 4 <= r.value.header.headerSize
              && r.value.header.headerSize + r.value.payloadSize +
                   (if r.value.header.padding then data[|data| - 1] else 0) == |data|
  {
    if |data| < MIN_HEADER || data[0] / 64 != 2 then None
    else
      match Cut(data[0], |data|, Extension(data), data[|data| - 1])
      case None => None
      case Some((offset, size)) =>
        Some(Parsed(Header(data[0] / 32 % 2 == 1, data[0] / 16 % 2 == 1, data[0] % 16,
                           data[1] / 128 == 1, data[1] % 128,
                           ReadU16(data, 2), ReadU32(data, 4), ReadU32(data, 8), offset), size))
  }

  /** The packet with its SSRC field replaced. */
  function Rewritten(ssrc: u32, packet: seq<byte>): (r: seq<byte>)
    ensures |r| == |packet|
  {
    if |packet| < MIN_HEADER then packet else packet[..8] + WriteU32(ssrc) + packet[12..]
  }

  /** Rewriting in place, as the router and the retransmission path do. */
  method RewriteSsrc(ssrc: u32, packet: array<byte>)
    modifies packet
    ensures packet[..] == Rewritten(ssrc, old(packet[..]))
  {
    if packet.Length < MIN_HEADER { return; }
    packet[8] := ssrc / 0x100_0000;
    packet[9] := ssrc / 0x1_0000 % 256;
    packet[10] := ssrc / 256 % 256;
    packet[11] := ssrc % 256;
  }

  lemma RewriteAt(ssrc: u32, packet: seq<byte>, i: nat)
    requires MIN_HEADER <= |packet| && i < |packet|
    ensures Rewritten(ssrc, packet)[i] == if 8 <= i < 12 then WriteU32(ssrc)[i - 8] else packet[i]
  {
  }

  lemma RewriteKeepsExtension(ssrc: u32, packet: seq<byte>, offset: nat)
    requires MIN_HEADER <= offset <= |packet|
    ensures ExtensionSize(Rewritten(ssrc, packet), offset) == ExtensionSize(packet, offset)
  {
    if offset + 4 <= |packet| {
      RewriteAt(ssrc, packet, offset + 2);
      RewriteAt(ssrc, packet, offset + 3);
    }
  }

  lemma RewriteReads(ssrc: u32, packet: seq<byte>)
    requires MIN_HEADER <= |packet|
    ensures var r := Rewritten(ssrc, packet);
            && r[0] == packet[0] && r[1] == packet[1]
            && ReadU16(r, 2) == ReadU16(packet, 2) && ReadU32(r, 4) == ReadU32(packet, 4) && ReadU32(r, 8) == ssrc
  {
    forall i | 0 <= i < 12
      ensures Rewritten(ssrc, packet)[i] == if 8 <= i < 12 then WriteU32(ssrc)[i - 8] else packet[i]
    {
      RewriteAt(ssrc, packet, i);
    }
    WriteReadU32(ssrc);
  }

  lemma RewriteKeepsExtensionAndLast(ssrc: u32, packet: seq<byte>)
    requires MIN_HEADER <= |packet|
    ensures var r := Rewritten(ssrc, packet);
            && r[0] == packet[0] && Extension(r) == Extension(packet)
            && (|packet| > MIN_HEADER ==> r[|r| - 1] == packet[|packet| - 1])
  {
    RewriteAt(ssrc, packet, 0);
    RewriteAt(ssrc, packet, |packet| - 1);
    var fixed := MIN_HEADER + packet[0] % 16 * 4;
    if fixed <= |packet| {
      RewriteKeepsExtension(ssrc, packet, fixed);
    }
  }

  /** A bare header has no room for padding, whatever its last byte. */
  lemma BareHeader(first: byte, ext: Option<nat>, last: byte, last': byte)
    requires ext.Some? ==> MIN_HEADER + first % 16 * 4 + ext.value <= MIN_HEADER
    ensures Cut(first, MIN_HEADER, ext, last) == Cut(first, MIN_HEADER, ext, last')
  {
  }

  /** Rewriting changes the parsed SSRC and nothing else, and never changes whether a packet parses. */
  lemma RewriteChangesOnlySsrc(ssrc: u32, packet: seq<byte>)
    ensures var p, q := Parse(packet), Parse(Rewritten(ssrc, packet));
            q == if p.None? then None else Some(p.value.(header := p.value.header.(ssrc := ssrc)))
  {
    if |packet| >= MIN_HEADER {
      RewriteReads(ssrc, packet);
      RewriteKeepsExtensionAndLast(ssrc, packet);
      if |packet| == MIN_HEADER {
        BareHeader(packet[0], Extension(packet), packet[11], Rewritten(ssrc, packet)[11]);
      }
    }
  }

  /** Writing back the SSRC a packet already carries leaves every byte as it was. */
  lemma RewriteOwnSsrc(packet: seq<byte>)
    requires |packet| >= MIN_HEADER
    ensures Rewritten(ReadU32(packet, 8), packet) == packet
  {
    ReadWriteU32(packet, 8);
    assert packet == packet[..8] + packet[8..12] + packet[12..];
  }

  // ----- a packet and its bytes -----

  /** An RTP packet: sources, an extension of whole words, a payload, and `pad` bytes of padding. */
  datatype Rtp = Rtp(marker: bool, payloadType: nat, sequence: u16, timestamp: u32, ssrc: u32, csrcs: seq<u32>,
                     extension: Option<(u16, seq<u32>)>, payload: seq<byte>, pad: nat)

  predicate Encodable(p: Rtp) {
    && p.payloadType < 128 && |p.csrcs| <= 15 && p.pad < 256
    && (p.extension.Some? ==> |p.extension.value.1| < TWO_16)
  }

  function Flag(b: bool, value: nat): nat {
    if b then value else 0
  }

  function FixedPart(p: Rtp): (d: seq<byte>)
    requires Encodable(p)
    ensures |d| == MIN_HEADER
  {
    [0x80 + Flag(p.pad > 0, 32) + Flag(p.extension.Some?, 16) + |p.csrcs|, Flag(p.marker, 128) + p.payloadType] +
    WriteU16(p.sequence) + WriteU32(p.timestamp) + WriteU32(p.ssrc)
  }

  function ExtensionPart(p: Rtp): seq<byte>
    requires Encodable(p)
  {
    if p.extension.None? then []
    else WriteU16(p.extension.value.0) + WriteU16(|p.extension.value.1|) + WriteWords(p.extension.value.1)
  }

  function Padding(pad: nat): (d: seq<byte>)
    requires pad < 256
    ensures |d| == pad && (pad > 0 ==> d[pad - 1] == pad)
  {
    if pad == 0 then [] else seq(pad - 1, _ => 0) + [pad]
  }

  function Tail(p: Rtp): seq<byte>
    requires Encodable(p)
  {
    WriteWords(p.csrcs) + ExtensionPart(p) + p.payload + Padding(p.pad)
  }

  /** The layout of sections 5.1 and 5.3.1 of RFC 3550. */
  function Build(p: Rtp): seq<byte>
    requires Encodable(p)
  {
    FixedPart(p) + Tail(p)
  }

  lemma FixedFields(p: Rtp)
    requires Encodable(p)
    ensures var d := Build(p);
            && d[0] == 0x80 + Flag(p.pad > 0, 32) + Flag(p.extension.Some?, 16) + |p.csrcs|
            && d[1] == Flag(p.marker, 128) + p.payloadType
            && ReadU16(d, 2) == p.sequence && ReadU32(d, 4) == p.timestamp && ReadU32(d, 8) == p.ssrc
  {
    var d, f := Build(p), FixedPart(p);
    WriteReadU32(p.timestamp);
    WriteReadU32(p.ssrc);
    ReadPlaced(f[..4], WriteU32(p.timestamp), WriteU32(p.ssrc) + Tail(p), 0);
    assert f[..4] + WriteU32(p.timestamp) + (WriteU32(p.ssrc) + Tail(p)) == d;
    ReadPlaced(f[..8], WriteU32(p.ssrc), Tail(p), 0);
    assert f[..8] + WriteU32(p.ssrc) + Tail(p) == d;
  }

  lemma FirstByte(padded: bool, extended: bool, n: nat)
    requires n <= 15
    ensures var first := 0x80 + Flag(padded, 32) + Flag(extended, 16) + n;
            first / 64 == 2 && (first / 32 % 2 == 1 <==> padded) && (first / 16 % 2 == 1 <==> extended)
              && first % 16 == n
  {
  }

  lemma BuiltExtension(p: Rtp)
    requires Encodable(p)
    ensures Extension(Build(p)) == Some(|ExtensionPart(p)|)
  {
    var d, at := Build(p), MIN_HEADER + 4 * |p.csrcs|;
    FixedFields(p);
    FirstByte(p.pad > 0, p.extension.Some?, |p.csrcs|);
    if p.extension.Some? {
      var e := ExtensionPart(p);
      assert d == FixedPart(p) + WriteWords(p.csrcs) + e + (p.payload + Padding(p.pad));
      assert d[at + 2] == e[2] && d[at + 3] == e[3];
      assert ReadU16(d, at + 2) == |p.extension.value.1|;
    }
  }

  lemma BuiltLast(p: Rtp)
    requires Encodable(p) && p.pad > 0
    ensures Build(p)[|Build(p)| - 1] == p.pad
  {
    assert Build(p) == FixedPart(p) + (WriteWords(p.csrcs) + ExtensionPart(p) + p.payload) + Padding(p.pad);
  }

  lemma BuiltSize(p: Rtp)
    requires Encodable(p)
    ensures var size := MIN_HEADER + 4 * |p.csrcs| + |ExtensionPart(p)|;
            |Build(p)| == size + |p.payload| + p.pad && Build(p)[size..size + |p.payload|] == p.payload
  {
    var head := FixedPart(p) + WriteWords(p.csrcs) + ExtensionPart(p);
    assert Build(p) == head + p.payload + Padding(p.pad);
  }

  lemma BuiltCut(p: Rtp)
    requires Encodable(p)
    ensures var d := Build(p); Extension(d) == Some(|ExtensionPart(p)|)
    ensures var d := Build(p);
            Cut(d[0], |d|, Extension(d), d[|d| - 1]) ==
              Some((MIN_HEADER + 4 * |p.csrcs| + |ExtensionPart(p)|, |p.payload|))
  {
    FixedFields(p);
    FirstByte(p.pad > 0, p.extension.Some?, |p.csrcs|);
    BuiltExtension(p);
    BuiltSize(p);
    if p.pad > 0 {
      BuiltLast(p);
    }
  }

  lemma SecondByte(marker: bool, payloadType: nat)
    requires payloadType < 128
    ensures var second := Flag(marker, 128) + payloadType;
            (second / 128 == 1 <==> marker) && second % 128 == payloadType
  {
  }

  /** Parsing inverts the layout: every packet, with any sources, extension, payload and padding, is read back
      field for field, and its payload is found. */
  lemma ParseInvertsBuild(p: Rtp)
    requires Encodable(p)
    ensures var size := MIN_HEADER + 4 * |p.csrcs| + |ExtensionPart(p)|;
            && Parse(Build(p)) == Some(Parsed(Header(p.pad > 0, p.extension.Some?, |p.csrcs|, p.marker, p.payloadType,
                                                     p.sequence, p.timestamp, p.ssrc, size), |p.payload|))
            && Build(p)[size..size + |p.payload|] == p.payload
  {
    FixedFields(p);
    FirstByte(p.pad > 0, p.extension.Some?, |p.csrcs|);
    SecondByte(p.marker, p.payloadType);
    BuiltCut(p);
    BuiltSize(p);
  }
}
