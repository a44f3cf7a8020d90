/** Packet routing: one retransmission cache and one subscriber list per publisher SSRC. */
module RtpRouter {
  import opened Bytes
  import opened RtpParser
  import NackBuffer

  const DEFAULT_NACK_CAPACITY := 500

  /** A forwarding target: the SSRC its packets carry and the endpoint the callback sends to. */
  datatype Subscriber = Subscriber(ssrc: u32, endpoint: string)

  datatype PublisherRoute = PublisherRoute(nack: NackBuffer.Buffer, subscribers: seq<Subscriber>)

  type Routes = map<u32, PublisherRoute>

  datatype Sent = Sent(endpoint: string, packet: seq<byte>)

  function NewRoute(nackCapacity: nat): PublisherRoute {
    PublisherRoute(NackBuffer.New(if nackCapacity > 0 then nackCapacity else DEFAULT_NACK_CAPACITY, 0), [])
  }

  function Register(r: Routes, cap: nat, source: u32): Routes {
    if source == 0 || source in r then r else r[source := NewRoute(cap)]
  }

  function AddSubscriber(r: Routes, cap: nat, source: u32, ssrc: u32, endpoint: string): Routes {
    if source == 0 || ssrc == 0 then r
    else
      var route := if source in r then r[source] else NewRoute(cap);
      r[source := route.(subscribers := route.subscribers + [Subscriber(ssrc, endpoint)])]
  }

  function RemoveSubscribers(r: Routes, source: u32): Routes {
    if source in r then r[source := r[source].(subscribers := [])] else r
  }

  /** The copies a routed packet is sent out as. */
  function Copies(subs: seq<Subscriber>, packet: seq<byte>): (out: seq<Sent>)
    ensures |out| == |subs|
    ensures forall i | 0 <= i < |subs| :: out[i] == Sent(subs[i].endpoint, Rewritten(subs[i].ssrc, packet))
  {
    seq(|subs|, i requires 0 <= i < |subs| => Sent(subs[i].endpoint, Rewritten(subs[i].ssrc, packet)))
  }

  /** Who gets what when `packet` arrives; nothing when it does not parse or has no publisher. */
  function Forwarded(r: Routes, packet: seq<byte>): seq<Sent> {
    var p := Parse(packet);
    if p.None? || p.value.header.ssrc !in r then [] else Copies(r[p.value.header.ssrc].subscribers, packet)
  }

  function Route(r: Routes, packet: seq<byte>): Routes {
    var p := Parse(packet);
    if p.None? || p.value.header.ssrc !in r then r
    else
      var s := p.value.header.ssrc;
      r[s := r[s].(nack := NackBuffer.Store(r[s].nack, p.value.header.sequence, packet))]
  }

  function Cached(r: Routes, source: u32, sequence: u16): Option<seq<byte>> {
    if source in r then NackBuffer.Get(r[source].nack, sequence) else None
  }

  /** What a NACK for `media` that resolved to `source` is answered with. */
  function Reply(media: u32, source: u32, packet: seq<byte>): seq<byte> {
    if media != 0 && media != source then Rewritten(media, packet) else packet
  }

  /** The router as the source keeps it. */
  class Router {
    const nackCapacity: nat
    var publishers: Routes

    constructor (nackCapacity: nat)
      ensures publishers == map[] && this.nackCapacity == nackCapacity
    {
      this.nackCapacity := nackCapacity;
      publishers := map[];
    }

    method RegisterPublisher(source: u32) returns (ok: bool)
      modifies this
      ensures publishers == Register(old(publishers), nackCapacity, source) && ok == (source != 0)
    {
      if source == 0 { return false; }
      if source !in publishers { publishers := publishers[source := NewRoute(nackCapacity)]; }
      return true;
    }

    method UnregisterPublisher(source: u32)
      modifies this
      ensures publishers == old(publishers) - {source}
    {
      publishers := publishers - {source};
    }

    method AddForward(source: u32, ssrc: u32, endpoint: string) returns (ok: bool)
      modifies this
      ensures publishers == AddSubscriber(old(publishers), nackCapacity, source, ssrc, endpoint)
      ensures ok == (source != 0 && ssrc != 0)
    {
      if source == 0 || ssrc == 0 { return false; }
      var route := if source in publishers then publishers[source] else NewRoute(nackCapacity);
      publishers := publishers[source := route.(subscribers := route.subscribers + [Subscriber(ssrc, endpoint)])];
      return true;
    }

    method ClearForwards(source: u32)
      modifies this
      ensures publishers == RemoveSubscribers(old(publishers), source)
    {
      if source !in publishers { return; }
      publishers := publishers[source := publishers[source].(subscribers := [])];
    }

    method RoutePacket(packet: seq<byte>) returns (ok: bool, sent: seq<Sent>)
      modifies this
      ensures publishers == Route(old(publishers), packet)
      ensures sent == Forwarded(old(publishers), packet)
      ensures ok == (Parse(packet).Some? && Parse(packet).value.header.ssrc in old(publishers))
    {
      sent := [];
      var parsed := Parse(packet);
      if parsed.None? { return false, []; }
      var source := parsed.value.header.ssrc;
      if source !in publishers { return false, []; }
      var subscribers := publishers[source].subscribers;
      publishers := publishers[source := publishers[source].(nack :=
        NackBuffer.Store(publishers[source].nack, parsed.value.header.sequence, packet))];
      var i := 0;
      while i < |subscribers|
        invariant 0 <= i <= |subscribers|
        invariant sent == Copies(subscribers[..i], packet)
        invariant publishers == Route(old(publishers), packet)
      {
        var out := new byte[|packet|](k requires 0 <= k < |packet| => packet[k]);
        assert out[..] == packet;
        RewriteSsrc(subscribers[i].ssrc, out);
        sent := sent + [Sent(subscribers[i].endpoint, out[..])];
        i := i + 1;
      }
      assert subscribers[..i] == subscribers;
      return true, sent;
    }
  }

  // ----- runs -----

  datatype Op = OpRegister(source: u32) | OpUnregister(source: u32)
              | OpAdd(source: u32, ssrc: u32, endpoint: string) | OpClear(source: u32)
              | OpRoute(packet: seq<byte>)

  function Do(r: Routes, cap: nat, op: Op): Routes {
    match op
    case OpRegister(s) => Register(r, cap, s)
    case OpUnregister(s) => r - {s}
    case OpAdd(s, m, e) => AddSubscriber(r, cap, s, m, e)
    case OpClear(s) => RemoveSubscribers(r, s)
    case OpRoute(p) => Route(r, p)
  }

  function Run(cap: nat, ops: seq<Op>): Routes {
    if ops == [] then map[] else Do(Run(cap, ops[..|ops| - 1]), cap, ops[|ops| - 1])
  }

  /** `packet` was routed at step `i` as packet `q` of publisher `s`. */
  ghost predicate RoutedAt(cap: nat, ops: seq<Op>, i: nat, s: u32, q: u16, packet: seq<byte>) {
    && i < |ops| && ops[i] == OpRoute(packet)
    && Parse(packet).Some? && Parse(packet).value.header.ssrc == s && Parse(packet).value.header.sequence == q
    && s in Run(cap, ops[..i])
  }

  ghost predicate WasRouted(cap: nat, ops: seq<Op>, s: u32, q: u16, packet: seq<byte>) {
    exists i: nat :: RoutedAt(cap, ops, i, s, q, packet)
  }

  lemma WasRoutedGrows(cap: nat, ops: seq<Op>, op: Op, s: u32, q: u16, packet: seq<byte>)
    requires WasRouted(cap, ops, s, q, packet)
    ensures WasRouted(cap, ops + [op], s, q, packet)
  {
    var i: nat :| RoutedAt(cap, ops, i, s, q, packet);
    assert (ops + [op])[..i] == ops[..i];
    assert RoutedAt(cap, ops + [op], i, s, q, packet);
  }

  lemma StoreKeepsOthers(b: NackBuffer.Buffer, s: u16, packet: seq<byte>, q: u16)
    ensures NackBuffer.Get(NackBuffer.Store(b, s, packet), q).Some? ==>
              NackBuffer.Get(NackBuffer.Store(b, s, packet), q) == NackBuffer.Get(b, q) ||
              (q == s && NackBuffer.Get(NackBuffer.Store(b, s, packet), q) == Some(packet))
  {
  }

  lemma {:induction false} CachedWasRouted(cap: nat, ops: seq<Op>, s: u32, q: u16)
    requires Cached(Run(cap, ops), s, q).Some?
    ensures WasRouted(cap, ops, s, q, Cached(Run(cap, ops), s, q).value)
  {
    if ops != [] {
      var front, op := ops[..|ops| - 1], ops[|ops| - 1];
      var before, packet := Run(cap, front), Cached(Run(cap, ops), s, q).value;
      assert front + [op] == ops;
      if Cached(before, s, q) == Some(packet) {
        CachedWasRouted(cap, front, s, q);
        WasRoutedGrows(cap, front, op, s, q, packet);
      } else {
        assert op.OpRoute?;
        StoreKeepsOthers(before[s].nack, Parse(op.packet).value.header.sequence, op.packet, q);
        assert RoutedAt(cap, ops, |front|, s, q, packet);
      }
    }
  }

  /** Over every run, a packet retrievable as packet `q` of source `s` is one that was routed, and
      it parses with exactly that SSRC and sequence number. */
  lemma {:induction false} CacheIsTruthful(cap: nat, ops: seq<Op>, s: u32, q: u16)
    requires Cached(Run(cap, ops), s, q).Some?
    ensures var p := Parse(Cached(Run(cap, ops), s, q).value);
            p.Some? && p.value.header.ssrc == s && p.value.header.sequence == q
  {
    CachedWasRouted(cap, ops, s, q);
  }

  /** The reply to a NACK equals the copy `Route` makes for a subscriber with that rewritten SSRC. */
  lemma ReplyIsCopy(media: u32, source: u32, packet: seq<byte>)
    requires media != 0 && Parse(packet).Some? && Parse(packet).value.header.ssrc == source
    ensures Reply(media, source, packet) == Rewritten(media, packet)
  {
    if media == source {
      RewriteOwnSsrc(packet);
    }
  }

  /** Over every run: the bytes a NACK for rewritten SSRC `media` retrieves from source `s` are, byte
      for byte, what was sent, each time the cached packet was routed, to every subscriber that had
      this SSRC then, and they parse with SSRC `media` and the sequence number asked for. */
  lemma RetransmitIsByteIdentical(cap: nat, ops: seq<Op>, s: u32, q: u16, media: u32)
    requires Cached(Run(cap, ops), s, q).Some? && media != 0
    ensures var packet := Cached(Run(cap, ops), s, q).value;
            && Parse(Reply(media, s, packet)).Some?
            && Parse(Reply(media, s, packet)).value.header.ssrc == media
            && Parse(Reply(media, s, packet)).value.header.sequence == q
            && WasRouted(cap, ops, s, q, packet)
            && forall i: nat, e |
                 RoutedAt(cap, ops, i, s, q, packet) && Subscriber(media, e) in Run(cap, ops[..i])[s].subscribers ::
                 Sent(e, Reply(media, s, packet)) in Forwarded(Run(cap, ops[..i]), packet)
  {
    CachedWasRouted(cap, ops, s, q);
    var packet := Cached(Run(cap, ops), s, q).value;
    ReplyIsCopy(media, s, packet);
    RewriteChangesOnlySsrc(media, packet);
    forall i: nat, e | RoutedAt(cap, ops, i, s, q, packet) && Subscriber(media, e) in Run(cap, ops[..i])[s].subscribers
      ensures Sent(e, Reply(media, s, packet)) in Forwarded(Run(cap, ops[..i]), packet)
    {
      CopyWasSent(Run(cap, ops[..i]), s, media, e, packet);
    }
  }

  /** Every subscriber of a routed packet's source is sent its rewritten copy. */
  lemma CopyWasSent(r: Routes, s: u32, media: u32, e: string, packet: seq<byte>)
    requires s in r && Subscriber(media, e) in r[s].subscribers && Parse(packet).Some?
             && Parse(packet).value.header.ssrc == s
    ensures Sent(e, Rewritten(media, packet)) in Forwarded(r, packet)
  {
    var subs := r[s].subscribers;
    var k :| 0 <= k < |subs| && subs[k] == Subscriber(media, e);
    assert Forwarded(r, packet)[k] == Sent(e, Rewritten(media, packet));
  }

  // ----- the cache as a function of what was routed -----

  /** The packets routed for a publisher since it was last registered, with the sequence number their bytes 2
      and 3 give. */
  function RoutedLog(cap: nat, ops: seq<Op>, s: u32): seq<NackBuffer.Put> {
    if ops == [] then []
    else
      var front, op := ops[..|ops| - 1], ops[|ops| - 1];
      var log := RoutedLog(cap, front, s);
      match op
      case OpUnregister(source) => if source == s then [] else log
      case OpRoute(packet) =>
        if s in Run(cap, front) && IsRtpOf(packet, s)
        then log + [NackBuffer.Put((packet[2] as int) * 256 + packet[3], packet)] else log
      case _ => log
  }

  /** A packet that parses and whose bytes 8 to 11 are the SSRC. */
  predicate IsRtpOf(packet: seq<byte>, s: u32) {
    Parse(packet).Some? && packet[8..12] == WriteU32(s)
  }

  lemma RtpOfIsParsed(packet: seq<byte>, s: u32)
    ensures IsRtpOf(packet, s) <==> Parse(packet).Some? && Parse(packet).value.header.ssrc == s
    ensures Parse(packet).Some? ==> Parse(packet).value.header.sequence == (packet[2] as int) * 256 + packet[3]
  {
    if Parse(packet).Some? {
      ReadWriteU32(packet, 8);
      if packet[8..12] == WriteU32(s) {
        WriteReadU32(s);
        ReadPlaced(packet[..8], packet[8..12], packet[12..], 0);
        assert packet[..8] + packet[8..12] + packet[12..] == packet;
      }
    }
  }

  /** What one operation does to a publisher's cache. */
  lemma CacheStep(r: Routes, cap: nat, op: Op, s: u32)
    ensures var r' := Do(r, cap, op);
            && (s in r && s !in r' ==> op == OpUnregister(s))
            && (op == OpUnregister(s) ==> s !in r')
            && (s in r' && s !in r ==> r'[s].nack == NewRoute(cap).nack)
            && (s in r' && s in r ==>
                r'[s].nack == if op.OpRoute? && IsRtpOf(op.packet, s)
                              then NackBuffer.Store(r[s].nack, (op.packet[2] as int) * 256 + op.packet[3], op.packet)
                              else r[s].nack)
  {
    if op.OpRoute? {
      RtpOfIsParsed(op.packet, s);
    }
  }

  /** Over every run a publisher's cache is what storing those packets one after another gives: registering
      again, adding and removing subscribers leave it alone, and unregistering empties it. */
  lemma {:induction false} CacheIsRoutedLog(cap: nat, ops: seq<Op>, s: u32)
    ensures s in Run(cap, ops) ==>
              Run(cap, ops)[s].nack == NackBuffer.Run(NewRoute(cap).nack, RoutedLog(cap, ops, s))
    ensures s !in Run(cap, ops) ==> RoutedLog(cap, ops, s) == []
  {
    if ops != [] {
      var front, op := ops[..|ops| - 1], ops[|ops| - 1];
      CacheIsRoutedLog(cap, front, s);
      CacheStep(Run(cap, front), cap, op, s);
      if op.OpRoute? && s in Run(cap, front) && IsRtpOf(op.packet, s) {
        var put := NackBuffer.Put((op.packet[2] as int) * 256 + op.packet[3], op.packet);
        LogOneMore(NewRoute(cap).nack, RoutedLog(cap, front, s), put);
      }
    }
  }

  lemma LogOneMore(b: NackBuffer.Buffer, log: seq<NackBuffer.Put>, put: NackBuffer.Put)
    ensures NackBuffer.Run(b, log + [put]) == NackBuffer.Store(NackBuffer.Run(b, log), put.s, put.packet)
  {
    assert (log + [put])[..|log|] == log;
  }
}
