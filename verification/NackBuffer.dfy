/** The per-publisher retransmission cache: a bounded FIFO of packets by sequence number. */
module NackBuffer {
  import opened Bytes

  const DEFAULT_CAPACITY := 1500
  const DEFAULT_MAX_PACKET := 1600

  datatype Buffer = Buffer(capacity: nat, maxPacket: nat, order: seq<u16>, packets: map<u16, seq<byte>>)

  function New(capacity: nat, maxPacket: nat): Buffer {
    Buffer(if capacity > 0 then capacity else DEFAULT_CAPACITY,
           if maxPacket > 0 then maxPacket else DEFAULT_MAX_PACKET, [], map[])
  }

  predicate Accepts(b: Buffer, packet: seq<byte>) {
    0 < |packet| <= b.maxPacket
  }

  function Store(b: Buffer, s: u16, packet: seq<byte>): Buffer {
    if !Accepts(b, packet) then b
    else if s in b.packets then b.(packets := b.packets[s := packet])
    else
      var kept := if |b.packets| >= b.capacity && b.order != []
                  then b.(order := b.order[1..], packets := b.packets - {b.order[0]}) else b;
      kept.(order := kept.order + [s], packets := kept.packets[s := packet])
  }

  function Get(b: Buffer, s: u16): Option<seq<byte>> {
    if s in b.packets then Some(b.packets[s]) else None
  }

  /** The cache as the source keeps it, updated in place. */
  class Cache {
    const capacity: nat
    const maxPacket: nat
    var order: seq<u16>
    var packets: map<u16, seq<byte>>

    function Value(): Buffer
      reads this
    {
      Buffer(capacity, maxPacket, order, packets)
    }

    constructor (capacity: nat, maxPacket: nat)
      ensures Value() == New(capacity, maxPacket)
    {
      this.capacity := if capacity > 0 then capacity else DEFAULT_CAPACITY;
      this.maxPacket := if maxPacket > 0 then maxPacket else DEFAULT_MAX_PACKET;
      order, packets := [], map[];
    }

    method StorePacket(s: u16, packet: seq<byte>)
      modifies this
      ensures Value() == Store(old(Value()), s, packet)
    {
      if |packet| == 0 || |packet| > maxPacket { return; }
      if s in packets {
        packets := packets[s := packet];
        return;
      }
      if |packets| >= capacity && order != [] {
        var oldest := order[0];
        order := order[1..];
        packets := packets - {oldest};
      }
      order := order + [s];
      packets := packets[s := packet];
    }
  }

  // ----- the cache against the log of everything ever stored -----

  datatype Put = Put(s: u16, packet: seq<byte>)

  function Run(b: Buffer, log: seq<Put>): Buffer {
    if log == [] then b else Store(Run(b, log[..|log| - 1]), log[|log| - 1].s, log[|log| - 1].packet)
  }

  /** The last bytes accepted for `s`. */
  function Latest(b: Buffer, log: seq<Put>, s: u16): Option<seq<byte>> {
    if log == [] then None
    else if log[|log| - 1].s == s && Accepts(b, log[|log| - 1].packet) then Some(log[|log| - 1].packet)
    else Latest(b, log[..|log| - 1], s)
  }

  /** The last `capacity` insertions. */
  function Window(capacity: nat, inserted: seq<u16>): (w: seq<u16>)
    ensures |w| <= capacity
  {
    if |inserted| <= capacity then inserted else inserted[|inserted| - capacity..]
  }

  /** The sequence numbers inserted over the whole log: those accepted while outside the window. */
  function Inserted(b: Buffer, log: seq<Put>): seq<u16> {
    if log == [] then []
    else
      var before, last := Inserted(b, log[..|log| - 1]), log[|log| - 1];
      if Accepts(b, last.packet) && last.s !in Window(b.capacity, before) then before + [last.s] else before
  }

  /** The queue and the map hold the same sequence numbers, each once, within the capacity. */
  ghost predicate Consistent(b: Buffer) {
    b.capacity > 0 && |b.order| <= b.capacity && multiset(b.order) == multiset(b.packets.Keys)
  }

  lemma ConsistentMeans(b: Buffer)
    requires Consistent(b)
    ensures forall s :: s in b.packets <==> s in b.order
    ensures |b.packets| == |b.order| <= b.capacity
    ensures forall i, j | 0 <= i < j < |b.order| :: b.order[i] != b.order[j]
  {
    forall s ensures s in b.packets <==> s in b.order {
      assert s in multiset(b.order) <==> s in multiset(b.packets.Keys);
    }
    assert |multiset(b.order)| == |multiset(b.packets.Keys)|;
    forall i, j | 0 <= i < j < |b.order| ensures b.order[i] != b.order[j] {
      assert b.order == b.order[..i] + [b.order[i]] + b.order[i + 1..j] + [b.order[j]] + b.order[j + 1..];
      assert multiset(b.packets.Keys)[b.order[i]] <= 1;
    }
  }

  lemma EvictConsistent(b: Buffer)
    requires Consistent(b) && b.order != []
    ensures Consistent(b.(order := b.order[1..], packets := b.packets - {b.order[0]}))
  {
    assert b.order == [b.order[0]] + b.order[1..];
    assert (b.packets - {b.order[0]}).Keys == b.packets.Keys - {b.order[0]};
  }

  lemma AppendConsistent(b: Buffer, s: u16, packet: seq<byte>)
    requires Consistent(b) && s !in b.packets && |b.order| < b.capacity
    ensures Consistent(b.(order := b.order + [s], packets := b.packets[s := packet]))
  {
    assert b.packets[s := packet].Keys == b.packets.Keys + {s};
  }

  lemma StoreConsistent(b: Buffer, s: u16, packet: seq<byte>)
    requires Consistent(b)
    ensures Consistent(Store(b, s, packet))
  {
    if Accepts(b, packet) {
      assert |multiset(b.order)| == |multiset(b.packets.Keys)|;
      if s in b.packets {
        assert b.packets[s := packet].Keys == b.packets.Keys;
      } else if |b.packets| >= b.capacity && b.order != [] {
        EvictConsistent(b);
        AppendConsistent(b.(order := b.order[1..], packets := b.packets - {b.order[0]}), s, packet);
      } else {
        AppendConsistent(b, s, packet);
      }
    }
  }

  lemma WindowSnoc(capacity: nat, inserted: seq<u16>, s: u16)
    requires capacity > 0
    ensures var w := Window(capacity, inserted);
            Window(capacity, inserted + [s]) == (if |w| < capacity then w else w[1..]) + [s]
  {
  }

  ghost predicate Agrees(b: Buffer, log: seq<Put>, state: Buffer) {
    && Consistent(state) && state.capacity == b.capacity && state.maxPacket == b.maxPacket
    && state.order == Window(b.capacity, Inserted(b, log))
    && (forall s | s in state.packets :: Latest(b, log, s) == Some(state.packets[s]))
  }

  lemma LatestStep(b: Buffer, log: seq<Put>, state: Buffer, s: u16)
    requires log != [] && Consistent(state) && state.capacity == b.capacity && state.maxPacket == b.maxPacket
    requires forall r | r in state.packets :: Latest(b, log[..|log| - 1], r) == Some(state.packets[r])
    requires s in Store(state, log[|log| - 1].s, log[|log| - 1].packet).packets
    ensures Latest(b, log, s) == Some(Store(state, log[|log| - 1].s, log[|log| - 1].packet).packets[s])
  {
  }

  lemma OrderStep(b: Buffer, log: seq<Put>, state: Buffer)
    requires log != [] && b.capacity > 0 && Agrees(b, log[..|log| - 1], state)
    ensures Store(state, log[|log| - 1].s, log[|log| - 1].packet).order == Window(b.capacity, Inserted(b, log))
  {
    ConsistentMeans(state);
    WindowSnoc(b.capacity, Inserted(b, log[..|log| - 1]), log[|log| - 1].s);
  }

  lemma AgreesStep(b: Buffer, log: seq<Put>, state: Buffer)
    requires log != [] && b.capacity > 0 && Agrees(b, log[..|log| - 1], state)
    ensures Agrees(b, log, Store(state, log[|log| - 1].s, log[|log| - 1].packet))
  {
    var last := log[|log| - 1];
    StoreConsistent(state, last.s, last.packet);
    OrderStep(b, log, state);
    forall s | s in Store(state, last.s, last.packet).packets
      ensures Latest(b, log, s) == Some(Store(state, last.s, last.packet).packets[s])
    {
      LatestStep(b, log, state, s);
    }
  }

  /** The cache is exactly the last `capacity` insertions of its log, without duplicates, each with
      the last bytes accepted for it: nothing else is retrievable and nothing of that is missing. */
  lemma {:induction false} MatchesLog(capacity: nat, maxPacket: nat, log: seq<Put>)
    ensures var b := New(capacity, maxPacket); Agrees(b, log, Run(b, log))
  {
    var b := New(capacity, maxPacket);
    if log == [] {
      assert Consistent(b);
    } else {
      MatchesLog(capacity, maxPacket, log[..|log| - 1]);
      AgreesStep(b, log, Run(b, log[..|log| - 1]));
    }
  }

  /** What a lookup returns, in terms of the log alone. */
  lemma GetIsLatestInWindow(capacity: nat, maxPacket: nat, log: seq<Put>, s: u16)
    ensures var b := New(capacity, maxPacket);
            Get(Run(b, log), s) == if s in Window(b.capacity, Inserted(b, log)) then Latest(b, log, s) else None
  {
    MatchesLog(capacity, maxPacket, log);
    ConsistentMeans(Run(New(capacity, maxPacket), log));
  }

  lemma WindowMembers(capacity: nat, ins: seq<u16>, i: nat)
    requires i < |ins|
    ensures |ins| - (i + 1) < capacity ==> ins[i] in Window(capacity, ins)
    ensures |ins| - (i + 1) >= capacity && (forall k | i < k < |ins| :: ins[k] != ins[i]) ==>
            ins[i] !in Window(capacity, ins)
  {
    if |ins| - (i + 1) < capacity {
      assert Window(capacity, ins)[i - (|ins| - |Window(capacity, ins)|)] == ins[i];
    }
  }

  /** Insertion number `i` is still retrievable while fewer than `capacity` insertions followed it;
      after that it is gone unless its number was inserted again. */
  lemma Survival(capacity: nat, maxPacket: nat, log: seq<Put>, i: nat)
    requires i < |Inserted(New(capacity, maxPacket), log)|
    ensures var b := New(capacity, maxPacket);
            var ins := Inserted(b, log);
            && (|ins| - (i + 1) < b.capacity ==> Get(Run(b, log), ins[i]).Some?)
            && (|ins| - (i + 1) >= b.capacity && (forall k | i < k < |ins| :: ins[k] != ins[i]) ==>
                Get(Run(b, log), ins[i]) == None)
  {
    var b := New(capacity, maxPacket);
    var s := Inserted(b, log)[i];
    WindowMembers(b.capacity, Inserted(b, log), i);
    MatchesLog(capacity, maxPacket, log);
    ConsistentMeans(Run(b, log));
    assert s in Run(b, log).packets <==> s in Run(b, log).order;
  }

  /** Which packets the cache takes: after a store the packet is retrievable under its number exactly if it is
      not empty and not too long, or was there already. */
  lemma TakesExactlyFitting(b: Buffer, s: u16, packet: seq<byte>)
    requires Consistent(b) && b.capacity > 0
    ensures Get(Store(b, s, packet), s) == Some(packet) <==>
            0 < |packet| <= b.maxPacket || Get(b, s) == Some(packet)
  {
  }

  /** The limits used when none is given. */
  lemma DefaultLimits(capacity: nat, maxPacket: nat)
    ensures var b := New(capacity, maxPacket);
            && (capacity > 0 ==> b.capacity == capacity) && (capacity == 0 ==> b.capacity == 1500)
            && (maxPacket > 0 ==> b.maxPacket == maxPacket) && (maxPacket == 0 ==> b.maxPacket == 1600)
  {
  }
}
