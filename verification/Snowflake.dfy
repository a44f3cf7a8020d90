/** Time-ordered 64-bit identifiers: 42 bits of milliseconds, 10 bits of node, 12 bits of sequence. */
module Snowflake {

  const NODE_MAX := 1023
  const SEQUENCES := 4096
  const EPOCH_MS := 1704067200000
  const TWO_22 := 0x40_0000
  const TWO_42 := 0x400_0000_0000
  const TWO_64 := 0x1_0000_0000_0000_0000

  /** The identifier as 64-bit arithmetic composes it. */
  function Compose(nowMs: int, node: nat, sequence: nat): nat {
    (nowMs - EPOCH_MS) % TWO_64 * TWO_22 % TWO_64 + node * SEQUENCES + sequence
  }

  /** A reading the timestamp field can hold. */
  predicate InRange(ms: int) {
    EPOCH_MS <= ms < EPOCH_MS + TWO_42
  }

  class Generator {
    const node: nat
    var lastMs: int
    var sequence: nat

    ghost predicate Valid()
      reads this
    {
      node <= NODE_MAX && sequence < SEQUENCES
    }

    constructor (node: nat)
      requires node <= NODE_MAX
      ensures Valid() && this.node == node && lastMs == 0 && sequence == 0
    {
      this.node := node;
      lastMs, sequence := 0, 0;
    }

    /** One call. `clock` is what the wall clock shows on each successive reading; it may go back and
        forth, but the spin loop ends only because it eventually passes the last millisecond used. */
    method Next(clock: seq<int>) returns (id: nat, used: nat)
      requires Valid()
      requires clock != [] && clock[|clock| - 1] > lastMs
      modifies this
      ensures Valid() && 0 < used <= |clock|
      ensures Follows(old(State(lastMs, sequence)), State(lastMs, sequence), clock[..used])
      ensures id == Compose(lastMs, node, sequence)
    {
      var nowMs := clock[0];
      used := 1;
      if nowMs < lastMs { nowMs := lastMs; }
      if nowMs == lastMs {
        sequence := (sequence + 1) % SEQUENCES;
        if sequence == 0 {
          while nowMs <= lastMs
            invariant 0 < used <= |clock|
            invariant nowMs <= lastMs ==> used < |clock|
            invariant nowMs > lastMs ==> nowMs == clock[used - 1]
            invariant forall i | 0 < i < used && (i < used - 1 || nowMs <= lastMs) :: clock[i] <= lastMs
            invariant lastMs == old(lastMs) && sequence == 0 && Valid()
            decreases |clock| - used
          {
            nowMs := clock[used];
            used := used + 1;
          }
        }
      } else {
        sequence := 0;
      }
      lastMs := nowMs;
      id := Compose(lastMs, node, sequence);
    }
  }

  datatype State = State(lastMs: int, sequence: nat)

  /** The transition: the first reading decides, unless it falls in the last millisecond with the
      sequence used up, when the first later reading does. */
  ghost predicate Follows(s: State, s': State, readings: seq<int>) {
    && readings != []
    && (if readings[0] > s.lastMs then s' == State(readings[0], 0) && |readings| == 1
        else if s.sequence + 1 < SEQUENCES then s' == State(s.lastMs, s.sequence + 1) && |readings| == 1
        else
          && |readings| > 1 && s' == State(readings[|readings| - 1], 0) && readings[|readings| - 1] > s.lastMs
          && forall i | 0 < i < |readings| - 1 :: readings[i] <= s.lastMs)
  }

  // ----- runs -----

  /** A run: the state before each call, and the readings of each call. */
  ghost predicate IsRun(states: seq<State>, readings: seq<seq<int>>) {
    && |states| == |readings| + 1 && states[0] == State(0, 0)
    && (forall i | 0 <= i < |readings| :: Follows(states[i], states[i + 1], readings[i]))
  }

  /** The clock starts at or after the epoch and no reading that is ever used leaves 42 bits. */
  ghost predicate ClockInRange(readings: seq<seq<int>>) {
    && (readings != [] && readings[0] != [] ==> readings[0][0] >= EPOCH_MS)
    && (forall i, j | 0 <= i < |readings| && 0 <= j < |readings[i]| :: readings[i][j] < EPOCH_MS + TWO_42)
  }

  /** No reading that is ever used is 2^42 ms or more after the epoch. */
  ghost predicate BelowLimit(readings: seq<seq<int>>) {
    forall i, j | 0 <= i < |readings| && 0 <= j < |readings[i]| :: readings[i][j] < EPOCH_MS + TWO_42
  }

  lemma {:induction false} SequenceInRange(states: seq<State>, readings: seq<seq<int>>, i: nat)
    requires IsRun(states, readings) && i < |states|
    ensures states[i].sequence < SEQUENCES && 0 <= states[i].lastMs
  {
    if i > 0 {
      SequenceInRange(states, readings, i - 1);
      assert Follows(states[i - 1], states[i], readings[i - 1]);
    }
  }

  lemma {:induction false} BelowLimitStays(states: seq<State>, readings: seq<seq<int>>, i: nat)
    requires IsRun(states, readings) && BelowLimit(readings) && i < |states|
    ensures states[i].lastMs < EPOCH_MS + TWO_42
  {
    if i > 0 {
      BelowLimitStays(states, readings, i - 1);
      assert Follows(states[i - 1], states[i], readings[i - 1]);
    }
  }

  /** The identifier a call that ends in this state returns. */
  function IdOf(s: State, node: nat): nat {
    Compose(s.lastMs, node, s.sequence)
  }

  /** Time and sequence only move forward, whatever the clock does. */
  ghost predicate Precedes(s: State, s': State) {
    s.lastMs < s'.lastMs || (s.lastMs == s'.lastMs && s.sequence < s'.sequence)
  }

  lemma {:induction false} StatesAdvance(states: seq<State>, readings: seq<seq<int>>, i: nat, j: nat)
    requires IsRun(states, readings) && i < j < |states|
    ensures Precedes(states[i], states[j])
    decreases j - i
  {
    assert Follows(states[j - 1], states[j], readings[j - 1]);
    if i < j - 1 {
      StatesAdvance(states, readings, i, j - 1);
    }
  }

  /** Shifting by 22 bits in 64 keeps the low 42 bits. */
  lemma ShiftedTime(t: int)
    ensures t % TWO_64 * TWO_22 % TWO_64 == t % TWO_42 * TWO_22
  {
    var q, r := t % TWO_64 / TWO_42, t % TWO_64 % TWO_42;
    assert t % TWO_64 * TWO_22 == q * TWO_64 + r * TWO_22;
    assert 0 <= r * TWO_22 < TWO_64;
    assert r == t % TWO_42;
  }

  /** For times less than 2^42 ms before or after the epoch: times before it count from the top. */
  lemma ComposeAround(ms: int, node: nat, sequence: nat)
    requires EPOCH_MS - TWO_42 <= ms < EPOCH_MS + TWO_42
    ensures Compose(ms, node, sequence) ==
            (ms - EPOCH_MS + if ms < EPOCH_MS then TWO_42 else 0) * TWO_22 + node * SEQUENCES + sequence
  {
    ShiftedTime(ms - EPOCH_MS);
  }

  /** Exactly when identifiers increase: over every run whose clock stays below the limit, two identifiers
      less than 2^42 ms apart are in order if and only if the epoch does not fall between their times. */
  lemma IdsIncreaseIff(states: seq<State>, readings: seq<seq<int>>, node: nat, i: nat, j: nat)
    requires IsRun(states, readings) && BelowLimit(readings) && node <= NODE_MAX && i < j < |states|
    requires states[j].lastMs - states[i].lastMs < TWO_42
    ensures IdOf(states[i], node) < IdOf(states[j], node) <==> !(states[i].lastMs < EPOCH_MS <= states[j].lastMs)
  {
    StatesAdvance(states, readings, i, j);
    SequenceInRange(states, readings, i);
    SequenceInRange(states, readings, j);
    BelowLimitStays(states, readings, i);
    BelowLimitStays(states, readings, j);
    ComposeAround(states[i].lastMs, node, states[i].sequence);
    ComposeAround(states[j].lastMs, node, states[j].sequence);
  }

  lemma {:induction false} RunInRange(states: seq<State>, readings: seq<seq<int>>, i: nat)
    requires IsRun(states, readings) && ClockInRange(readings) && 0 < i < |states|
    ensures InRange(states[i].lastMs) && states[i].sequence < SEQUENCES
  {
    assert Follows(states[i - 1], states[i], readings[i - 1]);
    if i > 1 {
      RunInRange(states, readings, i - 1);
    }
  }

  /** Identifiers of one generator strictly increase over every run whose clock starts at or after the
      epoch, whatever it does in between, including across the wrap of the 4096 sequence numbers. */
  lemma IdsIncrease(states: seq<State>, readings: seq<seq<int>>, node: nat, i: nat, j: nat)
    requires IsRun(states, readings) && ClockInRange(readings) && node <= NODE_MAX
    requires 0 < i < j < |states|
    ensures IdOf(states[i], node) < IdOf(states[j], node)
  {
    RunInRange(states, readings, i);
    RunInRange(states, readings, j);
    IdsIncreaseIff(states, readings, node, i, j);
  }

  /** Node and sequence can be read back from every identifier, whatever its time. */
  lemma LowBits(ms: int, node: nat, sequence: nat)
    requires node <= NODE_MAX && sequence < SEQUENCES
    ensures var id := Compose(ms, node, sequence);
            id / SEQUENCES % 1024 == node && id % SEQUENCES == sequence && id / TWO_22 == (ms - EPOCH_MS) % TWO_42
  {
    ShiftedTime(ms - EPOCH_MS);
    var t := (ms - EPOCH_MS) % TWO_42;
    var id := Compose(ms, node, sequence);
    assert id == (t * 1024 + node) * SEQUENCES + sequence;
    assert id / SEQUENCES == t * 1024 + node;
  }

  /** And so can a time the field can hold. */
  lemma Decompose(ms: int, node: nat, sequence: nat)
    requires InRange(ms) && node <= NODE_MAX && sequence < SEQUENCES
    ensures var id := Compose(ms, node, sequence);
            id / SEQUENCES % 1024 == node && id % SEQUENCES == sequence && id / TWO_22 + EPOCH_MS == ms
  {
    LowBits(ms, node, sequence);
  }

  /** Generators on different nodes never produce the same identifier, in any two runs of any two clocks. */
  lemma NodesNeverCollide(s1: seq<State>, r1: seq<seq<int>>, n1: nat, i: nat, s2: seq<State>, r2: seq<seq<int>>,
                          n2: nat, j: nat)
    requires IsRun(s1, r1) && i < |s1| && n1 <= NODE_MAX
    requires IsRun(s2, r2) && j < |s2| && n2 <= NODE_MAX
    requires n1 != n2
    ensures IdOf(s1[i], n1) != IdOf(s2[j], n2)
  {
    SequenceInRange(s1, r1, i);
    SequenceInRange(s2, r2, j);
    LowBits(s1[i].lastMs, n1, s1[i].sequence);
    LowBits(s2[j].lastMs, n2, s2[j].sequence);
  }

  /** A clock that starts before the epoch and passes it breaks the order: the first identifier is huge. */
  lemma EarlyClockBreaksOrder(node: nat)
    requires node <= NODE_MAX
    ensures var states := [State(0, 0), State(EPOCH_MS - 1, 0), State(EPOCH_MS, 0)];
            var readings := [[EPOCH_MS - 1], [EPOCH_MS]];
            && IsRun(states, readings)
            && Compose(states[1].lastMs, node, 0) > Compose(states[2].lastMs, node, 0)
  {
  }
}
