/** The render scheduler as the object that updates its queue, numbers and counters in place. */
module RenderScheduler {
  import opened RenderModel
  import opened RenderQueues

  /** Erasing a peer's first task does the first step of trimming it. */
  lemma TrimStep(q: seq<Task>, log: seq<Task>, peer: string, cap: int)
    requires PeerCount(q, peer) > cap && FirstOf(q, peer) < |q|
    ensures var i := FirstOf(q, peer); var rest := RemoveAt(q, i);
      && TrimPeer(rest, peer, cap) == TrimPeer(q, peer, cap)
      && log + [q[i]] + PeerTrims(rest, peer, cap) == log + PeerTrims(q, peer, cap)
      && PeerCount(rest, peer) == PeerCount(q, peer) - 1
  {
    var i := FirstOf(q, peer);
    PeerRemove(q, i, peer);
    assert PeerTrims(q, peer, cap) == [q[i]] + PeerTrims(RemoveAt(q, i), peer, cap);
  }

  class Scheduler {
    const tuning: Tuning
    var queue: seq<Task>
    var enqSeq: nat
    var ticket: nat
    var lastAt: int
    var lastPts: int
    var queuedFrames: nat
    var renderedFrames: nat
    var staleDrops: nat
    var resets: nat
    ghost var clock: int
    ghost var origins: seq<Origin>
    ghost var epochs: seq<nat>
    ghost var rendered: seq<Shown>
    ghost var stale: seq<Task>
    ghost var trimmed: seq<Task>
    ghost var cleared: seq<Task>

    /** The counters agree with the history; the ticket counts the resets. */
    ghost predicate Valid() reads this {
      && ValidTuning(tuning)
      && queuedFrames == |origins| && renderedFrames == |rendered| && staleDrops == |stale| && resets == ticket
    }

    ghost function Value(): World reads this {
      World(queue, enqSeq, ticket, lastAt, lastPts, clock, origins, epochs, rendered, stale, trimmed, cleared)
    }

    constructor (k: Tuning)
      requires ValidTuning(k)
      ensures Valid() && Value() == INITIAL && tuning == k
    {
      tuning := k;
      queue, enqSeq, ticket, lastAt, lastPts := [], 0, 0, 0, -1;
      queuedFrames, renderedFrames, staleDrops, resets := 0, 0, 0, 0;
      clock, origins, epochs, rendered, stale, trimmed, cleared := 0, [], [0], [], [], [], [];
    }

    /** Scans for the first task the new one precedes. */
    method InsertTask(t: Task)
      modifies this`queue
      ensures queue == Insert(old(queue), t)
    {
      var i := 0;
      while i < |queue| && !Less(t, queue[i])
        invariant i <= |queue|
        invariant forall j | 0 <= j < i :: !Less(t, queue[j])
      {
        i := i + 1;
      }
      PositionSplits(queue, t);
      queue := queue[..i] + [t] + queue[i..];
    }

    method CountPeer(peer: string) returns (n: nat)
      ensures n == PeerCount(queue, peer)
    {
      n := 0;
      for i := 0 to |queue|
        invariant n == PeerCount(queue[..i], peer)
      {
        assert queue[..i + 1][..i] == queue[..i];
        if queue[i].peer == peer {
          n := n + 1;
        }
      }
      assert queue[..|queue|] == queue;
    }

    method FindFirst(peer: string) returns (i: nat)
      ensures i == FirstOf(queue, peer)
    {
      i := 0;
      while i < |queue| && queue[i].peer != peer
        invariant i <= |queue|
        invariant forall j | 0 <= j < i :: queue[j].peer != peer
      {
        i := i + 1;
      }
    }

    /** Erases the peer's first task, which is the next one to trim. */
    method EraseFirst(peer: string, ghost cap: int) returns (found: bool)
      requires PeerCount(queue, peer) > cap
      modifies this`queue, this`trimmed
      ensures TrimPeer(queue, peer, cap) == TrimPeer(old(queue), peer, cap)
      ensures trimmed + PeerTrims(queue, peer, cap) == old(trimmed) + PeerTrims(old(queue), peer, cap)
      ensures found ==> PeerCount(queue, peer) == PeerCount(old(queue), peer) - 1 && |queue| < |old(queue)|
      ensures !found ==> FirstOf(queue, peer) == |queue|
    {
      var i := FindFirst(peer);
      found := i < |queue|;
      if found {
        TrimStep(queue, trimmed, peer, cap);
        trimmed := trimmed + [queue[i]];
        queue := RemoveAt(queue, i);
      }
    }

    /** Erases the peer's earliest tasks until it is within its cap. */
    method CapPeer(peer: string)
      modifies this`queue, this`trimmed
      ensures queue == TrimPeer(old(queue), peer, tuning.maxPerPeer)
      ensures trimmed == old(trimmed) + PeerTrims(old(queue), peer, tuning.maxPerPeer)
    {
      ghost var kept := TrimPeer(queue, peer, tuning.maxPerPeer);
      ghost var out := trimmed + PeerTrims(queue, peer, tuning.maxPerPeer);
      var count := CountPeer(peer);
      while count > tuning.maxPerPeer
        invariant count == PeerCount(queue, peer)
        invariant TrimPeer(queue, peer, tuning.maxPerPeer) == kept
        invariant trimmed + PeerTrims(queue, peer, tuning.maxPerPeer) == out
        decreases |queue|
      {
        var found := EraseFirst(peer, tuning.maxPerPeer);
        if !found {
          break;
        }
        count := count - 1;
      }
      assert PeerTrims(queue, peer, tuning.maxPerPeer) == [];
    }

    /** Pops the front until the queue is within its depth. */
    method CapDepth()
      requires tuning.maxDepth >= 0
      modifies this`queue, this`trimmed
      ensures queue == LastOf(old(queue), tuning.maxDepth)
      ensures trimmed == old(trimmed) + AllBut(old(queue), tuning.maxDepth)
    {
      ghost var all := queue;
      ghost var n := 0;
      while |queue| > tuning.maxDepth
        invariant n <= |all| && queue == all[n..] && trimmed == old(trimmed) + all[..n]
        invariant n > 0 ==> |queue| >= tuning.maxDepth
      {
        trimmed := trimmed + [queue[0]];
        queue := queue[1..];
        n := n + 1;
      }
    }

    method Cap(peer: string)
      requires tuning.maxDepth >= 0
      modifies this`queue, this`trimmed
      ensures var fair := if peer != "" then TrimPeer(old(queue), peer, tuning.maxPerPeer) else old(queue);
        var unfair := if peer != "" then PeerTrims(old(queue), peer, tuning.maxPerPeer) else [];
        queue == LastOf(fair, tuning.maxDepth) && trimmed == old(trimmed) + unfair + AllBut(fair, tuning.maxDepth)
    {
      assert trimmed == trimmed + [];
      if peer != "" {
        CapPeer(peer);
      }
      CapDepth();
    }

    /** Numbers a new task and counts it in. */
    method Admit(now: int, delay: int, pts: int, peer: string) returns (t: Task)
      requires Valid()
      modifies this`enqSeq, this`queuedFrames, this`origins, this`clock
      ensures Valid()
      ensures t == NewTask(old(Value()), tuning, now, delay, pts, peer)
      ensures Value() == old(Value()).(enqSeq := old(enqSeq) + 1, clock := now,
                                       origins := old(origins) + [Origin(ticket, pts, t.deadline, now, delay)])
    {
      var due := now + if delay > 0 then delay else 0;
      enqSeq := enqSeq + 1;
      var deadline := if tuning.maxAudioDelay > 0 then due + tuning.maxAudioDelay else 0;
      t := Task(due, deadline, pts, enqSeq, ticket, peer, queuedFrames);
      queuedFrames := queuedFrames + 1;
      origins, clock := origins + [Origin(ticket, pts, t.deadline, now, delay)], now;
    }

    method Enqueue(now: int, delay: int, pts: int, peer: string)
      requires Valid()
      modifies this
      ensures Valid()
      ensures Value() == RenderModel.Enqueue(old(Value()), tuning, now, delay, pts, peer)
    {
      ghost var v := RenderModel.Enqueue(Value(), tuning, now, delay, pts, peer);
      var t := Admit(now, delay, pts, peer);
      InsertTask(t);
      Cap(peer);
      assert queue == v.queue;
      assert trimmed == v.trimmed;
      assert Value() == v;
    }

    method Invalidate()
      requires Valid()
      modifies this
      ensures Valid()
      ensures Value() == RenderModel.Invalidate(old(Value()))
    {
      cleared := cleared + queue;
      epochs := epochs + [|origins|];
      resets := resets + 1;
      ticket := ticket + 1;
      queue, lastAt, lastPts := [], 0, -1;
    }

    /** Pops the tasks that are due. */
    method PopDue(now: int) returns (due: seq<Task>)
      modifies this`queue
      ensures due == old(queue)[..DueCount(old(queue), now)]
      ensures queue == old(queue)[DueCount(old(queue), now)..]
    {
      due := [];
      ghost var all, n := queue, 0;
      while queue != [] && queue[0].due <= now
        invariant n <= |all| && due == all[..n] && queue == all[n..]
        invariant forall i | 0 <= i < n :: all[i].due <= now
      {
        due := due + [queue[0]];
        queue := queue[1..];
        n := n + 1;
      }
      assert n == DueCount(all, now);
    }

    /** Takes the due tasks in showing order, without the oldest of a backlog. */
    method TakeTasks(now: int) returns (due: seq<Task>)
      requires Valid()
      modifies this`queue, this`clock, this`trimmed
      ensures Valid()
      ensures Value() == TakeDue(old(Value()), tuning, now) && due == Selected(old(Value()), tuning, now)
    {
      var all := PopDue(now);
      clock := now;
      due := CutBacklog(SortDue(all));
    }

    method CutBacklog(sorted: seq<Task>) returns (due: seq<Task>)
      requires tuning.maxFrames >= 0
      modifies this`trimmed
      ensures due == LastOf(sorted, tuning.maxFrames) && trimmed == old(trimmed) + AllBut(sorted, tuning.maxFrames)
    {
      due := sorted;
      if |due| > tuning.maxFrames {
        trimmed := trimmed + due[..|due| - tuning.maxFrames];
        due := due[|due| - tuning.maxFrames..];
      }
    }

    /** What one due task meets: dropped, queued again in `again`, or shown. */
    method Handle(t: Task, tick: Tick, again: seq<Task>) returns (kept: seq<Task>)
      requires Valid()
      modifies this
      ensures Valid()
      ensures Loop(Value(), kept) == Round(Loop(old(Value()), again), t, tick, tuning)
    {
      kept := again;
      if t.ticket != ticket {
        cleared := cleared + [t];
        return;
      }
      if t.pts >= 0 && lastPts >= 0 && t.pts <= lastPts {
        staleDrops := staleDrops + 1;
        stale := stale + [t];
        return;
      }
      if tick.hasAudio && t.pts >= 0 {
        var extra := SuggestDelay(t.pts, tick.audioPts, tick.rate, tuning.maxAudioDelay);
        var candidate := tick.check + extra;
        if extra > 0 && !(t.deadline > 0 && candidate >= t.deadline) {
          enqSeq, clock := enqSeq + 1, tick.check;
          kept := again + [t.(due := candidate, order := enqSeq)];
          return;
        }
      }
      if t.pts >= 0 && lastPts >= 0 && lastAt > 0 && VideoMs(t.pts) > VideoMs(lastPts) {
        var cadence := Clamp(Int32(VideoMs(t.pts) - VideoMs(lastPts)), tuning.minCadence, tuning.maxCadence);
        var since := tick.check - lastAt;
        if since < cadence {
          enqSeq, clock := enqSeq + 1, tick.check;
          kept := again + [t.(due := tick.check + (cadence - Int32(since)), order := enqSeq)];
          return;
        }
      }
      ShowTask(t, tick);
    }

    /** Runs the render callback, which may invalidate the queue, and notes what was shown and when. */
    method ShowTask(t: Task, tick: Tick)
      requires Valid()
      modifies this
      ensures Valid()
      ensures Value() == ShowFrame(old(Value()), t, tick)
    {
      rendered := rendered + [Shown(t.frame, t.pts, ticket, tick.check, tick.after)];
      renderedFrames := renderedFrames + 1;
      if tick.invalidates {
        Invalidate();
      }
      lastAt, clock := tick.after, tick.after;
      if t.pts >= 0 {
        lastPts := t.pts;
      }
    }

    method InsertTasks(ts: seq<Task>)
      modifies this`queue
      ensures queue == InsertAll(old(queue), ts)
    {
      for i := 0 to |ts|
        invariant queue == InsertAll(old(queue), ts[..i])
      {
        assert ts[..i + 1][..i] == ts[..i];
        InsertTask(ts[i]);
      }
      assert ts[..|ts|] == ts;
    }

    /** Handles the due tasks in turn. */
    method HandleAll(due: seq<Task>, ticks: nat -> Tick) returns (again: seq<Task>)
      requires Valid()
      modifies this
      ensures Valid()
      ensures Loop(Value(), again) == Rounds(Loop(old(Value()), []), due, ticks, tuning)
    {
      again := [];
      for i := 0 to |due|
        invariant Valid()
        invariant Loop(Value(), again) == Rounds(Loop(old(Value()), []), due[..i], ticks, tuning)
      {
        assert due[..i + 1][..i] == due[..i];
        again := Handle(due[i], ticks(i), again);
      }
      assert due[..|due|] == due;
    }

    method Drain(now: int, sharing: bool, ticks: nat -> Tick)
      requires Valid()
      modifies this
      ensures Valid()
      ensures Value() == RenderModel.Drain(old(Value()), tuning, now, sharing, ticks)
    {
      if queue == [] {
        return;
      }
      if sharing {
        Invalidate();
        return;
      }
      var due := TakeTasks(now);
      var again := HandleAll(due, ticks);
      ghost var l := Loop(Value(), again);
      InsertTasks(again);
      CapDepth();
      assert Value() == PutBack(l, tuning);
    }
  }
}
