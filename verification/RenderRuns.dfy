/** What the render scheduler keeps over every run of enqueue, drain and invalidate. */
module RenderRuns {
  import opened RenderModel
  import opened RenderQueues

  ghost predicate Ordered(w: World) {
    Sorted(w.queue) && OrdersUpTo(w.queue, w.enqSeq)
  }

  ghost predicate Capped(w: World, k: Tuning) {
    && |w.queue| <= k.maxDepth
    && forall peer | peer != "" :: PeerCount(w.queue, peer) <= k.maxPerPeer
  }

  /** No later than its audio deadline or one full cadence after the last frame shown. */
  predicate Prompt(t: Task, lastAt: int, k: Tuning) {
    t.deadline > 0 && (t.due <= t.deadline || t.due <= lastAt + k.maxCadence)
  }

  ghost predicate AllPrompt(w: World, k: Tuning) {
    && 0 <= w.lastAt <= w.clock
    && forall t | t in w.queue :: Prompt(t, w.lastAt, k)
  }

  predicate Stems(t: Task, o: Origin) {
    o.ticket == t.ticket && o.pts == t.pts && o.deadline == t.deadline
  }

  /** A task carries what its frame was enqueued with. */
  predicate Rooted(t: Task, w: World) {
    t.ticket <= w.ticket && t.frame < |w.origins| && Stems(t, w.origins[t.frame])
  }

  ghost predicate AllRooted(w: World) {
    && (forall t | t in w.queue :: Rooted(t, w))
    && (forall o | o in w.origins :: o.ticket <= w.ticket)
    && (forall s | s in w.rendered ::
        s.frame < |w.origins| && w.origins[s.frame].ticket == s.epoch && w.origins[s.frame].pts == s.pts)
  }

  /** Frames shown between two invalidations have strictly increasing timestamps. */
  ghost predicate Increasing(rendered: seq<Shown>) {
    forall i, j | 0 <= i < j < |rendered| ::
      && rendered[i].epoch <= rendered[j].epoch
      && (rendered[i].epoch == rendered[j].epoch && rendered[i].pts >= 0 && rendered[j].pts >= 0 ==>
          rendered[i].pts < rendered[j].pts)
  }

  ghost predicate Progress(w: World) {
    && Increasing(w.rendered)
    && (forall s | s in w.rendered :: s.epoch <= w.ticket && (s.epoch == w.ticket && s.pts >= 0 ==> s.pts <= w.lastPts))
  }

  // ----- enqueue -----

  /** The queue an enqueue has before the global cap. */
  function Fair(w: World, k: Tuning, now: int, delay: int, pts: int, peer: string): seq<Task> {
    var grown := Insert(w.queue, NewTask(w, k, now, delay, pts, peer));
    if peer != "" then TrimPeer(grown, peer, k.maxPerPeer) else grown
  }

  lemma EnqueueKeepsOrder(w: World, k: Tuning, now: int, delay: int, pts: int, peer: string)
    requires ValidTuning(k) && Ordered(w)
    ensures var v := Enqueue(w, k, now, delay, pts, peer);
      && Ordered(v) && |v.queue| <= k.maxDepth
      && forall x | x in v.queue :: x == NewTask(w, k, now, delay, pts, peer) || x in w.queue
  {
    var t := NewTask(w, k, now, delay, pts, peer);
    var grown := Insert(w.queue, t);
    InsertSorted(w.queue, t, w.enqSeq);
    InsertMembers(w.queue, Position(w.queue, t), t);
    TrimSorted(grown, peer, k.maxPerPeer);
    LastOfMembers(Fair(w, k, now, delay, pts, peer), k.maxDepth);
    LastOfSorted(Fair(w, k, now, delay, pts, peer), k.maxDepth);
  }

  /** A task that an enqueue takes out is earlier than all that stay, or is the peer's and earlier than all of
      the peer that stay. */
  lemma EnqueueDropsEarliest(w: World, k: Tuning, now: int, delay: int, pts: int, peer: string, t: Task)
    requires ValidTuning(k) && Ordered(w) && (t in w.queue || t == NewTask(w, k, now, delay, pts, peer))
    requires t !in Enqueue(w, k, now, delay, pts, peer).queue
    ensures var kept := Enqueue(w, k, now, delay, pts, peer).queue;
            || (forall s | s in kept :: t.due < s.due || (t.due == s.due && t.order < s.order))
            || (peer != "" && t.peer == peer
                && forall s | s in kept && s.peer == peer :: t.due < s.due || (t.due == s.due && t.order < s.order))
  {
    var made := NewTask(w, k, now, delay, pts, peer);
    var grown, fair := Insert(w.queue, made), Fair(w, k, now, delay, pts, peer);
    InsertSorted(w.queue, made, w.enqSeq);
    InsertMembers(w.queue, Position(w.queue, made), made);
    LastOfMembers(fair, k.maxDepth);
    if peer != "" {
      TrimSorted(grown, peer, k.maxPerPeer);
    }
    if t in fair {
      CutTakesEarliest(fair, k.maxDepth, t);
      assert forall s | s in LastOf(fair, k.maxDepth) :: Less(t, s);
    } else {
      TrimTakesEarliest(grown, peer, k.maxPerPeer, t);
      assert forall s | s in fair && s.peer == peer :: Less(t, s);
    }
  }

  lemma EnqueueKeepsPeer(w: World, k: Tuning, now: int, delay: int, pts: int, peer: string, other: string)
    requires ValidTuning(k) && other != "" && PeerCount(w.queue, other) <= k.maxPerPeer
    ensures PeerCount(Enqueue(w, k, now, delay, pts, peer).queue, other) <= k.maxPerPeer
  {
    var t := NewTask(w, k, now, delay, pts, peer);
    PeerInsert(w.queue, Position(w.queue, t), t, other);
    TrimPeers(Insert(w.queue, t), peer, k.maxPerPeer, other);
    LastOfPeers(Fair(w, k, now, delay, pts, peer), k.maxDepth, other);
  }

  // ----- one round of the drain loop -----

  ghost predicate LoopOrdered(l: Loop, base: nat) {
    Sorted(l.w.queue) && OrdersUpTo(l.w.queue, base) && Renumbered(l.again, base, l.w.enqSeq)
  }

  lemma {:induction false} RoundsKeepOrder(l: Loop, ts: seq<Task>, ticks: nat -> Tick, k: Tuning, base: nat)
    requires LoopOrdered(l, base)
    ensures LoopOrdered(Rounds(l, ts, ticks, k), base)
  {
    if ts != [] {
      RoundsKeepOrder(l, ts[..|ts| - 1], ticks, k, base);
      RoundKeepsOrder(Rounds(l, ts[..|ts| - 1], ticks, k), ts[|ts| - 1], ticks(|ts| - 1), k, base);
    }
  }

  lemma RoundKeepsOrder(l: Loop, t: Task, tick: Tick, k: Tuning, base: nat)
    requires LoopOrdered(l, base)
    ensures LoopOrdered(Round(l, t, tick, k), base)
  {
  }

  lemma RoundKeepsPeer(l: Loop, t: Task, tick: Tick, k: Tuning, peer: string)
    ensures var r := Round(l, t, tick, k);
      PeerCount(r.w.queue, peer) + PeerCount(r.again, peer)
      <= PeerCount(l.w.queue, peer) + PeerCount(l.again, peer) + if t.peer == peer then 1 else 0
  {
    var r := Round(l, t, tick, k);
    assert r.again != l.again ==> r.again[..|r.again| - 1] == l.again;
  }

  /** A peer holds no more tasks than it had queued and due. */
  lemma {:induction false} RoundsKeepPeers(l: Loop, ts: seq<Task>, ticks: nat -> Tick, k: Tuning, peer: string)
    ensures var r := Rounds(l, ts, ticks, k);
      PeerCount(r.w.queue, peer) + PeerCount(r.again, peer)
      <= PeerCount(l.w.queue, peer) + PeerCount(l.again, peer) + PeerCount(ts, peer)
  {
    if ts != [] {
      RoundsKeepPeers(l, ts[..|ts| - 1], ticks, k, peer);
      RoundKeepsPeer(Rounds(l, ts[..|ts| - 1], ticks, k), ts[|ts| - 1], ticks(|ts| - 1), k, peer);
    }
  }

  lemma {:induction false} RoundsShowFew(l: Loop, ts: seq<Task>, ticks: nat -> Tick, k: Tuning)
    ensures var r := Rounds(l, ts, ticks, k).w.rendered;
      |l.w.rendered| <= |r| <= |l.w.rendered| + |ts| && r[..|l.w.rendered|] == l.w.rendered
  {
    if ts != [] {
      RoundsShowFew(l, ts[..|ts| - 1], ticks, k);
    }
  }

  ghost predicate LoopRooted(l: Loop) {
    AllRooted(l.w) && forall t | t in l.again :: Rooted(t, l.w)
  }

  lemma RoundKeepsRoots(l: Loop, t: Task, tick: Tick, k: Tuning)
    requires LoopRooted(l) && Rooted(t, l.w)
    ensures var r := Round(l, t, tick, k);
      LoopRooted(r) && r.w.origins == l.w.origins && l.w.ticket <= r.w.ticket
  {
  }

  lemma {:induction false} RoundsKeepRoots(l: Loop, ts: seq<Task>, ticks: nat -> Tick, k: Tuning)
    requires LoopRooted(l) && forall t | t in ts :: Rooted(t, l.w)
    ensures var r := Rounds(l, ts, ticks, k);
      LoopRooted(r) && r.w.origins == l.w.origins && l.w.ticket <= r.w.ticket
  {
    if ts != [] {
      RoundsKeepRoots(l, ts[..|ts| - 1], ticks, k);
      assert Rooted(ts[|ts| - 1], l.w);
      RoundKeepsRoots(Rounds(l, ts[..|ts| - 1], ticks, k), ts[|ts| - 1], ticks(|ts| - 1), k);
    }
  }

  lemma RoundKeepsProgress(l: Loop, t: Task, tick: Tick, k: Tuning)
    requires Progress(l.w)
    ensures Progress(Round(l, t, tick, k).w)
  {
    if Judge(l.w, t, tick, k) == Show {
      var w := l.w;
      var s := Shown(t.frame, t.pts, w.ticket, tick.check, tick.after);
      assert forall x | x in w.rendered + [s] :: x in w.rendered || x == s;
      assert forall i | 0 <= i < |w.rendered| :: w.rendered[i] in w.rendered;
    }
  }

  lemma {:induction false} RoundsKeepProgress(l: Loop, ts: seq<Task>, ticks: nat -> Tick, k: Tuning)
    requires Progress(l.w)
    ensures Progress(Rounds(l, ts, ticks, k).w)
  {
    if ts != [] {
      RoundsKeepProgress(l, ts[..|ts| - 1], ticks, k);
      RoundKeepsProgress(Rounds(l, ts[..|ts| - 1], ticks, k), ts[|ts| - 1], ticks(|ts| - 1), k);
    }
  }

  ghost predicate LoopPrompt(l: Loop, k: Tuning) {
    AllPrompt(l.w, k) && forall t | t in l.again :: Prompt(t, l.w.lastAt, k)
  }

  /** A task queued again meets the bound: audio stops short of the deadline, cadence counts from the last frame. */
  lemma AgainIsPrompt(w: World, t: Task, tick: Tick, k: Tuning)
    requires ValidTuning(k) && t.deadline > 0 && 0 <= w.lastAt <= tick.check && Judge(w, t, tick, k).Again?
    ensures Prompt(t.(due := Judge(w, t, tick, k).due), w.lastAt, k)
  {
    if Paced(w, t) && tick.check - w.lastAt < Cadence(w, t, k) {
      assert Int32(tick.check - w.lastAt) == tick.check - w.lastAt;
    }
  }

  lemma RoundKeepsPrompt(l: Loop, t: Task, tick: Tick, k: Tuning)
    requires ValidTuning(k) && LoopPrompt(l, k) && t.deadline > 0 && l.w.clock <= tick.check <= tick.after
    ensures var r := Round(l, t, tick, k);
      LoopPrompt(r, k) && r.w.clock <= tick.after
  {
    if Judge(l.w, t, tick, k).Again? {
      AgainIsPrompt(l.w, t, tick, k);
    }
  }

  lemma {:induction false} RoundsKeepPrompt(l: Loop, ts: seq<Task>, ticks: nat -> Tick, k: Tuning)
    requires ValidTuning(k) && LoopPrompt(l, k) && SteadyTicks(l.w.clock, ticks)
    requires forall t | t in ts :: t.deadline > 0
    ensures var r := Rounds(l, ts, ticks, k);
      LoopPrompt(r, k) && r.w.clock <= ticks(|ts|).check
  {
    if ts != [] {
      var n := |ts| - 1;
      RoundsKeepPrompt(l, ts[..n], ticks, k);
      assert ts[n] in ts;
      RoundKeepsPrompt(Rounds(l, ts[..n], ticks, k), ts[n], ticks(n), k);
    }
  }

  // ----- drain -----

  lemma SelectedMembers(w: World, k: Tuning, now: int)
    requires ValidTuning(k)
    ensures |Selected(w, k, now)| <= k.maxFrames
    ensures forall t | t in Selected(w, k, now) :: t in w.queue
  {
    var due := w.queue[..DueCount(w.queue, now)];
    SortMembers(due);
    LastOfMembers(SortDue(due), k.maxFrames);
  }

  lemma SelectedPeers(w: World, k: Tuning, now: int, peer: string)
    ensures PeerCount(Selected(w, k, now), peer) + PeerCount(TakeDue(w, k, now).queue, peer) <= PeerCount(w.queue, peer)
  {
    var n := DueCount(w.queue, now);
    SortPeers(w.queue[..n], peer);
    LastOfPeers(SortDue(w.queue[..n]), k.maxFrames, peer);
    assert w.queue == w.queue[..n] + w.queue[n..];
    PeerAppend(w.queue[..n], w.queue[n..], peer);
  }

  /** A task that is due is at the front. */
  lemma DueIsFront(q: seq<Task>, now: int, t: Task)
    requires Sorted(q) && t in q && t.due <= now
    ensures t in q[..DueCount(q, now)]
  {
    var n := DueCount(q, now);
    var i :| 0 <= i < |q| && q[i] == t;
    assert n < i ==> Less(q[n], q[i]);
    assert q[..n][i] == t;
  }

  /** When a backlog is cut the newest stay: a frame dropped has no later timestamp than any frame kept with a
      valid one, and among equals was due no later. */
  lemma DrainKeepsNewest(w: World, k: Tuning, now: int, t: Task)
    requires ValidTuning(k) && Ordered(w) && t in w.queue && t.due <= now && t !in Selected(w, k, now)
    ensures |Selected(w, k, now)| == k.maxFrames
    ensures forall s | s in Selected(w, k, now) ::
              && (s.pts >= 0 ==> 0 <= t.pts <= s.pts)
              && (t.pts == s.pts || (t.pts < 0 && s.pts < 0) ==> t.due < s.due || (t.due == s.due && t.order < s.order))
  {
    var due := w.queue[..DueCount(w.queue, now)];
    DueIsFront(w.queue, now, t);
    SortMembers(due);
    SortOrders(due);
    CutComesFirst(SortDue(due), k.maxFrames, t);
    forall s | s in Selected(w, k, now)
      ensures s.pts >= 0 ==> 0 <= t.pts <= s.pts
      ensures t.pts == s.pts || (t.pts < 0 && s.pts < 0) ==> t.due < s.due || (t.due == s.due && t.order < s.order)
    {
      ComesMeans(t, s);
    }
  }

  /** The loop a drain ends with. */
  function Drained(w: World, k: Tuning, now: int, ticks: nat -> Tick): Loop {
    Rounds(Loop(TakeDue(w, k, now), []), Selected(w, k, now), ticks, k)
  }

  lemma PutBackKeeps(l: Loop, k: Tuning, base: nat)
    requires ValidTuning(k) && LoopOrdered(l, base)
    ensures var v := PutBack(l, k);
      && Ordered(v) && |v.queue| <= k.maxDepth
      && forall t | t in v.queue :: t in l.w.queue || t in l.again
  {
    var q := InsertAll(l.w.queue, l.again);
    InsertAllSorted(l.w.queue, l.again, base, l.w.enqSeq);
    InsertAllMembers(l.w.queue, l.again);
    LastOfMembers(q, k.maxDepth);
    LastOfSorted(q, k.maxDepth);
  }

  lemma DrainKeepsOrder(w: World, k: Tuning, now: int, ticks: nat -> Tick)
    requires ValidTuning(k) && Ordered(w)
    ensures var l := Drained(w, k, now, ticks); var v := PutBack(l, k);
      && Ordered(v) && |v.queue| <= k.maxDepth
      && forall t | t in v.queue :: t in l.w.queue || t in l.again
  {
    RoundsKeepOrder(Loop(TakeDue(w, k, now), []), Selected(w, k, now), ticks, k, w.enqSeq);
    PutBackKeeps(Drained(w, k, now, ticks), k, w.enqSeq);
  }

  lemma DrainKeepsPeer(w: World, k: Tuning, now: int, ticks: nat -> Tick, peer: string)
    ensures PeerCount(PutBack(Drained(w, k, now, ticks), k).queue, peer) <= PeerCount(w.queue, peer)
  {
    var l := Drained(w, k, now, ticks);
    SelectedPeers(w, k, now, peer);
    RoundsKeepPeers(Loop(TakeDue(w, k, now), []), Selected(w, k, now), ticks, k, peer);
    InsertAllPeers(l.w.queue, l.again, peer);
    LastOfPeers(InsertAll(l.w.queue, l.again), k.maxDepth, peer);
  }

  lemma DrainKeepsRoots(w: World, k: Tuning, now: int, ticks: nat -> Tick)
    requires ValidTuning(k) && Ordered(w) && AllRooted(w)
    ensures AllRooted(PutBack(Drained(w, k, now, ticks), k))
  {
    var l := Loop(TakeDue(w, k, now), []);
    DrainKeepsOrder(w, k, now, ticks);
    SelectedMembers(w, k, now);
    forall t | t in Selected(w, k, now) ensures Rooted(t, l.w) {
      assert Rooted(t, w);
    }
    forall t | t in l.w.queue ensures Rooted(t, l.w) {
      assert Rooted(t, w);
    }
    RoundsKeepRoots(l, Selected(w, k, now), ticks, k);
    RootsMove(Drained(w, k, now, ticks), PutBack(Drained(w, k, now, ticks), k));
  }

  /** Roots do not depend on where a loop keeps its tasks. */
  lemma RootsMove(l: Loop, v: World)
    requires LoopRooted(l) && v.origins == l.w.origins && v.ticket == l.w.ticket && v.rendered == l.w.rendered
    requires forall t | t in v.queue :: t in l.w.queue || t in l.again
    ensures AllRooted(v)
  {
    forall t | t in v.queue ensures Rooted(t, v) {
      assert Rooted(t, l.w);
    }
  }

  lemma DrainKeepsPrompt(w: World, k: Tuning, now: int, ticks: nat -> Tick)
    requires ValidTuning(k) && Ordered(w) && AllPrompt(w, k) && w.clock <= now && SteadyTicks(now, ticks)
    ensures AllPrompt(PutBack(Drained(w, k, now, ticks), k), k)
  {
    DrainKeepsOrder(w, k, now, ticks);
    SelectedMembers(w, k, now);
    RoundsKeepPrompt(Loop(TakeDue(w, k, now), []), Selected(w, k, now), ticks, k);
  }

  /** A drain while the screen is shared shows nothing, clears the queue and takes a new ticket. */
  lemma SharingClears(w: World, k: Tuning, now: int, ticks: nat -> Tick)
    requires w.queue != []
    ensures var v := Drain(w, k, now, true, ticks);
            v.queue == [] && v.ticket == w.ticket + 1 && v.rendered == w.rendered && v.cleared == w.cleared + w.queue
  {
  }

  /** What a drain queues again stays, unless the queue is too deep and it is earlier than all that stay. */
  lemma PutBackDropsEarliest(l: Loop, k: Tuning, base: nat, t: Task)
    requires ValidTuning(k) && LoopOrdered(l, base) && (t in l.w.queue || t in l.again) && t !in PutBack(l, k).queue
    ensures |PutBack(l, k).queue| == k.maxDepth
    ensures forall s | s in PutBack(l, k).queue :: t.due < s.due || (t.due == s.due && t.order < s.order)
  {
    var q := InsertAll(l.w.queue, l.again);
    InsertAllSorted(l.w.queue, l.again, base, l.w.enqSeq);
    InsertAllHolds(l.w.queue, l.again, t);
    CutTakesEarliest(q, k.maxDepth, t);
    assert forall s | s in LastOf(q, k.maxDepth) :: Less(t, s);
  }

  /** One drain shows at most `maxFrames` frames and forgets none it showed before. */
  lemma DrainShowsFew(w: World, k: Tuning, now: int, sharing: bool, ticks: nat -> Tick)
    requires ValidTuning(k)
    ensures var r := Drain(w, k, now, sharing, ticks).rendered;
      |w.rendered| <= |r| <= |w.rendered| + k.maxFrames && r[..|w.rendered|] == w.rendered
  {
    SelectedMembers(w, k, now);
    RoundsShowFew(Loop(TakeDue(w, k, now), []), Selected(w, k, now), ticks, k);
  }

  // ----- every run -----

  /** The invariant that holds whatever the clock does. */
  ghost predicate Kept(w: World, k: Tuning) {
    Ordered(w) && Capped(w, k) && AllRooted(w) && Progress(w)
  }

  lemma EnqueueKeeps(w: World, k: Tuning, now: int, delay: int, pts: int, peer: string)
    requires ValidTuning(k) && Kept(w, k)
    ensures Kept(Enqueue(w, k, now, delay, pts, peer), k)
  {
    EnqueueKeepsOrder(w, k, now, delay, pts, peer);
    forall other | other != "" ensures PeerCount(Enqueue(w, k, now, delay, pts, peer).queue, other) <= k.maxPerPeer {
      EnqueueKeepsPeer(w, k, now, delay, pts, peer, other);
    }
  }

  lemma DrainKeeps(w: World, k: Tuning, now: int, ticks: nat -> Tick)
    requires ValidTuning(k) && Kept(w, k)
    ensures Kept(PutBack(Drained(w, k, now, ticks), k), k)
  {
    DrainKeepsOrder(w, k, now, ticks);
    DrainKeepsRoots(w, k, now, ticks);
    RoundsKeepProgress(Loop(TakeDue(w, k, now), []), Selected(w, k, now), ticks, k);
    forall peer | peer != "" ensures PeerCount(PutBack(Drained(w, k, now, ticks), k).queue, peer) <= k.maxPerPeer {
      DrainKeepsPeer(w, k, now, ticks, peer);
    }
  }

  lemma DoKeeps(w: World, k: Tuning, op: Op)
    requires ValidTuning(k) && Kept(w, k)
    ensures Kept(Do(w, k, op), k)
  {
    match op
    case OpEnqueue(now, delay, pts, peer) => EnqueueKeeps(w, k, now, delay, pts, peer);
    case OpDrain(now, sharing, ticks) => DrainKeeps(w, k, now, ticks);
    case OpInvalidate =>
  }

  lemma {:induction false} RunKeeps(k: Tuning, ops: seq<Op>)
    requires ValidTuning(k)
    ensures Kept(Run(k, ops), k)
  {
    if ops != [] {
      RunKeeps(k, ops[..|ops| - 1]);
      DoKeeps(Run(k, ops[..|ops| - 1]), k, ops[|ops| - 1]);
    }
  }

  lemma DoKeepsPrompt(w: World, k: Tuning, op: Op)
    requires ValidTuning(k) && Ordered(w) && AllPrompt(w, k) && SteadyOp(w, op)
    ensures AllPrompt(Do(w, k, op), k)
  {
    match op
    case OpEnqueue(now, delay, pts, peer) => EnqueueKeepsOrder(w, k, now, delay, pts, peer);
    case OpDrain(now, sharing, ticks) =>
      if w.queue != [] && !sharing {
        DrainKeepsPrompt(w, k, now, ticks);
      }
    case OpInvalidate =>
  }

  /** Rescheduling cannot postpone a frame without bound: under a clock that never goes back, each
      queued task is due by its audio deadline or one maximal cadence after the last frame shown. */
  lemma {:induction false} NeverPostponedBeyondBound(k: Tuning, ops: seq<Op>)
    requires ValidTuning(k) && SteadyRun(k, ops)
    ensures AllPrompt(Run(k, ops), k)
  {
    if ops != [] {
      var n := |ops| - 1;
      forall i | 0 <= i < n ensures SteadyOp(Run(k, ops[..n][..i]), ops[..n][i]) {
        assert ops[..n][..i] == ops[..i];
      }
      NeverPostponedBeyondBound(k, ops[..n]);
      RunKeeps(k, ops[..n]);
      assert SteadyOp(Run(k, ops[..n]), ops[n]);
      DoKeepsPrompt(Run(k, ops[..n]), k, ops[n]);
    }
  }

  /** In every reachable state the queue is strictly sorted by (due time, sequence number) and within
      its global cap and each named peer's. */
  lemma QueueSortedAndCapped(k: Tuning, ops: seq<Op>)
    requires ValidTuning(k)
    ensures var q := Run(k, ops).queue;
      && (forall i, j | 0 <= i < j < |q| :: q[i].due < q[j].due || (q[i].due == q[j].due && q[i].order < q[j].order))
      && |q| <= k.maxDepth && (forall peer | peer != "" :: PeerCount(q, peer) <= k.maxPerPeer)
  {
    RunKeeps(k, ops);
    var q := Run(k, ops).queue;
    assert forall i, j | 0 <= i < j < |q| :: Less(q[i], q[j]);
  }

  /** Between two invalidations the valid timestamps shown strictly increase, and a frame is only ever
      shown under the ticket it was enqueued with. */
  lemma TimestampsIncreaseWithinEpoch(k: Tuning, ops: seq<Op>)
    requires ValidTuning(k)
    ensures var w := Run(k, ops);
      && Increasing(w.rendered)
      && forall s | s in w.rendered ::
         s.frame < |w.origins| && w.origins[s.frame].ticket == s.epoch && w.origins[s.frame].pts == s.pts
  {
    RunKeeps(k, ops);
  }

  // ----- invalidation, by whatever raises the ticket -----

  /** Once the ticket has moved past that of the due tasks, the drain under way shows none of them. */
  lemma {:induction false} OldTicketsShowNothing(l: Loop, ts: seq<Task>, ticks: nat -> Tick, k: Tuning)
    requires forall t | t in ts :: t.ticket < l.w.ticket
    ensures Rounds(l, ts, ticks, k).w.rendered == l.w.rendered && Rounds(l, ts, ticks, k).w.ticket == l.w.ticket
  {
    if ts != [] {
      OldTicketsShowNothing(l, ts[..|ts| - 1], ticks, k);
      assert ts[|ts| - 1] in ts;
    }
  }

  /** The frames of ticket `e` are those taken in from `epochs[e]` on, before the next ticket was issued. */
  ghost predicate InEpoch(w: World, f: nat, e: nat) {
    e < |w.epochs| && w.epochs[e] <= f && (e + 1 < |w.epochs| ==> f < w.epochs[e + 1])
  }

  ghost predicate Epochal(w: World) {
    && |w.epochs| == w.ticket + 1
    && (forall i | 0 <= i < |w.epochs| :: w.epochs[i] <= |w.origins|)
    && (forall i, j | 0 <= i < j < |w.epochs| :: w.epochs[i] <= w.epochs[j])
    && (forall f | 0 <= f < |w.origins| :: InEpoch(w, f, w.origins[f].ticket))
  }

  lemma InvalidateKeepsEpochs(w: World)
    requires Epochal(w)
    ensures Epochal(Invalidate(w))
  {
    var v := Invalidate(w);
    forall f | 0 <= f < |v.origins| ensures InEpoch(v, f, v.origins[f].ticket) {
      assert InEpoch(w, f, w.origins[f].ticket);
    }
  }

  lemma SameEpochs(w: World, v: World)
    requires Epochal(w) && v.epochs == w.epochs && v.origins == w.origins && v.ticket == w.ticket
    ensures Epochal(v)
  {
    forall f | 0 <= f < |v.origins| ensures InEpoch(v, f, v.origins[f].ticket) {
      assert InEpoch(w, f, w.origins[f].ticket);
    }
  }

  lemma EnqueueKeepsEpochs(w: World, k: Tuning, now: int, delay: int, pts: int, peer: string)
    requires Epochal(w)
    ensures Epochal(Enqueue(w, k, now, delay, pts, peer))
  {
    var v := Enqueue(w, k, now, delay, pts, peer);
    forall f | 0 <= f < |v.origins| ensures InEpoch(v, f, v.origins[f].ticket) {
      assert f < |w.origins| ==> InEpoch(w, f, w.origins[f].ticket);
    }
  }

  lemma RoundKeepsEpochs(l: Loop, t: Task, tick: Tick, k: Tuning)
    requires Epochal(l.w)
    ensures Epochal(Round(l, t, tick, k).w)
  {
    var v := Round(l, t, tick, k).w;
    if v.ticket == l.w.ticket {
      SameEpochs(l.w, v);
    } else {
      InvalidateKeepsEpochs(l.w);
      SameEpochs(Invalidate(l.w), v);
    }
  }

  lemma {:induction false} RoundsKeepEpochs(l: Loop, ts: seq<Task>, ticks: nat -> Tick, k: Tuning)
    requires Epochal(l.w)
    ensures Epochal(Rounds(l, ts, ticks, k).w)
  {
    if ts != [] {
      RoundsKeepEpochs(l, ts[..|ts| - 1], ticks, k);
      RoundKeepsEpochs(Rounds(l, ts[..|ts| - 1], ticks, k), ts[|ts| - 1], ticks(|ts| - 1), k);
    }
  }

  lemma DoKeepsEpochs(w: World, k: Tuning, op: Op)
    requires Epochal(w)
    ensures Epochal(Do(w, k, op))
  {
    match op
    case OpEnqueue(now, delay, pts, peer) => EnqueueKeepsEpochs(w, k, now, delay, pts, peer);
    case OpDrain(now, sharing, ticks) =>
      InvalidateKeepsEpochs(w);
      SameEpochs(w, TakeDue(w, k, now));
      RoundsKeepEpochs(Loop(TakeDue(w, k, now), []), Selected(w, k, now), ticks, k);
      SameEpochs(Drained(w, k, now, ticks).w, PutBack(Drained(w, k, now, ticks), k));
    case OpInvalidate => InvalidateKeepsEpochs(w);
  }

  lemma {:induction false} RunKeepsEpochs(k: Tuning, ops: seq<Op>)
    ensures Epochal(Run(k, ops))
  {
    if ops != [] {
      RunKeepsEpochs(k, ops[..|ops| - 1]);
      DoKeepsEpochs(Run(k, ops[..|ops| - 1]), k, ops[|ops| - 1]);
    }
  }

  /** Nothing enqueued before an invalidation is shown after it, whether the invalidation is a call of its
      own, a screen share found by a drain, or the callback of a frame shown earlier in the same drain: a
      frame shown under ticket `e` was taken in after ticket `e`, and every earlier one, was issued, and
      before the next. */
  lemma NothingSurvivesInvalidation(k: Tuning, ops: seq<Op>)
    requires ValidTuning(k)
    ensures EpochsSeparate(Run(k, ops))
  {
    RunKeeps(k, ops);
    RunKeepsEpochs(k, ops);
    ShownSeparate(Run(k, ops));
  }

  ghost predicate EpochsSeparate(w: World) {
    forall i, e | 0 <= i < |w.rendered| && 0 <= e :: Separate(w, i, e)
  }

  /** If frame number `i` was shown under ticket `e` or a later one, it was taken in after ticket `e`. */
  ghost predicate Separate(w: World, i: nat, e: nat)
    requires i < |w.rendered|
  {
    var s := w.rendered[i];
    && s.epoch < |w.epochs| && (e <= s.epoch ==> w.epochs[e] <= w.epochs[s.epoch] <= s.frame)
    && (s.epoch + 1 < |w.epochs| ==> s.frame < w.epochs[s.epoch + 1])
  }

  lemma ShownSeparate(w: World)
    requires Epochal(w) && AllRooted(w)
    ensures EpochsSeparate(w)
  {
    forall i, e | 0 <= i < |w.rendered| && 0 <= e ensures Separate(w, i, e) {
      ShownInEpoch(w, i, if e <= w.rendered[i].epoch then e else 0);
    }
  }

  lemma ShownInEpoch(w: World, i: nat, e: nat)
    requires Epochal(w) && AllRooted(w) && i < |w.rendered| && e <= w.rendered[i].epoch
    ensures var s := w.rendered[i];
            && s.epoch < |w.epochs| && w.epochs[e] <= w.epochs[s.epoch] <= s.frame
            && (s.epoch + 1 < |w.epochs| ==> s.frame < w.epochs[s.epoch + 1])
  {
    assert w.rendered[i] in w.rendered;
    assert InEpoch(w, w.rendered[i].frame, w.rendered[i].epoch);
  }

  /** `v` comes after `w`: it shows more, under tickets no older than that of `w`, and forgets nothing. */
  ghost predicate Extends(w: World, v: World) {
    && w.ticket <= v.ticket && w.origins <= v.origins && w.epochs <= v.epochs && w.rendered <= v.rendered
    && forall i | |w.rendered| <= i < |v.rendered| :: w.ticket <= v.rendered[i].epoch
  }

  lemma {:induction false} RoundsExtend(w: World, l: Loop, ts: seq<Task>, ticks: nat -> Tick, k: Tuning)
    requires Extends(w, l.w)
    ensures Extends(w, Rounds(l, ts, ticks, k).w)
  {
    if ts != [] {
      RoundsExtend(w, l, ts[..|ts| - 1], ticks, k);
    }
  }

  lemma DoExtends(w: World, v: World, k: Tuning, op: Op)
    requires Extends(w, v)
    ensures Extends(w, Do(v, k, op))
  {
    if op.OpDrain? {
      RoundsExtend(w, Loop(TakeDue(v, k, op.now), []), Selected(v, k, op.now), op.ticks, k);
    }
  }

  /** Whatever a longer run shows beyond a shorter one it shows under a ticket no older; the epochs of the
      shorter run stay as they are. */
  lemma {:induction false} RunExtends(k: Tuning, head: seq<Op>, later: seq<Op>)
    ensures Extends(Run(k, head), Run(k, head + later))
  {
    if later == [] {
      assert head + later == head;
    } else {
      var n := |later| - 1;
      RunExtends(k, head, later[..n]);
      assert head + later == head + later[..n] + [later[n]];
      RunExtendsOne(Run(k, head), k, head + later[..n], later[n]);
    }
  }

  lemma RunExtendsOne(w: World, k: Tuning, ops: seq<Op>, op: Op)
    requires Extends(w, Run(k, ops))
    ensures Extends(w, Run(k, ops + [op]))
  {
    RunAppend(k, ops, op);
    DoExtends(w, Run(k, ops), k, op);
  }

  lemma RunAppend(k: Tuning, ops: seq<Op>, op: Op)
    ensures Run(k, ops + [op]) == Do(Run(k, ops), k, op)
  {
    assert (ops + [op])[..|ops|] == ops;
  }

  lemma {:induction false} RoundsIssue(l: Loop, ts: seq<Task>, ticks: nat -> Tick, k: Tuning)
    ensures var v := Rounds(l, ts, ticks, k).w;
            && v.origins == l.w.origins && l.w.epochs <= v.epochs
            && forall j | |l.w.epochs| <= j < |v.epochs| :: v.epochs[j] == |l.w.origins|
  {
    if ts != [] {
      RoundsIssue(l, ts[..|ts| - 1], ticks, k);
    }
  }

  /** Tickets that an operation issues find the frames taken in before it, and no others. */
  lemma DoIssues(w: World, k: Tuning, op: Op)
    ensures var v := Do(w, k, op);
            forall j | |w.epochs| <= j < |v.epochs| :: v.epochs[j] == |w.origins|
  {
    if op.OpDrain? {
      RoundsIssue(Loop(TakeDue(w, k, op.now), []), Selected(w, k, op.now), op.ticks, k);
    }
  }

  /** So an operation that raises the ticket, however it does, shuts out for good every frame taken in
      before it that it has not shown itself. */
  lemma RaisedTicketShutsOut(k: Tuning, ops: seq<Op>, later: seq<Op>, i: nat)
    requires ValidTuning(k) && ops != [] && Run(k, ops).ticket > Run(k, ops[..|ops| - 1]).ticket
    requires |Run(k, ops).rendered| <= i < |Run(k, ops + later).rendered|
    ensures Run(k, ops + later).rendered[i].frame >= |Run(k, ops[..|ops| - 1]).origins|
  {
    RunExtends(k, ops, later);
    RunKeeps(k, ops + later);
    RunKeepsEpochs(k, ops + later);
    RunKeepsEpochs(k, ops);
    RunKeepsEpochs(k, ops[..|ops| - 1]);
    DoIssues(Run(k, ops[..|ops| - 1]), k, ops[|ops| - 1]);
    ShutOut(Run(k, ops[..|ops| - 1]), Run(k, ops), Run(k, ops + later), i);
  }

  lemma ShutOut(before: World, w: World, v: World, i: nat)
    requires Epochal(before) && Epochal(w) && Epochal(v) && AllRooted(v) && Extends(w, v) && before.ticket < w.ticket
    requires forall j | |before.epochs| <= j < |w.epochs| :: w.epochs[j] == |before.origins|
    requires |w.rendered| <= i < |v.rendered|
    ensures v.rendered[i].frame >= |before.origins|
  {
    ShownInEpoch(v, i, w.ticket);
    assert v.epochs[w.ticket] == w.epochs[w.ticket] == |before.origins|;
  }
}
