/** What becomes of every frame the render scheduler takes in. */
module RenderFates {
  import opened RenderModel
  import opened RenderQueues
  import RenderRuns

  function ShownCount(rendered: seq<Shown>, f: nat): nat {
    if rendered == [] then 0
    else ShownCount(rendered[..|rendered| - 1], f) + if rendered[|rendered| - 1].frame == f then 1 else 0
  }

  function Past(w: World, f: nat): nat {
    ShownCount(w.rendered, f) + FrameCount(w.stale, f) + FrameCount(w.trimmed, f) + FrameCount(w.cleared, f)
  }

  /** How often a frame is found in the queue or in one of its ends. */
  function Sightings(w: World, f: nat): nat {
    FrameCount(w.queue, f) + Past(w, f)
  }

  function One(same: bool): nat {
    if same then 1 else 0
  }

  lemma CountOne(t: Task, f: nat)
    ensures FrameCount([t], f) == One(t.frame == f)
  {
    assert FrameCount([t], f) == FrameCount([], f) + One(t.frame == f);
  }

  lemma EnqueueAddsOne(w: World, k: Tuning, now: int, delay: int, pts: int, peer: string, f: nat)
    ensures Sightings(Enqueue(w, k, now, delay, pts, peer), f) == Sightings(w, f) + One(f == |w.origins|)
  {
    var t := NewTask(w, k, now, delay, pts, peer);
    var grown := Insert(w.queue, t);
    FrameInsert(w.queue, Position(w.queue, t), t, f);
    TrimFrames(grown, peer, k.maxPerPeer, f);
    var fair := RenderRuns.Fair(w, k, now, delay, pts, peer);
    var unfair := if peer != "" then PeerTrims(grown, peer, k.maxPerPeer) else [];
    LastOfFrames(fair, k.maxDepth, f);
    FrameAppend(w.trimmed + unfair, AllBut(fair, k.maxDepth), f);
    FrameAppend(w.trimmed, unfair, f);
  }

  lemma InvalidateMoves(w: World, f: nat)
    ensures Sightings(Invalidate(w), f) == Sightings(w, f)
  {
    FrameAppend(w.cleared, w.queue, f);
  }

  lemma ShowMoves(w: World, t: Task, tick: Tick, f: nat)
    ensures Sightings(ShowFrame(w, t, tick), f) == Sightings(w, f) + One(t.frame == f)
  {
    var s := w.rendered + [Shown(t.frame, t.pts, w.ticket, tick.check, tick.after)];
    assert s[..|s| - 1] == w.rendered;
    InvalidateMoves(w.(rendered := s), f);
  }

  lemma RoundMoves(l: Loop, t: Task, tick: Tick, k: Tuning, f: nat)
    ensures var r := Round(l, t, tick, k);
      Sightings(r.w, f) + FrameCount(r.again, f) == Sightings(l.w, f) + FrameCount(l.again, f) + One(t.frame == f)
  {
    CountOne(t, f);
    match Judge(l.w, t, tick, k)
    case Gone => FrameAppend(l.w.cleared, [t], f);
    case Stale => FrameAppend(l.w.stale, [t], f);
    case Again(due) =>
      var t' := t.(due := due, order := l.w.enqSeq + 1);
      CountOne(t', f);
      FrameAppend(l.again, [t'], f);
    case Show => ShowMoves(l.w, t, tick, f);
  }

  lemma {:induction false} RoundsMove(l: Loop, ts: seq<Task>, ticks: nat -> Tick, k: Tuning, f: nat)
    ensures var r := Rounds(l, ts, ticks, k);
      Sightings(r.w, f) + FrameCount(r.again, f) == Sightings(l.w, f) + FrameCount(l.again, f) + FrameCount(ts, f)
  {
    if ts != [] {
      RoundsMove(l, ts[..|ts| - 1], ticks, k, f);
      RoundMoves(Rounds(l, ts[..|ts| - 1], ticks, k), ts[|ts| - 1], ticks(|ts| - 1), k, f);
    }
  }

  lemma TakeDueMoves(w: World, k: Tuning, now: int, f: nat)
    ensures Sightings(TakeDue(w, k, now), f) + FrameCount(Selected(w, k, now), f) == Sightings(w, f)
  {
    var n := DueCount(w.queue, now);
    assert w.queue == w.queue[..n] + w.queue[n..];
    FrameAppend(w.queue[..n], w.queue[n..], f);
    SortFrames(w.queue[..n], f);
    LastOfFrames(SortDue(w.queue[..n]), k.maxFrames, f);
    FrameAppend(w.trimmed, AllBut(SortDue(w.queue[..n]), k.maxFrames), f);
  }

  lemma PutBackMoves(l: Loop, k: Tuning, f: nat)
    ensures Sightings(PutBack(l, k), f) == Sightings(l.w, f) + FrameCount(l.again, f)
  {
    var q := InsertAll(l.w.queue, l.again);
    InsertAllFrames(l.w.queue, l.again, f);
    LastOfFrames(q, k.maxDepth, f);
    FrameAppend(l.w.trimmed, AllBut(q, k.maxDepth), f);
  }

  lemma DrainMoves(w: World, k: Tuning, now: int, ticks: nat -> Tick, f: nat)
    ensures Sightings(PutBack(RenderRuns.Drained(w, k, now, ticks), k), f) == Sightings(w, f)
  {
    TakeDueMoves(w, k, now, f);
    RoundsMove(Loop(TakeDue(w, k, now), []), Selected(w, k, now), ticks, k, f);
    PutBackMoves(RenderRuns.Drained(w, k, now, ticks), k, f);
  }

  lemma {:induction false} RoundsTakeNothingIn(l: Loop, ts: seq<Task>, ticks: nat -> Tick, k: Tuning)
    ensures Rounds(l, ts, ticks, k).w.origins == l.w.origins
  {
    if ts != [] {
      RoundsTakeNothingIn(l, ts[..|ts| - 1], ticks, k);
    }
  }

  lemma DoMoves(w: World, k: Tuning, op: Op, f: nat)
    ensures Sightings(Do(w, k, op), f) == Sightings(w, f) + One(op.OpEnqueue? && f == |w.origins|)
    ensures |Do(w, k, op).origins| == |w.origins| + One(op.OpEnqueue?)
  {
    match op
    case OpEnqueue(now, delay, pts, peer) => EnqueueAddsOne(w, k, now, delay, pts, peer, f);
    case OpDrain(now, sharing, ticks) =>
      InvalidateMoves(w, f);
      DrainMoves(w, k, now, ticks, f);
      RoundsTakeNothingIn(Loop(TakeDue(w, k, now), []), Selected(w, k, now), ticks, k);
    case OpInvalidate => InvalidateMoves(w, f);
  }

  /** Every enqueued frame is, exactly once, either still queued or rendered, dropped as stale, trimmed
      or cleared; whatever the tuning and the clock. */
  lemma {:induction false} EveryFrameAccountedForOnce(k: Tuning, ops: seq<Op>, f: nat)
    ensures var w := Run(k, ops);
      FrameCount(w.queue, f) + ShownCount(w.rendered, f) + FrameCount(w.stale, f) + FrameCount(w.trimmed, f) +
        FrameCount(w.cleared, f)
      == if f < |w.origins| then 1 else 0
  {
    if ops != [] {
      EveryFrameAccountedForOnce(k, ops[..|ops| - 1], f);
      DoMoves(Run(k, ops[..|ops| - 1]), k, ops[|ops| - 1], f);
    }
  }
}
